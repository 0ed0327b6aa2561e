/**
 * The CPU model loader of models.py: three module-level globals (tokenizer,
 * model, active model name) filled lazily by walking an ordered candidate
 * list and keeping the first candidate that loads.
 *
 * The Hugging Face loader `try_load_model` is an oracle `tryLoad` handed to
 * every call: `Some((tokenizer, model))` when loading `name` succeeds,
 * `None` when it raises. The names handed to the oracle are returned as
 * `tried`, in call order, so that skipping, ordering and caching can be
 * stated.
 */
module Models {
  import opened Wrappers

  const GptNeo: string := "EleutherAI/gpt-neo-125M"
  const DistilGpt2: string := "distilgpt2"
  /** The message of the `RuntimeError` raised when no candidate loads. */
  const NoModelMessage: string := "\U{1F6A8} No CPU models could be loaded!"
  const UnknownName: string := "Unknown"

  /** `MODEL_CANDIDATES`: the `MODEL_NAME` environment override (possibly unset or empty), then two built-in names. */
  function CandidateList(modelNameEnv: Option<string>): seq<Option<string>>
  {
    [modelNameEnv, Some(GptNeo), Some(DistilGpt2)]
  }

  /** `not candidate`: an unset or empty entry is skipped. */
  predicate Falsy(candidate: Option<string>)
  {
    candidate.None? || candidate.value == ""
  }

  /** The names the loop may hand to the loader, in list order, after the skip rule. */
  function Eligible(cands: seq<Option<string>>): (names: seq<string>)
    ensures |names| <= |cands|
    ensures forall i :: 0 <= i < |names| ==> names[i] != "" && Some(names[i]) in cands
  {
    if |cands| == 0 then []
    else if Falsy(cands[0]) then Eligible(cands[1..])
    else [cands[0].value] + Eligible(cands[1..])
  }

  /** A successful load: what `load_model` returns and stores in the globals. */
  datatype Loaded<Tok, Mdl> = Loaded(tokenizer: Tok, model: Mdl, name: string)

  /** One walk over the candidates: the names handed to the loader, and the load kept if any. */
  datatype Cascade<Tok, Mdl> = Cascade(tried: seq<string>, loaded: Option<Loaded<Tok, Mdl>>)

  /** The `for candidate in MODEL_CANDIDATES` loop of `load_model`, as a walk over the list. */
  function RunCascade<Tok, Mdl>(cands: seq<Option<string>>, tryLoad: string -> Option<(Tok, Mdl)>)
    : Cascade<Tok, Mdl>
  {
    if |cands| == 0 then Cascade([], None)
    else if Falsy(cands[0]) then RunCascade(cands[1..], tryLoad)
    else
      var name := cands[0].value;
      match tryLoad(name)
      case Some(pair) => Cascade([name], Some(Loaded(pair.0, pair.1, name)))
      case None =>
        var rest := RunCascade(cands[1..], tryLoad);
        Cascade([name] + rest.tried, rest.loaded)
  }

  /**
   * The loader sees the eligible names in order and nothing else; every
   * name before the last one tried failed; the walk stops at the first name
   * that loads and keeps that load, or tries every eligible name and keeps
   * none.
   */
  lemma {:induction false} CascadeSound<Tok, Mdl>(cands: seq<Option<string>>, tryLoad: string -> Option<(Tok, Mdl)>)
    ensures var c := RunCascade(cands, tryLoad);
      && c.tried <= Eligible(cands)
      && (forall i :: 0 <= i < |c.tried| - 1 ==> tryLoad(c.tried[i]).None?)
      && (c.loaded.None? ==>
            c.tried == Eligible(cands) && forall i :: 0 <= i < |c.tried| ==> tryLoad(c.tried[i]).None?)
      && (c.loaded.Some? ==>
            && |c.tried| >= 1
            && c.loaded.value.name == c.tried[|c.tried| - 1]
            && tryLoad(c.loaded.value.name) == Some((c.loaded.value.tokenizer, c.loaded.value.model)))
  {
    if |cands| > 0 {
      CascadeSound(cands[1..], tryLoad);
      if !Falsy(cands[0]) && tryLoad(cands[0].value).None? {
        var rest := RunCascade(cands[1..], tryLoad);
        assert RunCascade(cands, tryLoad).tried == [cands[0].value] + rest.tried;
        assert Eligible(cands) == [cands[0].value] + Eligible(cands[1..]);
      }
    }
  }

  /**
   * Conversely, the first eligible candidate that loads is the one kept:
   * when entry `k` is eligible and loads and every eligible entry before it
   * fails, the walk keeps candidate `k`.
   */
  lemma {:induction false} CascadeKeepsFirstLoadable<Tok, Mdl>(
    cands: seq<Option<string>>, tryLoad: string -> Option<(Tok, Mdl)>, k: nat)
    requires k < |cands| && !Falsy(cands[k]) && tryLoad(cands[k].value).Some?
    requires forall j :: 0 <= j < k && !Falsy(cands[j]) ==> tryLoad(cands[j].value).None?
    ensures var c := RunCascade(cands, tryLoad);
      && c.loaded.Some?
      && c.loaded.value.name == cands[k].value
      && c.tried == Eligible(cands[..k + 1])
  {
    if k > 0 {
      CascadeKeepsFirstLoadable(cands[1..], tryLoad, k - 1);
      FirstEntryPassedOver(cands, tryLoad, k);
    }
  }

  /** An entry before the first loadable one is skipped or fails: the walk and the eligible prefix both move past it. */
  lemma FirstEntryPassedOver<Tok, Mdl>(cands: seq<Option<string>>, tryLoad: string -> Option<(Tok, Mdl)>, k: nat)
    requires 0 < k < |cands|
    requires !Falsy(cands[0]) ==> tryLoad(cands[0].value).None?
    ensures var head := if Falsy(cands[0]) then [] else [cands[0].value];
      && RunCascade(cands, tryLoad) == After(head, RunCascade(cands[1..], tryLoad))
      && Eligible(cands[..k + 1]) == head + Eligible(cands[1..][..k])
  {
    assert cands[..k + 1][1..] == cands[1..][..k];
    if Falsy(cands[0]) {
      assert [] + RunCascade(cands[1..], tryLoad).tried == RunCascade(cands[1..], tryLoad).tried;
    }
  }

  /** The walk after `tried` names have already failed. */
  function After<Tok, Mdl>(tried: seq<string>, c: Cascade<Tok, Mdl>): Cascade<Tok, Mdl>
  {
    Cascade(tried + c.tried, c.loaded)
  }

  lemma AfterNothing<Tok, Mdl>(c: Cascade<Tok, Mdl>)
    ensures After([], c) == c
  {
    assert [] + c.tried == c.tried;
  }

  lemma AfterTwice<Tok, Mdl>(a: seq<string>, b: seq<string>, c: Cascade<Tok, Mdl>)
    ensures After(a + b, c) == After(a, After(b, c))
  {
    assert (a + b) + c.tried == a + (b + c.tried);
  }

  lemma SkipStep<Tok, Mdl>(cands: seq<Option<string>>, tryLoad: string -> Option<(Tok, Mdl)>, i: nat)
    requires i < |cands| && Falsy(cands[i])
    ensures RunCascade(cands[i..], tryLoad) == RunCascade(cands[i + 1..], tryLoad)
  {
    assert cands[i..][1..] == cands[i + 1..];
  }

  lemma FailStep<Tok, Mdl>(cands: seq<Option<string>>, tryLoad: string -> Option<(Tok, Mdl)>, i: nat)
    requires i < |cands| && !Falsy(cands[i]) && tryLoad(cands[i].value).None?
    ensures RunCascade(cands[i..], tryLoad) == After([cands[i].value], RunCascade(cands[i + 1..], tryLoad))
  {
    assert cands[i..][1..] == cands[i + 1..];
  }

  lemma LoadStep<Tok, Mdl>(cands: seq<Option<string>>, tryLoad: string -> Option<(Tok, Mdl)>, i: nat)
    requires i < |cands| && !Falsy(cands[i]) && tryLoad(cands[i].value).Some?
    ensures var pair := tryLoad(cands[i].value).value;
      RunCascade(cands[i..], tryLoad) == Cascade([cands[i].value], Some(Loaded(pair.0, pair.1, cands[i].value)))
  {
  }

  /** An empty `MODEL_NAME` behaves exactly like an unset one. */
  lemma EmptyOverrideIsNoOverride<Tok, Mdl>(tryLoad: string -> Option<(Tok, Mdl)>)
    ensures RunCascade(CandidateList(Some("")), tryLoad) == RunCascade(CandidateList(None), tryLoad)
  {
    assert CandidateList(Some(""))[1..] == CandidateList(None)[1..];
  }

  /** A non-empty `MODEL_NAME` is the first name handed to the loader. */
  lemma OverrideTriedFirst<Tok, Mdl>(name: string, tryLoad: string -> Option<(Tok, Mdl)>)
    requires name != ""
    ensures var c := RunCascade(CandidateList(Some(name)), tryLoad);
      |c.tried| >= 1 && c.tried[0] == name
  {
  }

  /**
   * The three globals of models.py. `candidates` is `MODEL_CANDIDATES`,
   * fixed when the module is imported.
   */
  class ModelState<Tok, Mdl> {
    const candidates: seq<Option<string>>
    var tokenizer: Option<Tok>
    var model: Option<Mdl>
    var activeModelName: Option<string>

    /** The globals are set together, to a candidate that passed the skip rule. */
    ghost predicate Valid()
      reads this
    {
      && (tokenizer.Some? <==> model.Some?)
      && (model.Some? <==> activeModelName.Some?)
      && (activeModelName.Some? ==> activeModelName.value in Eligible(candidates))
    }

    /** `tokenizer and model` (a loaded tokenizer and model are taken to be truthy). */
    predicate IsLoaded()
      reads this
    {
      tokenizer.Some? && model.Some?
    }

    /** The cached triple. */
    function Current(): Loaded<Tok, Mdl>
      reads this
      requires Valid() && IsLoaded()
    {
      Loaded(tokenizer.value, model.value, activeModelName.value)
    }

    /** Module import: the candidate list is built and all three globals are `None`. */
    constructor (modelNameEnv: Option<string>)
      ensures Valid() && !IsLoaded()
      ensures candidates == CandidateList(modelNameEnv)
      ensures tokenizer.None? && model.None? && activeModelName.None?
    {
      candidates := CandidateList(modelNameEnv);
      tokenizer, model, activeModelName := None, None, None;
    }

    /**
     * `load_model`: the cached triple if both globals are set, with no call
     * to the loader; otherwise the walk over the candidates, committing the
     * first load to the globals, or the `RuntimeError` with the globals left
     * unset when every candidate fails.
     */
    method LoadModel(tryLoad: string -> Option<(Tok, Mdl)>)
      returns (r: Result<Loaded<Tok, Mdl>, string>, tried: seq<string>)
      requires Valid()
      modifies this
      ensures Valid()
      ensures old(IsLoaded()) ==> r == Success(old(Current())) && tried == [] && unchanged(this)
      ensures !old(IsLoaded()) ==> tried == RunCascade(candidates, tryLoad).tried
      ensures !old(IsLoaded()) && RunCascade(candidates, tryLoad).loaded.Some? ==>
        IsLoaded() && Current() == RunCascade(candidates, tryLoad).loaded.value && r == Success(Current())
      ensures !old(IsLoaded()) && RunCascade(candidates, tryLoad).loaded.None? ==>
        r == Failure(NoModelMessage) && unchanged(this)
    {
      if tokenizer.Some? && model.Some? {
        return Success(Loaded(tokenizer.value, model.value, activeModelName.value)), [];
      }
      tried := [];
      assert candidates[0..] == candidates;
      AfterNothing(RunCascade(candidates, tryLoad));
      for i := 0 to |candidates|
        invariant unchanged(this)
        invariant RunCascade(candidates, tryLoad) == After(tried, RunCascade(candidates[i..], tryLoad))
      {
        var candidate := candidates[i];
        if Falsy(candidate) {
          SkipStep(candidates, tryLoad, i);
          continue;
        }
        var outcome := tryLoad(candidate.value);
        match outcome {
          case Some(pair) =>
            LoadStep(candidates, tryLoad, i);
            AfterTwice(tried, [candidate.value], RunCascade(candidates[i + 1..], tryLoad));
            tried := tried + [candidate.value];
            tokenizer, model, activeModelName := Some(pair.0), Some(pair.1), Some(candidate.value);
            CascadeSound(candidates, tryLoad);
            assert tried[|tried| - 1] == Eligible(candidates)[|tried| - 1];
            return Success(Loaded(pair.0, pair.1, candidate.value)), tried;
          case None =>
            FailStep(candidates, tryLoad, i);
            AfterTwice(tried, [candidate.value], RunCascade(candidates[i + 1..], tryLoad));
            tried := tried + [candidate.value];
        }
      }
      return Failure(NoModelMessage), tried;
    }

    /** `get_tokenizer`: loads on first use (a failed load propagates), then returns the stored tokenizer. */
    method GetTokenizer(tryLoad: string -> Option<(Tok, Mdl)>)
      returns (r: Result<Tok, string>, tried: seq<string>)
      requires Valid()
      modifies this
      ensures Valid()
      ensures old(tokenizer).Some? ==> r == Success(old(tokenizer).value) && tried == [] && unchanged(this)
      ensures old(tokenizer).None? ==> tried == RunCascade(candidates, tryLoad).tried
      ensures old(tokenizer).None? && RunCascade(candidates, tryLoad).loaded.Some? ==>
        IsLoaded() && Current() == RunCascade(candidates, tryLoad).loaded.value && r == Success(Current().tokenizer)
      ensures old(tokenizer).None? && RunCascade(candidates, tryLoad).loaded.None? ==>
        r == Failure(NoModelMessage) && unchanged(this)
    {
      tried := [];
      if tokenizer.None? {
        var loaded;
        loaded, tried := LoadModel(tryLoad);
        if loaded.Failure? {
          return Failure(loaded.error), tried;
        }
      }
      r := Success(tokenizer.value);
    }

    /** `get_model`: loads on first use (a failed load propagates), then returns the stored model. */
    method GetModel(tryLoad: string -> Option<(Tok, Mdl)>)
      returns (r: Result<Mdl, string>, tried: seq<string>)
      requires Valid()
      modifies this
      ensures Valid()
      ensures old(model).Some? ==> r == Success(old(model).value) && tried == [] && unchanged(this)
      ensures old(model).None? ==> tried == RunCascade(candidates, tryLoad).tried
      ensures old(model).None? && RunCascade(candidates, tryLoad).loaded.Some? ==>
        IsLoaded() && Current() == RunCascade(candidates, tryLoad).loaded.value && r == Success(Current().model)
      ensures old(model).None? && RunCascade(candidates, tryLoad).loaded.None? ==>
        r == Failure(NoModelMessage) && unchanged(this)
    {
      tried := [];
      if model.None? {
        var loaded;
        loaded, tried := LoadModel(tryLoad);
        if loaded.Failure? {
          return Failure(loaded.error), tried;
        }
      }
      r := Success(model.value);
    }

    /** `get_active_model_name`: "Unknown" until a model is loaded, then the loaded candidate's name. */
    function GetActiveModelName(): (name: string)
      reads this
      requires Valid()
      ensures !IsLoaded() ==> name == UnknownName
      ensures IsLoaded() ==> name == Current().name && name != ""
    {
      if activeModelName.Some? && activeModelName.value != "" then activeModelName.value else UnknownName
    }
  }
}
