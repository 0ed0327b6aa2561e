/**
 * The per-client conversation log of utils.py: a process-wide dictionary
 * from session id to the list of `{role, content}` messages, cut down to
 * the most recent `max_history` entries on every append.
 */
module Sessions {
  import opened Wrappers
  import opened Strings

  /** One `{"role": ..., "content": ...}` entry of a session. */
  datatype Msg = Msg(role: string, content: string)

  const UserPrefix: string := "User: "
  const HelperPrefix: string := "NeurodivergentHelper: "

  // ---------------------------------------------------------------------
  // Session ids

  /**
   * `get_session_id`: the client address, an underscore, then the decimal
   * rendering of the user agent's hash. `hash` is the process's salted
   * string hash, fixed for the life of the process.
   */
  function SessionId(userAgent: string, clientIp: string, hash: string -> int): (id: string)
    ensures |id| > |clientIp| + 1
    ensures id[..|clientIp|] == clientIp && id[|clientIp|] == '_'
    ensures IsCanonicalDecimal(id[|clientIp| + 1..])
    ensures ParseInt(id[|clientIp| + 1..]) == hash(userAgent)
  {
    var digits := IntToDecimal(hash(userAgent));
    ParseIntDecimal(hash(userAgent));
    assert (clientIp + "_" + digits)[|clientIp| + 1..] == digits;
    clientIp + "_" + digits
  }

  lemma NoUnderscoreInDecimal(n: int)
    ensures '_' !in IntToDecimal(n)
  {
    var d := IntToDecimal(n);
    forall i | 0 <= i < |d| ensures d[i] != '_' {
      assert IsDigit(d[i]) || d[i] == '-';
    }
  }

  /** When `a + "_" + x == b + "_" + y` and neither tail holds `_`, the separators line up. */
  lemma SeparatorFromTheEnd(a: string, x: string, b: string, y: string)
    requires a + "_" + x == b + "_" + y
    requires '_' !in x && '_' !in y
    ensures |a| == |b|
  {
    var s := a + "_" + x;
    assert s[|a|] == '_';
    assert s[|b|] == '_';
    assert forall k :: |a| < k < |s| ==> s[k] == x[k - |a| - 1];
    assert forall k :: |b| < k < |s| ==> s[k] == y[k - |b| - 1];
  }

  /**
   * Two requests share a session exactly when they come from the same
   * address and their user agents hash alike: the rendering of a hash holds
   * no underscore, so the last underscore of an id separates the two parts.
   */
  lemma SessionIdCollision(ua1: string, ip1: string, ua2: string, ip2: string, hash: string -> int)
    ensures SessionId(ua1, ip1, hash) == SessionId(ua2, ip2, hash)
        <==> ip1 == ip2 && hash(ua1) == hash(ua2)
  {
    var d1, d2 := IntToDecimal(hash(ua1)), IntToDecimal(hash(ua2));
    var s1, s2 := ip1 + "_" + d1, ip2 + "_" + d2;
    if s1 == s2 {
      NoUnderscoreInDecimal(hash(ua1));
      NoUnderscoreInDecimal(hash(ua2));
      SeparatorFromTheEnd(ip1, d1, ip2, d2);
      assert d1 == s1[|s1| - |d1|..] == s2[|s2| - |d2|..] == d2;
      assert ip1 == s1[..|ip1|] == s2[..|ip2|] == ip2;
      DecimalInjective(hash(ua1), hash(ua2));
    }
  }

  // ---------------------------------------------------------------------
  // Slicing and retention

  /** Python's `xs[start:]`: a negative start counts from the end; both ends are clamped. */
  function SliceFrom<T>(xs: seq<T>, start: int): (r: seq<T>)
    ensures start >= 0 ==> r == xs[Min(start, |xs|)..]
    ensures start < 0 ==> r == xs[|xs| - Min(-start, |xs|)..]
  {
    var i := if start < 0 then (if |xs| + start < 0 then 0 else |xs| + start)
             else (if start > |xs| then |xs| else start);
    xs[i..]
  }

  /**
   * `xs[-last_n:]`, the messages `get_session_context` renders: the last
   * `last_n` of them for a positive count, all of them for 0 (since `-0` is
   * 0), and for a negative count the list with `-last_n` messages dropped
   * from the front.
   */
  function Window(xs: seq<Msg>, lastN: int): (w: seq<Msg>)
    ensures lastN >= 1 ==> |w| == Min(|xs|, lastN) && w == xs[|xs| - |w|..]
    ensures lastN == 0 ==> w == xs
    ensures lastN < 0 ==> w == xs[Min(-lastN, |xs|)..]
  {
    SliceFrom(xs, -lastN)
  }

  /**
   * The list `add_to_session` keeps after appending: unchanged unless it is
   * longer than `max_history`, then `xs[-max_history:]`. With a positive cap
   * that is the newest `max_history` entries; a cap of 0 keeps everything;
   * a negative cap drops `-max_history` entries from the front.
   */
  function Retained(xs: seq<Msg>, maxHistory: int): (r: seq<Msg>)
    ensures maxHistory >= 1 ==> |r| == Min(|xs|, maxHistory) && r == xs[|xs| - |r|..]
    ensures maxHistory == 0 ==> r == xs
    ensures maxHistory < 0 ==> r == xs[Min(-maxHistory, |xs|)..]
  {
    if |xs| > maxHistory then SliceFrom(xs, -maxHistory) else xs
  }

  /** The history stored under `id`, empty for an id never seen. */
  function History(sessions: map<string, seq<Msg>>, id: string): seq<Msg>
  {
    if id in sessions then sessions[id] else []
  }

  /**
   * The dictionary after `add_to_session(id, m.role, m.content, max_history)`:
   * only the entry for `id` changes (and is created if missing); it ends with
   * the new message whenever the cap is positive or zero.
   */
  function Appended(sessions: map<string, seq<Msg>>, id: string, m: Msg, maxHistory: int)
    : (r: map<string, seq<Msg>>)
    ensures r.Keys == sessions.Keys + {id}
    ensures forall k :: k in sessions && k != id ==> r[k] == sessions[k]
  {
    sessions[id := Retained(History(sessions, id) + [m], maxHistory)]
  }

  /**
   * Under a positive cap the appended entry holds `min(old length + 1, cap)`
   * messages: the newest ones of the old list followed by the new message.
   */
  lemma AppendedCapped(sessions: map<string, seq<Msg>>, id: string, m: Msg, cap: int)
    requires cap >= 1
    ensures var h, r := History(sessions, id), Appended(sessions, id, m, cap)[id];
      && |r| == Min(|h| + 1, cap)
      && r == (h + [m])[|h| + 1 - |r|..]
      && r[|r| - 1] == m
  {
  }

  /** A cap of 0 truncates nothing: `xs[-0:]` is the whole list. */
  lemma AppendedUncapped(sessions: map<string, seq<Msg>>, id: string, m: Msg)
    ensures Appended(sessions, id, m, 0)[id] == History(sessions, id) + [m]
  {
  }

  /** The history after appending `msgs` one at a time under a fixed cap. */
  function AppendAll(xs: seq<Msg>, msgs: seq<Msg>, maxHistory: int): seq<Msg>
    decreases |msgs|
  {
    if |msgs| == 0 then xs else AppendAll(Retained(xs + [msgs[0]], maxHistory), msgs[1..], maxHistory)
  }

  /** The newest `n` entries of `xs` (all of them when there are fewer). */
  function Newest(xs: seq<Msg>, n: nat): seq<Msg>
  {
    xs[|xs| - Min(|xs|, n)..]
  }

  lemma RetainedIsNewest(xs: seq<Msg>, cap: int)
    requires cap >= 1
    ensures Retained(xs, cap) == Newest(xs, cap) && |Retained(xs, cap)| <= cap
  {
  }

  lemma NewestOfNewest(xs: seq<Msg>, t: seq<Msg>, n: nat)
    ensures Newest(Newest(xs, n) + t, n) == Newest(xs + t, n)
  {
    var a := Newest(xs, n);
    var k := Min(|a + t|, n);
    assert k == Min(|xs + t|, n);
    assert (a + t)[|a + t| - k..] == (xs + t)[|xs + t| - k..];
  }

  /**
   * A run of appends under a positive cap keeps exactly the newest `cap`
   * messages of everything ever appended, in the order they came; the
   * starting history must already be within the cap unless something is
   * appended.
   */
  lemma {:induction false} AppendAllKeepsNewest(xs: seq<Msg>, msgs: seq<Msg>, cap: int)
    requires cap >= 1 && (|xs| <= cap || |msgs| > 0)
    ensures AppendAll(xs, msgs, cap) == Newest(xs + msgs, cap)
    decreases |msgs|
  {
    if |msgs| == 0 {
      assert xs + msgs == xs;
    } else {
      var zs := xs + [msgs[0]];
      var ys := Retained(zs, cap);
      RetainedIsNewest(zs, cap);
      calc {
        AppendAll(xs, msgs, cap);
        AppendAll(ys, msgs[1..], cap);
        { AppendAllKeepsNewest(ys, msgs[1..], cap); }
        Newest(ys + msgs[1..], cap);
        { NewestOfNewest(zs, msgs[1..], cap); }
        Newest(zs + msgs[1..], cap);
        { assert zs + msgs[1..] == xs + msgs; }
        Newest(xs + msgs, cap);
      }
    }
  }

  // ---------------------------------------------------------------------
  // Rendering

  /** One line of `get_session_context`: "User: " for the role "user", the helper's name for any other role. */
  function ContextLine(m: Msg): (line: string)
    ensures |line| >= |UserPrefix| + |m.content|
    ensures line[..|UserPrefix|] == UserPrefix <==> m.role == "user"
    ensures m.role == "user" ==>
      |line| == |UserPrefix| + |m.content| && line[..|UserPrefix|] == UserPrefix && line[|UserPrefix|..] == m.content
    ensures m.role != "user" ==>
      |line| == |HelperPrefix| + |m.content| && line[..|HelperPrefix|] == HelperPrefix && line[|HelperPrefix|..] == m.content
  {
    assert HelperPrefix[0] != UserPrefix[0];
    (if m.role == "user" then UserPrefix else HelperPrefix) + m.content
  }

  function ContextLines(ms: seq<Msg>): (lines: seq<string>)
    ensures |lines| == |ms|
    ensures forall i :: 0 <= i < |ms| ==> lines[i] == ContextLine(ms[i])
  {
    seq(|ms|, i requires 0 <= i < |ms| => ContextLine(ms[i]))
  }

  /** One line of `export_session(..., "txt")`: role, colon, content. */
  function ExportLine(m: Msg): (line: string)
    ensures |line| == |m.role| + 2 + |m.content|
    ensures line[..|m.role|] == m.role
    ensures line[|m.role|..|m.role| + 2] == ": "
    ensures line[|m.role| + 2..] == m.content
  {
    m.role + ": " + m.content
  }

  function ExportLines(ms: seq<Msg>): (lines: seq<string>)
    ensures |lines| == |ms|
    ensures forall i :: 0 <= i < |ms| ==> lines[i] == ExportLine(ms[i])
  {
    seq(|ms|, i requires 0 <= i < |ms| => ExportLine(ms[i]))
  }

  /** A message whose role and content hold no line break renders as one line. */
  predicate SingleLine(m: Msg)
  {
    '\n' !in m.role && '\n' !in m.content
  }

  /** Content without a line break renders as a context line without one, whatever the role. */
  lemma ContextLineSingle(m: Msg)
    requires '\n' !in m.content
    ensures '\n' !in ContextLine(m)
  {
    var line := ContextLine(m);
    assert line == (if m.role == "user" then UserPrefix else HelperPrefix) + m.content;
  }

  lemma ExportLineSingle(m: Msg)
    requires SingleLine(m)
    ensures '\n' !in ExportLine(m)
  {
    assert ExportLine(m) == m.role + ": " + m.content;
  }

  // ---------------------------------------------------------------------
  // The store

  /** The module-level `sessions` dictionary and the functions that use it. */
  class SessionStore {
    var sessions: map<string, seq<Msg>>

    /** The empty dictionary the module starts with. */
    constructor ()
      ensures sessions == map[]
    {
      sessions := map[];
    }

    /**
     * `add_to_session`: create the entry if missing, append the message in
     * place, then replace the list by `list[-max_history:]` when it has grown
     * past `max_history`.
     */
    method AddToSession(sessionId: string, role: string, content: string, maxHistory: int)
      modifies this
      ensures sessions == Appended(old(sessions), sessionId, Msg(role, content), maxHistory)
    {
      ghost var appended := History(sessions, sessionId) + [Msg(role, content)];
      if sessionId !in sessions {
        sessions := sessions[sessionId := []];
      }
      sessions := sessions[sessionId := sessions[sessionId] + [Msg(role, content)]];
      assert sessions == old(sessions)[sessionId := appended];
      if |sessions[sessionId]| > maxHistory {
        sessions := sessions[sessionId := SliceFrom(sessions[sessionId], -maxHistory)];
      }
      assert sessions == old(sessions)[sessionId := Retained(appended, maxHistory)];
    }

    /**
     * `get_session_context`: "" for an unknown id; otherwise one prefixed
     * line per message of `list[-last_n:]`, oldest first, joined by line
     * breaks.
     */
    method GetSessionContext(sessionId: string, lastN: int) returns (text: string)
      ensures sessionId !in sessions ==> text == ""
      ensures sessionId in sessions ==>
        text == Join(ContextLines(Window(sessions[sessionId], lastN)), "\n")
    {
      if sessionId !in sessions {
        return "";
      }
      var window := SliceFrom(sessions[sessionId], -lastN);
      var parts: seq<string> := [];
      for i := 0 to |window|
        invariant |parts| == i
        invariant forall k :: 0 <= k < i ==> parts[k] == ContextLine(window[k])
      {
        parts := parts + [ContextLine(window[i])];
      }
      assert parts == ContextLines(window);
      text := Join(parts, "\n");
    }

    /**
     * `export_session`: `None` for an unknown id or a format other than
     * "txt" and "json"; for "txt" the `role: content` lines of the whole
     * session joined by line breaks; for "json" the session serialised by
     * `serialise` (the `json.dumps` call). Reading only, nothing changes.
     */
    function ExportSession(sessionId: string, format: string, serialise: seq<Msg> -> string)
      : (r: Option<string>)
      reads this
      ensures r.None? <==> sessionId !in sessions || (format != "txt" && format != "json")
      ensures r.Some? && format == "txt" ==>
        r.value == Join(ExportLines(sessions[sessionId]), "\n")
      ensures r.Some? && format == "json" ==> r.value == serialise(sessions[sessionId])
    {
      if sessionId !in sessions then None
      else if format == "txt" then
        Some(Join(ExportLines(sessions[sessionId]), "\n"))
      else if format == "json" then Some(serialise(sessions[sessionId]))
      else None
    }
  }

  /**
   * When no message content holds a line break (roles are never rendered,
   * so any role will do), the context text splits back into exactly one
   * line per message of the window, in order.
   */
  lemma {:induction false} ContextSplitsIntoLines(xs: seq<Msg>, lastN: int)
    requires lastN >= 1 && |xs| >= 1
    requires forall i :: 0 <= i < |xs| ==> '\n' !in xs[i].content
    ensures var lines := Split(Join(ContextLines(Window(xs, lastN)), "\n"), '\n');
      |lines| == Min(|xs|, lastN) &&
      forall i :: 0 <= i < |lines| ==> lines[i] == ContextLine(xs[|xs| - |lines| + i])
  {
    var w := Window(xs, lastN);
    var parts := ContextLines(w);
    forall i | 0 <= i < |parts| ensures '\n' !in parts[i] {
      ContextLineSingle(w[i]);
    }
    SplitJoin(parts, '\n');
  }

  /** With single-line messages, a text export splits back into one `role: content` line per message. */
  lemma {:induction false} ExportSplitsIntoLines(store: SessionStore, sessionId: string)
    requires sessionId in store.sessions && |store.sessions[sessionId]| >= 1
    requires forall i :: 0 <= i < |store.sessions[sessionId]| ==> SingleLine(store.sessions[sessionId][i])
    ensures var r := store.ExportSession(sessionId, "txt", (ms: seq<Msg>) => "");
      r.Some? && Split(r.value, '\n') == ExportLines(store.sessions[sessionId])
  {
    var xs := store.sessions[sessionId];
    var parts := ExportLines(xs);
    forall i | 0 <= i < |parts| ensures '\n' !in parts[i] {
      ExportLineSingle(xs[i]);
    }
    SplitJoin(parts, '\n');
  }
}
