/**
 * The two pieces of string logic in the `/query` handler of app.py: the
 * prompt handed to the model, and the clean-up of the decoded generation.
 * The base prompt (fetched over the network when the module loads), the
 * user's text and the decoded model output are all inputs.
 */
module Query {
  import opened Wrappers
  import opened Strings

  /** What the prompt puts between the base prompt and the user's text. */
  const UserTag: string := "\nUser: "
  /** The cue the prompt ends with, for the model to continue after. */
  const Cue: string := "\nNeurodivergentHelper:"

  /**
   * The f-string prompt: base prompt, a "User:" line holding the user's
   * text, then the cue. It starts with the base prompt and ends with the cue.
   */
  function BuildPrompt(basePrompt: string, userInput: string): (prompt: string)
    ensures |prompt| == |basePrompt| + |UserTag| + |userInput| + |Cue|
    ensures prompt[..|basePrompt|] == basePrompt
    ensures prompt[|basePrompt|..|basePrompt| + |UserTag|] == UserTag
    ensures prompt[|basePrompt| + |UserTag|..|prompt| - |Cue|] == userInput
    ensures prompt[|prompt| - |Cue|..] == Cue
  {
    var prompt := basePrompt + UserTag + userInput + Cue;
    assert prompt[|basePrompt|..|basePrompt| + |UserTag|] == UserTag;
    assert prompt[|basePrompt| + |UserTag|..|prompt| - |Cue|] == userInput;
    prompt
  }

  /** The user's text of a prompt built over `basePrompt`, or `None` if `prompt` does not have that shape. */
  function PromptUserInput(prompt: string, basePrompt: string): Option<string>
  {
    var lo := |basePrompt| + |UserTag|;
    if |prompt| >= lo + |Cue|
       && prompt[..|basePrompt|] == basePrompt
       && prompt[|basePrompt|..lo] == UserTag
       && prompt[|prompt| - |Cue|..] == Cue
    then Some(prompt[lo..|prompt| - |Cue|])
    else None
  }

  /** A prompt determines the user's text and is determined by it: building and reading back are inverse. */
  lemma PromptUserInputInverse(prompt: string, basePrompt: string, userInput: string)
    ensures PromptUserInput(prompt, basePrompt) == Some(userInput)
        <==> BuildPrompt(basePrompt, userInput) == prompt
  {
    var built := BuildPrompt(basePrompt, userInput);
    var lo := |basePrompt| + |UserTag|;
    assert built[|basePrompt|..lo] == UserTag;
    if PromptUserInput(prompt, basePrompt) == Some(userInput) {
      assert prompt == prompt[..|basePrompt|] + prompt[|basePrompt|..lo]
                       + prompt[lo..|prompt| - |Cue|] + prompt[|prompt| - |Cue|..];
    }
  }

  /**
   * `response.replace(BASE_PROMPT, "").strip()`: every non-overlapping
   * occurrence of the base prompt is deleted, left to right, then the
   * surrounding whitespace. The result has no whitespace at either end, and
   * when the base prompt is empty or absent the text is only stripped.
   */
  function CleanResponse(decoded: string, basePrompt: string): (response: string)
    ensures response == "" || (!IsSpace(response[0]) && !IsSpace(response[|response| - 1]))
    ensures Strip(response) == response
    ensures |basePrompt| == 0 ==> response == Strip(decoded)
    ensures (forall j :: !OccursAt(decoded, basePrompt, j)) ==> response == Strip(decoded)
  {
    var removed := RemoveAll(decoded, basePrompt);
    RemoveAllAbsentWhenNoOccurrence(decoded, basePrompt);
    StripIdempotent(removed);
    Strip(removed)
  }

  lemma RemoveAllAbsentWhenNoOccurrence(decoded: string, basePrompt: string)
    ensures (forall j :: !OccursAt(decoded, basePrompt, j)) ==> RemoveAll(decoded, basePrompt) == decoded
  {
    if forall j :: !OccursAt(decoded, basePrompt, j) {
      RemoveAllAbsent(decoded, basePrompt);
    }
  }

  /**
   * When the decoded text is the echoed prompt followed by the model's
   * continuation, and the base prompt does not occur again, the cleaned
   * response is the echoed user line and cue followed by the continuation:
   * only the leading newline of the echo is gone.
   */
  lemma EchoedUserLineSurvives(basePrompt: string, userInput: string, continuation: string)
    requires |basePrompt| > 0
    requires forall j :: !OccursAt(UserTag + userInput + Cue + continuation, basePrompt, j)
    requires |continuation| > 0 && !IsSpace(continuation[|continuation| - 1])
    ensures CleanResponse(BuildPrompt(basePrompt, userInput) + continuation, basePrompt)
         == "User: " + userInput + Cue + continuation
  {
    var echoed := "User: " + userInput + Cue + continuation;
    var tail := UserTag + userInput + Cue + continuation;
    assert UserTag == "\n" + "User: ";
    assert tail == "\n" + echoed;
    assert BuildPrompt(basePrompt, userInput) + continuation == basePrompt + tail;
    RemoveAllLeading(basePrompt, tail);
    RemoveAllAbsent(tail, basePrompt);
    assert tail[1] == 'U' && tail[1..] == echoed;
    StripSingleLeadingSpace(tail);
  }

  /**
   * A concrete instance: base prompt "B", user text "hi", continuation
   * " Hello". The response is the whole echoed exchange, not "Hello".
   */
  lemma EchoCounterexample()
    ensures CleanResponse(BuildPrompt("B", "hi") + " Hello", "B")
         == "User: " + "hi" + Cue + " Hello"
  {
    var tail := UserTag + "hi" + Cue + " Hello";
    assert 'B' !in UserTag && 'B' !in "hi" && 'B' !in Cue && 'B' !in " Hello";
    AbsentCharNeverOccurs(tail, 'B');
    EchoedUserLineSurvives("B", "hi", " Hello");
  }

  lemma AbsentCharNeverOccurs(s: string, c: char)
    requires c !in s
    ensures forall j :: !OccursAt(s, [c], j)
  {
    forall j ensures !OccursAt(s, [c], j) {
      if 0 <= j < |s| {
        assert s[j] in s;
        assert s[j..j + 1] == [s[j]] != [c];
      }
    }
  }

  lemma StripSingleLeadingSpace(s: string)
    requires |s| >= 2 && IsSpace(s[0]) && !IsSpace(s[1]) && !IsSpace(s[|s| - 1])
    ensures Strip(s) == s[1..]
  {
    assert ContentStart(s[1..]) == 0;
    assert ContentStart(s) == 1;
    assert ContentEnd(s) == |s|;
  }

  /**
   * The clean-up with the whole echoed prompt removed rather than only the
   * base prompt: `response.replace(prompt, "").strip()`.
   */
  function CleanResponseWithoutPrompt(decoded: string, prompt: string): (response: string)
    ensures response == "" || (!IsSpace(response[0]) && !IsSpace(response[|response| - 1]))
  {
    Strip(RemoveAll(decoded, prompt))
  }

  /** With the echo removed whole, the response is exactly the model's continuation, stripped. */
  lemma CleanResponseWithoutPromptKeepsContinuation(basePrompt: string, userInput: string, continuation: string)
    requires forall j :: !OccursAt(continuation, BuildPrompt(basePrompt, userInput), j)
    ensures var prompt := BuildPrompt(basePrompt, userInput);
      CleanResponseWithoutPrompt(prompt + continuation, prompt) == Strip(continuation)
  {
    var prompt := BuildPrompt(basePrompt, userInput);
    RemoveAllLeading(prompt, continuation);
    RemoveAllAbsent(continuation, prompt);
  }
}
