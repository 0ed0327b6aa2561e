# NeurodivergentHelper back end — a Dafny model of its decision logic

The service is a small chat back end. The model covers its three pieces of decision logic:

- **Session store** (utils.py). A process-wide dictionary maps a session id
  to the list of `{role, content}` messages. Each append cuts the list down
  to the newest `max_history` entries. The list can be rendered as prefixed
  context lines or exported as text.
- **CPU model loader** (models.py). Three module globals (tokenizer, model,
  active model name) are filled lazily. The loader walks an ordered
  candidate list, skips unset or empty entries, keeps the first candidate
  that loads, and raises when none does.
- **Prompt assembly and echo removal** of the `/query` handler (app.py
  lines 30 and 35). These are two pure string functions.

Modules:

| file | module | what it holds |
|---|---|---|
| wrappers.dfy | `Wrappers` | `Option` (Python's `None`) and `Result` (a raised exception) |
| strings.dfy | `Strings` | the Python `str` operations the core uses: `"\n".join` with `split` as its inverse, `str(int)` with a parser as its inverse, `find`, `replace(pat, "")`, `strip` |
| sessions.dfy | `Sessions` | utils.py: `Msg`, Python's `xs[start:]`, the class `SessionStore` over a `map<string, seq<Msg>>` |
| models.dfy | `Models` | models.py: the candidate list, the cascade as a specification function, the class `ModelState` over the three globals |
| query.dfy | `Query` | app.py lines 30 and 35 |

The foreign calls are parameters of the functions and methods that use them:

- `hash: string -> int` is Python's salted string hash, fixed for one process.
- `tryLoad: string -> Option<(Tok, Mdl)>` is `try_load_model`. It gives `None` where the real call raises.
- `serialise: seq<Msg> -> string` is the `json.dumps` call.
- The `MODEL_NAME` environment variable is the `Option<string>` given to `ModelState`'s constructor.

The loader methods also return `tried`: the names handed to `tryLoad`, in call order. This makes skipping, ordering and caching statable.

Python's slicing quirks are kept:

- `xs[-0:]` is the whole list, so `max_history == 0` and `last_n == 0` truncate nothing.
- A negative bound drops entries from the front.

## Model

| member | source | states |
|---|---|---|
| Sessions.SessionId | utils.py:6-7 | the id is the client address, `_`, then a canonical decimal (optional `-`, digits, no leading zero) that parses back to the user agent's hash |
| Sessions.SessionIdCollision | utils.py:6-7 | two requests get the same id if and only if they come from the same address and their user agents hash alike |
| Strings.IntToDecimal | utils.py:7 | `str(n)` is canonical (optional `-`, at least one digit, no leading zero unless it is "0") and starts with `-` exactly for negative `n` |
| Strings.DecimalInjective | utils.py:7 | `str(a) == str(b)` if and only if `a == b` |
| Sessions.SliceFrom | utils.py:14 | Python's `xs[start:]`: from `min(start, len)` for a non-negative start; the last `min(-start, len)` entries for a negative one (so `xs[-0:]` is the whole list) |
| Sessions.Window | utils.py:20 | `xs[-last_n:]`: the newest `min(len, last_n)` messages for a positive count, all messages for 0, `-last_n` dropped from the front for a negative count |
| Sessions.Retained | utils.py:13-14 | the list after the cap: the newest `min(len, cap)` entries for a positive cap, unchanged for 0, front-dropped for a negative cap |
| Sessions.History | utils.py:10-11 | the list stored under an id, empty for an id never seen (the entry `add_to_session` creates); no contract of its own, used by `Appended` and `AppendedCapped` |
| Sessions.Appended | utils.py:9-14 | the dictionary after an append gains at most the key `session_id`, and every other key keeps its list |
| Sessions.AppendedCapped | utils.py:9-14 | with `max_history >= 1` the session holds `min(old + 1, max_history)` messages: the newest of `old ++ [msg]`, in order, ending with the new message (an unknown id counts as empty) |
| Sessions.AppendedUncapped | utils.py:13-14 | with `max_history == 0` nothing is truncated: the session is `old ++ [msg]` |
| Sessions.RetainedIsNewest | utils.py:13-14 | under a positive cap the retained list is the newest `cap` entries and never longer than the cap |
| Sessions.NewestOfNewest | utils.py:13-14 | taking the newest `n` before appending more and cutting again loses nothing that the last cut would keep |
| Sessions.AppendAllKeepsNewest | utils.py:9-14 | any run of appends under a positive cap leaves exactly the newest `cap` messages of everything appended, in arrival order |
| Sessions.ContextLine | utils.py:21-22 | a context line starts with "User: " exactly when the role is "user"; it is exactly "User: " + content for the role "user" and "NeurodivergentHelper: " + content for every other role |
| Sessions.ContextLines | utils.py:19-22 | the `context_parts` list: one line per message, line `i` is `ContextLine(ms[i])` |
| Sessions.ExportLine | utils.py:29 | an export line is the role, `": "`, then the content |
| Sessions.ExportLines | utils.py:29 | the list comprehension: one line per message, line `i` is `ExportLine(ms[i])` |
| Sessions.ContextLineSingle | utils.py:21-22 | content with no line break renders as a context line with no line break, whatever the role |
| Sessions.ExportLineSingle | utils.py:29 | a message with no line break renders as an export line with no line break |
| Sessions.SessionStore.constructor | utils.py:4 | the store starts with no sessions |
| Sessions.SessionStore.AddToSession | utils.py:9-14 | the new dictionary is exactly `Appended(old, id, msg, max_history)` |
| Sessions.SessionStore.GetSessionContext | utils.py:16-23 | "" for an unknown id; otherwise the context lines of `Window(history, last_n)` joined by line breaks, built by the loop |
| Sessions.SessionStore.ExportSession | utils.py:25-31 | `None` exactly for an unknown id or a format other than "txt"/"json"; "txt" gives the export lines of the whole session joined by line breaks; "json" gives the serialised session; reads only |
| Sessions.ContextSplitsIntoLines | utils.py:19-23 | with `last_n >= 1` and no line break in any message content (any role), the context splits back into `min(len, last_n)` lines: line `i` renders the `i`-th of the newest messages |
| Sessions.ExportSplitsIntoLines | utils.py:28-29 | with single-line messages, a text export splits back into exactly one `role: content` line per message |
| Strings.Join | utils.py:23 | `"\n".join(parts)`; no contract of its own, specified through its inverse `Split` by `SplitJoin` |
| Strings.Split | utils.py:23 | the inverse of `"\n".join`: never empty, and no part holds the separator |
| Strings.SplitJoin | utils.py:23 | splitting a join of separator-free parts gives the parts back |
| Models.CandidateList | models.py:11-15 | `MODEL_CANDIDATES`: the `MODEL_NAME` override, then "EleutherAI/gpt-neo-125M", then "distilgpt2"; no contract of its own, used by the constructor, `EmptyOverrideIsNoOverride` and `OverrideTriedFirst` |
| Models.Falsy | models.py:36 | `not candidate`: an unset or empty entry; no contract of its own, the skip rule `Eligible` and `RunCascade` apply |
| Models.Eligible | models.py:35-37 | the names the loop may hand to the loader are non-empty candidates of the list, no more of them than there are candidates |
| Models.RunCascade | models.py:35-46 | the `for candidate in MODEL_CANDIDATES` loop as a walk over the list; no contract of its own, specified by `CascadeSound` and `CascadeKeepsFirstLoadable`, and what `LoadModel`'s loop is proved to follow |
| Models.CascadeSound | models.py:35-46 | the loader only sees eligible names, in list order, as a prefix of them; every name before the last one tried failed; a kept load is the last name tried with exactly what the loader gave; keeping none means every eligible name was tried and failed |
| Models.CascadeKeepsFirstLoadable | models.py:35-42 | the first eligible candidate that loads is the one kept, and the names tried are exactly the eligible names up to it |
| Models.EmptyOverrideIsNoOverride | models.py:11-12 | an empty `MODEL_NAME` behaves like an unset one |
| Models.OverrideTriedFirst | models.py:11-15 | a non-empty `MODEL_NAME` is the first name handed to the loader |
| Models.ModelState.constructor | models.py:11-18 | the candidate list is the override, then "EleutherAI/gpt-neo-125M", then "distilgpt2"; all three globals are unset |
| Models.ModelState.IsLoaded | models.py:32 | `tokenizer and model`: both globals set; no contract of its own, the cache test in `LoadModel`'s contract |
| Models.ModelState.Current | models.py:32-33 | the cached `(tokenizer, model, active_model_name)` triple, read when a tokenizer and a model are set, which by `Valid` means a name is set too; no contract of its own, what `LoadModel`'s cached branch returns |
| Models.ModelState.LoadModel | models.py:28-46 | cached triple with no load attempted when both globals are set; otherwise the names tried are those of `RunCascade`; its load is committed to all three globals and returned, or the globals stay untouched and the "No CPU models could be loaded!" error is returned |
| Models.ModelState.GetTokenizer | models.py:48-52 | the stored tokenizer with no load when one is set; otherwise the result of a load, with a failed load propagated |
| Models.ModelState.GetModel | models.py:54-58 | the stored model with no load when one is set; otherwise the result of a load, with a failed load propagated |
| Models.ModelState.GetActiveModelName | models.py:60-62 | "Unknown" before a model is loaded; afterwards the name of the loaded candidate, which is never empty |
| Query.BuildPrompt | app.py:30 | the prompt is the base prompt, then "\nUser: ", then the user's text, then "\nNeurodivergentHelper:", each at its stated position and with the total length their sum |
| Query.PromptUserInputInverse | app.py:30 | reading the user's text back out of a prompt succeeds if and only if the prompt was built from that text |
| Strings.FindFrom | app.py:35 | `str.find` from index `i`: -1 or an index at or after `i` where the pattern occurs |
| Strings.FindFromIsFirst | app.py:35 | no occurrence starts between `i` and the index `find` reports, nor anywhere at or after `i` when it reports -1 |
| Strings.RemoveFrom | app.py:35 | CPython's loop for `replace(pat, "")` from index `i`: find the leftmost occurrence, drop it, search again after it; no contract of its own, specified by `RemoveAllIsScan` |
| Strings.RemoveAll | app.py:35 | `s.replace(pat, "")`, unchanged for an empty pattern; no contract of its own, specified by `RemoveAllIsScan`, `RemoveAllAbsent` and `RemoveAllLeading` |
| Strings.RemoveAllIsScan | app.py:35 | `replace(pat, "")` deletes every non-overlapping occurrence scanning left to right, matching an independent character-by-character scan |
| Strings.RemoveAllAbsent | app.py:35 | with no occurrence of the pattern the text is unchanged |
| Strings.RemoveAllLeading | app.py:35 | an occurrence at the very front is deleted and the scan resumes just after it |
| Strings.IsSpace | app.py:35 | Python's `str.isspace()` for one character: space, `\t` to `\r`, U+001C to U+001F, U+0085, U+00A0, U+1680, U+2000 to U+200A, U+2028, U+2029, U+202F, U+205F, U+3000; no contract of its own, the set `Strip` removes |
| Strings.Strip | app.py:35 | `strip()` leaves no whitespace at either end; it is empty exactly for all-whitespace text; otherwise it is the text between the leading and trailing whitespace |
| Strings.StripIdempotent | app.py:35 | stripping twice is stripping once |
| Query.CleanResponse | app.py:35 | the response has no whitespace at either end, stripping it again changes nothing, and it is the stripped decoded text when the base prompt is empty or absent |
| Query.EchoedUserLineSurvives | app.py:30-35 | as written: after an echoed prompt the response is `"User: " + input + "\nNeurodivergentHelper:" + continuation` |
| Query.EchoCounterexample | app.py:30-35 | as written: base "B", input "hi" and continuation " Hello" give "User: hi\nNeurodivergentHelper: Hello" |
| Query.CleanResponseWithoutPrompt | app.py:35 | the corrected clean-up leaves no whitespace at either end |
| Query.CleanResponseWithoutPromptKeepsContinuation | app.py:30-35 | corrected: after an echoed prompt the response is exactly the stripped continuation |

## Left out

- The body of `try_load_model` (models.py:20-26) is left out: Hugging Face and torch loading, the `HF_TOKEN` read, device placement. It is the oracle `tryLoad`, and a raised exception is `None`.
- Environment reads (models.py:12, app.py:11) are left out. The `MODEL_NAME` value is a constructor parameter.
- Python's `hash` is the parameter `hash`. Its salted values are not modelled, only that one process applies one function.
- The text format of `json.dumps(..., indent=2)` is not modelled. It is the parameter `serialise`.
- Logging calls are left out.
- Everything in app.py except lines 30 and 35 is left out: model loading at import, fetching the base prompt over the network, tokenisation, generation and decoding, FastAPI routing, uvicorn.
- Concurrent requests racing on `sessions` or on the model globals are not modelled. The model is sequential.
- Models.RunCascade: `tryLoad` gives one name the same outcome every time. When `MODEL_NAME` repeats a built-in candidate ("EleutherAI/gpt-neo-125M" or "distilgpt2"), the real loop loads that name twice, and a transient failure the first time could succeed the second time; the model does not cover that case.
- Models.ModelState.LoadModel: a loaded tokenizer and model are taken to be truthy. A loaded object whose Python truth value is false is not modelled.
- Sessions.ContextSplitsIntoLines: the split-back property needs every message's content to be free of line breaks, because such a message renders as several lines.
- Python's default argument values (`max_history=10`, `last_n=5`, `format="txt"`) are not modelled. Every operation takes all of its arguments, and its contract holds for every value, the defaults included.

## Findings

| source | as written | input that shows it | evidently intended | confidence | as-written member | corrected member |
|---|---|---|---|---|---|---|
| app.py:35 | `response.replace(BASE_PROMPT, "").strip()` deletes only the base prompt from a decoded output that echoes the whole prompt, so the echoed "User: …" line and the "NeurodivergentHelper:" cue stay in the response | `BASE_PROMPT = "B"`, `user_input = "hi"`, decoded text = prompt + `" Hello"`: the response is `"User: hi\nNeurodivergentHelper: Hello"` | remove the whole echoed prompt, as the comment "Remove prompt echo" says, leaving only the reply `"Hello"` | medium, not executed | Query.EchoCounterexample | Query.CleanResponseWithoutPromptKeepsContinuation |
