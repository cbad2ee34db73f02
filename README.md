# PiranhaGPTChat, modelled in Dafny

This project models the conversation manager of Piranha's rule-inference
experiment: the class `PiranhaGPTChat` in
`experimental/rule_inference/piranha_chat.py`. The class builds the first prompt
for a chat-completion model and keeps the conversation with it. The prompt is a
fixed explanation, an example corpus harvested from `*rules.toml` files, and a
task template whose five holes are filled from the caller's `holes` map. It
also fetches completions, retrying transient provider errors without limit.

Modules, one per component of the class:

- `Wrappers`: `Option` and `Result`. An `Err` stands for a Python exception that escapes.
- `Text`: Python's `split("\n")`, `"\n".join`, `startswith` and `endswith` on `seq<char>`, and the split/join round trips.
- `Examples`: `_get_examples`. The directory walk is a value, a sequence of `WalkStep(root, files)` in traversal order. `GetExamples` keeps the source's two nested loops. It is proved equal to `ExamplesText`, an accumulating function, and `CorpusIsRuleBlocks` relates that function to an independent "filter the rules files, then concatenate their blocks" definition.
- `Prompt`: `input_template` as literal chunks and `{name}` holes; `str.format` as `Fill`; the first prompt `explanation + "\n" + examples + "\n" + task`.
- `Conversation`: roles, messages and provider outcomes, as values. Also the retry loop's result (`Settle`, `Attempts`, `CompletionOf`) and the effect of one `get_model_response` call (`ResponseOf`, `HistoryAfter`, `RequestsSent`, `SleepsTaken`), as functions of the history and of the provider's upcoming outcomes.
- `Chat`: the configuration validators and the construction function `Setup`. Also `Environment`, a class holding the provider's upcoming outcomes, the requests it received and the seconds slept. And `PiranhaGptChat`, a class whose `messages` field the methods update in place. Each of its methods is proved against the `Conversation` and `Setup` functions.

The provider, the clock and the file system are never called. `Environment.Create` takes the place of `openai.ChatCompletion.create`, and `Environment.Sleep` the place of `time.sleep`. The explanation text is passed in as a parameter and is not reproduced.

## Model

| member | source | states |
|---|---|---|
| `Text.Split` | experimental/rule_inference/piranha_chat.py:314 | Python's `split("\n")`: never an empty list, and no piece holds a newline |
| `Text.Join` | experimental/rule_inference/piranha_chat.py:311 | `"\n".join`: the text starts with the first line, followed by a newline when more lines follow |
| `Text.JoinSplit` | experimental/rule_inference/piranha_chat.py:311-317 | joining the lines of `split("\n")` with `"\n"` gives the original text |
| `Text.SplitJoin` | experimental/rule_inference/piranha_chat.py:311-317 | splitting the join of a non-empty list of newline-free lines gives the lines back |
| `Examples.IsRuleFile` | experimental/rule_inference/piranha_chat.py:308 | a file is kept when its name ends with `rules.toml` |
| `Examples.PathJoin` | experimental/rule_inference/piranha_chat.py:309 | `os.path.join(root, file)` for a plain file name: the root, then the name, with at most one separator added between them |
| `Examples.IsComment` | experimental/rule_inference/piranha_chat.py:315 | a line is a comment when it starts with `#` |
| `Examples.Uncommented` | experimental/rule_inference/piranha_chat.py:313-316 | the comprehension's filter: the lines that are not comments, in their order |
| `Examples.UncommentedMembers` | experimental/rule_inference/piranha_chat.py:313-316 | a line is kept exactly when it is in the input and does not start with `#` |
| `Examples.UncommentedAppend` | experimental/rule_inference/piranha_chat.py:313-316 | the comment filter distributes over concatenation, so kept lines stay in their original order |
| `Examples.UncommentedNone` | experimental/rule_inference/piranha_chat.py:313-316 | lines without a comment line are all kept |
| `Examples.StripComments` | experimental/rule_inference/piranha_chat.py:311-317 | the comment filter of a file's text; text with no line starting with `#` comes back unchanged |
| `Examples.StripCommentsLines` | experimental/rule_inference/piranha_chat.py:311-317 | no line of the filtered text starts with `#`; when a line survives, the filtered text's lines are the surviving lines in order; text without comment lines comes back unchanged |
| `Examples.Header` | experimental/rule_inference/piranha_chat.py:318 | the tag line is the path with 18 characters before it and 17 after, and it ends the line |
| `Examples.HeaderTags` | experimental/rule_inference/piranha_chat.py:318 | the 18 characters before the path are `<file_name_start> `, and the 17 after are ` <file_name_end>` and a newline |
| `Examples.Fenced` | experimental/rule_inference/piranha_chat.py:319 | the fence is the filtered text with 8 characters before it and 4 after |
| `Examples.FencedTags` | experimental/rule_inference/piranha_chat.py:319 | the 8 characters before the text are `` ```toml ``, and the 4 after are `` ``` `` and a newline |
| `Examples.Block` | experimental/rule_inference/piranha_chat.py:318-319 | the text one kept file adds: its tag line, then its fenced filtered contents |
| `Examples.FileBlock` | experimental/rule_inference/piranha_chat.py:308-319 | one file fails exactly when it is a `*rules.toml` file that cannot be read, naming its joined path; only `*rules.toml` files contribute text |
| `Examples.ExamplesText` | experimental/rule_inference/piranha_chat.py:304-320 | the corpus of the whole walk, visited in traversal order: the specification `GetExamples` is proved against |
| `Examples.CorpusIsRuleBlocks` | experimental/rule_inference/piranha_chat.py:305-320 | the corpus succeeds exactly when every `*rules.toml` file is readable, and is then the concatenation, in traversal order, of one block per such file with its comments stripped |
| `Examples.CorpusFails` | experimental/rule_inference/piranha_chat.py:308-310 | the corpus fails exactly when some kept file cannot be read, and the error names the first such file in traversal order |
| `Examples.IgnoresOtherFiles` | experimental/rule_inference/piranha_chat.py:307-308 | inserting a file not named `*rules.toml` anywhere in the walk changes nothing, whether it is readable or not |
| `Examples.GetExamples` | experimental/rule_inference/piranha_chat.py:304-320 | the nested loops over directories and files return exactly the accumulated corpus of the walk, stopping at the first unreadable kept file |
| `Examples.StripCommentsExample` | experimental/rule_inference/piranha_chat.py:311-317 | `"# c\nx"` filters to `"x"` |
| `Examples.BlockExample` | experimental/rule_inference/piranha_chat.py:318-319 | the block of `r/a/rules.toml` with text `x` is the tag line followed by the fenced text |
| `Examples.FileBlocksExample` | experimental/rule_inference/piranha_chat.py:308-319 | a rules file contributes its tagged block; `notes.txt` contributes nothing |
| `Examples.OnlyRuleFilesExample` | experimental/rule_inference/piranha_chat.py:305-320 | a walk holding `r/a/rules.toml` (a comment line and a code line) and `r/b/notes.txt` yields the single block of the code line |
| `Prompt.TaskTemplate` | experimental/rule_inference/piranha_chat.py:205-229 | the shape of `input_template`: six literal texts around the holes `source_code`, `source_tree`, `target_tree`, `diff` and `hints`, in that order |
| `Prompt.Fill` | experimental/rule_inference/piranha_chat.py:254 | filling succeeds exactly when every hole has a value |
| `Prompt.FillNamesFirstMissing` | experimental/rule_inference/piranha_chat.py:254 | a failed fill names a hole the map lacks, and every hole before it in template order is supplied |
| `Prompt.FillReadsOnlyItsHoles` | experimental/rule_inference/piranha_chat.py:254 | two maps that agree on the template's holes fill it identically |
| `Prompt.FillIgnoresExtraKeys` | experimental/rule_inference/piranha_chat.py:254 | keys no hole names are ignored |
| `Prompt.InputTemplateNeeds` | experimental/rule_inference/piranha_chat.py:205-229 | the task template can be filled exactly when all of `source_code`, `source_tree`, `target_tree`, `diff` and `hints` are supplied |
| `Prompt.TemplateNeeds` | experimental/rule_inference/piranha_chat.py:205-229 | whatever its literal text, a template shaped like `input_template` can be filled exactly when the five named holes are supplied |
| `Prompt.FillTaskTemplate` | experimental/rule_inference/piranha_chat.py:205-229 | whatever its literal text, such a template fills to that text with the five values in place, in order |
| `Prompt.FillInputTemplate` | experimental/rule_inference/piranha_chat.py:205-229 | the filled task is the template's literal text with the five values in place, in order |
| `Prompt.MissingHoleFails` | experimental/rule_inference/piranha_chat.py:254 | a map missing a required hole fails, naming a required hole that is missing |
| `Prompt.TemplateMissingHole` | experimental/rule_inference/piranha_chat.py:254 | for any literal text, a map missing one of the five holes fails, naming a missing required hole |
| `Prompt.InitialPrompt` | experimental/rule_inference/piranha_chat.py:249-255 | the first prompt can be built exactly when all five holes are supplied; otherwise the error names a missing required hole |
| `Prompt.InitialPromptLayout` | experimental/rule_inference/piranha_chat.py:249-255 | the prompt exists exactly when all holes are supplied, and is the explanation, a newline, the corpus, a newline and the filled task |
| `Chat.ValidTemperature` | experimental/rule_inference/piranha_chat.py:233-240 | the `ge(0)` and `le(1)` validators: a temperature passes exactly when it lies in [0, 1], both ends included |
| `Chat.ValidModel` | experimental/rule_inference/piranha_chat.py:241-244 | the `in_` validator: a model passes exactly when it is one of the three listed names |
| `Chat.ValidatorExamples` | experimental/rule_inference/piranha_chat.py:233-244 | 0.0 and 1.0 pass and -0.1 and 1.1 fail the temperature check; the defaults are valid; exactly the three model names are accepted |
| `Chat.Setup` | experimental/rule_inference/piranha_chat.py:246-257 | a successful construction keeps the caller's messages as they were and adds exactly one message after them, from the user |
| `Chat.SetupSucceeds` | experimental/rule_inference/piranha_chat.py:233-257 | construction succeeds exactly when the temperature and model are valid, every kept example file is readable and every hole is supplied |
| `Chat.SetupSeedsOneMessage` | experimental/rule_inference/piranha_chat.py:246-257 | a successful construction appends exactly one user message after the caller's messages, which stay unchanged; its content is the explanation, a newline, the kept files' blocks in traversal order, a newline and the filled task |
| `Chat.SetupRejects` | experimental/rule_inference/piranha_chat.py:233-257 | a bad temperature is reported before a bad model, and with a valid configuration the first unreadable kept example file is reported before any missing hole; a missing hole is reported by name, and only when configuration and examples are fine |
| `Conversation.Settle` | experimental/rule_inference/piranha_chat.py:279-301 | the number of sleeps is the length of the run of transient errors before the first other outcome |
| `Conversation.CompletionOf` | experimental/rule_inference/piranha_chat.py:278-301 | the retry loop is still going (`Outage`) exactly when every outcome is transient; a returned response or a raised error is one of the provider's outcomes |
| `Conversation.Attempts` | experimental/rule_inference/piranha_chat.py:279-297 | the provider calls the retry loop makes: one per transient error, plus the one that ends the loop, never more than the outcomes available |
| `Conversation.RetryUntilSuccess` | experimental/rule_inference/piranha_chat.py:278-301 | k transient errors then a success: k sleeps, k + 1 calls, and the success's choice contents returned in order and in full |
| `Conversation.RetryUntilFailure` | experimental/rule_inference/piranha_chat.py:289-297 | k transient errors then any other error: the error propagates after k sleeps and k + 1 calls |
| `Conversation.RetryThroughOutage` | experimental/rule_inference/piranha_chat.py:279-301 | while every outcome is transient the loop does not end, and sleeps once per outcome |
| `Conversation.TransientPrefix` | experimental/rule_inference/piranha_chat.py:279-301 | transient errors in front of any outcomes leave the result unchanged and add exactly one sleep and one call each (no backoff, no cap) |
| `Conversation.LastIsAssistant` | experimental/rule_inference/piranha_chat.py:268-269 | the branch test: the latest message has the role `assistant` |
| `Conversation.ResponseOf` | experimental/rule_inference/piranha_chat.py:267-276 | a reply is the content of the last message of the history afterwards, an assistant turn; any other answer leaves the history as it was |
| `Conversation.HistoryAfter` | experimental/rule_inference/piranha_chat.py:267-276 | the history afterwards keeps the old one as a prefix and gains at most one message, an assistant turn, and only when the last message was not an assistant turn |
| `Conversation.RequestsSent` | experimental/rule_inference/piranha_chat.py:267-301 | a request for a response sends no call when the latest message is an assistant turn, otherwise as many as the retry loop makes |
| `Conversation.SleepsTaken` | experimental/rule_inference/piranha_chat.py:267-301 | a request for a response sleeps only when it calls the provider, once per transient error before the loop ends |
| `Conversation.CachedReply` | experimental/rule_inference/piranha_chat.py:267-271 | with an assistant message last, its content is returned, the history is unchanged, and no call or sleep happens |
| `Conversation.HistoryAppendOnly` | experimental/rule_inference/piranha_chat.py:267-276 | a request keeps the history as a prefix and adds at most one message; it adds one exactly when a fresh reply was obtained, and that message is the reply as an assistant turn; failures add nothing |
| `Conversation.ReplyIsCached` | experimental/rule_inference/piranha_chat.py:267-276 | after a reply, asking again returns the same reply with no provider call and no change |
| `Conversation.AppendedAssistantIsReturned` | experimental/rule_inference/piranha_chat.py:259-271 | an appended assistant turn is what the next request returns, without a provider call |
| `Conversation.FollowupRequestsOnce` | experimental/rule_inference/piranha_chat.py:263-276 | after a user follow-up and an immediate success, exactly one call, no sleep, and the first choice appended and returned |
| `Conversation.RetriedResponse` | experimental/rule_inference/piranha_chat.py:272-301 | with a user message last, k transient errors then a success: k sleeps, k + 1 calls, the first choice appended once and returned |
| `Conversation.FailurePropagates` | experimental/rule_inference/piranha_chat.py:273-297 | a non-transient error propagates from the request with nothing appended, after only the sleeps of the transient errors before it |
| `Chat.Environment.Create` | experimental/rule_inference/piranha_chat.py:283-288 | one provider call consumes the next outcome and records the request |
| `Chat.Environment.Sleep` | experimental/rule_inference/piranha_chat.py:301 | a sleep adds its seconds to the time slept and changes nothing else |
| `Chat.PiranhaGptChat.Init` | experimental/rule_inference/piranha_chat.py:231-244 | stores the validated holes, history, temperature and model |
| `Chat.PiranhaGptChat.Create` | experimental/rule_inference/piranha_chat.py:231-257 | construction is rejected exactly when `Setup` fails, with the same error; otherwise the new chat's history is `Setup`'s and its configuration is the given one |
| `Chat.PiranhaGptChat.AppendSystemMessage` | experimental/rule_inference/piranha_chat.py:259-261 | the history grows by exactly one assistant message holding the content; earlier messages are unchanged |
| `Chat.PiranhaGptChat.AppendUserFollowup` | experimental/rule_inference/piranha_chat.py:263-265 | the history grows by exactly one user message holding the content; earlier messages are unchanged |
| `Chat.PiranhaGptChat.GetCompletion` | experimental/rule_inference/piranha_chat.py:278-301 | returns `CompletionOf` the provider's outcomes; consumes exactly `Attempts` of them; sends that many identical requests with the full history; sleeps 10 seconds per transient error |
| `Chat.PiranhaGptChat.GetModelResponse` | experimental/rule_inference/piranha_chat.py:267-276 | the returned response, the new history, the requests sent (each asking for one sample) and the time slept are those of `ResponseOf`, `HistoryAfter`, `RequestsSent` and `SleepsTaken` |
| `Chat.AskTwice` | experimental/rule_inference/piranha_chat.py:267-276 | a caller asking twice gets the same reply the second time |

## Left out

- Logging and printing (the module logger, `logger.debug`/`logger.error`, the `print` calls): output only.
- The OpenAI client call itself: the provider is the finite list of outcomes in `Environment.pending`.
- Real time: `time.sleep` only adds to `Environment.slept`.
- The file system: `os.walk` is the given `WalkStep` sequence. Its `dirs` lists are left out because they only steer the walk. `Path.read_text` is the stored `contents`; any read error, decoding errors included, is `None`. The hard-coded example directory is whatever root the walk carries.
- `os.path.join` is modelled for plain file names only: the root, then `/` unless the root is empty or already ends in `/`, then the name.
- The explanation text is a parameter of `Setup` and `Create`. The template is modelled only for the fields it holds: `str.format` parsing in general (escaped braces, format specs, positional fields) is not modelled.
- Hole values are strings. `format` would apply `str()` to other values.
- Temperature is a `real`. Only the inclusive range check is modelled, and non-numeric temperatures are not.
- Message records are `Message(role, content)` with three roles. A caller-supplied history with other keys or roles is not modelled.
- `Chat.PiranhaGptChat.Create`: the source stores the caller's `messages` list object itself, and every later append (the seeded prompt, assistant replies, follow-ups) also changes that caller's list. The model copies the history as a `seq<Message>` value, so this aliasing is not captured: a caller's own list never sees the chat's new turns.
- `Chat.PiranhaGptChat.GetCompletion`: the source loops forever when the provider keeps failing transiently. The model has a finite outcome list, so it ends with `Outage` (still retrying) when the list holds only transient errors. `Chat.PiranhaGptChat.GetModelResponse` then returns `Stalled` and appends nothing.
- `Chat.PiranhaGptChat.GetCompletion`: the number of choices in a response comes from the outcome list, not from `n_samples`.
- Asking for more than one sample is never done by the class itself. Its meaning for the conversation is not modelled beyond what `GetCompletion` returns.
- `completions[0]` on an empty choice list raises `IndexError` in the source. The model returns `NoChoices` and appends nothing.
- A missing hole: the code raises Python's `KeyError` from `format`, naming the first missing field. The model follows the code: `MissingHole(name)` with the first missing hole in template order.
