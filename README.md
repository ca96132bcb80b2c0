# Premium caption generator — a Dafny model of its topic handling

The program is a one-screen Streamlit tool. The user types several topics,
one per line, picks a platform, a tone, a caption count, a temperature and
an export format, and presses "Generate Captions". The tool then asks a
hosted chat model for captions for each topic in turn, shows each answer,
and offers all answers for download as CSV or as plain text.

This project models the deterministic logic of that run:

- **Topic parsing** (`Topics`): the box is split on line feeds, each line
  is stripped of surrounding whitespace, and the lines left empty are
  dropped, in input order. An empty box gives no topics.
- **The empty-input guard and the run** (`App.Run`): with no topics, only
  the warning "Please enter at least one topic." is produced and the
  service is never called. Otherwise the captions are generated and the
  download is built from the results.
- **The per-topic loop** (`App.GenerateAll`): it calls the generator once
  per topic, in order, and appends `{topic, captions}` to the result list.
- **The request for one topic** (`Prompts`): the system message names the
  platform and the tone, and the user message gives the caption count in
  decimal and then the topic. A reply's text is used as it is. An exception
  becomes `"Error: "` followed by its message.
- **The TXT export** (`Export`): each result becomes `topic + ":\n" +
  captions`, and the blocks are joined with a blank line.

The Python builtins this relies on are modelled in `Text`:
`str.split` on one character, `str.join`, `str.strip()` and `str(n)`.
The sidebar's settings and their ranges are modelled in `Config`.

The chat-completion service is a function parameter
`remote: (nat, Request) -> Completion`. Its first argument is the call's
position in the run, so two calls with the same request may get different
answers, as sampling at a temperature and intermittent failures allow. It
answers with `Reply(text)` or `Raised(message)`. Any sequence of answers a
run could receive is one such function. The generator the loop calls is
likewise a parameter `generate: (nat, string) -> string`, where
`generate(i, t)` is the answer to the i-th call, made for topic `t`.

Files: `text.dfy`, `config.dfy`, `topics.dfy`, `prompts.dfy`, `export.dfy`,
`app.dfy`, one module each.

## Model

| member | source | states |
|---|---|---|
| `Text.Join` | caption_generator_premium.py:57 | `sep.join(parts)` is empty for no parts, and otherwise is exactly as long as all parts plus one separator between each two neighbours |
| `Text.Split` | caption_generator_premium.py:40 | `split('\n')` gives one more piece than there are line feeds, no piece holds a line feed, and joining the pieces with `'\n'` gives the input back |
| `Text.SplitOfJoin` | caption_generator_premium.py:40 | splitting undoes joining when no part holds the separator |
| `Text.JoinInjective` | caption_generator_premium.py:40 | two non-empty lists of separator-free parts with the same join are equal |
| `Text.Strip` | caption_generator_premium.py:40 | `strip()` keeps the run of the line that starts after its leading whitespace, unchanged and in place; everything after that run is whitespace; the result neither starts nor ends with whitespace; it is empty exactly when the line is all whitespace; a line with no whitespace at either end is returned as it is |
| `Text.StripIdempotent` | caption_generator_premium.py:40 | stripping twice is stripping once |
| `Text.StripKeepsCharacters` | caption_generator_premium.py:40 | stripping only removes characters: every character kept was in the line |
| `Text.DecimalString` | caption_generator_premium.py:30 | the caption count prints as decimal digits with no leading zero, and those digits denote the count |
| `Text.DecimalStringInjective` | caption_generator_premium.py:30 | different counts print differently |
| `Text.JoinAppend` | caption_generator_premium.py:57 | joining two non-empty lists puts exactly one separator between their joins |
| `Config.PlatformName` | caption_generator_premium.py:16 | each platform label is one non-empty word |
| `Config.PlatformNameInjective` | caption_generator_premium.py:16 | no two platforms share a label |
| `Config.ToneName` | caption_generator_premium.py:17 | each tone label is one non-empty word |
| `Config.ToneNameInjective` | caption_generator_premium.py:17 | no two tones share a label |
| `Topics.DropEmpty` | caption_generator_premium.py:40 | keeps at most as many strings as it is given, none of them empty |
| `Topics.NonBlankTopics` | caption_generator_premium.py:40 | the comprehension keeps at most one topic per line, and none is empty or has whitespace at either end |
| `Topics.ParseTopics` | caption_generator_premium.py:40 | there are at most as many topics as lines in the box |
| `Topics.ParseTopicsIsFilteredLines` | caption_generator_premium.py:40 | the `if bulk_input else []` guard changes nothing: the topics are the non-empty stripped lines of the split box in every case |
| `Topics.DropEmptySelects` | caption_generator_premium.py:40 | the kept strings are the input's non-empty strings, at increasing positions, and every string skipped is empty |
| `Topics.ParseTopicsSelectsLines` | caption_generator_premium.py:40 | topic k is line `idx[k]` of the box, stripped; the lines are taken in input order; every line skipped strips to nothing |
| `Topics.ParseTopicsAreTopics` | caption_generator_premium.py:40 | every topic is non-empty, has no whitespace at either end and holds no line feed |
| `Topics.DropEmptyEmptyIff` | caption_generator_premium.py:40 | nothing is kept exactly when every string is empty |
| `Topics.BlankIffLinesAllWs` | caption_generator_premium.py:40 | the box holds only line feeds and whitespace exactly when every line of it is all whitespace |
| `Topics.ParseTopicsEmptyIff` | caption_generator_premium.py:40-42 | there are no topics, so the warning branch runs, exactly when the box holds nothing but whitespace and line feeds, the empty box included |
| `Topics.DropEmptyKeepsNonEmpty` | caption_generator_premium.py:40 | a list with no empty string passes through unchanged |
| `Topics.NonBlankTopicsKeepsTopics` | caption_generator_premium.py:40 | lines already in topic form are kept as they are |
| `Topics.ParseTopicsOfLines` | caption_generator_premium.py:40 | a topic list written one per line parses back to itself |
| `Topics.ParseTopicsIdempotent` | caption_generator_premium.py:40 | parsing the topics, joined by line feeds, gives the same topics |
| `Topics.ParseTwoLines` | caption_generator_premium.py:40 | two topics typed on two lines parse to exactly those two topics, in order |
| `Topics.ParseTwoTopics` | caption_generator_premium.py:40 | "cats\ndogs" gives the topics "cats" then "dogs" |
| `Topics.ParseBlankBox` | caption_generator_premium.py:40-42 | "   \n\n" gives no topics |
| `Prompts.SystemPrompt` | caption_generator_premium.py:29 | the system message is the fixed introduction, the platform label, " in ", the tone label and " tone.", each at its exact position, and nothing else |
| `Prompts.UserPrompt` | caption_generator_premium.py:30 | the user message is "Generate ", the decimal caption count, " captions with hashtags for this topic: " and the topic, each at its exact position, and nothing else |
| `Prompts.BuildRequest` | caption_generator_premium.py:26-33 | the request names "gpt-4" and the chosen temperature, and holds exactly two messages: the system message then the user message above, with the platform, tone, caption count and topic at their positions |
| `Prompts.SystemPromptInjective` | caption_generator_premium.py:29 | different platform or tone give a different system message |
| `Prompts.UserPromptInjective` | caption_generator_premium.py:30 | different caption count or topic give a different user message |
| `Prompts.BuildRequestInjective` | caption_generator_premium.py:26-33 | equal requests have equal platform, tone, caption count, temperature and topic |
| `Prompts.GenerateCaptions` | caption_generator_premium.py:24-36 | for the i-th call: on a reply the captions are its text as it came; on an exception they are "Error: " followed by the exception's message |
| `Prompts.FailureLooksLikeReply` | caption_generator_premium.py:34-36 | a failed call and a reply whose text is "Error: " plus the same message give the same captions |
| `Prompts.RepeatedRequestMayDiffer` | caption_generator_premium.py:24-36 | two calls with the same request can give different captions, for instance when only the second one fails |
| `Export.Block` | caption_generator_premium.py:57 | a result's block is its topic, then ":" and a line feed, then its captions, and nothing else |
| `Export.BlockInjective` | caption_generator_premium.py:57 | a block determines its result when the topic holds no line feed, as every parsed topic does |
| `Export.ExportTxt` | caption_generator_premium.py:57 | the TXT file is empty exactly when there are no results; otherwise it is as long as all blocks plus one blank-line separator between each two |
| `Export.ExportTxtSmall` | caption_generator_premium.py:57 | no results give an empty file; one result gives exactly its block |
| `Export.ExportTxtAppend` | caption_generator_premium.py:57 | the export of two non-empty result lists is the two exports with one blank line between them |
| `Export.ExportTxtCons` | caption_generator_premium.py:57 | the file is the first block, then either nothing or a blank line and the export of the other results |
| `Export.ExportTxtAmbiguous` | caption_generator_premium.py:57 | two different result lists can give the same file, so the file cannot always be split back into results |
| `App.GenerateAll` | caption_generator_premium.py:44-49 | the result list has one entry per topic, in order, and entry i holds topic i and the answer of the i-th call, made for topic i; the loop's own log of the topics it visited lists every topic in order |
| `App.Run` | caption_generator_premium.py:39-58 | the loop's log of topics visited is the parsed topics; the run warns exactly when the box is blank, and then the log is empty; otherwise result i is topic i with the captions from the i-th call, and the download is the results as a table for CSV or their TXT export for TXT |

## Left out

- The chat-completion call itself (lines 26-34) is the parameter `remote`. The model says which request is sent and how the answer is used, not what the service answers.
- The text of an exception's message (line 36) is whatever string `Raised` carries. Failures while reading `response['choices'][0]['message']['content']` fall under `Raised` too.
- Reading the API key from the secrets store (line 7) has no logic to model.
- The Streamlit widgets, page layout, subheadings, text areas, the warning box and the download buttons (lines 10-21, 39, 42, 46, 48, 55, 58) are UI. The model assumes that showing them never fails. `App.Run` returns the warning text and the download payload instead of showing them. File names and MIME types are not modelled.
- CSV serialisation through pandas and UTF-8 encoding (lines 53-54) are not modelled. The CSV download is the table of results that pandas would write.
- The temperature slider's step of 0.05 (line 20) is not modelled; only its range is. The temperature is only passed through to the service.
- `Text.IsWs` lists the characters CPython's `str.isspace` accepts. Only the two literal examples depend on which characters these are. `Topics.ParseTwoTopics` needs the letters of "cats" and "dogs" not to be whitespace. `Topics.ParseBlankBox` needs the space to be whitespace. Every other proof holds for any whitespace set.
- `App.GenerateAll`: `calls` is a log the loop keeps next to each call to the generator. The generator is a function, so the model cannot observe the calls themselves. That each topic is asked for once, as call i, shows in the results: entry i is the answer of call i.
- `App.GenerateAll`: the loop assumes the per-topic text area (line 48) never raises. It has no `key`, and Streamlit identifies a widget by its label, value and height. A topic typed twice whose two calls return the same text, such as the same "Error: ..." after a persistent failure, would then show two identical widgets, and Streamlit would raise a duplicate-widget error. That ends the run before the second entry is appended. The model always produces one entry per topic.
- `App.Run`: for the same reason, a run whose repeated topic gets identical captions can stop inside the loop without reaching the export (lines 52-58), so there is no download. The model assumes display never fails and always returns the results and a download for a non-blank box.
- `Topics.ParseTopics`: its own contract states only the count bound. That the topics are stripped, non-empty, single-line, in order and taken from the lines is proved in the lemmas `ParseTopicsAreTopics` and `ParseTopicsSelectsLines`.

## Notes

- The caption text does not say whether the call failed. An exception's message is returned as ordinary text behind "Error: ", and the result entry and both exports treat it like any reply (`Prompts.FailureLooksLikeReply`).
- The TXT export cannot in general be split back into one block per topic on blank lines, because the captions themselves may contain blank lines (`Export.ExportTxtAmbiguous`). What the model proves is the exact shape of the join.
