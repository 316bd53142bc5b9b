# Turn-taking debate: a Dafny model

This project models the turn-taking debate of the text-to-speech examples. Two
agents, an Optimist and a Skeptic, take turns discussing a topic for a number
of rounds. Each agent answers the other's latest reply. There are two front ends:

- **The command-line runner** (`runDebate` and `processTurn` in
  `turn-taking.ts`). It shows each reply in a note, word-wrapped at 80 columns
  by `formatText`, and returns the transcript.
- **The browser page** (`startDebate` in `Debate.tsx`). It shows the growing
  transcript after every reply.

The language model is a parameter, `Debate.Generator`. It maps the 0-based call
number, the agent and the prompt to `Some(reply)`. It maps them to `None` when
the call throws. The call number makes it as general as any scripted sequence
of replies.

Modules:

- `Strings`: JavaScript's `split` on one character, its inverse `Join`, and `length` in UTF-16 code units.
- `Wrap`: `formatText`, its line bound, its round trip, and its greediness.
- `WrapExamples`: two edge cases of `formatText`, worked through the loop.
- `Debate`: the agents, the two prompt templates, and a reference description
  of a run.
  - The description is indexed by call number (`PromptAt`, `Progress`, `IsRun`).
  - `RunUnique` proves that a generator determines the run.
- `CliDebate`: `processTurn` and `runDebate` as a fold that mirrors the source
  loop. `RunDebate` is proved to be the reference run.
- `UiDebate`: `startDebate` in the same way. It also records every value passed
  to `setResponses`.
- `Variants`: how the two front ends differ.
  - The runner introduces whenever the reply to quote is empty (`!previousResponse`).
  - The page introduces only on the first call (`turn === 1`).
  - So the two run the same debate unless a reply is empty.

The command-line runner gives the Skeptic the introduce prompt when the
Optimist's reply is empty. Only the page limits the introduce prompt to the
first call (`turn === 1`).

Widths in `formatText` are JavaScript string lengths, which count UTF-16 code
units. `Strings.Length` models them: a character outside the Basic
Multilingual Plane, such as an emoji, counts as two.

## Model

| member | source | states |
|---|---|---|
| Strings.Split | text-to-speech/turn-taking/src/mastra/debate/turn-taking.ts:7 | `text.split(" ")` yields at least one piece, no piece contains the separator, and joining the pieces with it gives the text back |
| Strings.SplitJoin | text-to-speech/turn-taking/src/mastra/debate/turn-taking.ts:7 | split undoes join for any non-empty list of separator-free parts, so the pieces are exactly the maximal separator-free runs |
| Strings.LengthConcat | text-to-speech/turn-taking/src/mastra/debate/turn-taking.ts:12 | the code-unit length of a concatenation is the sum of the lengths |
| Strings.LengthOfPart | text-to-speech/turn-taking/src/mastra/debate/turn-taking.ts:12 | a split piece is no longer, in code units, than the string it came from |
| Strings.SplitConcat | text-to-speech/turn-taking/src/mastra/debate/turn-taking.ts:7 | splitting at one separator splits the two sides independently |
| Wrap.FormatText | text-to-speech/turn-taking/src/mastra/debate/turn-taking.ts:6-25 | the empty text gives the empty string, and every output line is at most `maxWidth` UTF-16 code units long or is a single word without a space |
| Wrap.PackKeepsLinesFit | text-to-speech/turn-taking/src/mastra/debate/turn-taking.ts:11-18 | the word loop keeps every pushed line and the current line within the width unless it is one overlong word |
| Wrap.PushLineKeepsLinesFit | text-to-speech/turn-taking/src/mastra/debate/turn-taking.ts:20-22 | pushing a fitting line onto a result whose lines fit keeps all lines fitting |
| Wrap.WellSpacedIff | text-to-speech/turn-taking/src/mastra/debate/turn-taking.ts:7 | `split(" ")` has no empty word exactly when the text is non-empty, neither starts nor ends with a space and has no doubled space |
| Wrap.PackRoundTrip | text-to-speech/turn-taking/src/mastra/debate/turn-taking.ts:11-18 | while packing non-empty words, what has been laid out is the words joined by spaces with some spaces turned into newlines |
| Wrap.FormatTextRoundTrip | text-to-speech/turn-taking/src/mastra/debate/turn-taking.ts:6-25 | on well-spaced text the output is the text with some spaces turned into newlines; without newlines in the text, turning them back into spaces restores it |
| Wrap.PackGreedy | text-to-speech/turn-taking/src/mastra/debate/turn-taking.ts:11-18 | while packing, the lines laid out join back to the words seen, each is well spaced and fits, and no line could have taken the next line's first word |
| Wrap.FormatTextGreedy | text-to-speech/turn-taking/src/mastra/debate/turn-taking.ts:6-25 | on well-spaced text without newlines, the output lines join back to the text with spaces, each fits, and each break was forced: the next line's first word would not fit on the line before it |
| WrapExamples.FormatTextLongWord | text-to-speech/turn-taking/src/mastra/debate/turn-taking.ts:12-16 | a word longer than the width is kept whole (`formatText("ab", 1) == "ab"`) |
| WrapExamples.FormatTextEmoji | text-to-speech/turn-taking/src/mastra/debate/turn-taking.ts:11-22 | widths count code units: `formatText("😀 x", 3)` is `"😀\nx"`, because the emoji counts two, though the one-line text has only three characters |
| WrapExamples.FormatTextDoubleSpace | text-to-speech/turn-taking/src/mastra/debate/turn-taking.ts:12-22 | a double space at a full line leaves an empty line (`formatText("a  b", 1) == "a\n\nb"`), so the round trip needs well-spaced text |
| Debate.RespondQuotes | text-to-speech/turn-taking/src/mastra/debate/turn-taking.ts:49 | the respond prompt quotes the previous reply literally, at a position fixed by the topic and speaker name |
| Debate.RespondInjective | text-to-speech/turn-taking/src/mastra/debate/turn-taking.ts:49 | equal respond prompts for the same topic and speaker quote equal replies |
| Debate.IntroduceIsNotRespond | text-to-speech/turn-taking/src/mastra/debate/turn-taking.ts:44-50 | the introduce prompt never equals a respond prompt |
| Debate.ProgressAgree | text-to-speech/turn-taking/src/mastra/debate/turn-taking.ts:104-132 | two runs against the same model agree entry by entry as far as both go |
| Debate.ThrowIsFinal | text-to-speech/turn-taking/src/mastra/debate/turn-taking.ts:104-132 | after a call throws, no run against the same model has more entries |
| Debate.RunUnique | text-to-speech/turn-taking/src/mastra/debate/turn-taking.ts:104-132 | for a given front end, topic, round count and model there is at most one run: same calls, same entries, same failure |
| Debate.RunShape | text-to-speech/turn-taking/src/mastra/debate/turn-taking.ts:104-132 | a run alternates agents Optimist first; a complete one has two entries and two calls per round; a failed one has one call more than entries and fewer than two entries per round |
| CliDebate.ProcessTurn | text-to-speech/turn-taking/src/mastra/debate/turn-taking.ts:33-88 | the call goes to the given agent; the prompt is the introduce template exactly when the previous reply is empty, and otherwise quotes it under the other agent's name; the turn returns the model's reply unchanged, and its note fits 80 columns |
| CliDebate.NoteOnlyRewraps | text-to-speech/turn-taking/src/mastra/debate/turn-taking.ts:74-87 | the note only re-wraps the returned reply: for a well-spaced reply without newlines, the note with newlines turned back into spaces is the reply |
| CliDebate.TakeTurn | text-to-speech/turn-taking/src/mastra/debate/turn-taking.ts:108-131 | one turn extends the run by the prescribed call, and then either one answered entry with its note or the throw |
| CliDebate.Round | text-to-speech/turn-taking/src/mastra/debate/turn-taking.ts:104-132 | one round keeps the run valid and ends with two more entries, or fewer when a call threw |
| CliDebate.Loop | text-to-speech/turn-taking/src/mastra/debate/turn-taking.ts:104-132 | the loop from round `turn` keeps the run valid and ends with two entries per round unless a call threw |
| CliDebate.RunDebate | text-to-speech/turn-taking/src/mastra/debate/turn-taking.ts:91-138 | the calls and entries are the reference run for `max(turns, 0)` rounds; the transcript is returned unless a call threw; every note shown is the wrapped text of its entry |
| CliDebate.RunDebateShape | text-to-speech/turn-taking/src/mastra/debate/turn-taking.ts:104-137 | a completed debate returns two alternating entries per round, Optimist first; `turns < 1` makes no call and returns `[]` |
| CliDebate.RunDebatePrompts | text-to-speech/turn-taking/src/mastra/debate/turn-taking.ts:104-126 | call i goes to the i-th speaker; it introduces exactly when there is no earlier reply or that reply is empty; otherwise it quotes the reply just before it, the other agent's (the Skeptic's previous round for the Optimist, the Optimist's same round for the Skeptic) |
| CliDebate.RunDebateKeepsReplies | text-to-speech/turn-taking/src/mastra/debate/turn-taking.ts:115-131 | entry i holds exactly the model's reply to call i |
| CliDebate.RunDebateExample | text-to-speech/turn-taking/src/mastra/debate/turn-taking.ts:91-138 | one round on "Climate change" with replies "A1" and "B1" makes the introduce call and then a call quoting "A1", and returns both entries in order |
| UiDebate.Ask | text-to-speech/turn-taking/app/components/Debate.tsx:55-66 | one `generate` either throws, ending the run, or appends the reply as the next entry and shows the transcript so far |
| UiDebate.Round | text-to-speech/turn-taking/app/components/Debate.tsx:46-83 | one round keeps the run valid and every shown value a prefix of the transcript, and ends with two more entries unless a call threw |
| UiDebate.Loop | text-to-speech/turn-taking/app/components/Debate.tsx:46-83 | the loop from round `turn` keeps the run valid and ends with two entries per round unless a call threw |
| UiDebate.StartDebate | text-to-speech/turn-taking/app/components/Debate.tsx:32-89 | an empty topic makes no call and leaves the page as it was; otherwise the calls and shown entries are the reference run, `isDebating` ends false, and the values given to `setResponses` are `[]` and then each longer prefix of the transcript |
| UiDebate.StartDebateShape | text-to-speech/turn-taking/app/components/Debate.tsx:46-83 | the shown entries alternate Optimist first; a completed debate shows two per round; `turns < 1` makes no call and shows `[]` |
| UiDebate.StartDebatePrompts | text-to-speech/turn-taking/app/components/Debate.tsx:48-69 | only the first call introduces; every later call quotes the reply just before it, the other agent's, even an empty one |
| UiDebate.StartDebateFailure | text-to-speech/turn-taking/app/components/Debate.tsx:84-88 | when call k throws, the error is logged, exactly the k replies before it are shown, and `isDebating` is false |
| UiDebate.StartDebateKeepsReplies | text-to-speech/turn-taking/app/components/Debate.tsx:59-79 | entry i shows exactly the model's reply to call i |
| Variants.PromptsAgreeIff | text-to-speech/turn-taking/src/mastra/debate/turn-taking.ts:44-50 | the two front ends' prompt rules agree on call i exactly when it is the first call or the reply before it is non-empty |
| Variants.ProgressCliIsUi | text-to-speech/turn-taking/src/mastra/debate/turn-taking.ts:104-132 | against a model that never replies with an empty string, a runner's run is also a page run |
| Variants.SameRunWithoutEmptyReplies | text-to-speech/turn-taking/src/mastra/debate/turn-taking.ts:91-138 | against a model that never replies with an empty string, the runner and the page (for a non-empty topic) make the same calls, end with the same transcript and fail together |
| Variants.EmptyReplyCli | text-to-speech/turn-taking/src/mastra/debate/turn-taking.ts:44-46 | after an empty opening reply, the runner's Skeptic gets the introduce prompt |
| Variants.EmptyReplyUi | text-to-speech/turn-taking/app/components/Debate.tsx:69 | after an empty opening reply, the page's Skeptic quotes the empty reply |

## Left out

- Speech: `voice.speak`, the recorder, `playAudio` and the page's audio playback are not modelled, so a failure while speaking or playing is not modelled either.
- Agent and framework configuration are left out: `mastra.getAgent`, `mastraClient`, the agents' instructions and `temperature: 0.9`. The model's behaviour is the `Generator` parameter.
- `cli.ts` is not part of this model. It reads the topic and parses the number of turns.
- The page's `parseInt` of the turns field is not modelled. `turns` is an integer, and `turn <= turns` gives `max(turns, 0)` rounds. A `NaN` or fractional `turns` is not modelled.
- Spinners, `p.intro`, `p.log`, `p.outro` and the note titles are left out. They are terminal output that does not affect the transcript.
- JSX rendering, scrolling and the playback index are left out.
- UiDebate.StartDebate: the page state is recorded only at the end of the run. `isDebating` is true while the run is going, and this intermediate state is not recorded.
- CliDebate.RunDebate: when a call throws, the exception leaves `runDebate`. The model returns `None` and keeps the calls and notes made before it. It does not model `cli.ts` catching the exception.
- The default arguments are not modelled separately: `turns = 3` of `runDebate` is `RunDebate(topic, 3, gen)`, and `previousResponse = ""` of `processTurn` is an explicit empty string. Every call in the source passes both arguments.
