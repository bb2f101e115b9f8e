# AI Teaching Assistant backend — a verified model of its lesson and practice core

The backend is a small FastAPI service with two endpoints.

- `POST /lesson-step` resolves a tutoring session and builds a chat prompt. The prompt holds a
  system prompt, the session's stored history and a user note describing the learner. The
  service sends the prompt to a chat-completion model and splits the reply into three parts:
  a step, a checkpoint question and a recap. It answers with the three parts and appends the
  raw reply to the session's history.
- `POST /practice` asks the model for practice questions. It turns every non-blank line of the
  reply into a practice item: the leading numbering is removed and the item is tagged
  `concept`, `applied` or `code`. When the reply has no non-blank line, the answer is one
  fallback concept question instead.

This project models that core in Dafny and proves what it promises.

| module | file | models |
|---|---|---|
| `Wrappers` | `wrappers.dfy` | `Option`, for the request fields that may be absent |
| `Text` | `text.dfy` | the Python string operations the core uses: `strip`, `lstrip(chars)`, `lower`, `startswith`, `in`, `join`, `split('\n')` and the non-blank-line filter, with their laws |
| `Session` | `session.dfy` | the session store as a value (`map` from id to history), the transition of `get_or_create_session` and the store invariant |
| `Prompt` | `prompt.dfy` | the request records, the system prompt, the user note of `build_messages` and the practice instruction |
| `LessonOutput` | `lesson_output.dfy` | `split_lesson_output`: line cleaning, the first-marker search and the three parts |
| `LessonOutputExamples` | `lesson_examples.dfy` | worked replies, derived from the general lemmas |
| `Practice` | `practice.dfy` | the practice-item loop as a method, the function that specifies it, and the fallback |
| `PracticeExamples` | `practice_examples.dfy` | worked replies for the practice formatter |
| `Service` | `service.dfy` | class `SessionStore`: the in-memory `SESSIONS` map as a field, with `get_or_create_session`, `build_messages`, `lesson_step` and `practice` as methods that read it or update it in place |

The model's reply is a parameter of the endpoint methods, and so is the fresh id standing for
`uuid.uuid4()`. The endpoint methods also return the prompt they would send, so the contracts
can say exactly what the model is asked.

Two facts about the code, read off the model:

- The comment at line 169 of `backend/app/main.py` says the step is everything before the
  checkpoint or recap. By that comment, a reply whose first non-blank line is a marker would
  have no step lines and so get the default step `"Let's continue learning..."`. Line 171
  does otherwise: when `step_end` is 0 it keeps *all* lines as the step. For `Checkpoint: Q1`
  followed by `Recap: R1`, the step is therefore the whole two-line text, repeating the
  checkpoint and the recap. The model follows line 171, and
  `LessonOutputExamples.MarkersOnly` and `LessonOutput.StepWholeTextWhenMarkerFirst` prove
  what it does.
- The stored histories hold only the assistant replies. The user notes are sent to the model
  but never stored. `Session.StoreInvariant` records this and every store update keeps it.

## Model

| member | source | states |
|---|---|---|
| Session.HistoryOf | backend/app/main.py:103 | an absent session id or one not in the store yields the empty history |
| Session.Resolve | backend/app/main.py:94-99 | `get_or_create_session` as a transition: the returned id is in the new store, whose keys are the old keys plus that id; with a non-empty uuid the returned id is non-empty |
| Session.ResolveSpec | backend/app/main.py:94-99 | with a fresh, non-empty uuid: the returned id is non-empty and in the new store; a known id comes back with the store unchanged; otherwise the supplied non-empty id, or else the uuid, is new and bound to an empty history; the keys grow by exactly the returned id and no existing history changes |
| Session.ResolveIdempotent | backend/app/main.py:94-96 | resolving the id just returned changes nothing, whatever uuid is drawn |
| Session.ResolveKeepsInvariant | backend/app/main.py:94-99 | resolving keeps the store invariant: no empty id, and only assistant turns in histories |
| Session.ResolveResetsReusedFreshId | backend/app/main.py:97-98 | if the uuid collided with a live session, that session's history would be wiped; hence the freshness precondition on the methods |
| Service.SessionStore.constructor | backend/app/main.py:86 | the store starts empty and satisfies its invariant |
| Service.SessionStore.GetOrCreate | backend/app/main.py:94-99 | the returned id and the new store are exactly the resolution of the old store; the invariant is kept |
| Service.SessionStore.BuildMessages | backend/app/main.py:102-114 | the messages are the system prompt turn, then the session's stored history in order, then one user turn with the note; two more messages than the history |
| Service.SessionStore.LessonStep | backend/app/main.py:190-224 | the session is resolved as by `get_or_create_session`; the prompt is system turn + resolved history + note + lesson instruction; the response carries the resolved id and the formatted step, checkpoint and recap of the split reply; the new store is the resolved store with exactly one assistant turn (the raw reply) appended to that session |
| Service.LessonStepHistory | backend/app/main.py:194-217 | after a lesson step the invariant holds, the keys are the old keys plus the resolved id, the resolved session's history is its previous history plus the raw reply, and every other history is unchanged |
| Service.SessionStore.Practice | backend/app/main.py:234-273 | the session is resolved as by `get_or_create_session` and no history is appended; the prompt is the system turn and the practice instruction; the items are those of the practice formatter on the reply |
| Service.FormatStep | backend/app/main.py:210-214 | the formatted step is the step, then the checkpoint and then the recap, with two line feeds between each: it starts with the step, ends with the recap and is four characters longer than the three together |
| Service.FormatStepLinesOf | backend/app/main.py:210-214 | when the checkpoint and recap are single lines, the formatted step reads back line by line as the step's lines, a blank line, the checkpoint, a blank line and the recap |
| Service.BlankLineBetween | backend/app/main.py:212-214 | two single lines separated by a blank line read back as those three lines |
| Service.FormatStepLines | backend/app/main.py:207-214 | for every reply, the formatted step reads back as the step's lines, a blank line, the checkpoint, a blank line and the recap |
| Prompt.SystemPromptOpening | backend/app/main.py:59-60 | `SYSTEM_PROMPT`, kept as its lines joined by line feeds, opens with the role line and a line feed |
| Prompt.SystemPromptEnding | backend/app/main.py:82-83 | `SYSTEM_PROMPT` ends with a line feed, as the triple-quoted literal does |
| Prompt.UserNote | backend/app/main.py:104-110 | the note is the header, then the misconception, answer and confusion sentences in that order; it always ends with a full stop |
| Prompt.Header | backend/app/main.py:104 | the note's header starts with "Subject: " and ends with a full stop |
| Prompt.MisconceptionNote | backend/app/main.py:105-106 | the misconception sentence is empty exactly when the list is absent or empty; otherwise it starts with its label and ends with a full stop |
| Prompt.AnswerNote | backend/app/main.py:107-108 | the answer sentence is empty exactly when the previous answer is absent or empty; otherwise it starts with its label and ends with a full stop |
| Prompt.ConfusionNote | backend/app/main.py:109-110 | the confusion sentence is empty exactly when the learner is not confused |
| Prompt.UserNoteHeader | backend/app/main.py:104-110 | the note starts with the header, and is the header alone exactly when there are no misconceptions, no previous answer and no confusion |
| Prompt.MisconceptionNoteMentions | backend/app/main.py:105-106 | every listed misconception occurs in the misconception sentence |
| Prompt.UserNoteMentionsMisconception | backend/app/main.py:105-106 | every listed misconception occurs in the note |
| Prompt.UserNoteMentionsAnswer | backend/app/main.py:107-108 | a non-empty previous answer occurs in the note |
| Prompt.UserNoteEndsWithConfusion | backend/app/main.py:109-110 | a confused learner's note ends with the re-explain sentence |
| Prompt.PracticeInstruction | backend/app/main.py:237-241 | the practice prompt opens with "Create 5 practice questions for subject " and ends with the fixed mix-and-numbering request |
| Prompt.PracticeInstructionMentions | backend/app/main.py:237-241 | the practice instruction mentions the subject, the topic and the level |
| LessonOutput.LessonLines | backend/app/main.py:161 | every cleaned line is trimmed (non-empty, no whitespace at either end) |
| LessonOutput.LessonLinesOfJoin | backend/app/main.py:161 | a text made of trimmed single lines joined by line feeds cleans back to exactly those lines |
| LessonOutput.LessonLinesSingle | backend/app/main.py:161 | no cleaned line holds a line feed |
| LessonOutput.IsMarked | backend/app/main.py:164-167 | `line.lower().startswith(marker)` |
| LessonOutput.MarkersExclusive | backend/app/main.py:164-167 | no line carries both markers |
| LessonOutput.FirstMarked | backend/app/main.py:164-167 | the search finds the first line whose lower-cased text starts with the marker, or reports that none does |
| LessonOutput.FirstMarkedFinds | backend/app/main.py:164-165 | when line i is the first marked line, the search returns i |
| LessonOutput.FirstMarkedMisses | backend/app/main.py:166-167 | when no line is marked, the search returns nothing |
| LessonOutput.StepEnd | backend/app/main.py:170 | `step_end`: the smallest of the checkpoint index, the recap index and the line count, ignoring a missing index; it is at most each of them and equal to one of them |
| LessonOutput.CheckpointEnd | backend/app/main.py:175 | `checkpoint_end`: the recap index when the recap comes after the checkpoint, else the line count; for a checkpoint inside the lines it is past the checkpoint and within the lines |
| LessonOutput.SplitLessonOutput | backend/app/main.py:154-187 | `split_lesson_output`: the segmentation of the cleaned lines; a reply with no non-blank line gives the default step, checkpoint and recap |
| LessonOutput.SegmentLines | backend/app/main.py:164-187 | for every list of lines, the step, checkpoint and recap are non-empty, the checkpoint starts with "checkpoint:" and the recap with "recap:", ignoring case, whether extracted or defaulted |
| LessonOutput.MarkedJoin | backend/app/main.py:176 | a group of lines joined by spaces is marked when its first line is |
| LessonOutput.MarkedByPrefix | backend/app/main.py:165 | a line is marked when a prefix of it lower-cases to the marker |
| LessonOutput.DefaultsMarked | backend/app/main.py:157-158 | the default checkpoint and recap carry their own markers |
| LessonOutput.StepOfLines | backend/app/main.py:183-185 | trimmed lines joined by line feeds are already stripped and non-empty, so the default step is never used for them |
| LessonOutput.StepBeforeFirstMarker | backend/app/main.py:170-171 | when the first marked line is at a position e > 0, the step is the lines before it joined by line feeds |
| LessonOutput.StepWholeTextWhenMarkerFirst | backend/app/main.py:171 | when the first line is marked, the step is all lines joined by line feeds |
| LessonOutput.CheckpointThenRecap | backend/app/main.py:174-180 | checkpoint before recap: the checkpoint runs up to the recap line and the recap to the end; together they are the tail from the checkpoint |
| LessonOutput.RecapSwallowsCheckpoint | backend/app/main.py:174-180 | recap before checkpoint: the checkpoint runs to the end and the recap runs to the end too, so it repeats the checkpoint |
| LessonOutput.MissingMarkersDefault | backend/app/main.py:157-158 | a missing checkpoint or recap marker leaves that part at its default |
| LessonOutput.RecapRunsToEnd | backend/app/main.py:179-180 | the recap is every line from the first recap line, joined by spaces |
| LessonOutput.LoneCheckpointRunsToEnd | backend/app/main.py:174-176 | with no recap line, the checkpoint is every line from the first checkpoint line |
| LessonOutput.SegmentSingleLine | backend/app/main.py:174-180 | checkpoint and recap built from single lines hold no line feed |
| LessonOutput.DefaultsTrimmed | backend/app/main.py:157-185 | the fallback checkpoint (line 157), recap (line 158) and step (line 185) are already stripped |
| LessonOutput.SegmentTrimmed | backend/app/main.py:169-187 | over stripped lines, the step (stripped at line 183, or the fallback), the space-joined checkpoint and the space-joined recap are all non-empty and start and end with a non-whitespace character |
| LessonOutput.SplitLessonOutputTrimmed | backend/app/main.py:154-187 | for every reply, the three parts `split_lesson_output` returns are trimmed of surrounding whitespace |
| LessonOutputExamples.MarkersOnly | backend/app/main.py:170-171 | "Checkpoint: Q1" then "Recap: R1": the step is the whole two-line text, the checkpoint "Checkpoint: Q1", the recap "Recap: R1" |
| LessonOutputExamples.MarkersOnlyLines | backend/app/main.py:170-180 | for any checkpoint line followed by a recap line, the step is both lines |
| LessonOutputExamples.IntroThenCheckpoint | backend/app/main.py:170-180 | "Intro text" then "Checkpoint: What now?": step "Intro text", that checkpoint, default recap |
| LessonOutputExamples.IntroThenCheckpointLines | backend/app/main.py:170-180 | for any unmarked line followed by a checkpoint line: that step, that checkpoint, default recap |
| LessonOutputExamples.RecapBeforeCheckpoint | backend/app/main.py:174-180 | "Intro", "Recap: R", "Checkpoint: Q": the recap is "Recap: R Checkpoint: Q" |
| LessonOutputExamples.RecapBeforeCheckpointLines | backend/app/main.py:170-180 | for any unmarked line, recap line and checkpoint line in that order: the recap repeats the checkpoint |
| LessonOutputExamples.TwoLines | backend/app/main.py:161 | two trimmed single lines joined by a line feed clean back to those two lines |
| LessonOutputExamples.EmptyText | backend/app/main.py:156-158 | the empty reply gives the three defaults |
| Text.Lower | backend/app/main.py:259-261 | `s.lower()`, on ASCII letters: the result has the input's length |
| Text.LowerSpec | backend/app/main.py:259-261 | lower-casing leaves no ASCII capital and changes no character that is not one |
| Text.StartsWith | backend/app/main.py:165 | `s.startswith(p)`: `p` is a prefix of `s` |
| Text.Contains | backend/app/main.py:259-261 | `sub in s`: `sub` occurs in `s` at some position |
| Text.Join | backend/app/main.py:176 | `sep.join(xs)`: the elements in order with one separator between neighbours |
| Text.TrimLeft | backend/app/main.py:257 | `lstrip(chars)`: a suffix of the input, the removed prefix is made of the given characters only, and the result does not start with one |
| Text.Strip | backend/app/main.py:161 | `strip()` leaves nothing or a trimmed string |
| Text.StripBlank | backend/app/main.py:253-254 | a line strips to nothing exactly when it is all whitespace |
| Text.SplitOn | backend/app/main.py:161 | `split('\n')` gives at least one piece and no piece holds a line feed |
| Text.JoinSplitOn | backend/app/main.py:161 | joining the pieces of a split gives back the text |
| Text.NonBlankLines | backend/app/main.py:161 | `[line.strip() for line in pieces if line.strip()]`: the stripped pieces, in order, without the empty ones |
| Text.NonBlankLinesTrimmed | backend/app/main.py:161 | the non-blank-line filter keeps no more lines than pieces, each trimmed |
| Practice.Classify | backend/app/main.py:258-262 | the kind is `code` exactly when the lower-cased text contains "code", and `applied` exactly when it does not but contains "apply" or "scenario"; otherwise `concept` |
| Practice.ItemFor | backend/app/main.py:257-262 | the item's question is the line minus a leading run of numbering characters (digits, ")", "." and space); it is a suffix of the line and does not itself start with a numbering character |
| Practice.ItemsFor | backend/app/main.py:252-263 | one item per line |
| Practice.ItemsForPointwise | backend/app/main.py:252-263 | the item at each position is made from the line at that position |
| Practice.PracticeLines | backend/app/main.py:252-255 | the lines the loop keeps are trimmed |
| Practice.PracticeItems | backend/app/main.py:251-271 | there is always at least one item: the fallback when no line survives, otherwise one per surviving line |
| Practice.MakeItem | backend/app/main.py:257-263 | the loop body makes the specified item of a line |
| Practice.CollectItems | backend/app/main.py:251-264 | the loop returns the specified items of the non-blank lines, in order |
| Practice.FormatPractice | backend/app/main.py:251-271 | the loop plus the fallback returns the specified items, never an empty list |
| Practice.PracticeLinesBlank | backend/app/main.py:252-255 | no line survives exactly when the reply is all whitespace |
| Practice.PracticeItemsSpec | backend/app/main.py:251-271 | an all-whitespace reply gives only the fallback question; any other reply gives one item per non-blank line, in order, each relating to its line as `ItemOfLine` says: the numbering run removed and the kind as `Classify` decides |
| Practice.PracticeLinesOfJoin | backend/app/main.py:252-255 | trimmed single lines joined by line feeds are the lines the loop sees |
| PracticeExamples.OneLine | backend/app/main.py:252-263 | a one-line reply gives the item of that line |
| PracticeExamples.ThreeLines | backend/app/main.py:252-263 | a three-line reply gives the items of its three lines, in order |
| PracticeExamples.NumberingOnly | backend/app/main.py:257 | the line "1)" gives an item with an empty question |
| PracticeExamples.EmptyText | backend/app/main.py:265-271 | the empty reply gives the fallback item |
| PracticeExamples.NumberedItem | backend/app/main.py:257-263 | a numbering run followed by a question gives that question and its kind |
| PracticeExamples.MixedKinds | backend/app/main.py:251-263 | "1) Explain X", "2) Apply X to Y", "3) Write code for X" give a concept, an applied and a code item with the numbering removed |
| PracticeExamples.LeadingDigitsOfQuestionRemoved | backend/app/main.py:257 | "1) 3 steps to apply X" loses the question's own leading "3 " as well |

## Left out

- `call_model` (main.py:117-151) and the offline and fallback replies it returns are not part of this model. The reply is a parameter of `LessonStep` and `Practice`, so the contracts hold for whatever text the model returns, the canned replies included.
- The HTTP layer is not modelled: FastAPI routing, CORS, pydantic validation and defaults, the `HTTPException` paths, and the logging `print` calls.
- `uuid.uuid4()` is a parameter. The methods require it to be non-empty and absent from the store. The pure `Session.Resolve` overwrites a colliding id as the code would.
- Concurrency is not modelled: each request runs to completion against the store.
- `SESSIONS` entries are reduced to their history lists, the only key the code stores.
- `PracticeItem.answer` is left out because the code never sets it.
- `Text.Strip`: whitespace is Python's `string.whitespace`: space, tab, line feed, carriage return, vertical tab and form feed. `str.strip()` also removes the separators `\x1c`-`\x1f`, `\x85`, `\xa0` and the other Unicode spaces, which the model keeps.
- `Text.Lower`: lower-casing maps only ASCII letters.
- `Practice.PracticeLines`: `str.splitlines` is modelled as a split on line feeds. `str.splitlines` also breaks at a carriage return (alone or before a line feed), `\v`, `\f`, `\x1c`, `\x1d`, `\x1e`, `\x85`, `\u2028` and `\u2029`; here none of these ends a line. A carriage return, `\v` or `\f` at either end of a line still vanishes when the line is stripped.
- The system prompt's wording carries no property beyond its opening line and final line feed.
