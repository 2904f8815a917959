# Reading-training drills, modelled in Dafny

This project models the logic under four drills of a reading-training web app.

- **Attention grid** (`schulte.dfy`, module `Schulte`). A `size × size` grid holds the numbers 1..size². They are shuffled with Fisher–Yates, in place on an array. The reader clicks them in ascending order while a clock runs. Each click goes through an Idle / Running / Finished machine with a `nextExpected` cursor.
- **Semantic chunking** (`chunking.dfy`, module `Chunking`). This is the drill's `processedChunks`. A text's own chunks are used when it has a non-empty list. Blank content gives the placeholder `暂无内容`. Otherwise the content is cut automatically:
  - It is split at the marks `，。；：、！？`.
  - Each mark goes onto the previous chunk.
  - A run of more than 8 units is cut into 4-unit slices.
  
  The imperative loop is proved equal to `AutoChunks`, a reference definition read directly off the characters. The properties are then proved about that definition. The render step is also modelled: it removes `/`, trims, and drops empty chunks.
- **Serial presentation reader** (`rsvp.dfy`, module `Rsvp`). It builds a word list by one of three routes:
  - a text's preset chunks, with `/` removed;
  - a greedy grouping of the word segmenter's segments into words of at most 4 units, where a longer segment is a word on its own;
  - the `/.{1,4}/g` split.
  
  A player then steps through the list, one word per clock tick, stopping at the last word. It also has reset, play/pause and speed controls.
- **Fluency test** (`wcpm.dfy`, module `Wcpm`). An Intro → Reading → Scoring → Result machine around the score `Math.round((wordCount − errors) / (duration / 1000) · 60)`. The score is the exact real-valued rate rounded half up, computed in integers; the source rounds a double instead (see "## Left out"). It is then rated in the bands 300 / 200 / 150.

`texts.dfy` (module `Texts`) holds the shared `ReadingText` record. `jstext.dfy` (module `JsText`) holds the JavaScript string behaviour the drills rely on:
- `trim`, with the white-space and line-terminator sets of sections 12.2 and 12.3 of ECMA-262;
- removal of every `/`;
- joining strings.

A JavaScript string is a `seq<char>`, one `char` per UTF-16 code unit. This is because `.length`, `.slice`, `trim` and the regular-expression `.` all count code units.

Some behaviours of the code are easy to miss:
- Content made only of punctuation marks gives no chunk at all, not the placeholder. Marks before the first text run are lost.
- In the reader, an empty list of preset chunks counts as present (`if (textData.chunks)`), so it gives no words. The chunking drill instead falls back to automatic chunking.
- The reader's fallback split skips line terminators. The regular-expression `.` does not match them.
- The play/pause control toggles.
- With more errors than characters the score is at most 0. It is negative only when `120000 · (errors − wordCount) > duration`. A rate in (−0.5, 0] rounds to 0.

## Model

| member | source | states |
|---|---|---|
| JsText.Trim | components/ChunkingDrill.tsx:49 | `trim` keeps a contiguous middle part of the input and cuts only white space before and after it; what is left neither starts nor ends with white space, and it is empty exactly when the input is blank |
| JsText.TrimKeepsOnly | components/ChunkingDrill.tsx:191 | every code unit `trim` keeps was in the input, and none occurs more often than in the input |
| JsText.StripSlashesKeepsOthers | components/RSVPReader.tsx:53 | removing `/` keeps every other code unit as often as it occurs, and leaves no `/` |
| JsText.StripSlashesAppend | components/ChunkingDrill.tsx:191 | removing `/` distributes over concatenation, so order is kept |
| JsText.StripSlashesNoSlash | components/ChunkingDrill.tsx:191 | a string without `/` is left unchanged |
| JsText.StripAllSpells | components/RSVPReader.tsx:53 | removing the slashes chunk by chunk and joining the chunks gives the joined chunks with their slashes removed, so the chunks keep their order and nothing is lost at a border |
| Schulte.ShuffledRange | components/SchulteTable.tsx:22-28 | the in-place Fisher–Yates pass, for every choice of j in [0, i], yields a permutation of 1..total: all values in range, each present once, none repeated |
| Schulte.PermutationOfRangeFacts | components/SchulteTable.tsx:22-28 | a sequence with the multiset of 1..n holds each of 1..n exactly once and nothing else |
| Schulte.SchulteTable.constructor | components/SchulteTable.tsx:10-39 | the drill mounts with a freshly shuffled grid, an Idle round expecting 1, no start time and zero elapsed time |
| Schulte.SchulteTable.GenerateGrid | components/SchulteTable.tsx:21-35 | regeneration gives a new permutation of 1..size² and resets the round to Idle, expecting 1, unfinished, with no start time and zero elapsed |
| Schulte.SchulteTable.SelectLevel | components/SchulteTable.tsx:18-39 | picking another level regenerates the grid at the new size with a fresh round; picking the level already shown leaves the grid, the round, the start time and the elapsed time as they were |
| Schulte.SchulteTable.Click | components/SchulteTable.tsx:51-71 | a click moves the round as `Clicked` says and keeps the invariant; the grid and elapsed time never change; the start time is set exactly by the click on 1 while Idle |
| Schulte.ClickStep | components/SchulteTable.tsx:51-71 | a click changes the round only when it is the 1 that starts it or the expected number; it never moves the status backwards, and moves the cursor by at most one |
| Schulte.ClickAllKeepsInvariant | components/SchulteTable.tsx:51-71 | after any sequence of clicks: Finished exactly when `finished`, Idle expects 1, Running expects 2..size², Finished leaves the cursor at size² |
| Schulte.FinishedIsAbsorbing | components/SchulteTable.tsx:52 | a finished round ignores every later click |
| Schulte.ClickingInOrder | components/SchulteTable.tsx:55-68 | clicking 1..k from a fresh grid gives Running expecting k + 1 while k < size², and Finished with the cursor at size² when k = size² |
| Schulte.SchulteTable.TimerTick | components/SchulteTable.tsx:41-49 | the display clock updates elapsed seconds only while Running with a truthy start time |
| Chunking.ProcessedChunks | components/ChunkingDrill.tsx:42-74 | a non-empty preset list is returned as is; otherwise blank content gives exactly the placeholder, and other content gives `AutoChunks` of the content |
| Chunking.ChunkParts | components/ChunkingDrill.tsx:51-73 | the loop over the split parts computes exactly `AutoChunks` of the joined parts |
| Chunking.CutRun | components/ChunkingDrill.tsx:64-70 | the `i += 4` slicing loop pushes exactly `Slices` of the run |
| Chunking.SplitOnMarks | components/ChunkingDrill.tsx:52 | the capturing split alternates mark-free text parts with single marks, text first and last |
| Chunking.SplitOnMarksSpells | components/ChunkingDrill.tsx:52 | the split parts join back to the content |
| Chunking.Quarters | components/ChunkingDrill.tsx:64-67 | a run of length L gives ⌈L/4⌉ slices, all of 4 units but the last, which has 1 to 4 |
| Chunking.QuartersSpell | components/ChunkingDrill.tsx:64-67 | the slices join back to the run, and hold no mark when the run holds none |
| Chunking.Slices | components/ChunkingDrill.tsx:64-70 | a run gives at least one piece, each of 1 to 8 units |
| Chunking.SlicesSpell | components/ChunkingDrill.tsx:64-70 | a run of at most 8 units or its 4-unit slices join back to the run |
| Chunking.ShortRunIsOneChunk | components/ChunkingDrill.tsx:68-70 | a mark-free run of at most 8 units is one chunk, itself |
| Chunking.TenUnitRun | components/ChunkingDrill.tsx:64-67 | a mark-free run of 10 units gives the chunks of 4, 4 and 2 units, in order, spelling it |
| Chunking.AutoChunksOfRun | components/ChunkingDrill.tsx:64-70 | a mark-free run is chunked exactly as `Slices` says |
| Chunking.AutoChunksStartsWithChunk | components/ChunkingDrill.tsx:63-70 | content starting with text gives at least one chunk |
| Chunking.AutoChunksMark | components/ChunkingDrill.tsx:57-62 | one more mark is appended to the last chunk, or lost when there is none |
| Chunking.AutoChunksRun | components/ChunkingDrill.tsx:63-70 | a text run read after a mark, or at the start, appends its slices |
| Chunking.MarkStep | components/ChunkingDrill.tsx:57-62 | the loop's in-place update of the last chunk, or the growth of the unused current chunk, keeps the chunks equal to `AutoChunks` of what was read |
| Chunking.TextStep | components/ChunkingDrill.tsx:63-70 | pushing a run's slices keeps the chunks equal to `AutoChunks` of what was read |
| Chunking.AutoChunksSpellText | components/ChunkingDrill.tsx:54-73 | the chunks join to the content minus its leading run of marks: nothing else is lost, reordered or added |
| Chunking.AutoChunksWellShaped | components/ChunkingDrill.tsx:56-70 | every chunk is 1 to 8 non-mark units followed only by marks: none is empty and none starts with a mark |
| Chunking.MarksOnlyGiveNoChunk | components/ChunkingDrill.tsx:52-73 | content made only of marks gives the empty list |
| Chunking.VisibleChunks | components/ChunkingDrill.tsx:190-192 | the render step shows at most as many chunks as it is given |
| Chunking.VisibleChunksAreClean | components/ChunkingDrill.tsx:190-192 | every chunk shown is non-empty, has no `/`, and neither starts nor ends with white space |
| Chunking.VisibleChunksAppend | components/ChunkingDrill.tsx:190-192 | cleaning works chunk by chunk, so order is kept |
| Chunking.VisibleChunksOfClean | components/ChunkingDrill.tsx:191-192 | clean chunks are shown exactly as given |
| Chunking.VisibleChunksIdempotent | components/ChunkingDrill.tsx:190-192 | cleaning twice is cleaning once |
| Rsvp.GroupSegments | components/RSVPReader.tsx:65-75 | the `tempGroup` loop computes exactly `Grouped` of the segments |
| Rsvp.GroupStepKeeps | components/RSVPReader.tsx:67-73 | one pass of the loop body keeps the grouping invariant |
| Rsvp.JoinKeeps | components/RSVPReader.tsx:67-68 | a segment joining the open group keeps the invariant; a group over 4 units arises only from an empty open group, so it is one segment |
| Rsvp.PushKeeps | components/RSVPReader.tsx:69-72 | pushing the open group keeps the invariant; the pushed group and the next segment do not fit in 4 units |
| Rsvp.GroupAllGood | components/RSVPReader.tsx:66-74 | after every prefix of segments the pushed groups and the open group spell the prefix and have the promised shape |
| Rsvp.GroupedFacts | components/RSVPReader.tsx:65-75 | the groups join to the segments; no group is empty; a group over 4 units is a single segment; neighbouring groups exceed 4 units together; there are no groups exactly when the segments are all empty |
| Rsvp.MatchEnd | components/RSVPReader.tsx:78 | a greedy `.{1,4}` match takes up to 4 units and stops early only at a line terminator or the end |
| Rsvp.RegexChunks | components/RSVPReader.tsx:78 | the regular-expression split gives no more matches than code units |
| Rsvp.RegexChunksBreak | components/RSVPReader.tsx:78 | no match reaches across a line terminator: the matches of text on one line, a terminator and more text are the matches of each side |
| Rsvp.RegexChunksPieces | components/RSVPReader.tsx:78 | every match has 1 to 4 code units and no line terminator |
| Rsvp.RegexChunksSpell | components/RSVPReader.tsx:78 | the matches join to the content without its line terminators |
| Rsvp.RegexChunksOnOneLine | components/RSVPReader.tsx:78 | on a single line every match but the last has exactly 4 units |
| Rsvp.DropTerminatorsOfNonBlank | components/RSVPReader.tsx:56-79 | non-blank content keeps a unit that is not a line terminator, so the fallback split is not empty |
| Rsvp.WordListPreset | components/RSVPReader.tsx:52-53 | preset chunks give one word per chunk, in order, each without `/` and otherwise unchanged |
| Rsvp.WordListNotEmpty | components/RSVPReader.tsx:52-79 | without preset chunks there is always a word, and no word is empty |
| Rsvp.WordListSpellsContent | components/RSVPReader.tsx:55-79 | non-blank content is read in full and in order: the words join to the content, or to the content without line terminators when there is no segmenter |
| Rsvp.RsvpReader.constructor | components/RSVPReader.tsx:15-18 | the reader starts with no words, at index 0, stopped, at 300 words a minute |
| Rsvp.RsvpReader.Rebuild | components/RSVPReader.tsx:44-84 | while custom text is being edited nothing changes; otherwise the words become the word list; blank content keeps index and play state, every other rebuild rewinds to 0 and stops |
| Rsvp.RsvpReader.Tick | components/RSVPReader.tsx:86-101 | a clock firing moves the playback state as `Step` says and changes nothing else |
| Rsvp.PlayFrom | components/RSVPReader.tsx:88-98 | playing from word i, after n ticks the reader is at word i + n and playing while that is a word, otherwise stopped on the last word |
| Rsvp.PausedStays | components/RSVPReader.tsx:88 | a stopped reader ignores the clock |
| Rsvp.TicksStayInList | components/RSVPReader.tsx:91-97 | from an index in the list, ticks never move it backwards or past the last word |
| Rsvp.Display | components/RSVPReader.tsx:175 | the display is one of the words or the end label |
| Rsvp.ShowsEveryWord | components/RSVPReader.tsx:175 | played from the start, tick k shows word k while playing, and the tick after the last word stops the reader there |
| Rsvp.MsPerChunk | components/RSVPReader.tsx:89 | the delay `60000 / (wpm / 2.5)` is `150000 / wpm` ms, at most 1.5 s from 100 words a minute up |
| Rsvp.MsPerChunkDecreasing | components/RSVPReader.tsx:89 | a faster speed gives a shorter delay |
| Rsvp.RsvpReader.Reset | components/RSVPReader.tsx:195-198 | reset goes to index 0 and stops, keeping words and speed |
| Rsvp.RsvpReader.TogglePlay | components/RSVPReader.tsx:206-209 | the toggle flips playing and rewinds to 0 from the last word or beyond, so once playing the clock is armed exactly when there are words |
| Rsvp.RsvpReader.SlowDown | components/RSVPReader.tsx:221 | the speed drops by 50 but not below 100, and stays a multiple of 50 |
| Rsvp.RsvpReader.SpeedUp | components/RSVPReader.tsx:223 | the speed rises by 50 and stays a multiple of 50 of at least 100 |
| Wcpm.Score | components/WCPMTest.tsx:65-70 | the unclamped score is negative exactly when `120000 · (errors − wordCount)` exceeds the duration in ms |
| Wcpm.ScoreRoundsRate | components/WCPMTest.tsx:66-69 | the integer score is the real rate `(W − E) / (D / 1000) · 60` rounded half up |
| Wcpm.ScoreExamples | components/WCPMTest.tsx:65-70 | 100 characters in 60 s score 100; 100 characters with 10 errors in 45 s score 120 |
| Wcpm.ScoreFallsWithErrors | components/WCPMTest.tsx:68 | more errors never raise the score |
| Wcpm.ScoreSign | components/WCPMTest.tsx:68 | no more errors than characters gives a score of at least 0; more errors than characters gives at most 0 |
| Wcpm.NormStatus | components/WCPMTest.tsx:73-78 | each score lies in exactly one band: 300 and up, 200–299, 150–199, below 150 |
| Wcpm.NormStatusMonotone | components/WCPMTest.tsx:73-78 | a higher score never gets a worse band |
| Wcpm.WcpmTest.constructor | components/WCPMTest.tsx:12-20 | the test starts at Intro with zero start time, duration, errors and score |
| Wcpm.WcpmTest.StartTest | components/WCPMTest.tsx:55-59 | starting moves Intro's successor, Reading, records the start time and zeroes the duration |
| Wcpm.WcpmTest.TimerTick | components/WCPMTest.tsx:45-53 | the 100 ms clock sets the duration to now minus the start time, only while Reading |
| Wcpm.WcpmTest.FinishReading | components/WCPMTest.tsx:61-63 | finishing moves to Scoring and changes nothing else |
| Wcpm.WcpmTest.SetErrors | components/WCPMTest.tsx:197-201 | the error count is taken as typed, unvalidated |
| Wcpm.WcpmTest.CalculateScore | components/WCPMTest.tsx:65-71 | the score becomes `Score` of the word count, errors and duration, the step becomes Result, and nothing else changes |
| Wcpm.WcpmTest.Retry | components/WCPMTest.tsx:230 | retry returns to Intro and clears the errors |

## Left out

- Timers: `setInterval`, `clearInterval` and `Date.now()`. Each firing of a clock is an explicit method call, and the current time is a parameter. Which effect runs when React re-renders is not modelled. Each handler is one atomic state update.
- `Math.random`: the shuffle's `j` is any value in [0, i]. The uniformity of the shuffle is a probabilistic claim and is not stated.
- The platform word segmenter (`Intl.Segmenter`): its segments are an input. `Rsvp.WordListSpellsContent` assumes they join to the content.
- Code units beyond one `char`: a Dafny `char` is a Unicode scalar value. Each one stands for one UTF-16 code unit, so surrogate pairs are not modelled.
- Floating point: the grid's elapsed seconds and the reader's delay are exact reals. The progress percentage, `toFixed` and the comparison of elapsed time with the level's target time are display only.
- The pacing view (`VisualPacer.tsx`), the dashboard and navigation (`App.tsx`), the norms chart and its static table, the text pickers and text areas, and the catalogue constants. These are presentation, and the constants file is not part of this model.
- Rsvp.GroupedFacts: its guarantees do not pin down the greedy grouping uniquely. `Rsvp.GroupSegments` is proved equal to `Grouped`, which follows the loop step by step.
- Rsvp.RsvpReader.Rebuild: `editing` stands for "the custom text is selected and being edited". The model does not cover when React re-runs the effect.
- Wcpm.WcpmTest.CalculateScore: requires a positive duration. In the source a zero duration divides by zero. `Math.round` of the resulting infinity or NaN is not modelled.
- Wcpm.WcpmTest.CalculateScore: the score rounds the exact rate, not the IEEE double the source computes. At a .5 tie the double can fall just below it, and then `Math.round` gives one less: 150 characters, 3 errors and 72000 ms give 122 in the source and 123 here. The same holds for `Wcpm.Score`.
- Wcpm.WcpmTest.SetErrors: errors are integers. `Number()` of an empty, fractional or non-numeric entry (0, a fraction, NaN) is not modelled.
- Wcpm.NormStatus: the labels and colours are the functions `Label` and `Color`. Nothing is proved about them beyond their values.
- The custom-text editing gate of the fluency test (the disabled "done" button) and of the reader's edit button: these are view-level switches.
