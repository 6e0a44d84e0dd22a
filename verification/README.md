# Novel-to-short-drama script generator: a Dafny model of its core

The application takes the text of a novel and a desired number of episodes,
asks a language model for an episode outline, and then asks for a shooting
script for any episode the user picks; the outline can be exported as a Word
document. Its own logic sits around those requests:

- the **chunker** cuts a long novel into 100000-character pieces, keeping at
  most 20 (`Chunker`);
- the **batched runner** runs one summary request per piece, three at a time,
  keeping results in piece order and reporting progress (`Batches`);
- the **outline context** is the novel itself, or for a long novel the piece
  summaries joined by a blank line; a failed summary becomes a "skipped"
  placeholder, so summarising never fails (`OutlineService`);
- the **context window** picks the part of the novel sent with a script
  request: a window of `max(150000, L/5)` characters centred at
  `episodeNumber / totalEpisodes · L`, shifted back inside the text
  (`ContextWindow`, `ScriptService`);
- the **application state** changes by the handlers of the page: upload,
  script generation and export (`App`, with the records of `Types`), and the
  **episode-count field** accepts only values in 1..100 (`EpisodeCount`).

The external requests are parameters of the model: the language-model
requests are functions returning `Option` (None standing for a rejected
promise), and the Word export is a function returning whether it succeeded. The
JavaScript primitives whose edge cases matter — `slice` with clamped and
negative offsets, `join`, `replace` with a string pattern (first occurrence
only), the decimal text of a number, and the truncation of a fractional
`slice` offset — are written out in `JsText`. The batches are run one after
another; the window arithmetic uses exact reals with `Floor`.

Behaviour of the code worth noting:

- the script guard `!state.fileContent` treats an empty file content as
  missing, so an empty file makes script generation a no-op;
- the export name falls back to "小说" both when there is no file name and
  when removing ".txt" leaves nothing (a file named ".txt");
- `replace('.txt', '')` removes the first ".txt" anywhere in the name;
- the progress callback reports an item's 1-based position `(j + 1, N)`, and
  only for items whose task succeeded;
- the window bounds hold for every episode number, including numbers above
  the episode count and below 1.

## Model

| member | source | states |
|---|---|---|
| JsText.Slice | services/geminiService.ts:20 | `slice` with in-range offsets is the substring between them; crossed offsets give "" and an end past the text stops at its end |
| JsText.Trunc | services/geminiService.ts:196 | a non-negative fractional offset given to `slice` denotes its floor, and any offset is within one of its value |
| JsText.JoinPart | services/geminiService.ts:105 | in `parts.join(sep)` every part appears, in order, at its offset |
| JsText.JoinSeparator | services/geminiService.ts:105 | between consecutive parts of a join there is exactly one separator |
| JsText.ReplaceFirstRestores | index.tsx:105 | replacing the first occurrence changes nothing when there is none, and otherwise putting the pattern back at that spot restores the original |
| JsText.DecimalRoundTrip | services/geminiService.ts:46 | the decimal text of a number in a template literal reads back as that number |
| Chunker.SplitTextIntoChunks | services/geminiService.ts:17-23 | the chunking loop returns exactly the reference cut: piece k is the text from k·100000 on, at most 100000 characters, first 20 pieces only |
| Chunker.EmptyIffNoChunks | services/geminiService.ts:17-23 | the number of pieces is min(ceil(L/100000), 20), and there are none exactly when the text is empty |
| Chunker.ChunkSizes | services/geminiService.ts:19-21 | every piece but the last has exactly 100000 characters; the last has 1 to 100000 |
| Chunker.AllChunksConcat | services/geminiService.ts:19-21 | before the cap, the pieces concatenate back to the whole text |
| Chunker.ChunksConcat | services/geminiService.ts:17-23 | after the cap, the pieces concatenate to the first min(L, 2000000) characters; the rest is dropped |
| Batches.MapRangeMeaning | services/geminiService.ts:71-72 | the all-or-nothing reference mapping succeeds iff every task does, and then holds one result per item, the item's own, in order |
| Batches.RunFrom | services/geminiService.ts:63-73 | running batch after batch gives the reference mapping; a failing batch is the last one started, everything before it succeeded, and progress covers only started batches |
| Batches.ProcessInBatches | services/geminiService.ts:56-75 | batching does not change the outcome: the run succeeds iff every task does, returning N results with result j the task's value for item j |
| Batches.BatchesAligned | services/geminiService.ts:63-64 | every batch starts at a multiple of the batch size |
| Batches.FailedRunStopsAtFailingBatch | services/geminiService.ts:63-71 | a rejected task rejects the run; the last batch started holds a rejected task, all items before it succeeded, and no later item is reported |
| Batches.ProgressReports | services/geminiService.ts:65-68 | every progress call carries the total N and a position in 1..N of a succeeded, dispatched item, with positions strictly increasing |
| Batches.SuccessfulRunReportsEveryItem | services/geminiService.ts:65-68 | a successful run calls the progress callback once per item j with (j+1, N), in order |
| Batches.BatchProgressBounds | services/geminiService.ts:65-68 | a batch reports only positions inside it, of succeeded tasks, in increasing order |
| Batches.BatchProgressAllSucceed | services/geminiService.ts:65-68 | a batch whose tasks all succeed reports each of its positions once, in order |
| Batches.MapRangeSplit | services/geminiService.ts:71-72 | collecting two consecutive batches' results is collecting their union |
| Batches.BatchProgressSplit | services/geminiService.ts:65-72 | the progress of consecutive batches is their progress in sequence |
| OutlineService.SummarizeChunk | services/geminiService.ts:28-51 | summarising never fails: a reply gives the labelled summary ending in the reply, a rejected request gives exactly the "skipped" placeholder, both headed by the piece label |
| OutlineService.SummaryLabelNumber | services/geminiService.ts:46-49 | the number inside a summary label is the piece's 1-based position |
| OutlineService.SummaryLabelsDistinct | services/geminiService.ts:46-49 | different pieces get different summary labels |
| OutlineService.SummaryRunSucceeds | services/geminiService.ts:96-103 | the summary run always succeeds with one summary per piece, summary k made from piece k |
| OutlineService.OutlineContext | services/geminiService.ts:87-109 | the context is the novel verbatim when it is at most 100000 characters, otherwise the piece summaries in order joined by a blank line |
| OutlineService.SummaryRunReportsEveryPiece | services/geminiService.ts:96-103 | the summary run reports progress (k, N) once for every piece k |
| OutlineService.OutlineStatuses | services/geminiService.ts:93-111 | a short novel shows two fixed status lines; a long one shows the piece count, one "(k/N)" line per piece in order, then the building line |
| OutlineService.GenerateOutline | services/geminiService.ts:81-157 | the outline request is made from the outline context and the episode count, and its answer is the outline; the status lines are those of the short or long path, ending with the building line |
| ContextWindow.WindowSize | services/geminiService.ts:182 | the window is at least 150000 characters and at least a fifth of the text, and is one of the two |
| ContextWindow.SelectWindow | services/geminiService.ts:175-196 | for a positive episode count and any episode number, 0 ≤ start ≤ end ≤ L |
| ContextWindow.NaiveOrdered | services/geminiService.ts:184-185 | the unadjusted start never exceeds the unadjusted end |
| ContextWindow.StartBeforeText | services/geminiService.ts:187-190 | a window that would start before the text becomes [0, min(L, W)] |
| ContextWindow.EndAfterText | services/geminiService.ts:191-194 | a window that would end after the text becomes [max(0, L − W), L], also when it would start before the text too |
| ContextWindow.WindowInside | services/geminiService.ts:184-185 | a window that fits keeps each end within one character of half a window around the centre |
| ContextWindow.WindowWidth | services/geminiService.ts:182-194 | the window is narrower than W + 1, and wider than W − 1 whenever the text is at least W long |
| ContextWindow.CenterInText | services/geminiService.ts:178 | for 0 ≤ episodeNumber ≤ totalEpisodes the estimated position lies in [0, L] |
| ContextWindow.CenterInWindow | services/geminiService.ts:178-194 | for 0 ≤ episodeNumber ≤ totalEpisodes the estimated position lies inside the window |
| ContextWindow.ShortTextSentWhole | services/geminiService.ts:182-194 | a text of at most 150000 characters is sent whole for every episode number in 0..totalEpisodes |
| ContextWindow.Examples | services/geminiService.ts:175-196 | worked cases: the middle, start and end of a million-character text, and a text shorter than the window |
| ScriptService.ContextText | services/geminiService.ts:196 | the excerpt is exactly the characters of the selected window |
| ScriptService.ShortNovelSentWhole | services/geminiService.ts:175-196 | a novel of at most 150000 characters goes with every script request whole |
| ScriptService.GenerateEpisodeScript | services/geminiService.ts:219-234 | the script is never empty: the reply text, or the fixed message for an empty reply, or the fixed message for a rejected request |
| EpisodeCount.HandleCountChange | components/FileUpload.tsx:24-29 | a parsed value replaces the count iff it is in 1..100; NaN leaves it; an in-range count stays in range |
| EpisodeCount.LastAccepted | components/FileUpload.tsx:26-27 | the last accepted input is always in 1..100 |
| EpisodeCount.CountAfterAppend | components/FileUpload.tsx:24-29 | one more input acts on the count the earlier inputs left |
| EpisodeCount.CountIsLastAccepted | components/FileUpload.tsx:24-29 | after any inputs the count is the last input in 1..100, or the starting count if there was none |
| EpisodeCount.CountStaysInRange | components/FileUpload.tsx:10-28 | the form starts at 40, which is in range, and the count stays in 1..100 after any inputs |
| App.UploadStarted | index.tsx:27-35 | records content, name and count, starts loading with the reading status, clears the error; step, outline and scripts are untouched |
| App.StatusesReported | index.tsx:38-40 | progress updates change only the loading status, which ends as the last one reported |
| App.OutlineReady | index.tsx:42-48 | success shows the outline screen with the outline and stops loading, nothing else changes |
| App.OutlineFailed | index.tsx:49-56 | failure stops loading and shows the fixed error; the step and all else are unchanged |
| App.HandleFileUpload | index.tsx:26-57 | after an upload the file and count are recorded and loading has stopped; success shows the new outline without error, failure keeps the previous step and outline and shows the error; scripts are untouched |
| App.ScriptStarted | index.tsx:65-71 | only scripts[epNum] changes, to an empty script being generated; every other key and field is unchanged |
| App.ScriptFinished | index.tsx:84-90 | only scripts[epNum] changes, to the finished script; every other key and field is unchanged |
| App.FindEpisode | index.tsx:75 | finds the first outline entry with the given number, or reports that there is none |
| App.PreviousSynopsis | index.tsx:75-81 | the previous-episode context is the synopsis of the first entry numbered epNum − 1, absent exactly when there is no such entry |
| App.HandleGenerateScript | index.tsx:59-90 | without a selection or file content nothing changes; otherwise only the episode's script entry changes, to the non-empty script built from the novel, the episode, the count and the previous synopsis |
| App.ExportBaseName | index.tsx:105 | the base name is never empty: the name with its first ".txt" removed, or "小说" when there is no name or nothing is left; a name without ".txt" is kept as it is, the empty name giving "小说" |
| App.TxtFileExportsUnderStem | index.tsx:105 | a name "stem.txt" with no earlier ".txt" exports under "stem" |
| App.HandleExportDocx | index.tsx:102-119 | no outline: nothing happens; otherwise the download is named base + "_短剧分集大纲.docx", or on failure only the export error is set |
| App.Step | index.tsx:161-196 | each event runs its handler: a count input stores the count field's verdict and changes only the form's count; an episode selection changes only the selection; a chosen file runs the upload with the form's count; Generate and Export run their handlers on the application state and leave the form and the selection alone |
| App.StepKeepsValid | index.tsx:26-119 | every handler keeps both counts in 1..100, every script under its own episode number, and no outline loading |
| App.RunEvents | index.tsx:26-119 | any series of user events from a valid page leaves it valid |
| App.InitialSessionValid | index.tsx:12-22 | the page starts valid: count 40, no scripts, not loading |

## Left out

- The language-model client, prompt texts, the `text.slice(0, 40000)` inside the summary prompt and the `JSON.parse` of the outline reply: the requests are parameters returning `Option`, so the model says nothing about what the service answers.
- Real asynchrony: batches run one after another and the items of a batch in index order. `Promise.all` places results by index, so the results are the same; within a rejected batch all tasks still run, and the model reports progress for every succeeded task of that batch. Progress calls are not the same: inside a batch the program makes them in the order the requests complete. What Batches.ProgressReports, Batches.SuccessfulRunReportsEveryItem, OutlineService.SummaryRunReportsEveryPiece and OutlineService.OutlineStatuses say about order (positions strictly increasing, one line per piece in order) holds for the sequential model only; in the program each position is still reported once, and every position of one batch comes before those of the next batch.
- App.Step: accepts every event in every state, while the page offers fewer: the upload form (file choice and count input) appears only on the upload step and is disabled while loading (index.tsx:153-164, components/FileUpload.tsx:59, 70), the episode grid and the export button appear only on the outline step (index.tsx:179-185), and the Generate button only while an episode is selected (index.tsx:190-197). App.RunEvents therefore proves its invariant over more sessions than the page can produce.
- Batches.ProcessInBatches: requires a positive batch size when the list is non-empty, because the program's loop (`i += batchSize`, services/geminiService.ts:63) never ends otherwise; its only caller passes 3.
- Text lengths, piece sizes and window offsets are counted in characters (Unicode scalar values), where the program counts UTF-16 code units; the two differ on text with characters outside the Basic Multilingual Plane, and a `slice` in the program can split a surrogate pair, which the model cannot.
- IEEE-754 rounding in the window arithmetic: exact reals are used, with `Floor` for `Math.floor` and for the truncation `slice` applies.
- ContextWindow.SelectWindow: requires a positive episode count, because a count of 0 makes the program divide by zero (Infinity or NaN offsets), which is not modelled. Every reachable page has a count in 1..100 (App.RunEvents).
- ScriptService.ContextText: requires a positive episode count, for the same reason.
- ScriptService.GenerateEpisodeScript: requires a positive episode count, for the same reason.
- App.HandleGenerateScript: requires a positive episode count, for the same reason; App.StepKeepsValid shows the page never holds another.
- The failure branch of `handleGenerateScript` (index.tsx:91-98) cannot be taken, since `generateEpisodeScript` catches every error and returns a string; the model's script function returns a string, so there is no such branch.
- Handlers run to completion one at a time; interleaved updaters of concurrent handlers (a second upload during a first) are not modelled, and `handleGenerateScript` reads the same state it updates.
- services/exportService.ts (building the Word document) is a parameter that succeeds or fails; its document layout is not modelled.
- components/ScriptViewer.tsx and components/EpisodeGrid.tsx: rendering, clipboard and downloads only.
- FileReader, the file picker (including choosing no file), the DOM anchor download, React hooks and `console.error` logging.
- Outline and episode numbers are JavaScript numbers; the model uses integers.
