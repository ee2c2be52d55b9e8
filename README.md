# StyleRoom API core, modelled in Dafny

StyleRoom is an HTTP service for virtual try-on. A client uploads a photo of a
person (the model image) and a garment. The service stores a *generation* row
and submits both images to a hosted try-on model. It then polls that model
until a result image arrives, the prediction fails, or 60 attempts pass. Users
can list past generations page by page, retry one with new parameters, and
delete one along with its files. A preprocessing service detects the people
in a photo, picks one from a free-text description ("왼쪽", "second", ...) and
crops the photo to that person.

This project models the deterministic core of that service and proves what
it promises:

- `Preprocess` (preprocess.dfy) covers three parts of the preprocessing
  service: the detector-output filter, the person-selection rules, and the
  arithmetic of the padded and clamped crop rectangle. It also covers the
  zero/one/many dispatch of `preprocessModelImage`. The selector sorts its
  array in place, using `StableSort` (stable_sort.dfy), which models
  `Array.prototype.sort` with a numeric comparator. That sort is stable.
- `Generate` (generate.ts → generate.dfy) covers three route parts:
  - the parameter defaults of POST `/`;
  - the parameter merge and record copy of POST `/:id/retry`;
  - `processGeneration`, a bounded polling job.

  The job is written twice. `RunTrace` is a function giving the run's effects
  as a sequence of events. `ProcessGeneration` is a method that writes
  through the table. Its polling loop (`PollRounds`) is a `for` loop over
  attempts 0 to 59 that breaks on a terminal reply, standing for the
  source's `while (attempts < maxAttempts)` loop with its `break`s. The
  method is proved to produce exactly `RunTrace`, and its table ends as
  `RunTrace`'s writes applied to the row. The lemmas on `RunTrace` state
  the run's promises:
  - the order of the writes;
  - at most 60 polls;
  - the loop stops at the first terminal reply;
  - the timeout;
  - exactly one terminal write, which is the run's last event.
- `Db` (db.dfy) is the `generations` table as a class. It holds a map from
  row id to row and the AUTOINCREMENT counter, with methods for create,
  partial update, get, paginated history and delete.
- `History` (history.dfy) covers the history routes:
  - page and limit defaults;
  - `pages = Math.ceil(total / limit)`;
  - item formatting;
  - the delete handler with the files it unlinks.
- `Replicate` (replicate.dfy) covers the input object `runVTON` sends and
  the version string it extracts from `MODEL_VERSION`.
- `Js` (js.dfy) holds the JavaScript conventions the code relies on:
  - `||` on optional strings and numbers;
  - `Math.round`;
  - what a `catch` receives.

  `Text` (text.dfy) holds `toLowerCase`, `includes` and `split`.

Outside services become inputs:
- `DetectorReply` is the detector's output.
- `CropEnv` holds the image metadata, whether the crop file could be written,
  and its name.
- `RunEnv` holds `path.resolve`, the submission reply, the reply to each poll
  attempt, the download outcome, the error `fetch(undefined)` throws
  (`noUrl`) and the result path.
- Table timestamps (`now`) are passed in.
- `parseInt` and `parseFloat` results are `Option` inputs, where `None` stands
  for NaN.

Facts about the code that the model keeps:
- `processGeneration` never calls `preprocessModelImage`. It submits the
  stored model image as uploaded.
- `processGeneration` records the hosted model's error text and thrown
  messages verbatim. Nothing is rewritten.
- A success whose output is an empty list counts as a success, since an
  array is truthy. Its URL `output[0]` is then `undefined`, so
  `fetch(undefined)` throws and the run ends failed (`EmptyOutputFails`).
- The crop rectangle lies inside the image only before its four values are
  rounded. Rounding each value separately can make the rectangle end one
  pixel past the right or bottom edge (`ExtractRegionSlack`,
  `ExtractRegionOverhang`).

## Model

| member | source | states |
|---|---|---|
| Js.OrText | src/services/replicate.ts:24 | JavaScript `or` on strings: `a` when it is present and non-empty, else `b` |
| Js.IntOr | src/routes/history.ts:10-11 | the `parseInt` result or the default: the parsed value when it is a nonzero number, the default for NaN, absent or 0 |
| Js.RealOr | src/routes/generate.ts:70 | the `parseFloat` result or the default: the parsed value when it is a nonzero number, otherwise the default |
| Js.Round | src/services/preprocess.ts:70-73 | `Math.round(v)` is the integer `n` with `v - 0.5 < n <= v + 0.5` |
| Js.MessageOf | src/routes/generate.ts:243 | an `Error` yields its own message, any other thrown value the fallback |
| Text.ToLower | src/services/preprocess.ts:103 | lowercasing keeps the length and maps each character by itself |
| Text.IndexOf | src/services/replicate.ts:32 | the first position of the character, or none exactly when it does not occur |
| Text.SecondFieldOfJoin | src/services/replicate.ts:32 | `(a + ":" + b).split(":")[1]` is `b` when neither part holds a colon |
| StableSort.SortBy | src/services/preprocess.ts:100 | defines `Array.prototype.sort` with a numeric comparator as insertion of each element before the first one of no smaller key; its properties are the four lemmas below |
| StableSort.SortByPermutes | src/services/preprocess.ts:100 | sorting only reorders: the result has the multiset of the input |
| StableSort.SortBySorted | src/services/preprocess.ts:132 | the result is ordered by ascending comparator key |
| StableSort.SortByStable | src/services/preprocess.ts:108 | elements with the same key keep their input order (the sort is stable) |
| StableSort.SortByHead | src/services/preprocess.ts:100 | the first element after sorting is the earliest input element of least key |
| StableSort.SortInPlace | src/services/preprocess.ts:108 | sorting the array in place leaves it holding the reference sort of its old contents |
| Preprocess.IsPerson | src/services/preprocess.ts:62 | the loop's filter: `class_name` is `person` or `class` is 0 |
| Preprocess.BoxOf | src/services/preprocess.ts:63 | `detection.box or detection`: the nested box when present, else the entry's own coordinates |
| Preprocess.Project | src/services/preprocess.ts:63-78 | defines the record pushed for a person entry: the box or the entry itself, the coordinate fallbacks, the rounded coordinates, confidence or 0, `area` and `centerX` |
| Preprocess.Persons | src/services/preprocess.ts:61-80 | defines the loop's result: the projected person entries in input order (see `PersonsFilter`) |
| Preprocess.Detected | src/services/preprocess.ts:40-88 | defines `detectPersons`: `[]` when the call throws or returns no `detections`, else `Persons` |
| Preprocess.DetectPersons | src/services/preprocess.ts:53-88 | the filtering loop returns the person entries, projected, in order; a thrown call or a missing `detections` list gives `[]` |
| Preprocess.PersonsFilter | src/services/preprocess.ts:61-80 | no more results than entries; every result is a projected person entry and every person entry is kept |
| Preprocess.ProjectedGeometry | src/services/preprocess.ts:63-78 | `area` and `centerX` come from the unrounded extents; `x`, `y`, `width` and `height` are those extents rounded to the nearest integer; the confidence is the detector's, or 0 when it is missing or 0; the class is `person` |
| Preprocess.RuleFor | src/services/preprocess.ts:98-142 | defines the rule chain on the lowercased description, first match wins: left, right, center, first, second, third, else largest area |
| Preprocess.PositionOf | src/services/preprocess.ts:132-138 | the position an ordinal picks, `min(k, n - 1)`, is always inside the array |
| Preprocess.Select | src/services/preprocess.ts:94-143 | on a non-empty input the selected detection is one of the input's elements |
| Preprocess.SelectPerson | src/services/preprocess.ts:94-143 | sorts the caller's array in place by the rule's key (a permutation) and returns that rule's position |
| Preprocess.SelectFirstLeast | src/services/preprocess.ts:98-129 | every rule that takes position 0 returns the earliest element of least key |
| Preprocess.SelectWithoutDescription | src/services/preprocess.ts:98-101 | an absent or empty description picks a largest-area detection, the earliest on ties |
| Preprocess.SelectLeft | src/services/preprocess.ts:106-109 | "left"/"왼쪽" picks a minimum-`centerX` detection, the earliest on ties |
| Preprocess.SelectRight | src/services/preprocess.ts:111-114 | failing "left", "right"/"오른쪽" picks a maximum-`centerX` detection, the earliest on ties |
| Preprocess.SelectCenter | src/services/preprocess.ts:116-124 | failing left and right, "center"/"middle"/"가운데" picks the detection nearest x = 500, the earliest on ties |
| Preprocess.SelectOrdinal | src/services/preprocess.ts:127-139 | failing the position words, an ordinal word picks index `min(k, n - 1)` of the ascending-`centerX` order, with k = 0, 1, 2 for first, second, third |
| Preprocess.SelectFirst | src/services/preprocess.ts:127-128 | "first", "첫" or "1" picks a minimum-`centerX` detection, the earliest on ties |
| Preprocess.SelectFallback | src/services/preprocess.ts:141-142 | a description matching no rule falls back to the earliest largest-area detection |
| Preprocess.PaddedRegion | src/services/preprocess.ts:161-168 | defines the rectangle before rounding: 10% padding on each side, clamped at 0 and at the image's far edges |
| Preprocess.PaddedRegionInside | src/services/preprocess.ts:161-168 | before rounding, `left, top >= 0`, `left + width <= W` and `top + height <= H` |
| Preprocess.PaddedRegionCovers | src/services/preprocess.ts:161-168 | a detection lying inside the image lies inside its padded rectangle |
| Preprocess.PaddedRegionUnclamped | src/services/preprocess.ts:161-168 | away from the edges the rectangle is the detection grown by 10% on every side (1.2 times its size) |
| Preprocess.ExtractRegion | src/services/preprocess.ts:170-174 | defines the rectangle handed to `extract`: each of the four values rounded separately |
| Preprocess.ExtractRegionSlack | src/services/preprocess.ts:170-174 | after rounding, the rectangle starts inside the image and may end at most one pixel past it |
| Preprocess.ExtractRegionOverhang | src/services/preprocess.ts:170-174 | a concrete detection whose rounded crop ends one pixel past a 15-pixel-wide image |
| Preprocess.Crop | src/services/preprocess.ts:152-193 | success exactly when width and height are truthy and the file is written; every failure is "Failed to crop person from image" |
| Preprocess.CropPerson | src/services/preprocess.ts:152-193 | the step-by-step rectangle equals the rounded padded rectangle whenever both dimensions are known; the result is `Crop` |
| Preprocess.CropTarget | src/services/preprocess.ts:211-223 | defines the dispatch on the count: none, the only detection, or the selector's choice (see the three `Preprocess*` lemmas) |
| Preprocess.Rethrow | src/services/preprocess.ts:232-236 | defines the pipeline's `catch`: an `Error` keeps its message, anything else becomes the generic message |
| Preprocess.Preprocess | src/services/preprocess.ts:200-237 | defines the pipeline's outcome: the crop of `CropTarget`, or the message it throws (see `PreprocessFailureMessages`) |
| Preprocess.PreprocessModelImage | src/services/preprocess.ts:200-237 | the pipeline's result and crop target are `Preprocess` and `CropTarget` of the detector reply |
| Preprocess.PreprocessNoPerson | src/services/preprocess.ts:211-213 | no detection: the no-person error, and nothing is cropped |
| Preprocess.PreprocessOnePerson | src/services/preprocess.ts:216-219 | one detection is cropped whatever the description says |
| Preprocess.PreprocessManyPeople | src/services/preprocess.ts:222-231 | with two or more detections, the selected detection is cropped |
| Preprocess.PreprocessFailureMessages | src/services/preprocess.ts:232-236 | failures carry the no-person or the crop message; success exactly when someone is detected and the crop works |
| Db.NullIfEmpty | src/db/index.ts:58-59 | the value or null: kept when non-empty, else NULL |
| Db.NewRow | src/db/index.ts:50-63 | defines the inserted row: the given images and parameters, empty background fields stored as NULL, status pending and the current timestamp by column default, no result, prediction id or error |
| Db.IsEmpty | src/db/index.ts:72-76 | a patch with no key present, for which the generated `UPDATE generations SET  WHERE id = ?` is not valid SQL |
| Db.Apply | src/db/index.ts:66-77 | an update overwrites exactly the keys present and keeps every other column |
| Db.ApplyEmpty | src/db/index.ts:72-76 | a patch with no keys changes nothing |
| Db.Lookup | src/db/index.ts:79-82 | the row with that id, or none exactly when there is no such row |
| Db.Window | src/db/index.ts:87-88 | `LIMIT ? OFFSET ?` returns at most `limit` rows for a non-negative limit |
| Db.Listing | src/db/index.ts:87 | defines the table scan the ordering starts from: the rows with ids `n` down to 1 |
| Db.Newest | src/db/index.ts:87 | defines `ORDER BY created_at DESC` as a stable sort of the scan, so equal timestamps come highest id first |
| Db.HistoryItems | src/db/index.ts:84-88 | defines `getHistory`'s items: the window at offset `(page - 1) * limit` of `Newest` |
| Db.ListingMembers | src/db/index.ts:87 | the full scan holds every stored row and nothing else |
| Db.ListingDescending | src/db/index.ts:87 | the scan lists each row once, highest id first |
| Db.WindowIsSlice | src/db/index.ts:85-88 | a page is a contiguous slice of the ordered rows |
| Db.WindowAdjacent | src/db/index.ts:85-88 | a page followed by everything after it is everything from the page's offset on |
| Db.WindowIndex | src/db/index.ts:85-88 | item `j` of page `p` is row `(p - 1) * limit + j` of the ordered rows |
| Db.NewestOrder | src/db/index.ts:87 | `ORDER BY created_at DESC` gives every row, newest first |
| Db.NewestOnce | src/db/index.ts:87 | with ids stored in their rows, no two history entries share an id: each row is listed once |
| Db.HistoryItemsOrdered | src/db/index.ts:84-94 | a page is newest first, holds only stored rows, and has at most `limit` rows |
| Db.GenerationTable.constructor | src/db/index.ts:7-21 | a fresh table is empty and its counter starts at 1 |
| Db.GenerationTable.Create | src/db/index.ts:43-64 | inserts a pending row under a fresh id larger than every earlier id, storing empty background fields as NULL |
| Db.GenerationTable.Update | src/db/index.ts:66-77 | applies the patch to that row only; a missing id changes nothing; an empty patch is refused |
| Db.GenerationTable.Get | src/db/index.ts:79-82 | returns the row with that id, or none exactly when it is absent |
| Db.GenerationTable.GetHistory | src/db/index.ts:84-94 | returns one page of the newest-first rows at offset `(page - 1) * limit`, and the count of all rows |
| Db.GenerationTable.Delete | src/db/index.ts:96-99 | removes that row only; a missing id is a no-op |
| Replicate.Version | src/services/replicate.ts:32 | defines `MODEL_VERSION.split(':')[1]` (see `VersionIsHash`) |
| Replicate.VersionIsHash | src/services/replicate.ts:32 | the version sent is the hash after the colon of `MODEL_VERSION` |
| Replicate.SeedOrDefault | src/services/replicate.ts:28 | the seed or 42: an absent, null or zero seed becomes 42 |
| Replicate.Input | src/services/replicate.ts:21-29 | the garment URL goes to `garm_img` and the model URL to `human_img`; the prompt, or "A garment"; the flags are true/false; the steps are copied; the seed is the stored seed or 42 (`SeedOrDefault`), never 0 |
| Replicate.InputIgnoresBackgroundAndGuidance | src/services/replicate.ts:19-29 | the background image URL and the guidance scale never reach the input |
| Replicate.InputDeterminedBy | src/services/replicate.ts:21-29 | two requests give the same input exactly when the fields it is built from agree |
| Generate.Succeeds | src/routes/generate.ts:206 | the success test: status `succeeded` and a truthy output |
| Generate.Fails | src/routes/generate.ts:222 | the failure test: status `failed` |
| Generate.SucceedsWithUrl | src/routes/generate.ts:206-215 | a success whose output names a URL, the only success whose download can work |
| Generate.Terminal | src/routes/generate.ts:203-227 | a reply that ends the loop: a success, a failure, or a `getPrediction` that throws into the catch |
| Generate.OutputUrl | src/routes/generate.ts:211-213 | `output[0]` for a list, `output` for a string; `undefined` exactly for an empty list, the only truthy output with no URL |
| Generate.DownloadOutcome | src/services/replicate.ts:60-61 | a download with no URL throws what `fetch(undefined)` throws; otherwise its outcome is the environment's |
| Generate.DownloadTrace | src/routes/generate.ts:215-220 | defines the write after the download: completed with the result path, or the thrown error |
| Generate.TerminalPatch | src/routes/generate.ts:215-227 | the one write a terminal reply leads to: completed with the result path after a working download, failed with the reply's error or `Unknown error`, or the catch's failed write with the thrown message (lines 239-245) |
| Generate.TerminalTrace | src/routes/generate.ts:206-227 | defines what follows a terminal poll: download and write, or the failure write (see `TerminalTraceFacts`) |
| Generate.PollTrace | src/routes/generate.ts:198-238 | defines the loop from attempt `a` on: wait, poll, then stop on a terminal reply or go on; the timeout write after attempt 59 |
| Generate.RunTrace | src/routes/generate.ts:169-246 | defines the run's events: none for an absent record, else `processing`, the submission and what follows it (see `RunOrder`, `RunWrites`, `RunFinalRow`) |
| Generate.Request | src/routes/generate.ts:180-193 | defines the `runVTON` argument: `file://` URLs of the stored images, the background image and prompt only when truthy, the stored parameters |
| Generate.TerminalTraceFacts | src/routes/generate.ts:206-227 | a terminal reply leads to exactly one write, its patch, as the last event, and to no further poll |
| Generate.PollStep | src/routes/generate.ts:201-204 | each round is a 5000 ms wait and a poll, with no write before what follows |
| Generate.PollShape | src/routes/generate.ts:198-231 | the loop polls consecutive attempts, no more than 60, and writes exactly once, as its last event |
| Generate.PollTimeout | src/routes/generate.ts:230-238 | with no terminal reply the loop polls every attempt and writes only the timeout failure |
| Generate.PollEndsHere | src/routes/generate.ts:206-228 | a terminal reply at attempt `a` ends the loop after that one poll |
| Generate.PollEarly | src/routes/generate.ts:201-231 | with some terminal reply the loop stops at the first one and writes that reply's patch |
| Generate.PollStop | src/routes/generate.ts:198-238 | the loop's poll count and its one write, for both cases: no terminal reply, or some terminal reply |
| Generate.RunWithoutRecord | src/routes/generate.ts:171-172 | an absent record: the run does nothing |
| Generate.RunSplitThrew | src/routes/generate.ts:186-195 | a submission that throws: `processing`, the submission, then the failure write |
| Generate.RunSplitSubmitted | src/routes/generate.ts:186-201 | once submitted: `processing`, the submission, the prediction id, then the loop |
| Generate.RunOrder | src/routes/generate.ts:171-204 | `processing` is written before any outside call; the submission sends the row's own model image and the version hash; the prediction id is written right after it; attempts 0, 1, ... are polled, at most 60 |
| Generate.RunWrites | src/routes/generate.ts:169-246 | the run writes `processing`, then the prediction id once submitted, then one terminal patch, which is its last event |
| Generate.PollOutcomeTimeout | src/routes/generate.ts:233-238 | with no terminal reply, the loop's write is the timeout and no attempt is a first terminal one |
| Generate.PollOutcomeStop | src/routes/generate.ts:201-228 | with a terminal reply, the loop's write is the patch of the first one |
| Generate.PollOutcome | src/routes/generate.ts:198-245 | the loop's write is completed with the result file exactly when the first terminal reply is a success naming a URL and the download works; otherwise it is a failure with an error text |
| Generate.EmptyOutputFails | src/routes/generate.ts:206-215 | a first terminal reply that succeeded with an empty output list ends the loop failed, with the error `fetch(undefined)` throws |
| Generate.RunWriteList | src/routes/generate.ts:169-246 | the run's writes, listed for a submission that throws and for one that succeeds |
| Generate.RunFinalRow | src/routes/generate.ts:169-246 | a found row ends completed (exactly when the first terminal reply is a success naming a URL and the download works) or failed, never pending or processing, with the images, parameters and timestamp untouched |
| Generate.Record | src/db/index.ts:66-77 | one `updateGeneration` call of the run: the table gets the patch applied to that row, the trace gets the write, and nothing else changes |
| Generate.BeginRun | src/routes/generate.ts:171-174 | reads the row and, only if it exists, writes `processing` |
| Generate.Settle | src/routes/generate.ts:206-228 | a terminal reply: download and mark completed, or mark failed with the error text or "Unknown error" |
| Generate.Round | src/routes/generate.ts:201-228 | one iteration: it stops exactly on a terminal reply and leaves the table matching the trace |
| Generate.PollRounds | src/routes/generate.ts:198-231 | the `for` loop standing for `while (attempts < maxAttempts)`: at most 60 attempts; breaking on a terminal reply completes the trace |
| Generate.PollLoop | src/routes/generate.ts:198-238 | the loop and the timeout write produce exactly the loop's trace |
| Generate.FinishRun | src/routes/generate.ts:176-245 | submit, record the prediction id and poll, or record the thrown error |
| Generate.ProcessGeneration | src/routes/generate.ts:169-246 | the run's events are `RunTrace` of the row it finds, and the table is the old one with those writes applied to that row |
| Generate.SeedFrom | src/routes/generate.ts:71 | `body.seed ? parseInt(body.seed) : fallback`, where NaN is stored as null |
| Generate.CreateParams | src/routes/generate.ts:68-72 | defines the create parameters: steps or 12, guidance or 2.5, the seed only if supplied |
| Generate.MergeParams | src/routes/generate.ts:134-139 | defines the retry parameters: each supplied nonzero value over the stored one, the seed when supplied |
| Generate.CreateIsMergeOverDefaults | src/routes/generate.ts:68-72 | create defaults are steps 12 and guidance 2.5, never 0, and apply the same rule as a retry over those defaults |
| Generate.MergeFacts | src/routes/generate.ts:134-139 | a supplied nonzero value overrides the stored one and an absent value keeps it; the merge is idempotent and a body with no fields changes nothing |
| Generate.CreateParamsExample | src/__tests__/api.test.ts:41-54 | steps "12" and guidance "2.5" give exactly `{ steps: 12, guidance_scale: 2.5 }` |
| Generate.CreateRecord | src/routes/generate.ts:59-81 | a new record exactly when both images are present, holding their paths, the form fields and the defaulted parameters |
| Generate.StartedRow | src/routes/generate.ts:75-86 | the row as the client reads it: inserted, then marked `processing`, with no result, error or prediction id |
| Generate.RetryRecord | src/routes/generate.ts:142-148 | defines the retry's `createGeneration` argument: the stored images, background image and prompt, and the merged parameters |
| Generate.RetryCopies | src/routes/generate.ts:142-148 | a retry's row copies the images, background and prompt of the original, with the merged parameters |
| Generate.View | src/routes/generate.ts:88-94 | the reply echoes id, status, parameters and timestamp; `result_url` is present exactly when `result_image` is truthy |
| Generate.StartedView | src/__tests__/api.test.ts:48-54 | create and retry reply with status `processing`, no result, and the row's own parameters |
| Generate.Launch | src/routes/generate.ts:75-94 | inserts under the next id, marks it processing, and replies with that row |
| Generate.CreateRoute | src/routes/generate.ts:55-99 | 400 and no change without both images; otherwise a new processing row under the next id and its view |
| Generate.RetryRoute | src/routes/generate.ts:125-166 | 404 and no change for a NaN or unknown id; otherwise a new row from the old one with merged parameters, and the original row is unchanged |
| History.Ceil | src/routes/history.ts:29 | `Math.ceil(x)` is the integer `n` with `x <= n < x + 1` |
| History.PageCount | src/routes/history.ts:29 | defines `Math.ceil(total / limit)` (see `PageCountBounds`) |
| History.PageCountBounds | src/routes/history.ts:29 | for a positive limit: 0 pages for 0 rows, otherwise `(pages - 1) * limit < total <= pages * limit` |
| History.PageCountNegativeLimit | src/routes/history.ts:29 | a negative limit gives no positive page count |
| History.FormatItem | src/routes/history.ts:15-22 | echoes the row's fields; `result_url` is present exactly when `result_image` is truthy, and then equals it |
| History.FormatItems | src/routes/history.ts:15-22 | one item per row, in the same order |
| History.HistoryReply | src/routes/history.ts:8-31 | defines the reply of GET `/`: formatted items, the total, the page, the limit and the page count |
| History.HistoryReplyFacts | src/routes/history.ts:8-31 | nonzero page and limit are echoed and otherwise become 1 and 20; the total counts every row; at most `limit` items, newest first, each a formatted stored row |
| History.HistoryReplyExamples | src/__tests__/api.test.ts:70-85 | no query gives page 1; `?page=2&limit=10` echoes page 2 and limit 10 |
| History.ListHistory | src/routes/history.ts:8-31 | GET `/` reads the table, changes nothing, and returns `HistoryReply` |
| History.TruthyPaths | src/routes/history.ts:48-53 | `.filter(Boolean)` keeps exactly the present, non-empty paths |
| History.StoredFiles | src/routes/history.ts:48-53 | the array the files filter starts from: model, garment, background and result paths, in that order |
| History.FilesToDelete | src/routes/history.ts:48-53 | defines the filtered list of the row's four paths (see `FilesToDeleteOrder`) |
| History.FilesToDeleteOrder | src/routes/history.ts:48-53 | the files to delete are the truthy ones among model, garment, background and result, in that order |
| History.DeleteRoute | src/routes/history.ts:38-69 | 404 and nothing deleted for a NaN or unknown id; otherwise the row's files are unlinked and only that row is removed |

## Left out

- The Express and multer plumbing is not modelled: routing, upload destinations and file names, the 10 MB limit, the file-type filter and JSON serialisation. A request reaches a route as the values it carries.
- GET `/:id` is not modelled. It is a lookup plus the same view, and the table's `Get` covers the lookup.
- Each route's 500 path (the outer `catch`) is not modelled. In the model nothing the routes call can throw.
- `parseInt` and `parseFloat` are not modelled: their results are inputs, with `None` for NaN. For `id`, NaN matches no row, so it gives the same 404 as an unknown id.
- Guidance scale is a Dafny `real`, not an IEEE double. It is only stored, echoed and compared with 0.
- `JSON.stringify` and `JSON.parse` of `params` are omitted: the column holds the `Params` value itself. A NaN seed from `parseInt` is the `NullSeed` value, which is what `JSON.stringify` stores.
- SQL text and SQLite are not modelled. Rows with equal `created_at` come out in descending id order. This is one valid resolution of an order SQLite leaves unspecified.
- Db.GenerationTable.Update: in the source, an update with no keys builds invalid SQL and throws. The model refuses it and changes nothing. No caller in the core sends an empty update.
- The detector, the image library (`sharp` metadata, extract, file writing), `fs`, `fetch` and the hosted model's client calls are inputs (`DetectorReply`, `CropEnv`, `RunEnv`), as described above. A download whose URL is `undefined` (an empty output list) throws `RunEnv.noUrl`, whose message is also an input; any other download's outcome is `RunEnv.download`. `toDataUri` is not modelled.
- Preprocess.CropPerson: one flag, `saved`, covers directory creation, extraction and file writing. The model does not say which of them failed, and the message is the same in every case.
- The detector's NaN products (for example a NaN confidence) are not modelled. A missing coordinate reads as falsy, as in `||`.
- `toLowerCase` is modelled for the Latin letters A–Z only. Other characters, including the Korean keywords, are unchanged by it.
- The 5-second `setTimeout`, `Date.now()` and `Math.random()` names are not modelled. Waits are `Wait(5000)` events, and file names and timestamps are inputs.
- Concurrency is not modelled. `processGeneration` is started without being awaited, so only its synchronous start (`BeginRun`: read, then mark processing) happens before the create or retry reply. The rest (`FinishRun`) is modelled as a separate sequential run, with no other writer of the row in between.
- The `console` logging is not modelled.
- `src/index.ts` (server start-up, static files, health check) is not part of this model.
