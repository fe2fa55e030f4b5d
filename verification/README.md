# Rooftop solar verification: a Dafny model of its decision logic

The system is a browser dashboard for checking rooftop solar installations
from satellite images, plus a relay service that forwards an image to a
multimodal model and returns a structured verdict. It has no detection
algorithm of its own. This project models the decision logic it does have,
and proves properties of it:

- **Relay** (`relay.dfy`, module `Relay`). The `POST /analyze` handler is a
  function of the request body, the model call's outcome, the `JSON.parse`
  outcome and the clock. It answers 400 for a missing image. On success it
  answers 200 with the model's fields plus the relay's `timestamp`. On any
  failure it answers 200 with a fixed canned verdict. It also returns
  whether the model was called, and with what image.
- **Client call wrapper** (`gemini_service.dfy`, module `GeminiService`).
  `analyzeSolarImage` strips a data-URL prefix with `split(",")[1] || s`,
  posts `{ imageBase64 }`, and rejects on a non-ok status. `ViaRelay`
  composes it with the relay.
- **Batch view** (`batch_processing.dfy`, module `BatchProcessing`).
  - The seed list.
  - The sequential runner: class `Batch` over an `array` of items, with a
    `while` loop that marks each item Processing and then Completed or
    Failed, and updates the progress percentage.
  - The CSV export.
- **Single-image view** (`single_verification.dfy`, module
  `SingleVerification`).
  - Class `Panel` with the fields `image`, `loading`, `result`, `lat` and
    `lng`, and the handlers that update them.
  - The audit record that `downloadAudit` builds.
- **Shared pieces.**
  - `types.dfy`: the declared types (`BoundingBox`, `VerificationResult`,
    `BatchItem`, the status enum) and their JSON encoding.
  - `json.dfy`: JSON values, with JavaScript property lookup, truthiness,
    object spread and string coercion.
  - `text.dfy`: JavaScript `split` and `join` on one character, and the
    shape of an unquoted delimited table.
  - `outcomes.dfy`: `Option` and `Result`.

Nothing checks values on the wire against the declared types. The
components store whatever JSON the relay answered, so the model keeps a
`Json` value in `BatchItem.result` and `Panel.result`. `Types.Decode` states
what having the declared shape would mean.

Calls the code cannot see are parameters:
- the model call (`upstream`) and `JSON.parse` (`parse`), each returning
  `None` when it throws;
- `fetch` (a `GeminiService.HttpOutcome`);
- the batch's per-call analysis outcome (`Analyzer`, indexed by call
  number);
- `Date.now()` (`now`);
- JavaScript's number-to-string conversion (`show`).

Four behaviours of the code are easy to misread:
- The relay treats `""`, `null`, `false` and `0` as a missing image, not
  only an absent field.
- The relay does not validate a successful model answer. Its confidence and
  roof type can be anything, and the canned verdict's roof type,
  "Flat / Industrial", is not one of the four declared labels.
- Batch progress is the percentage rounded with `Math.round`, not a
  completed/total count.
- The single view also alerts when `fetch` fails, not only on a non-ok
  status.

## Model

| member | source | states |
|---|---|---|
| `Text.Split` | src/services/geminiService.ts:7 | `split` on one character yields at least one piece, and no piece holds the separator |
| `Text.Join` | components/BatchProcessing.tsx:82 | `join` of no pieces is ""; the text starts with the first piece, and with two or more pieces a separator follows it |
| `Text.Table` | components/BatchProcessing.tsx:82 | the CSV text of no rows is ""; it begins with the first row's cells joined by `,`; two or more rows put a line break in it |
| `Text.JoinSplit` | src/services/geminiService.ts:7 | joining the pieces of `split` with the separator gives back the original text |
| `Text.SplitJoin` | components/BatchProcessing.tsx:82 | splitting a join gives back the pieces, provided no piece holds the separator |
| `Text.SplitLength` | src/services/geminiService.ts:7 | `split` yields one piece more than there are separators |
| `Text.ReadTableOfPlain` | components/BatchProcessing.tsx:82 | a table of plain cells, serialised with `,` and line breaks, reads back as its own rows |
| `Text.TableLineBreaks` | components/BatchProcessing.tsx:82 | a table's text has at least one line break per row boundary, and exactly that many when every cell is plain |
| `Text.RectangularIffPlain` | components/BatchProcessing.tsx:82 | an unquoted table reads back as n lines of w fields if and only if no cell holds `,` or a line break |
| `JsonValues.Prop` | components/BatchProcessing.tsx:76-79 | `v?.key` is defined exactly for an object's own field, and is then that field |
| `JsonValues.Spread` | backend/index.js:49 | `{...data}` copies an object's fields, or an array's elements or a string's characters under distinct index keys; it copies nothing from null, booleans and numbers |
| `JsonValues.Truthy` | backend/index.js:25 | a value is truthy exactly when it is defined and is not `null`, `false`, `0` or `""` |
| `JsonValues.Coerce` | components/BatchProcessing.tsx:82 | `join`'s string conversion: a text is written as is, a boolean as "true"/"false", a number through `show`; booleans and numbers never write `,` or a line break when `show` does not; an array of two or more elements always writes a `,` |
| `JsonValues.Nullish` | components/BatchProcessing.tsx:76-79 | the values `??` replaces are falsy, but a present boolean, number or text is never replaced |
| `JsonValues.ParseIndexKey` | backend/index.js:49 | index keys read back as their index, so spread keys never collide |
| `Types.ParseRoofType` | types.ts:11 | exactly the four declared labels are roof types, and each names its own type |
| `Types.StatusName` | types.ts:21 | status labels are non-empty and hold no `,` or line break |
| `Types.Decode` | types.ts:8-15 | a value reads as a result only if it is an object holding all six declared fields with the declared types; the result's fields are those values, and its box is absent exactly when the field is null |
| `Types.DecodeEncode` | types.ts:1-15 | every well-typed result decodes back to itself from its JSON form |
| `Types.DecodeReadsResultFields` | types.ts:8-15 | whether a value has the declared shape depends only on the six declared fields |
| `Relay.MissingImage` | backend/index.js:25 | a body that is not an object always misses its image; a present image is a field holding something other than null, false, 0 or "" |
| `Relay.FallbackBody` | backend/index.js:55-69 | the canned verdict is an object with exactly seven keys, marked `fallback: true`, saying "installed", stamped with the clock |
| `Relay.SuccessBody` | backend/index.js:49 | the success body holds the spread keys plus `timestamp`; `timestamp` is the clock; every other spread key keeps its value |
| `Relay.Handle` | backend/index.js:22-71 | status is 200 or 400; 400 exactly for a missing image, with the fixed error body; the model is called exactly when the image is present, and with that image |
| `Relay.NullBodyAnswersFallback` | backend/index.js:22-69 | a body that was never parsed (`req.body` undefined, written `JNull`) throws at destructuring inside the `try`: canned verdict, model not called |
| `Relay.MissingImageRejected` | backend/index.js:24-27 | a missing image gives 400 `{error: "Image missing"}`, and the model is not called |
| `Relay.MissingImageCases` | backend/index.js:25 | the image is missing exactly when the field is absent, null, false, 0 or "" |
| `Relay.SuccessPassesFieldsThrough` | backend/index.js:48-49 | on success: 200; the body holds the parsed fields unchanged, plus `timestamp`, which is always the relay's clock; a `fallback` key can only come from the model |
| `Relay.SuccessIsUnvalidated` | backend/index.js:48-49 | an empty parsed object comes back as a 200 success holding only the timestamp |
| `Relay.FailureAnswersFallback` | backend/index.js:51-69 | a failed model call or a failed parse gives 200 with exactly the canned verdict |
| `Relay.FallbacksDifferOnlyInTimestamp` | backend/index.js:55-69 | two canned verdicts agree on every field but `timestamp`, and are equal iff their clocks are |
| `Relay.FallbackBoxNormalized` | backend/index.js:61-66 | the canned box is (0.1, 0.2)–(0.9, 0.8) and lies inside the unit square with min < max |
| `Relay.FallbackLooksApprovable` | backend/index.js:55-69 | the canned verdict says "installed" with confidence above the 85 that src/App.tsx:32 names for auto-approval; only `fallback: true` marks it |
| `Relay.FallbackIsNotVerificationResult` | backend/index.js:58 | the canned verdict lacks the declared shape: its roof type is not a declared label, and its timestamp is a number |
| `GeminiService.Strip` | src/services/geminiService.ts:7 | input without a comma is kept; the result is the whole input or a shorter comma-free non-empty text; it is empty only for empty input |
| `GeminiService.StripCharacterized` | src/services/geminiService.ts:7 | after the first comma: the text up to the next comma when that is non-empty (not the whole suffix), otherwise the whole input |
| `GeminiService.StripIdempotent` | src/services/geminiService.ts:7 | stripping twice equals stripping once |
| `GeminiService.RequestBody` | src/services/geminiService.ts:14-16 | the posted body's `imageBase64` is the stripped text |
| `GeminiService.IsOk` | src/services/geminiService.ts:19 | `response.ok` holds exactly for a 2xx status |
| `GeminiService.AnalyzeSolarImage` | src/services/geminiService.ts:3-24 | resolves exactly on an ok status, with the body unchecked; a non-ok status rejects with "Backend analysis failed" |
| `GeminiService.RelayRejectsOnlyEmpty` | src/services/geminiService.ts:7-21 | through the relay the call rejects iff the input is ""; the model then receives the stripped text |
| `BatchProcessing.InitialBatch` | components/BatchProcessing.tsx:15-21 | five seeded items, all Pending, with no result and distinct ids |
| `BatchProcessing.Settle` | components/BatchProcessing.tsx:44-47 | a settled item keeps id and coordinates; it is Completed exactly when its call resolved, then holding that value, and Failed exactly when it rejected, then keeping its old result |
| `BatchProcessing.Processed` | components/BatchProcessing.tsx:36-50 | after `done` items, those are settled with their ids kept and the rest are untouched |
| `BatchProcessing.InFlight` | components/BatchProcessing.tsx:36-38 | while item i is in flight, earlier items are settled, item i is Processing with its data and earlier result kept, and later items are untouched |
| `BatchProcessing.Render` | components/BatchProcessing.tsx:36-50 | the r-th `setItems` snapshot: item r/2 is Processing for even r and settled for odd r, items before it are settled, items after it are untouched |
| `BatchProcessing.Progress` | components/BatchProcessing.tsx:51 | progress is 100·done/total rounded half up |
| `BatchProcessing.ProgressBounds` | components/BatchProcessing.tsx:32-51 | progress lies in 0..100; it is 0 when nothing is done and 100 when all is done |
| `BatchProcessing.ProgressMonotone` | components/BatchProcessing.tsx:51 | progress never decreases as items are handled |
| `BatchProcessing.RunSettlesEveryItem` | components/BatchProcessing.tsx:36-52 | after a run every item is Completed or Failed; Completed iff its call resolved, with that value as result; Failed keeps the earlier result; id, lat and lng are unchanged |
| `BatchProcessing.InFlightOrder` | components/BatchProcessing.tsx:36-38 | while item i is in flight, earlier items have settled, later ones are untouched, and only item i is Processing |
| `BatchProcessing.VerdictIgnoresItem` | components/BatchProcessing.tsx:41-42 | every call gets the same argument, so an item's own data does not affect its status |
| `BatchProcessing.BatchViaRelayCompletes` | components/BatchProcessing.tsx:41-42 | the placeholder strips to itself and is non-empty, so through the relay every item ends Completed |
| `BatchProcessing.Batch.constructor` | components/BatchProcessing.tsx:24-26 | the view starts with the seed list, idle, at progress 0 |
| `BatchProcessing.Batch.StartBatch` | components/BatchProcessing.tsx:30-55 | items end as the sequential run over the old items; each step's snapshot is in flight then settled, in index order; progress is logged after each item and ends at 100 (0 for an empty list); `processing` ends false |
| `BatchProcessing.ResultField` | components/BatchProcessing.tsx:76-79 | `i.result?.key` is defined exactly when there is a result with that own field, and is then that field |
| `BatchProcessing.ResultCell` | components/BatchProcessing.tsx:76-79 | `?? ''` then `join`: an undefined or null field gives "", a text is written as is, a boolean as "true"/"false", a number through `show`; only a text, an array or an object can make the cell hold `,` or a line break |
| `BatchProcessing.Row` | components/BatchProcessing.tsx:71-80 | each item exports as eight cells, in header order |
| `BatchProcessing.Rows` | components/BatchProcessing.tsx:71-82 | `[headers, ...rows]`: the header first, then one eight-cell row per item in item order |
| `BatchProcessing.ExportCsv` | components/BatchProcessing.tsx:71-82 | the CSV text has at least one line break per item, and exactly one per item when every cell is plain |
| `BatchProcessing.ExportReadsBack` | components/BatchProcessing.tsx:60-82 | a plain export reads back as the eight header names, then each item's cells in item order |
| `BatchProcessing.ExportRectangularIffPlain` | components/BatchProcessing.tsx:82 | the export reads back as n+1 lines of exactly 8 fields iff no cell holds `,` or a line break |
| `BatchProcessing.ResultCells` | components/BatchProcessing.tsx:76-79 | with no result the last four cells are ""; a present `false` exports as "false" and a present 0 as the text of 0 |
| `BatchProcessing.TypedResultCells` | components/BatchProcessing.tsx:71-80 | a well-typed result exports its flag, confidence, roof-type label and timestamp |
| `BatchProcessing.UnanalysedExportPlain` | components/BatchProcessing.tsx:71-82 | while no item has a result, every cell is plain once the ids are, given that number-to-string never writes `,` or a line break |
| `BatchProcessing.InitialExportReadsBack` | components/BatchProcessing.tsx:71-82 | the seed list exports as six lines of eight fields |
| `BatchProcessing.FallbackRowPlain` | components/BatchProcessing.tsx:71-80 | an item holding the relay's canned verdict exports "true", its confidence, "Flat / Industrial" and its numeric timestamp, all plain |
| `BatchProcessing.FallbackExportsLikeAnswer` | components/BatchProcessing.tsx:71-80 | an item holding the canned verdict exports the same row as one holding the success answer for `{solarInstalled: true, confidence: 89.6, roofType: "Flat / Industrial"}` at the same time: the `fallback` marker has no column |
| `SingleVerification.OrNull` | src/components/SingleVerification.tsx:60-61 | a coordinate is null exactly when its text field is empty, otherwise the raw text |
| `SingleVerification.MakeAudit` | src/components/SingleVerification.tsx:59-68 | `timestamp`, `solarInstalled`, `confidence`, `roofType` and `reasoning` are the stored answer's own (undefined where it has none); the coordinates are as in `OrNull`; the box is null exactly when the answer's box is missing or null, and otherwise is that box |
| `SingleVerification.AuditJson` | src/components/SingleVerification.tsx:59-70 | the downloaded object holds no keys but the eight the literal names; it always holds the coordinates (null when empty) and the box, and each of the other five fields exactly when it is defined |
| `SingleVerification.AuditKeepsAnswerFields` | src/components/SingleVerification.tsx:59-68 | for any stored answer object, the downloaded object agrees with it on the five copied fields and holds its box when present and not null |
| `SingleVerification.AuditDecodesAsAnswer` | src/components/SingleVerification.tsx:59-70 | for any stored answer with a `boundingBox` key, the downloaded object reads as a declared result exactly when the answer does, and as the same one |
| `SingleVerification.SuccessAudit` | src/components/SingleVerification.tsx:59-68 | the audit of a relay success carries the relay's numeric clock as its timestamp, so it never reads as a declared result |
| `SingleVerification.FallbackAudit` | src/components/SingleVerification.tsx:59-68 | the audit of the canned verdict carries the canned box and the clock, does not read as a declared result, and has no `fallback` key |
| `SingleVerification.AuditOfEncoded` | src/components/SingleVerification.tsx:62-67 | the audit of a well-typed result copies its timestamp, flag, confidence, roof type, reasoning and box |
| `SingleVerification.AuditRoundTrip` | src/components/SingleVerification.tsx:59-70 | reading the downloaded audit object back as a result gives the same result |
| `SingleVerification.Panel.constructor` | src/components/SingleVerification.tsx:15-19 | no image, not loading, no result, empty coordinate fields |
| `SingleVerification.Panel.HasImage` | src/components/SingleVerification.tsx:39 | an image is present exactly when it is neither null nor "" |
| `SingleVerification.Panel.CanRun` | src/components/SingleVerification.tsx:136 | the Run button is enabled exactly when a non-empty image is present and no analysis is pending |
| `SingleVerification.Panel.SetLat` | src/components/SingleVerification.tsx:94 | typing sets the latitude text and nothing else |
| `SingleVerification.Panel.SetLng` | src/components/SingleVerification.tsx:100 | typing sets the longitude text and nothing else |
| `SingleVerification.Panel.HandleFileChange` | src/components/SingleVerification.tsx:24-34 | no file changes nothing; a file sets the image to what was read (null if reading failed) and clears the result |
| `SingleVerification.Panel.HandleAnalyze` | src/components/SingleVerification.tsx:38-52 | with no image: nothing is posted, `loading` and `result` are unchanged; otherwise the body posted holds the once-stripped image; success replaces `result`, failure keeps it, and `loading` ends false |
| `SingleVerification.Panel.DownloadAudit` | src/components/SingleVerification.tsx:56-68 | no audit without a truthy result; otherwise the audit of the stored result and the current coordinate texts |
| `SingleVerification.SelectThenRunnable` | src/components/SingleVerification.tsx:136 | after a successful file read while idle, the Run button is enabled and no stale result remains |

## Left out

- The model call itself, the fixed prompt, Express, cors, dotenv and the
  listening port (backend/index.js:1-20, 29-46 and 74-76) are foreign
  calls and I/O. They are replaced by the `upstream` oracle. The
  `SYSTEM_INSTRUCTION` constant is never passed to the call, so nothing
  depends on it.
- The 10 MB body limit is not modelled. The handler sees whatever JSON
  value the parser produced.
- `fetch`, `FileReader`, the Blob/URL/anchor download, `alert` and
  `console` are browser I/O. `fetch` is an oracle, the reader's output is a
  parameter, and the download is the `AuditRecord` value plus the object
  `AuditJson` gives. The indented JSON text is not modelled.
- `response.json()` failing on a non-JSON body is not modelled, because
  every ok answer from the relay is JSON. The body parser's own rejections
  (413 over 10 MB; 400 for malformed bodies and, in its default strict
  mode, for bodies that are neither an object nor an array) are answered
  by Express's default error handler, not by the handler modelled here.
  Their statuses are not ok, so the wrapper rejects before reading them.
- The handler's null-body path stands for a body that was never parsed
  (`req.body` undefined, as for a request that is not JSON). The strict
  parser turns away a JSON `null` before the handler runs.
- Calls that never settle are not modelled: every oracle answers. No
  timeout is set anywhere, so a hung relay or model call leaves
  `processing` true for good (components/BatchProcessing.tsx:54 is never
  reached), and likewise `loading` in the single view
  (src/components/SingleVerification.tsx:50).
- `JsonValues.Spread`: strings are sequences of Unicode scalar values, not
  UTF-16 code units. `{...s}` makes one key per code unit, so a character
  outside the Basic Multilingual Plane gives two keys holding lone
  surrogate halves. The model gives it one key, and its count of keys
  is too low for such strings.
- Numbers are exact reals, so floating point is not modelled. Number
  formatting (`toFixed`, `toLocaleString`) and rendering are left out.
  Number-to-string is the parameter `show`; the CSV lemmas assume nothing
  about it except where a lemma states otherwise.
- `BatchProcessing.Progress`: on exact rationals, not on floating point.
  It can differ from `Math.round` on a float product only where that
  product misses an exact .5 tie through rounding error.
- JSON object key order is not kept, so the order of fields in the relay
  body, in the stored result objects the CSV cells are read from and in
  the audit file is not modelled. Property
  lookup covers only the field names the code reads. Built-in names such as
  `length` and prototype members are not modelled.
- React scheduling and re-rendering:
  - Each `await` is one oracle step, and each `setItems([...updated])` is a
    value snapshot, returned as `renders`.
  - The shallow copy at components/BatchProcessing.tsx:34 mutates the item
    objects that `INITIAL_BATCH` and earlier snapshots share. Items are
    modelled as one mutable array of values, so that aliasing is not
    captured.
  - `FileReader`'s asynchronous completion is applied at once.
- `SingleVerification.Panel.HandleAnalyze`: its postcondition does not
  show the intermediate state in which `loading` is true while the call is
  pending. The method runs the call as one step. So it hides a race: the
  file input stays enabled during the call. A file chosen then clears
  `result` (src/components/SingleVerification.tsx:31), and afterwards the
  earlier image's verdict arrives and is stored over it (line 45).
  `SingleVerification.SelectThenRunnable` holds only because it requires
  that no analysis is pending.
- `BatchItem.imageUrl` (types.ts:22) is not modelled. The seed list does
  not set it and no core code reads it.
- components/Dashboard.tsx, src/components/Layout.tsx and src/App.tsx are
  not part of this model. They only render and navigate. The acceptance
  thresholds at src/App.tsx:32-33 are text that no code applies.
