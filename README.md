# CMO sales projection: a verified model of the front end's logic

The application is a browser demo for a contract manufacturer's sales
projection. The user uploads PDF contracts and Excel/CSV forecasts. The page
then runs a fixed list of "analysis" steps one after another and shows a
table and chart of sales data. The model covers:

- The three upload components (forecasts, contracts, plain PDFs):
  - the validator that tests the type first and the size limit second;
  - the display name derived from the file name with regular expressions;
  - the list of uploads, with append on acceptance, "mark success" when the
    simulated processing timer fires, and remove by id.
- The page itself: the step loop of the analysis, the reset on every
  upload, the conditions that show or hide its panels and disable its
  button, and the summary lines.
- The sales data view:
  - the filter by customer, product and supply centre, where `All` matches
    everything;
  - the sorted distinct options of each selector;
  - per-year totals and the summary counts;
  - the bar heights against one global maximum, and the bar hue.

Modules follow the source files, with shared pieces split out:

- `Strings`: the JavaScript string operations used.
- `StringOrder`: the default string sort order and "distinct, sorted".
- `Sequences`: `filter`.
- `FileNames`: the `replace` chains.
- `Uploads`: the entry list shared by the three components.
- `Forecasts`, `Contracts`, `Pdfs`: the three components.
- `SalesData`: the data view.
- `App`: the page.

The component state lives in classes: `ForecastUpload`, `ContractUpload`,
`PdfUpload`, `DataVisualization` and `AppState`. Their methods give the new
state in `modifies`/`old` contracts. The list updates go through pure
functions (`MarkSuccess`, `RemoveById`, `CompleteForecasts`) whose
properties are proved as lemmas.

Injected inputs stand in for the platform:

- **Ids.** Entry ids (`Date.now()` plus `Math.random()`) are parameters.
- **Random sheet count.** The random draw for the sheet count is a real in
  [0, 1) passed in.
- **Timers.** A `setTimeout` completion is a `Timer` value returned by
  `Process*`. It is delivered by an explicit `Complete*` call.
- **Absent values.** `null` (no validation error), `undefined`, `NaN`,
  `Infinity` and the `-Infinity` of an empty `Math.max` are `Option.None`.

Two facts about the code that the model follows:

- Contracts are accepted on a MIME type containing `pdf` as well as on a
  name ending in `.pdf` (src/components/ContractUpload.tsx:32).
- No code path sets the `'error'` status; the class invariants state that
  no entry is ever in it.

## Model

| member | source | states |
|---|---|---|
| Strings.ToLower | frontend/src/components/ForecastUpload.tsx:41 | `toLowerCase` keeps the length and lowers every (ASCII) letter on its own |
| Strings.LastIndexOf | frontend/src/components/ForecastUpload.tsx:41 | the result is -1 or a position holding the character, and no later position holds it |
| Strings.ContainsAt | frontend/src/components/PdfUpload.tsx:31 | `includes(sub)` holds exactly when `sub` occurs at some position |
| Strings.NatToString | frontend/src/components/ForecastUpload.tsx:50 | the limit in a message is rendered as decimal digits without a leading zero |
| Strings.NatToStringRoundTrip | frontend/src/components/ForecastUpload.tsx:50 | reading the rendered digits back gives the limit, so the message names it |
| Strings.NatToStringInjective | frontend/src/components/ForecastUpload.tsx:50 | different limits give different messages |
| StringOrder.LessTotal | frontend/src/components/DataVisualization.tsx:67 | the default sort order is total: of two different strings one sorts first |
| StringOrder.LessTransitive | frontend/src/components/DataVisualization.tsx:67 | the default sort order is transitive |
| StringOrder.LessIrreflexive | frontend/src/components/DataVisualization.tsx:67 | no string sorts before itself |
| StringOrder.Insert | frontend/src/components/DataVisualization.tsx:67 | inserting into the sorted option list adds exactly that value |
| StringOrder.InsertSorted | frontend/src/components/DataVisualization.tsx:67 | inserting keeps the option list strictly sorted |
| StringOrder.SortDistinctSpec | frontend/src/components/DataVisualization.tsx:67 | `Array.from(new Set(xs)).sort()` is strictly sorted, repeats nothing, and holds exactly the values of `xs` |
| Sequences.Filter | frontend/src/components/DataVisualization.tsx:83-89 | `filter` returns no more elements than it is given, each satisfying the predicate |
| Sequences.FilterMembership | frontend/src/components/DataVisualization.tsx:83-89 | an element survives iff it was there and satisfies the predicate |
| Sequences.FilterIsSubsequence | frontend/src/components/DataVisualization.tsx:83-89 | the survivors keep their order |
| Sequences.FilterMultiplicity | frontend/src/components/DataVisualization.tsx:83-89 | a kept element survives as often as it occurred, any other not at all |
| Sequences.FilterAppend | frontend/src/components/DataVisualization.tsx:83-89 | filtering distributes over concatenation |
| Sequences.FilterKeepsAll | frontend/src/components/DataVisualization.tsx:84-86 | a predicate that holds everywhere filters nothing out |
| Sequences.FilterEmpty | frontend/src/components/DataVisualization.tsx:299 | nothing survives iff no element satisfies the predicate |
| Sequences.FilterAtLeastTwo | frontend/src/components/DataVisualization.tsx:282 | two or more survive iff two different positions satisfy the predicate |
| FileNames.StripPdfExtension | src/components/ContractUpload.tsx:53 | `replace(/\.pdf$/i, '')` removes exactly four characters when the name ends in `.pdf` in any case and none otherwise, and keeps a prefix |
| FileNames.StripSpreadsheetExtension | frontend/src/components/ForecastUpload.tsx:65 | the extension `replace` keeps a prefix, shortens the name iff it ends in one of the extensions in any case, removes only such an extension, and removes all of `.xlsx` |
| FileNames.SeparatorsToSpaces | frontend/src/components/ForecastUpload.tsx:66 | `replace(/[-_]/g, ' ')` turns each hyphen and underscore into a space, keeps every other character, and leaves no separator |
| FileNames.TitleCaseFromAt | frontend/src/components/ForecastUpload.tsx:67 | the title-casing pass upper-cases exactly the characters that start a word, given the character before |
| FileNames.TitleCase | frontend/src/components/ForecastUpload.tsx:67 | `replace(/\b\w/g, toUpperCase)` upper-cases exactly the word characters with no word character before them and keeps the rest |
| FileNames.UpperCharKeepsClass | frontend/src/components/ForecastUpload.tsx:67 | upper-casing keeps word characters word characters, is idempotent, and only changes lower-case letters |
| FileNames.TitleCaseWords | frontend/src/components/ForecastUpload.tsx:67 | title-casing keeps the word starts in place, leaves none of them lower-case, and a second pass changes nothing |
| FileNames.TitleCaseKeepsSeparators | frontend/src/components/ForecastUpload.tsx:67 | title-casing neither adds nor removes hyphens or underscores |
| FileNames.CleanPdfName | src/components/ContractUpload.tsx:53 | the contract name keeps every character but a trailing `.pdf`, with separators as spaces, no case change, and no separator left |
| FileNames.CleanSpreadsheetName | frontend/src/App.tsx:157 | the forecast summary line is five characters shorter than the name after `.xlsx`, four after `.xls` or `.csv` (any case) and as long otherwise, shorter iff an extension was stripped, with separators as spaces |
| FileNames.ForecastName | frontend/src/components/ForecastUpload.tsx:64-67 | the forecast name is as long as the cleaned name and no longer than the file name, has no separator, no word start in lower case, and agrees with the cleaned name off the word starts |
| Uploads.ExceedsSizeLimit | frontend/src/components/ForecastUpload.tsx:48-49 | `size / (1024*1024) > max` holds iff the file has more bytes than `max` megabytes, so a file of exactly the limit passes |
| Uploads.ValidatePdf | src/components/ContractUpload.tsx:30-43 | with the component's two messages: the type message when neither the MIME type nor the name says PDF; the size message for an accepted file over the limit; no message iff accepted and within the limit |
| Uploads.MarkSuccess | frontend/src/components/ForecastUpload.tsx:83-92 | completion keeps the length, leaves every entry with another id unchanged, and makes every entry with the id a success with updated data |
| Uploads.MarkSuccessAbsent | frontend/src/components/ForecastUpload.tsx:83-92 | a completion whose id is in no entry changes nothing |
| Uploads.MarkSuccessKeepsShape | frontend/src/components/ForecastUpload.tsx:83-92 | completion keeps every id and file in place and never produces the error status |
| Uploads.MarkSuccessOfFresh | frontend/src/components/ForecastUpload.tsx:78-92 | completing a freshly appended entry turns that entry alone into a success |
| Uploads.RemoveByIdSpec | frontend/src/components/ForecastUpload.tsx:127-129 | removal keeps the other entries in order and with their multiplicity, drops every entry with the id, and never introduces the error status |
| Uploads.CompletionAfterRemoval | frontend/src/components/ForecastUpload.tsx:82-95 | a timer that fires after its entry was removed leaves the list as it is |
| Forecasts.ExtensionIs | frontend/src/components/ForecastUpload.tsx:41 | the tail from the last dot is a given dotted extension iff the lower-cased name ends with it |
| Forecasts.ExtensionCases | frontend/src/components/ForecastUpload.tsx:40-43 | the same, for `.xlsx`, `.xls` and `.csv` |
| Forecasts.EndingFromExtension | frontend/src/components/ForecastUpload.tsx:41 | the lower-cased tail from the last dot always ends the lower-cased name |
| Forecasts.ExtensionFromEnding | frontend/src/components/ForecastUpload.tsx:41 | a lower-cased name ending in a dotted extension with no further dot has that extension as its tail |
| Forecasts.EndingsExclusive | frontend/src/components/ForecastUpload.tsx:152-164 | a name ends in at most one of `.xlsx`, `.xls` and `.csv` |
| Forecasts.ValidateForecast | frontend/src/components/ForecastUpload.tsx:31-54 | a file neither of a listed MIME type nor with a listed extension gets the type message whatever its size; an accepted one over the limit gets the size message naming the limit; no message iff accepted and within the limit |
| Forecasts.ThirtyMegabytesRejected | frontend/src/components/ForecastUpload.tsx:48-51 | an accepted 30 MB file is refused against the 25 MB default with "Forecast file size exceeds 25MB limit" |
| Forecasts.WordForecastRejected | frontend/src/components/ForecastUpload.tsx:40-45 | `forecast.docx` with an unlisted MIME type gets the type message, whatever the limit |
| Forecasts.NewForecast | frontend/src/components/ForecastUpload.tsx:64-76 | the new entry is uploading, named by the forecast name, with a sheet count of 1 iff the name ends in `.csv` and none otherwise |
| Forecasts.RandomSheetCount | frontend/src/components/ForecastUpload.tsx:89 | `Math.floor(Math.random() * 5) + 1` lies in 1..5 |
| Forecasts.SettleMeta | frontend/src/components/ForecastUpload.tsx:89 | a non-zero sheet count is kept, a missing or zero one becomes a count in 1..5, and the name is kept |
| Forecasts.CompleteForecasts | frontend/src/components/ForecastUpload.tsx:82-93 | completion makes exactly the entries with the id successes whose sheet count is settled by SettleMeta (kept if set and non-zero, else drawn in 1..5), keeps a CSV's count of 1, and leaves the rest unchanged |
| Forecasts.LabelsDistinct | frontend/src/components/ForecastUpload.tsx:152-164 | the four labels are different strings |
| Forecasts.FileTypeLabelOfExtension | frontend/src/components/ForecastUpload.tsx:152-164 | each of the three labels stands for exactly one tail from the last dot, "Spreadsheet" for every other tail |
| Forecasts.FileTypeLabelSpec | frontend/src/components/ForecastUpload.tsx:152-164 | the label names the extension the lower-cased name ends in, "Spreadsheet" iff none, and the initial sheet count of 1 goes with "CSV Data" alone |
| Forecasts.FileTypeIconSpec | frontend/src/components/ForecastUpload.tsx:139-150 | one icon for both Excel labels, one for CSV, one for anything else |
| Forecasts.ForecastUpload.constructor | frontend/src/components/ForecastUpload.tsx:22-28 | the component starts with its limit, an empty list and no message |
| Forecasts.ForecastUpload.ProcessForecast | frontend/src/components/ForecastUpload.tsx:56-80 | a rejected file only sets the message; an accepted one is appended as the one new uploading entry, clears the message and schedules its completion |
| Forecasts.ForecastUpload.CompleteForecast | frontend/src/components/ForecastUpload.tsx:82-95 | the timer marks its entries a success, keeps the message, and delivers the file even after a removal |
| Forecasts.ForecastUpload.RemoveForecast | frontend/src/components/ForecastUpload.tsx:127-129 | the list becomes the list without the entries of that id; the message is kept |
| Contracts.ValidateContract | src/components/ContractUpload.tsx:30-43 | a file whose MIME type has no `pdf` and whose name does not end in `.pdf` gets the type message; an accepted one over the limit the size message naming it; no message iff accepted and within the limit |
| Contracts.TextContractRejected | src/components/ContractUpload.tsx:32-34 | `contract.txt` with a MIME type not mentioning `pdf` gets "Please select a PDF contract file", whatever the limit |
| Contracts.NewContract | src/components/ContractUpload.tsx:52-61 | the new entry is uploading and carries the cleaned contract name |
| Contracts.ContractUpload.constructor | src/components/ContractUpload.tsx:21-27 | the component starts with its limit, an empty list and no message |
| Contracts.ContractUpload.ProcessContract | src/components/ContractUpload.tsx:45-75 | a rejected file only sets the message; an accepted one is appended as uploading and clears the message |
| Contracts.ContractUpload.CompleteContract | src/components/ContractUpload.tsx:67-73 | the timer flips only the entries of its id to success and delivers the file |
| Contracts.ContractUpload.RemoveContract | src/components/ContractUpload.tsx:106-108 | the list loses exactly the entries of that id |
| Pdfs.ValidateFile | frontend/src/components/PdfUpload.tsx:29-42 | the type message when neither MIME type nor name says PDF; the size message naming the limit for an accepted file over it; no message iff accepted and within the limit |
| Pdfs.NewFile | frontend/src/components/PdfUpload.tsx:51-56 | the new entry is uploading |
| Pdfs.PdfUpload.constructor | frontend/src/components/PdfUpload.tsx:20-26 | the component starts with its limit, an empty list and no message |
| Pdfs.PdfUpload.ProcessFile | frontend/src/components/PdfUpload.tsx:44-69 | a rejected file only sets the message; an accepted one is appended as uploading and clears the message |
| Pdfs.PdfUpload.CompleteFile | frontend/src/components/PdfUpload.tsx:62-68 | the timer flips only the entries of its id to success and delivers the file |
| Pdfs.PdfUpload.RemoveFile | frontend/src/components/PdfUpload.tsx:101-103 | the list loses exactly the entries of that id |
| SalesData.FilteredDataSpec | frontend/src/components/DataVisualization.tsx:82-90 | a record is shown iff it is in the data and each selector is `All` or equals its field; the shown records keep order and multiplicity |
| SalesData.MatchesByAxis | frontend/src/components/DataVisualization.tsx:82-90 | the filter callback accepts a record iff on each of the three axes the selector is `All` or equals the record's field |
| SalesData.NoFilterShowsAll | frontend/src/components/DataVisualization.tsx:84-86 | with all three selectors at `All` every record is shown |
| SalesData.NoDataMessage | frontend/src/components/DataVisualization.tsx:299 | the no-data message appears iff no record matches the selectors |
| SalesData.TotalsRowShown | frontend/src/components/DataVisualization.tsx:282 | the totals row appears iff two different records match |
| SalesData.FieldValues | frontend/src/components/DataVisualization.tsx:67 | `map(item => item.kunde)` (and the other fields) gives the field of each record in order |
| SalesData.UniqueValuesSpec | frontend/src/components/DataVisualization.tsx:66-79 | each selector's options are strictly sorted, repeat nothing, and are exactly the values of that field |
| SalesData.SumYearAppend | frontend/src/components/DataVisualization.tsx:98 | the total of two lists of records is the sum of their totals |
| SalesData.SumOfFiltered | frontend/src/components/DataVisualization.tsx:98 | a year's total over the shown records is the total over all records with every non-matching one counted as 0 |
| SalesData.MaskedSumNoFilter | frontend/src/components/DataVisualization.tsx:98 | without a filter that total is the total of the whole data |
| SalesData.MaskedSumBounds | frontend/src/components/DataVisualization.tsx:98 | with non-negative values a filtered total lies between 0 and the unfiltered total |
| SalesData.YearlyTotals | frontend/src/components/DataVisualization.tsx:95-101 | `yearlyTotals` has exactly the listed years as keys, each mapped to the total of the shown records with a missing year counted as 0, and 0 for an empty set |
| SalesData.FieldSetMembers | frontend/src/components/DataVisualization.tsx:243 | the set behind a summary count holds exactly the field values of the shown records |
| SalesData.DistinctCountBounds | frontend/src/components/DataVisualization.tsx:239-251 | each summary count is at most the number of shown records and 0 iff none is shown |
| SalesData.DistinctCountIsOptions | frontend/src/components/DataVisualization.tsx:243-251 | a summary count equals the number of distinct sorted options computed from the shown records |
| SalesData.DistinctElementsCount | frontend/src/components/DataVisualization.tsx:243 | a list without repetitions has as many elements as its set |
| SalesData.CellInAllCells | frontend/src/components/DataVisualization.tsx:110 | every value of every shown record is among the values `getMaxValue` ranges over |
| SalesData.AllCellsFromRecords | frontend/src/components/DataVisualization.tsx:110 | and those values come from the shown records only |
| SalesData.SetHasMax | frontend/src/components/DataVisualization.tsx:110 | a non-empty finite set of values has a largest element |
| SalesData.SetMax | frontend/src/components/DataVisualization.tsx:110 | the maximum is one of the values and no value exceeds it |
| SalesData.MaxValue | frontend/src/components/DataVisualization.tsx:109-111 | `getMaxValue` is absent (`-Infinity`) iff there is no value at all, and otherwise the largest value of any shown record in any year |
| SalesData.Bars | frontend/src/components/DataVisualization.tsx:126-128 | a year column has one bar per shown record |
| SalesData.BarHeightsBounded | frontend/src/components/DataVisualization.tsx:128 | with non-negative values every finite bar is between 0 and 200 pixels high |
| SalesData.MaximumBarIsFull | frontend/src/components/DataVisualization.tsx:128 | a non-zero value equal to the maximum is drawn 200 pixels high |
| SalesData.PositiveValueGivesFiniteBars | frontend/src/components/DataVisualization.tsx:127-128 | with non-negative values of which one is positive, every record that has the year gets a finite bar |
| SalesData.NoRecordsNoBars | frontend/src/components/DataVisualization.tsx:126 | with no shown record no bar is drawn |
| SalesData.Hue | frontend/src/components/DataVisualization.tsx:135 | `(index * 137.5) % 360` lies in [0, 360) and differs from `index * 137.5` by a multiple of 360 |
| SalesData.HuePeriod | frontend/src/components/DataVisualization.tsx:135 | the colours repeat every 144 records |
| SalesData.ModuloPeriod | frontend/src/components/DataVisualization.tsx:135 | adding multiples of 720 does not change a remainder modulo 720 |
| SalesData.SampleCustomerFilter | frontend/src/components/DataVisualization.tsx:15-39 | selecting "ABC Pharma" shows exactly the first four sample records |
| SalesData.SampleCustomerTotal | frontend/src/components/DataVisualization.tsx:15-39 | their 2025 total is 1.2 + 2 + 3 + 1 = 7.2 |
| SalesData.DataVisualization.constructor | frontend/src/components/DataVisualization.tsx:60-62 | every selector starts at `All` |
| SalesData.DataVisualization.ClearFilters | frontend/src/components/DataVisualization.tsx:103-107 | every selector goes back to `All` and the whole data is shown again |
| App.StepIdListIsIds | frontend/src/App.tsx:14-63 | the id list holds the ids of the eight steps, in order |
| App.StepIdListDistinct | frontend/src/App.tsx:14-63 | the eight ids are pairwise different |
| App.StepIdsDistinct | frontend/src/App.tsx:14-63 | no two analysis steps share an id |
| App.IdsOfNext | frontend/src/App.tsx:102 | finishing step `k` adds exactly its id to the completed set |
| App.DistinctIdsCount | frontend/src/App.tsx:94-103 | with distinct ids, after `k` steps exactly `k` ids are completed and no later step's id is among them |
| App.SnapshotDisplay | frontend/src/App.tsx:185-201 | while step `i` runs, the steps before it are drawn completed, step `i` current and the rest pending |
| App.FinishedDisplay | frontend/src/App.tsx:185-201 | after the loop every step is drawn completed |
| App.AnalyzeButtonReading | frontend/src/App.tsx:167 | the button is disabled while analysing whatever was uploaded, and otherwise iff nothing was uploaded |
| App.ContractSummary | frontend/src/App.tsx:142-146 | one summary line per contract, its cleaned name without title-casing |
| App.ForecastSummary | frontend/src/App.tsx:155-159 | one summary line per forecast, its cleaned name without title-casing |
| App.ContractSummaryMatchesList | frontend/src/App.tsx:144 | a contract's summary line is the name its upload list shows |
| App.ForecastSummaryMatchesList | frontend/src/App.tsx:157 | a forecast's summary line title-cased is the name its upload list shows |
| App.PageUploadLimits | frontend/src/App.tsx:119-131 | a 12 MB PDF is refused by a contract component on its default limit and accepted on the page's 15 MB; the page's forecast limit is the component default |
| App.AppState.constructor | frontend/src/App.tsx:66-71 | the page starts empty and idle with the eight analysis steps, showing only the visualization |
| App.AppState.MountUploads | frontend/src/App.tsx:119-131 | the page renders a contract component with a 15 MB limit and a forecast component with 25 MB, both empty |
| App.AppState.HandleContractUpload | frontend/src/App.tsx:73-79 | the file is appended, the result and the completed steps are reset, nothing else changes, the summary shows and the visualization hides |
| App.AppState.HandleForecastUpload | frontend/src/App.tsx:81-87 | the same for forecasts |
| App.AppState.StartAnalysis | frontend/src/App.tsx:89-108 | step `i` runs with exactly steps 0..i-1 completed and itself current; at the end the ids of all steps, as many as there are steps, are completed, none is current, the analysis is complete, the uploads are unchanged, and progress and visualization show |

## Left out

- Markup, styling, the table/chart toggle (`viewMode`) and the icons of the
  page: presentation only.
- Drag and drop, the hidden file input and `handleFileSelect`: browser event
  glue. Their loops only call `process*` once per file, in order.
- The `accept` and `multiple` props: they only configure the browser's file
  dialog.
- `formatFileSize`, `toLocaleString('de-DE')`, `toFixed(1)` and the HSL
  colour strings: floating-point formatting. Only the hue number is
  modelled.
- `uploadDate`: a clock reading.
- `Date.now()`/`Math.random()` ids and the random sheet count: these are
  parameters.
- Timer delays and the `await` between steps.
- Interleavings: an upload callback or an upload timer that fires while the
  step loop waits is not modelled. React's batching of state updates is not
  modelled either; every update is applied at once, in program order.
- `console.log`: a side effect only.
- src/App.tsx and frontend/upload_to_datapond.py are not part of this model.
  The first repeats the page's list appends and name clean-ups. The second
  is a deployment script of file and network I/O.
- Numbers are exact reals, not IEEE doubles.
  - The size test divides by a power of two, which is exact for file sizes
    below 2^53, so it agrees with the doubles.
  - Sums such as 1.2 + 2 + 3 + 1 can differ from their double rendering in
    the last digit.
- Strings.ToLower: maps ASCII letters only. JavaScript's `toLowerCase` is
  Unicode-aware and can change the length of a string. (`\w` and `\b`
  without the `u` flag are ASCII in JavaScript as well, so the title-casing
  is exact.)
- StringOrder.Less: compares Unicode scalar values. JavaScript's default sort
  compares UTF-16 code units, which order differently above U+FFFF.
- Forecasts.ValidateForecast: takes `maxFileSize` to be a whole number of
  megabytes, because the message renders it with `NatToString`. The same
  holds for Uploads.ValidatePdf, Contracts.ValidateContract and Pdfs.ValidateFile.
- SalesData.BarHeight: a single `None` covers `NaN` and `±Infinity`. The
  missing-year and zero-maximum cases are not told apart.
- SalesData.MaxValue: the values are a set. `Object.values` order and
  repetitions do not change a maximum.
- Forecasts.FileTypeIcon: returns the intended emoji U+1F4CA, U+1F4C8 and
  U+1F4CB. The source file holds them as mis-decoded bytes.
- The `'error'` upload status is kept as a constructor of `Status`, but no
  operation produces it.
