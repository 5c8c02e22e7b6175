# Employee photo processor — Dafny model

A model of the data path of a browser tool for onboarding photos. The tool
reads the employee table of a spreadsheet ("Nombre de usuario", "Código de
empleado"), derives for each row the photo's target name (`filename =
username.jpg`) and lookup key (`codigo_img = code.jpg`), pairs uploaded photos
with rows by file name, composites each matched photo onto a 640x480 canvas
over the chosen background, and offers a username/filename spreadsheet of the
results. The model also covers the state machines around that path: the
five-step wizard, the image uploader's list and the spreadsheet uploader's
file check.

Modules follow the source files:

- `ExcelUtils` (`src/utils/excelUtils.js`): table validation, derived columns
  and report rows, as pure functions.
- `ImageUtils` (`src/utils/imageUtils.js`): the processing loop as a method
  proved against the per-item function `Render`. The decoder and the JPEG
  encoder are the `Codec` parameter. Its decoder is a total function that
  may answer None. Drawing is recorded as the list of canvas operations.
- `ImageProcessor` (`src/components/ImageProcessor.jsx`): the `find`
  predicate, the `findMatches` loop proved against `Matching`/`NonMatching`,
  and the component state as a class.
- `ImageUploader`, `ExcelUploader`, `ResultsViewer` (the matching
  components) and `AppState` (`src/App.jsx`): React state becomes class
  fields. `App` holds the state shared by the steps. Each handler is one
  method whose `modifies` clause names exactly the state it sets.
- `Wrappers`, `JsStrings`, `Seqs`: Option/Result, and the JavaScript
  semantics of `lastIndexOf`, `substring`, `toLowerCase` and
  `Array.prototype.find`.
- `Scenarios`: concrete matching examples.

Behaviour worth noting:

- Matching compares `codigo_img` (which already ends in ".jpg") with both the
  lowercased file name and its base name. It does not compare the bare
  employee code with the base name. So "1001.png" is not matched to code
  1001, while "1001.jpg.png" is (`Scenarios.PngNameDoesNotMatch`,
  `Scenarios.DoubleExtensionMatches`).
- Processing has no per-item failure isolation. The first image (or custom
  background) that fails to decode rejects the whole batch. Nothing is
  stored and the wizard does not advance.
- Export produces no archive. The image download only shows an alert.

## Model

| member | source | states |
|---|---|---|
| `Seqs.FirstIndex` | src/components/ImageProcessor.jsx:31-34 | `find` returns the first element satisfying the predicate; None exactly when no element does |
| `ExcelUtils.DeriveRow` | src/utils/excelUtils.js:24-28 | the new row keeps every original column verbatim, overwrites `filename`/`codigo_img` with `${username}.jpg`/`${code}.jpg`, and satisfies `WellDerived` |
| `ExcelUtils.ProcessExcelFile` | src/utils/excelUtils.js:19-28 | fails with the format message iff the table is empty or its first row has a missing or empty username or code; otherwise it has the same length and order as the input, each row derived from its input row, with no deduplication |
| `ExcelUtils.LaterRowsUnchecked` | src/utils/excelUtils.js:19-27 | rows after the first are not validated: a later row without a username is kept and named "undefined.jpg" |
| `ExcelUtils.DerivedColumnsOverwrite` | src/utils/excelUtils.js:24-28 | a pre-existing `filename` or `codigo_img` column is replaced by the derived value |
| `ExcelUtils.ReportRows` | src/utils/excelUtils.js:38-41 | one `{Username, Filename}` row per item, row i taken from item i's employee username (absent when the cell is missing) and new name |
| `ExcelUtils.ReportRowsAppend` | src/utils/excelUtils.js:38-41 | the report distributes over concatenation: order kept, nothing merged |
| `ImageUtils.PaletteColor` | src/utils/imageUtils.js:30-36 | id 2 gives "#E6F0FF", id 3 gives "#F3F4F6", and every other id (1 or unknown) gives white "#FFFFFF" |
| `ImageUtils.PhotoBoxInsideCanvas` | src/utils/imageUtils.js:49-54 | the 280x350 box at (180,65) lies inside the 640x480 canvas |
| `ImageUtils.Composite` | src/utils/imageUtils.js:19-54 | fails iff the custom background or the photo does not decode, reporting the background first; a photo failure names the photo file; otherwise the canvas is 640x480 whatever the bitmap sizes. The background covers the whole canvas: the decoded image for a custom background, else the palette colour, white when there is no selection. The photo is stretched into the fixed box |
| `ImageUtils.Render` | src/utils/imageUtils.js:57-69 | an item fails iff its composite fails, with the composite's error; a result keeps the input entry whole and adds the data URL and the blob encoded from the composited canvas |
| `ImageUtils.ProgressMonotone` | src/utils/imageUtils.js:72 | `round((i+1)/n*100)` never decreases with i |
| `ImageUtils.ProgressEndsAtHundred` | src/utils/imageUtils.js:72 | the value after the last item is exactly 100 |
| `ImageUtils.ProgressInRange` | src/utils/imageUtils.js:72 | every progress value lies in 0..100 |
| `ImageUtils.ProgressTraceShape` | src/utils/imageUtils.js:72 | the trace of a completed batch is non-decreasing, within 0..100 and ends at 100 |
| `ImageUtils.FiveItemsProgress` | src/utils/imageUtils.js:72 | five items report 20, 40, 60, 80, 100 |
| `ImageUtils.ProcessImages` | src/utils/imageUtils.js:8-76 | succeeds iff no item fails; then output i is the rendering of input i, same length and order, and progress was reported once per item. Otherwise it rejects with the first failing item's error, no partial result, and progress reported exactly once for each earlier item |
| `ImageProcessor.BaseNameCases` | src/components/ImageProcessor.jsx:27-28 | the base name is the lowercased name before its last dot, or "" when there is no dot |
| `ImageProcessor.MatchImage` | src/components/ImageProcessor.jsx:25-48 | an image is matched iff some record satisfies the predicate; the record is the first such one in table order, and the new name is `${username}.jpg` of that record; the image is kept whole |
| `ImageProcessor.EarliestRecordWins` | src/components/ImageProcessor.jsx:31-34 | a record after another matching record is never chosen |
| `ImageProcessor.PartitionCount` | src/components/ImageProcessor.jsx:25-49 | every image lands in exactly one list: the two lengths add up to the input length |
| `ImageProcessor.PartitionMembers` | src/components/ImageProcessor.jsx:36-48 | the matching list holds only matched entries and the other only unmatched ones, all from the input |
| `ImageProcessor.PartitionAppend` | src/components/ImageProcessor.jsx:25-49 | both lists preserve input order: they distribute over concatenation of the input |
| `ImageProcessor.FindMatches` | src/components/ImageProcessor.jsx:21-53 | the loop builds exactly the matching and non-matching lists of the classified images, whose lengths add up to the number of images |
| `ImageProcessor.ProcessorView.constructor` | src/components/ImageProcessor.jsx:14-17 | progress 0, both lists empty, not started |
| `ImageProcessor.ProcessorView.OnInputsChanged` | src/components/ImageProcessor.jsx:19-58 | matching runs only with images and a non-null, non-empty table; otherwise both lists keep their values |
| `ImageProcessor.ProcessorView.HandleProcess` | src/components/ImageProcessor.jsx:85-211 | the handler (lines 85-87) sets the start flag; the button that calls it is shown only while not processing and disabled without matches (lines 183-211) |
| `ImageProcessor.ProcessorView.ProcessAllImages` | src/components/ImageProcessor.jsx:60-83 | nothing changes unless started. On success the results are stored, the step advances and progress ends at 100 (for a non-empty batch). On failure neither the results nor the step change, and progress shows the last value reported before the failure. Both flags end cleared |
| `AppState.ClampedNext` | src/App.jsx:40-42 | the next step is one more, capped at the last step (4) |
| `AppState.ClampedPrev` | src/App.jsx:44-46 | the previous step is one less, floored at 0 |
| `AppState.StepsStayInRange` | src/App.jsx:40-46 | from a step in 0..4 both moves stay in 0..4; next at 4 and previous at 0 are no-ops |
| `AppState.OutOfRangeStep` | src/App.jsx:40-50 | a step set past the end by `goToStep` is pulled back to 4 by next but only decremented by previous |
| `AppState.PanelAt` | src/App.jsx:69-113 | a panel is rendered exactly for step values 0..4 |
| `AppState.PanelsDistinct` | src/App.jsx:69-113 | different steps render different panels |
| `AppState.App.constructor` | src/App.jsx:10-15 | step 0, no employee data, no images, no processed images, no background, not processing |
| `AppState.App.NextStep` | src/App.jsx:40-42 | the step becomes the clamped successor |
| `AppState.App.PrevStep` | src/App.jsx:44-46 | the step becomes the clamped predecessor |
| `AppState.App.GoToStep` | src/App.jsx:48-50 | the step becomes exactly the argument, unchecked |
| `AppState.App.StepperClick` | src/components/Stepper.jsx:10 | a stepper click only ever moves back, to an earlier step |
| `AppState.App.CurrentPanel` | src/App.jsx:69-113 | some panel is shown iff the current step is in 0..4 |
| `ImageUploader.NoInvalidFilesIffAllImages` | src/components/ImageUploader.jsx:11-15 | the invalid-file filter is empty iff every file's type starts with "image/" |
| `ImageUploader.NewEntries` | src/components/ImageUploader.jsx:20-24 | one entry per file, in order, named after its file, no deduplication |
| `ImageUploader.RemoveAt` | src/components/ImageUploader.jsx:57-62 | exactly element i is removed; the others keep their relative order |
| `ImageUploader.RemoveAtInverse` | src/components/ImageUploader.jsx:57-62 | putting the removed element back at its index restores the list |
| `ImageUploader.Uploader.constructor` | src/components/ImageUploader.jsx:5 | no error |
| `ImageUploader.Uploader.AddSelection` | src/components/ImageUploader.jsx:7-27 | one non-image file rejects the whole selection (list unchanged, error set); otherwise the new files are appended in order and the error cleared |
| `ImageUploader.Uploader.HandleFileChange` | src/components/ImageUploader.jsx:7-27 | the selection rule above, for the file picker |
| `ImageUploader.Uploader.HandleDrop` | src/components/ImageUploader.jsx:29-51 | the same rule, for dropped files |
| `ImageUploader.Uploader.HandleRemoveImage` | src/components/ImageUploader.jsx:57-62 | the list loses exactly the element at the index |
| `ImageUploader.Uploader.HandleContinue` | src/components/ImageUploader.jsx:68-75 | with no images the error is set and the step is kept; otherwise the step advances |
| `ExcelUploader.AcceptedIffExcelSuffix` | src/components/ExcelUploader.jsx:14-17 | the extension taken from the last dot (the whole name without one), lowercased, is accepted iff the name ends in ".xlsx" or ".xls" ignoring case |
| `ExcelUploader.PreviewOf` | src/components/ExcelUploader.jsx:111-123 | the preview shows the first min(5, n) rows, and an "n - 5 more" note exactly when n > 5 |
| `ExcelUploader.Uploader.constructor` | src/components/ExcelUploader.jsx:7-8 | no file name, no error |
| `ExcelUploader.Uploader.HandleFileChange` | src/components/ExcelUploader.jsx:10-24 | no file: no change; a rejected extension sets the error and keeps the file name, reading nothing; an accepted one sets the file name, clears the error and starts the read |
| `ExcelUploader.Uploader.OnReaderLoad` | src/components/ExcelUploader.jsx:26-37 | a readable, valid table replaces the employee data; a read or format failure sets the error and keeps the old data |
| `ExcelUploader.Uploader.HandleContinue` | src/components/ExcelUploader.jsx:46-53 | with no or empty employee data the error is set and the step is kept; otherwise the step advances |
| `ResultsViewer.HandleDownloadExcel` | src/components/ResultsViewer.jsx:14-34 | saves "usuarios_imagenes.xlsx" with sheet "Usuarios_Imagenes" and one row per processed image in order, duplicates kept |
| `ResultsViewer.HandleDownloadImages` | src/components/ResultsViewer.jsx:6-12 | only an alert: no archive |
| `ResultsViewer.ExportRowsNameUsernames` | src/components/ResultsViewer.jsx:16-19 | after parsing, matching and processing, the sheet has at most one row per uploaded image and every row's filename is its username + ".jpg" |
| `Scenarios.JpgNameMatches` | src/components/ImageProcessor.jsx:27-41 | "1001.jpg" and "1001.JPG" match code 1001 and are renamed "jdoe.jpg" |
| `Scenarios.PngNameDoesNotMatch` | src/components/ImageProcessor.jsx:27-34 | "1001.png" does not match code 1001 |
| `Scenarios.DoubleExtensionMatches` | src/components/ImageProcessor.jsx:27-34 | "1001.jpg.png" matches code 1001 through its base name "1001.jpg" |
| `Scenarios.OtherCodeDoesNotMatch` | src/components/ImageProcessor.jsx:27-34 | "1002.jpg" does not match code 1001 |
| `Scenarios.NoDotEmptyBase` | src/components/ImageProcessor.jsx:28 | a name without a dot has the empty base name |

## Left out

- Canvas pixels, `createImageBitmap`, `drawImage`/`fillRect`, `toDataURL`/`toBlob` and JPEG quality 0.9: browser APIs. They become the `Codec` parameter and the recorded drawing operations.
- Spreadsheet and file I/O: `XLSX.read`, choosing the first sheet, `sheet_to_json`, `json_to_sheet`, `XLSX.write`, `FileReader`, `saveAs`. The model takes the first sheet's rows as string-keyed maps with stringified cells, or None when the workbook cannot be read. A FileReader error has no handler in the source and is not modelled.
- The falsy test on the first row treats a cell as missing or empty. A numeric cell 0, falsy in JavaScript, is not distinguished once stringified.
- `createExcelReport` computes the report rows and returns `undefined`, so only its row mapping (`ExcelUtils.ReportRows`) is modelled.
- Preview URLs (`URL.createObjectURL`/`revokeObjectURL`) are browser handles. Image entries keep only the file and its name.
- Asynchrony and React scheduling: each handler and effect is one sequential state transition. The progress callback is the returned trace of the values it received. A `null` blob from `toBlob` is not modelled.
- Percent: floating-point `Math.round((i+1)/n*100)` is modelled as the exact round-half-up `((i+1)*200 + n) / (2n)`. Float rounding error near .5 is not modelled.
- `toLowerCase`: ASCII letters only. No Unicode case mapping.
- Background ids are integers. A string id such as "2" also selects a palette colour in JavaScript and is not modelled. `BackgroundSelector` is not part of this model; only the background shape used by the processing loop is.
- Archive creation, compression and file-name collision policy, per-item failure isolation, cancellation and timeouts do not exist in the source.
- JSX layout, CSS and the Stepper's rendering, apart from its click rule.
