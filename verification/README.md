# Vehicle catalogue, admin import and financing form — a Dafny model

This project models the data logic of a small vehicle-financing web site (a React front end
with no server):

- The **admin page** (`src/pages/Admin.tsx`) has several parts:
  - `CSVProcessor` parses an uploaded CSV file of vehicle listings into records. It validates every data line and reports one message per rejected line.
  - It also serialises a template file and an export file.
  - `VehicleDB` is a browser-side key/value store of those records, keyed by `id`, plus one authentication flag.
  - The upload flow commits a file's records only when no line was rejected, optionally restricted to one of four categories.
  - The single-record form is checked field by field before a record is created or an edited record is written back.
- The **catalogue page** (`src/pages/Produk.tsx`) handles the public listing:
  - It flattens the JSON feeds of the four vehicle categories into one list, normalising each item's fields.
  - It offers the brands of the current tab that are on a fixed allow-list, sorted.
  - It narrows the list through a chain of filters: the tab, the brand tab, a free-text search, four exact selects, and year and price ranges.
  - It shows ten results per page behind a pager.
- The **application form** (`src/pages/FormPengajuan.tsx`) checks each applicant field with its own rule (required, a 16-digit NIK, an `08…` phone number, an e-mail address). Submission proceeds only when every field passes.

Modules:

| module | file | what it holds |
|---|---|---|
| `Wrappers` | wrappers.dfy | `Option` and `Result` |
| `Seqs` | seqs.dfy | order-preserving filter, subsequence, flattening, duplicate-freedom |
| `Text` | text.dfy | JavaScript `trim`, `split`/`join`, `indexOf`, `replace(/c/g, '')`, decimal digits, ASCII `toLowerCase` |
| `JsNumber` | jsnumber.dfy | `Number(s)` and `parseInt(s, 10)` on decimal integer text |
| `StringOrder` | stringorder.dfy | the order of `Array.prototype.sort` and of IndexedDB keys, taken character by character on code points, and a sort |
| `Vehicles` | vehicles.dfy | the admin record: key, eleven data columns, two timestamps |
| `Csv` | csv.dfy | `CSVProcessor`: parsing, validation, template and export |
| `CsvProperties` | csv_props.dfy | what a parse returns, and the template and export round trips |
| `Store` | store.dfy | `VehicleDB` as a class over two maps, and the laws of its writes |
| `AdminFlows` | admin.dfy | the upload, add-single, validate and edit flows as an `AdminPage` class |
| `Catalog` | catalog.dfy | normalisation, brand options, the filter chain, paging, and the page state as a `CatalogView` class |
| `Applicant` | applicant.dfy | `validateField`, the blur and change handlers and the submit gate as an `ApplicationForm` class |

Inputs from the environment are parameters:

- the clock is a `Clock` value holding one `Date.now()` reading and one ISO timestamp;
- the selected file is its text, or `None`;
- the fetched feeds are a sequence of item lists.

## Model

| member | source | states |
|---|---|---|
| `Text.Trim` | src/pages/Admin.tsx:155 | the result is empty exactly when the input is blank, has no leading or trailing white space, and leaves trimmed text alone |
| `Text.TrimStart` | src/pages/Produk.tsx:140-143 | the result is a suffix of the input whose cut-off prefix is blank and which starts with a non-space |
| `Text.TrimEnd` | src/pages/Admin.tsx:155 | the result is a prefix of the input whose cut-off suffix is blank and which ends with a non-space |
| `Text.Split` | src/pages/Admin.tsx:150 | the pieces contain no separator, and joining them with the separator gives back the text |
| `Text.SplitJoin` | src/pages/Admin.tsx:155 | splitting the join of separator-free pieces gives back exactly those pieces |
| `Text.SplitCount` | src/pages/Admin.tsx:155 | `split` on one character gives one more piece than the text has occurrences of it |
| `Text.JoinCount` | src/pages/Admin.tsx:258 | a join of n pieces holds n-1 separators when no piece holds one, and at least n when some piece does |
| `Text.RemoveChar` | src/pages/Admin.tsx:213 | `replace(/,/g, '')` leaves no comma behind, keeps every other character as often as it occurred, and keeps their order |
| `Text.RemoveCharAppend` | src/pages/Admin.tsx:213 | removing a character distributes over concatenation |
| `Text.RemoveCharAbsent` | src/pages/Admin.tsx:213 | removing a character the text lacks changes nothing |
| `Text.IndexOf` | src/pages/FormPengajuan.tsx:56 | the index is of the first occurrence of the character |
| `Text.NatStr` | src/pages/Admin.tsx:184-186 | the decimal rendering of a number is a non-empty digit string whose value is that number |
| `Text.NatStrInjective` | src/pages/Admin.tsx:184-186 | distinct numbers render as distinct strings |
| `Text.LowerCase` | src/pages/Produk.tsx:133-134 | the result has the same length, holds no upper-case ASCII letter, keeps every other character where it was, and turns each upper-case letter into its lower-case counterpart |
| `Text.LowerCaseIdempotent` | src/pages/Produk.tsx:133-134 | lower-casing twice is lower-casing once |
| `JsNumber.NumberOf` | src/pages/Admin.tsx:211-212 | `Number(s)` is a number exactly when the text is numeric, and blank text is 0 |
| `JsNumber.NumberOfNatStr` | src/pages/Produk.tsx:53 | `Number` of a rendered natural number is that number |
| `JsNumber.DigitPrefix` | src/pages/Produk.tsx:140-143 | the longest prefix of digits: all digits, followed by the end or by a non-digit |
| `JsNumber.ParseIntTrimStart` | src/pages/Produk.tsx:140-143 | `parseInt` skips leading white space and then reads a signed digit prefix |
| `JsNumber.ParseInt` | src/pages/Produk.tsx:140-143 | `parseInt(s, 10)`; `ParseIntTrimStart` and `ParseIntAgreesWithNumber` state what it reads |
| `JsNumber.ParseIntAgreesWithNumber` | src/pages/Produk.tsx:140-143 | on text that trims to an integer literal, `parseInt(s, 10)` and `Number(s)` agree |
| `StringOrder.Sort` | src/pages/Produk.tsx:96 | the result is sorted and a permutation of the input |
| `StringOrder.StrictlySortedUnique` | src/pages/Admin.tsx:62-72 | two strictly sorted lists with the same elements are equal |
| `Vehicles.ListingCells` | src/pages/Admin.tsx:240-255 | the eleven data columns in header order, read back into the same listing |
| `Csv.NonBlankLines` | src/pages/Admin.tsx:150 | every kept line is non-blank and holds no line break |
| `Csv.Cells` | src/pages/Admin.tsx:155 | every line has at least one cell |
| `Csv.ZipRow` | src/pages/Admin.tsx:172-174 | the row object has exactly the header names as its properties |
| `Csv.MissingHeaders` | src/pages/Admin.tsx:156-159 | a header is reported missing exactly when it is required and absent from the header line |
| `Csv.CheckMessage` | src/pages/Admin.tsx:204-213 | one rule's check reports that rule's message exactly when the rule is broken |
| `Csv.ReportOfMessages` | src/pages/Admin.tsx:201-216 | the messages of a run of checks are those of the broken rules among them |
| `Csv.ReportOfEmpty` | src/pages/Admin.tsx:201-216 | a run of checks reports nothing exactly when no rule in it is broken |
| `Csv.ReportOfInOrder` | src/pages/Admin.tsx:201-216 | a run of checks reports the messages of the broken rules among them, in rule order |
| `Csv.MessagesOfDistinct` | src/pages/Admin.tsx:204-213 | distinct rules report distinct messages |
| `Csv.ValidateVehicle` | src/pages/Admin.tsx:201-216 | at most one message per rule; `ValidateVehicleReports` states which messages and in what order |
| `Csv.ValidateVehicleReports` | src/pages/Admin.tsx:201-216 | `validateVehicle` reports the messages of exactly the rules the row breaks, each once, in the order the code tests them; so nothing is reported exactly for a valid listing |
| `Csv.ValidIffNothingBroken` | src/pages/Admin.tsx:204-213 | a listing is valid exactly when it breaks none of the eight rules |
| `Csv.FailsIffBroken` | src/pages/Admin.tsx:204-213 | each test as the code writes it (`!x?.trim()`, `!x \|\| !includes`, `isNaN(Number(..))`) agrees with the rule it enforces |
| `Csv.MessageInjective` | src/pages/Admin.tsx:204-213 | no two rules share a message |
| `Csv.RowOutcomes` | src/pages/Admin.tsx:167-196 | there is one outcome per data line |
| `Csv.ProcessRow` | src/pages/Admin.tsx:168-191 | one data line's fate; `ProcessRowFate` states when it is accepted, the record it becomes and the message otherwise |
| `Csv.Parse` | src/pages/Admin.tsx:149-199 | `parseCSV` as a function; `ParseFailures`, `ParseAccounting`, `ParseAcceptsOnlyValid` and `ParseErrorsLabelled` state its outcomes |
| `Csv.OutcomesSnoc` | src/pages/Admin.tsx:176-191 | each further line adds its record to the records or its message to the messages |
| `Csv.BuildRow` | src/pages/Admin.tsx:172-174 | the loop builds the row object of the header/cell pairs |
| `Csv.ParseCsv` | src/pages/Admin.tsx:149-199 | the method computes the parse the specification function defines |
| `Csv.ParseRows` | src/pages/Admin.tsx:167-196 | the row loop collects the accepted records and the messages in line order |
| `Csv.ExportRow` | src/pages/Admin.tsx:240-255 | an export row has one cell per export header |
| `Csv.ExportToCsv` | src/pages/Admin.tsx:234-263 | fails exactly on an empty list, with `No data to export`; `ExportImportRoundTrip` states what a successful export reads back as |
| `Csv.GenerateCsvTemplate` | src/pages/Admin.tsx:218-232 | the template text; `TemplateImports` states that it imports in full as its three sample records |
| `CsvProperties.ProcessRowFate` | src/pages/Admin.tsx:176-191 | a data line becomes a record exactly when its listing is valid, with the row's columns, a non-empty key (its own `id` if given, otherwise a generated one) and both timestamps set to now |
| `CsvProperties.ProcessRowAccepts` | src/pages/Admin.tsx:183-191 | a line with a valid listing is accepted as the record of its row |
| `CsvProperties.RowOutcomeAt` | src/pages/Admin.tsx:167-168 | the k-th data line is processed with line index k+1 |
| `CsvProperties.OutcomeCount` | src/pages/Admin.tsx:176-191 | every outcome is either a record or a message |
| `CsvProperties.AcceptedFrom` | src/pages/Admin.tsx:192 | every returned record comes from an accepted line |
| `CsvProperties.RejectedFrom` | src/pages/Admin.tsx:179 | every returned message comes from a rejected line |
| `CsvProperties.AllAccepted` | src/pages/Admin.tsx:176-191 | when every line is accepted, the records are exactly those lines' records and there are no messages |
| `CsvProperties.ParseFailures` | src/pages/Admin.tsx:150-162 | `parseCSV` throws exactly when there are fewer than two non-blank lines (with that message) or a required header is missing (with the missing names in order) |
| `CsvProperties.ParseAccounting` | src/pages/Admin.tsx:167-196 | every data line yields either a record or a message |
| `CsvProperties.ParseAcceptsOnlyValid` | src/pages/Admin.tsx:176-191 | every returned record has a valid listing and a key, and is stamped with the import's time |
| `CsvProperties.ParseErrorsLabelled` | src/pages/Admin.tsx:178-181 | every message starts with `Row n: ` for a data line number n between 2 and the number of non-blank lines |
| `CsvProperties.CellsOfPlainLine` | src/pages/Admin.tsx:155 | a header line of plain names is read back as those names |
| `CsvProperties.CleanQuoted` | src/pages/Admin.tsx:155 | cleaning a quoted cell gives back the trimmed cell |
| `CsvProperties.CellsOfQuotedLine` | src/pages/Admin.tsx:155 | a line of quoted safe cells is read back as the trimmed cells |
| `CsvProperties.ZipRowAt` | src/pages/Admin.tsx:172-174 | a header's cell is found under its name when no later header repeats that name |
| `CsvProperties.ListingOfRow` | src/pages/Admin.tsx:172-174 | under distinct headers that hold the required block, the row's listing is the block's cells |
| `CsvProperties.TableLines` | src/pages/Admin.tsx:257-260 | a header line plus quoted rows splits back into exactly those lines |
| `CsvProperties.ParseTable` | src/pages/Admin.tsx:149-199 | a table whose header holds every required name parses without throwing, into the outcomes of its rows |
| `CsvProperties.NoneMissing` | src/pages/Admin.tsx:159-162 | nothing is missing from a header line that holds every required name |
| `CsvProperties.ParseOfLines` | src/pages/Admin.tsx:149-199 | a text with a data line and a complete header parses into its lines' outcomes |
| `CsvProperties.TableOutcome` | src/pages/Admin.tsx:167-191 | the k-th table row is processed as line k+1 |
| `CsvProperties.ExportHeadersShape` | src/pages/Admin.tsx:239 | the export header is the key, the eleven required headers and the two timestamps |
| `CsvProperties.ExportHeadersDistinct` | src/pages/Admin.tsx:239 | the export header names are distinct |
| `CsvProperties.TemplateVehicles` | src/pages/Admin.tsx:218-232 | the template yields one record per sample row |
| `CsvProperties.SampleColumns` | src/pages/Admin.tsx:221-226 | the sample years and prices are digit strings and the categories and conditions are in their enumerations |
| `CsvProperties.SampleListingValid` | src/pages/Admin.tsx:221-226 | every sample row passes `validateVehicle` |
| `CsvProperties.TemplateImports` | src/pages/Admin.tsx:218-232 | the generated template imports in full: three records with generated keys and no rejected line |
| `CsvProperties.ExportRowSafe` | src/pages/Admin.tsx:240-255 | the cells of an exportable record hold no quote, comma or line break, and trimming gives back its key and columns |
| `CsvProperties.ExportedRowImports` | src/pages/Admin.tsx:240-260 | an exported line is accepted back as its record, restamped with the import's time |
| `CsvProperties.ExportImportRoundTrip` | src/pages/Admin.tsx:234-263 | for a non-empty list of exportable records (a plain non-empty key; data columns that pass validation and hold no comma, quote, line break or outer white space; timestamps with no comma, quote or line break), `exportToCSV` followed by `parseCSV` gives back every record in order, timestamps reset to the import's time, and no message |
| `CsvProperties.ExportParses` | src/pages/Admin.tsx:234-263 | a non-empty export succeeds with the table of its rows, which parses into those rows' outcomes |
| `CsvProperties.CommaCellSplits` | src/pages/Admin.tsx:257-260 | a written cell holding a comma makes its exported line read back as more cells than were written |
| `Store.Add` | src/pages/Admin.tsx:74-84 | `add` fails with `ConstraintError` exactly when the key is present; otherwise it inserts the record and keeps every other record |
| `Store.Put` | src/pages/Admin.tsx:86-96 | `put` stores the record under its key and keeps every other record |
| `Store.Delete` | src/pages/Admin.tsx:98-108 | `delete` removes exactly that key and keeps the rest |
| `Store.AddAll` | src/pages/Admin.tsx:659-665 | the store after the upload's add loop; `AddAllKeys`, `AddAllKeepsExisting` and `AddAllFirstWins` state what it holds |
| `Store.KeysOf` | src/pages/Admin.tsx:62-72 | the loop enumerates every key of the store exactly once |
| `Store.ListingInKeyOrder` | src/pages/Admin.tsx:62-72 | the records under the sorted keys are the store's key-ordered listing |
| `Store.VehicleDB.constructor` | src/pages/Admin.tsx:28-60 | opening the database finds the records and the flag that earlier visits stored, each record under its own key |
| `Store.VehicleDB.GetAllVehicles` | src/pages/Admin.tsx:62-72 | `getAll` returns every stored record once, in ascending key order |
| `Store.VehicleDB.AddVehicle` | src/pages/Admin.tsx:74-84 | adds the record or reports `ConstraintError` for a present key, leaving the store unchanged on failure |
| `Store.VehicleDB.UpdateVehicle` | src/pages/Admin.tsx:86-96 | insert-or-replace under the record's key, returning the key |
| `Store.VehicleDB.DeleteVehicle` | src/pages/Admin.tsx:98-108 | removes the key, present or not |
| `Store.VehicleDB.ClearAllVehicles` | src/pages/Admin.tsx:110-120 | empties the vehicle store and leaves the flag alone |
| `Store.VehicleDB.SetAuthStatus` | src/pages/Admin.tsx:122-132 | stores the flag under the key `authenticated` |
| `Store.VehicleDB.GetAuthStatus` | src/pages/Admin.tsx:134-144 | true exactly when the flag was last set to true |
| `Store.WritesKeepKeys` | src/pages/Admin.tsx:74-108 | every write keeps each record under its own key |
| `Store.AddIsPutOfFresh` | src/pages/Admin.tsx:74-96 | a successful add is a put; a failed add changes nothing |
| `Store.PutDeleteLaws` | src/pages/Admin.tsx:86-108 | put is idempotent, and delete after put forgets the put |
| `Store.DeleteAbsent` | src/pages/Admin.tsx:98-108 | deleting an absent key changes nothing |
| `Store.AddAllKeys` | src/pages/Admin.tsx:659-665 | adding records one by one, ignoring failures, stores exactly the old keys and theirs |
| `Store.AddAllKeepsExisting` | src/pages/Admin.tsx:659-665 | an upload never overwrites a stored record |
| `Store.AddAllFirstWins` | src/pages/Admin.tsx:659-665 | of new records sharing a key, the first one added is stored |
| `Store.KeyOrderUnique` | src/pages/Admin.tsx:62-72 | a store has only one key-ordered listing |
| `AdminFlows.ToAddSelects` | src/pages/Admin.tsx:641-656 | the records uploaded are the parsed records of the chosen category, in parse order |
| `AdminFlows.ToAdd` | src/pages/Admin.tsx:641-656 | the records an upload adds; `ToAddSelects`, `ToAddEverything` and `ToAddCategory` state which |
| `AdminFlows.PlanUpload` | src/pages/Admin.tsx:620-682 | the upload's outcome; `PlanCommitsOnlyClean` states when it commits and what |
| `AdminFlows.ToAddEverything` | src/pages/Admin.tsx:641-656 | with no category, or a name other than the four, every parsed record is uploaded |
| `AdminFlows.ToAddCategory` | src/pages/Admin.tsx:644-655 | under each of the four categories, a parsed record is uploaded exactly when its `kategori` and `kondisi` are that category's pair |
| `AdminFlows.PlanCommitsOnlyClean` | src/pages/Admin.tsx:620-682 | an upload commits exactly when a file is chosen, parses without throwing and has no rejected line; it then commits the category's records |
| `AdminFlows.FormErrorsInOrder` | src/pages/Admin.tsx:426-439 | the form check is the seven field checks in source order |
| `AdminFlows.FormErrors` | src/pages/Admin.tsx:426-439 | the form's error object; `FormErrorsKeys` and `FormErrorsEmpty` state its keys and messages |
| `AdminFlows.CheckAllKeys` | src/pages/Admin.tsx:426-435 | a run of field checks adds exactly the missing fields, with their messages |
| `AdminFlows.FormErrorsKeys` | src/pages/Admin.tsx:426-439 | a field has an error exactly when it is missing, and the error is that field's message |
| `AdminFlows.FormErrorsEmpty` | src/pages/Admin.tsx:437-438 | the form passes exactly when it is complete |
| `AdminFlows.ImportableIsComplete` | src/pages/Admin.tsx:201-216 | a listing the CSV importer accepts, with its `tipe` filled in, passes the form check |
| `AdminFlows.NewVehicle` | src/pages/Admin.tsx:444-452 | the record the form creates; `NewIdNotGenerated` states that its key never clashes with an imported one |
| `AdminFlows.GroupedPriceBreaksExport` | src/pages/Admin.tsx:240-260 | a record whose price is typed as `255,000,000` passes the form's check, yet its exported line holds more cells than the export header names, so it does not import back as written |
| `AdminFlows.NewIdNotGenerated` | src/pages/Admin.tsx:445-446 | a key created by the form never equals a key generated by the CSV import |
| `AdminFlows.MergeEditRoundTrip` | src/pages/Admin.tsx:479-507 | saving an unchanged edit form only moves the update stamp |
| `AdminFlows.MergeEdit` | src/pages/Admin.tsx:501-507 | the edited record; `MergeEditRoundTrip` and `MergeEditReplaces` state what it keeps and replaces |
| `AdminFlows.MergeEditReplaces` | src/pages/Admin.tsx:497-512 | saving an edit replaces the stored record under the same key, keeping its creation stamp |
| `AdminFlows.AdminPage.constructor` | src/pages/Admin.tsx:273-298 | the page mounts on the database as earlier visits left it, with no file, an empty list, an empty form and no errors |
| `AdminFlows.AdminPage.LoadVehicles` | src/pages/Admin.tsx:317-325 | the shown list becomes the store's key-ordered listing; nothing else changes |
| `AdminFlows.AdminPage.UploadClick` | src/pages/Admin.tsx:620-682 | with no file, an error; with a parse failure, the processing-error message; with rejected lines, exactly those messages and no write; otherwise the category's records are added, the list reloaded, and the file and category cleared |
| `AdminFlows.AdminPage.UploadText` | src/pages/Admin.tsx:630-676 | with a chosen file, the upload ends as the parse of its text decides, with the same outcomes and frame as `UploadClick` |
| `AdminFlows.AdminPage.FinishUpload` | src/pages/Admin.tsx:637-676 | the step after parsing either reports the rejected lines or commits the category's records |
| `AdminFlows.AdminPage.CommitUpload` | src/pages/Admin.tsx:659-676 | the store gains the records one by one, failures ignored; the status is `success` |
| `AdminFlows.AdminPage.ValidateSingleVehicleForm` | src/pages/Admin.tsx:426-439 | the error object becomes the form's errors, and the result is true exactly for a complete form |
| `AdminFlows.AdminPage.AddSingleVehicle` | src/pages/Admin.tsx:441-476 | an incomplete form writes nothing; a complete one adds `vehicle_<now>`, reloads the list, clears the form and reports success, or reports failure when the key exists; the list stays as it was unless the add succeeded, and the upload state is untouched |
| `AdminFlows.AdminPage.StoreNew` | src/pages/Admin.tsx:453-473 | a refused add shows the failure alert and keeps list and form; a fresh key is added, the list reloaded and the form cleared; the upload state is untouched |
| `AdminFlows.AdminPage.EditVehicle` | src/pages/Admin.tsx:479-495 | the record becomes the one being edited and the form shows its columns; the list, errors, notice and upload state are unchanged |
| `AdminFlows.AdminPage.UpdateVehicle` | src/pages/Admin.tsx:497-533 | with no record being edited or an incomplete form nothing is written, reloaded or alerted; otherwise the merged record replaces the stored one, the list is reloaded and the form cleared; the upload state is untouched |
| `AdminFlows.AdminPage.SaveEdit` | src/pages/Admin.tsx:501-526 | the merged record is put, the list reloaded, and the edit and form cleared; the form errors and upload state are untouched |
| `AdminFlows.CollectFormErrors` | src/pages/Admin.tsx:426-435 | the seven checks, one after another in source order, build the form's error object |
| `AdminFlows.AddEach` | src/pages/Admin.tsx:659-665 | the loop adds each record in turn, ignoring failures |
| `Catalog.NormalizeFields` | src/pages/Produk.tsx:47-60 | the normalised item carries the feed item's fields under their new names, with year and price converted by `Number` |
| `Catalog.Normalize` | src/pages/Produk.tsx:47-60 | one feed item's normalisation; `NormalizeFields` states each field it produces |
| `Catalog.NormalizeFlattened` | src/pages/Produk.tsx:45-47 | normalising the flattened feeds is flattening the normalised feeds |
| `Catalog.NormalizeAppend` | src/pages/Produk.tsx:45-47 | normalisation distributes over concatenation |
| `Catalog.ApplyAllIsFilter` | src/pages/Produk.tsx:121-143 | applying the chain of active filters one after the other is one filter by their conjunction |
| `Catalog.PriceStepsMeaning` | src/pages/Produk.tsx:142-143 | the price steps hold exactly within the entered price range |
| `Catalog.RangeStepsMeaning` | src/pages/Produk.tsx:140-143 | the year and price steps hold exactly within the entered ranges |
| `Catalog.InputStepsMeaning` | src/pages/Produk.tsx:132-143 | the search, select and range steps hold exactly for a match of the entered filters |
| `Catalog.CriteriaMeaning` | src/pages/Produk.tsx:121-143 | the active steps hold exactly for a vehicle the page should list |
| `Catalog.FilterVehicles` | src/pages/Produk.tsx:121-146 | the filter effect's chain; `FilterVehiclesSelects` and `FilteredIsSubseq` state what it keeps |
| `Catalog.FilterVehiclesSelects` | src/pages/Produk.tsx:121-146 | the filtered list is the vehicles selected by tab, brand tab and filters, in feed order |
| `Catalog.FilteredIsSubseq` | src/pages/Produk.tsx:121-146 | the filtered list is a subsequence of all vehicles, holding exactly the selected ones |
| `Catalog.NoFiltersIsTab` | src/pages/Produk.tsx:124-129 | with no brand tab and no filter, the list is the tab's vehicles, and all vehicles off the four vehicle tabs |
| `Catalog.Distinct` | src/pages/Produk.tsx:94 | `new Set` keeps each element once |
| `Catalog.Allowed` | src/pages/Produk.tsx:95 | keeps exactly the string brands on the allow-list |
| `Catalog.AllowedDistinct` | src/pages/Produk.tsx:95 | the allow-list filter keeps a list duplicate-free |
| `Catalog.OptionsFromSpec` | src/pages/Produk.tsx:94-96 | the options are strictly sorted, and a brand is offered exactly when it is allowed and some vehicle has it |
| `Catalog.BrandOptionsSpec` | src/pages/Produk.tsx:84-118 | on a car or motorcycle tab, the options are the allowed brands present among that tab's vehicles, sorted and distinct; on any other tab there are none |
| `Catalog.BrandOptions` | src/pages/Produk.tsx:84-118 | the brand effect's options; `BrandOptionsSpec` states them |
| `Catalog.HondaNotOnMotorTabs` | src/pages/Produk.tsx:10-12 | the motorcycle tabs never offer `Honda`, which is only on the car list |
| `Catalog.TotalPages` | src/pages/Produk.tsx:174 | the pages hold every result, and the last page is not empty |
| `Catalog.PageShape` | src/pages/Produk.tsx:175-176 | a page holds at most ten results, the ones at its positions |
| `Catalog.PageBeyondLastEmpty` | src/pages/Produk.tsx:174-176 | a page after the last is empty |
| `Catalog.BeyondLastPage` | src/pages/Produk.tsx:174-175 | a page after the last starts at or past the end of the list |
| `Catalog.WindowShape` | src/pages/Produk.tsx:176 | `slice` gives at most k items from the start, none past the end |
| `Catalog.PagesPrefix` | src/pages/Produk.tsx:174-176 | the first m pages together are the list's first m·k items |
| `Catalog.PagesCover` | src/pages/Produk.tsx:174-176 | all the pages together are exactly the filtered list |
| `Catalog.PagerStaysInRange` | src/pages/Produk.tsx:290-291 | the previous and next buttons keep the page between 1 and the page count, moving by one when they can |
| `Catalog.PrevPage` | src/pages/Produk.tsx:291 | `Math.max(1, p - 1)`; `PagerStaysInRange` states its range |
| `Catalog.NextPage` | src/pages/Produk.tsx:291 | `Math.min(totalPages, p + 1)`; `PagerStaysInRange` states its range |
| `Catalog.CatalogView.constructor` | src/pages/Produk.tsx:19 | the tab comes from the URL parameter, `mobil-baru` by default, and everything else is empty |
| `Catalog.CatalogView.RefreshBrands` | src/pages/Produk.tsx:84-118 | once vehicles are loaded, the options are the tab's brand options; before that they are unchanged |
| `Catalog.CatalogView.Refilter` | src/pages/Produk.tsx:121-147 | the filtered list becomes the selection and the page goes back to 1 |
| `Catalog.CatalogView.LoadFeeds` | src/pages/Produk.tsx:40-60 | all vehicles become the normalised flattened feeds, and the options and filtered list follow |
| `Catalog.CatalogView.MainTabClick` | src/pages/Produk.tsx:151-155 | the tab changes, the brand tab and filters clear, and the list becomes the new tab's vehicles; the view stays consistent, and before any vehicle is loaded the brand options stay empty |
| `Catalog.CatalogView.BrandTabClick` | src/pages/Produk.tsx:157 | the brand tab changes and the list follows; clicking the current brand tab changes nothing; the view stays consistent, and before any vehicle is loaded the brand options stay empty |
| `Catalog.CatalogView.FilterChange` | src/pages/Produk.tsx:158 | one filter field takes the new value, the list follows and the page returns to 1; the view stays consistent, and before any vehicle is loaded the brand options stay empty |
| `Catalog.CatalogView.ResetFilters` | src/pages/Produk.tsx:159-162 | the filters and brand tab clear, and the list becomes the tab's vehicles; the view stays consistent, and before any vehicle is loaded the brand options stay empty |
| `Catalog.CatalogView.PreviousPage` | src/pages/Produk.tsx:291 | the page moves back by one, never below 1; the view stays consistent, and before any vehicle is loaded the brand options stay empty |
| `Catalog.CatalogView.NextPageClick` | src/pages/Produk.tsx:291 | the page moves on by one, never past the last page; the view stays consistent, and before any vehicle is loaded the brand options stay empty |
| `Applicant.FieldsListed` | src/pages/FormPengajuan.tsx:83 | the form has the five fields, each once |
| `Applicant.FieldNamed` | src/pages/FormPengajuan.tsx:44 | a name selects the field with that key, or none when no field has it |
| `Applicant.KeysDistinct` | src/pages/FormPengajuan.tsx:44-59 | each field's key selects that field |
| `Applicant.WithValue` | src/pages/FormPengajuan.tsx:63-66 | a change sets one field and keeps the others |
| `Applicant.PhonePatternIff` | src/pages/FormPengajuan.tsx:52 | the character checks accept a phone number exactly when `/^08\d{8,11}$/` does |
| `Applicant.EmailPatternIff` | src/pages/FormPengajuan.tsx:56 | the character checks accept an address exactly when `/^[^\s@]+@[^\s@]+\.[^\s@]+$/` does |
| `Applicant.EmailCheckMatches` | src/pages/FormPengajuan.tsx:56 | an address the checks accept matches the pattern |
| `Applicant.EmailMatchChecks` | src/pages/FormPengajuan.tsx:56 | an address that matches the pattern passes the checks |
| `Applicant.PatternsNotBlank` | src/pages/FormPengajuan.tsx:46-57 | text that matches a format pattern is not blank |
| `Applicant.Message` | src/pages/FormPengajuan.tsx:45-58 | per field: the required message exactly for blank text, the format message exactly for non-blank text that fails the pattern, and `''` otherwise |
| `Applicant.ValidateField` | src/pages/FormPengajuan.tsx:43-61 | a field's name gives that field's message, and an unknown name gives `''` |
| `Applicant.CheckIsMessage` | src/pages/FormPengajuan.tsx:84 | checking a field of the form is the message for its current value |
| `Applicant.Check` | src/pages/FormPengajuan.tsx:84 | one field's check on the form data; `CheckIsMessage` and `CheckMeaning` state its result |
| `Applicant.CheckMeaning` | src/pages/FormPengajuan.tsx:82-90 | every field check passes exactly when the whole form is valid |
| `Applicant.EmptyFormRefused` | src/pages/FormPengajuan.tsx:82-93 | the empty form fails every field with its required message |
| `Applicant.CollectErrors` | src/pages/FormPengajuan.tsx:81-86 | the loop collects exactly the failing fields, each with its message |
| `Applicant.CollectOver` | src/pages/FormPengajuan.tsx:82-86 | over any list of fields, the loop collects exactly the failing ones, with their messages |
| `Applicant.ApplicationForm.constructor` | src/pages/FormPengajuan.tsx:20-24 | the form starts empty with no errors |
| `Applicant.ApplicationForm.Change` | src/pages/FormPengajuan.tsx:63-66 | one field takes the new value; the errors are unchanged |
| `Applicant.ApplicationForm.Blur` | src/pages/FormPengajuan.tsx:68-72 | the field's error becomes its check, and the other errors are kept |
| `Applicant.ApplicationForm.Submit` | src/pages/FormPengajuan.tsx:79-93 | the errors become exactly the failing fields, and submission proceeds exactly when the form is valid |

## Left out

- IndexedDB mechanics are not modelled: opening the database, versions and upgrades, transactions and asynchronous callbacks. Each store operation is its effect on the stored maps.
- Store operations never fail except `add` on a present key. Quota and I/O errors are out of scope.
- `CSVProcessor.parseCSV`: columns other than the eleven data columns and `id` are dropped from the record. Only the listing and the key are modelled.
- `CSVProcessor.parseCSV`: the per-row `try`/`catch` (Admin.tsx:193-195) is not modelled, because nothing inside it can throw on string input.
- `JsNumber.NumberOf` models `Number` on decimal integer text only. Fractions, exponents, hexadecimal, `Infinity` and floating-point rounding are not modelled.
- `JsNumber.ParseSigned` reads a decimal digit prefix. Text that `parseInt` reads as a float prefix or in another radix is not modelled.
- `Text.LowerCase` lower-cases ASCII letters only. Unicode case mapping is not modelled.
- `StringOrder.Less` compares characters by code point, where JavaScript compares UTF-16 code units. The two differ only outside the Basic Multilingual Plane.
- The initial `types`, `transmissions` and `locations` option lists (Produk.tsx:65-70) are not modelled, because the page never narrows them. The initial brand list is replaced by the tab effect as soon as vehicles load.
- `Catalog.CatalogView.LoadFeeds` takes the feeds as a value. `fetch`, `isLoading`, the error banner and a failing feed (read as `[]`) are left out.
- JSON `null` fields are not modelled. A feed field is either absent (`None`) or a string.
- The clock is read once per call (`Clock`). The code reads `new Date()` separately for each timestamp.
- `alert` and `confirm` are modelled only as the page's last notice.
- The delete and clear-all handlers of the admin page, the login and session flow, the status reset after 3 seconds, and tab switching are left out.
- The WhatsApp hand-off, the vehicle summary and the `selectVehicle`/`sessionStorage` flow are left out. So is all rendering.
- `Applicant.ApplicationForm.Blur` reads the value from the form data rather than from the event. On a controlled input the two are the same.
- `Catalog.CatalogView.NextPageClick` requires the pager to be shown (a non-empty list off the `multiguna` tab), because the page renders no button otherwise.
- Optional admin record fields are the empty string when absent. Every use of them (`x || ''`, `!x`, `x?.trim()`) treats the two alike.
- The form error objects are maps keyed by a field enumeration, not by name strings. An unknown name cannot occur in either form.
- `CsvProperties.ExportImportRoundTrip` holds only for records whose cells hold no comma, quote, line break or outer white space, because `exportToCSV` quotes every cell and `parseCSV` splits on every comma without reading quotes. `AdminFlows.GroupedPriceBreaksExport` shows a record the form accepts (price `255,000,000`) whose exported line reads back with more cells than written.
