# SaluLink chronic-treatment claim workflow, modelled in Dafny

SaluLink guides a clinician through a chronic-medication claim in seven stages:

1. a clinical note, from which chronic conditions are detected;
2. the confirmation of one condition;
3. its ICD-10 codes;
4. the diagnostic and ongoing-management treatment baskets, with quantities;
5. per-procedure documentation;
6. the medicines, filtered by plan;
7. a registration note, with the case saved or exported as a claim PDF.

A saved-cases page lists what was saved and loads or exports it.

This project models the logic under those pages:

- **Reference-data lookups.** The ICD-10 codes, the treatment baskets and the medicines for a condition, and the grouping of medicines by class. The data is rows already parsed from the CSV tables.
- **Condition detection.** The keyword scan of the back end and the keyword fallback of the note page.
- **Case record and case store.** The working record, its shallow-merge update, the append-only list of saved cases and the reset.
- **The stages.** Each stage's entry guard, its selections (toggled by key), its confirm validation, its record write and its forward or back move.
- **The claim layout.** The sections in order, which of them appear, the page-break rule on the running vertical position, the rows of each table and the file name.

Modules follow the source files:

| module | models |
|---|---|
| `CsvParser` | `src/utils/csvParser.js` |
| `Routes`, `AppState` | `src/App.jsx` |
| `CaseData` | the record shape and merge used by `src/App.jsx` |
| `ClinicalNoteInput` | `Module1ClinicalNoteInput.jsx` |
| `ConditionExtraction` | `backend/app.py` |
| `ConditionConfirmation` | `Module2ConditionConfirmation.jsx` |
| `IcdCodeSelection` | `Module3ICDCodeSelection.jsx` |
| `TreatmentProtocol` | `Module4TreatmentProtocol.jsx` |
| `TreatmentDocumentation` | `Module5TreatmentDocumentation.jsx` |
| `MedicationSelection` | `Module6MedicationSelection.jsx` |
| `PatientRegistration` | `Module7PatientRegistration.jsx` |
| `ViewCases` | `ViewCases.jsx` |
| `ClaimPdf` | `src/utils/pdfGenerator.js` |
| `Workflow` | properties across the stages |

`Wrappers`, `Seqs`, `Text` and `Selection` hold the shared vocabulary:

- `Wrappers`: an option type.
- `Seqs`: filter, map and subsequence.
- `Text`: JavaScript's `trim`, `toLowerCase`, `includes` and `parseInt`.
- `Selection`: the toggle-by-key of selection lists.

How the source's state is represented:

- The application state of `App.jsx` is the class `AppState.App`, with the fields `caseData`, `currentModule` and `savedCases`.
- Each page's React state is a class whose fields are that page's state variables.
- Each handler is a method that returns the stage it navigates to.
- A CSV row is a map from column name to cell, and a missing key is `undefined`.
- The record's list fields are optional, because the pages read them as possibly `undefined`.
- `CaseData.Complete` says that all of them are present, and `App.Valid` keeps it.

Where the product's stated requirements and the code disagree, the model follows the code:

- **Quantities.** The stated requirement is that a typed quantity is clamped to between 1 and the covered count. The code stores `parseInt(q) || 1` with no clamp: a typed 7 is kept, `-3` is stored as −3, and text or 0 gives 1. The only bound is `max` as an HTML attribute of the input. See `TreatmentProtocol.TypedQuantityKept` and `NegativeQuantityKept`.
- **The confirmed condition.** The stated requirement is that it is one of the detected conditions. The confirmation page seeds its selection from the record's earlier confirmed condition, so a condition that is no longer detected can be confirmed again. See `ConditionConfirmation.StaleSeedIsKept`.
- **Medicines.** The medication confirm has no non-empty check, and an empty selection is written.

## Model

| member | source | states |
|---|---|---|
| CsvParser.IcdCodesForCondition | src/utils/csvParser.js:32-39 | one entry per row whose `CHRONIC CONDITIONS` cell equals the name, in row order, each the row's `{code, description}` |
| CsvParser.IcdRowsMember | src/utils/csvParser.js:33-35 | a row is selected iff it is in the table and its condition cell equals the name |
| CsvParser.IcdCodesAppend | src/utils/csvParser.js:32-39 | the lookup distributes over concatenated tables, so the output keeps the input order |
| CsvParser.TreatmentsForCondition | src/utils/csvParser.js:42-64 | the loop's two lists are the condition's rows of type `Diagnostic` and of type `Ongoing Management`, in row order, projected to `{description, code, covered}` |
| CsvParser.TreatmentsStep | src/utils/csvParser.js:46-61 | one iteration pushes the row into exactly the list its basket type names, and into neither for any other type |
| CsvParser.TreatmentRouting | src/utils/csvParser.js:55-59 | a matching row is in `diagnostic` iff its type is `Diagnostic`, and in `management` iff it is `Ongoing Management` |
| CsvParser.PartitionBound | src/utils/csvParser.js:46-61 | the two lists together are no longer than the condition's rows, because rows of other types are dropped |
| CsvParser.TreatmentsAppend | src/utils/csvParser.js:55-59 | both lists distribute over concatenated tables, so each list keeps the input order |
| CsvParser.MedicationOf | src/utils/csvParser.js:71-79 | `excluded` holds iff the medicine name contains `Not available`, and is false when the name is missing |
| CsvParser.MedicationsForCondition | src/utils/csvParser.js:67-86 | computes the condition's medicines, dropping the excluded ones under a truthy plan; its properties are `PlanFilter`, `MedicationsAppend` and `UnknownCondition` |
| CsvParser.PlanFilter | src/utils/csvParser.js:81-85 | with a truthy plan the result is exactly the unfiltered result without the excluded medicines; otherwise it is the unfiltered result |
| CsvParser.MedicationsAppend | src/utils/csvParser.js:67-86 | the medication lookup distributes over concatenated tables, so the output keeps the input order |
| CsvParser.UnknownCondition | src/utils/csvParser.js:32-86 | a name no row carries gives no ICD codes, no treatments and no medicines |
| CsvParser.GroupMedicationsByClass | src/utils/csvParser.js:89-101 | the groups are keyed by the distinct class names in first-seen order, and each group is that class's medications in input order (`Other` for a missing class) |
| CsvParser.DistinctClassesMember | src/utils/csvParser.js:92-96 | a key is a group key iff some medication has that class name |
| CsvParser.DistinctClassesDistinct | src/utils/csvParser.js:94-96 | each group key is created once |
| CsvParser.ClassCountStep | src/utils/csvParser.js:92-98 | one more medication adds one to exactly the count of its own class |
| CsvParser.ClassCountAll | src/utils/csvParser.js:92-98 | the per-class counts over the group keys add up to the number of medications |
| CsvParser.GroupSizesMatch | src/utils/csvParser.js:92-98 | the group sizes are the per-class counts |
| CsvParser.GroupingPreservesCount | src/utils/csvParser.js:89-101 | the groups together hold as many medications as the input |
| CsvParser.GroupOfEachMedication | src/utils/csvParser.js:92-98 | every medication is in the group of its class and in no other, and every group is a subsequence of the input |
| Routes.TrimTrailingSlashes | src/App.jsx:65-145 | drops exactly the trailing `/` characters of a path: the result is a prefix ending in no `/`, and everything cut off is `/` |
| Routes.RouteToStage | src/App.jsx:65-145 | a path selects a stage whose route it matches, letter case and trailing slashes ignored, or the note page |
| Routes.Order | src/App.jsx:65-144 | the stages are numbered 1 to 8 in page order |
| Routes.PathRoundTrip | src/App.jsx:65-144 | each stage's path leads back to that stage |
| Routes.UnknownPathRedirects | src/App.jsx:145 | a path that matches no route, even ignoring letter case and trailing slashes, redirects to `/` |
| Routes.SameIgnoringCaseIff | src/App.jsx:65-144 | two paths match ignoring case iff their lowercased forms are equal |
| Routes.TrimLower | src/App.jsx:65-144 | trimming trailing slashes and lowercasing commute |
| Routes.PathsTrimmed | src/App.jsx:65-144 | every route path other than `/` ends in no slash, and `/` trims to the empty path |
| Routes.SameRoutes | src/App.jsx:65-145 | two paths that match the same routes select the same stage |
| Routes.RouteIgnoresCase | src/App.jsx:65-145 | a path and its lowercased form select the same stage |
| Routes.RouteIgnoresTrailingSlash | src/App.jsx:65-145 | a path with one more trailing slash selects the same stage |
| CaseData.InitialRecordIsEmpty | src/App.jsx:14-56 | the starting record and the reset record are the same: empty note texts, empty lists and documentation, no condition, no stamps; every list is present |
| CaseData.Merge | src/App.jsx:29-31 | computes `{ ...prev, ...updates }`; its properties are `MergeField`, `MergeFields`, `MergeKeepsComplete`, `MergeNoUpdate`, `MergeThen` and `MergeIdempotent` |
| CaseData.MergeField | src/App.jsx:29-31 | after `{ ...prev, ...updates }` a key holds the update's value if the update carries it, and the previous value otherwise |
| CaseData.MergeFields | src/App.jsx:29-31 | the same for every key at once, including `id` and `date`, which no update writes |
| CaseData.MergeKeepsComplete | src/App.jsx:29-31 | an update never removes a list, so a record with every list present keeps them |
| CaseData.FieldsDetermineRecord | src/App.jsx:14-24 | two records that agree on every key are equal |
| CaseData.MergeNoUpdate | src/App.jsx:29-31 | the empty update leaves the record as it was |
| CaseData.MergeThen | src/App.jsx:29-31 | two successive updates are one update of the combined keys, the later winning |
| CaseData.MergeIdempotent | src/App.jsx:29-31 | applying the same update twice is applying it once |
| CaseData.Stamp | src/App.jsx:34-38 | the saved copy agrees with the record on every key but `id` and `date`, which are the time and the ISO date |
| AppState.App.constructor | src/App.jsx:14-27 | the application starts with the initial record, module 1 and no saved cases |
| AppState.App.UpdateCaseData | src/App.jsx:29-31 | the record becomes the merge of the old record and the update, and stays complete |
| AppState.App.SaveCase | src/App.jsx:33-41 | returns the stamped record and appends exactly it to the saved cases; the working record is not modified |
| AppState.App.StartNewCase | src/App.jsx:43-56 | the record is reset to the initial record and the module to 1; the saved cases are not modified |
| AppState.App.SetCaseData | src/modules/ViewCases.jsx:15 | the record is replaced wholesale |
| AppState.App.SetCurrentModule | src/modules/ViewCases.jsx:16 | the current module is set |
| ConditionExtraction.Conditions | backend/app.py:27-33 | the condition named by each rule of a keyword table, in table order |
| ConditionExtraction.TableConditions | backend/app.py:18-33 | the keyword table names the five chronic conditions in their listed order, each once |
| ConditionExtraction.ExtractConditions | backend/app.py:35-53 | the result is the keyword scan of the lowercased text, plus `Diabetes Mellitus Type 2` when no diabetes label was found and the text says `diabetes` or `diabetic` |
| ConditionExtraction.ScanKeywords | backend/app.py:40-45 | the nested loop with `break` lists, in table order, each condition one of whose keywords occurs in the text |
| ConditionExtraction.ConditionsPrefix | backend/app.py:43-44 | with distinct table conditions, the condition now scanned is not yet in the list, so the append adds no duplicate |
| ConditionExtraction.MatchedSubseq | backend/app.py:40-45 | the scan's result follows the table's order |
| ConditionExtraction.MatchedMember | backend/app.py:40-45 | a table condition is reported iff one of its keywords occurs |
| ConditionExtraction.FallbackOrdered | backend/app.py:47-51 | the generic-diabetes default keeps the result in table order |
| ConditionExtraction.ExtractionOrdered | backend/app.py:35-53 | every label is one of the five chronic conditions, in table order, with no duplicates |
| ConditionExtraction.ExtractionMember | backend/app.py:35-53 | a condition is reported iff a keyword of its own occurs in the lowercased text, or it is type 2 and the generic default applies |
| ConditionExtraction.MatchedNothing | backend/app.py:40-45 | a text with no keyword gives an empty scan |
| ConditionExtraction.EmptyNote | backend/app.py:38-53 | the result may be empty: an empty text detects nothing, with no default label |
| ClinicalNoteInput.MockConditions | src/modules/Module1ClinicalNoteInput.jsx:41-62 | the conditional pushes produce the conditions whose test fires on the lowercased note, in fixed order, or `Hypertension` when none fires |
| ClinicalNoteInput.FallbackShape | src/modules/Module1ClinicalNoteInput.jsx:44-62 | the fallback is never empty, follows the fixed order, has no duplicates, and names only chronic conditions |
| ClinicalNoteInput.FallbackMember | src/modules/Module1ClinicalNoteInput.jsx:44-62 | a condition is listed iff its test fires, or it is `Hypertension` and no test fires |
| ClinicalNoteInput.BothDiabetesTypes | src/modules/Module1ClinicalNoteInput.jsx:50-55 | a note with `diabetes`, `insulin` and `metformin` yields both diabetes types |
| ClinicalNoteInput.OnlyOneFires | src/modules/Module1ClinicalNoteInput.jsx:44-62 | when exactly one test fires, the fallback is that one condition alone |
| ClinicalNoteInput.DetectedFor | src/modules/Module1ClinicalNoteInput.jsx:24-62 | computes the detected list written: the answer's `conditions` or `[]`, or the keyword fallback when the back end cannot be reached; its property is `FallbackLeavesAChoice` |
| ClinicalNoteInput.FallbackLeavesAChoice | src/modules/Module1ClinicalNoteInput.jsx:39-67 | when the back end cannot be reached, the detected list written is never empty |
| ClinicalNoteInput.NoteInputPage.constructor | src/modules/Module1ClinicalNoteInput.jsx:8-10 | the note starts as the record's note, with no error |
| ClinicalNoteInput.NoteInputPage.EditNote | src/modules/Module1ClinicalNoteInput.jsx:90 | the typed text becomes the note |
| ClinicalNoteInput.NoteInputPage.HandleAnalyze | src/modules/Module1ClinicalNoteInput.jsx:12-73 | a blank note sets the error, writes nothing and stays; otherwise the note and the detected list (the answer's `conditions` or `[]`, or the fallback) are written together and the confirmation follows |
| ConditionConfirmation.Redirect | src/modules/Module2ConditionConfirmation.jsx:9-14 | the page redirects to `/` iff the detected list is absent or empty |
| ConditionConfirmation.Seed | src/modules/Module2ConditionConfirmation.jsx:7 | the selection starts as the earlier confirmed condition when it is non-empty, else none |
| ConditionConfirmation.ConfirmationPage.constructor | src/modules/Module2ConditionConfirmation.jsx:7 | the selection starts as the seed |
| ConditionConfirmation.ConfirmationPage.Select | src/modules/Module2ConditionConfirmation.jsx:50-53 | a click selects one of the detected conditions |
| ConditionConfirmation.ConfirmationPage.HandleConfirm | src/modules/Module2ConditionConfirmation.jsx:16-24 | with no selection it alerts, writes nothing and stays; otherwise it writes `confirmedCondition` and moves to the ICD-10 stage |
| ConditionConfirmation.ConfirmationPage.HandleBack | src/modules/Module2ConditionConfirmation.jsx:26-28 | back moves to `/` |
| ConditionConfirmation.ConfirmedIsOffered | src/modules/Module2ConditionConfirmation.jsx:7 | a confirmed condition is the seed or one of the detected conditions |
| ConditionConfirmation.StaleSeedIsKept | src/modules/Module2ConditionConfirmation.jsx:7 | an earlier confirmation that is not among the detected conditions is still on offer |
| IcdCodeSelection.Redirect | src/modules/Module3ICDCodeSelection.jsx:12-20 | the page redirects to the confirmation iff no condition is confirmed |
| IcdCodeSelection.OfferedCodes | src/modules/Module3ICDCodeSelection.jsx:22-32 | an entry is offered iff it is the projection of a row of the confirmed condition |
| IcdCodeSelection.IcdSelectionPage.constructor | src/modules/Module3ICDCodeSelection.jsx:9 | the selection starts as the record's codes, or empty |
| IcdCodeSelection.IcdSelectionPage.LoadIcdCodes | src/modules/Module3ICDCodeSelection.jsx:22-32 | the offered codes are the ICD lookup for the condition |
| IcdCodeSelection.IcdSelectionPage.ToggleCodeSelection | src/modules/Module3ICDCodeSelection.jsx:34-42 | the code is selected afterwards iff it was not before; distinct codes stay distinct; toggling a new code twice restores the list |
| IcdCodeSelection.IcdSelectionPage.HandleConfirm | src/modules/Module3ICDCodeSelection.jsx:44-52 | an empty selection alerts, writes nothing and stays; otherwise it writes `selectedICDCodes` and moves to the treatments |
| IcdCodeSelection.IcdSelectionPage.HandleBack | src/modules/Module3ICDCodeSelection.jsx:54-56 | back moves to the confirmation |
| Selection.RemoveKey | src/modules/Module3ICDCodeSelection.jsx:36-38 | removes every entry with the key and keeps every other entry |
| Selection.Toggle | src/modules/Module3ICDCodeSelection.jsx:34-42 | the toggled key is present afterwards iff it was absent before, and no other key changes |
| Selection.FilterKeyMember | src/modules/Module3ICDCodeSelection.jsx:37 | the filter keeps exactly the entries with another key |
| Selection.RemoveAbsentKey | src/modules/Module3ICDCodeSelection.jsx:37 | removing a key that is not present changes nothing |
| Selection.ToggleTwice | src/modules/Module3ICDCodeSelection.jsx:34-42 | toggling the same new key twice restores the list |
| Selection.ToggleKeepsKeysDistinct | src/modules/Module3ICDCodeSelection.jsx:34-42 | a list with distinct keys keeps them distinct |
| Selection.SubseqKeysDistinct | src/modules/Module3ICDCodeSelection.jsx:37 | a subsequence of a list with distinct keys has distinct keys, all from that list |
| TreatmentProtocol.Redirect | src/modules/Module4TreatmentProtocol.jsx:15-22 | the page redirects to the ICD-10 stage iff no condition is confirmed |
| TreatmentProtocol.QuantityFromInput | src/modules/Module4TreatmentProtocol.jsx:78 | the stored quantity is the parsed integer when that is non-zero, else 1; it is never 0 |
| TreatmentProtocol.SetQuantity | src/modules/Module4TreatmentProtocol.jsx:75-85 | items with the code get the typed quantity and every other item is unchanged |
| TreatmentProtocol.SplitTreatments | src/modules/Module4TreatmentProtocol.jsx:31-46 | the page's loop yields the lookup's two baskets, each item at quantity 1 |
| TreatmentProtocol.SplitStep | src/modules/Module4TreatmentProtocol.jsx:31-46 | one iteration pushes the row into exactly the basket its type names |
| TreatmentProtocol.OfferedMatchesLookup | src/modules/Module4TreatmentProtocol.jsx:31-46 | each offered item is the lookup's treatment with quantity 1 |
| TreatmentProtocol.SetQuantityKeepsCodes | src/modules/Module4TreatmentProtocol.jsx:75-85 | a quantity edit keeps every item's code and every selected key |
| TreatmentProtocol.TypedQuantityKept | src/modules/Module4TreatmentProtocol.jsx:78 | a typed positive number is stored as is; there is no clamp to the covered count |
| TreatmentProtocol.NegativeQuantityKept | src/modules/Module4TreatmentProtocol.jsx:78 | `-3` is stored as −3 |
| TreatmentProtocol.TextQuantityIsOne | src/modules/Module4TreatmentProtocol.jsx:78 | text that is not a number is stored as 1 |
| TreatmentProtocol.ZeroQuantityIsOne | src/modules/Module4TreatmentProtocol.jsx:78 | `0` is stored as 1 |
| TreatmentProtocol.TreatmentPage.constructor | src/modules/Module4TreatmentProtocol.jsx:11-12 | the selections start as the record's baskets, or empty |
| TreatmentProtocol.TreatmentPage.LoadTreatments | src/modules/Module4TreatmentProtocol.jsx:24-55 | the offered lists are the condition's diagnostic and management rows at quantity 1 |
| TreatmentProtocol.TreatmentPage.ToggleTestSelection | src/modules/Module4TreatmentProtocol.jsx:57-73 | toggles the item by code in the tab's basket; the other basket is unchanged |
| TreatmentProtocol.TreatmentPage.UpdateQuantity | src/modules/Module4TreatmentProtocol.jsx:75-85 | sets the quantity of the items with the code in the tab's basket; the other basket is unchanged |
| TreatmentProtocol.TreatmentPage.HandleConfirm | src/modules/Module4TreatmentProtocol.jsx:87-98 | two empty baskets alert, write nothing and stay; otherwise both baskets are written and the documentation follows |
| TreatmentProtocol.TreatmentPage.HandleBack | src/modules/Module4TreatmentProtocol.jsx:100-102 | back moves to the ICD-10 stage |
| TreatmentDocumentation.Redirect | src/modules/Module5TreatmentDocumentation.jsx:11-15 | the page redirects to the treatments iff both baskets are absent; empty baskets pass |
| TreatmentDocumentation.Combined | src/modules/Module5TreatmentDocumentation.jsx:17-22 | the diagnostic items tagged `Diagnostic`, then the management items tagged `Management`, in order |
| TreatmentDocumentation.NoteAndFileCommute | src/modules/Module5TreatmentDocumentation.jsx:25-53 | a note and a file for the same code end up together whichever comes first |
| TreatmentDocumentation.CombinedOfWrittenBaskets | src/modules/Module5TreatmentDocumentation.jsx:11-22 | after the treatments are confirmed, the page lets the record in and lists one entry per selected test |
| TreatmentDocumentation.DocumentationPage.constructor | src/modules/Module5TreatmentDocumentation.jsx:8 | the documentation starts as the record's, or empty |
| TreatmentDocumentation.DocumentationPage.CombineTests | src/modules/Module5TreatmentDocumentation.jsx:17-22 | the list shown is the combined list of the record |
| TreatmentDocumentation.DocumentationPage.HandleTextChange | src/modules/Module5TreatmentDocumentation.jsx:25-33 | the code's note becomes the text, its file is kept, and every other code is unchanged |
| TreatmentDocumentation.DocumentationPage.HandleFileUpload | src/modules/Module5TreatmentDocumentation.jsx:35-53 | with a file, the code's file becomes `{name, data}` and its note is kept; without one nothing changes |
| TreatmentDocumentation.DocumentationPage.HandleConfirm | src/modules/Module5TreatmentDocumentation.jsx:55-58 | writes `documentation` and moves to the medications |
| TreatmentDocumentation.DocumentationPage.HandleSkip | src/modules/Module5TreatmentDocumentation.jsx:60-62 | moves to the medications without writing |
| TreatmentDocumentation.DocumentationPage.HandleBack | src/modules/Module5TreatmentDocumentation.jsx:64-66 | back moves to the treatments |
| MedicationSelection.Redirect | src/modules/Module6MedicationSelection.jsx:13-20 | the page redirects to the documentation iff no condition is confirmed |
| MedicationSelection.FilterByPlan | src/modules/Module6MedicationSelection.jsx:61-72 | a medicine is shown iff the plan is `all` or it is not excluded; the tier is not consulted |
| MedicationSelection.Offered | src/modules/Module6MedicationSelection.jsx:26-36 | computes the page's mapping of the medicine rows; its property is `OfferedIsLookup` |
| MedicationSelection.VisibleClasses | src/modules/Module6MedicationSelection.jsx:128-130 | computes the classes shown under a plan; its property is `VisibleClassesMember` |
| MedicationSelection.OfferedIsLookup | src/modules/Module6MedicationSelection.jsx:26-36 | the page's row mapping is the unfiltered medication lookup |
| MedicationSelection.PlanFilterIsLookup | src/modules/Module6MedicationSelection.jsx:61-72 | under a plan other than `all`, the medicines shown are the lookup's result for that plan |
| MedicationSelection.VisibleClassesMember | src/modules/Module6MedicationSelection.jsx:128-130 | a class is shown iff some of its medicines pass the plan filter |
| MedicationSelection.MedicationPage.constructor | src/modules/Module6MedicationSelection.jsx:9-10 | the selection starts as the record's medicines, or empty, under the plan `all` |
| MedicationSelection.MedicationPage.LoadMedications | src/modules/Module6MedicationSelection.jsx:22-45 | the groups are the grouping by class of the condition's medicines |
| MedicationSelection.MedicationPage.SetPlanFilter | src/modules/Module6MedicationSelection.jsx:114 | the chosen plan becomes the filter |
| MedicationSelection.MedicationPage.ToggleMedication | src/modules/Module6MedicationSelection.jsx:47-59 | toggles by the pair of name and active ingredient; distinct pairs stay distinct |
| MedicationSelection.MedicationPage.ClickMedication | src/modules/Module6MedicationSelection.jsx:157 | a click on an excluded medicine changes nothing, so a selection with no excluded medicine keeps none |
| MedicationSelection.MedicationPage.HandleConfirm | src/modules/Module6MedicationSelection.jsx:74-77 | writes `selectedMedications` with no check, even empty, and moves to the registration |
| MedicationSelection.MedicationPage.HandleBack | src/modules/Module6MedicationSelection.jsx:79-81 | back moves to the documentation |
| PatientRegistration.RegistrationPage.constructor | src/modules/Module7PatientRegistration.jsx:9 | the note starts as the record's registration note |
| PatientRegistration.RegistrationPage.EditNote | src/modules/Module7PatientRegistration.jsx:130 | the typed text becomes the note |
| PatientRegistration.RegistrationPage.HandleSaveCase | src/modules/Module7PatientRegistration.jsx:12-23 | the note is written into the record, and the record as rendered is stamped and appended to the saved cases, with no validation |
| PatientRegistration.RegistrationPage.HandleExportPdf | src/modules/Module7PatientRegistration.jsx:25-36 | the note is written into the record; the claim is the layout of the record with only the note replaced, or a failure message |
| PatientRegistration.RegistrationPage.HandleBack | src/modules/Module7PatientRegistration.jsx:38-40 | back moves to the medications |
| PatientRegistration.ExportedRecordIsWritten | src/modules/Module7PatientRegistration.jsx:26-30 | the record the claim is drawn from equals the working record after the note write |
| PatientRegistration.ExportedNoteSection | src/modules/Module7PatientRegistration.jsx:26-30 | the exported claim has a registration section iff the typed note is non-empty |
| PatientRegistration.SavedCaseAgreesWithRecord | src/modules/Module7PatientRegistration.jsx:14-17 | after a save, the saved case and the working record differ only in the stamps and the registration note |
| ViewCases.LengthOr | src/modules/ViewCases.jsx:98-105 | the length of a present list, and 0 for an absent one |
| ViewCases.CaseTitle | src/modules/ViewCases.jsx:78 | the case's condition, or `Untitled Case` when it has none |
| ViewCases.CaseListPage.constructor | src/modules/ViewCases.jsx:8 | no case is shown at first |
| ViewCases.CaseListPage.HandleViewCase | src/modules/ViewCases.jsx:10-12 | the clicked case is shown, and exactly the cases with its id are highlighted |
| ViewCases.CaseListPage.HandleLoadCase | src/modules/ViewCases.jsx:14-18 | the record becomes the saved case as it is, stamps included, the module becomes 7, and the registration follows |
| ViewCases.CaseListPage.HandleExportCase | src/modules/ViewCases.jsx:20-28 | the claim of the saved case, or a failure message; the saved cases are not touched |
| ViewCases.TestsCountIsCombined | src/modules/ViewCases.jsx:101-102 | the tests count is the length of the documentation page's combined list |
| ViewCases.StampKeepsCounts | src/modules/ViewCases.jsx:98-105 | a saved case has the counts of the record it was saved from |
| ViewCases.CountsAreClaimRows | src/modules/ViewCases.jsx:98-105 | the counts shown are the numbers of rows in the claim's tables, and a count is positive iff its table is present |
| ViewCases.HighlightIsUnique | src/modules/ViewCases.jsx:69 | among cases with distinct ids, viewing one highlights it and no other |
| ClaimPdf.Emit | src/utils/pdfGenerator.js:69-96 | a left-out section writes nothing and keeps the position; an included one is placed by the page-break rule with its contents, and moves the position past itself |
| ClaimPdf.WriteTable | src/utils/pdfGenerator.js:45-158 | a list section is written iff its list is present and non-empty, after a page break on its threshold |
| ClaimPdf.WriteRegistration | src/utils/pdfGenerator.js:161-176 | the registration note is written iff it is non-empty, after a page break beyond 250 |
| ClaimPdf.GenerateClaimPdf | src/utils/pdfGenerator.js:4-183 | the running position is threaded through the sections exactly as the layout says, and the file name is `SaluLink_Claim_<ms>.pdf` |
| ClaimPdf.LayoutFrom | src/utils/pdfGenerator.js:45-176 | computes the blocks of the given section kinds from a starting position; its properties are `LayoutFromCons`, `LayoutFromPrefix`, `LayoutFromKinds`, `LayoutFromBlocks` and `LayoutFromChained` |
| ClaimPdf.Layout | src/utils/pdfGenerator.js:4-176 | computes the whole claim layout; its properties are `LayoutOfSections`, `LayoutSections`, `LayoutHasSection`, `LayoutPlaced`, `LayoutChained` and `LayoutOpening` |
| ClaimPdf.ClaimFilename | src/utils/pdfGenerator.js:179-182 | computes the file name; its properties are `ClaimFilenameParts` and `ClaimFilenameInjective` |
| ClaimPdf.LayoutFromCons | src/utils/pdfGenerator.js:7-176 | the layout is the first section, then the rest from where it left the position |
| ClaimPdf.LayoutFromPrefix | src/utils/pdfGenerator.js:7-176 | the sections written so far followed by the remaining layout |
| ClaimPdf.LayoutOfSections | src/utils/pdfGenerator.js:9-176 | the layout is the eight sections' blocks concatenated, each reached where the previous one left the position |
| ClaimPdf.LayoutFromKinds | src/utils/pdfGenerator.js:45-176 | the kinds of the blocks are the included kinds, in order |
| ClaimPdf.LayoutFromBlocks | src/utils/pdfGenerator.js:45-176 | every block obeys the page-break rule and shows its section's contents |
| ClaimPdf.LayoutFromChained | src/utils/pdfGenerator.js:7-176 | each block is reached at the position the previous one left |
| ClaimPdf.LayoutSections | src/utils/pdfGenerator.js:9-176 | the sections are the fixed order (header, note, condition, ICD, diagnostic, management, medications, registration) restricted to the included ones |
| ClaimPdf.LayoutHasSection | src/utils/pdfGenerator.js:45-161 | a section appears iff it is included |
| ClaimPdf.RegistrationIncluded | src/utils/pdfGenerator.js:161 | the registration note is included iff it is non-empty |
| ClaimPdf.LayoutHasNote | src/utils/pdfGenerator.js:161-176 | the claim has a registration section iff the note is non-empty |
| ClaimPdf.LayoutPlaced | src/utils/pdfGenerator.js:70-165 | a page is added iff the section has a threshold (250, or 220 for medicines) and the position is beyond it, the page then starting at 20; the first four sections never break |
| ClaimPdf.LayoutChained | src/utils/pdfGenerator.js:7-176 | the first block is reached at 20 and each later one where the previous one left |
| ClaimPdf.LayoutOpening | src/utils/pdfGenerator.js:9-42 | the claim always opens with the header and today's date, the clinical note, and the condition (`N/A` when absent) |
| ClaimPdf.OpeningContents | src/utils/pdfGenerator.js:9-42 | the header, note and condition sections are always included, with those contents |
| ClaimPdf.ClaimFilenameParts | src/utils/pdfGenerator.js:179-182 | the file name is `SaluLink_Claim_`, then the decimal time, then `.pdf`, and the time reads back from it |
| ClaimPdf.ClaimFilenameInjective | src/utils/pdfGenerator.js:179-182 | distinct times give distinct file names |
| Workflow.Guard | src/App.jsx:65-144 | a stage's guard, if it redirects, sends to an earlier stage |
| Workflow.Settle | src/App.jsx:65-144 | following the redirects ends at a stage that lets the record in, never later than the start, and a stage that lets the record in keeps it |
| Workflow.SettleIdempotent | src/App.jsx:65-144 | following the redirects again goes nowhere |
| Workflow.UnconfirmedSettles | src/modules/Module3ICDCodeSelection.jsx:12-20 | without a confirmed condition the ICD-10 and treatment pages end at the confirmation, or at the note when nothing was detected |
| Workflow.MedicationsUnconfirmed | src/modules/Module6MedicationSelection.jsx:13-20 | without a confirmed condition the medication page ends at the documentation when a basket is present, and else as the confirmation's guard says |
| Workflow.InitialRecordSettles | src/App.jsx:14-24 | from the initial record the stages up to the treatments end at the note, and the documentation and medication stages end at the documentation |
| Workflow.DetectionOpensConfirmation | src/modules/Module1ClinicalNoteInput.jsx:29-35 | a note write with a non-empty detected list lets the confirmation in |
| Workflow.ConfirmOpensLaterStages | src/modules/Module2ConditionConfirmation.jsx:22-23 | a confirmed condition lets the ICD-10, treatment and medication pages in |
| Workflow.BasketsOpenDocumentation | src/modules/Module4TreatmentProtocol.jsx:93-97 | writing both baskets, even empty, lets the documentation in |
| Workflow.QuantitiesStaySet | src/modules/Module4TreatmentProtocol.jsx:31-85 | offered items start at a non-zero quantity and an edit never stores 0 |
| Workflow.SetQuantitiesArePrinted | src/utils/pdfGenerator.js:83 | with every quantity non-zero, the claim prints each item's quantity and never the covered count |
| Text.Trim | src/modules/Module1ClinicalNoteInput.jsx:13 | computes JavaScript's `trim`; its properties are `TrimStart`, `TrimEnd` and `TrimEmptyIff` |
| Text.Contains | src/modules/Module1ClinicalNoteInput.jsx:44-58 | computes `includes`; its property is `ContainsIff`, with `ContainsAt` and `NotContains` |
| Text.ParseInt | src/modules/Module4TreatmentProtocol.jsx:78 | computes `parseInt(quantity)` on decimal text, as a number or `NaN`; its properties are `DigitPrefix`, `ParseIntNeedsDigit`, `ParseIntDecimal` and `ParseIntNatToString` |
| Text.TrimStart | src/modules/Module1ClinicalNoteInput.jsx:13 | drops exactly the leading whitespace |
| Text.TrimEnd | src/modules/Module1ClinicalNoteInput.jsx:13 | drops exactly the trailing whitespace |
| Text.TrimEmptyIff | src/modules/Module1ClinicalNoteInput.jsx:13-16 | a note trims to nothing iff every character is whitespace |
| Text.ToLower | src/modules/Module1ClinicalNoteInput.jsx:42 | the lowercased note has the note's length and no upper-case letter |
| Text.ToLowerIdempotent | backend/app.py:37 | lowercasing twice is lowercasing once |
| Text.ContainsIff | src/modules/Module1ClinicalNoteInput.jsx:44-58 | `includes` holds iff the word occurs at some position |
| Text.ContainsAt | src/modules/Module1ClinicalNoteInput.jsx:44-58 | an occurrence at a position makes `includes` hold |
| Text.NotContains | src/modules/Module1ClinicalNoteInput.jsx:44-58 | a word that matches at no position is not included |
| Text.DigitChar | src/utils/pdfGenerator.js:180 | a decimal digit's character is between `0` and `9` |
| Text.NatToString | src/utils/pdfGenerator.js:180 | the decimal form of a number is non-empty, all digits, with no leading zero |
| Text.DigitPrefix | src/modules/Module4TreatmentProtocol.jsx:78 | `parseInt` reads the longest prefix of digits and stops at the first other character |
| Text.ParseIntNeedsDigit | src/modules/Module4TreatmentProtocol.jsx:78 | a text with no digit parses to `NaN` |
| Text.DigitPrefixOfDigits | src/modules/Module4TreatmentProtocol.jsx:78 | a text of digits is read whole |
| Text.NatToStringValue | src/utils/pdfGenerator.js:180 | the decimal form of a number reads back to the number |
| Text.ParseIntDecimal | src/modules/Module4TreatmentProtocol.jsx:78 | a non-empty text of decimal digits parses to its value |
| Text.ParseIntNatToString | src/modules/Module4TreatmentProtocol.jsx:78 | the decimal form of a number parses back to it |

## Left out

- The rendering: JSX, styling, the sidebar, the logo and the Tailwind configuration. Only the state that the handlers read and write is modelled.
- `src/utils/api.js`: the HTTP call is an input. The model takes the back end's answer, or the failure to reach it, as the `Analysis` parameter.
- The ClinicalBERT model and its loading (`backend/app.py:10-15`, `55-83`) and the Flask routes (`backend/app.py:85-150`). These are a machine-learning model and an HTTP layer, not deterministic logic.
- `parseCSV` and `loadCSVFile` (`src/utils/csvParser.js:4-29`). The lookups start from rows already parsed; a failed load is the empty table.
- The drawing done by jsPDF and jspdf-autotable: fonts, colours and coordinates on the page. The number of lines the note wraps to and the position where a table ends (`lastAutoTable.finalY`) are inputs (`Metrics`).
- An exception thrown by the drawing library is the boolean `drawingFails`, so its message is not modelled.
- `FileReader` runs asynchronously; only its completion is modelled (`HandleFileUpload` with the file read, or none).
- The `setTimeout` before the save message and the `isSaving`, `loading` and `isAnalyzing` flags. They affect only what is displayed while a handler runs.
- `Date.now()`, `toISOString()` and `toLocaleDateString()` are method parameters. The date formatting of the saved-cases list (`formatDate`, `src/modules/ViewCases.jsx:30-39`) is left out, because it depends on the locale.
- PatientRegistration.RegistrationPage.HandleSaveCase: React batches state updates. The model therefore states that `saveCase` stamps the record the page was rendered with, which does not yet hold the freshly typed note, and does not claim that the saved case contains that note.
- CsvParser.GroupMedicationsByClass: JavaScript enumerates integer-like object keys first. The model keeps the order in which the class names are first seen.
- Text.ToLower: lowercases ASCII letters only, not the whole of Unicode.
- Routes.RouteToStage: percent-escapes in the path (`%2D` for `-`) are not decoded before matching, so such a path falls to the redirect. Letter case is compared through ASCII lowercasing, which agrees with the router's case-insensitive match because every route path is ASCII.
- Text.ParseIntDecimal: ignores the floating-point rounding of very long digit strings and does not model `Infinity`.
- TreatmentDocumentation.PropertyKey: a missing code is the property key `"undefined"`, as JavaScript turns it into a string. No other conversion to a string is modelled.
- ClinicalNoteInput.OnlyOneFires: the sample note about type 2 diabetes on metformin is covered by this general lemma (only the type 2 test fires), not by a lemma about that sentence.
