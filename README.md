# SISTEMA_GESTION front end, modelled in Dafny

This project models the client-side logic of a case-management front end for a law practice. It is written in React and TypeScript. A case carries:

- a client, with parent data and relatives;
- a dynamic survey;
- a list of required, generated and uploaded documents;
- a progress checklist per workflow stage;
- a deadline and priority;
- a history of system events and comments.

Administrators manage users and their permissions, the workflow states and the survey questions.

The model has one Dafny module per source component or service. Each module has the same name as its component:

- Components whose state changes step by step become classes with `modifies` clauses. This covers the form, modal, drawer, editor and list state held in React hooks.
- Pure helpers become functions with named results.
- Loops in the source become methods with loop invariants. These are `requiredDocs`, `calculateProgress`, `cleanEmpty`, the option map, the permission maps, the per-id list update and the role if-chain.

Shared modules:

- `Wrappers` (Option).
- `Text`: JavaScript `trim`, `toLowerCase`, `includes`, `indexOf`, `split`, `parseInt` and number rendering.
- `Seqs`: `filter`, with order-preservation lemmas.
- `Ordering`: a stable in-place sort of an array by an integer key, standing for `sort((a, b) => a.k - b.k)` (JavaScript's `Array.prototype.sort` is stable).
- `JsRecords`: JavaScript values and truthiness, plain objects as ordered key/value lists, the object spread `{...r, [k]: v}`, `a || b`, and the `cleanEmpty` helper shared by two tabs.

Backend calls are not executed. What comes back is a parameter of the method that models the handler:

- a success flag;
- an `Outcome`;
- `Option` data.

The same applies to the clock (`Date.now()` and "today"), `crypto.randomUUID()` and the JWT decoding (`atob`, `decodeURIComponent`, `JSON.parse`). In MainLayout the decoder is a function parameter.

## Model

| member | source | states |
|---|---|---|
| DocumentsTab.FiredRules | src/components/case-tabs/DocumentsTab.tsx:74-101 | a rule fires iff it is in the table and its answer equals the expected string; the fired rules keep table order |
| DocumentsTab.CollectRequired | src/components/case-tabs/DocumentsTab.tsx:69-104 | the push loop with its counter yields the firing rules in order, numbered from 1 |
| DocumentsTab.CollectedIsNumbered | src/components/case-tabs/DocumentsTab.tsx:70-72 | turn by turn, the loop's pushes equal the numbering of the filtered rules |
| DocumentsTab.RequiredDocs | src/components/case-tabs/DocumentsTab.tsx:69-104 | one entry per fired rule, in table order; ids are 1..n; every entry is required |
| DocumentsTab.RequiredIff | src/components/case-tabs/DocumentsTab.tsx:74-101 | a document name is required iff some rule naming it fires |
| DocumentsTab.ExclusiveRules | src/components/case-tabs/DocumentsTab.tsx:81-82 | two rules on the same answer key with different expected values never both fire |
| DocumentsTab.AtMostOneMarriageDoc | src/components/case-tabs/DocumentsTab.tsx:81-82 | the marriage and the cohabitation certificates are never both required |
| DocumentsTab.GeneratedDocs | src/components/case-tabs/DocumentsTab.tsx:107-109 | exactly the PODER/CONTRATO/CARTA documents, as an order-preserving subsequence |
| DocumentsTab.AdditionalDocs | src/components/case-tabs/DocumentsTab.tsx:111-117 | exactly the documents that are neither generated nor named like a required one, in order |
| DocumentsTab.GroupsDisjoint | src/components/case-tabs/DocumentsTab.tsx:107-117 | the generated and additional groups share no document; no additional document has a required name |
| DocumentsTab.NewDoc | src/components/case-tabs/DocumentsTab.tsx:155-161 | the new entry carries the uploaded name and type UPLOADED (never generated); its id is the backend's, or the clock reading when that id is falsy |
| DocumentsTab.UploadReplaces | src/components/case-tabs/DocumentsTab.tsx:164-167 | after an upload the new entry is last, it is the only one with that name, and every entry with another name and id survives |
| DocumentsTab.AfterDelete | src/components/case-tabs/DocumentsTab.tsx:197 | an entry survives iff its id (a string or a number) is not strictly equal to the deleted one; order is kept |
| DocumentsTab.ClockIdDeletable | src/components/case-tabs/DocumentsTab.tsx:155-161 | an entry whose id is the clock reading can be deleted by that numeric id |
| DocumentsTab.DocumentList.constructor | src/components/case-tabs/DocumentsTab.tsx:53-54 | the list starts with the case's documents, and nothing is uploading |
| DocumentsTab.DocumentList.Upload | src/components/case-tabs/DocumentsTab.tsx:137-177 | a file over 5 MiB changes nothing; a successful upload replaces by name or id and appends; a failure keeps the list; the uploading mark is cleared |
| DocumentsTab.DocumentList.Delete | src/components/case-tabs/DocumentsTab.tsx:193-198 | the list loses that id, string or number, only when the user confirms and the backend accepts |
| DocumentsTab.ReplaceChar | src/components/case-tabs/DocumentsTab.tsx:187 | the global replace of one character: same length, each `from` becomes `to`, everything else kept |
| DocumentsTab.AfterFirst | src/components/case-tabs/DocumentsTab.tsx:183-185 | the string is its prefix, then the first occurrence, then the result |
| DocumentsTab.SecondPieceExample | src/components/case-tabs/DocumentsTab.tsx:184-185 | `"uploads/uploads.pdf".split('uploads')[1]` is `"/"` |
| DocumentsTab.ViewPathAsWrittenDropsName | src/components/case-tabs/DocumentsTab.tsx:183-188 | as written, the stored path `uploads/uploads.pdf` is opened as `/uploads/`, so the file name is lost |
| DocumentsTab.ViewPathAsWrittenUnder | src/components/case-tabs/DocumentsTab.tsx:183-188 | as written, a second piece that starts with `/` and has no backslash is opened right below `/uploads` |
| DocumentsTab.ViewPathAsWritten | src/components/case-tabs/DocumentsTab.tsx:183-188 | the path the code builds with `split('uploads')[1]` starts with `/` and contains no backslash |
| DocumentsTab.ViewPath | src/components/case-tabs/DocumentsTab.tsx:179-188 | the corrected path always starts with `/` and contains no backslash |
| DocumentsTab.ViewPathKeepsRemainder | src/components/case-tabs/DocumentsTab.tsx:183-187 | below `uploads`, the whole rest of the stored path is kept, with `/` for `\` |
| DocumentsTab.ViewPathAgreesOnSingleUploads | src/components/case-tabs/DocumentsTab.tsx:183-188 | the code as written and the corrected path agree when `uploads` occurs at most once |
| DocumentsTab.HandleView | src/components/case-tabs/DocumentsTab.tsx:179-191 | an empty or missing path opens nothing; otherwise the URL opened is the base URL followed by the path the code builds from the second piece |
| DocumentsTab.HandleViewIntended | src/components/case-tabs/DocumentsTab.tsx:179-191 | the corrected handler: an empty or missing path opens nothing; otherwise the base URL followed by the corrected path |
| DocumentsTab.ViewPathKeepsName | src/components/case-tabs/DocumentsTab.tsx:183-188 | the corrected path opens `uploads/uploads.pdf` as `/uploads/uploads.pdf` |
| CaseStatistics.Round | src/components/case-tabs/CaseStatistics.tsx:152 | `Math.round`: the result lies within half a unit of its input, with halves rounded up |
| CaseStatistics.CalculateProgress | src/components/case-tabs/CaseStatistics.tsx:134-153 | the accumulation loop (or the documents formula) returns the stage progress |
| CaseStatistics.StagesWeightsSumTo100 | src/components/case-tabs/CaseStatistics.tsx:23-81 | every stage of the table is well formed, and every ordinary stage's weights add up to 100 |
| CaseStatistics.WeightSumBounds | src/components/case-tabs/CaseStatistics.tsx:146-150 | the checked weights never exceed the total weight |
| CaseStatistics.ProgressInRange | src/components/case-tabs/CaseStatistics.tsx:137-152 | progress always lies in 0..100, including 0/0 and u/0 document counts |
| CaseStatistics.AllChecked | src/components/case-tabs/CaseStatistics.tsx:146-150 | with every activity checked the sum is the total weight |
| CaseStatistics.NoneChecked | src/components/case-tabs/CaseStatistics.tsx:146-150 | with nothing checked the sum is 0 |
| CaseStatistics.FullAndEmptyStages | src/components/case-tabs/CaseStatistics.tsx:145-152 | an ordinary stage of the table is at 100 with all activities checked and at 0 with none |
| CaseStatistics.DocsStageExtremes | src/components/case-tabs/CaseStatistics.tsx:137-144 | every document uploaded plus the checkbox gives 100; nothing uploaded and no checkbox gives 0 |
| CaseStatistics.WeightSumMonotone | src/components/case-tabs/CaseStatistics.tsx:146-150 | checking more activities never lowers the sum |
| CaseStatistics.ProgressMonotone | src/components/case-tabs/CaseStatistics.tsx:134-153 | checking more activities never lowers a stage's progress |
| CaseStatistics.WeightSumSameChecks | src/components/case-tabs/CaseStatistics.tsx:147 | only the truthiness of each checklist entry matters |
| CaseStatistics.StatsPanel.constructor | src/components/case-tabs/CaseStatistics.tsx:93-116 | the panel holds the loaded checklist and document counts; after a failed load, an empty checklist and `{ total: 1, uploaded: 0 }` |
| CaseStatistics.StatsPanel.Toggle | src/components/case-tabs/CaseStatistics.tsx:119-132 | a saved toggle flips the key; a failed save writes the key back to its prior value; the document counts are untouched |
| CaseStatistics.ToggleFlipsOne | src/components/case-tabs/CaseStatistics.tsx:120-121 | a toggle flips the chosen key and no other |
| CaseStatistics.RollbackKeepsProgress | src/components/case-tabs/CaseStatistics.tsx:130 | after a rollback, every stage's progress is what it was before |
| UserService.With | src/services/user.service.ts:49 | setting one flag changes that flag only |
| UserService.BuildReverseMap | src/services/user.service.ts:29-32 | the reduce loop builds the reversed table |
| UserService.ReversedTable | src/services/user.service.ts:29-32 | the reverse map holds exactly the four flag-to-code pairs |
| UserService.LookupTable | src/services/user.service.ts:21-26 | `PERMISSION_MAP` holds exactly the four code-to-flag pairs, and nothing for other codes |
| UserService.ReverseIsInverse | src/services/user.service.ts:21-32 | the reverse map is defined on every flag, and a code maps to a flag iff it is that flag's code |
| UserService.CodeOfInjective | src/services/user.service.ts:21-26 | distinct flags have distinct codes |
| UserService.FlagsFromCodes | src/services/user.service.ts:38-51 | a flag is set iff its code is in the array |
| UserService.FromBackend | src/services/user.service.ts:37-63 | the permissions come from the codes (a missing array counts as empty); the other fields are copied |
| UserService.ToBackend | src/services/user.service.ts:68-84 | present permissions become the codes of the set flags in key order; absent permissions are left out; every other field is copied |
| UserService.CodesAreSetFlags | src/services/user.service.ts:72-80 | the array holds exactly the codes of the set flags |
| UserService.CodesHaveNoDuplicates | src/services/user.service.ts:72-80 | no code is pushed twice |
| UserService.RoundTripFlags | src/services/user.service.ts:37-84 | flags to codes and back gives the same four flags |
| UserService.RoundTripCodes | src/services/user.service.ts:37-84 | codes to flags and back keeps exactly the known codes, once each |
| UserService.UserRoundTrip | src/services/user.service.ts:37-84 | a user's permissions survive a trip through the backend format |
| SurveyService.AllQuestionsConcat | src/services/survey.service.ts:16 | flattening distributes over concatenation of the sections |
| SurveyService.SectionQuestionsInPlace | src/services/survey.service.ts:16 | a section's questions appear contiguously, after those of the earlier sections; a missing list counts as empty |
| SurveyService.MapBackendType | src/services/survey.service.ts:67-77 | SINGLE_CHOICE and MULTIPLE_CHOICE become SELECT; YES_NO becomes BOOLEAN; anything else passes unchanged |
| SurveyService.MapBackendTypeIdempotent | src/services/survey.service.ts:67-77 | mapping twice is mapping once |
| SurveyService.AdaptQuestionFields | src/services/survey.service.ts:22-27 | statement falls back to title; the input type falls back to `type` and is mapped; every other field is kept |
| SurveyService.AdaptAll | src/services/survey.service.ts:22 | every question is adapted, in order |
| SurveyService.SurveyTitle | src/services/survey.service.ts:20 | the first section's title when truthy, else "Información General y Familiar" |
| SurveyTab.OptionWrites | src/components/case-tabs/SurveyTab.tsx:52-54 | each option of a question writes its id mapped to the question id, value and label |
| SurveyTab.AppliedAppend | src/components/case-tabs/SurveyTab.tsx:53 | one more write updates the map at that key |
| SurveyTab.BuildOptionMap | src/components/case-tabs/SurveyTab.tsx:46-58 | the nested loops build the map of all writes in order; no config gives the empty map |
| SurveyTab.WriteOptions | src/components/case-tabs/SurveyTab.tsx:52-54 | the inner loop applies one question's writes |
| SurveyTab.AppliedDomain | src/components/case-tabs/SurveyTab.tsx:50-56 | an option id is in the map iff some option carries it |
| SurveyTab.AppliedLastWriter | src/components/case-tabs/SurveyTab.tsx:50-56 | a later duplicate id overwrites an earlier one |
| SurveyTab.NoConfigNoOptions | src/components/case-tabs/SurveyTab.tsx:48 | without a config the map is empty |
| SurveyTab.UnconditionalQuestionsShown | src/components/case-tabs/SurveyTab.tsx:124-136 | a question without an activation option, or with an unknown one, is always shown |
| SurveyTab.ConditionalQuestionShownIff | src/components/case-tabs/SurveyTab.tsx:124-136 | a question with a known activation option is shown iff the parent's answer equals that option's value |
| SurveyTab.RenderOrder | src/components/case-tabs/SurveyTab.tsx:95 | the in-place sort leaves the questions in ascending order, as a permutation, and questions with equal order keep their relative order |
| SurveyTab.DefaultAnswer | src/components/case-tabs/SurveyTab.tsx:148 | BOOLEAN questions default to false, all others to `''` |
| SurveyTab.RequiredRule | src/components/case-tabs/SurveyTab.tsx:149 | a rule with the fixed message exactly for required questions |
| SurveyTab.FindIndex | src/components/case-tabs/SurveyTab.tsx:151 | the first option whose value equals the answer, or none when no option matches |
| SurveyTab.FindOption | src/components/case-tabs/SurveyTab.tsx:151 | an option is selected iff some option's value equals the answer, and it is the first such |
| SurveyConfigEditor.NewQuestion | src/pages/Admin/SurveyConfigEditor.tsx:133-140 | a new question gets an empty statement, TEXT, not required, order = count + 1, and no options |
| SurveyConfigEditor.BuildPayload | src/pages/Admin/SurveyConfigEditor.tsx:149-177 | only statement, required, order and options are sent; an option sends its id and no value iff that id existed, else its value; the document type is always null |
| SurveyConfigEditor.NewQuestionSendsValues | src/pages/Admin/SurveyConfigEditor.tsx:150-151 | with no question being edited, every option is sent by value |
| SurveyConfigEditor.SavedFields | src/pages/Admin/SurveyConfigEditor.tsx:198-202 | the list is updated at the editing index (the rest unchanged) or the question is appended |
| SurveyConfigEditor.SurveyEditor.constructor | src/pages/Admin/SurveyConfigEditor.tsx:91-99 | the loaded fields, with no modal, no editing index and no temporary question |
| SurveyConfigEditor.SurveyEditor.OpenModal | src/pages/Admin/SurveyConfigEditor.tsx:128-143 | the modal edits a copy of the chosen question, or a new question |
| SurveyConfigEditor.SurveyEditor.SaveFromModal | src/pages/Admin/SurveyConfigEditor.tsx:145-214 | the payload goes out only when editing; a failure other than 404 keeps the list and the modal; otherwise the list is saved and the modal closes |
| SurveyConfigEditor.AddOption | src/pages/Admin/SurveyConfigEditor.tsx:225-232 | exactly one fresh option is appended |
| SurveyConfigEditor.UpdateOption | src/pages/Admin/SurveyConfigEditor.tsx:234-239 | only one field of option `idx` changes |
| SurveyConfigEditor.RemoveAt | src/pages/Admin/SurveyConfigEditor.tsx:243 | removes exactly index `idx`, keeping the rest in order |
| SurveyConfigEditor.RemoveOption | src/pages/Admin/SurveyConfigEditor.tsx:241-245 | removes option `idx`; without options nothing changes |
| SurveyConfigEditor.RemoveAtShifts | src/pages/Admin/SurveyConfigEditor.tsx:243 | after the removal, the elements past `idx` move one place left |
| RelativesTab.OrPlaceholder | src/components/case-tabs/RelativesTab.tsx:61-65 | the value when truthy, else `'---'` |
| RelativesTab.DisplayList | src/components/case-tabs/RelativesTab.tsx:52-72 | the virtual rows followed by the stored relatives; a non-array counts as empty |
| RelativesTab.DisplayListShape | src/components/case-tabs/RelativesTab.tsx:24-72 | father first iff his name is truthy, then mother iff hers is; the virtual rows have an empty last name; the stored list follows unchanged |
| RelativesTab.VirtualRowsShape | src/components/case-tabs/RelativesTab.tsx:52-67 | the virtual list holds the father's and the mother's rows exactly when their names are truthy |
| RelativesTab.VirtualRowPlaceholders | src/components/case-tabs/RelativesTab.tsx:61-65 | a missing identification, age, phone or email shows `'---'` |
| RelativesTab.RelativesPanel.constructor | src/components/case-tabs/RelativesTab.tsx:19-21 | no relative being edited and the modal closed |
| RelativesTab.RelativesPanel.EditClick | src/components/case-tabs/RelativesTab.tsx:76-83 | a virtual row changes nothing; another row is edited in the open modal |
| RelativesTab.RelativesPanel.SaveRelative | src/components/case-tabs/RelativesTab.tsx:85-116 | no case id sends nothing; editing sends a PATCH and otherwise a POST, of the cleaned form; success closes the modal |
| RelativesTab.DeleteRequest | src/components/case-tabs/RelativesTab.tsx:124-132 | a delete is sent iff the row is not virtual and the user confirms |
| GeneralDataTab.FieldsDistinct | src/components/case-tabs/GeneralDataTab.tsx:21-46 | no form field is listed twice |
| GeneralDataTab.InitialFormKeyed | src/components/case-tabs/GeneralDataTab.tsx:21-46 | the initial form is an object over exactly the nineteen fields |
| GeneralDataTab.InitialIdNumber | src/components/case-tabs/GeneralDataTab.tsx:23 | the loaded identification number is the case's, or `''` |
| GeneralDataTab.IdNumberUnchanged | src/components/case-tabs/GeneralDataTab.tsx:48-53 | no series of change events on named inputs alters the identification number |
| GeneralDataTab.EditsKeepFields | src/components/case-tabs/GeneralDataTab.tsx:48-53 | change events on existing fields keep the form an object over the same fields |
| GeneralDataTab.GeneralDataForm.constructor | src/components/case-tabs/GeneralDataTab.tsx:21-46 | each field is the case's value, or `''` when that is falsy |
| GeneralDataTab.GeneralDataForm.Change | src/components/case-tabs/GeneralDataTab.tsx:48-53 | the named field takes the value; every other field is kept; the form keeps its nineteen fields |
| GeneralDataTab.GeneralDataForm.Save | src/components/case-tabs/GeneralDataTab.tsx:55-76 | the PATCH body is the cleaned form: each field's trimmed value, or absent when empty |
| GeneralDataTab.SavedIdNumber | src/components/case-tabs/GeneralDataTab.tsx:21-76 | whatever is typed into the named inputs, the identification number sent is the loaded one, cleaned |
| JsRecords.Or | src/services/survey.service.ts:25 | `a \|\| b`: `a` when truthy, else `b` |
| JsRecords.OrEmpty | src/components/case-tabs/GeneralDataTab.tsx:22 | `v \|\| ''` |
| JsRecords.Get | src/components/case-tabs/GeneralDataTab.tsx:51 | a missing key reads as undefined |
| JsRecords.GetKeyed | src/components/case-tabs/GeneralDataTab.tsx:51 | in an object with distinct keys, each key reads as the value stored with it |
| JsRecords.GetSet | src/components/case-tabs/GeneralDataTab.tsx:49-52 | after the spread, the key reads the new value and every other key reads as before |
| JsRecords.SetOnlyChanges | src/components/modals/AddRelativeModal.tsx:59 | the spread changes the named key and no other |
| JsRecords.Set | src/components/case-tabs/GeneralDataTab.tsx:49-52 | an existing key keeps its position; a new key is appended |
| JsRecords.SetKeyed | src/components/case-tabs/GeneralDataTab.tsx:49-52 | the spread keeps keys distinct |
| JsRecords.FormOf | src/components/modals/AddRelativeModal.tsx:37-47 | the form has exactly the listed fields, each holding the source's value or `''` |
| JsRecords.FormOfNothing | src/components/modals/AddRelativeModal.tsx:50-53 | loaded from nothing, every field is `''` |
| JsRecords.FormOfKeyed | src/components/case-tabs/GeneralDataTab.tsx:21-46 | distinct field names give a proper object |
| JsRecords.FormOfGet | src/components/modals/AddRelativeModal.tsx:37-47 | each field reads as the source's value or `''` |
| JsRecords.CleanValueTrimmed | src/components/case-tabs/RelativesTab.tsx:95-97 | a cleaned string has no surrounding whitespace |
| JsRecords.Cleaned | src/components/case-tabs/RelativesTab.tsx:91-103 | no output value is null, undefined or `''`, and every output string is trimmed |
| JsRecords.CleanEmpty | src/components/case-tabs/GeneralDataTab.tsx:59-71 | the loop over the keys computes the cleaned object |
| JsRecords.CleanedConcat | src/components/case-tabs/RelativesTab.tsx:93-101 | cleaning works key by key |
| JsRecords.CleanedNoNewKey | src/components/case-tabs/RelativesTab.tsx:91-103 | cleaning never introduces a key |
| JsRecords.CleanedKeysSubsequence | src/components/case-tabs/GeneralDataTab.tsx:59-71 | the output keys are a subsequence of the input keys |
| JsRecords.GetCleaned | src/components/case-tabs/GeneralDataTab.tsx:59-71 | on a proper object, each key reads as its trimmed value, or undefined when that is empty |
| JsRecords.CleanedOfClean | src/components/case-tabs/RelativesTab.tsx:91-103 | an already clean object is unchanged |
| JsRecords.CleanedIdempotent | src/components/case-tabs/GeneralDataTab.tsx:59-71 | cleaning twice is cleaning once |
| Text.TrimStart | src/components/modals/CancelCaseDialog.tsx:19 | the leading run of whitespace, and only that, is cut |
| Text.TrimEnd | src/components/modals/CancelCaseDialog.tsx:19 | the trailing run of whitespace, and only that, is cut |
| Text.Trim | src/components/modals/CancelCaseDialog.tsx:19 | `trim` cuts only whitespace, and leaves none at either end |
| Text.TrimIdempotent | src/components/modals/CreateCaseModal.tsx:42 | trimming twice is trimming once |
| Text.BlankIffAllWhitespace | src/components/drawers/CaseHistoryDrawer.tsx:37 | `!s.trim()` holds iff every character is whitespace |
| Text.LowerChar | src/pages/Admin/AdminUsersPage.tsx:100-101 | upper-case ASCII letters become lower case; other characters below U+00C0 are kept |
| Text.ToLower | src/pages/Admin/AdminUsersPage.tsx:100-101 | character by character lower-casing; same length |
| Text.IndexOf | src/components/case-tabs/DocumentsTab.tsx:183 | the first occurrence, or none when there is none |
| Text.ContainsIff | src/pages/DocumentsManager.tsx:62 | `includes` holds iff there is an occurrence |
| Text.ContainsEmpty | src/pages/Admin/AdminUsersPage.tsx:100 | every string includes `''` |
| Text.Split | src/components/drawers/CaseHistoryDrawer.tsx:21 | at least one piece, none containing the separator |
| Text.JoinSplit | src/components/drawers/CaseHistoryDrawer.tsx:21 | joining the pieces with the separator gives the text back |
| Text.SplitLength | src/components/drawers/CaseHistoryDrawer.tsx:21 | one more piece than there are separators |
| Text.NatToString | src/pages/GlobalTimesPage.tsx:104-106 | a non-empty string of digits |
| Text.NatToStringValue | src/pages/GlobalTimesPage.tsx:104-106 | the rendering reads back as the number |
| Text.DigitPrefix | src/components/modals/AddRelativeModal.tsx:66 | the longest leading run of digits |
| Text.ParseIntOfDigits | src/components/modals/AddRelativeModal.tsx:66 | `parseInt` of a string of digits is its decimal value |
| Text.ParseIntUnsigned | src/components/modals/AddRelativeModal.tsx:66 | a trimmed string starting with digits parses to the value of those digits, ignoring what follows |
| Text.ParseIntNegative | src/components/modals/AddRelativeModal.tsx:66 | a trimmed string of `-` and then digits parses to minus their value |
| Text.ParseIntOfIntToString | src/components/modals/AddRelativeModal.tsx:66 | `parseInt` of a rendered integer gives the integer |
| Seqs.Filter | src/pages/Admin/AdminUsersPage.tsx:99-102 | `filter` keeps exactly the elements that pass |
| Seqs.FilterConcat | src/components/case-tabs/DocumentsTab.tsx:165 | filtering distributes over concatenation |
| Seqs.FilterAll | src/pages/Admin/AdminUsersPage.tsx:99-102 | a filter every element passes is the identity |
| Seqs.FilterIsSubsequence | src/components/case-tabs/DocumentsTab.tsx:108 | a filter's result is an order-preserving subsequence |
| Ordering.SortByKey | src/pages/Admin/StatesAdminPage.tsx:48 | the in-place sort by an integer key leaves the array sorted, a permutation of itself, and stable: elements with equal keys keep their relative order |
| Ordering.InsertAt | src/pages/Admin/StatesAdminPage.tsx:48 | one insertion step grows the sorted prefix by one, keeping the array a permutation and the relative order of equal keys |
| Ordering.SwapKeepsOrderPerKey | src/pages/Admin/StatesAdminPage.tsx:48 | swapping two neighbours with different keys keeps the relative order of the elements of every key |
| GlobalTimesPage.StatusColor | src/pages/GlobalTimesPage.tsx:93-99 | default iff no deadline; error iff days left < 0; warning iff 0..5; success iff > 5 |
| GlobalTimesPage.StatusColorMonotone | src/pages/GlobalTimesPage.tsx:96-98 | fewer days left is never less urgent |
| GlobalTimesPage.StatusTextInjective | src/pages/GlobalTimesPage.tsx:101-107 | different deadlines never show the same text |
| GlobalTimesPage.StatusTextKind | src/pages/GlobalTimesPage.tsx:101-107 | the text is never shorter than five characters, and the first and fifth characters tell the four kinds of deadline apart |
| GlobalTimesPage.StatusTextAgreesWithColor | src/pages/GlobalTimesPage.tsx:93-107 | the text starts "Vencido hace " iff the colour is error; "Vence HOY" iff 0 days are left |
| GlobalTimesPage.NumberOf | src/pages/GlobalTimesPage.tsx:61-62 | `Number` of a blank duration is 0 |
| GlobalTimesPage.NumberOfDigits | src/pages/GlobalTimesPage.tsx:61-62 | `Number` of a string of digits is its decimal value |
| GlobalTimesPage.NewDeadline | src/pages/GlobalTimesPage.tsx:60-68 | a non-empty numeric duration gives today plus that many units; otherwise the existing deadline, or today |
| GlobalTimesPage.PriorityOrMedia | src/pages/GlobalTimesPage.tsx:48 | the case's priority, or MEDIA when empty |
| GlobalTimesPage.EnabledApplyUsesDuration | src/pages/GlobalTimesPage.tsx:60-68 | when Apply is enabled and the duration is a number, the deadline is computed from it |
| GlobalTimesPage.TimesEditor.constructor | src/pages/GlobalTimesPage.tsx:17-27 | the loaded cases; modal closed; duration `''`; months; MEDIA; not saving |
| GlobalTimesPage.TimesEditor.EditClick | src/pages/GlobalTimesPage.tsx:46-51 | edits the case, sets the priority (or MEDIA), clears the duration and opens the modal |
| GlobalTimesPage.TimesEditor.SaveConfig | src/pages/GlobalTimesPage.tsx:54-90 | nothing without a case; otherwise patches priority and new deadline; on success only the case with that id changes and the modal closes; saving ends false |
| GlobalTimesPage.UpdateById | src/pages/GlobalTimesPage.tsx:75-80 | same length and ids; the matching case gets the new priority and deadline; every other case is unchanged |
| AdminUsersPage.FilteredUsers | src/pages/Admin/AdminUsersPage.tsx:99-102 | a user is kept iff the lower-cased term is in the lower-cased name or email; the result is an ordered subsequence |
| AdminUsersPage.EmptyTermKeepsAll | src/pages/Admin/AdminUsersPage.tsx:99-102 | an empty search keeps every user |
| AdminUsersPage.SearchIgnoresTermCase | src/pages/Admin/AdminUsersPage.tsx:100-101 | terms that lower-case alike filter alike |
| AdminUsersPage.Toggled | src/pages/Admin/AdminUsersPage.tsx:90-94 | flips exactly the chosen flag |
| AdminUsersPage.ToggleTwice | src/pages/Admin/AdminUsersPage.tsx:87-96 | toggling twice is the identity |
| AdminUsersPage.ToggleCommutes | src/pages/Admin/AdminUsersPage.tsx:87-96 | toggles of two flags commute |
| AdminUsersPage.EditForm | src/pages/Admin/AdminUsersPage.tsx:52-57 | editing copies name, email, role and permissions, and nothing else |
| AdminUsersPage.NewUserFormDisabled | src/pages/Admin/AdminUsersPage.tsx:26-36 | the new-user form has every permission off, and its Save is disabled |
| AdminUsersPage.EditFormEnabled | src/pages/Admin/AdminUsersPage.tsx:254 | Save is enabled for an edited user iff name and email are non-empty |
| AdminUsersPage.UsersAdmin.constructor | src/pages/Admin/AdminUsersPage.tsx:17-36 | the loaded users, not loading, no search, modal closed, the new-user form |
| AdminUsersPage.UsersAdmin.Shown | src/pages/Admin/AdminUsersPage.tsx:99-102 | the users matching the current search, in order |
| AdminUsersPage.UsersAdmin.SetSearch | src/pages/Admin/AdminUsersPage.tsx:122 | only the search term changes |
| AdminUsersPage.UsersAdmin.OpenModal | src/pages/Admin/AdminUsersPage.tsx:49-73 | the modal opens on the user's copy, or on the new-user form |
| AdminUsersPage.UsersAdmin.PermissionChange | src/pages/Admin/AdminUsersPage.tsx:87-96 | flips one flag of the form; a no-op without permissions |
| AdminUsersPage.UsersAdmin.Save | src/pages/Admin/AdminUsersPage.tsx:75-85 | updates when editing and creates otherwise; an accepted request closes the modal and a successful reload replaces the list and ends loading; a rejected request keeps the modal open, and either failure keeps the list and leaves loading on |
| CaseHistoryDrawer.PieceOf | src/components/drawers/CaseHistoryDrawer.tsx:22-25 | a word is highlighted iff it starts with `@` |
| CaseHistoryDrawer.Pieces | src/components/drawers/CaseHistoryDrawer.tsx:21-26 | one piece per word, in order |
| CaseHistoryDrawer.RenderMentions | src/components/drawers/CaseHistoryDrawer.tsx:19-27 | nothing iff the text is missing or empty; one piece per space-separated word; a piece is highlighted iff it starts with `@` |
| CaseHistoryDrawer.DisplayedJoin | src/components/drawers/CaseHistoryDrawer.tsx:21-26 | the pieces display as the words joined by spaces, plus a trailing space |
| CaseHistoryDrawer.RenderKeepsText | src/components/drawers/CaseHistoryDrawer.tsx:19-27 | the rendered pieces display the text unchanged, plus a trailing space |
| CaseHistoryDrawer.EventStyle | src/components/drawers/CaseHistoryDrawer.tsx:117-133 | the step-by-step styling gives the precedence border; a comment gets the person icon and lilac background; a system event gets white |
| CaseHistoryDrawer.CommentStyleIgnoresAction | src/components/drawers/CaseHistoryDrawer.tsx:119-128 | a comment is purple whatever its action text |
| CaseHistoryDrawer.SystemDefaultBlue | src/components/drawers/CaseHistoryDrawer.tsx:121-133 | a system event matching no keyword stays blue |
| CaseHistoryDrawer.CommentBox.constructor | src/components/drawers/CaseHistoryDrawer.tsx:33-34 | empty comment, not loading |
| CaseHistoryDrawer.CommentBox.Type | src/components/drawers/CaseHistoryDrawer.tsx:79 | only the comment text changes |
| CaseHistoryDrawer.CommentBox.SendComment | src/components/drawers/CaseHistoryDrawer.tsx:36-50 | sent iff not blank, untrimmed; success clears the input and notifies; loading ends false |
| CaseHistoryDrawer.WhitespaceNeverSent | src/components/drawers/CaseHistoryDrawer.tsx:88 | a comment of whitespace keeps the button disabled |
| MainLayout.UrlToStd | src/layouts/MainLayout.tsx:38 | `-` becomes `+` and `_` becomes `/`; no URL-only character remains |
| MainLayout.StdToUrl | src/layouts/MainLayout.tsx:38 | the inverse mapping, character by character |
| MainLayout.UrlToStdRoundTrip | src/layouts/MainLayout.tsx:38 | on a segment without `+` or `/`, the mapping is undone by its inverse |
| MainLayout.UrlToStdKeepsOthers | src/layouts/MainLayout.tsx:38 | every other character is kept |
| MainLayout.DisplayName | src/layouts/MainLayout.tsx:53 | fullName, then name, then email, then 'Usuario'; always truthy |
| MainLayout.Role | src/layouts/MainLayout.tsx:42-50 | the first element of a non-empty roles array, else a truthy roles, else a truthy role, else 'Operador' |
| MainLayout.RoleOf | src/layouts/MainLayout.tsx:42-50 | the if-chain computes that role |
| MainLayout.GetUserFromToken | src/layouts/MainLayout.tsx:31-59 | no token gives empty name and role; an unreadable token gives 'Usuario'/'Desconocido'; otherwise the name and role of the payload |
| MainLayout.Effective | src/layouts/MainLayout.tsx:97 | an empty name is replaced by 'Usuario'/'Operador'; the result always has a name |
| MainLayout.Layout.constructor | src/layouts/MainLayout.tsx:69 | 'Cargando...' / '...' before the effect runs |
| MainLayout.Layout.LoadUser | src/layouts/MainLayout.tsx:95-98 | the effect stores the token's user, or the default when the name is empty |
| MainLayout.NoTokenHidesAdminMenus | src/layouts/MainLayout.tsx:31-33 | without a token the user is Usuario/Operador and the admin menus are hidden |
| MainLayout.UnreadableTokenShowsAdminMenus | src/layouts/MainLayout.tsx:56-57 | an unreadable token gives role 'Desconocido', which shows the admin menus |
| MainLayout.EmptyRolesArrayShowsAdminMenus | src/layouts/MainLayout.tsx:42-50 | an empty roles array is kept as the role, which shows the admin menus |
| AddRelativeModal.EmptyForm | src/components/modals/AddRelativeModal.tsx:20-31 | the nine fields, each `''` |
| AddRelativeModal.RelationshipChoices | src/components/modals/AddRelativeModal.tsx:16 | five distinct choices, including Conyuge and Otro |
| AddRelativeModal.Trunc | src/components/modals/AddRelativeModal.tsx:66 | truncation toward zero |
| AddRelativeModal.AgeValue | src/components/modals/AddRelativeModal.tsx:66 | a falsy age is null; otherwise a number or NaN |
| AddRelativeModal.TypedAgeRoundTrip | src/components/modals/AddRelativeModal.tsx:66 | a typed integer is sent as that integer |
| AddRelativeModal.WholeAgeKept | src/components/modals/AddRelativeModal.tsx:66 | a whole loaded age is sent unchanged |
| AddRelativeModal.RelativeForm.constructor | src/components/modals/AddRelativeModal.tsx:20-31 | the form starts empty |
| AddRelativeModal.RelativeForm.Populate | src/components/modals/AddRelativeModal.tsx:34-56 | on open, each field is copied from the relative (or `''`), or all are `''` for a new one; closed, nothing changes |
| AddRelativeModal.RelativeForm.Change | src/components/modals/AddRelativeModal.tsx:58-60 | only the named field changes |
| AddRelativeModal.RelativeForm.Submit | src/components/modals/AddRelativeModal.tsx:62-70 | a payload iff first name and relationship are truthy; its age is converted and every other field is copied |
| AddRelativeModal.EmptyFormCannotSubmit | src/components/modals/AddRelativeModal.tsx:62-63 | a new relative's empty form cannot be submitted |
| CreateCaseModal.WithField | src/components/modals/CreateCaseModal.tsx:34-39 | only the named field changes |
| CreateCaseModal.WhitespaceRefused | src/components/modals/CreateCaseModal.tsx:42 | a name or identification of whitespace is refused |
| CreateCaseModal.CaseModal.constructor | src/components/modals/CreateCaseModal.tsx:24-32 | empty form, not loading, no error |
| CreateCaseModal.CaseModal.Change | src/components/modals/CreateCaseModal.tsx:34-39 | only the named field changes |
| CreateCaseModal.CaseModal.Submit | src/components/modals/CreateCaseModal.tsx:41-68 | invalid: error set, nothing sent; valid: the form is posted; success resets it and closes; failure shows the backend message or the default; loading ends false |
| CreateCaseModal.RejectionAlwaysExplained | src/components/modals/CreateCaseModal.tsx:64 | a rejection always leaves an error to show |
| CreateCaseDialog.WithField | src/components/CreateCaseDialog.tsx:42-47 | only the named field changes |
| CreateCaseDialog.RequestOf | src/components/CreateCaseDialog.tsx:61-65 | exactly the three fields |
| CreateCaseDialog.ModalValidImpliesDialogValid | src/components/CreateCaseDialog.tsx:51 | whatever the modal accepts, the dialog accepts |
| CreateCaseDialog.WhitespaceNameOnlyDialogAccepts | src/components/CreateCaseDialog.tsx:51 | a name of spaces passes the dialog but not the modal |
| CreateCaseDialog.CaseDialog.constructor | src/components/CreateCaseDialog.tsx:28-35 | empty form, not loading, error `''` |
| CreateCaseDialog.CaseDialog.Change | src/components/CreateCaseDialog.tsx:42-47 | only the named field changes |
| CreateCaseDialog.CaseDialog.Submit | src/components/CreateCaseDialog.tsx:49-79 | invalid: error set, nothing sent; valid: the three fields are posted; success resets and closes; failure shows the backend message or 'Error al crear el caso' |
| CancelCaseDialog.CancelDialog.constructor | src/components/modals/CancelCaseDialog.tsx:15-16 | empty reason, no error |
| CancelCaseDialog.CancelDialog.Type | src/components/modals/CancelCaseDialog.tsx:48 | typing never clears the error flag |
| CancelCaseDialog.CancelDialog.Submit | src/components/modals/CancelCaseDialog.tsx:18-26 | confirmed iff not blank, with the untrimmed reason, then reset; otherwise the error flag is raised |
| CancelCaseDialog.WhitespaceReasonRefused | src/components/modals/CancelCaseDialog.tsx:19 | a whitespace reason is blank |
| CancelCaseDialog.PaddedReasonAccepted | src/components/modals/CancelCaseDialog.tsx:18-23 | a reason with any non-whitespace character is not blank |
| StatesAdminPage.BodyOf | src/pages/Admin/StatesAdminPage.tsx:72-76 | the body carries label, description and maximum days |
| StatesAdminPage.BodyIgnoresIdAndOrder | src/pages/Admin/StatesAdminPage.tsx:72-76 | the id and order never reach the body |
| StatesAdminPage.MaxDaysChip | src/pages/Admin/StatesAdminPage.tsx:134-135 | warning and filled iff maxDays > 0 |
| StatesAdminPage.SortByOrder | src/pages/Admin/StatesAdminPage.tsx:48 | sorted by order, a permutation of the loaded states, states with equal order in their loaded order |
| StatesAdminPage.StatesAdmin.constructor | src/pages/Admin/StatesAdminPage.tsx:36-41 | no states, modal closed, nothing edited |
| StatesAdminPage.StatesAdmin.Load | src/pages/Admin/StatesAdminPage.tsx:44-55 | the loaded states in workflow order, ties in their loaded order |
| StatesAdminPage.StatesAdmin.Edit | src/pages/Admin/StatesAdminPage.tsx:62-65 | a copy goes to the editor; the table is untouched |
| StatesAdminPage.StatesAdmin.ChangeLabel | src/pages/Admin/StatesAdminPage.tsx:168 | only the label of the edited state changes |
| StatesAdminPage.StatesAdmin.ChangeDescription | src/pages/Admin/StatesAdminPage.tsx:179 | only the description changes |
| StatesAdminPage.StatesAdmin.ChangeMaxDays | src/pages/Admin/StatesAdminPage.tsx:187 | only the maximum days change |
| StatesAdminPage.StatesAdmin.Save | src/pages/Admin/StatesAdminPage.tsx:68-83 | nothing without an edited state; otherwise the editable fields are patched, and success closes the modal and reloads in order |
| Dashboard.StatusColor | src/pages/Dashboard.tsx:47-55 | FINALIZADO success, ANALISIS info, RECOLECCION warning, CANCELADO error, each iff |
| Dashboard.UncolouredStatuses | src/pages/Dashboard.tsx:53 | every other status is default |
| Dashboard.StoredRole | src/pages/Dashboard.tsx:39-40 | the stored user's truthy role, else `''` |
| Dashboard.CanManageTimesIff | src/pages/Dashboard.tsx:41 | access iff the role is ADMINISTRADOR or SUPERVISOR |
| Dashboard.NoStoredUserNoAccess | src/pages/Dashboard.tsx:39-41 | no stored user means no access |
| Dashboard.TimeNavigation | src/pages/Dashboard.tsx:57-61 | navigates to /admin/times iff access is granted |
| Dashboard.ExpirationsCard | src/pages/Dashboard.tsx:108-111 | clickable iff navigation happens; the subtitle follows access |
| GlobalStaticsPage.ProgressColorOf | src/pages/GlobalStaticsPage.tsx:53-57 | error iff < 30, warning iff 30 to 70, success iff >= 70 |
| GlobalStaticsPage.ProgressColorMonotone | src/pages/GlobalStaticsPage.tsx:53-57 | a higher progress never gets a worse colour |
| DocumentsManager.SuccessTakesPrecedence | src/pages/DocumentsManager.tsx:62 | a label with listos, firmado or aprobado is success, whatever else it contains |
| DocumentsManager.PrimaryIff | src/pages/DocumentsManager.tsx:62-63 | primary iff enviado or radicado is present and no success keyword is |
| DocumentsManager.ChipColorIgnoresCase | src/pages/DocumentsManager.tsx:61 | the colour does not depend on case |
| DocumentsManager.ChipVariantOf | src/pages/DocumentsManager.tsx:165 | filled iff the colour is default |

## Left out

- HTTP requests, axios interceptors, routing, localStorage and rendering are not modelled. Their effect on state is reduced to success flags, `Outcome` values or `Option` results passed to the handlers.
- `atob`, `decodeURIComponent` and `JSON.parse` in MainLayout are a `decode` parameter. Any failure inside them is its `None`.
- `JSON.parse` failing on a malformed stored user in Dashboard is not modelled. The stored user is an `Option<Record>`.
- Calendar arithmetic (`addDays`, `addWeeks`, `addMonths`, `differenceInDays`) stays abstract. A deadline is a `When` value, and "days left" is an integer input.
- GlobalTimesPage.NumberOf: models JavaScript `Number` of a string only for optionally signed decimal integers, blank strings and rejected text. Fractions, exponents, hex and `Infinity` are read as not a number.
- StatesAdminPage.BodyOf: maximum days are an integer, so `parseInt(maxDays.toString())` is the identity. The days field stores `Number(value)`, which may be a fraction such as 2.5 (StatesAdminPage.tsx:187); `parseInt` would send 2, and that truncation is not modelled. A cleared field stores `Number('')`, which is 0 and is modelled.
- The backend error `message` may be any JSON value (a string or an array); it is an opaque `JsValue`.
- `handleChange` is called only with the names of the rendered inputs: a `Field` datatype in CreateCaseModal and CreateCaseDialog, and the editable form fields (`Editable`: the listed fields other than `id`) in GeneralDataTab. In AddRelativeModal any name is modelled.
- The `loading` flag of StatesAdminPage, and the snackbar and alert messages, are not modelled. The `loading` flag of AdminUsersPage is modelled.
- AdminUsersPage.UsersAdmin.constructor: starts from a finished first load; a first `fetchUsers` that fails, leaving the list empty and loading on, is not modelled.
- Text.ParseInt: decimal digits only. `parseInt` is called without a radix, so a string such as `0x1A` is read as hexadecimal (26) by JavaScript; the model reads it as 0. Such strings are not expected in these forms.
- `toLowerCase` covers ASCII and Latin-1 upper-case letters only.
- Record key order after `JSON` round trips is not modelled. Plain objects are ordered lists with the spread's order.
- Manual uploads and document generation are not part of this model. They only wire a browser `File` or a template name into a request.

## Findings

| source | as written | input that shows it | evidently intended | confidence | as-written member | corrected member |
|---|---|---|---|---|---|---|
| src/components/case-tabs/DocumentsTab.tsx:184-185 | `path.split('uploads')[1]` keeps only the text between the first and second `uploads` | stored path `uploads/uploads.pdf` opens `/uploads/` | keep everything after the first `uploads` (`/uploads/uploads.pdf`) | not executed | DocumentsTab.ViewPathAsWrittenDropsName | DocumentsTab.ViewPath |
