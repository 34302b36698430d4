# Data Alchemist — a Dafny model of the validation and rule-building core

Data Alchemist is a web application that loads three spreadsheets (clients,
tasks, workers), validates them, lets the user build business rules over
them, and filters rows with a small natural-language query language. This
project models its core in Dafny 4.11 and proves properties of the model.
It covers:

- **the dataset validators** (`Validators`, `ValidatorProps`). There are eight
  checks: required columns, unique identifiers, mandatory fields, numeric
  ranges, non-negative integers, JSON syntax, cross-references and
  MaxConcurrent. `ValidateData` joins them per sheet in the source's order.
  The checks run over a loosely typed cell model (`Cells`). In it, a cell is
  a string, a number carrying its JavaScript text, or `null`, and an absent
  key reads as `undefined`. JavaScript's `Number(...)`, `trim`, `split`,
  `toLowerCase` and `length` are written out in `JsNumber` and `JsText`;
  `length` counts UTF-16 code units, so a character outside the Basic
  Multilingual Plane counts twice.
- **the rule types and rule validators** (`RuleTypes`, `RuleValidators`,
  `RuleProps`). Each rule message is a constructor rather than a formatted
  string. `ValidateRules` emits four blocks in order: invalid co-run groups,
  invalid phase restrictions, invalid load limits, then duplicate keys.
- **the rule builders' handlers** (`Editor`, `ListEdit`, `PhaseSet`,
  `CoRunBuilder`, `PhaseRestrictionBuilder`, `LoadLimitBuilder`,
  `PriorityWeightsBuilder`, `RuleBuilder`). The three list editors share one
  panel state: a draft, an adding flag, an optional edited index, and the
  last messages. Each handler is a pure transition that also returns the
  list it hands to `onUpdate`, or nothing. `RuleBuilder` models the page
  state, which is the rules, a validation re-run by the effect, and the
  download gate.
- **the natural-language filter** (`NlFilter`). It is split in two.
  `Classify` turns a query and an entity kind into a `Query` descriptor,
  following the chain of `includes` tests. `Eval` applies a descriptor to one
  row, with JavaScript's comparison semantics.

Two behaviours of the code are easy to misread, so the model states them:

- Editing a rule field replaces only the draft. The messages of a rejected
  save stay on screen until the next save (`Editor.SetDraft`).
- `parseList` calls `.split` on the raw RequestedTaskIDs cell. A non-zero
  numeric cell therefore makes validation throw, and a zero cell, being
  falsy, gives no identifiers (`Validators.NumericRequestListThrows`).
  `Validators.ValidateData` does not copy this: it reads a numeric cell as
  its text (`Validators.ParseCell`). This is the second finding below.

## Model

| member | source | states |
|---|---|---|
| Cells.FieldExistsTruthy | lib/validators.ts:11-13 | `fieldExists` holds iff the key is present and the cell is truthy or a number, so it differs from truthiness only at the number 0 |
| Cells.ValidNumberExists | lib/validators.ts:16-26 | `isValidNumber` is `fieldExists` plus a conversion that is not `NaN`; `isInteger` adds that the conversion is whole |
| Cells.BlankTextIsZero | lib/validators.ts:16-26 | a cell of white space only converts to 0 and passes both number checks |
| JsNumber.StringToNumber | lib/validators.ts:18 | `Number` of an empty or all-white text is 0, and of a text whose first non-white character cannot begin a number is `NaN` |
| JsNumber.UnsignedDecimalStart | lib/validators.ts:18 | a text whose first character cannot begin a number is no decimal literal |
| JsText.Utf16Length | lib/nlFilter.ts:120 | `t.length` lies between the character count and twice it, equals the character count iff no character is astral, and is twice it iff every character is |
| JsText.Utf16LengthConcat | lib/nlFilter.ts:120 | the length of a concatenation is the sum of the lengths |
| Cells.IsIntegerOfNumber | lib/validators.ts:22-26 | on a numeric cell `isInteger` is exactly `Number.isInteger`, and the cell is always a valid number |
| Cells.TruthyText | lib/validators.ts:78-80 | an identifier is taken only from a truthy cell, and then as its text; a text cell gives its own string unless it is empty |
| Validators.ErrorsAt | lib/validators.ts:4-8 | the errors for one display row are exactly the errors tagged with that row |
| Validators.ErrorsAtConcat | lib/validators.ts:276-297 | selecting one row's errors commutes with concatenating check results |
| Validators.ErrorsAtUniform | lib/validators.ts:105-116 | a batch of errors all tagged with row m contributes to row n exactly when m = n |
| Validators.ForEachRowAt | lib/validators.ts:105-116 | a row-wise check reports at row n exactly what its per-row check gives for sheet index n - 1, and nothing at row 0 or past the end |
| Validators.ForEachRowRows | lib/validators.ts:124-150 | every error of a row-wise check names a sheet row between 1 and the length, and a column |
| Validators.ForEachRowEmpty | lib/validators.ts:124-150 | a row-wise check is silent iff every row passes |
| Validators.MissingColumns | lib/validators.ts:54 | the missing columns are exactly the required columns the first row has no key for |
| Validators.ValidateRequiredColumns | lib/validators.ts:36-64 | an empty sheet gets the single "no data" error; otherwise there is no error iff every required column is a key of the first row; at most one error, at row 0 and with no column, whose message names every missing column, comma-separated, in the order of the required list |
| Validators.RequiredColumnsFirstRowOnly | lib/validators.ts:53-54 | rows after the first never change the outcome |
| Validators.SeenIds | lib/validators.ts:75-89 | the seen set holds exactly the texts of the truthy identifiers |
| Validators.ScanUniqueIds | lib/validators.ts:67-93 | the one-pass scan with a set of seen texts yields the declarative duplicate list |
| Validators.DuplicateAtPrefix | lib/validators.ts:77-90 | whether a row is a duplicate depends only on earlier rows |
| Validators.UniqueIdErrorsAt | lib/validators.ts:77-90 | row n is reported exactly once when its identifier text already occurred in an earlier row, and never otherwise; the first occurrence is never reported |
| Validators.UniqueIdErrorsRows | lib/validators.ts:81-85 | every duplicate error names a sheet row and the identifier column |
| Validators.UniqueIdErrorsEmpty | lib/validators.ts:67-93 | the uniqueness check is silent iff no row repeats an earlier identifier |
| Validators.MissingFieldErrors | lib/validators.ts:106-114 | one error per listed field the row holds no value for, in list order: the i-th error names the i-th missing field. The error for field f appears iff f is listed and missing, and there is none iff every field exists |
| Validators.MissingFieldErrorsSingle | lib/validators.ts:106-114 | a one-field list yields that field's error exactly when the field is missing |
| Validators.MandatoryRow | lib/validators.ts:96-118 | a row gets at most one mandatory-field error, for the kind's name column, iff that field is missing, null or empty |
| Validators.RangeRow | lib/validators.ts:124-148 | a row gets at most one range error. It is none iff a present client PriorityLevel is an integer in 1..5 and a present task Duration is a number of at least 1. The column matches the kind |
| Validators.NonNegativeRow | lib/validators.ts:158-182 | one error per present AvailableSlots or MaxLoadPerPhase that is not a non-negative integer, slots first and load last; an error names a field iff that field is bad, and its message is the field's name followed by "must be a non-negative integer" |
| Validators.OptionalPair | lib/validators.ts:158-182 | two independent optional errors for different columns appear in order, each column named iff its error is present |
| Validators.ValidateNonNegativeIntegers | lib/validators.ts:154-186 | sheets other than workers are never checked |
| Validators.JsonRow | lib/validators.ts:193-205 | at most one error per row, iff a present AttributesJSON text is not JSON |
| Validators.ValidateJsonSyntax | lib/validators.ts:189-209 | sheets other than clients are never checked |
| Validators.TrimAll | lib/validators.ts:32 | each piece is trimmed in place |
| Validators.ParseList | lib/validators.ts:29-33 | every token is non-empty, trimmed and free of `,` and `;` |
| Validators.TrimAllClean | lib/validators.ts:32 | trimming separator-free pieces yields trimmed pieces that are still free of separators |
| Validators.ParseListOfJoin | lib/validators.ts:29-33 | a list of clean tokens joined with commas parses back to itself |
| Validators.SplitOfJoin | lib/validators.ts:32 | splitting a comma-joined list of separator-free tokens gives the tokens back |
| Validators.UnknownReferenceErrorInjective | lib/validators.ts:229-233 | distinct unknown identifiers give distinct messages |
| Validators.UnknownReferences | lib/validators.ts:227-235 | one error per requested token that is not a task identifier, in request order and with repeats: the i-th error names the i-th unknown token. A message for t appears iff t is requested and unknown, and there is none iff every requested identifier is known |
| Validators.CrossReferenceRow | lib/validators.ts:223-237 | a client row has no reference error iff its present request list names only known task identifiers |
| Validators.NumericRequestListThrows | lib/validators.ts:225 | as written, the numeric RequestedTaskIDs cell 5 makes `parseList` throw, while the cell 0 gives no tokens; the corrected reading gives the single token "5" for 5 and none for 0 |
| Validators.ParseListAsWritten | lib/validators.ts:29-33 | `parseList` on a raw cell: a falsy cell gives no tokens, a string is split, and a non-zero number throws (`None`) |
| Validators.ParseCell | lib/validators.ts:29-33 | the corrected reading: a falsy cell gives no tokens, any other cell is parsed from its text, so every token is non-empty and trimmed |
| Validators.ParseCellAgrees | lib/validators.ts:29-33 | the code throws exactly on a non-zero numeric cell, and wherever it does not throw it gives what the corrected reading gives |
| Validators.RequestedTaskIds | lib/validators.ts:225 | a client's requested identifiers are its cell read by the corrected reading, which for a text cell is `parseList` of the text |
| Validators.ValidateUniqueIds | lib/validators.ts:67-93 | every error names a sheet row and the identifier column, and there is none iff no row repeats an earlier identifier |
| Validators.ValidateMandatoryFields | lib/validators.ts:96-118 | errors name sheet rows only, and there is none iff every row holds the kind's name field |
| Validators.ValidateNumericRanges | lib/validators.ts:121-151 | errors name sheet rows only, and there is none iff every row is within the ranges of its kind |
| Validators.ValidateCrossReferences | lib/validators.ts:212-240 | errors name client rows only, and there is none iff every present request list names only task identifiers |
| Validators.ClientErrors | lib/validators.ts:277-283 | an empty clients sheet gets exactly the "no data" error |
| Validators.TaskErrors | lib/validators.ts:284-290 | an empty tasks sheet gets exactly the "no data" error |
| Validators.WorkerErrors | lib/validators.ts:291-296 | an empty workers sheet gets exactly the "no data" error |
| Validators.ValidateData | lib/validators.ts:271-305 | each empty sheet's list is exactly its "no data" error |
| Validators.MaxConcurrentRow | lib/validators.ts:247-264 | an absent or empty MaxConcurrent gives "is required"; a present one gives "must be an integer >= 1" iff it is not a whole number of at least 1 |
| Validators.ValidateMaxConcurrent | lib/validators.ts:243-268 | sheets other than tasks are never checked |
| ValidatorProps.RowChecksReportOwnRow | lib/validators.ts:105-264 | every per-row check tags its errors with the row it was given and names a column |
| ValidatorProps.EmptySheetSingleError | lib/validators.ts:45-51 | an empty sheet's list is exactly the "no data" error, whatever the other sheets hold, so no cross-reference check runs |
| ValidatorProps.RowsWithinConcat | lib/validators.ts:276-297 | the row bounds survive concatenation of check results |
| ValidatorProps.RowWiseRowsWithin | lib/validators.ts:105-264 | a row-wise check's errors lie within the sheet's rows |
| ValidatorProps.ErrorRowsInRange | lib/validators.ts:271-305 | in every list, sheet-level errors are row 0 without a column, and every other error names a column and a row of its own sheet |
| ValidatorProps.MaxConcurrentPerRow | lib/validators.ts:247-264 | each task row gets at most one MaxConcurrent error, and which one is determined by the field |
| ValidatorProps.NonNegativePerRow | lib/validators.ts:154-186 | only worker rows are checked; a worker row gets one error per offending field, and an error names a field iff that field is bad |
| ValidatorProps.NumericRangesPerRow | lib/validators.ts:121-151 | at most one range error per row, with the exact condition per kind; worker rows are never flagged |
| ValidatorProps.CrossReferencesLast | lib/validators.ts:299-302 | the clients list ends with the cross-reference errors; these run only when both sheets have rows, and no earlier check names RequestedTaskIDs |
| ValidatorProps.FrontColumns | lib/validators.ts:277-283 | the client checks before cross-references never name RequestedTaskIDs |
| ValidatorProps.ReferenceColumns | lib/validators.ts:229-233 | cross-reference errors always name RequestedTaskIDs |
| ValidatorProps.ForEachRowColumns | lib/validators.ts:105-116 | the columns a row-wise check names are those its per-row check can name |
| ValidatorProps.MandatoryEmpty | lib/validators.ts:96-118 | the mandatory check is silent iff every row has its name field |
| ValidatorProps.RangesEmpty | lib/validators.ts:121-151 | the range check is silent iff every row is within range |
| ValidatorProps.JsonEmpty | lib/validators.ts:189-209 | the JSON check is silent iff every present AttributesJSON is JSON |
| ValidatorProps.ReferencesEmpty | lib/validators.ts:212-240 | the cross-reference check is silent iff every client names only known tasks |
| ValidatorProps.MaxConcurrentEmpty | lib/validators.ts:243-268 | the MaxConcurrent check is silent iff every task has a whole MaxConcurrent of at least 1 |
| ValidatorProps.NonNegativeEmpty | lib/validators.ts:154-186 | the worker count check is silent iff no row has a bad slot count or load |
| ValidatorProps.RequiredEmpty | lib/validators.ts:36-64 | the column check is silent iff the sheet has rows and its first row has every required column |
| ValidatorProps.UniqueEmpty | lib/validators.ts:67-93 | the uniqueness check is silent iff no identifier text repeats |
| ValidatorProps.FrontEmpty | lib/validators.ts:277-283 | the client checks before cross-references are silent iff columns, identifiers and every row are in order |
| ValidatorProps.ClientRowsOk | lib/validators.ts:280-282 | the mandatory, range and JSON checks on clients are silent iff every client row has a name, a valid priority when present and valid JSON when present |
| ValidatorProps.ClientsValidIff | lib/validators.ts:276-302 | the clients list is empty iff the clients sheet meets every client condition |
| ValidatorProps.TaskRowsOk | lib/validators.ts:287-289 | the mandatory, range and MaxConcurrent checks on tasks are silent iff every task row has a name, a valid duration when present and a valid MaxConcurrent |
| ValidatorProps.TasksValidIff | lib/validators.ts:284-290 | the tasks list is empty iff the tasks sheet meets every task condition |
| ValidatorProps.WorkersValidIff | lib/validators.ts:291-296 | the workers list is empty iff the workers sheet meets every worker condition |
| ValidatorProps.RepeatedIdsExample | lib/validators.ts:77-90 | for identifiers A, A, B, A only rows 2 and 4 are reported |
| ValidatorProps.TrimAllExample | lib/validators.ts:32 | trimming the pieces of "T1;T2, T9" gives T1, T2, T9 |
| ValidatorProps.ParseMixedSeparators | lib/validators.ts:29-33 | "T1;T2, T9" parses to T1, T2, T9 |
| ValidatorProps.UnknownT9 | lib/validators.ts:227-235 | against tasks T1 and T2 only T9 is reported |
| ValidatorProps.MixedSeparatorsExample | lib/validators.ts:223-237 | a client requesting "T1;T2, T9" against tasks T1 and T2 gets exactly one error, for T9 |
| RuleTypes.CreateEmptyRules | lib/ruleTypes.ts:32-40 | no groups, restrictions or limits, and both weight maps empty |
| RuleValidators.RawIds | lib/ruleValidators.ts:24 | the identifier set holds exactly the strings some row's column is strictly equal to |
| RuleValidators.BlankMeansWhite | lib/ruleValidators.ts:15 | a name is blank iff it is empty or all white space |
| RuleValidators.GroupIssues | lib/ruleValidators.ts:15-29 | each group issue is present iff its condition holds, and there is no issue iff none holds |
| RuleValidators.ValidateCoRunGroup | lib/ruleValidators.ts:12-35 | valid iff there are no errors, and there are at most three |
| RuleValidators.CoRunGroupIssues | lib/ruleValidators.ts:12-35 | a blank name, an empty task list and the unknown task IDs are each reported iff they occur. The unknown list holds exactly the unknown IDs, with multiplicity. A group passes iff none occurs |
| RuleValidators.RestrictionIssues | lib/ruleValidators.ts:43-61 | each restriction issue is present iff its condition holds; an unknown task is reported only for a non-blank ID |
| RuleValidators.ValidatePhaseRestriction | lib/ruleValidators.ts:40-67 | valid iff there are no errors, and there are at most three |
| RuleValidators.BadPhasesMeaning | lib/ruleValidators.ts:58 | the rejected phases are exactly the phases that are not positive integers, with their multiplicity, and there are some iff some phase is bad |
| RuleValidators.PhaseRestrictionIssues | lib/ruleValidators.ts:40-67 | a blank ID, or else an unknown one; an empty phase list; and exactly the phases that are not positive integers, in order. A restriction passes iff none occurs |
| RuleValidators.LimitIssues | lib/ruleValidators.ts:75-87 | each limit issue is present iff its condition holds; an unknown worker is reported only for a non-blank ID |
| RuleValidators.ValidateLoadLimit | lib/ruleValidators.ts:72-93 | valid iff there are no errors, and there are at most two |
| RuleValidators.LoadLimitIssues | lib/ruleValidators.ts:72-93 | a limit passes iff its worker ID is non-blank and known and its load is above 0; each issue is present iff its condition holds |
| RuleValidators.EntryMessages | lib/ruleValidators.ts:107-128 | one message per rejected entry. Every rejected entry's message is present and every message comes from a rejected entry; none iff every entry passes |
| RuleValidators.FindDuplicates | lib/ruleValidators.ts:131-137 | the one-pass scan with a set of seen keys yields the declarative duplicate list |
| RuleValidators.DuplicatesCount | lib/ruleValidators.ts:131-153 | a key used c times is reported c - 1 times |
| RuleValidators.DuplicatesEmpty | lib/ruleValidators.ts:131-153 | nothing is reported iff the keys are pairwise distinct |
| Base.TwoOccurrences | lib/ruleValidators.ts:131-153 | a key occurring twice means the keys are not distinct |
| RuleValidators.GroupNames | lib/ruleValidators.ts:132-136 | the keys scanned are the group names, position by position |
| RuleValidators.RestrictedTaskIds | lib/ruleValidators.ts:140-144 | the keys scanned are the restriction task IDs, position by position |
| RuleValidators.LimitedWorkerIds | lib/ruleValidators.ts:148-152 | the keys scanned are the limit worker IDs, position by position |
| RuleValidators.Wrap | lib/ruleValidators.ts:131-153 | one duplicate message per reported key, in order |
| RuleValidators.ValidateRules | lib/ruleValidators.ts:98-159 | valid iff there are no errors |
| RuleProps.OrderedBlocks | lib/ruleValidators.ts:104-153 | four blocks of ranks 0 to 3 concatenate to an ordered list |
| RuleProps.EntryMessagesRank | lib/ruleValidators.ts:107-128 | when every rejection an entry can get has one rank, so does the whole block of entry messages |
| RuleProps.WrapAll | lib/ruleValidators.ts:131-153 | a property of every duplicate message holds of the block |
| RuleProps.WrapDuplicates | lib/ruleValidators.ts:131-153 | wrapping repeated keys in a duplicate-key constructor yields only duplicate-key messages, all ranked after the entry messages |
| RuleProps.GroupBlock | lib/ruleValidators.ts:107-112 | the group block holds group messages only |
| RuleProps.RestrictionBlock | lib/ruleValidators.ts:115-120 | the restriction block holds restriction messages only |
| RuleProps.LimitBlock | lib/ruleValidators.ts:123-128 | the limit block holds limit messages only |
| RuleProps.DuplicateBlock | lib/ruleValidators.ts:131-153 | the duplicate block holds duplicate-key messages only |
| RuleProps.EntryErrorsBlock | lib/ruleValidators.ts:107-128 | no entry message is a duplicate-key message |
| RuleProps.ValidateRulesOrder | lib/ruleValidators.ts:98-159 | messages come as group, restriction, limit, then duplicate blocks |
| RuleProps.EntryMessagesFrom | lib/ruleValidators.ts:107-128 | every entry message comes from some entry's verdict |
| RuleProps.GroupMessagesExact | lib/ruleValidators.ts:107-112 | every invalid group is reported under its name with its own errors, and every group message is such a report |
| RuleProps.RestrictionMessagesExact | lib/ruleValidators.ts:115-120 | the same for phase restrictions, keyed by task ID |
| RuleProps.LimitMessagesExact | lib/ruleValidators.ts:123-128 | the same for load limits, keyed by worker ID |
| RuleProps.WrapCount | lib/ruleValidators.ts:131-153 | with an injective message maker, a key's message count equals the key's count |
| RuleProps.NotIn | lib/ruleValidators.ts:104-153 | a message no member of a block can be does not occur in it |
| RuleProps.GroupNameWrapped | lib/ruleValidators.ts:131-137 | a duplicate-group-name message occurs in the duplicate block as often as the group-name scan reports the name |
| RuleProps.RestrictionWrapped | lib/ruleValidators.ts:139-145 | the same for duplicate restriction messages and the task-ID scan |
| RuleProps.LimitWrapped | lib/ruleValidators.ts:147-153 | the same for duplicate limit messages and the worker-ID scan |
| RuleProps.DuplicateOnlyInLastBlock | lib/ruleValidators.ts:104-153 | a duplicate-key message occurs in the full list as often as in the duplicate block |
| RuleProps.DuplicateGroupNameMessages | lib/ruleValidators.ts:131-137 | in the duplicate block, a group name used c times is reported c - 1 times |
| RuleProps.DuplicateRestrictionMessages | lib/ruleValidators.ts:139-145 | in the duplicate block, a restricted task used c times is reported c - 1 times |
| RuleProps.DuplicateLimitMessages | lib/ruleValidators.ts:147-153 | in the duplicate block, a limited worker used c times is reported c - 1 times |
| RuleProps.DuplicateGroupNameCount | lib/ruleValidators.ts:131-137 | in all messages, a group name used c times is reported c - 1 times |
| RuleProps.DuplicateRestrictionCount | lib/ruleValidators.ts:139-145 | in all messages, a restricted task used c times is reported c - 1 times |
| RuleProps.DuplicateLimitCount | lib/ruleValidators.ts:147-153 | in all messages, a limited worker used c times is reported c - 1 times |
| RuleProps.GroupMessagesEmpty | lib/ruleValidators.ts:107-112 | no group message iff every group passes |
| RuleProps.RestrictionMessagesEmpty | lib/ruleValidators.ts:115-120 | no restriction message iff every restriction passes |
| RuleProps.LimitMessagesEmpty | lib/ruleValidators.ts:123-128 | no limit message iff every limit passes |
| RuleProps.DuplicateMessagesEmpty | lib/ruleValidators.ts:131-153 | no duplicate message iff names, restricted tasks and limited workers are each distinct |
| RuleProps.ValidateRulesValidIff | lib/ruleValidators.ts:98-159 | a ruleset passes iff every entry passes its own check and no collection repeats a key |
| RuleProps.ValidateRulesIgnoresWeightsAndClients | lib/ruleValidators.ts:98-159 | the result depends neither on the clients sheet nor on the priority weights |
| RuleProps.EmptyListsValid | lib/ruleTypes.ts:32-40 | rules without groups, restrictions or limits, and in particular the empty rules, pass against any sheets |
| RuleProps.PhaseVerdicts | lib/ruleValidators.ts:58 | 2 is a valid phase; 0 and -1 are not |
| RuleProps.BadPhasesTail | lib/ruleValidators.ts:58 | of 2 and -1, only -1 is rejected |
| RuleProps.BadPhasesExample | lib/ruleValidators.ts:58 | of 0, 2, -1, the phases 0 and -1 are rejected in that order |
| RuleProps.MixedPhasesExample | lib/ruleValidators.ts:40-67 | phases 0, 2, -1 for a known task give exactly one message, listing 0 and -1 |
| RuleProps.FractionalLoadExample | lib/ruleValidators.ts:85 | a load of 0.5 for a known worker passes |
| RuleProps.NumericTaskIdNotMatched | lib/ruleValidators.ts:24 | a numeric TaskID cell never matches a rule's string identifier |
| ListEdit.ReplaceAt | components/CoRunBuilder.tsx:49-53 | the slice expression replaces position i, or appends when i is past the end |
| ListEdit.RemoveAt | components/CoRunBuilder.tsx:74-77 | the slice expression drops position i and shifts the rest, or changes nothing when i is past the end |
| ListEdit.RemoveAtMultiset | components/CoRunBuilder.tsx:74-77 | a delete removes exactly one copy of the deleted entry |
| ListEdit.RemoveAppended | components/CoRunBuilder.tsx:49-77 | deleting what was just appended restores the list |
| ListEdit.RemoveReplaced | components/CoRunBuilder.tsx:49-77 | deleting a replaced position forgets the replacement |
| Editor.Initial | components/CoRunBuilder.tsx:14-17 | the panel starts hidden and idle: not adding, no edited index, the blank draft and no messages |
| Editor.CancelRestoresInitial | components/CoRunBuilder.tsx:66-71 | a cancel from any state gives back the initial panel |
| Editor.StartAdd | components/CoRunBuilder.tsx:25-29 | the panel opens with the blank draft and no messages, keeping the edited index |
| Editor.StartEdit | components/CoRunBuilder.tsx:31-35 | the panel edits a copy of entry i with no messages, keeping the adding flag |
| Editor.Cancel | components/CoRunBuilder.tsx:66-71 | the panel closes, blank and without messages |
| Editor.Save | components/CoRunBuilder.tsx:37-64 | a rejected draft shows the validator's messages and makes no update; an accepted one is committed at the edited index, or appended, and the panel closes |
| Editor.Delete | components/CoRunBuilder.tsx:73-80 | the panel is untouched and the list shrinks by one for an index in range |
| Editor.DeleteRemovesOne | components/CoRunBuilder.tsx:73-80 | a delete drops exactly entry i and keeps the others in order |
| Editor.SetDraft | components/CoRunBuilder.tsx:111 | a field edit changes only the draft; messages stay |
| Editor.SaveRejected | components/CoRunBuilder.tsx:38-43 | a rejected save keeps the draft and visibility and shows the messages |
| Editor.SaveReplaces | components/CoRunBuilder.tsx:47-53 | saving while editing entry i rewrites that entry only |
| Editor.SaveAppends | components/CoRunBuilder.tsx:54-57 | saving while adding appends the draft |
| Editor.SaveKeepsEntriesValid | components/CoRunBuilder.tsx:37-64 | a list of valid entries stays valid through a save |
| Editor.SaveCommitsDraft | components/CoRunBuilder.tsx:37-64 | an update happens iff the draft is valid, and then the draft is in the list |
| Editor.SaveOrCancelCloses | components/CoRunBuilder.tsx:60-71 | after an accepted save or a cancel the panel is closed and blank |
| Editor.CommitKeepsKeysDistinct | components/PhaseRestrictionBuilder.tsx:54-81 | committing a draft whose key no other entry holds keeps the keys distinct |
| Editor.Available | components/PhaseRestrictionBuilder.tsx:27-40 | the offered rows are exactly the sheet rows no other entry claims, in order |
| Editor.AvailableKeyFree | components/PhaseRestrictionBuilder.tsx:27-40 | an offered row's identifier is held by no other entry |
| PhaseSet.SortedCons | components/PhaseRestrictionBuilder.tsx:112 | a list is sorted iff its head is below its tail and its tail is sorted |
| PhaseSet.Insert | components/PhaseRestrictionBuilder.tsx:112 | insertion adds exactly one copy of the phase |
| PhaseSet.InsertSorted | components/PhaseRestrictionBuilder.tsx:112 | insertion into a sorted list keeps it sorted |
| PhaseSet.SortAscending | components/PhaseRestrictionBuilder.tsx:112 | the sort's result is ascending and a permutation of its input |
| PhaseSet.SortedUnique | components/PhaseRestrictionBuilder.tsx:112 | a sorted list is determined by its elements, so every ascending sort agrees |
| PhaseSet.FilterSorted | components/PhaseRestrictionBuilder.tsx:106 | filtering a sorted list keeps it sorted |
| PhaseSet.Toggle | components/PhaseRestrictionBuilder.tsx:99-115 | only the toggled phase's membership flips |
| PhaseSet.ToggleKeepsSortedDistinct | components/PhaseRestrictionBuilder.tsx:99-115 | a sorted list without repeats stays so |
| PhaseSet.ReAddRemoved | components/PhaseRestrictionBuilder.tsx:99-115 | re-adding a removed phase restores the list |
| PhaseSet.RemoveAdded | components/PhaseRestrictionBuilder.tsx:99-115 | removing an added phase restores the list |
| PhaseSet.ToggleTwice | components/PhaseRestrictionBuilder.tsx:99-115 | toggling the same phase twice is the identity on sorted lists without repeats |
| PhaseSet.DistinctCounts | components/PhaseRestrictionBuilder.tsx:99-115 | pairwise distinctness is "no value occurs twice" |
| CoRunBuilder.SaveGroup | components/CoRunBuilder.tsx:37-64 | an update happens iff the group is valid. A rejected group stays with its messages; an accepted one is in the new list and the panel closes |
| CoRunBuilder.SetGroupName | components/CoRunBuilder.tsx:111 | only the group name changes |
| CoRunBuilder.SetGroupTasks | components/CoRunBuilder.tsx:122-125 | the selected options replace the task list |
| CoRunBuilder.SavedGroupWellFormed | components/CoRunBuilder.tsx:37-64 | a committed group has a non-blank name and at least one task, all of them known |
| CoRunBuilder.BlankGroupRejected | components/CoRunBuilder.tsx:27 | the blank draft is never accepted |
| PhaseRestrictionBuilder.AvailableTasks | components/PhaseRestrictionBuilder.tsx:27-40 | the offered tasks are exactly the rows whose TaskID no other restriction names |
| PhaseRestrictionBuilder.SaveRestriction | components/PhaseRestrictionBuilder.tsx:54-81 | an update happens iff the restriction is valid. A rejected one stays with its messages; an accepted one is in the new list and the panel closes |
| PhaseRestrictionBuilder.SetRestrictionTask | components/PhaseRestrictionBuilder.tsx:145-148 | only the task ID changes |
| PhaseRestrictionBuilder.TogglePhase | components/PhaseRestrictionBuilder.tsx:99-115 | only the toggled phase's membership flips; task and messages stay |
| PhaseRestrictionBuilder.TogglePhaseKeepsOrder | components/PhaseRestrictionBuilder.tsx:99-115 | the phases stay sorted without repeats, and a second toggle undoes the first |
| PhaseRestrictionBuilder.RestrictedTaskIdsDistinct | components/PhaseRestrictionBuilder.tsx:27-40 | distinct restricted task IDs means that no two restrictions share a task |
| PhaseRestrictionBuilder.SaveFromAvailableKeepsTaskIdsDistinct | components/PhaseRestrictionBuilder.tsx:54-81 | saving a task picked from the offered rows keeps restricted tasks distinct, even with a stale index |
| PhaseRestrictionBuilder.SavedRestrictionWellFormed | components/PhaseRestrictionBuilder.tsx:54-81 | a committed restriction names a known task and at least one phase, all positive integers |
| LoadLimitBuilder.AvailableWorkers | components/LoadLimitBuilder.tsx:26-39 | the offered workers are exactly the rows whose WorkerID no other limit names |
| LoadLimitBuilder.SaveLimit | components/LoadLimitBuilder.tsx:53-80 | an update happens iff the limit is valid. A rejected one stays with its messages; an accepted one is in the new list and the panel closes |
| LoadLimitBuilder.SetLimitWorker | components/LoadLimitBuilder.tsx:126-129 | only the worker ID changes |
| LoadLimitBuilder.SetMaxLoad | components/LoadLimitBuilder.tsx:151-154 | only the load changes |
| LoadLimitBuilder.DraftResetsToDefault | components/LoadLimitBuilder.tsx:18-21 | adding, cancelling and an accepted save leave the draft at no worker and a load of 8 |
| LoadLimitBuilder.SavedLimitValid | components/LoadLimitBuilder.tsx:53-80 | a committed limit names a known worker with a load above 0, and a list of valid limits stays valid |
| LoadLimitBuilder.LimitedWorkerIdsDistinct | components/LoadLimitBuilder.tsx:26-39 | distinct limited worker IDs means that no two limits share a worker |
| LoadLimitBuilder.SaveFromAvailableKeepsWorkerIdsDistinct | components/LoadLimitBuilder.tsx:53-80 | saving a worker picked from the offered rows keeps limited workers distinct |
| PriorityWeightsBuilder.SetClientWeight | components/PriorityWeightsBuilder.tsx:22-32 | the client reads the new weight, every other client keeps its own, and task weights are untouched |
| PriorityWeightsBuilder.SetTaskWeight | components/PriorityWeightsBuilder.tsx:35-45 | the task reads the new weight, every other task keeps its own, and client weights are untouched |
| PriorityWeightsBuilder.WeightOf | components/PriorityWeightsBuilder.tsx:48-59 | a lookup in the weight object finds no number exactly for an identifier without an own entry that names an `Object.prototype` member; otherwise it reads the own entry, or 0.1 |
| PriorityWeightsBuilder.ResetClientWeights | components/PriorityWeightsBuilder.tsx:62-68 | every client reads the default 0.1 again, except an identifier such as "constructor" that names an inherited `Object.prototype` member, which reads no number; task weights stay |
| PriorityWeightsBuilder.ResetTaskWeights | components/PriorityWeightsBuilder.tsx:71-77 | every task reads the default 0.1 again, except an inherited `Object.prototype` name, which reads no number; client weights stay |
| PriorityWeightsBuilder.WeightLookup | components/PriorityWeightsBuilder.tsx:48-59 | a lookup reads the stored weight; for an identifier never set it reads 0.1, unless the identifier names an inherited member, where it reads no number (the render's `toFixed(1)` then throws); before any edit that is all there is |
| PriorityWeightsBuilder.ConstructorNeedsOwnEntry | components/PriorityWeightsBuilder.tsx:48-77 | the client "constructor" reads no number until an own entry exists, reads that entry afterwards, and reads no number again after a reset |
| PriorityWeightsBuilder.ResetForgetsSet | components/PriorityWeightsBuilder.tsx:22-77 | a reset forgets earlier edits of its map and commutes with edits of the other map |
| RuleBuilder.Initial | components/RuleBuilder.tsx:19-20 | the page starts with no rules and a passing validation |
| RuleBuilder.Revalidate | components/RuleBuilder.tsx:22-25 | the effect brings the validation in step with the rules and sheets |
| RuleBuilder.UpdateCoRunGroups | components/RuleBuilder.tsx:49 | only the groups change, and the validation is in step afterwards |
| RuleBuilder.UpdatePhaseRestrictions | components/RuleBuilder.tsx:57 | only the restrictions change, and the validation is in step afterwards |
| RuleBuilder.UpdateLoadLimits | components/RuleBuilder.tsx:65 | only the limits change, and the validation is in step afterwards |
| RuleBuilder.UpdatePriorityWeights | components/RuleBuilder.tsx:81 | only the weights change, and a validation already in step is unchanged |
| RuleBuilder.Download | components/RuleBuilder.tsx:26-39 | the button exports the committed rules, and only when no message is shown |
| RuleBuilder.InitialSynced | components/RuleBuilder.tsx:19-25 | the initial validation equals what the effect computes for the empty rules |
| RuleBuilder.DownloadGate | components/RuleBuilder.tsx:101 | in step, the button is disabled iff the rules fail; what it exports has every entry valid and no repeated key |
| RuleBuilder.PickedRestrictionNoDuplicate | components/PhaseRestrictionBuilder.tsx:27-81 | committing a restriction picked from the offered tasks never causes a duplicate-restriction message |
| NlFilter.DigitRun | lib/nlFilter.ts:22 | the run is the longest all-digit prefix |
| NlFilter.FirstNumber | lib/nlFilter.ts:22-24 | there is no number iff the query has no digit |
| NlFilter.FirstNumberAt | lib/nlFilter.ts:22-24 | the number is the digit run starting at the first digit |
| NlFilter.Relation | lib/nlFilter.ts:21-51 | the branches are tried in order: at-least iff a `>=` form occurs, at-most iff a `<=` form occurs and no `>=` form, above iff a `>` form occurs and no earlier form; no branch iff no comparison word occurs, and never equality |
| NlFilter.PriorityQuery | lib/nlFilter.ts:19-72 | only priority descriptors; a comparison branch yields its operator with the query's first number, or nothing without a number; equality arises only in the equality branch, with the first number; without a number only the concept words can answer, and "medium" gives 2..3 |
| NlFilter.DurationQuery | lib/nlFilter.ts:75-116 | only duration descriptors and never equality; a comparison branch yields its operator with the first number or nothing; otherwise an answer iff "long" or "short" occurs |
| NlFilter.KeywordAt | lib/nlFilter.ts:120 | the length of the first keyword in list order that the text starts with; 0 iff no non-empty keyword is a prefix |
| NlFilter.FirstMatchTail | lib/nlFilter.ts:120 | past a non-matching head keyword, a first match in the tail is the first match of the list |
| NlFilter.FirstMatchUnique | lib/nlFilter.ts:120 | the first match in list order decides the length recognised |
| NlFilter.KeywordAtLeading | lib/nlFilter.ts:120 | each keyword at the front is recognised as itself, never as an earlier alternative |
| NlFilter.StripKeywords | lib/nlFilter.ts:120 | removing keywords never lengthens the text and leaves a keyword-free text unchanged |
| NlFilter.KeywordFreeTail | lib/nlFilter.ts:120 | a keyword-free text starts with no keyword and its tail is keyword-free |
| NlFilter.StripLeadingKeyword | lib/nlFilter.ts:120 | a keyword at the front is cut out whole and the scan resumes after it |
| NlFilter.NameTerms | lib/nlFilter.ts:120 | the terms are exactly the space-separated words left after stripping keywords and trimming whose `length` exceeds two UTF-16 code units, each as often as it occurs; none has a space |
| NlFilter.LongTerms | lib/nlFilter.ts:120 | keeping the words longer than two UTF-16 code units keeps exactly those, with their multiplicity |
| NlFilter.SplitHasNoSpace | lib/nlFilter.ts:120 | the pieces of a split on spaces hold no space |
| NlFilter.NoKeywordInitial | lib/nlFilter.ts:120 | a text with no letter that begins a keyword is keyword-free |
| NlFilter.SpacedKeywordFree | lib/nlFilter.ts:120 | a space followed by such a word is keyword-free |
| NlFilter.StripCalled | lib/nlFilter.ts:120 | stripping "called" before a space and such a word leaves the space and the word |
| NlFilter.AstralTermKept | lib/nlFilter.ts:120 | a term of one emoji and one letter is two characters but three code units, so "called" followed by it searches for that term |
| NlFilter.CalledWordTerms | lib/nlFilter.ts:119-122 | "called w" searches for w alone when w is longer than two UTF-16 code units, has no white space and no letter that begins a keyword |
| NlFilter.Classify | lib/nlFilter.ts:10-136 | a duration descriptor only for tasks and a query mentioning duration; a priority descriptor only for a query mentioning priority; a name search uses the entity's name column and the query's name terms, which are not empty |
| NlFilter.PickShape | lib/nlFilter.ts:18-136 | each kind of descriptor comes from its own block |
| NlFilter.EvalWith | lib/nlFilter.ts:25-136 | a descriptor throws only as a name search on a non-zero numeric name, and the default keeps every row |
| NlFilter.Eval | lib/nlFilter.ts:25-136 | the corrected filter throws only on a non-zero numeric name and keeps every row by default |
| NlFilter.EvalAsWritten | lib/nlFilter.ts:25-136 | the filter as written throws only on a non-zero numeric name, and agrees with the corrected filter on every descriptor but equality |
| NlFilter.PriorityPart | lib/nlFilter.ts:19-72 | the priority block yields only priority descriptors, and only for queries mentioning priority |
| NlFilter.DurationPart | lib/nlFilter.ts:75-116 | the duration block yields only duration descriptors, and only for tasks |
| NlFilter.NamePart | lib/nlFilter.ts:119-133 | a name search happens iff the query mentions name or called and some term survives; it searches the entity's name column |
| NlFilter.NormalizeIdempotent | lib/nlFilter.ts:16 | lowering and trimming twice is the same as once |
| NlFilter.NormalizedIsLower | lib/nlFilter.ts:16 | no upper-case letter survives normalisation |
| NlFilter.ClassifyNormalized | lib/nlFilter.ts:16 | a query classifies like its normalised form |
| NlFilter.AtLeastBeforeAbove | lib/nlFilter.ts:21-43 | a priority query with `>=` and a number asks for at least that number, although it also matches the `>` branch |
| NlFilter.AtMostBeforeBelow | lib/nlFilter.ts:29-51 | a priority query with `<=`, no `>=` form and a number asks for at most that number, although it also matches the `<` branch |
| NlFilter.LessOrEqualMatchesBoth | lib/nlFilter.ts:29-51 | without a `>=` form, `<=` enters the second branch and would also satisfy the fourth |
| NlFilter.GreaterOrEqualMatchesBoth | lib/nlFilter.ts:21-43 | `>=` enters the first branch and would also satisfy the third |
| NlFilter.ContainsPrefix | lib/nlFilter.ts:21-37 | a text containing a word contains every prefix of it |
| NlFilter.EqualityShadowsConcepts | lib/nlFilter.ts:53-71 | a priority query with an equality word but no number leaves the block, so high, medium and low are never consulted |
| NlFilter.PickWithoutPriority | lib/nlFilter.ts:74-136 | once the priority block has not returned, no priority descriptor comes out |
| NlFilter.EqualityWithoutNumber | lib/nlFilter.ts:53-59 | the equality branch without a number returns nothing |
| NlFilter.DurationOnlyForTasks | lib/nlFilter.ts:75 | duration descriptors arise only for the tasks sheet |
| NlFilter.NoTopicPassesAll | lib/nlFilter.ts:136 | a query naming no topic passes every row |
| NlFilter.NameSearchShape | lib/nlFilter.ts:119-133 | a name search uses the entity's name column and at least one term, each longer than two UTF-16 code units and without spaces |
| NlFilter.ComparisonNumber | lib/nlFilter.ts:21-51 | a comparison uses the first run of digits in the query |
| NlFilter.NameSearchEval | lib/nlFilter.ts:123-131 | a row passes iff its name is a non-empty string containing some term after lowering; a numeric name throws |
| NlFilter.PassAllEval | lib/nlFilter.ts:136 | the default filter keeps every row |
| NlFilter.EqualityIsBothBounds | lib/nlFilter.ts:53-59 | with numeric equality, equal to v holds iff at least v and at most v both hold |
| NlFilter.StrictEqualityMissesTextCell | lib/nlFilter.ts:57 | as written, a text cell "3" is at least 3 and at most 3 but never equal to 3 |
| NlFilter.MissingFirstChar | lib/nlFilter.ts:19 | a text lacking a word's first character does not contain it |
| NlFilter.ContainsAt | lib/nlFilter.ts:19 | a word occurring at a position is contained |
| NlFilter.LowerKeeps | lib/nlFilter.ts:16 | a text without upper-case letters is its own lower case |
| NlFilter.QueryHasNoRelation | lib/nlFilter.ts:21-51 | "priority is 3" enters none of the four comparison branches |
| NlFilter.QueryIsEquality | lib/nlFilter.ts:53 | "priority is 3" mentions priority and enters the equality branch |
| NlFilter.QueryNumber | lib/nlFilter.ts:22-24 | the number of "priority is 3" is 3 |
| NlFilter.PriorityIsThreeExample | lib/nlFilter.ts:53-59 | "priority is 3" asks for priority equal to 3; as written it rejects a CSV row with "3", and corrected it accepts it |

## Left out

- Rendering, tabs, file upload and CSV/XLSX parsing are left out. The sheets
  arrive as given. CSV cells are always strings, while XLSX cells may be
  numbers; both are representable as `Value`.
- The AI-assisted features and `gemini.ts` are left out. They are network
  calls.
- `JSON.parse` is a parameter `isJson` of the JSON check, because writing a
  JSON parser is outside the core. `JSON.stringify` and the Blob download in
  `handleDownloadRules` become `RuleBuilder.Download` returning the rules.
- Numbers are exact reals. IEEE-754 rounding, `Infinity`, `-0` and `NaN`
  values are left out. `NaN` appears only as the `None` outcome of a
  conversion.
- `toLowerCase` is modelled on ASCII letters only. Unicode case mapping is
  left out.
- `createFilterFromNL` is async. The `Promise`, the `console.error` and the
  `catch` at lib/nlFilter.ts:137-141 are left out. With a string query
  nothing in the classifier can throw, so the catch is unreachable in the
  model.
- NlFilter.FirstNumber: `parseInt` loses precision above 2^53. The model
  reads the digit run exactly.
- The phase buttons range over 1..5 (`maxPhase`) and the load slider over
  its HTML range. The model lets any number through, as the handlers do.
- Editor.StartEdit: requires an index within the list. The edit buttons are
  rendered only for existing entries.
- PriorityWeightsBuilder.WeightLookup: a stored weight that is `undefined`
  cannot be represented. A map entry always holds a number.
- A cell holding an object, boolean or date is not modelled.
- RuleBuilder.UpdateCoRunGroups, RuleBuilder.UpdatePhaseRestrictions and
  RuleBuilder.UpdateLoadLimits re-run the `useEffect` validation in the same
  step as the rule update. The render in between, where the download
  button still reads the previous validation, is not modelled.
- PriorityWeightsBuilder.WeightLookup: the render throws when a lookup finds
  no number; the model stops at the `None` outcome of the lookup and does
  not model the crash of the component.
- Validators.ValidateData: reads a numeric RequestedTaskIDs cell as its text
  where the source throws. It follows the corrected reading of the second
  finding, and `Validators.ParseListAsWritten` keeps the code's behaviour.
- Rule messages are constructors, not formatted strings. The joined error
  text and the number printing of phases are not modelled, although the
  order and the contents of each message are.

## Findings

| source | as written | input that shows it | evidently intended | confidence | as-written member | corrected member |
|---|---|---|---|---|---|---|
| lib/nlFilter.ts:57 | the equality branch compares `row.PriorityLevel === value`, a strict comparison of a cell with a number | a CSV upload, whose cells are strings, with PriorityLevel "3" and the query "priority is 3": the row is at least 3 and at most 3 but is filtered out | compare numerically, like the other branches | high (not executed) | NlFilter.StrictEqualityMissesTextCell | NlFilter.EqualityIsBothBounds |
| lib/validators.ts:225 | `parseList(client.RequestedTaskIDs)` calls `.split` on the raw cell | a spreadsheet client row whose RequestedTaskIDs cell holds the non-zero number 5: `.split` is not a function and validation throws | read the cell's text, so 5 is the single identifier "5" | high (not executed) | Validators.NumericRequestListThrows | Validators.ParseCell |
