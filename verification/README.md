# react-upload-control in Dafny

A model of the core of react-upload-control, a React file-upload library.

## What is modelled

**The upload manager (`UploadedFilesManager`).** It holds:
- a list of file records;
- a string status machine;
- how many ids nanoid has handed out.

Every manager operation is a pure function from `State` and an `Env` to a new `State` plus a log of `Effect`s. The effects are the host callbacks the operation makes: `onUpload`, `onFinish`, `onDelete`, the add-file error handler, and error logging. The `Env` carries the outside world:
- the resolved configuration;
- which optional handlers exist;
- the message formatter;
- the nanoid stream (`freshId`);
- base64 reading;
- the pre-processors.

Every `setFiles` and `smSetStatus` is an assignment in program order, so the last write wins.

**An upload has three parts:**
1. the list captured when the upload starts;
2. the host's progress reports, applied to the live list;
3. the host's results. `handleResults` reconciles the results against the captured list, and that copy goes only to `onFinish`. The live list is never overwritten with it.

**Other modules:**
- the drag-and-drop handlers of both packages (`Reorder`);
- the status machine (`StateMachine`);
- the message flattening and locale choice of the provider (`Translations`);
- the `isFileDropError` guard over JavaScript values (`DropErrors`, `Js`);
- the webcam device rules (`Webcam`);
- user-agent classification (`MobileDetect`);
- the timestamp suffix (`Timestamp`);
- the data-URI MIME type (`MimeType`).

Support modules:
- `Results`: Option and Result;
- `Strings`: split/join, decimal strings, case-insensitive search;
- `JsArrays`: `splice` with JavaScript's index rules;
- `Records`: the record and configuration shapes of `packages/components/src/types.ts`;
- `FileOps`: the manager's list helpers;
- `Validation`;
- `PreProcessing`;
- `Adding`;
- `Manager`.

**Modelling choices:**
- Clock readings, the user agent, the device list and base64 conversion are parameters.
- nanoid is a parameter `freshId: nat -> string` with a cursor in `State`.
- The host's pre-processors are a parameter `run`, which returns records, returns nothing, or throws.
- `File` sizes are integers.
- `maxFileSizeMb` is an exact `real`.
- Progress values are integers.

## Model

| member | source | states |
|---|---|---|
| Records.Track | packages/core/src/providers/UploadedFilesManager.tsx:275-282 | a tracked record keeps every public field of the record it is built from (id, file, name, size, type, data URI, preview, metadata) and carries the given order and upload status |
| Records.ResolveConfig | packages/core/src/providers/UploadedFilesManager.tsx:48-69 | without a configuration: image types, multiple files, 10 MB, no cap, no reset, sorting on; with one, each given field is kept and each missing one takes that default |
| Records.MissingConfigIsEmptyConfig | packages/core/src/providers/UploadedFilesManager.tsx:48-69 | leaving the configuration out resolves the same as passing one with every field missing |
| StateMachine.Init | packages/shared/src/hooks/use-state-machine.ts:15-17 | the initial status is the given one, or IDLE when none is given; the error starts undefined |
| StateMachine.StatusIs | packages/shared/src/hooks/use-state-machine.ts:42-44 | true iff some argument equals the current status |
| StateMachine.StatusIsnt | packages/shared/src/hooks/use-state-machine.ts:46-48 | true iff every argument differs from the current status |
| StateMachine.StatusIsntIsNegation | packages/shared/src/hooks/use-state-machine.ts:42-48 | statusIsnt is always the negation of statusIs; with no arguments statusIs is false and statusIsnt true |
| StateMachine.SetStatus | packages/shared/src/hooks/use-state-machine.ts:25-32 | the status is always replaced; error and value are replaced only by truthy ones, otherwise kept |
| StateMachine.SetOnly | packages/shared/src/hooks/use-state-machine.ts:25-32 | setting only a status keeps the error and the value |
| StateMachine.ErrorPersists | packages/shared/src/hooks/use-state-machine.ts:25-32 | after any sequence of status-only changes the error is unchanged and the last status is current |
| StateMachine.Reset | packages/shared/src/hooks/use-state-machine.ts:19-23 | reset sets the given status, or IDLE for an empty one, and clears error and value |
| StateMachine.ErrorString | packages/shared/src/hooks/use-state-machine.ts:36-39 | no error gives undefined; a string error is returned as is; an Error gives its message |
| DropErrors.Parse | packages/core/src/types.ts:105-110 | a string parses to an enum member exactly when it is that member's value |
| DropErrors.ParseValue | packages/core/src/types.ts:105-110 | every member's value parses back to the member and is among the enum values |
| DropErrors.Decode | packages/core/src/utils/is-filedrop-error.ts:4-15 | a value decodes only when it is an object whose `error.text` is the decoded text and whose `error.type` is the decoded kind's value |
| DropErrors.BuiltErrorsPass | packages/core/src/utils/is-filedrop-error.ts:4-15 | every error object the manager builds passes the guard and decodes back to itself |
| DropErrors.GuardIsDecodable | packages/core/src/utils/is-filedrop-error.ts:4-15 | the guard accepts a value iff the value decodes to a typed drop error |
| DropErrors.RejectsNonObjects | packages/core/src/utils/is-filedrop-error.ts:6-7 | null, undefined and primitives are rejected |
| DropErrors.RejectsNonObjectInner | packages/core/src/utils/is-filedrop-error.ts:8-10 | an `error` field that is null or a primitive is rejected |
| DropErrors.RejectsNonStringText | packages/core/src/utils/is-filedrop-error.ts:11-12 | a text that is not a string is rejected |
| DropErrors.RejectsMaxSizeKey | packages/core/src/utils/is-filedrop-error.ts:13-14 | the enum key "MAXSIZE" is not accepted as a type |
| Js.Own | packages/core/src/utils/is-filedrop-error.ts:8-14 | property lookup finds the first own property with the key, and finds nothing iff no property has it |
| Js.IndexKey | packages/core/src/providers/UploadedFilesProvider.tsx:22 | a key is treated as an array index only when it is the canonical decimal spelling of that index |
| Js.CanonicalDigits | packages/core/src/providers/UploadedFilesProvider.tsx:22 | digit strings without a leading zero are the decimal spelling of their value |
| Translations.ProviderLocale | packages/core/src/providers/UploadedFilesProvider.tsx:46 | the provider's locale is the given one, or "en" |
| Translations.Store | packages/core/src/providers/UploadedFilesProvider.tsx:26-30 | a string is stored under its key (overwriting); a nested table is merged with later keys winning; a nested null makes the flattening throw |
| Translations.FlattenFirstOfExtension | packages/core/src/providers/UploadedFilesProvider.tsx:22-33 | adding a key at the end does not change what the earlier keys produced |
| Translations.StringEntryStored | packages/core/src/providers/UploadedFilesProvider.tsx:24-27 | a string value ends up under its prefixed key, overriding earlier entries |
| Translations.NestedEntryMerged | packages/core/src/providers/UploadedFilesProvider.tsx:24-29 | a nested table is flattened under its dotted path and merged over the earlier entries |
| Translations.NestedNullThrows | packages/core/src/providers/UploadedFilesProvider.tsx:22-29 | a nested null makes flattening fail |
| Translations.KeysCarryPrefix | packages/core/src/providers/UploadedFilesProvider.tsx:24-29 | under a non-empty prefix every produced key is that prefix, a dot and more |
| Translations.KeysCarryPrefixFirst | packages/core/src/providers/UploadedFilesProvider.tsx:22-33 | the same for the keys produced by each prefix of the reduce |
| Translations.PathOfChild | packages/core/src/providers/UploadedFilesProvider.tsx:24 | a prefixed key starts with its prefix and a dot |
| Translations.NestedPath | packages/core/src/providers/UploadedFilesProvider.tsx:24-29 | keys under a child's path also lie under the parent's path |
| Translations.FlattenExample | packages/core/src/providers/UploadedFilesProvider.tsx:18-34 | `{a: {b: "x"}, c: "y"}` flattens to `{"a.b": "x", "c": "y"}` |
| Translations.GetTranslationAsWritten | packages/core/src/providers/UploadedFilesProvider.tsx:36-42 | the `in` test also accepts names inherited from Object.prototype, which give no table |
| Translations.InheritedLocaleLosesMessages | packages/core/src/providers/UploadedFilesProvider.tsx:36-47 | the locale "toString" leads to an empty message map |
| Translations.GetTranslation | packages/core/src/providers/UploadedFilesProvider.tsx:36-42 | a missing or unknown locale yields the "en" table; "en" and "de" yield their own |
| Translations.TranslationIsATable | packages/core/src/providers/UploadedFilesProvider.tsx:36-42 | the corrected lookup always yields one of the two tables, and "toString" falls back to "en" |
| Validation.ItemError | packages/core/src/providers/UploadedFilesManager.tsx:142-178 | a type outside the list is INVALID_FILE even when too large; otherwise OVER_SIZE_LIMIT iff size·10⁻⁶ > maxFileSizeMb; no error iff both checks pass |
| Validation.CheckEach | packages/core/src/providers/UploadedFilesManager.tsx:142-178 | every item is accepted or yields an error; accepted items come from the input and pass the check; per-item errors are INVALID_FILE or OVER_SIZE_LIMIT |
| Validation.CheckOne | packages/core/src/providers/UploadedFilesManager.tsx:142-178 | a single item is either accepted or yields exactly one error, of the kind the item check names |
| Validation.CheckEachAppend | packages/core/src/providers/UploadedFilesManager.tsx:142-178 | checking a concatenation is checking each part and concatenating, so accepted items keep input order |
| Validation.ValidateFiles | packages/core/src/providers/UploadedFilesManager.tsx:103-179 | MULTIPLE_NOT_ALLOWED first, then MAX_FILES_NUMBER when a cap is set and the batch or the total exceeds it, otherwise the per-item partition |
| Validation.WholeBatchRejection | packages/core/src/providers/UploadedFilesManager.tsx:108-141 | a rejected batch has no accepted item and exactly one error, of a whole-batch kind |
| Validation.OverSizeScenario | packages/core/src/providers/UploadedFilesManager.tsx:157-170 | a 2 MB PNG against a 1 MB limit yields one OVER_SIZE_LIMIT error |
| JsArrays.SpliceStart | packages/core/src/providers/UploadedFilesManager.tsx:206-211 | splice's start is clamped into the array, and a negative start counts from the end |
| JsArrays.Splice | packages/core/src/providers/UploadedFilesManager.tsx:206-211 | the result is the prefix, the inserted items, then the rest after the removed run |
| JsArrays.SpliceReplaceOne | packages/core/src/providers/UploadedFilesManager.tsx:206-211 | replacing one in-range element keeps everything before and after it |
| JsArrays.SpliceMinusOne | packages/core/src/providers/UploadedFilesManager.tsx:206-211 | a start of -1 replaces the last element |
| JsArrays.SpliceMembers | packages/core/src/providers/UploadedFilesManager.tsx:206-211 | everything in the spliced array was in the array or was inserted |
| PreProcessing.Lookup | packages/core/src/providers/UploadedFilesManager.tsx:187-194 | an exact-type entry wins; an explicit null skips; a missing entry falls back to `other`, else no processor |
| PreProcessing.FindIndex | packages/core/src/providers/UploadedFilesManager.tsx:206 | the first index with the id, or -1 iff none has it (the lookup of FileOps.FirstIndex on public records) |
| PreProcessing.WithFreshIds | packages/core/src/providers/UploadedFilesManager.tsx:198-204 | each returned record gets the next nanoid in order, with every other field kept |
| PreProcessing.ApplyPreProcessing | packages/core/src/providers/UploadedFilesManager.tsx:181-213 | no processor or a falsy return keeps the list; a throw aborts |
| PreProcessing.ReplacedInPlace | packages/core/src/providers/UploadedFilesManager.tsx:196-211 | a found record is replaced in place by the processor's records with fresh ids; an empty result drops it |
| PreProcessing.RunFirst | packages/core/src/providers/UploadedFilesManager.tsx:215-226 | before any record has been processed the working list is the input and the id cursor is unchanged |
| PreProcessing.PipelineIds | packages/core/src/providers/UploadedFilesManager.tsx:215-226 | every record the pipeline ends with came from the input or carries an id handed out during the pipeline |
| PreProcessing.PipelineShape | packages/core/src/providers/UploadedFilesManager.tsx:215-226 | with fresh, distinct input ids each step finds its record, and the not-yet-processed records stay a suffix of the list |
| PreProcessing.SuffixIds | packages/core/src/providers/UploadedFilesManager.tsx:218-224 | with distinct ids the processed record's id is not among the records after it |
| PreProcessing.StepShape | packages/core/src/providers/UploadedFilesManager.tsx:218-224 | one step replaces the current record and keeps the records before and after it |
| PreProcessing.RenamedAvoid | packages/core/src/providers/UploadedFilesManager.tsx:207-211 | records renamed with ids from a fresh position share no id with the records still to be processed |
| PreProcessing.HandlePreProcessing | packages/core/src/providers/UploadedFilesManager.tsx:215-232 | a processor throw aborts; otherwise the pipeline's list is re-validated and nothing is returned if it is all rejected |
| FileOps.FirstIndex | packages/core/src/providers/UploadedFilesManager.tsx:305-307 | the first index with the id, or -1 iff none has it |
| FileOps.GetFile | packages/core/src/providers/UploadedFilesManager.tsx:305-307 | undefined iff no record has the id; otherwise a record of the list with that id |
| FileOps.ReorderFiles | packages/core/src/providers/UploadedFilesManager.tsx:309-314 | every record gets order index+1 and nothing else changes |
| FileOps.ReorderFixesDense | packages/core/src/providers/UploadedFilesManager.tsx:309-314 | renumbering is idempotent, and the identity on a list numbered 1..N |
| FileOps.RemoveFile | packages/core/src/providers/UploadedFilesManager.tsx:324-326 | the result holds exactly the records without the id, and is shorter by their count; a single record is kept iff its id differs |
| FileOps.RemoveFileAppend | packages/core/src/providers/UploadedFilesManager.tsx:324-326 | removing from a concatenation concatenates the removals, so the survivors keep their list order |
| FileOps.CountPositive | packages/core/src/providers/UploadedFilesManager.tsx:324-326 | a present id is counted, so removing it shortens the list |
| FileOps.MaxOrder | packages/core/src/providers/UploadedFilesManager.tsx:239-240 | the largest order, at least 0, bounding every order and attained unless it is 0 |
| FileOps.MaxOrderOfDense | packages/core/src/providers/UploadedFilesManager.tsx:239-240 | on a list numbered 1..N the maximum order is N |
| FileOps.UpdateFile | packages/core/src/providers/UploadedFilesManager.tsx:316-322 | records with the id are patched, every other record is unchanged, and the length is kept |
| FileOps.UpdateKeepsShape | packages/core/src/providers/UploadedFilesManager.tsx:316-322 | a patch that does not touch id and order keeps the ids in place and the 1..N numbering |
| FileOps.UpdateFileStage | packages/core/src/providers/UploadedFilesManager.tsx:445-456 | records with the id get the stage and keep progress and error; others are unchanged |
| FileOps.ByFinished | packages/core/src/providers/UploadedFilesManager.tsx:433-435 | exactly the FINISHED (or exactly the other) records; a single record is kept iff it is on the asked side |
| FileOps.ByFinishedAppend | packages/core/src/providers/UploadedFilesManager.tsx:433-435 | filtering a concatenation concatenates the filters, so each side keeps the list order |
| FileOps.ByFinishedPartition | packages/core/src/providers/UploadedFilesManager.tsx:433-435 | the two filters together account for every record once |
| FileOps.ResultStatus | packages/core/src/providers/UploadedFilesManager.tsx:405-416 | progress 100; FINISHED without error on success; FAILED with the result's error on failure |
| FileOps.HandleResults | packages/core/src/providers/UploadedFilesManager.tsx:397-423 | length and ids are kept, only status and metadata change; the flag holds iff every result naming a known id succeeded |
| FileOps.SameIdsSameIndex | packages/core/src/providers/UploadedFilesManager.tsx:404 | reconciling does not change where an id is found |
| FileOps.LastResultFor | packages/core/src/providers/UploadedFilesManager.tsx:402-404 | the last result naming the id, or none iff no result names it |
| FileOps.HandleResultsPerFile | packages/core/src/providers/UploadedFilesManager.tsx:397-423 | the first record with an id takes the last result for it (status, and metadata replaced by the result's or `{}`); every other record is unchanged |
| FileOps.ReconciledTwice | packages/core/src/providers/UploadedFilesManager.tsx:404-418 | a later result overwrites everything an earlier one set |
| Manager.Init | packages/core/src/providers/UploadedFilesManager.tsx:71-74 | the list is the initial files or empty; the status is IDLE |
| Manager.Subtype | packages/core/src/providers/UploadedFilesManager.tsx:90 | `type.split("/")[1]` is undefined iff there is no slash |
| Manager.SubtypeOfType | packages/core/src/providers/UploadedFilesManager.tsx:90 | "main/sub" gives "sub", and a second slash cuts the subtype off |
| Manager.GetValidationInfo | packages/core/src/providers/UploadedFilesManager.tsx:88-93 | one subtype per accepted type, in order, each the text after the type's first slash (Manager.Subtype), undefined exactly for types without a slash, and the size limit |
| Manager.AllFinished | packages/core/src/providers/UploadedFilesManager.tsx:95-101 | true iff every record is FINISHED |
| Manager.CheckIfAllFilesFinished | packages/core/src/providers/UploadedFilesManager.tsx:95-101 | true iff the list is non-empty, the status is not PROCESSING and every record is FINISHED |
| Manager.AllFinishedNothingToSubmit | packages/core/src/providers/UploadedFilesManager.tsx:95-101 | every record is FINISHED iff an upload would submit nothing |
| Manager.ResetControl | packages/core/src/providers/UploadedFilesManager.tsx:458-461 | the list is empty and the status IDLE; the error is kept |
| Manager.HandleFinish | packages/core/src/providers/UploadedFilesManager.tsx:425-428 | onFinish gets the files if it exists; then a reset with resetOnFinish, else FINISHED |
| Manager.ProgressStage | packages/core/src/providers/UploadedFilesManager.tsx:354-362 | an error gives FAILED; otherwise 100 or an already FINISHED record gives FINISHED, anything else UPLOADING |
| Manager.OnProgressChange | packages/core/src/providers/UploadedFilesManager.tsx:347-370 | progress outside 0..100 is ignored; otherwise only the named records' status becomes {progress, error, stage}, the stage being Manager.ProgressStage of the stage the upload started with, and nothing else changes |
| Manager.ProgressOutcome | packages/core/src/providers/UploadedFilesManager.tsx:354-369 | the stage a named record ends with: FAILED with an error, FINISHED at 100 or if already finished at the start, else UPLOADING |
| Manager.ApplyProgress | packages/core/src/providers/UploadedFilesManager.tsx:347-370 | a run of reports keeps length, ids and all but status, and leaves records no in-range report named untouched |
| Manager.SameRecordTransitive | packages/core/src/providers/UploadedFilesManager.tsx:347-370 | status-only changes compose |
| Manager.UploadAllFiles | packages/core/src/providers/UploadedFilesManager.tsx:372-395 | throws iff there is no onUpload; RETRY after ERROR, else PROCESSING; onUpload gets the unfinished records in order; a throw is only logged; any failure ends ERROR with onUpload as the only effect; full success runs handleFinish, whose only effect is onFinish with the reconciled copy when it is set |
| Manager.UploadWithoutProgress | packages/core/src/providers/UploadedFilesManager.tsx:385-423 | without progress reports the live list is unchanged whatever the results say, and onFinish gets the reconciled copy |
| Manager.DeleteAllFiles | packages/core/src/providers/UploadedFilesManager.tsx:430-443 | onDelete gets only FINISHED records and only if there are any; the effects are exactly that call, followed by the error log when it throws; a throw keeps the list and ends ERROR, otherwise the list is empty and IDLE |
| Manager.DeleteAllFilesTwice | packages/core/src/providers/UploadedFilesManager.tsx:430-443 | after a call that emptied the list, a second call calls no handler and leaves the list empty and IDLE |
| Manager.DeleteFileAsWritten | packages/core/src/providers/UploadedFilesManager.tsx:328-345 | throws iff the id is unknown; no-op on a FINISHED record; otherwise the last write leaves the renumbered remainder even after a reset |
| Manager.DeleteFileKeepsFilesAfterReset | packages/core/src/providers/UploadedFilesManager.tsx:336-343 | with resetOnFinish, deleting the last open record next to a FINISHED one ends IDLE with that record still listed |
| Manager.DeleteFile | packages/core/src/providers/UploadedFilesManager.tsx:328-345 | throws iff the id is unknown; no-op on FINISHED; otherwise onDelete first, the rest renumbered 1..N-1, IDLE when empty, the finish sequence (empty with resetOnFinish) when all the rest are FINISHED; the effects are onDelete if set, then onFinish with the renumbered rest exactly when the rest all finished and onFinish is set |
| Manager.DeleteFileDiffersOnlyByReset | packages/core/src/providers/UploadedFilesManager.tsx:328-345 | the corrected and as-written versions agree on status and effects, and entirely without resetOnFinish |
| Adding.Reports | packages/core/src/providers/UploadedFilesManager.tsx:106-140 | the error handler is called once per error, in order |
| Adding.ReadAll | packages/core/src/providers/UploadedFilesManager.tsx:243-264 | the reads succeed iff every file reads, and each result is that file's data URI |
| Adding.IngestAll | packages/core/src/providers/UploadedFilesManager.tsx:243-264 | each accepted file becomes a public record with the next nanoid, in input order |
| Adding.Number | packages/core/src/providers/UploadedFilesManager.tsx:273-286 | records get consecutive orders from the first one, stage IDLE and progress 0 |
| Adding.TransformFiles | packages/core/src/providers/UploadedFilesManager.tsx:234-287 | drop errors are reported first; a fully rejected batch is skipped; an unreadable file aborts; without processors the read files are added as records numbered from max order + 1 with fresh ids; with processors the pipeline's end decides (Adding.Decides, Adding.Outcome) |
| Adding.TransformValidated | packages/core/src/providers/UploadedFilesManager.tsx:237-287 | the same decision, stated for a given split into accepted files and errors |
| Adding.PreProcessAndNumber | packages/core/src/providers/UploadedFilesManager.tsx:267-287 | the earlier reports come first; without processors the records are numbered as they are; with processors a throw aborts, a batch rejected on re-validation is skipped with its errors reported, survivors are numbered; added records carry fresh ids |
| Adding.FinishedIdsFresh | packages/core/src/providers/UploadedFilesManager.tsx:215-232 | what survives pre-processing carries an id handed out while adding |
| Adding.AddFiles | packages/core/src/providers/UploadedFilesManager.tsx:289-303 | the existing list is a kept prefix; new records are IDLE with progress 0, orders max+1, max+2, … and fresh ids; 1..N stays dense; status is IDLE on every path; full rejection only reports; without processors a fully read batch is appended as its numbered records; an added transform is appended, a skipped one changes no record, an aborted one changes no record and ends with the error report |
| Adding.Apply | packages/core/src/providers/UploadedFilesManager.tsx:289-303 | the same end of addFiles stated for a given transform result |
| Adding.DecidedBatch | packages/core/src/providers/UploadedFilesManager.tsx:237-287 | a fully rejected batch is skipped; without processors a fully read batch is added as its numbered records, or nothing when rejected |
| Adding.SplitRejectedInSingleMode | packages/core/src/providers/UploadedFilesManager.tsx:215-232 | in single-file mode a record its processor splits into several pages is skipped on re-validation, and only MULTIPLE_NOT_ALLOWED is reported |
| Adding.SingleFileSplits | packages/core/src/providers/UploadedFilesManager.tsx:215-232 | the pipeline replaces one record by the processor's pages, and the re-validation rejects them all with one MULTIPLE_NOT_ALLOWED error |
| Reorder.Without | packages/components/src/components/FileUploadControl.tsx:31 | removing one element shortens the sequence by one |
| Reorder.Insert | packages/components/src/components/FileUploadControl.tsx:31 | inserting one element lengthens the sequence by one |
| Reorder.InsertWithout | packages/components/src/components/FileUploadControl.tsx:31 | insert and remove at one index are inverse, and an insert adds exactly the element to the multiset |
| Reorder.ArrayMove | packages/components/src/components/FileUploadControl.tsx:31 | the moved element ends at the destination, the others keep their relative order, and the result is a permutation |
| Reorder.ArrayMoveBySplice | packages/core/src/FileUploadControl.tsx:50-53 | splicing out at the source and back in at the destination is the same move |
| Reorder.MoveBack | packages/components/src/components/FileUploadControl.tsx:31 | a move is undone by the opposite move |
| Reorder.DragEndComponents | packages/components/src/components/FileUploadControl.tsx:22-34 | no destination or the same index changes nothing; otherwise the moved list, renumbered, with no other field changed |
| Reorder.FindByPosition | packages/core/src/FileUploadControl.tsx:40-45 | a record is found iff some record's order - 1 is the index |
| Reorder.DragEndCore | packages/core/src/FileUploadControl.tsx:31-61 | no destination or the same index changes nothing; it throws unless both positions are found; a success is renumbered 1..N with the same length (the move itself through Reorder.HandlersAgree) |
| Reorder.HandlersAgree | packages/core/src/FileUploadControl.tsx:31-61 | whenever the core handler finds both positions and both indices are in range, it produces the components handler's list: the source record lands at the destination, the rest keep their order, a permutation |
| Reorder.DenseFindsEveryPosition | packages/core/src/FileUploadControl.tsx:40-45 | on a list numbered 1..N every in-range index is found, so the core handler never refuses it |
| Reorder.CoreNeedsDenseOrders | packages/core/src/FileUploadControl.tsx:40-48 | off the 1..N numbering the core handler refuses a move the other handler performs |
| Reorder.FinishedRecordRenumbered | packages/core/src/components/file-list/FileList.tsx:38-41 | the UI guard protects only the dragged record: moving an open record across a FINISHED one renumbers the FINISHED one |
| MobileDetect.GetMobileDetect | packages/shared/src/hooks/use-mobile-detect.ts:13-30 | each flag is a case-insensitive substring match; mobile is android, iOS, Opera Mini or IEMobile; desktop iff neither mobile nor SSR, so never both |
| MobileDetect.UpperAll | packages/shared/src/hooks/use-mobile-detect.ts:14-18 | upper-casing works character by character |
| MobileDetect.MatchIgnoresCase | packages/shared/src/hooks/use-mobile-detect.ts:14-18 | matching is the same on an upper-cased text |
| MobileDetect.ClassificationIgnoresCase | packages/shared/src/hooks/use-mobile-detect.ts:13-30 | the classification is the same for an upper-cased user agent |
| MobileDetect.IPhoneIsMobile | packages/shared/src/hooks/use-mobile-detect.ts:15-21 | any user agent containing "iPhone" is iOS, mobile and not desktop |
| MobileDetect.UserAgent | packages/shared/src/hooks/use-mobile-detect.ts:33-34 | without navigator the user agent is "SSR" |
| MobileDetect.UseMobileDetect | packages/shared/src/hooks/use-mobile-detect.ts:32-50 | before the effect runs every flag is undefined; afterwards the flags are the classification of the user agent |
| MobileDetect.ServerSideFallback | packages/shared/src/hooks/use-mobile-detect.ts:33-46 | without navigator: SSR true, desktop and mobile false |
| Timestamp.Slice2 | packages/shared/src/utils/date/index.ts:3 | `slice(2)` drops two characters, and gives "" for a shorter string |
| Timestamp.AddUniqueTimestamp | packages/shared/src/utils/date/index.ts:1-15 | the result is s, one space, then the stamp |
| Timestamp.TwoDigitsValue | packages/shared/src/utils/date/index.ts:3-13 | zero-padding to two digits spells a value below 100 in exactly two digits |
| Timestamp.YearPart | packages/shared/src/utils/date/index.ts:3 | a four-digit year gives two digits reading year mod 100 |
| Timestamp.StampRoundTrip | packages/shared/src/utils/date/index.ts:1-15 | a four-digit year gives a twelve-digit stamp whose pairs read back as year mod 100, month + 1, day, hours, minutes and seconds |
| MimeType.Before | packages/shared/src/utils/image-processing/load-image.ts:5 | the text before the first separator: a prefix without it that is followed by the separator, or everything when there is none |
| MimeType.GetMimeType | packages/shared/src/utils/image-processing/load-image.ts:3-6 | defined iff a ':' comes before the first ';' and ','; the result holds no ':' |
| MimeType.NoColon | packages/shared/src/utils/image-processing/load-image.ts:5 | without a ':' in the header the result is undefined |
| MimeType.PayloadIgnored | packages/shared/src/utils/image-processing/load-image.ts:5 | everything after the first ',' is ignored |
| MimeType.ParamsIgnored | packages/shared/src/utils/image-processing/load-image.ts:5 | everything after the first ';' is ignored |
| MimeType.MediaTypeAfterScheme | packages/shared/src/utils/image-processing/load-image.ts:5 | the result is the text after the scheme's ':' |
| MimeType.SecondColonEnds | packages/shared/src/utils/image-processing/load-image.ts:5 | a second ':' ends the result |
| MimeType.DataUri | packages/shared/src/utils/image-processing/load-image.ts:4-5 | "data:image/jpeg;base64,…" shapes give the media type |
| Webcam.VideoInputs | packages/components/src/components/camera/use-webcam.tsx:104 | exactly the devices of kind "videoinput" |
| Webcam.VideoInputsAppend | packages/components/src/components/camera/use-webcam.tsx:104 | the filter distributes over concatenation, so enumeration order is kept |
| Webcam.GetDevices | packages/components/src/components/camera/use-webcam.tsx:100-108 | a failed enumeration gives undefined; otherwise the video inputs |
| Webcam.DeviceCount | packages/components/src/components/camera/use-webcam.tsx:91-98 | the number of video inputs, 0 on failure |
| Webcam.CurrentIndex | packages/components/src/components/camera/use-webcam.tsx:166-170 | the index of the selected device, or -1 iff none is selected or it is not listed |
| Webcam.NextIndex | packages/components/src/components/camera/use-webcam.tsx:166-175 | one device gives 0; an unlisted current one among several gives 1; the index is always in range |
| Webcam.NextFollows | packages/components/src/components/camera/use-webcam.tsx:171-175 | with distinct ids, the device after the one at k is at (k+1) mod n |
| Webcam.IndexOfDistinct | packages/components/src/components/camera/use-webcam.tsx:166-170 | with distinct ids, looking up a listed device finds its own position |
| Webcam.InitCamera | packages/components/src/components/camera/use-webcam.tsx:74-81 | the camera starts LOADING, nothing selected, mirrored as configured |
| Webcam.DoNextDevice | packages/components/src/components/camera/use-webcam.tsx:159-180 | no device list: ERROR with the search message and the selection kept; no device: the indexing throws; otherwise READY with the next device selected |
| Webcam.DoMirrorDevice | packages/components/src/components/camera/use-webcam.tsx:155-157 | mirroring toggles the flag and nothing else |
| Webcam.MirrorTwice | packages/components/src/components/camera/use-webcam.tsx:155-157 | mirroring twice restores the camera |
| Webcam.MergeConstraints | packages/components/src/components/camera/use-webcam.tsx:64-67 | a given width or height replaces the default; a missing one keeps it |
| Webcam.RequestedSize | packages/components/src/components/camera/use-webcam.tsx:83-89 | on Android width and height are swapped; otherwise unchanged |
| Webcam.AndroidDefaults | packages/components/src/components/camera/use-webcam.tsx:40-89 | on Android the default ideal width is 1280 and height 720 |
| Strings.Split | packages/core/src/providers/UploadedFilesManager.tsx:90 | at least one piece, none holding the separator |
| Strings.JoinSplit | packages/core/src/providers/UploadedFilesManager.tsx:90 | joining the pieces of a split gives the string back |
| Strings.SplitJoin | packages/core/src/providers/UploadedFilesManager.tsx:90 | splitting a join of separator-free pieces gives the pieces back |
| Strings.SplitFirstPiece | packages/core/src/providers/UploadedFilesManager.tsx:90 | there is a second piece iff the separator occurs; the first piece is the prefix that ends at the first separator |
| Strings.NatToStringRoundTrip | packages/shared/src/utils/date/index.ts:3-13 | reading the decimal string of n gives n |
| Strings.PadStart | packages/shared/src/utils/date/index.ts:7 | padding keeps the string as the suffix, fills only in front, and reaches the width |

## Left out

- Rendering, context plumbing, toasts and intl message texts. A message is an opaque `fmt(kind, name)`. The choice between `onAddFileError` and the toast is folded into one `ReportDropError` effect.
- Browser I/O: FileReader, `navigator.mediaDevices`, `navigator.userAgent` and the clock. Each is a parameter.
- The PDF and image pre-processors. A pre-processor is an abstract `run` that returns records, returns nothing, or throws.
- Asynchrony: interleaved `addFiles`/`uploadAllFiles` calls, stale `files` closures and React batching. Each operation runs to completion on the state it starts from.
- Object aliasing. `handleResults` and `updateFileStage` write into record objects that the live list shares with its copies, and the core drag handler assigns `order` in place. The model copies values. So reconciled results only reach `onFinish`, and `UpdateFileStage` returns a new list.
- The order in which `Promise.all` hands out nanoids. Ids are taken in list order from the `freshId` stream. Their distinctness is a hypothesis of the lemmas that need it.
- `onFinish`, `onDelete` in `deleteFile`, and the error handler throwing. They are effects that always return.
- Floating point: progress is an integer, the size limit is compared exactly as `size > maxFileSizeMb·10⁶`, and the webcam aspect ratio and scale factor are not modelled.
- Records without an `order`. `order` is always an integer; `undefined - 1` (NaN) in the core drag handler is not modelled.
- Duplicate keys in a JavaScript object are modelled as a list of properties in which the first wins, not as a JavaScript object literal.
- The contents of the translation JSON files and the list of image MIME types. Both are parameters.
- The `arrayMove` helper of dnd-kit is not part of this model. `Reorder.ArrayMove` follows its documented splice behaviour.
- The webcam capture, screenshot and media-stream handling. Only the device rules, mirroring and the Android size swap are modelled.
- The `file instanceof File` check in `transformFiles`. Inputs to `addFiles` are always raw files here.
- StateMachine.ErrorString: for an `Error` with an empty message the result is "{}"; the contract only states the other cases.
- PreProcessing.ApplyPreProcessing: the `console.error` written when a processor returns nothing is not an effect; the record is kept, as in the source, and only the log line is missing.
- Webcam.GetDevices: the `console.error` written when the enumeration fails is not modelled; only the undefined result is.
- Manager.DeleteFileAsWritten: the contract states the failure, the no-op and the final list; the status and effects are stated only through Manager.DeleteFileDiffersOnlyByReset and Manager.DeleteFile.
- The order of a translation table's properties. The property list is taken to be in `Object.keys` order already: integer-like keys first in ascending order, then the others in insertion order.

## Findings

| source | as written | input that shows it | evidently intended | confidence | as-written member | corrected member |
|---|---|---|---|---|---|---|
| packages/core/src/providers/UploadedFilesProvider.tsx:36-42 | `locale in translations` also accepts names inherited from `Object.prototype`, and the lookup then returns an object with no messages | locale "toString" | an unknown locale falls back to the "en" table | high, not executed | Translations.GetTranslationAsWritten, Translations.InheritedLocaleLosesMessages | Translations.GetTranslation, Translations.TranslationIsATable |
| packages/core/src/providers/UploadedFilesManager.tsx:328-345 | with `resetOnFinish`, `handleFinish` resets the control, but the final `setFiles(reorderFiles(updatedFiles))` writes the FINISHED records back into the list | resetOnFinish; files [a FINISHED, b IDLE]; deleteFile("b") gives status IDLE with [a] still listed | a reset leaves an empty list, as it does after an upload | medium, not executed | Manager.DeleteFileAsWritten, Manager.DeleteFileKeepsFilesAfterReset | Manager.DeleteFile, Manager.DeleteFileDiffersOnlyByReset |
