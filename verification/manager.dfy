/** `UploadedFilesManager`: the list of uploaded files, the status machine
    and the operations the context exposes. Every operation is a function
    from the state (and what the host does in reply) to the new state and
    the calls it makes on the outside world, in order. */
module Manager {
  import opened Results
  import opened Strings
  import opened Js
  import opened StateMachine
  import opened DropErrors
  import opened Records
  import opened Validation
  import opened PreProcessing
  import opened FileOps

  const FINISHED := "FINISHED"
  const SUCCESS := "SUCCESS"
  const RETRY := "RETRY"

  /** The files, the status machine and how many ids nanoid has handed out. */
  datatype State = State(files: seq<UploadedFile>, sm: Machine, nextId: nat)

  /** `useState(initFiles ?? [])` and `useStateMachine("IDLE")`. */
  function Init(initFiles: Option<seq<UploadedFile>>): (s: State)
    ensures s.files == initFiles.GetOr([]) && s.sm.status == IDLE && s.sm.error.None?
  {
    State(initFiles.GetOr([]), StateMachine.Init(Some(IDLE), Undefined), 0)
  }

  /** Which optional handlers the host passed. */
  datatype Handlers = Handlers(hasOnUpload: bool, hasOnFinish: bool, hasOnDelete: bool,
                               preProcessFiles: Option<ProcessorMap>)

  /** Everything outside the manager: the resolved configuration, the
      handlers, the intl formatter, nanoid, `blobToBase64` (`None` when it
      rejects) and the pre-processors. */
  datatype Env = Env(cfg: Config, handlers: Handlers, fmt: Formatter, freshId: IdSource,
                     toBase64: RawFile -> Option<string>, run: Runner)

  /** What an operation does outside the state: `errorHandler(dropError)`
      (the host's `onAddFileError`, or a toast of the error text),
      `errorHandler(thrown)`, `console.error`, and the host callbacks. */
  datatype Effect =
    | ReportDropError(err: DropError)
    | ReportException
    | LogError
    | CallOnUpload(files: seq<UploadedFile>)
    | CallOnFinish(files: seq<UploadedFile>)
    | CallOnDelete(files: seq<UploadedFile>)

  datatype Step = Step(state: State, effects: seq<Effect>)

  /** `type.split("/")[1]`: the subtype, `undefined` without a slash. */
  function Subtype(mimeType: string): (r: Option<string>)
    ensures r.None? <==> '/' !in mimeType
  {
    var pieces := Split(mimeType, '/');
    SplitFirstPiece(mimeType, '/');
    if |pieces| > 1 then Some(pieces[1]) else None
  }

  /** "image/png" gives "png"; the part after a second slash is dropped. */
  lemma SubtypeOfType(main: string, sub: string, rest: string)
    requires '/' !in main && '/' !in sub
    ensures Subtype(main + "/" + sub) == Some(sub)
    ensures Subtype(main + "/" + sub + "/" + rest) == Some(sub)
  {
    SplitAround(main, sub, '/');
    SplitNoSeparator(sub, '/');
    assert main + "/" + sub == main + ['/'] + sub;
    SplitAround(main, sub + "/" + rest, '/');
    SplitAround(sub, rest, '/');
    assert main + "/" + sub + "/" + rest == main + ['/'] + (sub + ['/'] + rest);
  }

  /** `getValidationInfo()`: the subtypes of the accepted types and the size
      limit. */
  function GetValidationInfo(cfg: Config): (r: (seq<Option<string>>, real))
    ensures |r.0| == |cfg.mimeTypes| && r.1 == cfg.maxFileSizeMb
    ensures forall i :: 0 <= i < |r.0| ==> (r.0[i].None? <==> '/' !in cfg.mimeTypes[i])
    ensures forall i :: 0 <= i < |r.0| ==> r.0[i] == Subtype(cfg.mimeTypes[i])
  {
    (seq(|cfg.mimeTypes|, i requires 0 <= i < |cfg.mimeTypes| => Subtype(cfg.mimeTypes[i])), cfg.maxFileSizeMb)
  }

  /** `checkIfAllFilesFinished(files)`: a non-empty list, no upload in
      progress, and every record FINISHED. */
  function AllFinished(files: seq<UploadedFile>): (b: bool)
    ensures b <==> forall i :: 0 <= i < |files| ==> IsFinished(files[i])
    decreases |files|
  {
    |files| == 0 || (IsFinished(files[0]) && AllFinished(files[1..]))
  }

  function CheckIfAllFilesFinished(sm: Machine, files: seq<UploadedFile>): (b: bool)
    ensures b <==> |files| > 0 && sm.status != PROCESSING && forall i :: 0 <= i < |files| ==> IsFinished(files[i])
  {
    StatusIsntIsNegation(sm, [PROCESSING]);
    if |files| == 0 || StatusIs(sm, [PROCESSING]) then false else AllFinished(files)
  }

  /** The list holds no unfinished record exactly when nothing is left to
      submit, so after a full success nothing is submitted again. */
  lemma AllFinishedNothingToSubmit(files: seq<UploadedFile>)
    ensures AllFinished(files) <==> ByFinished(files, false) == []
  {
    if !AllFinished(files) {
      var i :| 0 <= i < |files| && !IsFinished(files[i]);
      assert files[i] in files;
      assert files[i] in ByFinished(files, false);
    }
  }

  /** `resetControl()`. */
  function ResetControl(s: State): (r: State)
    ensures r.files == [] && r.sm.status == IDLE && r.sm.error == s.sm.error && r.nextId == s.nextId
  {
    State([], SetOnly(s.sm, IDLE), s.nextId)
  }

  /** `handleFinish(files)`: `onFinish(files)` if defined, then a reset or
      the FINISHED status. */
  function HandleFinish(s: State, env: Env, files: seq<UploadedFile>): (r: Step)
    ensures r.effects == (if env.handlers.hasOnFinish then [CallOnFinish(files)] else [])
    ensures env.cfg.resetOnFinish ==> r.state == ResetControl(s)
    ensures !env.cfg.resetOnFinish ==> r.state == s.(sm := SetOnly(s.sm, FINISHED))
  {
    var effects := if env.handlers.hasOnFinish then [CallOnFinish(files)] else [];
    if env.cfg.resetOnFinish then Step(ResetControl(s), effects)
    else Step(s.(sm := SetOnly(s.sm, FINISHED)), effects)
  }

  /** One `onProgressChange(fileId, progress, error)` call of the host. */
  datatype ProgressCall = ProgressCall(fileId: string, progress: int, error: Option<UploadError>)

  predicate InRange(progress: int) {
    0 <= progress <= 100
  }

  /** The stage a progress report sets. The previous stage is read from the
      list the upload started with (`getFile` sees the render the upload
      was started from); an unknown id has no stage. */
  function ProgressStage(previous: Option<Stage>, progress: int, error: Option<UploadError>): (stage: Option<Stage>)
    ensures stage.Some?
    ensures error.Some? <==> stage == Some(Failed)
    ensures error.None? && progress == 100 ==> stage == Some(Finished)
    ensures error.None? && previous == Some(Finished) ==> stage == Some(Finished)
    ensures error.None? && progress != 100 && previous != Some(Finished) ==> stage == Some(Uploading)
  {
    if error.Some? then Some(Failed)
    else if progress == 100 then Some(Finished)
    else if previous != Some(Finished) then Some(Uploading)
    else previous
  }

  /** `onProgressChange`: out-of-range progress is ignored; otherwise every
      record with the id gets a whole new status. */
  function OnProgressChange(snapshot: seq<UploadedFile>, live: seq<UploadedFile>, call: ProgressCall)
    : (r: seq<UploadedFile>)
    ensures !InRange(call.progress) ==> r == live
    ensures |r| == |live|
    ensures forall i :: 0 <= i < |live| && (live[i].id != call.fileId || !InRange(call.progress)) ==> r[i] == live[i]
    ensures forall i :: 0 <= i < |live| ==> SameRecord(live[i], r[i])
    ensures InRange(call.progress) ==>
              forall i :: 0 <= i < |live| && live[i].id == call.fileId ==>
                r[i].uploadStatus.progress == Some(call.progress) && r[i].uploadStatus.error == call.error
    ensures InRange(call.progress) ==>
              var previous := match GetFile(snapshot, call.fileId)
                              case None => None
                              case Some(f) => f.uploadStatus.stage;
              forall i :: 0 <= i < |live| && live[i].id == call.fileId ==>
                r[i].uploadStatus.stage == ProgressStage(previous, call.progress, call.error)
  {
    if !InRange(call.progress) then live
    else
      var previous := match GetFile(snapshot, call.fileId)
                      case None => None
                      case Some(f) => f.uploadStatus.stage;
      UpdateFile(live, call.fileId,
                 StatusPatch(UploadStatus(ProgressStage(previous, call.progress, call.error), Some(call.progress), call.error)))
  }

  /** An error always fails the record; without one, a record the upload
      started with as FINISHED stays FINISHED whatever progress is
      reported, 100 finishes any record, and any other report makes it
      UPLOADING. */
  lemma ProgressOutcome(snapshot: seq<UploadedFile>, live: seq<UploadedFile>, call: ProgressCall, i: nat)
    requires i < |live| && live[i].id == call.fileId && InRange(call.progress)
    ensures var stage := OnProgressChange(snapshot, live, call)[i].uploadStatus.stage;
            && (call.error.Some? <==> stage == Some(Failed))
            && (call.error.None? && call.progress == 100 ==> stage == Some(Finished))
            && (call.error.None? && GetFile(snapshot, call.fileId).Some? && IsFinished(GetFile(snapshot, call.fileId).value)
                ==> stage == Some(Finished))
            && (call.error.None? && call.progress != 100
                && !(GetFile(snapshot, call.fileId).Some? && IsFinished(GetFile(snapshot, call.fileId).value))
                ==> stage == Some(Uploading))
  {
  }

  /** The host's progress reports in the order it made them. */
  function ApplyProgress(snapshot: seq<UploadedFile>, live: seq<UploadedFile>, calls: seq<ProgressCall>)
    : (r: seq<UploadedFile>)
    ensures |r| == |live|
    ensures forall i :: 0 <= i < |live| ==> SameRecord(live[i], r[i])
    ensures forall i :: 0 <= i < |live| && live[i].id !in Touched(calls) ==> r[i] == live[i]
    decreases |calls|
  {
    if |calls| == 0 then live
    else
      var r := ApplyProgress(snapshot, live, calls[..|calls| - 1]);
      assert Touched(calls[..|calls| - 1]) <= Touched(calls) by {
        forall x | x in Touched(calls[..|calls| - 1]) ensures x in Touched(calls) {
          var j :| 0 <= j < |calls| - 1 && InRange(calls[..|calls| - 1][j].progress) && calls[..|calls| - 1][j].fileId == x;
          assert calls[j] == calls[..|calls| - 1][j];
        }
      }
      var call := calls[|calls| - 1];
      assert InRange(call.progress) ==> call.fileId in Touched(calls);
      SameRecordTransitive(live, r, OnProgressChange(snapshot, r, call));
      OnProgressChange(snapshot, r, call)
  }

  lemma SameRecordTransitive(a: seq<UploadedFile>, b: seq<UploadedFile>, c: seq<UploadedFile>)
    requires |a| == |b| == |c|
    requires forall i :: 0 <= i < |a| ==> SameRecord(a[i], b[i])
    requires forall i :: 0 <= i < |a| ==> SameRecord(b[i], c[i])
    ensures forall i :: 0 <= i < |a| ==> SameRecord(a[i], c[i])
  {
  }

  /** The ids an in-range progress report has touched. */
  function Touched(calls: seq<ProgressCall>): set<string> {
    set j | 0 <= j < |calls| && InRange(calls[j].progress) :: calls[j].fileId
  }

  /** What the host's `onUpload` promise does. */
  datatype UploadOutcome = UploadThrew | UploadReturned(results: seq<UploadResult>)

  /** `uploadAllFiles()`: it throws without an `onUpload`; otherwise RETRY
      after an error and PROCESSING before, the unfinished records go to
      `onUpload`, and the reply decides: a throw is only logged, a full
      success is IDLE and then `handleFinish`, anything else is ERROR. */
  function UploadAllFiles(st: State, env: Env, calls: seq<ProgressCall>, outcome: UploadOutcome): (r: Result<Step>)
    ensures r.Failure? <==> !env.handlers.hasOnUpload
    ensures r.Success? ==> |r.value.effects| >= 1 && r.value.effects[0] == CallOnUpload(ByFinished(st.files, false))
    ensures r.Success? ==> r.value.state.sm.error == st.sm.error && r.value.state.nextId == st.nextId
    ensures r.Success? && !(outcome.UploadReturned? && HandleResults(st.files, outcome.results).0 && env.cfg.resetOnFinish) ==>
              r.value.state.files == ApplyProgress(st.files, st.files, calls)
    ensures r.Success? && outcome.UploadThrew? ==>
              && r.value.state.sm.status == (if st.sm.status == ERROR then RETRY else PROCESSING)
              && r.value.effects == [CallOnUpload(ByFinished(st.files, false)), LogError]
    ensures r.Success? && outcome.UploadReturned? && !HandleResults(st.files, outcome.results).0 ==>
              && r.value.state.sm.status == ERROR
              && r.value.effects == [CallOnUpload(ByFinished(st.files, false))]
    ensures r.Success? && outcome.UploadReturned? && HandleResults(st.files, outcome.results).0 ==>
              && r.value.state.sm.status == (if env.cfg.resetOnFinish then IDLE else FINISHED)
              && (env.cfg.resetOnFinish ==> r.value.state.files == [])
              && (env.handlers.hasOnFinish <==> CallOnFinish(HandleResults(st.files, outcome.results).1) in r.value.effects)
              && r.value.effects == [CallOnUpload(ByFinished(st.files, false))]
                                    + (if env.handlers.hasOnFinish then [CallOnFinish(HandleResults(st.files, outcome.results).1)] else [])
  {
    if !env.handlers.hasOnUpload then Failure("Provider has no onUpload function defined.")
    else
      var sm := if StatusIs(st.sm, [ERROR]) then SetOnly(st.sm, RETRY) else SetOnly(st.sm, PROCESSING);
      var submitted := [CallOnUpload(ByFinished(st.files, false))];
      var live := ApplyProgress(st.files, st.files, calls);
      match outcome
      case UploadThrew => Success(Step(State(live, sm, st.nextId), submitted + [LogError]))
      case UploadReturned(results) =>
        var (ok, all) := HandleResults(st.files, results);
        if ok then
          var fin := HandleFinish(State(live, SetOnly(sm, IDLE), st.nextId), env, all);
          Success(Step(fin.state, submitted + fin.effects))
        else Success(Step(State(live, SetOnly(sm, ERROR), st.nextId), submitted))
  }

  /** The reconciled records only reach `onFinish`: without progress
      reports the list after an upload is the list before it, whatever the
      results say, while `onFinish` gets the reconciled copy. */
  lemma UploadWithoutProgress(st: State, env: Env, results: seq<UploadResult>)
    requires env.handlers.hasOnUpload && !env.cfg.resetOnFinish
    ensures var r := UploadAllFiles(st, env, [], UploadReturned(results));
            && r.Success? && r.value.state.files == st.files
            && (HandleResults(st.files, results).0 && env.handlers.hasOnFinish ==>
                  r.value.effects[1] == CallOnFinish(HandleResults(st.files, results).1))
  {
  }

  /** `deleteAllFiles(onDeleteThrows)`: only FINISHED records are reported
      to `onDelete` (and only if there are any); a throw from it keeps the
      list and ends in ERROR, otherwise the list is emptied. */
  function DeleteAllFiles(st: State, env: Env, onDeleteThrows: bool): (r: Step)
    ensures var finished := ByFinished(st.files, true);
            var called := |finished| > 0 && env.handlers.hasOnDelete;
            && (called <==> CallOnDelete(finished) in r.effects)
            && (forall e :: e in r.effects && e.CallOnDelete? ==> forall x :: x in e.files ==> IsFinished(x))
            && (called && onDeleteThrows ==> r.state.files == st.files && r.state.sm.status == ERROR)
            && (!(called && onDeleteThrows) ==> r.state.files == [] && r.state.sm.status == IDLE)
            && r.state.sm.error == st.sm.error
            && r.effects == (if called then [CallOnDelete(finished)] + (if onDeleteThrows then [LogError] else []) else [])
  {
    var sm := SetOnly(st.sm, PROCESSING);
    var finished := ByFinished(st.files, true);
    if |finished| > 0 && env.handlers.hasOnDelete then
      if onDeleteThrows then Step(State(st.files, SetOnly(sm, ERROR), st.nextId), [CallOnDelete(finished), LogError])
      else Step(State([], SetOnly(sm, IDLE), st.nextId), [CallOnDelete(finished)])
    else Step(State([], SetOnly(sm, IDLE), st.nextId), [])
  }

  /** `deleteFile(fileId)` as written: it throws for an unknown id and does
      nothing to a FINISHED record. Otherwise it drops every record with the
      id, reports the record to `onDelete`, finishes when only FINISHED
      records are left, and writes the renumbered list last, so that a
      reset `handleFinish` asked for is overwritten. */
  function DeleteFileAsWritten(st: State, env: Env, fileId: string): (r: Result<Step>)
    ensures r.Failure? <==> GetFile(st.files, fileId).None?
    ensures r.Success? && IsFinished(GetFile(st.files, fileId).value) ==> r.value == Step(st, [])
    ensures r.Success? && !IsFinished(GetFile(st.files, fileId).value) ==>
              r.value.state.files == ReorderFiles(RemoveFile(st.files, fileId))
  {
    var found := GetFile(st.files, fileId);
    if found.None? then Failure("File with ID " + fileId + " not found.")
    else
      var file := found.value;
      if IsFinished(file) then Success(Step(st, []))
      else
        var updated := RemoveFile(st.files, file.id);
        var deleted := if env.handlers.hasOnDelete then [CallOnDelete([file])] else [];
        var afterFinish :=
          if CheckIfAllFilesFinished(st.sm, updated) then
            HandleFinish(st.(sm := SetOnly(st.sm, SUCCESS)), env, ReorderFiles(updated))
          else Step(st, []);
        var sm := if |updated| == 0 then SetOnly(afterFinish.state.sm, IDLE) else afterFinish.state.sm;
        Success(Step(State(ReorderFiles(updated), sm, st.nextId), deleted + afterFinish.effects))
  }

  /** With `resetOnFinish`, deleting the last unfinished record next to a
      FINISHED one leaves that record in the list although the control
      has been reset to IDLE. */
  lemma DeleteFileKeepsFilesAfterReset(env: Env)
    requires env.cfg.resetOnFinish
    ensures var done := UploadedFile("a", None, "a.png", Some(1), "image/png", None, None, None,
                                     UploadStatus(Some(Finished), Some(100), None), 1);
            var open := UploadedFile("b", None, "b.png", Some(1), "image/png", None, None, None,
                                     UploadStatus(Some(Idle), Some(0), None), 2);
            var st := State([done, open], StateMachine.Init(Some(IDLE), Undefined), 0);
            var r := DeleteFileAsWritten(st, env, "b");
            r.Success? && r.value.state.sm.status == IDLE && r.value.state.files == [done]
  {
    var done := UploadedFile("a", None, "a.png", Some(1), "image/png", None, None, None,
                             UploadStatus(Some(Finished), Some(100), None), 1);
    var open := UploadedFile("b", None, "b.png", Some(1), "image/png", None, None, None,
                             UploadStatus(Some(Idle), Some(0), None), 2);
    assert [done, open][..1] == [done];
    assert RemoveFile([done, open], "b") == [done];
  }

  /** `deleteFile(fileId)` as the reset is meant to work: when the deletion
      finishes the control and `resetOnFinish` is set, the list ends empty. */
  function DeleteFile(st: State, env: Env, fileId: string): (r: Result<Step>)
    ensures r.Failure? <==> GetFile(st.files, fileId).None?
    ensures r.Success? ==> r.value.state.sm.error == st.sm.error && r.value.state.nextId == st.nextId
    ensures r.Success? && IsFinished(GetFile(st.files, fileId).value) ==> r.value == Step(st, [])
    ensures r.Success? && !IsFinished(GetFile(st.files, fileId).value) ==>
              var file := GetFile(st.files, fileId).value;
              var updated := RemoveFile(st.files, fileId);
              var finishes := CheckIfAllFilesFinished(st.sm, updated);
              && |updated| < |st.files|
              && (env.handlers.hasOnDelete <==> |r.value.effects| > 0 && r.value.effects[0] == CallOnDelete([file]))
              && r.value.effects == (if env.handlers.hasOnDelete then [CallOnDelete([file])] else [])
                                    + (if finishes && env.handlers.hasOnFinish then [CallOnFinish(ReorderFiles(updated))] else [])
              && (finishes && env.cfg.resetOnFinish ==> r.value.state.files == [] && r.value.state.sm.status == IDLE)
              && (finishes && !env.cfg.resetOnFinish ==>
                    r.value.state.files == ReorderFiles(updated) && r.value.state.sm.status == FINISHED)
              && (!finishes ==>
                    r.value.state.files == ReorderFiles(updated)
                    && r.value.state.sm.status == (if |updated| == 0 then IDLE else st.sm.status))
              && Dense(r.value.state.files)
  {
    var found := GetFile(st.files, fileId);
    if found.None? then Failure("File with ID " + fileId + " not found.")
    else
      var file := found.value;
      if IsFinished(file) then Success(Step(st, []))
      else
        var updated := RemoveFile(st.files, file.id);
        var i := FirstIndex(st.files, fileId);
        CountPositive(st.files, i);
        var deleted := if env.handlers.hasOnDelete then [CallOnDelete([file])] else [];
        if CheckIfAllFilesFinished(st.sm, updated) then
          var fin := HandleFinish(State(ReorderFiles(updated), SetOnly(st.sm, SUCCESS), st.nextId), env, ReorderFiles(updated));
          Success(Step(fin.state, deleted + fin.effects))
        else
          var sm := if |updated| == 0 then SetOnly(st.sm, IDLE) else st.sm;
          Success(Step(State(ReorderFiles(updated), sm, st.nextId), deleted))
  }

  /** Deleting everything twice: once the first call has emptied the list,
      the second finds nothing finished, calls no handler and leaves the
      list empty and the control IDLE. */
  lemma DeleteAllFilesTwice(st: State, env: Env, throws1: bool, throws2: bool)
    ensures var once := DeleteAllFiles(st, env, throws1);
            once.state.files == [] ==>
              var twice := DeleteAllFiles(once.state, env, throws2);
              twice.state.files == [] && twice.effects == [] && twice.state.sm.status == IDLE
  {
    var once := DeleteAllFiles(st, env, throws1);
    if once.state.files == [] {
      assert ByFinished(once.state.files, true) == [];
    }
  }

  /** The two versions differ only in the list a reset leaves behind. */
  lemma DeleteFileDiffersOnlyByReset(st: State, env: Env, fileId: string)
    ensures DeleteFile(st, env, fileId).Success? <==> DeleteFileAsWritten(st, env, fileId).Success?
    ensures DeleteFile(st, env, fileId).Success? ==>
              DeleteFile(st, env, fileId).value.state.sm == DeleteFileAsWritten(st, env, fileId).value.state.sm
              && DeleteFile(st, env, fileId).value.effects == DeleteFileAsWritten(st, env, fileId).value.effects
    ensures !env.cfg.resetOnFinish ==> DeleteFile(st, env, fileId) == DeleteFileAsWritten(st, env, fileId)
  {
  }
}
