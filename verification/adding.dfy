/** `addFiles` and `transformFiles`: validation, reading each accepted file
    as a data URI, fresh ids, optional pre-processing, and numbering the
    new records after the highest order already in the list. */
module Adding {
  import opened Results
  import opened Strings
  import opened StateMachine
  import opened DropErrors
  import opened Records
  import opened Validation
  import opened JsArrays
  import opened PreProcessing
  import opened FileOps
  import opened Manager

  /** How `transformFiles` ends: records to append, nothing to append (every
      file rejected), or a throw (a failed read or a throwing processor).
      Each case carries the error reports made on the way and the nanoid
      position. */
  datatype Transform =
    | Added(files: seq<UploadedFile>, effects: seq<Effect>, nextId: nat)
    | Skipped(effects: seq<Effect>, nextId: nat)
    | Aborted(effects: seq<Effect>, nextId: nat)

  /** `errorHandler(error)` once per drop error, in order. */
  function Reports(errors: seq<DropError>): (r: seq<Effect>)
    ensures |r| == |errors| && forall i :: 0 <= i < |r| ==> r[i] == ReportDropError(errors[i])
  {
    seq(|errors|, i requires 0 <= i < |errors| => ReportDropError(errors[i]))
  }

  /** `Promise.all` over `blobToBase64`: every read, or `None` when one
      fails. */
  function ReadAll(valid: seq<RawFile>, toBase64: RawFile -> Option<string>): (r: Option<seq<string>>)
    ensures r.Some? <==> forall i :: 0 <= i < |valid| ==> toBase64(valid[i]).Some?
    ensures r.Some? ==> |r.value| == |valid| && forall i :: 0 <= i < |valid| ==> Some(r.value[i]) == toBase64(valid[i])
    decreases |valid|
  {
    if |valid| == 0 then Some([])
    else
      var init := valid[..|valid| - 1];
      assert forall i :: 0 <= i < |init| ==> init[i] == valid[i];
      match ReadAll(init, toBase64)
      case None => None
      case Some(b64s) =>
        match toBase64(valid[|valid| - 1])
        case None => None
        case Some(b) => Some(b64s + [b])
  }

  /** The public record built for an accepted file: its data URI, and the
      same URI as preview when the type mentions "image" (an empty preview
      otherwise). */
  function Ingest(raw: RawFile, b64: string, id: string): PublicFile {
    PublicFile(id, Some(raw), raw.name, Some(raw.size), raw.mimeType, Some(b64),
               Some(if Contains(raw.mimeType, "image") then b64 else ""), None)
  }

  function IngestAll(valid: seq<RawFile>, b64s: seq<string>, freshId: IdSource, nextId: nat): (r: seq<PublicFile>)
    requires |b64s| == |valid|
    ensures |r| == |valid|
    ensures forall j :: 0 <= j < |r| ==> r[j] == Ingest(valid[j], b64s[j], freshId(nextId + j))
  {
    seq(|valid|, j requires 0 <= j < |valid| => Ingest(valid[j], b64s[j], freshId(nextId + j)))
  }

  /** The status of a newly added record. */
  const NewStatus := UploadStatus(Some(Idle), Some(0), None)

  /** `order: maxOrder++` over the records, then the (no-op) sort by order. */
  function Number(files: seq<PublicFile>, first: int): (r: seq<UploadedFile>)
    ensures |r| == |files|
    ensures forall j :: 0 <= j < |r| ==> r[j] == Track(files[j], first + j, NewStatus)
  {
    seq(|files|, j requires 0 <= j < |files| => Track(files[j], first + j, NewStatus))
  }

  /** What `transformFiles` does with the first validation's split `v`:
      an entirely rejected batch only reports its errors; otherwise the
      errors are reported first, a file that cannot be read aborts the
      call, and without pre-processors the read files become new records
      numbered after the highest order, each with a fresh id; with
      pre-processors the pipeline's end decides (`Outcome`). */
  predicate Decides(st: State, env: Env, v: Validation<RawFile>, r: Transform) {
    var rejected := |v.errors| > 0 && |v.valid| == 0;
    var read := ReadAll(v.valid, env.toBase64);
    && r.nextId >= st.nextId
    && |r.effects| >= |v.errors| && r.effects[..|v.errors|] == Reports(v.errors)
    && (rejected ==> r == Skipped(Reports(v.errors), st.nextId))
    && (!rejected && read.None? ==> r == Aborted(Reports(v.errors), st.nextId))
    && (!rejected && read.Some? && env.handlers.preProcessFiles.None? ==>
          r == Added(Number(IngestAll(v.valid, read.value, env.freshId, st.nextId), MaxOrder(st.files) + 1),
                     Reports(v.errors), st.nextId + |v.valid|))
    && (!rejected && read.Some? && env.handlers.preProcessFiles.Some? ==>
          Outcome(HandlePreProcessing(env.cfg, |st.files|, IngestAll(v.valid, read.value, env.freshId, st.nextId),
                                      env.handlers.preProcessFiles.value, env.run, st.nextId + |v.valid|,
                                      env.freshId, env.fmt),
                  Reports(v.errors), MaxOrder(st.files) + 1, r))
  }

  /** `transformFiles(filesInput)`. */
  function TransformFiles(st: State, env: Env, input: seq<RawFile>): (r: Transform)
    ensures Decides(st, env, ValidateFiles(env.cfg, |st.files|, input, DescribeRaw, env.fmt), r)
    ensures r.Added? ==>
              forall j :: 0 <= j < |r.files| ==>
                && r.files[j].order == MaxOrder(st.files) + 1 + j
                && r.files[j].uploadStatus == NewStatus
                && exists m :: st.nextId <= m < r.nextId && r.files[j].id == env.freshId(m)
  {
    TransformValidated(st, env, ValidateFiles(env.cfg, |st.files|, input, DescribeRaw, env.fmt))
  }

  /** `transformFiles` once the first validation has split the input into
      `v.valid` and `v.errors`. */
  function TransformValidated(st: State, env: Env, v: Validation<RawFile>): (r: Transform)
    ensures Decides(st, env, v, r)
    ensures r.Added? ==>
              forall j :: 0 <= j < |r.files| ==>
                && r.files[j].order == MaxOrder(st.files) + 1 + j
                && r.files[j].uploadStatus == NewStatus
                && exists m :: st.nextId <= m < r.nextId && r.files[j].id == env.freshId(m)
  {
    var reported := Reports(v.errors);
    if |v.errors| > 0 && |v.valid| == 0 then Skipped(reported, st.nextId)
    else
      match ReadAll(v.valid, env.toBase64)
      case None => Aborted(reported, st.nextId)
      case Some(b64s) =>
        var processed := IngestAll(v.valid, b64s, env.freshId, st.nextId);
        assert forall j :: 0 <= j < |processed| ==> processed[j].id == env.freshId(st.nextId + j);
        PreProcessAndNumber(|st.files|, env, processed, reported, st.nextId, st.nextId + |v.valid|, MaxOrder(st.files) + 1)
  }

  /** How the pipeline's end decides `transformFiles`: a throw aborts, a
      batch the re-validation rejects entirely adds nothing, and otherwise
      the surviving records are numbered from `first`; the re-validation's
      errors are reported after the earlier ones. */
  predicate Outcome(p: Pipeline, reported: seq<Effect>, first: int, r: Transform) {
    match p
    case PipelineThrew(n) => r == Aborted(reported, n)
    case PipelineDone(None, errors, n) => r == Skipped(reported + Reports(errors), n)
    case PipelineDone(Some(files), errors, n) => r == Added(Number(files, first), reported + Reports(errors), n)
  }

  /** The rest of `transformFiles` once the accepted files are records:
      pre-processing when the host configured it, then the numbering from
      `first` on. */
  function PreProcessAndNumber(current: nat, env: Env, processed: seq<PublicFile>, reported: seq<Effect>,
                               lo: nat, next: nat, first: int): (r: Transform)
    requires lo <= next
    requires forall j :: 0 <= j < |processed| ==> exists m :: lo <= m < next && processed[j].id == env.freshId(m)
    ensures r.nextId >= next
    ensures |r.effects| >= |reported| && r.effects[..|reported|] == reported
    ensures env.handlers.preProcessFiles.None? ==> r == Added(Number(processed, first), reported, next)
    ensures env.handlers.preProcessFiles.Some? ==>
              Outcome(HandlePreProcessing(env.cfg, current, processed, env.handlers.preProcessFiles.value, env.run,
                                          next, env.freshId, env.fmt), reported, first, r)
    ensures r.Added? ==>
              forall j :: 0 <= j < |r.files| ==>
                && r.files[j].order == first + j
                && r.files[j].uploadStatus == NewStatus
                && exists m :: lo <= m < r.nextId && r.files[j].id == env.freshId(m)
  {
    match env.handlers.preProcessFiles
    case None => Added(Number(processed, first), reported, next)
    case Some(pm) =>
      match HandlePreProcessing(env.cfg, current, processed, pm, env.run, next, env.freshId, env.fmt)
      case PipelineThrew(_) => Aborted(reported, next)
      case PipelineDone(None, errors, n) =>
        PipelineIds(processed, |processed|, pm, env.run, next, env.freshId);
        assert (reported + Reports(errors))[..|reported|] == reported;
        Skipped(reported + Reports(errors), n)
      case PipelineDone(Some(finished), errors, n) =>
        PipelineIds(processed, |processed|, pm, env.run, next, env.freshId);
        FinishedIdsFresh(env.cfg, current, processed, pm, env.run, next, env.freshId, env.fmt, lo);
        assert (reported + Reports(errors))[..|reported|] == reported;
        Added(Number(finished, first), reported + Reports(errors), n)
  }

  /** What survives pre-processing and re-validation carries an id from
      the ingestion step or from the pipeline, so one handed out from
      `lo` on. */
  lemma FinishedIdsFresh(cfg: Config, current: nat, processed: seq<PublicFile>, pm: ProcessorMap, run: Runner,
                         next: nat, freshId: IdSource, fmt: Formatter, lo: nat)
    requires lo <= next
    requires forall j :: 0 <= j < |processed| ==> exists m :: lo <= m < next && processed[j].id == freshId(m)
    requires HandlePreProcessing(cfg, current, processed, pm, run, next, freshId, fmt).PipelineDone?
    requires HandlePreProcessing(cfg, current, processed, pm, run, next, freshId, fmt).files.Some?
    ensures var p := HandlePreProcessing(cfg, current, processed, pm, run, next, freshId, fmt);
            forall j :: 0 <= j < |p.files.value| ==> exists m :: lo <= m < p.nextId && p.files.value[j].id == freshId(m)
  {
    var p := HandlePreProcessing(cfg, current, processed, pm, run, next, freshId, fmt);
    PipelineIds(processed, |processed|, pm, run, next, freshId);
    var w := RunFirst(processed, |processed|, pm, run, next, freshId).value;
    var v := ValidateFiles(cfg, current, w.files, DescribePublic, fmt);
    forall j | 0 <= j < |p.files.value|
      ensures exists m :: lo <= m < p.nextId && p.files.value[j].id == freshId(m)
    {
      var x := p.files.value[j];
      assert x == v.valid[j];
      assert x in w.files;
      if x in processed {
        var i :| 0 <= i < |processed| && processed[i] == x;
        var m :| lo <= m < next && processed[i].id == freshId(m);
      }
    }
  }

  /** `addFiles(files)`: PROCESSING while it runs and IDLE afterwards
      (`finally`), the new records appended, a throw reported to the
      error handler. */
  function AddFiles(st: State, env: Env, input: seq<RawFile>): (r: Step)
    ensures r.state.sm.status == IDLE && r.state.sm.error == st.sm.error
    ensures r.state.nextId >= st.nextId
    ensures |r.state.files| >= |st.files| && r.state.files[..|st.files|] == st.files
    ensures forall i :: |st.files| <= i < |r.state.files| ==>
              && r.state.files[i].uploadStatus == NewStatus
              && r.state.files[i].order == MaxOrder(st.files) + 1 + (i - |st.files|)
              && exists m :: st.nextId <= m < r.state.nextId && r.state.files[i].id == env.freshId(m)
    ensures Dense(st.files) ==> Dense(r.state.files)
    ensures var v := ValidateFiles(env.cfg, |st.files|, input, DescribeRaw, env.fmt);
            |v.errors| > 0 && |v.valid| == 0 ==> r == Step(st.(sm := r.state.sm), Reports(v.errors))
    ensures var v := ValidateFiles(env.cfg, |st.files|, input, DescribeRaw, env.fmt);
            var read := ReadAll(v.valid, env.toBase64);
            read.Some? && env.handlers.preProcessFiles.None? ==>
              r.state.files == st.files + Number(IngestAll(v.valid, read.value, env.freshId, st.nextId), MaxOrder(st.files) + 1)
    ensures var t := TransformFiles(st, env, input);
            && (t.Added? ==> r.state.files == st.files + t.files && r.effects == t.effects)
            && (t.Skipped? ==> r.state.files == st.files && r.effects == t.effects)
            && (t.Aborted? ==> r.state.files == st.files && r.effects == t.effects + [ReportException])
  {
    DecidedBatch(st, env, ValidateFiles(env.cfg, |st.files|, input, DescribeRaw, env.fmt), TransformFiles(st, env, input));
    Apply(st, env, TransformFiles(st, env, input))
  }

  /** The two cases of `transformFiles` that `addFiles` states directly: a
      batch rejected as a whole is skipped, and without pre-processors a
      fully read batch is added as numbered records (none when the batch
      was rejected). */
  lemma DecidedBatch(st: State, env: Env, v: Validation<RawFile>, t: Transform)
    requires Decides(st, env, v, t)
    ensures |v.errors| > 0 && |v.valid| == 0 ==> t == Skipped(Reports(v.errors), st.nextId)
    ensures var read := ReadAll(v.valid, env.toBase64);
            read.Some? && env.handlers.preProcessFiles.None? ==>
              var added := Number(IngestAll(v.valid, read.value, env.freshId, st.nextId), MaxOrder(st.files) + 1);
              (t.Added? && t.files == added) || (t.Skipped? && added == [])
  {
  }

  /** The end of `addFiles` once `transformFiles` has run: IDLE again, the
      records it produced appended, a throw reported after its drop
      errors. */
  function Apply(st: State, env: Env, t: Transform): (r: Step)
    requires t.nextId >= st.nextId
    requires t.Added? ==>
               forall j :: 0 <= j < |t.files| ==>
                 && t.files[j].order == MaxOrder(st.files) + 1 + j
                 && t.files[j].uploadStatus == NewStatus
                 && exists m :: st.nextId <= m < t.nextId && t.files[j].id == env.freshId(m)
    ensures r.state.sm.status == IDLE && r.state.sm.error == st.sm.error
    ensures r.state.nextId == t.nextId
    ensures |r.state.files| >= |st.files| && r.state.files[..|st.files|] == st.files
    ensures forall i :: |st.files| <= i < |r.state.files| ==>
              && r.state.files[i].uploadStatus == NewStatus
              && r.state.files[i].order == MaxOrder(st.files) + 1 + (i - |st.files|)
              && exists m :: st.nextId <= m < r.state.nextId && r.state.files[i].id == env.freshId(m)
    ensures Dense(st.files) ==> Dense(r.state.files)
    ensures t.Added? ==> r.state.files == st.files + t.files && r.effects == t.effects
    ensures t.Skipped? ==> r.state.files == st.files && r.effects == t.effects
    ensures t.Aborted? ==> r.state.files == st.files && r.effects == t.effects + [ReportException]
  {
    var sm := SetOnly(SetOnly(st.sm, PROCESSING), IDLE);
    assert Dense(st.files) ==> MaxOrder(st.files) == |st.files| by {
      if Dense(st.files) {
        MaxOrderOfDense(st.files);
      }
    }
    match t
    case Added(files, effects, n) =>
      assert (st.files + files)[..|st.files|] == st.files;
      assert forall i :: |st.files| <= i < |st.files + files| ==> (st.files + files)[i] == files[i - |st.files|];
      Step(State(st.files + files, sm, n), effects)
    case Skipped(effects, n) => Step(State(st.files, sm, n), effects)
    case Aborted(effects, n) => Step(State(st.files, sm, n), effects + [ReportException])
  }

  /** In single-file mode a record its pre-processor splits into several
      (a PDF into pages) is rejected as a whole by the second validation:
      the single-file error is reported and nothing is added. */
  lemma SplitRejectedInSingleMode(current: nat, env: Env, file: PublicFile, pm: ProcessorMap, proc: ProcId,
                                  pages: seq<PublicFile>, lo: nat, first: int)
    requires !env.cfg.multiple
    requires env.handlers.preProcessFiles == Some(pm)
    requires file.mimeType in pm && pm[file.mimeType] == Handler(proc)
    requires env.run(proc, file) == Returned(Some(pages)) && |pages| > 1
    requires file.id == env.freshId(lo) && file.id != ""
    ensures var t := PreProcessAndNumber(current, env, [file], [], lo, lo + 1, first);
            && t.Skipped?
            && t.effects == [ReportDropError(DropError(MultipleNotAllowed, env.fmt(MultipleNotAllowed, "")))]
  {
    SingleFileSplits(env.cfg, current, file, pm, proc, env.run, pages, lo + 1, env.freshId, env.fmt);
  }

  /** The pipeline step of the scenario above: one record, split into
      several by its processor, fails the single-file check. */
  lemma SingleFileSplits(cfg: Config, current: nat, file: PublicFile, pm: ProcessorMap, proc: ProcId, run: Runner,
                         pages: seq<PublicFile>, next: nat, freshId: IdSource, fmt: Formatter)
    requires !cfg.multiple
    requires file.mimeType in pm && pm[file.mimeType] == Handler(proc)
    requires run(proc, file) == Returned(Some(pages)) && |pages| > 1 && file.id != ""
    ensures var p := HandlePreProcessing(cfg, current, [file], pm, run, next, freshId, fmt);
            && p.PipelineDone? && p.files.None?
            && p.errors == [DropError(MultipleNotAllowed, fmt(MultipleNotAllowed, ""))]
  {
    var w := RunFirst([file], 1, pm, run, next, freshId);
    assert RunFirst([file], 0, pm, run, next, freshId) == Some(Working([file], next));
    assert FindIndex([file], file.id) == 0;
    var renamed := WithFreshIds(pages, freshId, next);
    SpliceReplaceOne([file], 0, renamed);
    assert [file][1..] == [];
    assert w.value.files == renamed;
  }
}
