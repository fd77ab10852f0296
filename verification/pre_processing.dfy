/** The pre-processing pipeline of `addFiles`: the per-type lookup in the
    host's processor map, the in-place splice of a processor's output
    with fresh ids, and the re-validation of the result. Processors and
    `nanoid` are parameters. */
module PreProcessing {
  import opened Results
  import opened JsArrays
  import opened DropErrors
  import opened Records
  import opened Validation

  /** An opaque handle for a host pre-processing function. */
  type ProcId = string

  /** A value of the processor map: a function, an explicit `null`
      ("skip this type") or an explicit `undefined`. */
  datatype Entry = Handler(proc: ProcId) | NullEntry | UndefinedEntry

  /** `FilePreProcessor`: MIME type keys plus the `other` fallback key. */
  type ProcessorMap = map<string, Entry>

  const OtherKey := "other"

  /** What one call of a processor does: it returns records, returns
      nothing (`undefined`/`null`), or throws. */
  datatype ProcOutcome = Returned(files: Option<seq<PublicFile>>) | Threw

  /** The host's processors, applied to the one-record batch they get. */
  type Runner = (ProcId, PublicFile) -> ProcOutcome

  /** The nanoid stream: the k-th id nanoid hands out. */
  type IdSource = nat -> string

  /** `preProcessFiles?.[type]`, then `?? other ?? null`: an exact entry
      wins, a missing or `undefined` one falls back to `other`, and an
      explicit `null` skips pre-processing. */
  function Lookup(pm: ProcessorMap, mimeType: string): (r: Option<ProcId>)
    ensures mimeType in pm && pm[mimeType].Handler? ==> r == Some(pm[mimeType].proc)
    ensures mimeType in pm && pm[mimeType].NullEntry? ==> r.None?
    ensures mimeType !in pm || pm[mimeType].UndefinedEntry? ==>
              (r.Some? <==> OtherKey in pm && pm[OtherKey].Handler?)
              && (r.Some? ==> r.value == pm[OtherKey].proc)
  {
    var exact := if mimeType in pm then pm[mimeType] else UndefinedEntry;
    var entry := if exact.UndefinedEntry? then (if OtherKey in pm then pm[OtherKey] else NullEntry) else exact;
    if entry.Handler? then Some(entry.proc) else None
  }

  /** The working list of the pipeline and the nanoid position. */
  datatype Working = Working(files: seq<PublicFile>, nextId: nat)

  /** `files.findIndex(f => f.id === id)` over the pipeline's public
      records: the same lookup as `FileOps.FirstIndex` on tracked records,
      with the same contract. */
  function FindIndex(files: seq<PublicFile>, id: string): (i: int)
    ensures -1 <= i < |files|
    ensures i == -1 <==> forall j :: 0 <= j < |files| ==> files[j].id != id
    ensures i >= 0 ==> files[i].id == id && forall j :: 0 <= j < i ==> files[j].id != id
  {
    if |files| == 0 then -1
    else if files[0].id == id then 0
    else
      var i := FindIndex(files[1..], id);
      if i == -1 then -1 else i + 1
  }

  /** `files.map(file => ({ ...file, id: nanoid() }))`. */
  function WithFreshIds(files: seq<PublicFile>, freshId: IdSource, nextId: nat): (r: seq<PublicFile>)
    ensures |r| == |files|
    ensures forall j :: 0 <= j < |r| ==> r[j] == files[j].(id := freshId(nextId + j))
    decreases |files|
  {
    if |files| == 0 then []
    else [files[0].(id := freshId(nextId))] + WithFreshIds(files[1..], freshId, nextId + 1)
  }

  /** `applyPreProcessingAndUpdateFiles(file, preProcessFiles, working)`
      followed by `finishedFiles = updated ?? finishedFiles`; `None` when
      the processor throws. */
  function ApplyPreProcessing(file: PublicFile, pm: ProcessorMap, run: Runner, w: Working, freshId: IdSource)
    : (r: Option<Working>)
    ensures Lookup(pm, file.mimeType).None? ==> r == Some(w)
    ensures Lookup(pm, file.mimeType).Some? && run(Lookup(pm, file.mimeType).value, file) == Returned(None) ==> r == Some(w)
    ensures Lookup(pm, file.mimeType).Some? && run(Lookup(pm, file.mimeType).value, file).Threw? ==> r.None?
  {
    match Lookup(pm, file.mimeType)
    case None => Some(w)
    case Some(proc) =>
      match run(proc, file)
      case Threw => None
      case Returned(None) => Some(w)
      case Returned(Some(out)) =>
        if file.id == "" then Some(w)
        else
          var index := FindIndex(w.files, file.id);
          var renamed := WithFreshIds(out, freshId, w.nextId);
          Some(Working(Splice(w.files, index, 1, renamed).result, w.nextId + |out|))
  }

  /** Where the record is found, a processor's output replaces it in place,
      each output record under a fresh id; an empty output drops it. */
  lemma ReplacedInPlace(file: PublicFile, pm: ProcessorMap, run: Runner, w: Working, freshId: IdSource, i: nat)
    requires Lookup(pm, file.mimeType).Some?
    requires run(Lookup(pm, file.mimeType).value, file).Returned?
    requires run(Lookup(pm, file.mimeType).value, file).files.Some?
    requires file.id != ""
    requires i < |w.files| && w.files[i].id == file.id
    requires forall j :: 0 <= j < i ==> w.files[j].id != file.id
    ensures var out := run(Lookup(pm, file.mimeType).value, file).files.value;
            var r := ApplyPreProcessing(file, pm, run, w, freshId);
            && r == Some(Working(w.files[..i] + WithFreshIds(out, freshId, w.nextId) + w.files[i + 1..], w.nextId + |out|))
            && (out == [] ==> |r.value.files| == |w.files| - 1)
  {
    var out := run(Lookup(pm, file.mimeType).value, file).files.value;
    SpliceReplaceOne(w.files, i, WithFreshIds(out, freshId, w.nextId));
  }

  /** The `for … of processedFiles` loop over the first `k` records, all
      run against the growing working list. */
  function RunFirst(processed: seq<PublicFile>, k: nat, pm: ProcessorMap, run: Runner, nextId: nat, freshId: IdSource)
    : (r: Option<Working>)
    requires k <= |processed|
    ensures k == 0 ==> r == Some(Working(processed, nextId))
    decreases k
  {
    if k == 0 then Some(Working(processed, nextId))
    else
      match RunFirst(processed, k - 1, pm, run, nextId, freshId)
      case None => None
      case Some(w) => ApplyPreProcessing(processed[k - 1], pm, run, w, freshId)
  }

  /** Every record the pipeline ends with is one it started with or an
      output renamed with an id nanoid handed out while it ran. */
  lemma {:induction false} PipelineIds(processed: seq<PublicFile>, k: nat, pm: ProcessorMap, run: Runner,
                                       nextId: nat, freshId: IdSource)
    requires k <= |processed|
    requires RunFirst(processed, k, pm, run, nextId, freshId).Some?
    ensures var w := RunFirst(processed, k, pm, run, nextId, freshId).value;
            && w.nextId >= nextId
            && forall x :: x in w.files ==> x in processed || exists m :: nextId <= m < w.nextId && x.id == freshId(m)
    decreases k
  {
    if k > 0 {
      PipelineIds(processed, k - 1, pm, run, nextId, freshId);
      var w := RunFirst(processed, k - 1, pm, run, nextId, freshId).value;
      var file := processed[k - 1];
      var r := ApplyPreProcessing(file, pm, run, w, freshId).value;
      if r != w {
        var out := run(Lookup(pm, file.mimeType).value, file).files.value;
        var renamed := WithFreshIds(out, freshId, w.nextId);
        SpliceMembers(w.files, FindIndex(w.files, file.id), 1, renamed);
        forall x | x in r.files
          ensures x in processed || exists m :: nextId <= m < r.nextId && x.id == freshId(m)
        {
          if x in renamed {
            var j :| 0 <= j < |renamed| && renamed[j] == x;
            assert x.id == freshId(w.nextId + j);
          }
        }
      }
    }
  }

  function IdsOf(files: seq<PublicFile>): set<string> {
    set j | 0 <= j < |files| :: files[j].id
  }

  /** What the ingestion step hands to the pipeline: distinct, non-empty
      ids that nanoid will not hand out again from `nextId` on. */
  ghost predicate FreshFrom(processed: seq<PublicFile>, freshId: IdSource, nextId: nat) {
    && (forall a, b :: 0 <= a < b < |processed| ==> processed[a].id != processed[b].id)
    && (forall j :: 0 <= j < |processed| ==> processed[j].id != "")
    && (forall m :: m >= nextId ==> freshId(m) !in IdsOf(processed))
  }

  /** With fresh ids the pipeline always finds the record it processes:
      after `k` steps the working list is the outputs so far (`done`)
      followed by the untouched records `k..`, and no output shares an id
      with those. */
  lemma {:induction false} PipelineShape(processed: seq<PublicFile>, k: nat, pm: ProcessorMap, run: Runner,
                                         nextId: nat, freshId: IdSource) returns (done: seq<PublicFile>)
    requires k <= |processed|
    requires FreshFrom(processed, freshId, nextId)
    requires RunFirst(processed, k, pm, run, nextId, freshId).Some?
    ensures var w := RunFirst(processed, k, pm, run, nextId, freshId).value;
            && w.nextId >= nextId
            && w.files == done + processed[k..]
            && forall x :: x in done ==> x.id !in IdsOf(processed[k..])
    decreases k
  {
    if k == 0 {
      done := [];
      assert processed == [] + processed[0..];
    } else {
      var before := PipelineShape(processed, k - 1, pm, run, nextId, freshId);
      var w := RunFirst(processed, k - 1, pm, run, nextId, freshId).value;
      var file := processed[k - 1];
      var rest := processed[k..];
      assert processed[k - 1..] == [file] + rest;
      SuffixIds(processed, k);
      done := StepShape(file, rest, before, pm, run, w, freshId, IdsOf(processed));
    }
  }

  /** The ids of a suffix are among the ids of the longer suffix, and the
      record just before a suffix does not share an id with it. */
  lemma SuffixIds(processed: seq<PublicFile>, k: nat)
    requires 0 < k <= |processed|
    requires forall a, b :: 0 <= a < b < |processed| ==> processed[a].id != processed[b].id
    ensures IdsOf(processed[k..]) <= IdsOf(processed[k - 1..]) <= IdsOf(processed)
    ensures processed[k - 1].id !in IdsOf(processed[k..])
  {
    forall x | x in IdsOf(processed[k..])
      ensures x in IdsOf(processed[k - 1..])
    {
      var j :| 0 <= j < |processed[k..]| && processed[k..][j].id == x;
      assert processed[k - 1..][j + 1] == processed[k..][j];
    }
    forall x | x in IdsOf(processed[k - 1..])
      ensures x in IdsOf(processed)
    {
      var j :| 0 <= j < |processed[k - 1..]| && processed[k - 1..][j].id == x;
      assert processed[k - 1 + j] == processed[k - 1..][j];
    }
    forall j | 0 <= j < |processed[k..]|
      ensures processed[k..][j].id != processed[k - 1].id
    {
      assert processed[k..][j] == processed[k + j];
    }
  }

  /** One pipeline step on a working list `done + [file] + rest`. */
  lemma StepShape(file: PublicFile, rest: seq<PublicFile>, done: seq<PublicFile>, pm: ProcessorMap, run: Runner,
                  w: Working, freshId: IdSource, allIds: set<string>) returns (done': seq<PublicFile>)
    requires w.files == done + ([file] + rest)
    requires forall x :: x in done ==> x.id !in IdsOf([file] + rest)
    requires file.id != "" && file.id !in IdsOf(rest)
    requires file.id in allIds && IdsOf(rest) <= allIds
    requires forall m :: m >= w.nextId ==> freshId(m) !in allIds
    requires ApplyPreProcessing(file, pm, run, w, freshId).Some?
    ensures var r := ApplyPreProcessing(file, pm, run, w, freshId).value;
            && r.nextId >= w.nextId
            && r.files == done' + rest
            && (forall m :: m >= r.nextId ==> freshId(m) !in allIds)
            && forall x :: x in done' ==> x.id !in IdsOf(rest)
  {
    assert ([file] + rest)[0] == file;
    assert file.id in IdsOf([file] + rest);
    var r := ApplyPreProcessing(file, pm, run, w, freshId).value;
    assert IdsOf(rest) <= IdsOf([file] + rest) by {
      forall x | x in IdsOf(rest) ensures x in IdsOf([file] + rest) {
        var j :| 0 <= j < |rest| && rest[j].id == x;
        assert ([file] + rest)[j + 1] == rest[j];
      }
    }
    if r == w {
      done' := done + [file];
      assert w.files == done' + rest;
    } else {
      var out := run(Lookup(pm, file.mimeType).value, file).files.value;
      var renamed := WithFreshIds(out, freshId, w.nextId);
      assert w.files[|done|] == file;
      forall j | 0 <= j < |done|
        ensures w.files[j].id != file.id
      {
        assert w.files[j] == done[j];
        assert done[j] in done;
      }
      ReplacedInPlace(file, pm, run, w, freshId, |done|);
      assert w.files[..|done|] == done;
      assert w.files[|done| + 1..] == rest;
      done' := done + renamed;
      assert r.files == done' + rest;
      RenamedAvoid(out, freshId, w.nextId, allIds, rest);
    }
  }

  /** Records renamed from a fresh position carry none of the ids of `rest`. */
  lemma RenamedAvoid(out: seq<PublicFile>, freshId: IdSource, nextId: nat, allIds: set<string>, rest: seq<PublicFile>)
    requires IdsOf(rest) <= allIds
    requires forall m :: m >= nextId ==> freshId(m) !in allIds
    ensures forall x :: x in WithFreshIds(out, freshId, nextId) ==> x.id !in IdsOf(rest)
  {
    var renamed := WithFreshIds(out, freshId, nextId);
    forall x | x in renamed
      ensures x.id !in IdsOf(rest)
    {
      var j :| 0 <= j < |renamed| && renamed[j] == x;
      assert x.id == freshId(nextId + j);
    }
  }

  /** What `handlePreProcessing` ends with: the processor threw, or the
      re-validated records (`None` when every record was rejected) and the
      errors the re-validation reported. */
  datatype Pipeline = PipelineThrew(nextId: nat) | PipelineDone(files: Option<seq<PublicFile>>, errors: seq<DropError>, nextId: nat)

  /** `handlePreProcessing(processedFiles)` against a list already holding
      `current` files: the re-validation repeats the whole-batch checks on
      the expanded batch. */
  function HandlePreProcessing(cfg: Config, current: nat, processed: seq<PublicFile>, pm: ProcessorMap, run: Runner,
                               nextId: nat, freshId: IdSource, fmt: Formatter): (r: Pipeline)
    ensures RunFirst(processed, |processed|, pm, run, nextId, freshId).None? <==> r.PipelineThrew?
    ensures r.PipelineDone? ==>
              var w := RunFirst(processed, |processed|, pm, run, nextId, freshId).value;
              var v := ValidateFiles(cfg, current, w.files, DescribePublic, fmt);
              && r.errors == v.errors
              && (r.files.None? <==> |v.errors| > 0 && |v.valid| == 0)
              && (r.files.Some? ==> r.files.value == v.valid)
  {
    match RunFirst(processed, |processed|, pm, run, nextId, freshId)
    case None => PipelineThrew(nextId)
    case Some(w) =>
      var v := ValidateFiles(cfg, current, w.files, DescribePublic, fmt);
      if |v.errors| > 0 && |v.valid| == 0 then PipelineDone(None, v.errors, w.nextId)
      else PipelineDone(Some(v.valid), v.errors, w.nextId)
  }
}
