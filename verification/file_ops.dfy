/** The list helpers of the upload manager: lookup, removal, renumbering,
    partial updates, the order maximum, and the reconciliation of host
    results (`handleResults`). All of them are pure functions of the list. */
module FileOps {
  import opened Results
  import opened Js
  import opened Records

  /** `files.findIndex(f => f.id === id)`. */
  function FirstIndex(files: seq<UploadedFile>, id: string): (i: int)
    ensures -1 <= i < |files|
    ensures i == -1 <==> forall j :: 0 <= j < |files| ==> files[j].id != id
    ensures i >= 0 ==> files[i].id == id && forall j :: 0 <= j < i ==> files[j].id != id
  {
    if |files| == 0 then -1
    else if files[0].id == id then 0
    else
      var i := FirstIndex(files[1..], id);
      if i == -1 then -1 else i + 1
  }

  /** `getFile(id)`: the first record with that id. */
  function GetFile(files: seq<UploadedFile>, id: string): (r: Option<UploadedFile>)
    ensures r.None? <==> forall j :: 0 <= j < |files| ==> files[j].id != id
    ensures r.Some? ==> r.value.id == id && r.value in files
  {
    var i := FirstIndex(files, id);
    if i == -1 then None else Some(files[i])
  }

  /** `reorderFiles(files)`: every record gets its 1-based position as
      `order`; nothing else changes. */
  function ReorderFiles(files: seq<UploadedFile>): (r: seq<UploadedFile>)
    ensures |r| == |files| && Dense(r)
    ensures forall i :: 0 <= i < |r| ==> r[i] == files[i].(order := i + 1)
  {
    seq(|files|, i requires 0 <= i < |files| => files[i].(order := i + 1))
  }

  /** Renumbering a list that is already numbered 1..N changes nothing,
      so renumbering twice is renumbering once. */
  lemma ReorderFixesDense(files: seq<UploadedFile>)
    ensures Dense(files) ==> ReorderFiles(files) == files
    ensures ReorderFiles(ReorderFiles(files)) == ReorderFiles(files)
  {
    if Dense(files) {
      assert forall i :: 0 <= i < |files| ==> files[i].(order := i + 1) == files[i];
    }
    var once := ReorderFiles(files);
    assert forall i :: 0 <= i < |once| ==> once[i].(order := i + 1) == once[i];
  }

  /** How many records carry the id. */
  function Count(files: seq<UploadedFile>, id: string): nat
    decreases |files|
  {
    if |files| == 0 then 0
    else Count(files[..|files| - 1], id) + (if files[|files| - 1].id == id then 1 else 0)
  }

  /** `removeFile(id)`: `files.filter(f => f.id !== id)`. */
  function RemoveFile(files: seq<UploadedFile>, id: string): (r: seq<UploadedFile>)
    ensures forall x :: x in r <==> x in files && x.id != id
    ensures |r| == |files| - Count(files, id)
    ensures |files| == 1 ==> r == if files[0].id == id then [] else files
    decreases |files|
  {
    if |files| == 0 then []
    else
      var init := RemoveFile(files[..|files| - 1], id);
      var last := files[|files| - 1];
      assert files == files[..|files| - 1] + [last];
      if last.id == id then init else init + [last]
  }

  /** Removal works record by record: removing from a concatenation is
      concatenating the removals, so the survivors keep their order. */
  lemma {:induction false} RemoveFileAppend(xs: seq<UploadedFile>, ys: seq<UploadedFile>, id: string)
    ensures RemoveFile(xs + ys, id) == RemoveFile(xs, id) + RemoveFile(ys, id)
    decreases |ys|
  {
    if |ys| == 0 {
      assert xs + ys == xs;
    } else {
      var ys' := ys[..|ys| - 1];
      var last := ys[|ys| - 1];
      RemoveFileAppend(xs, ys', id);
      assert (xs + ys)[..|xs + ys| - 1] == xs + ys';
      assert (xs + ys)[|xs + ys| - 1] == last;
      if last.id != id {
        assert RemoveFile(xs, id) + RemoveFile(ys', id) + [last] == RemoveFile(xs, id) + (RemoveFile(ys', id) + [last]);
      }
    }
  }

  /** A record found by id is counted, so removing a unique id drops
      exactly one record. */
  lemma CountPositive(files: seq<UploadedFile>, i: nat)
    requires i < |files|
    ensures Count(files, files[i].id) >= 1
    decreases |files|
  {
    if i < |files| - 1 {
      CountPositive(files[..|files| - 1], i);
    }
  }

  /** `files.reduce((acc, f) => Math.max(acc, f.order), 0)`. */
  function MaxOrder(files: seq<UploadedFile>): (m: int)
    ensures m >= 0
    ensures forall i :: 0 <= i < |files| ==> files[i].order <= m
    ensures m == 0 || exists i :: 0 <= i < |files| && files[i].order == m
    decreases |files|
  {
    if |files| == 0 then 0
    else
      var m := MaxOrder(files[..|files| - 1]);
      var o := files[|files| - 1].order;
      assert forall i :: 0 <= i < |files| - 1 ==> files[..|files| - 1][i] == files[i];
      if o > m then o else m
  }

  /** On a list numbered 1..N the maximum order is N. */
  lemma MaxOrderOfDense(files: seq<UploadedFile>)
    requires Dense(files)
    ensures MaxOrder(files) == |files|
  {
    if |files| > 0 {
      assert files[|files| - 1].order == |files|;
    }
  }

  /** `Partial<UploadedFile>`: a field is either left out or given. */
  datatype Patch = Patch(
    id: Option<string>,
    file: Option<Option<RawFile>>,
    name: Option<string>,
    size: Option<Option<int>>,
    mimeType: Option<string>,
    base64Uri: Option<Option<string>>,
    previewImg: Option<Option<string>>,
    metadata: Option<Option<Metadata>>,
    uploadStatus: Option<UploadStatus>,
    order: Option<int>)

  /** A patch that only sets `uploadStatus`. */
  function StatusPatch(status: UploadStatus): Patch {
    Patch(None, None, None, None, None, None, None, None, Some(status), None)
  }

  /** `{ ...file, ...patch }`. */
  function ApplyPatch(f: UploadedFile, p: Patch): UploadedFile {
    UploadedFile(
      p.id.GetOr(f.id), p.file.GetOr(f.file), p.name.GetOr(f.name), p.size.GetOr(f.size),
      p.mimeType.GetOr(f.mimeType), p.base64Uri.GetOr(f.base64Uri), p.previewImg.GetOr(f.previewImg),
      p.metadata.GetOr(f.metadata), p.uploadStatus.GetOr(f.uploadStatus), p.order.GetOr(f.order))
  }

  /** `updateFile(id, patch)`: every record with the id is patched, every
      other record is left as it is. */
  function UpdateFile(files: seq<UploadedFile>, id: string, p: Patch): (r: seq<UploadedFile>)
    ensures |r| == |files|
    ensures forall i :: 0 <= i < |files| && files[i].id == id ==> r[i] == ApplyPatch(files[i], p)
    ensures forall i :: 0 <= i < |files| && files[i].id != id ==> r[i] == files[i]
  {
    seq(|files|, i requires 0 <= i < |files| => if files[i].id == id then ApplyPatch(files[i], p) else files[i])
  }

  /** A patch that leaves id and order alone keeps the ids in place and the
      list numbered 1..N. */
  lemma UpdateKeepsShape(files: seq<UploadedFile>, id: string, p: Patch)
    requires p.id.None? && p.order.None?
    ensures forall i :: 0 <= i < |files| ==> UpdateFile(files, id, p)[i].id == files[i].id
    ensures Dense(files) ==> Dense(UpdateFile(files, id, p))
  {
  }

  /** `updateFileStage(id, stage)`: the stage of every record with the id. */
  function UpdateFileStage(files: seq<UploadedFile>, id: string, stage: Stage): (r: seq<UploadedFile>)
    ensures |r| == |files|
    ensures forall i :: 0 <= i < |files| && files[i].id == id ==>
              r[i].uploadStatus.stage == Some(stage)
              && r[i] == files[i].(uploadStatus := files[i].uploadStatus.(stage := Some(stage)))
    ensures forall i :: 0 <= i < |files| && files[i].id != id ==> r[i] == files[i]
  {
    seq(|files|, i requires 0 <= i < |files| =>
      if files[i].id == id then files[i].(uploadStatus := files[i].uploadStatus.(stage := Some(stage))) else files[i])
  }

  predicate IsFinished(f: UploadedFile) {
    f.uploadStatus.stage == Some(Finished)
  }

  /** The FINISHED records (`finished`) or the others, in list order. */
  function ByFinished(files: seq<UploadedFile>, finished: bool): (r: seq<UploadedFile>)
    ensures forall x :: x in r <==> x in files && IsFinished(x) == finished
    ensures |r| <= |files|
    ensures |files| == 1 ==> r == if IsFinished(files[0]) == finished then files else []
    decreases |files|
  {
    if |files| == 0 then []
    else
      var init := ByFinished(files[..|files| - 1], finished);
      var last := files[|files| - 1];
      assert files == files[..|files| - 1] + [last];
      if IsFinished(last) == finished then init + [last] else init
  }

  /** The split works record by record: splitting a concatenation is
      concatenating the splits, so each side keeps the list order. */
  lemma {:induction false} ByFinishedAppend(xs: seq<UploadedFile>, ys: seq<UploadedFile>, finished: bool)
    ensures ByFinished(xs + ys, finished) == ByFinished(xs, finished) + ByFinished(ys, finished)
    decreases |ys|
  {
    if |ys| == 0 {
      assert xs + ys == xs;
    } else {
      var ys' := ys[..|ys| - 1];
      var last := ys[|ys| - 1];
      ByFinishedAppend(xs, ys', finished);
      assert (xs + ys)[..|xs + ys| - 1] == xs + ys';
      assert (xs + ys)[|xs + ys| - 1] == last;
      if IsFinished(last) == finished {
        assert ByFinished(xs, finished) + ByFinished(ys', finished) + [last]
            == ByFinished(xs, finished) + (ByFinished(ys', finished) + [last]);
      }
    }
  }

  /** Every record is in exactly one of the two. */
  lemma {:induction false} ByFinishedPartition(files: seq<UploadedFile>)
    ensures |ByFinished(files, true)| + |ByFinished(files, false)| == |files|
    decreases |files|
  {
    if |files| > 0 {
      ByFinishedPartition(files[..|files| - 1]);
    }
  }

  /** The status a host result gives its file. */
  function ResultStatus(r: UploadResult): (s: UploadStatus)
    ensures s.progress == Some(100)
    ensures r.success <==> s.stage == Some(Finished)
    ensures !r.success <==> s.stage == Some(Failed)
    ensures r.success ==> s.error.None?
    ensures !r.success ==> s.error == r.error
  {
    if r.success then UploadStatus(Some(Finished), Some(100), None)
    else UploadStatus(Some(Failed), Some(100), r.error)
  }

  /** A matched file after one result: the status above, and the result's
      metadata (or `{}`) in place of the old metadata. */
  function Reconciled(f: UploadedFile, r: UploadResult): UploadedFile {
    f.(uploadStatus := ResultStatus(r), metadata := Some(r.metadata.GetOr([])))
  }

  /** Only the status and the metadata of a record can differ. */
  predicate SameRecord(a: UploadedFile, b: UploadedFile) {
    a.(uploadStatus := b.uploadStatus, metadata := b.metadata) == b
  }

  /** `handleResults(results)` over the list captured when the upload
      started: whether every matched result succeeded, and the updated
      copy of the list. Results with unknown ids are skipped. */
  function HandleResults(files: seq<UploadedFile>, results: seq<UploadResult>): (r: (bool, seq<UploadedFile>))
    ensures |r.1| == |files|
    ensures forall i :: 0 <= i < |files| ==> SameRecord(files[i], r.1[i])
    ensures r.0 <==> forall j :: 0 <= j < |results| && FirstIndex(files, results[j].fileId) >= 0 ==> results[j].success
    decreases |results|
  {
    if |results| == 0 then (true, files)
    else
      var (ok, fs) := HandleResults(files, results[..|results| - 1]);
      var res := results[|results| - 1];
      SameIdsSameIndex(files, fs, res.fileId);
      var i := FirstIndex(fs, res.fileId);
      assert forall j :: 0 <= j < |results| - 1 ==> results[..|results| - 1][j] == results[j];
      if i == -1 then (ok, fs)
      else (ok && res.success, fs[i := Reconciled(fs[i], res)])
  }

  /** Lists with the same ids position for position find the same index. */
  lemma SameIdsSameIndex(a: seq<UploadedFile>, b: seq<UploadedFile>, id: string)
    requires |a| == |b|
    requires forall i :: 0 <= i < |a| ==> SameRecord(a[i], b[i])
    ensures FirstIndex(a, id) == FirstIndex(b, id)
  {
    assert forall i :: 0 <= i < |a| ==> a[i].id == b[i].id by {
      forall i | 0 <= i < |a| ensures a[i].id == b[i].id {
        assert a[i].(uploadStatus := b[i].uploadStatus, metadata := b[i].metadata).id == a[i].id;
      }
    }
  }

  /** The last result that names the id, if any. */
  function LastResultFor(results: seq<UploadResult>, id: string): (r: Option<UploadResult>)
    ensures r.Some? ==> r.value in results && r.value.fileId == id
    ensures r.None? <==> forall j :: 0 <= j < |results| ==> results[j].fileId != id
    decreases |results|
  {
    if |results| == 0 then None
    else if results[|results| - 1].fileId == id then Some(results[|results| - 1])
    else
      assert forall j :: 0 <= j < |results| - 1 ==> results[..|results| - 1][j] == results[j];
      LastResultFor(results[..|results| - 1], id)
  }

  /** Where each record ends up: the first record with an id takes the
      status and metadata of the LAST result naming that id (the metadata
      is replaced, not merged); records no result names, and later
      duplicates of an id, are unchanged. */
  lemma {:induction false} HandleResultsPerFile(files: seq<UploadedFile>, results: seq<UploadResult>, i: nat)
    requires i < |files|
    ensures var out := HandleResults(files, results).1;
            var last := LastResultFor(results, files[i].id);
            if FirstIndex(files, files[i].id) != i || last.None? then out[i] == files[i]
            else out[i] == Reconciled(files[i], last.value)
    decreases |results|
  {
    if |results| > 0 {
      var init := results[..|results| - 1];
      HandleResultsPerFile(files, init, i);
      var fs := HandleResults(files, init).1;
      var res := results[|results| - 1];
      SameIdsSameIndex(files, fs, res.fileId);
      var k := FirstIndex(fs, res.fileId);
      if k == i {
        assert files[i].id == res.fileId;
        assert fs[i].id == files[i].id;
        ReconciledTwice(files[i], fs[i], res);
      }
    }
  }

  /** Reconciling overwrites everything an earlier reconciliation set. */
  lemma ReconciledTwice(f: UploadedFile, g: UploadedFile, r: UploadResult)
    requires g == f || exists r0 :: g == Reconciled(f, r0)
    ensures Reconciled(g, r) == Reconciled(f, r)
  {
  }
}
