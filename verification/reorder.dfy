/** The two drag-and-drop handlers that move one record and renumber the
    list: the core package's (find the records by `order`, then two
    splices) and the components package's (`arrayMove`). */
module Reorder {
  import opened Results
  import opened StateMachine
  import opened Records
  import opened JsArrays
  import opened FileOps

  /** `s` without its element at `i`. */
  function Without<T>(s: seq<T>, i: nat): (r: seq<T>)
    requires i < |s|
    ensures |r| == |s| - 1
  {
    s[..i] + s[i + 1..]
  }

  /** `s` with `x` inserted before index `i`. */
  function Insert<T>(s: seq<T>, i: nat, x: T): (r: seq<T>)
    requires i <= |s|
    ensures |r| == |s| + 1
  {
    s[..i] + [x] + s[i..]
  }

  /** Inserting and removing at the same index are inverse, and together
      they keep the multiset. */
  lemma InsertWithout<T>(s: seq<T>, t: seq<T>, i: nat, x: T)
    requires i <= |t|
    ensures Insert(t, i, x)[i] == x && Without(Insert(t, i, x), i) == t
    ensures multiset(Insert(t, i, x)) == multiset(t) + multiset{x}
    ensures i < |s| ==> Insert(Without(s, i), i, s[i]) == s
  {
    assert t == t[..i] + t[i..];
    var r := Insert(t, i, x);
    assert r[..i] == t[..i];
    assert r[i + 1..] == t[i..];
    if i < |s| {
      assert s == s[..i] + [s[i]] + s[i + 1..];
    }
  }

  /** `arrayMove(s, from, to)` of dnd-kit: take the element out, insert it
      at `to` of the shortened array. Both indices come from `findIndex`
      over the ids of the same list, so both are in range. */
  function ArrayMove<T>(s: seq<T>, from: nat, to: nat): (r: seq<T>)
    requires from < |s| && to < |s|
    ensures |r| == |s| && r[to] == s[from]
    ensures Without(r, to) == Without(s, from)
    ensures multiset(r) == multiset(s)
  {
    InsertWithout(s, Without(s, from), to, s[from]);
    InsertWithout(s, Without(s, from), from, s[from]);
    Insert(Without(s, from), to, s[from])
  }

  /** dnd-kit's own definition: `splice(from, 1)` and then
      `splice(to, 0, removed)` on the copy. */
  lemma ArrayMoveBySplice<T>(s: seq<T>, from: nat, to: nat)
    requires from < |s| && to < |s|
    ensures var taken := Splice(s, from, 1, []);
            taken.removed == [s[from]]
            && Splice(taken.result, to, 0, taken.removed).result == ArrayMove(s, from, to)
  {
  }

  /** A move is undone by the opposite move. */
  lemma MoveBack<T>(s: seq<T>, from: nat, to: nat)
    requires from < |s| && to < |s|
    ensures ArrayMove(ArrayMove(s, from, to), to, from) == s
  {
    var r := ArrayMove(s, from, to);
    InsertWithout(s, Without(r, to), from, r[to]);
  }

  /** The components package's `handleOnDragEnd({ source, destination })`:
      nothing happens without a destination or for a drop in place;
      otherwise `arrayMove` and `order := index + 1`. */
  function DragEndComponents(files: seq<UploadedFile>, source: nat, destination: Option<nat>): (r: seq<UploadedFile>)
    requires source < |files|
    requires destination.Some? ==> destination.value < |files|
    ensures destination.None? || destination.value == source ==> r == files
    ensures destination.Some? && destination.value != source ==>
              && r == ReorderFiles(ArrayMove(files, source, destination.value))
              && r[destination.value] == files[source].(order := destination.value + 1)
              && Dense(r)
  {
    if destination.None? || destination.value == source then files
    else ReorderFiles(ArrayMove(files, source, destination.value))
  }

  /** The record whose `order - 1` is the index, if any. */
  function FindByPosition(files: seq<UploadedFile>, index: int): (r: Option<UploadedFile>)
    ensures r.Some? <==> exists i :: 0 <= i < |files| && files[i].order - 1 == index
    decreases |files|
  {
    if |files| == 0 then None
    else if files[0].order - 1 == index then Some(files[0])
    else
      var r := FindByPosition(files[1..], index);
      assert forall i :: 1 <= i < |files| ==> files[1..][i - 1] == files[i];
      r
  }

  /** The core package's `handleOnDragEnd(result)`: it throws when no record
      has `order - 1` equal to either index, or when the source index
      removes nothing (the `undefined` it would insert cannot be
      renumbered). Otherwise both splices run with JavaScript's index
      normalisation and the list is renumbered. */
  function DragEndCore(files: seq<UploadedFile>, source: int, destination: Option<int>): (r: Result<seq<UploadedFile>>)
    ensures destination.None? || destination.value == source ==> r == Success(files)
    ensures destination.Some? && destination.value != source ==>
              (r.Failure? <==> FindByPosition(files, source).None? || FindByPosition(files, destination.value).None?
                               || SpliceStart(|files|, source) == |files|)
    ensures r.Success? && destination.Some? && destination.value != source ==> Dense(r.value) && |r.value| == |files|
  {
    if destination.None? || destination.value == source then Success(files)
    else if FindByPosition(files, source).None? || FindByPosition(files, destination.value).None? then
      Failure("Failed to find the dragged Files.")
    else
      var taken := Splice(files, source, 1, []);
      if |taken.removed| == 0 then Failure("Cannot set properties of undefined")
      else Success(ReorderFiles(Splice(taken.result, destination.value, 0, taken.removed).result))
  }

  /** Whenever the core handler finds records at both indices and both are
      in range, the two handlers agree: the record at the source index ends
      at the destination index, the others keep their relative order, and
      nothing but `order` changes. Any other list is refused by the core
      handler (`CoreNeedsDenseOrders`); a list numbered 1..N is never
      refused (`DenseFindsEveryPosition`). */
  lemma HandlersAgree(files: seq<UploadedFile>, source: nat, destination: Option<nat>)
    requires source < |files|
    requires destination.Some? ==> destination.value < |files|
    requires destination.Some? && destination.value != source ==>
               FindByPosition(files, source).Some? && FindByPosition(files, destination.value).Some?
    ensures DragEndCore(files, source, if destination.Some? then Some(destination.value as int) else None)
            == Success(DragEndComponents(files, source, destination))
  {
    if destination.Some? && destination.value != source {
      ArrayMoveBySplice(files, source, destination.value);
    }
  }

  /** On a list numbered 1..N every in-range index is found. */
  lemma DenseFindsEveryPosition(files: seq<UploadedFile>, index: nat)
    requires Dense(files) && index < |files|
    ensures FindByPosition(files, index).Some?
  {
    assert files[index].order - 1 == index;
  }

  /** Off the 1..N numbering the core handler can refuse a move the
      components handler performs: with orders 2 and 3 no record sits at
      index 0. */
  lemma CoreNeedsDenseOrders(a: UploadedFile, b: UploadedFile)
    requires a.order == 2 && b.order == 3
    ensures DragEndCore([a, b], 0, Some(1)).Failure?
    ensures DragEndComponents([a, b], 0, Some(1)) == [b.(order := 1), a.(order := 2)]
  {
    assert FindByPosition([a, b], 0).None?;
    var moved := ArrayMove([a, b], 0, 1);
    assert moved == [b, a];
  }

  /** The list's own drag guard (`isDragDisabled`): only while the status is
      IDLE, and never for a FINISHED record. Neither handler checks it. */
  predicate DragEnabled(sm: Machine, f: UploadedFile) {
    StatusIsnt(sm, [IDLE]) == false && !IsFinished(f)
  }

  /** The guard protects the dragged record only: moving an unfinished
      record past a FINISHED one renumbers the FINISHED one. */
  lemma FinishedRecordRenumbered(sm: Machine, open: UploadedFile, done: UploadedFile)
    requires sm.status == IDLE && !IsFinished(open) && IsFinished(done)
    requires open.order == 1 && done.order == 2
    ensures DragEnabled(sm, open) && !DragEnabled(sm, done)
    ensures var r := DragEndComponents([open, done], 0, Some(1));
            r[0] == done.(order := 1) && r[0].order != done.order
  {
    assert ArrayMove([open, done], 0, 1) == [done, open];
  }
}
