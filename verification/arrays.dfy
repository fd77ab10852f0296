/** `Array.prototype.splice` with JavaScript's index normalisation. */
module JsArrays {

  /** The array after the call and the removed elements it returns. */
  datatype Spliced<T> = Spliced(result: seq<T>, removed: seq<T>)

  /** Where `splice(start, …)` really starts: a negative start counts from
      the end (clamped at 0), a start past the end is the end. */
  function SpliceStart(len: nat, start: int): (k: nat)
    ensures k <= len
    ensures 0 <= start <= len ==> k == start
    ensures start < 0 ==> k == (if len + start < 0 then 0 else len + start)
  {
    if start < 0 then (if len + start < 0 then 0 else len + start)
    else if start > len then len
    else start
  }

  function Min(a: nat, b: nat): nat {
    if a <= b then a else b
  }

  /** `s.splice(start, deleteCount, ...items)`. */
  function Splice<T>(s: seq<T>, start: int, deleteCount: nat, items: seq<T>): (r: Spliced<T>)
    ensures var k := SpliceStart(|s|, start);
            var n := Min(deleteCount, |s| - k);
            r.result == s[..k] + items + s[k + n..] && r.removed == s[k..k + n]
    ensures |r.result| == |s| - |r.removed| + |items|
  {
    var k := SpliceStart(|s|, start);
    var n := Min(deleteCount, |s| - k);
    Spliced(s[..k] + items + s[k + n..], s[k..k + n])
  }

  /** Replacing one in-range element keeps everything around it. */
  lemma SpliceReplaceOne<T>(s: seq<T>, i: nat, items: seq<T>)
    requires i < |s|
    ensures Splice(s, i, 1, items).result == s[..i] + items + s[i + 1..]
    ensures Splice(s, i, 1, items).removed == [s[i]]
  {
  }

  /** `splice(-1, 1, …)`, what a failed `findIndex` leads to, replaces the
      LAST element of a non-empty array. */
  lemma SpliceMinusOne<T>(s: seq<T>, items: seq<T>)
    requires |s| > 0
    ensures Splice(s, -1, 1, items).result == s[..|s| - 1] + items
  {
  }

  /** Everything in the spliced array was in the array or is inserted. */
  lemma SpliceMembers<T>(s: seq<T>, start: int, deleteCount: nat, items: seq<T>)
    ensures forall x :: x in Splice(s, start, deleteCount, items).result ==> x in s || x in items
  {
    var k := SpliceStart(|s|, start);
    var n := Min(deleteCount, |s| - k);
    forall x | x in Splice(s, start, deleteCount, items).result
      ensures x in s || x in items
    {
      if x in s[..k] {
        var j :| 0 <= j < k && s[..k][j] == x;
        assert s[j] == x;
      } else if x in s[k + n..] {
        var j :| 0 <= j < |s| - (k + n) && s[k + n..][j] == x;
        assert s[k + n + j] == x;
      }
    }
  }
}
