/** String helpers with JavaScript semantics: `split` on one character,
    case-insensitive ASCII substring search (a `/…/i` regular expression
    made of ASCII letters), decimal rendering and `padStart`. */
module Strings {

  /** `s.split(sep)` for a one-character separator: the pieces between
      occurrences of `sep`, always at least one (possibly empty) piece. */
  function Split(s: string, sep: char): (pieces: seq<string>)
    ensures |pieces| >= 1
    ensures forall i :: 0 <= i < |pieces| ==> sep !in pieces[i]
    decreases |s|
  {
    if |s| == 0 then [""]
    else
      var rest := Split(s[1..], sep);
      if s[0] == sep then [""] + rest
      else [[s[0]] + rest[0]] + rest[1..]
  }

  /** `pieces.join(sep)`: the inverse of `Split`. */
  function Join(pieces: seq<string>, sep: char): string
    requires |pieces| >= 1
    decreases |pieces|
  {
    if |pieces| == 1 then pieces[0]
    else pieces[0] + [sep] + Join(pieces[1..], sep)
  }

  lemma {:induction false} JoinSplit(s: string, sep: char)
    ensures Join(Split(s, sep), sep) == s
    decreases |s|
  {
    if |s| == 0 {
    } else {
      var rest := Split(s[1..], sep);
      JoinSplit(s[1..], sep);
      if s[0] == sep {
        assert Split(s, sep) == [""] + rest;
        assert ([""] + rest)[1..] == rest;
      } else {
        var ps := [[s[0]] + rest[0]] + rest[1..];
        assert Split(s, sep) == ps;
        if |rest| == 1 {
          assert Join(ps, sep) == [s[0]] + rest[0];
        } else {
          assert ps[1..] == rest[1..];
          assert Join(ps, sep) == [s[0]] + rest[0] + [sep] + Join(rest[1..], sep);
          assert Join(rest, sep) == rest[0] + [sep] + Join(rest[1..], sep);
        }
        assert s == [s[0]] + s[1..];
      }
    }
  }

  lemma {:induction false} SplitJoin(pieces: seq<string>, sep: char)
    requires |pieces| >= 1
    requires forall i :: 0 <= i < |pieces| ==> sep !in pieces[i]
    ensures Split(Join(pieces, sep), sep) == pieces
    decreases |pieces|
  {
    if |pieces| == 1 {
      SplitNoSeparator(pieces[0], sep);
    } else {
      SplitJoin(pieces[1..], sep);
      assert pieces == [pieces[0]] + pieces[1..];
      SplitAround(pieces[0], Join(pieces[1..], sep), sep);
    }
  }

  /** Without the separator the text is one piece. */
  lemma {:induction false} SplitNoSeparator(s: string, sep: char)
    requires sep !in s
    ensures Split(s, sep) == [s]
    decreases |s|
  {
    if |s| > 0 {
      assert sep !in s[1..];
      SplitNoSeparator(s[1..], sep);
      assert s == [s[0]] + s[1..];
    }
  }

  /** The first piece ends at the first separator. */
  lemma {:induction false} SplitAround(head: string, tail: string, sep: char)
    requires sep !in head
    ensures Split(head + [sep] + tail, sep) == [head] + Split(tail, sep)
    decreases |head|
  {
    var s := head + [sep] + tail;
    if |head| == 0 {
      assert s == [sep] + tail;
      assert s[1..] == tail;
    } else {
      assert s[0] == head[0];
      assert s[1..] == head[1..] + [sep] + tail;
      assert sep !in head[1..];
      SplitAround(head[1..], tail, sep);
      assert head == [head[0]] + head[1..];
    }
  }

  /** A text splits into several pieces exactly when it holds the
      separator, and the first piece is the text up to the first one. */
  lemma {:induction false} SplitFirstPiece(s: string, sep: char)
    ensures |Split(s, sep)| > 1 <==> sep in s
    ensures |Split(s, sep)[0]| <= |s| && Split(s, sep)[0] == s[..|Split(s, sep)[0]|]
    ensures |Split(s, sep)[0]| < |s| ==> s[|Split(s, sep)[0]|] == sep
    ensures sep !in s ==> Split(s, sep) == [s]
    decreases |s|
  {
    if sep !in s {
      SplitNoSeparator(s, sep);
    } else if s[0] != sep {
      SplitFirstPiece(s[1..], sep);
      assert sep in s[1..];
    }
  }

  /** `text.includes(pattern)`: a case-sensitive substring test. */
  predicate Contains(text: string, pattern: string) {
    exists at: nat :: at + |pattern| <= |text| && OccursAt(text, pattern, at)
  }

  predicate OccursAt(text: string, pattern: string, at: nat)
    requires at + |pattern| <= |text|
  {
    text[at..at + |pattern|] == pattern
  }

  /** Upper-casing as JavaScript's case-insensitive matching folds it:
      only ASCII letters change, and no other character ever folds onto
      an ASCII letter. */
  function Upper(c: char): char {
    if 'a' <= c <= 'z' then (c as int - 32) as char else c
  }

  predicate MatchesAt(text: string, pattern: string, at: nat)
    requires at + |pattern| <= |text|
  {
    forall j :: 0 <= j < |pattern| ==> Upper(text[at + j]) == Upper(pattern[j])
  }

  /** `Boolean(text.match(/pattern/i))` for a pattern without regular
      expression operators. */
  predicate ContainsIgnoringCase(text: string, pattern: string) {
    exists at :: 0 <= at && at + |pattern| <= |text| && MatchesAt(text, pattern, at)
  }

  /** Case-insensitive containment survives any surrounding text. */
  lemma ContainsInContext(prefix: string, middle: string, suffix: string, pattern: string)
    requires ContainsIgnoringCase(middle, pattern)
    ensures ContainsIgnoringCase(prefix + middle + suffix, pattern)
  {
    var text := prefix + middle + suffix;
    var at :| 0 <= at && at + |pattern| <= |middle| && MatchesAt(middle, pattern, at);
    forall j | 0 <= j < |pattern|
      ensures Upper(text[|prefix| + at + j]) == Upper(pattern[j])
    {
      assert text[|prefix| + at + j] == middle[at + j];
    }
    assert MatchesAt(text, pattern, |prefix| + at);
  }

  predicate IsDigit(c: char) {
    '0' <= c <= '9'
  }

  /** `n.toString()` for a non-negative integer. */
  function NatToString(n: nat): (s: string)
    ensures |s| >= 1
    ensures forall i :: 0 <= i < |s| ==> IsDigit(s[i])
    ensures |s| > 1 ==> s[0] != '0'
    decreases n
  {
    if n < 10 then [Digit(n)]
    else NatToString(n / 10) + [Digit(n % 10)]
  }

  function Digit(d: nat): (c: char)
    requires d < 10
    ensures IsDigit(c)
  {
    ('0' as int + d) as char
  }

  /** The value of a string of decimal digits; the partner of `NatToString`. */
  function DigitsValue(s: string): nat
    requires forall i :: 0 <= i < |s| ==> IsDigit(s[i])
    decreases |s|
  {
    if |s| == 0 then 0
    else
      assert IsDigit(s[|s| - 1]);
      10 * DigitsValue(s[..|s| - 1]) + (s[|s| - 1] as int - '0' as int)
  }

  lemma {:induction false} NatToStringRoundTrip(n: nat)
    ensures DigitsValue(NatToString(n)) == n
    decreases n
  {
    var s := NatToString(n);
    if n >= 10 {
      NatToStringRoundTrip(n / 10);
      assert s[..|s| - 1] == NatToString(n / 10);
    }
  }

  /** Numbers below ten take one digit, below a hundred two, and so on. */
  lemma {:induction false} NatToStringLength(n: nat, width: nat)
    requires 1 <= width
    requires n < Pow10(width)
    requires width == 1 || Pow10(width - 1) <= n
    ensures |NatToString(n)| == width
    decreases width
  {
    if width > 1 {
      NatToStringLength(n / 10, width - 1);
    }
  }

  function Pow10(k: nat): (p: nat)
    ensures p >= 1
  {
    if k == 0 then 1 else 10 * Pow10(k - 1)
  }

  /** `n.toString()` for any integer. */
  function IntToString(n: int): (s: string)
    ensures |s| >= 1
    ensures n >= 0 ==> s == NatToString(n)
    ensures n < 0 ==> s[0] == '-' && s[1..] == NatToString(-n)
  {
    if n >= 0 then NatToString(n) else "-" + NatToString(-n)
  }

  /** `s.padStart(width, fill)` for a one-character fill. */
  function PadStart(s: string, width: nat, fill: char): (r: string)
    ensures |s| >= width ==> r == s
    ensures |s| < width ==> |r| == width
    ensures |r| >= |s| && r[|r| - |s|..] == s
    ensures forall i :: 0 <= i < |r| - |s| ==> r[i] == fill
  {
    if |s| >= width then s else Repeat(fill, width - |s|) + s
  }

  function Repeat(c: char, n: nat): (r: string)
    ensures |r| == n
    ensures forall i :: 0 <= i < n ==> r[i] == c
  {
    if n == 0 then "" else [c] + Repeat(c, n - 1)
  }
}
