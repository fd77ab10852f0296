/** `addUniqueTimestamp(s)`: appends a `yyMMddHHmmss` stamp of the local
    time. The clock fields are parameters: `getFullYear()`, the 0-based
    `getMonth()`, `getDate()`, `getHours()`, `getMinutes()` and
    `getSeconds()`. */
module Timestamp {
  import opened Strings

  /** `.slice(2)`: a string shorter than two characters becomes empty. */
  function Slice2(s: string): (r: string)
    ensures |s| >= 2 ==> r == s[2..]
    ensures |s| < 2 ==> r == ""
  {
    if |s| >= 2 then s[2..] else ""
  }

  /** `.toString().padStart(2, "0")`. */
  function TwoDigits(n: nat): string {
    PadStart(NatToString(n), 2, '0')
  }

  predicate ValidClock(month0: int, day: int, hours: int, minutes: int, seconds: int) {
    0 <= month0 <= 11 && 1 <= day <= 31 && 0 <= hours <= 23 && 0 <= minutes <= 59 && 0 <= seconds <= 59
  }

  function Stamp(year: int, month0: int, day: int, hours: int, minutes: int, seconds: int): string
    requires ValidClock(month0, day, hours, minutes, seconds)
  {
    Slice2(IntToString(year)) + TwoDigits(month0 + 1) + TwoDigits(day)
      + TwoDigits(hours) + TwoDigits(minutes) + TwoDigits(seconds)
  }

  /** `${s} ${formattedDate}`. */
  function AddUniqueTimestamp(s: string, year: int, month0: int, day: int, hours: int, minutes: int, seconds: int)
    : (r: string)
    requires ValidClock(month0, day, hours, minutes, seconds)
    ensures |r| > |s| && r[..|s|] == s && r[|s|] == ' '
    ensures r[|s| + 1..] == Stamp(year, month0, day, hours, minutes, seconds)
  {
    var stamp := Stamp(year, month0, day, hours, minutes, seconds);
    var r := s + [' '] + stamp;
    assert r[|s| + 1..] == stamp;
    r
  }

  function Digit2(s: string): nat
    requires |s| == 2 && IsDigit(s[0]) && IsDigit(s[1])
  {
    DigitsValue(s)
  }

  /** The value of two digits. */
  lemma PairValue(s: string)
    requires |s| == 2 && IsDigit(s[0]) && IsDigit(s[1])
    ensures Digit2(s) == 10 * (s[0] as int - '0' as int) + (s[1] as int - '0' as int)
  {
    assert s[..1] == [s[0]];
    assert s[..1][..0] == [];
    assert DigitsValue(s[..1]) == 10 * DigitsValue(s[..1][..0]) + (s[0] as int - '0' as int);
    assert DigitsValue(s) == 10 * DigitsValue(s[..1]) + (s[1] as int - '0' as int);
  }

  /** Numbers below 100 take exactly two digits that read back as the
      number. */
  lemma TwoDigitsValue(n: nat)
    requires n < 100
    ensures |TwoDigits(n)| == 2 && IsDigit(TwoDigits(n)[0]) && IsDigit(TwoDigits(n)[1])
    ensures Digit2(TwoDigits(n)) == n
  {
    var t := TwoDigits(n);
    if n < 10 {
      assert t == "0" + [Digit(n)];
      PairValue(t);
    } else {
      NatToStringLength(n, 2);
      NatToStringRoundTrip(n);
    }
  }

  /** A four-digit year leaves its last two digits. */
  lemma YearPart(year: int)
    requires 1000 <= year <= 9999
    ensures var y := Slice2(IntToString(year));
            |y| == 2 && IsDigit(y[0]) && IsDigit(y[1]) && Digit2(y) == year % 100
  {
    var century := year / 100;
    NatToStringLength(century, 2);
    var full := NatToString(year);
    assert full == NatToString(year / 10) + [Digit(year % 10)];
    assert NatToString(year / 10) == NatToString(century) + [Digit((year / 10) % 10)];
    var y := full[2..];
    assert y == [Digit((year / 10) % 10), Digit(year % 10)];
    PairValue(y);
    assert year % 100 == 10 * ((year / 10) % 10) + year % 10;
  }

  /** Six two-character pieces side by side. */
  lemma Pairs(a: string, b: string, c: string, d: string, e: string, f: string)
    requires |a| == |b| == |c| == |d| == |e| == |f| == 2
    ensures var t := a + b + c + d + e + f;
            && |t| == 12
            && t[0..2] == a && t[2..4] == b && t[4..6] == c
            && t[6..8] == d && t[8..10] == e && t[10..12] == f
  {
  }

  predicate AllDigits(s: string) {
    forall i :: 0 <= i < |s| ==> IsDigit(s[i])
  }

  lemma DigitsJoin(a: string, b: string, c: string, d: string, e: string, f: string)
    requires |a| == |b| == |c| == |d| == |e| == |f| == 2
    requires IsDigit(a[0]) && IsDigit(a[1]) && IsDigit(b[0]) && IsDigit(b[1]) && IsDigit(c[0]) && IsDigit(c[1])
    requires IsDigit(d[0]) && IsDigit(d[1]) && IsDigit(e[0]) && IsDigit(e[1]) && IsDigit(f[0]) && IsDigit(f[1])
    ensures AllDigits(a + b + c + d + e + f)
  {
    assert AllDigits(a) && AllDigits(b) && AllDigits(c) && AllDigits(d) && AllDigits(e) && AllDigits(f);
    assert AllDigits(a + b);
    assert AllDigits(a + b + c);
    assert AllDigits(a + b + c + d);
    assert AllDigits(a + b + c + d + e);
  }

  /** A two-digit piece and the number it reads as. */
  predicate Reads(s: string, n: int) {
    |s| == 2 && IsDigit(s[0]) && IsDigit(s[1]) && Digit2(s) == n
  }

  /** Six pieces read back one by one from the joined text. */
  lemma ReadPairs(a: string, b: string, c: string, d: string, e: string, f: string,
                  na: int, nb: int, nc: int, nd: int, ne: int, nf: int)
    requires Reads(a, na) && Reads(b, nb) && Reads(c, nc) && Reads(d, nd) && Reads(e, ne) && Reads(f, nf)
    ensures var t := a + b + c + d + e + f;
            && |t| == 12 && AllDigits(t)
            && Reads(t[0..2], na) && Reads(t[2..4], nb) && Reads(t[4..6], nc)
            && Reads(t[6..8], nd) && Reads(t[8..10], ne) && Reads(t[10..12], nf)
  {
    Pairs(a, b, c, d, e, f);
    DigitsJoin(a, b, c, d, e, f);
  }

  /** For a four-digit year the stamp is twelve digits, and reading it in
      pairs gives back the year within the century and every clock field
      (the month 1-based). */
  lemma StampRoundTrip(year: int, month0: int, day: int, hours: int, minutes: int, seconds: int)
    requires 1000 <= year <= 9999
    requires ValidClock(month0, day, hours, minutes, seconds)
    ensures var t := Stamp(year, month0, day, hours, minutes, seconds);
            && |t| == 12 && AllDigits(t)
            && Reads(t[0..2], year % 100) && Reads(t[2..4], month0 + 1) && Reads(t[4..6], day)
            && Reads(t[6..8], hours) && Reads(t[8..10], minutes) && Reads(t[10..12], seconds)
  {
    YearPart(year);
    TwoDigitsValue(month0 + 1);
    TwoDigitsValue(day);
    TwoDigitsValue(hours);
    TwoDigitsValue(minutes);
    TwoDigitsValue(seconds);
    ReadPairs(Slice2(IntToString(year)), TwoDigits(month0 + 1), TwoDigits(day),
              TwoDigits(hours), TwoDigits(minutes), TwoDigits(seconds),
              year % 100, month0 + 1, day, hours, minutes, seconds);
  }
}
