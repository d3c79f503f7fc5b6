/** Timestamps as text: printed with nanoseconds and trailing zeros trimmed, read
    back with microseconds plus a textual tail. The calendar part of the text is
    library work and enters as parameters. */
module Timestamps {
  import opened Basics
  import opened Decimal

  /** How a clock shows the second s: date and time of day, and the zone. */
  datatype Face = Face(date: int -> string, zone: int -> string)

  /** What the reader's library makes of a timestamp. */
  datatype DateTime = DateTime(micros: int, aware: bool)

  type FromIso = string -> Option<DateTime>

  predicate NoMark(s: string) { forall i :: 0 <= i < |s| ==> s[i] != '.' && s[i] != ',' }

  /** Nineteen characters ending in ":SS"; a zone that is no digit and no mark. */
  predicate Legible(face: Face, s: int) {
    var d, z := face.date(s), face.zone(s);
    && |d| == 19 && NoMark(d) && d[16] == ':' && IsDigit(d[17]) && IsDigit(d[18])
    && |z| > 0 && NoMark(z) && !IsDigit(z[0])
  }

  /** The second s with fraction digits f, the empty string for no fraction. */
  function Text(face: Face, s: int, f: string): string {
    face.date(s) + (if f == "" then "" else "." + f) + face.zone(s)
  }

  function Padded(f: string, width: nat): (p: string)
    ensures |p| == Max(|f|, width)
    ensures p[..|f|] == f && forall i :: |f| <= i < |p| ==> p[i] == '0'
  {
    if |f| >= width then f else f + seq(width - |f|, i => '0')
  }

  lemma {:induction false} PaddedDigits(f: string, width: nat)
    requires AllDigits(f)
    ensures AllDigits(Padded(f, width))
  {
    var p := Padded(f, width);
    forall i | 0 <= i < |p| ensures IsDigit(p[i]) {
      assert i < |f| ==> p[i] == p[..|f|][i];
    }
  }

  /** Up to nine fraction digits denote microseconds; further digits are cut off. */
  function Micros(f: string): nat
    requires AllDigits(f)
  {
    PaddedDigits(f, 9);
    Value(Padded(f, 9)[..6])
  }

  /** On every second of [from, until), the library reads back what the face
      shows, truncating the fraction to microseconds. */
  ghost predicate ReadsBack(iso: FromIso, face: Face, from: int, until: int) {
    && (forall s :: from <= s < until ==> Legible(face, s))
    && (forall s, f | from <= s < until && AllDigits(f) && |f| <= 9 ::
          iso(Text(face, s, f)) == Some(DateTime(s * 1_000_000 + Micros(f), true)))
  }

  // ----- Printing -----

  function TrimZeros(f: string): (t: string)
    ensures |t| <= |f| && t == f[..|t|]
  {
    if |f| > 0 && f[|f| - 1] == '0' then TrimZeros(f[..|f| - 1]) else f
  }

  function Seconds(t: int): int { t / SECOND }

  function Fraction(t: int): string { TrimZeros(Fixed(t % SECOND, 9)) }

  /** RFC 3339 text of the instant t with as many fraction digits as needed. */
  function Stamp(face: Face, t: int): string { Text(face, Seconds(t), Fraction(t)) }

  lemma {:induction false} TrimThenPad(f: string)
    ensures Padded(TrimZeros(f), |f|) == f
  {
    if |f| > 0 && f[|f| - 1] == '0' {
      var g := f[..|f| - 1];
      TrimThenPad(g);
      var t := TrimZeros(f);
      assert t == TrimZeros(g);
      var p, q := Padded(t, |f|), Padded(t, |g|);
      forall i | 0 <= i < |f| ensures p[i] == f[i] {
        if i < |t| {
          assert p[i] == t[i];
        } else if i < |g| {
          assert p[i] == '0' == q[i];
        }
      }
    }
  }

  lemma {:induction false} FractionDigits(t: int)
    ensures AllDigits(Fraction(t)) && |Fraction(t)| <= 9
    ensures Padded(Fraction(t), 9) == Fixed(t % SECOND, 9)
  {
    TrimThenPad(Fixed(t % SECOND, 9));
  }

  // ----- Reading: the search for the fraction -----

  /** The pattern ":dd" followed by a mark and at least one digit. */
  predicate MatchAt(v: string, i: nat) {
    && i + 4 < |v| && v[i] == ':' && IsDigit(v[i + 1]) && IsDigit(v[i + 2])
    && (v[i + 3] == '.' || v[i + 3] == ',') && IsDigit(v[i + 4])
  }

  function DigitRun(v: string, i: nat): (n: nat)
    requires i <= |v|
    ensures i <= n <= |v| && AllDigits(v[i..n]) && (n < |v| ==> !IsDigit(v[n]))
    decreases |v| - i
  {
    if i < |v| && IsDigit(v[i]) then DigitRun(v, i + 1) else i
  }

  /** Fraction digits at the leftmost match of the pattern, if there is one. */
  function FindFraction(v: string, i: nat): Option<string>
    decreases |v| - i
  {
    if i >= |v| then None
    else if MatchAt(v, i) then Some(v[i + 4..DigitRun(v, i + 4)])
    else FindFraction(v, i + 1)
  }

  lemma {:induction false} SkipTo(v: string, i: nat, k: nat)
    requires i <= k <= |v|
    requires forall j :: i <= j < k ==> !MatchAt(v, j)
    ensures FindFraction(v, i) == FindFraction(v, k)
    decreases k - i
  {
    if i < k {
      SkipTo(v, i + 1, k);
    }
  }

  /** In every text: the search finds the digits after the leftmost match of the
      pattern, all of them, and nothing exactly if there is no match. */
  lemma {:induction false} LeftmostFraction(v: string, i: nat) returns (k: nat)
    requires i <= |v|
    ensures i <= k <= |v| && forall j :: i <= j < k ==> !MatchAt(v, j)
    ensures match FindFraction(v, i)
            case None => k == |v|
            case Some(f) => && MatchAt(v, k) && k + 4 + |f| <= |v| && f == v[k + 4..k + 4 + |f|] && AllDigits(f)
                            && (k + 4 + |f| < |v| ==> !IsDigit(v[k + 4 + |f|]))
    decreases |v| - i
  {
    if i == |v| || MatchAt(v, i) {
      k := i;
    } else {
      k := LeftmostFraction(v, i + 1);
    }
  }

  lemma {:induction false} DigitRunEnds(v: string, i: nat, n: nat)
    requires i <= n <= |v| && AllDigits(v[i..n]) && (n < |v| ==> !IsDigit(v[n]))
    ensures DigitRun(v, i) == n
    decreases n - i
  {
    if i < n {
      assert v[i] == v[i..n][0];
      assert v[i + 1..n] == v[i..n][1..];
      DigitRunEnds(v, i + 1, n);
    }
  }

  /** The search finds exactly the printed fraction. */
  lemma {:induction false} FractionOfText(face: Face, s: int, f: string)
    requires Legible(face, s) && AllDigits(f)
    ensures FindFraction(Text(face, s, f), 0) == if f == "" then None else Some(f)
  {
    var v, z := Text(face, s, f), face.zone(s);
    if f == "" {
      assert NoMark(v);
      SkipTo(v, 0, |v|);
    } else {
      assert v == face.date(s) + ['.'] + f + z;
      FractionAfterMark(face.date(s), '.', f, z);
    }
  }

  /** Of a time of day ending in seconds, with a point or a comma behind them, the
      search finds exactly the digits after it. */
  lemma {:induction false} FractionAfterMark(d: string, mark: char, f: string, z: string)
    requires |d| == 19 && NoMark(d) && d[16] == ':' && IsDigit(d[17]) && IsDigit(d[18])
    requires (mark == '.' || mark == ',') && AllDigits(f) && f != "" && |z| > 0 && !IsDigit(z[0])
    ensures FindFraction(d + [mark] + f + z, 0) == Some(f)
  {
    var v := d + [mark] + f + z;
    assert forall i :: 0 <= i < 19 ==> v[i] == d[i];
    assert v[19] == mark && v[20] == f[0] && v[20 + |f|] == z[0] && v[20..20 + |f|] == f;
    SkipTo(v, 0, 16);
    DigitRunEnds(v, 20, 20 + |f|);
  }

  // ----- Reading: the sort key -----

  datatype Key = Key(when: DateTime, tail: string)

  /** Microseconds and the last three nanosecond digits of an instant. */
  function TimeKey(t: int): Key { Key(DateTime(t / 1000, true), Fixed(t % 1000, 3)) }

  /** arrival_key: the microsecond reading together with the digits beyond it. */
  function ArrivalKey(iso: FromIso, v: string): Option<Key> {
    var when := iso(v);
    var fraction := FindFraction(v, 0);
    var tail := if fraction.Some? && |fraction.value| > 6 then fraction.value[6..] else "";
    if when.None? then None else Some(Key(when.value, Padded(tail, 3)))
  }

  /** The reader's comparison of keys; it has no answer for a zoned against an
      unzoned time. */
  predicate Comparable(a: Key, b: Key) { a.when.aware == b.when.aware }

  predicate KeyAfter(a: Key, b: Key) {
    if a.when.micros != b.when.micros then a.when.micros > b.when.micros else TextLess(b.tail, a.tail)
  }

  lemma {:induction false} TailOfFraction(t: int)
    ensures var f := Fraction(t);
            Padded(if |f| > 6 then f[6..] else "", 3) == Fixed(t % SECOND % 1000, 3)
  {
    var f := Fraction(t);
    var tail := if |f| > 6 then f[6..] else "";
    FractionDigits(t);
    FixedSplit(t % SECOND);
    var p, q := Padded(f, 9), Padded(tail, 3);
    forall i | 0 <= i < 3 ensures q[i] == p[6 + i] {
      if 6 + i < |f| {
        assert q[i] == q[..|tail|][i] == f[6 + i];
        assert p[6 + i] == p[..|f|][6 + i];
      } else {
        assert q[i] == '0' == p[6 + i];
      }
    }
    assert q == p[6..];
  }

  lemma {:induction false} MicrosOfFraction(t: int)
    ensures AllDigits(Fraction(t)) && Micros(Fraction(t)) == t % SECOND / 1000
  {
    FractionDigits(t);
    FixedSplit(t % SECOND);
    assert Pow10(6) == 1_000_000 by { assert Pow10(3) == 1000; }
    FixedValue(t % SECOND / 1000, 6);
  }

  lemma {:induction false} StampReadsBack(iso: FromIso, face: Face, from: int, until: int, t: int)
    requires ReadsBack(iso, face, from, until) && from <= Seconds(t) < until
    ensures iso(Stamp(face, t)) == Some(DateTime(t / 1000, true))
  {
    FractionDigits(t);
    MicrosOfFraction(t);
    SplitInstant(t);
  }

  lemma {:induction false} TailOfStamp(face: Face, t: int)
    requires Legible(face, Seconds(t))
    ensures var fraction := FindFraction(Stamp(face, t), 0);
            var tail := if fraction.Some? && |fraction.value| > 6 then fraction.value[6..] else "";
            Padded(tail, 3) == Fixed(t % 1000, 3)
  {
    FractionDigits(t);
    FractionOfText(face, Seconds(t), Fraction(t));
    TailOfFraction(t);
    SplitInstant(t);
  }

  /** The key of a printed instant is its microseconds and the last three digits. */
  lemma {:induction false} KeyOfStamp(iso: FromIso, face: Face, from: int, until: int, t: int)
    requires ReadsBack(iso, face, from, until) && from <= Seconds(t) < until
    ensures iso(Stamp(face, t)) == Some(DateTime(t / 1000, true))
    ensures ArrivalKey(iso, Stamp(face, t)) == Some(TimeKey(t))
  {
    StampReadsBack(iso, face, from, until, t);
    TailOfStamp(face, t);
  }

  lemma {:induction false} SplitInstant(t: int)
    ensures Seconds(t) * 1_000_000 + t % SECOND / 1000 == t / 1000
    ensures t % SECOND % 1000 == t % 1000
  {
  }

  /** Comparing keys of printed instants is comparing nanoseconds, although the
      fraction was trimmed on one side and truncated on the other. */
  lemma {:induction false} KeyOrderIsTimeOrder(t: int, u: int)
    ensures KeyAfter(TimeKey(t), TimeKey(u)) <==> t > u
  {
    assert Pow10(3) == 1000;
    FixedValue(t % 1000, 3);
    FixedValue(u % 1000, 3);
    TextOrderIsNumericOrder(Fixed(u % 1000, 3), Fixed(t % 1000, 3));
  }
}
