/** The two normalisations of an LDAP GeneralizedTime (section 3.3.13 of RFC 4517) and the
    string order the accesslog cursor relies on. */
module GeneralizedTime {
  import opened Strings

  function Zeros(n: nat): string { seq(n, _ => '0') }

  /** Cut or pad a fraction to exactly six digits. */
  function Six(frac: string): (r: string)
    ensures |r| == 6
  {
    if |frac| >= 6 then frac[..6] else frac + Zeros(6 - |frac|)
  }

  // ---------------------------------------------------------------- the two normalisations

  /** normalizeGeneralizedTime. */
  function Normalize(value: string): string {
    if value == "" then ""
    else
      var hasZ := value[|value| - 1] == 'Z';
      var body := if hasZ then value[..|value| - 1] else value;
      var z := if hasZ then "Z" else "";
      var dot := IndexByte(body, '.');
      if dot < 0 then body + z else body[..dot] + "." + Six(body[dot + 1..]) + z
  }

  /** What Parse makes of the timestamp of a contextCSN before handing it to time.Parse:
      `Faults` is a slice whose bounds are out of range. */
  datatype CsnTimestamp = Text(s: string) | MissingZ | Faults

  function CsnNormalized(timestamp: string): CsnTimestamp {
    var dot := IndexByte(timestamp, '.');
    var z := IndexByte(timestamp, 'Z');
    if dot < 0 then Text(timestamp)
    else if z < 0 then MissingZ
    else if z < dot + 1 then Faults
    else Text(timestamp[..dot + 1] + Six(timestamp[dot + 1..z]) + "Z")
  }

  /** The outcome in terms of the text: the slice faults exactly when a 'Z' comes before the
      first dot, and the suffix is missed exactly when there is a dot and no 'Z' at all. */
  lemma CsnOutcome(timestamp: string)
    ensures CsnNormalized(timestamp).Faults? <==>
              exists j | 0 <= j < |timestamp| :: timestamp[j] == '.' && '.' !in timestamp[..j] && 'Z' in timestamp[..j]
    ensures CsnNormalized(timestamp).MissingZ? <==> '.' in timestamp && 'Z' !in timestamp
  {
    var dot, z := IndexByte(timestamp, '.'), IndexByte(timestamp, 'Z');
    if dot >= 0 {
      assert timestamp[dot] == '.' && '.' !in timestamp[..dot];
      if 0 <= z < dot {
        assert timestamp[..dot][z] == 'Z';
      }
    }
    if j :| 0 <= j < |timestamp| && timestamp[j] == '.' && '.' !in timestamp[..j] && 'Z' in timestamp[..j] {
      forall k | 0 <= k < j ensures timestamp[k] != '.' {
        assert timestamp[..j][k] != '.';
      }
      IndexByteAt(timestamp, '.', j);
      var k :| 0 <= k < j && timestamp[..j][k] == 'Z';
      assert timestamp[k] == 'Z';
    }
  }

  /** So every timestamp that ends early and goes on after a dot makes Parse slice out of
      bounds, the shortest being "Z.". */
  lemma EarlyZFaults(head: string, rest: string)
    requires '.' !in head && 'Z' in head
    ensures CsnNormalized(head + "." + rest).Faults?
    ensures CsnNormalized("Z.").Faults?
  {
    var v := head + "." + rest;
    assert v[|head|] == '.' && v[..|head|] == head;
    CsnOutcome(v);
    assert "Z."[1] == '.' && "Z."[..1] == "Z";
    CsnOutcome("Z.");
  }

  /** The loop of Parse that pads and cuts the fraction. */
  method NormalizeCsn(timestamp: string) returns (r: CsnTimestamp)
    ensures r == CsnNormalized(timestamp)
  {
    var dot := IndexByte(timestamp, '.');
    if dot < 0 {
      return Text(timestamp);
    }
    var z := IndexByte(timestamp, 'Z');
    if z < 0 {
      return MissingZ;
    }
    if z < dot + 1 {
      return Faults;
    }
    var frac := timestamp[dot + 1..z];
    ghost var digits, n := frac, 0;
    while |frac| < 6
      invariant frac == digits + Zeros(n) && (n > 0 ==> |frac| <= 6)
      decreases 6 - |frac|
    {
      ZerosGrow(digits, n);
      frac := frac + "0";
      n := n + 1;
    }
    SixFrom(digits, n);
    if |frac| > 6 {
      frac := frac[..6];
    }
    r := Text(timestamp[..dot + 1] + frac + "Z");
  }

  lemma ZerosGrow(s: string, n: nat)
    ensures (s + Zeros(n)) + "0" == s + Zeros(n + 1)
  {
  }

  lemma SixFrom(s: string, n: nat)
    requires |s| + n >= 6 && (n > 0 ==> |s| + n == 6)
    ensures (s + Zeros(n))[..6] == Six(s) && |s + Zeros(n)| == |s| + n
  {
  }

  // ---------------------------------------------------------------- on well-formed timestamps

  predicate Digits(s: string) { forall i | 0 <= i < |s| :: '0' <= s[i] <= '9' }

  /** YYYYMMDDHHmmss, a dot, any number of digits, Z. */
  function Stamp(day: string, frac: string): string { day + "." + frac + "Z" }

  predicate WellFormed(day: string, frac: string) { |day| == 14 && Digits(day) && Digits(frac) }

  lemma SixDigits(frac: string)
    requires Digits(frac)
    ensures Digits(Six(frac)) && Six(Six(frac)) == Six(frac)
  {
  }

  lemma NormalizeStamp(day: string, frac: string)
    requires WellFormed(day, frac)
    ensures Normalize(Stamp(day, frac)) == Stamp(day, Six(frac))
    ensures CsnNormalized(Stamp(day, frac)) == Text(Stamp(day, Six(frac)))
  {
    var v := Stamp(day, frac);
    var body := day + "." + frac;
    assert v[..|v| - 1] == body;
    assert forall k | 0 <= k < 14 :: body[k] == day[k] && v[k] == day[k];
    IndexByteAt(body, '.', 14);
    assert body[..14] == day && body[15..] == frac;
    IndexByteAt(v, '.', 14);
    forall k | 0 <= k < |v| - 1 ensures v[k] != 'Z' {
      assert k < 14 ==> v[k] == day[k];
      assert k > 14 ==> v[k] == frac[k - 15];
    }
    IndexByteAt(v, 'Z', |v| - 1);
    assert v[..15] == day + "." && v[15..|v| - 1] == frac;
  }

  lemma SliceDigits(s: string, i: nat, j: nat)
    requires Digits(s) && i <= j <= |s|
    ensures Digits(s[i..j]) && Digits(s[..j]) && Digits(s[i..])
  {
  }

  /** Both normalisations give the same string, with exactly six fraction digits, and
      normalising it again with either changes nothing. */
  lemma {:induction false} NormalisationsAgree(day: string, frac: string)
    requires WellFormed(day, frac)
    ensures var n := Normalize(Stamp(day, frac));
            && CsnNormalized(Stamp(day, frac)) == Text(n)
            && |n| == 22 && n[..14] == day && n[14] == '.' && Digits(n[15..21]) && n[21] == 'Z'
            && Normalize(n) == n && CsnNormalized(n) == Text(n)
  {
    SixDigits(frac);
    NormalizeStamp(day, frac);
    NormalizeStamp(day, Six(frac));
    var n := Stamp(day, Six(frac));
    assert n[..14] == day && n[15..21] == Six(frac);
  }

  /** Without a fraction both leave the text alone. */
  lemma WithoutFraction(value: string)
    requires '.' !in value
    ensures Normalize(value) == value && CsnNormalized(value) == Text(value)
  {
    if value != [] {
      var n := |value| - 1;
      assert value == value[..n] + [value[n]];
      assert '.' !in value[..n];
    }
  }

  /** The accesslog form does not need the final Z, and adds none. */
  lemma WithoutZ(day: string, frac: string)
    requires WellFormed(day, frac)
    ensures Normalize(day + "." + frac) == day + "." + Six(frac)
  {
    var v := day + "." + frac;
    assert v[|v| - 1] != 'Z' by {
      assert v[|v| - 1] == if frac == [] then '.' else frac[|frac| - 1];
    }
    assert forall k | 0 <= k < 14 :: v[k] == day[k];
    IndexByteAt(v, '.', 14);
    assert v[..14] == day && v[15..] == frac;
    assert day + "." + Six(frac) + "" == day + "." + Six(frac);
  }

  // ---------------------------------------------------------------- string order is time order

  /** The number a digit string writes. */
  function Num(s: string): int
    decreases |s|
  {
    if s == [] then 0 else Num(s[..|s| - 1]) * 10 + (s[|s| - 1] as int - '0' as int)
  }

  function Pow10(n: nat): (p: nat)
    ensures p > 0
  { if n == 0 then 1 else 10 * Pow10(n - 1) }

  /** One more digit at the end. */
  lemma NumSnoc(s: string)
    requires s != [] && Digits(s)
    ensures Digits(s[..|s| - 1])
    ensures var d := s[|s| - 1] as int - '0' as int; 0 <= d <= 9 && Num(s) == Num(s[..|s| - 1]) * 10 + d
  {
  }

  lemma PowStep(n: nat)
    requires n > 0
    ensures Pow10(n) == 10 * Pow10(n - 1)
  {
  }

  lemma ShiftOne(a: int, p: int, b: int, d: int)
    requires 0 <= b < p && 0 <= d <= 9
    ensures (a * p + b) * 10 + d == a * (10 * p) + (b * 10 + d) && 0 <= b * 10 + d < 10 * p
  {
  }

  lemma {:induction false} NumAppend(a: string, b: string)
    requires Digits(a) && Digits(b)
    ensures Num(a + b) == Num(a) * Pow10(|b|) + Num(b)
    ensures 0 <= Num(b) < Pow10(|b|)
    decreases |b|
  {
    if b == [] {
      assert a + b == a;
    } else {
      var f := b[..|b| - 1];
      NumSnoc(b);
      NumAppend(a, f);
      assert (a + b)[..|a + b| - 1] == a + f;
      NumSnoc(a + b);
      PowStep(|b|);
      hide Num, Pow10;
      ShiftOne(Num(a), Pow10(|f|), Num(f), b[|b| - 1] as int - '0' as int);
    }
  }

  /** On digit strings of one length, string order is the order of the numbers. */
  lemma {:induction false} DigitOrder(a: string, b: string)
    requires Digits(a) && Digits(b) && |a| == |b|
    ensures Less(a, b) <==> Num(a) < Num(b)
    ensures a == b <==> Num(a) == Num(b)
  {
    if a != [] {
      DigitOrder(a[1..], b[1..]);
      assert a == a[..1] + a[1..] && b == b[..1] + b[1..];
      var p := Pow10(|a| - 1);
      NumSplit(a);
      NumSplit(b);
      hide Num, Pow10;
      ScaleOrder(a[0] as int, b[0] as int, p);
      ScaleOrder(b[0] as int, a[0] as int, p);
    }
  }

  /** The leading digit and the rest. */
  lemma NumSplit(a: string)
    requires a != [] && Digits(a)
    ensures Num(a) == (a[0] as int - '0' as int) * Pow10(|a| - 1) + Num(a[1..])
    ensures 0 <= Num(a[1..]) < Pow10(|a| - 1)
  {
    assert a == a[..1] + a[1..];
    NumAppend(a[..1], a[1..]);
    assert Num(a[..1]) == a[0] as int - '0' as int by { assert a[..1][..0] == []; }
  }

  lemma ScaleOrder(x: int, y: int, p: int)
    requires p > 0
    ensures x < y ==> x * p + p <= y * p
  {
    if x < y {
      var k := y - x - 1;
      assert k * p >= 0;
      assert y * p == x * p + k * p + p;
    }
  }

  // YYYY MM DD HH mm ss
  const WIDTHS: seq<nat> := [4, 2, 2, 2, 2, 2]

  function Total(widths: seq<nat>): nat { if widths == [] then 0 else widths[0] + Total(widths[1..]) }

  /** The numbers in consecutive fields of the given widths. */
  function Fields(widths: seq<nat>, s: string): seq<int>
    requires |s| == Total(widths)
  {
    if widths == [] then [] else [Num(s[..widths[0]])] + Fields(widths[1..], s[widths[0]..])
  }

  lemma SixFields()
    ensures Total(WIDTHS) == 14
  {
    assert WIDTHS[1..] == [2, 2, 2, 2, 2] && WIDTHS[1..][1..] == [2, 2, 2, 2];
    assert Total([2, 2]) == 4 by { assert [2, 2][1..] == [2 as nat]; assert [2 as nat][1..] == []; }
    assert [2, 2, 2, 2][1..] == [2, 2, 2] && [2, 2, 2][1..] == [2, 2];
  }

  /** Year, month, day, hour, minute, second and truncated microsecond. */
  function Instant(day: string, frac: string): seq<int>
    requires |day| == 14
  {
    SixFields();
    Fields(WIDTHS, day) + [Num(Six(frac))]
  }

  /** Calendar order of two instants. */
  predicate Earlier(a: seq<int>, b: seq<int>)
    requires |a| == |b|
  {
    a != [] && (a[0] < b[0] || (a[0] == b[0] && Earlier(a[1..], b[1..])))
  }

  /** Dropping the digits after the sixth rounds down. */
  lemma CutRoundsDown(head: string, rest: string)
    requires Digits(head) && Digits(rest) && |head| == 6
    ensures var n := 6 + |rest|;
            Num(head) * Pow10(n) <= Num(head + rest) * Pow10(6) < (Num(head) + 1) * Pow10(n)
  {
    hide Num, Pow10;
    NumAppend(head, rest);
    PowAdd(6, |rest|);
    var h, r, p, q := Num(head), Num(rest), Pow10(|rest|), Pow10(6);
    assert 0 <= r < p && q > 0;
    Rounds(h, r, p, q);
  }

  lemma Rounds(h: int, r: int, p: int, q: int)
    requires 0 <= r < p && q > 0
    ensures h * (q * p) <= (h * p + r) * q < (h + 1) * (q * p)
  {
    assert (h * p + r) * q == h * (q * p) + r * q;
    assert (h + 1) * (q * p) == h * (q * p) + p * q;
    ScaleOrder(r, p, q);
    assert r * q >= 0;
  }

  /** Padding with zeros only changes the scale. */
  lemma PadScales(frac: string, n: nat)
    requires Digits(frac)
    ensures var m := Num(frac + Zeros(n));
            m * Pow10(|frac|) == Num(frac) * Pow10(|frac| + n) < (m + 1) * Pow10(|frac|)
  {
    hide Num, Pow10;
    NumAppend(frac, Zeros(n));
    ZerosNum(n);
    PowAdd(|frac|, n);
    var f, p, q := Num(frac), Pow10(n), Pow10(|frac|);
    assert (f * p) * q == f * (q * p);
    ScaleOrder(f * p, f * p + 1, q);
  }

  /** The seventh component really is the fraction of a second in whole microseconds. */
  lemma {:induction false} MicrosecondsTruncate(frac: string)
    requires Digits(frac)
    ensures var micros := Num(Six(frac));
            micros * Pow10(|frac|) <= Num(frac) * Pow10(6) < (micros + 1) * Pow10(|frac|)
  {
    hide Num, Pow10, Digits;
    if |frac| >= 6 {
      SliceDigits(frac, 6, 6);
      assert frac == frac[..6] + frac[6..];
      CutRoundsDown(frac[..6], frac[6..]);
    } else {
      PadScales(frac, 6 - |frac|);
    }
  }

  lemma {:induction false} PowAdd(m: nat, n: nat)
    ensures Pow10(m + n) == Pow10(m) * Pow10(n)
  {
    if m > 0 {
      PowAdd(m - 1, n);
      assert 10 * (Pow10(m - 1) * Pow10(n)) == (10 * Pow10(m - 1)) * Pow10(n);
    }
  }

  lemma {:induction false} ZerosNum(n: nat)
    ensures Num(Zeros(n)) == 0
  {
    if n > 0 {
      ZerosNum(n - 1);
      assert Zeros(n)[..n - 1] == Zeros(n - 1);
    }
  }

  /** One field more at the front. */
  lemma FieldOrder(f: string, g: string, rest: string, rest': string, xs: seq<int>, ys: seq<int>)
    requires Digits(f) && Digits(g) && |f| == |g| && |xs| == |ys|
    requires Less(rest, rest') <==> Earlier(xs, ys)
    ensures Less(f + rest, g + rest') <==> Earlier([Num(f)] + xs, [Num(g)] + ys)
  {
    DigitOrder(f, g);
    LessConcat(f, rest, g, rest');
    assert ([Num(f)] + xs)[1..] == xs && ([Num(g)] + ys)[1..] == ys;
  }

  /** The comparison ShouldEmit makes, on normalised timestamps, is time order truncated to
      microseconds. */
  lemma {:induction false} StringOrderIsTimeOrder(day: string, frac: string, day': string, frac': string)
    requires WellFormed(day, frac) && WellFormed(day', frac')
    ensures |Instant(day, frac)| == |Instant(day', frac')| == 7
    ensures Less(Normalize(Stamp(day, frac)), Normalize(Stamp(day', frac'))) <==> Earlier(Instant(day, frac), Instant(day', frac'))
  {
    hide Less, Earlier, Num, Normalize, Digits, Six;
    NormalizeStamp(day, frac);
    NormalizeStamp(day', frac');
    SixDigits(frac);
    SixDigits(frac');
    var t, t' := "." + Six(frac) + "Z", "." + Six(frac') + "Z";
    var xs, ys := [Num(Six(frac))], [Num(Six(frac'))];
    MicroOrder(Six(frac), Six(frac'));
    SixFields();
    FieldsOrder(WIDTHS, day, day', t, t', xs, ys);
    assert Stamp(day, Six(frac)) == day + t && Stamp(day', Six(frac')) == day' + t';
  }

  /** The tail of a normalised timestamp: dot, six digits, Z. */
  lemma MicroOrder(f: string, g: string)
    requires Digits(f) && Digits(g) && |f| == |g|
    ensures Less("." + f + "Z", "." + g + "Z") <==> Earlier([Num(f)], [Num(g)])
  {
    DigitOrder(f, g);
    LessConcat(f, "Z", g, "Z");
    LessConcat(".", f + "Z", ".", g + "Z");
    assert "." + f + "Z" == "." + (f + "Z") && "." + g + "Z" == "." + (g + "Z");
    LessIrreflexive("Z");
    LessIrreflexive(".");
  }

  /** All the fields of the day, followed by tails already known to agree. */
  lemma {:induction false} FieldsOrder(widths: seq<nat>, d: string, d': string, t: string, t': string, xs: seq<int>, ys: seq<int>)
    requires |d| == |d'| == Total(widths) && Digits(d) && Digits(d')
    requires |xs| == |ys| && (Less(t, t') <==> Earlier(xs, ys))
    ensures |Fields(widths, d)| == |Fields(widths, d')| == |widths|
    ensures Less(d + t, d' + t') <==> Earlier(Fields(widths, d) + xs, Fields(widths, d') + ys)
  {
    hide Less, Earlier, Num, Digits;
    if widths == [] {
      assert d + t == t && d' + t' == t';
      assert Fields(widths, d) + xs == xs && Fields(widths, d') + ys == ys;
    } else {
      var w := widths[0];
      SliceDigits(d, w, w);
      SliceDigits(d', w, w);
      FieldsOrder(widths[1..], d[w..], d'[w..], t, t', xs, ys);
      var us, vs := Fields(widths[1..], d[w..]) + xs, Fields(widths[1..], d'[w..]) + ys;
      FieldOrder(d[..w], d'[..w], d[w..] + t, d'[w..] + t', us, vs);
      SplitConcat(d, w, t);
      SplitConcat(d', w, t');
      ConcatAssociates([Num(d[..w])], Fields(widths[1..], d[w..]), xs);
      ConcatAssociates([Num(d'[..w])], Fields(widths[1..], d'[w..]), ys);
    }
  }

  lemma SplitConcat<T>(s: seq<T>, w: nat, t: seq<T>)
    requires w <= |s|
    ensures s + t == s[..w] + (s[w..] + t)
  {
  }

  lemma ConcatAssociates<T>(a: seq<T>, b: seq<T>, c: seq<T>)
    ensures (a + b) + c == a + (b + c)
  {
  }
}
