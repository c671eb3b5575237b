/** The accesslog scan compares raw reqStart strings, with whatever number of fraction digits
    the server wrote.  This module says exactly when that order is time order. */
module RawTimeOrder {
  import opened GeneralizedTime
  import opened Strings

  /** 0.f < 0.g, as exact fractions. */
  predicate FractionLess(f: string, g: string) { Num(f) * Pow10(|g|) < Num(g) * Pow10(|f|) }

  /** Calendar order of two timestamps, with their fractions taken exactly. */
  predicate ExactlyEarlier(day: string, f: string, day': string, g: string)
    requires |day| == |day'| == 14
  {
    SixFields();
    SameFieldCount(WIDTHS, day, day');
    Earlier(Fields(WIDTHS, day), Fields(WIDTHS, day')) || (Fields(WIDTHS, day) == Fields(WIDTHS, day') && FractionLess(f, g))
  }

  lemma {:induction false} SameFieldCount(widths: seq<nat>, d: string, d': string)
    requires |d| == |d'| == Total(widths)
    ensures |Fields(widths, d)| == |Fields(widths, d')| == |widths|
  {
    if widths != [] {
      SameFieldCount(widths[1..], d[widths[0]..], d'[widths[0]..]);
    }
  }

  /** String order and time order say the same about two raw timestamps, both ways round. */
  predicate OrdersAgree(day: string, f: string, day': string, g: string)
    requires |day| == |day'| == 14
  {
    && (Less(Stamp(day, f), Stamp(day', g)) <==> ExactlyEarlier(day, f, day', g))
    && (Less(Stamp(day', g), Stamp(day, f)) <==> ExactlyEarlier(day', g, day, f))
  }

  // ---------------------------------------------------------------- fractions

  lemma SameHead(f: string, g: string)
    requires Digits(f) && Digits(g) && f != [] && g != [] && f[0] == g[0]
    ensures FractionLess(f, g) <==> FractionLess(f[1..], g[1..])
  {
    hide Num, Digits;
    NumSplit(f);
    NumSplit(g);
    PowStep(|f|);
    PowStep(|g|);
    hide Pow10;
    HeadCancels(f[0] as int - '0' as int, Num(f[1..]), Num(g[1..]), Pow10(|f| - 1), Pow10(|g| - 1));
  }

  lemma HeadCancels(d: int, a: int, b: int, p: int, q: int)
    ensures (d * p + a) * (10 * q) < (d * q + b) * (10 * p) <==> a * q < b * p
  {
    assert (d * p + a) * (10 * q) == 10 * (d * p * q) + 10 * (a * q);
    assert (d * q + b) * (10 * p) == 10 * (d * p * q) + 10 * (b * p);
  }

  lemma SmallerHead(f: string, g: string)
    requires Digits(f) && Digits(g) && f != [] && g != [] && f[0] < g[0]
    ensures FractionLess(f, g) && !FractionLess(g, f)
  {
    hide Num, Digits;
    NumSplit(f);
    NumSplit(g);
    PowStep(|f|);
    PowStep(|g|);
    hide Pow10;
    HeadDecides(f[0] as int - '0' as int, g[0] as int - '0' as int, Num(f[1..]), Num(g[1..]), Pow10(|f| - 1), Pow10(|g| - 1));
  }

  lemma HeadDecides(d: int, e: int, a: int, b: int, p: int, q: int)
    requires d < e && 0 <= a < p && 0 <= b && q > 0
    ensures (d * p + a) * (10 * q) < (e * q + b) * (10 * p)
  {
    ScaleOrder(d, e, p);
    ScaleOrder(d * p + a, e * p, q);
    assert (e * p) * q == (e * q) * p;
    assert b * p >= 0;
    assert (e * q + b) * p == (e * q) * p + b * p;
    assert (d * p + a) * (10 * q) == 10 * ((d * p + a) * q);
    assert (e * q + b) * (10 * p) == 10 * ((e * q + b) * p);
  }

  /** More digits never make a fraction smaller. */
  lemma LongerIsNotLess(f: string, rest: string)
    requires Digits(f) && Digits(rest)
    ensures !FractionLess(f + rest, f)
  {
    hide Num, Pow10;
    NumAppend(f, rest);
    PowAdd(|f|, |rest|);
    var n, r, p, q := Num(f), Num(rest), Pow10(|f|), Pow10(|rest|);
    assert (n * q + r) * p == n * (p * q) + r * p;
    assert r * p >= 0;
  }

  /** When neither fraction is a prefix of the other, the first difference decides both orders. */
  lemma {:induction false} NoPrefixAgrees(f: string, g: string)
    requires Digits(f) && Digits(g) && !(f <= g) && !(g <= f)
    ensures Less(f + "Z", g + "Z") <==> FractionLess(f, g)
  {
    var s, t := f + "Z", g + "Z";
    assert f != [] && g != [];
    assert s[0] == f[0] && t[0] == g[0] && s[1..] == f[1..] + "Z" && t[1..] == g[1..] + "Z";
    hide FractionLess;
    if f[0] == g[0] {
      assert f == [f[0]] + f[1..] && g == [g[0]] + g[1..];
      NoPrefixAgrees(f[1..], g[1..]);
      SameHead(f, g);
    } else if f[0] < g[0] {
      SmallerHead(f, g);
    } else {
      SmallerHead(g, f);
    }
  }

  /** A proper prefix sorts last, because 'Z' sorts after every digit. */
  lemma {:induction false} PrefixSortsLast(f: string, rest: string)
    requires Digits(rest) && rest != []
    ensures Less(f + rest + "Z", f + "Z") && !Less(f + "Z", f + rest + "Z")
  {
    LessConcat(f, rest + "Z", f, "Z");
    LessConcat(f, "Z", f, rest + "Z");
    LessIrreflexive(f);
    assert f + rest + "Z" == f + (rest + "Z");
    assert (rest + "Z")[0] == rest[0] && "Z"[0] == 'Z';
  }

  // ---------------------------------------------------------------- whole timestamps

  lemma {:induction false} EarlierIrreflexive(a: seq<int>)
    ensures !Earlier(a, a)
  {
    if a != [] {
      EarlierIrreflexive(a[1..]);
    }
  }

  /** The day decides unless it is the same. */
  lemma DayOrder(day: string, day': string)
    requires |day| == |day'| == 14 && Digits(day) && Digits(day')
    ensures |Fields(WIDTHS, day)| == |Fields(WIDTHS, day')|
    ensures Less(day, day') <==> Earlier(Fields(WIDTHS, day), Fields(WIDTHS, day'))
    ensures Fields(WIDTHS, day) == Fields(WIDTHS, day') <==> day == day'
  {
    hide Less, Earlier, Num, Fields;
    SixFields();
    var a, b := Fields(WIDTHS, day), Fields(WIDTHS, day');
    Ordered(day, day');
    Ordered(day', day);
    if a == b {
      EarlierIrreflexive(a);
      LessTotal(day, day');
    }
  }

  lemma Ordered(day: string, day': string)
    requires |day| == |day'| == Total(WIDTHS) && Digits(day) && Digits(day')
    ensures |Fields(WIDTHS, day)| == |Fields(WIDTHS, day')|
    ensures Less(day, day') <==> Earlier(Fields(WIDTHS, day), Fields(WIDTHS, day'))
  {
    hide Earlier, Num, Fields, Digits;
    FieldsOrder(WIDTHS, day, day', "", "", [], []) by {
      assert !Less("", "") && !Earlier([], []) by { EarlierIrreflexive([]); }
    }
    assert day + "" == day && day' + "" == day';
    assert Fields(WIDTHS, day) + [] == Fields(WIDTHS, day) && Fields(WIDTHS, day') + [] == Fields(WIDTHS, day');
  }

  lemma StampSplit(day: string, f: string)
    ensures Stamp(day, f) == day + ("." + (f + "Z"))
  {
  }

  /** Comparing two raw timestamps: the day, then the fractions with their final Z. */
  lemma StampOrder(day: string, f: string, day': string, g: string)
    requires |day| == |day'|
    ensures Less(Stamp(day, f), Stamp(day', g)) <==> Less(day, day') || (day == day' && Less(f + "Z", g + "Z"))
  {
    hide Less, Stamp;
    StampSplit(day, f);
    StampSplit(day', g);
    LessConcat(day, "." + (f + "Z"), day', "." + (g + "Z"));
    LessConcat(".", f + "Z", ".", g + "Z");
    LessIrreflexive(".");
  }

  /** Exactly when the comparison of raw timestamps is time order: unless both name the same
      second and one fraction is the other with more digits appended. */
  lemma RawOrderIsTimeOrderIff(day: string, f: string, day': string, g: string)
    requires WellFormed(day, f) && WellFormed(day', g)
    ensures OrdersAgree(day, f, day', g) <==> !(day == day' && (f < g || g < f))
  {
    hide Less, Earlier, FractionLess, Num, Fields, Digits, Stamp;
    StampOrder(day, f, day', g);
    StampOrder(day', g, day, f);
    DayOrder(day, day');
    DayOrder(day', day);
    LessIrreflexive(day);
    if day == day' {
      FractionsAgree(f, g);
    }
  }

  lemma FractionsAgree(f: string, g: string)
    requires Digits(f) && Digits(g)
    ensures f < g || g < f <==>
            !((Less(f + "Z", g + "Z") <==> FractionLess(f, g)) && (Less(g + "Z", f + "Z") <==> FractionLess(g, f)))
  {
    hide Less, FractionLess;
    if f == g {
      LessIrreflexive(f + "Z");
      assert !FractionLess(f, g) by { LongerIsNotLess(f, ""); assert f + "" == f; }
    } else if f < g {
      Extended(f, g);
    } else if g < f {
      Extended(g, f);
    } else {
      NoPrefixAgrees(f, g);
      NoPrefixAgrees(g, f);
    }
  }

  lemma Extended(f: string, g: string)
    requires Digits(g) && f < g
    ensures Less(g + "Z", f + "Z") && !FractionLess(g, f)
  {
    hide Less, FractionLess;
    assert g == f + g[|f|..];
    SliceDigits(g, |f|, |g|);
    PrefixSortsLast(f, g[|f|..]);
    LongerIsNotLess(f, g[|f|..]);
  }

  /** A server that always writes the same number of fraction digits is safe. */
  lemma FixedWidthAgrees(day: string, f: string, day': string, g: string)
    requires WellFormed(day, f) && WellFormed(day', g) && |f| == |g|
    ensures OrdersAgree(day, f, day', g)
  {
    RawOrderIsTimeOrderIff(day, f, day', g);
  }

  /** A tenth of a second sorts after twelve hundredths of the same second, whatever the second. */
  lemma RawOrderCanDisagree(day: string)
    requires |day| == 14 && Digits(day)
    ensures ExactlyEarlier(day, "1", day, "12") && Less(Stamp(day, "12"), Stamp(day, "1"))
  {
    assert "12" == "1" + "2";
    assert Num("1") == 1 by { assert "1"[..0] == []; }
    assert Num("12") == 12 by { assert "12"[..1] == "1"; }
    assert FractionLess("1", "12");
    StampOrder(day, "12", day, "1");
    PrefixSortsLast("1", "2");
  }
}
