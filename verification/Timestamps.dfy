/** Hybrid logical clock timestamps: their derived order, and the compact string whose
    sort order is meant to agree with it (src/core/clock.rs). */
module Timestamps {
  const TWO_16: int := 0x1_0000
  const TWO_64: int := 0x1_0000_0000_0000_0000

  type U64 = x: int | 0 <= x < 0x1_0000_0000_0000_0000
  type U32 = x: int | 0 <= x < 0x1_0000_0000

  datatype HlcTimestamp = HlcTimestamp(physical: U64, logical: U32)

  /** The derived `Ord` of the pair: physical first, then logical. */
  predicate Before(a: HlcTimestamp, b: HlcTimestamp) {
    a.physical < b.physical || (a.physical == b.physical && a.logical < b.logical)
  }

  // ---------------------------------------------------------------- decimal formatting

  predicate IsDigits(s: string) {
    forall i :: 0 <= i < |s| ==> '0' <= s[i] <= '9'
  }

  function Value(s: string): nat
    requires IsDigits(s)
  {
    if s == [] then 0 else 10 * Value(s[..|s| - 1]) + ((s[|s| - 1] as int) - ('0' as int))
  }

  function Pow10(n: nat): nat {
    if n == 0 then 1 else 10 * Pow10(n - 1)
  }

  function Digit(d: nat): char
    requires d < 10
  {
    (('0' as int) + d) as char
  }

  /** Decimal digits without padding; zero is "0". */
  function Decimal(n: nat): string {
    if n < 10 then [Digit(n)] else Decimal(n / 10) + [Digit(n % 10)]
  }

  /** `{:0width}`: at least `width` digits, padded on the left with zeros. */
  function ZeroPadded(n: nat, width: nat): string {
    var d := Decimal(n);
    if |d| < width then seq(width - |d|, i => '0') + d else d
  }

  function CompactString(t: HlcTimestamp): string {
    ZeroPadded(t.physical, 13) + "-" + ZeroPadded(t.logical, 6)
  }

  /** The order in which Rust compares strings. */
  predicate LexLess(s: string, t: string) {
    t != [] && (s == [] || s[0] < t[0] || (s[0] == t[0] && LexLess(s[1..], t[1..])))
  }

  lemma {:induction false} DecimalValue(n: nat)
    ensures IsDigits(Decimal(n)) && Value(Decimal(n)) == n && 1 <= |Decimal(n)|
    decreases n
  {
    if n >= 10 {
      DecimalValue(n / 10);
      var d := Decimal(n);
      assert d[..|d| - 1] == Decimal(n / 10);
    }
  }

  lemma {:induction false} DecimalWidth(n: nat, width: nat)
    requires 1 <= width
    ensures n < Pow10(width) <==> |Decimal(n)| <= width
    decreases n
  {
    if n >= 10 {
      if width == 1 {
        assert Pow10(1) == 10;
        DecimalValue(n / 10);
      } else {
        DecimalWidth(n / 10, width - 1);
        assert Pow10(width) == 10 * Pow10(width - 1);
      }
    } else {
      Pow10AtLeastTen(width);
    }
  }

  lemma {:induction false} Pow10AtLeastTen(width: nat)
    requires 1 <= width
    ensures Pow10(width) >= 10
  {
    if width == 1 { assert Pow10(1) == 10 * Pow10(0); } else { Pow10AtLeastTen(width - 1); }
  }

  lemma {:induction false} ZerosKeepValue(k: nat, d: string)
    requires IsDigits(d)
    ensures IsDigits(seq(k, i => '0') + d) && Value(seq(k, i => '0') + d) == Value(d)
    decreases k + |d|
  {
    var z := seq(k, i => '0');
    var s := z + d;
    if d != [] {
      ZerosKeepValue(k, d[..|d| - 1]);
      assert s[..|s| - 1] == z + d[..|d| - 1];
    } else if k > 0 {
      ZerosKeepValue(k - 1, d);
      assert s[..|s| - 1] == seq(k - 1, i => '0') + d;
    }
  }

  lemma {:induction false} PaddedIsFixedWidth(n: nat, width: nat)
    requires 1 <= width && n < Pow10(width)
    ensures IsDigits(ZeroPadded(n, width)) && |ZeroPadded(n, width)| == width && Value(ZeroPadded(n, width)) == n
  {
    DecimalValue(n);
    DecimalWidth(n, width);
    var d := Decimal(n);
    if |d| < width {
      ZerosKeepValue(width - |d|, d);
    }
  }

  // ---------------------------------------------------------------- string order against value

  lemma {:induction false} LexLessAppend(s: string, t: string, x: string, y: string)
    requires |s| == |t|
    ensures LexLess(s + x, t + y) <==> LexLess(s, t) || (s == t && LexLess(x, y))
    decreases |s|
  {
    if s == [] {
      assert s + x == x && t + y == y;
    } else {
      assert (s + x)[0] == s[0] && (t + y)[0] == t[0];
      assert (s + x)[1..] == s[1..] + x && (t + y)[1..] == t[1..] + y;
      LexLessAppend(s[1..], t[1..], x, y);
      assert s == [s[0]] + s[1..] && t == [t[0]] + t[1..];
    }
  }

  lemma {:induction false} LexLessIsValueLess(s: string, t: string)
    requires IsDigits(s) && IsDigits(t) && |s| == |t|
    ensures LexLess(s, t) <==> Value(s) < Value(t)
    ensures Value(s) == Value(t) ==> s == t
    decreases |s|
  {
    if s != [] {
      var n := |s| - 1;
      LexLessIsValueLess(s[..n], t[..n]);
      LexLessAppend(s[..n], t[..n], s[n..], t[n..]);
      assert s == s[..n] + s[n..] && t == t[..n] + t[n..];
      assert LexLess(s[n..], t[n..]) <==> s[n] < t[n] by {
        assert s[n..][1..] == [] && t[n..][1..] == [];
      }
    }
  }

  lemma {:induction false} FixedWidthOrder(m: nat, n: nat, width: nat)
    requires 1 <= width && m < Pow10(width) && n < Pow10(width)
    ensures LexLess(ZeroPadded(m, width), ZeroPadded(n, width)) <==> m < n
    ensures ZeroPadded(m, width) == ZeroPadded(n, width) <==> m == n
  {
    PaddedIsFixedWidth(m, width);
    PaddedIsFixedWidth(n, width);
    LexLessIsValueLess(ZeroPadded(m, width), ZeroPadded(n, width));
  }

  lemma Powers()
    ensures Pow10(6) == 1_000_000 && Pow10(13) == 10_000_000_000_000
  {
    assert Pow10(3) == 1000;
    assert Pow10(6) == 1000 * Pow10(3);
    assert Pow10(9) == 1000 * Pow10(6);
    assert Pow10(12) == 1000 * Pow10(9);
  }

  /** `<physical_ms>-<logical_counter>`: thirteen digits, a dash and six digits, which read back as the two
      numbers. */
  lemma CompactForm(t: HlcTimestamp)
    requires t.physical < 10_000_000_000_000 && t.logical < 1_000_000
    ensures var s := CompactString(t);
            && |s| == 20 && s[13] == '-' && IsDigits(s[..13]) && IsDigits(s[14..])
            && Value(s[..13]) == t.physical && Value(s[14..]) == t.logical
  {
    Powers();
    PaddedIsFixedWidth(t.physical, 13);
    PaddedIsFixedWidth(t.logical, 6);
    var p, l := ZeroPadded(t.physical, 13), ZeroPadded(t.logical, 6);
    assert CompactString(t)[..13] == p && CompactString(t)[14..] == l;
  }

  /** Two timestamps of at most thirteen and six digits sort as strings exactly as they do as pairs. */
  lemma CompactOrder(a: HlcTimestamp, b: HlcTimestamp)
    requires a.physical < 10_000_000_000_000 && b.physical < 10_000_000_000_000
    requires a.logical < 1_000_000 && b.logical < 1_000_000
    ensures LexLess(CompactString(a), CompactString(b)) <==> Before(a, b)
  {
    Powers();
    FixedWidthOrder(a.physical, b.physical, 13);
    FixedWidthOrder(a.logical, b.logical, 6);
    PaddedIsFixedWidth(a.physical, 13);
    PaddedIsFixedWidth(b.physical, 13);
    var (ap, al) := (ZeroPadded(a.physical, 13), ZeroPadded(a.logical, 6));
    var (bp, bl) := (ZeroPadded(b.physical, 13), ZeroPadded(b.logical, 6));
    assert CompactString(a) == ap + ("-" + al) && CompactString(b) == bp + ("-" + bl);
    LexLessAppend(ap, bp, "-" + al, "-" + bl);
    LexLessAppend("-", "-", al, bl);
    assert !LexLess("-", "-") by { assert "-"[1..] == []; }
  }

  /** The strings sort correctly for every pair of clock timestamps below `limit`. */
  ghost predicate SortsBelow(limit: U64) {
    forall a: HlcTimestamp, b: HlcTimestamp ::
      a.physical < limit && b.physical < limit && a.logical < TWO_16 && b.logical < TWO_16 ==>
        (LexLess(CompactString(a), CompactString(b)) <==> Before(a, b))
  }

  lemma FirstCharDecides(s: string, t: string)
    requires s != "" && t != "" && s[0] > t[0]
    ensures !LexLess(s, t)
  {}

  lemma WideStartsUnpadded(n: nat, logical: U32)
    requires n < TWO_64 && |Decimal(n)| >= 13
    ensures var s := CompactString(HlcTimestamp(n, logical)); s != "" && s[0] == Decimal(n)[0]
  {
    assert ZeroPadded(n, 13) == Decimal(n);
  }

  /** The first fourteen-digit reading already sorts before a thirteen-digit one. */
  lemma FourteenDigitsSortBelow()
    ensures var a, b := HlcTimestamp(2_000_000_000_000, 0), HlcTimestamp(10_000_000_000_000, 0);
            Before(a, b) && !LexLess(CompactString(a), CompactString(b))
  {
    ScaledLeadingDigit(2, 12);
    ScaledLeadingDigit(1, 13);
    ScaledPowers();
    WideStartsUnpadded(2_000_000_000_000, 0);
    WideStartsUnpadded(10_000_000_000_000, 0);
    FirstCharDecides(CompactString(HlcTimestamp(2_000_000_000_000, 0)), CompactString(HlcTimestamp(10_000_000_000_000, 0)));
  }

  lemma ScaledPowers()
    ensures Scaled(2, 12) == 2_000_000_000_000 && Scaled(1, 13) == 10_000_000_000_000
  {
    assert Scaled(2, 4) == 2_0000 && Scaled(1, 4) == 1_0000;
    assert Scaled(2, 8) == 2_0000_0000 && Scaled(1, 8) == 1_0000_0000;
  }

  function Scaled(d: nat, k: nat): nat {
    if k == 0 then d else 10 * Scaled(d, k - 1)
  }

  lemma {:induction false} ScaledLeadingDigit(d: nat, k: nat)
    requires 1 <= d < 10
    ensures 1 <= Scaled(d, k) && |Decimal(Scaled(d, k))| == k + 1 && Decimal(Scaled(d, k))[0] == Digit(d)
  {
    if k > 0 {
      ScaledLeadingDigit(d, k - 1);
    }
  }

  /** "Compact, sortable": true exactly while the limit is at most ten to the thirteenth milliseconds. */
  lemma CompactSortsExactlyBelowTenTo13(limit: U64)
    ensures SortsBelow(limit) <==> limit <= 10_000_000_000_000
  {
    if limit <= 10_000_000_000_000 {
      forall a: HlcTimestamp, b: HlcTimestamp | a.physical < limit && b.physical < limit && a.logical < TWO_16 && b.logical < TWO_16
        ensures LexLess(CompactString(a), CompactString(b)) <==> Before(a, b)
      {
        CompactOrder(a, b);
      }
    } else {
      FourteenDigitsSortBelow();
      var a, b := HlcTimestamp(2_000_000_000_000, 0), HlcTimestamp(10_000_000_000_000, 0);
      assert a.physical < limit && b.physical < limit;
    }
  }
}
