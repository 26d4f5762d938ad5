/** Decimal numerals, and the truncating printer of amounts. */
module Decimal {
  import opened Prelude

  predicate IsDigit(c: char) {
    '0' <= c <= '9'
  }

  function Digit(d: nat): char
    requires d < 10
  {
    '0' + d as char
  }

  /** The decimal text of a number. */
  function Numeral(n: nat): (s: string)
    ensures s != [] && forall i :: 0 <= i < |s| ==> IsDigit(s[i])
  {
    if n < 10 then [Digit(n)] else Numeral(n / 10) + [Digit(n % 10)]
  }

  function DigitValue(c: char): nat
    requires IsDigit(c)
  {
    c as int - '0' as int
  }

  /** The number a digit string denotes; the empty one denotes zero. */
  function ValueOf(s: string): nat
    requires forall i :: 0 <= i < |s| ==> IsDigit(s[i])
  {
    if s == [] then 0 else 10 * ValueOf(s[..|s| - 1]) + DigitValue(s[|s| - 1])
  }

  function Pow10(k: nat): (p: nat)
    ensures p > 0
  {
    if k == 0 then 1 else 10 * Pow10(k - 1)
  }

  /** Printing and reading back a number gives the number, so different numbers print differently. */
  lemma {:induction false} NumeralRoundTrip(n: nat)
    ensures ValueOf(Numeral(n)) == n
  {
    if n >= 10 {
      NumeralRoundTrip(n / 10);
      var s := Numeral(n / 10);
      assert (s + [Digit(n % 10)])[..|s|] == s;
    } else {
      assert [Digit(n)][..0] == [];
    }
  }

  lemma {:induction false} MulGap(a: int, b: int, p: int)
    requires p > 0
    ensures a > b ==> a * p >= b * p + p
    decreases a - b
  {
    if a > b {
      assert a * p == (a - 1) * p + p;
      MulGap(a - 1, b, p);
    }
  }

  /** Euclidean division is unique. */
  lemma DivUnique(v: int, p: int, q: int, r: int)
    requires p > 0 && v == q * p + r && 0 <= r < p
    ensures v / p == q && v % p == r
  {
    assert v == (v / p) * p + v % p;
    MulGap(v / p, q, p);
    MulGap(q, v / p, p);
  }

  function Quot(v: nat, p: nat): (q: nat)
    requires p > 0
    ensures q == v / p
  {
    assert v == (v / p) * p + v % p;
    MulGap(0, v / p, p);
    v / p
  }

  function Rest(v: nat, p: nat): (r: nat)
    requires p > 0
    ensures r == v % p && r < p && v == Quot(v, p) * p + r
  {
    v % p
  }

  function PadStart(s: string, width: nat): string {
    if |s| >= width then s else seq(width - |s|, _ => '0') + s
  }

  function FirstN(s: string, n: nat): string {
    if |s| <= n then s else s[..n]
  }

  function StripZeros(s: string): string {
    if s != [] && s[|s| - 1] == '0' then StripZeros(s[..|s| - 1]) else s
  }

  /** The fraction digits formatUnits shows: padded to the decimals, cut at six, zeros stripped. */
  function Fraction(value: nat, decimals: nat): string {
    StripZeros(FirstN(PadStart(Numeral(Rest(value, Pow10(decimals))), decimals), 6))
  }

  /** formatUnits for a non-negative amount. */
  function FormatUnits(value: nat, decimals: nat): string {
    var whole, fraction := Numeral(Quot(value, Pow10(decimals))), Fraction(value, decimals);
    if fraction == "" then whole else whole + "." + fraction
  }

  /** formatWeiToEth has the decimals written out. */
  function FormatWeiToEth(wei: nat): string {
    var base := Pow10(18);
    var whole, fraction := Numeral(Quot(wei, base)), StripZeros(FirstN(PadStart(Numeral(Rest(wei, base)), 18), 6));
    if fraction == "" then whole else whole + "." + fraction
  }

  // ---------------------------------------------------------------- lengths and values

  lemma {:induction false} NumeralLength(n: nat, k: nat)
    requires k > 0 && n < Pow10(k)
    ensures |Numeral(n)| <= k
  {
    if n >= 10 {
      assert Pow10(1) == 10;
      NumeralLength(n / 10, k - 1);
    }
  }

  lemma {:induction false} ValueOfZeros(n: nat, s: string)
    requires forall i :: 0 <= i < |s| ==> IsDigit(s[i])
    ensures ValueOf(seq(n, _ => '0') + s) == ValueOf(s)
    decreases |s|, n
  {
    var z := seq(n, _ => '0');
    if s == [] {
      assert z + s == z;
      if n > 0 {
        ValueOfZeros(n - 1, []);
        assert z[..n - 1] == seq(n - 1, _ => '0') + [];
      }
    } else {
      ValueOfZeros(n, s[..|s| - 1]);
      assert (z + s)[..|z + s| - 1] == z + s[..|s| - 1];
    }
  }

  /** Dropping the last d digits divides by the d-th power of ten. */
  lemma {:induction false} ValueOfPrefix(s: string, n: nat)
    requires n <= |s| && forall i :: 0 <= i < |s| ==> IsDigit(s[i])
    ensures ValueOf(s[..n]) == ValueOf(s) / Pow10(|s| - n)
    decreases |s|
  {
    if n == |s| {
      assert s[..n] == s;
    } else {
      var init := s[..|s| - 1];
      ValueOfPrefix(init, n);
      assert init[..n] == s[..n];
      DivTwice(ValueOf(s), Pow10(|s| - 1 - n));
    }
  }

  lemma DivTwice(v: nat, p: nat)
    requires p > 0
    ensures v / (10 * p) == (v / 10) / p
  {
    var q, r := Quot(v / 10, p), Rest(v / 10, p);
    assert v == 10 * (v / 10) + v % 10;
    assert v == q * (10 * p) + (10 * r + v % 10);
    DivUnique(v, 10 * p, q, 10 * r + v % 10);
  }

  lemma TimesTen(v: nat, k: nat)
    ensures v * Pow10(k + 1) == 10 * (v * Pow10(k))
  {
    assert Pow10(k + 1) == 10 * Pow10(k);
  }

  lemma {:induction false} Stripped(s: string)
    requires forall i :: 0 <= i < |s| ==> IsDigit(s[i])
    ensures StripZeros(s) <= s
    ensures StripZeros(s) != [] ==> StripZeros(s)[|StripZeros(s)| - 1] != '0'
    ensures ValueOf(StripZeros(s)) * Pow10(|s| - |StripZeros(s)|) == ValueOf(s)
    decreases |s|
  {
    if s != [] && s[|s| - 1] == '0' {
      var init := s[..|s| - 1];
      Stripped(init);
      TimesTen(ValueOf(StripZeros(init)), |init| - |StripZeros(init)|);
    }
  }

  lemma {:induction false} Pow10Split(a: nat, b: nat)
    ensures Pow10(a + b) == Pow10(a) * Pow10(b)
  {
    if a > 0 { Pow10Split(a - 1, b); }
  }

  /** Splitting off the whole part and cutting the rest is one floor division. */
  lemma FloorSplits(value: nat, a: nat, b: nat)
    ensures Quot(value, Pow10(b)) == Quot(value, Pow10(a + b)) * Pow10(a) + Quot(Rest(value, Pow10(a + b)), Pow10(b))
  {
    Pow10Split(a, b);
    var p, q := Pow10(a), Pow10(b);
    var w, r := Quot(value, p * q), Rest(value, p * q);
    Regroup(value, w, p, q, r, Quot(r, q), Rest(r, q));
    DivUnique(value, q, w * p + Quot(r, q), Rest(r, q));
  }

  lemma Regroup(v: int, w: int, p: int, q: int, r: int, d: int, e: int)
    requires v == w * (p * q) + r && r == d * q + e
    ensures v == (w * p + d) * q + e
  {
    assert w * (p * q) == (w * p) * q;
    assert (w * p + d) * q == (w * p) * q + d * q;
  }

  /** The number a printed amount denotes, in units of ten to the minus places. */
  ghost function Denotes(whole: string, fraction: string, places: nat): nat
    requires forall i :: 0 <= i < |whole| ==> IsDigit(whole[i])
    requires forall i :: 0 <= i < |fraction| ==> IsDigit(fraction[i])
    requires |fraction| <= places
  {
    ValueOf(whole) * Pow10(places) + ValueOf(fraction) * Pow10(places - |fraction|)
  }

  /** The padded remainder: exactly as many digits as decimals, denoting the remainder. */
  lemma PaddedRest(rest: nat, decimals: nat)
    requires decimals > 0 && rest < Pow10(decimals)
    ensures var padded := PadStart(Numeral(rest), decimals);
            |padded| == decimals && (forall i :: 0 <= i < |padded| ==> IsDigit(padded[i])) && ValueOf(padded) == rest
  {
    NumeralRoundTrip(rest);
    NumeralLength(rest, decimals);
    if |Numeral(rest)| < decimals { ValueOfZeros(decimals - |Numeral(rest)|, Numeral(rest)); }
  }

  lemma CutRest(padded: string, k: nat)
    requires k <= |padded| && forall i :: 0 <= i < |padded| ==> IsDigit(padded[i])
    ensures var f := StripZeros(padded[..k]);
            && |f| <= k && (forall i :: 0 <= i < |f| ==> IsDigit(f[i]))
            && (f != [] ==> f[|f| - 1] != '0')
            && ValueOf(f) * Pow10(k - |f|) == Quot(ValueOf(padded), Pow10(|padded| - k))
  {
    var cut := padded[..k];
    assert |cut| == k;
    Stripped(cut);
    PrefixIsQuot(padded, k);
  }

  lemma PrefixIsQuot(s: string, n: nat)
    requires n <= |s| && forall i :: 0 <= i < |s| ==> IsDigit(s[i])
    ensures ValueOf(s[..n]) == Quot(ValueOf(s), Pow10(|s| - n))
  {
    ValueOfPrefix(s, n);
  }

  lemma FirstDigits(padded: string)
    requires forall i :: 0 <= i < |padded| ==> IsDigit(padded[i])
    ensures var f, k := StripZeros(FirstN(padded, 6)), Min(|padded|, 6);
            && |f| <= k && (forall i :: 0 <= i < |f| ==> IsDigit(f[i]))
            && (f != [] ==> f[|f| - 1] != '0')
            && ValueOf(f) * Pow10(k - |f|) == Quot(ValueOf(padded), Pow10(|padded| - k))
  {
    var k := Min(|padded|, 6);
    assert FirstN(padded, 6) == padded[..k] by { assert padded[..|padded|] == padded; }
    CutRest(padded, k);
  }

  lemma NoFraction(value: nat)
    ensures Fraction(value, 0) == []
  {
    assert Rest(value, 1) == 0;
    assert FirstN(PadStart(Numeral(0), 0), 6) == ['0'];
    assert ['0'][..0] == [];
  }

  lemma FractionValue(value: nat, decimals: nat)
    ensures var f, k := Fraction(value, decimals), Min(decimals, 6);
            && |f| <= k && (forall i :: 0 <= i < |f| ==> IsDigit(f[i]))
            && (f != [] ==> f[|f| - 1] != '0')
            && ValueOf(f) * Pow10(k - |f|) == Quot(Rest(value, Pow10(decimals)), Pow10(decimals - k))
  {
    if decimals == 0 {
      NoFraction(value);
    } else {
      PaddedRest(Rest(value, Pow10(decimals)), decimals);
      FirstDigits(PadStart(Numeral(Rest(value, Pow10(decimals))), decimals));
    }
  }

  /** For every amount and every number of decimals the printed text has no trailing fractional
      zero and at most min(decimals, 6) fraction digits, and denotes exactly the amount divided by
      ten to the decimals, rounded down to that many places. */
  lemma FormatUnitsTruncates(value: nat, decimals: nat)
    ensures var whole, f, k := Numeral(Quot(value, Pow10(decimals))), Fraction(value, decimals), Min(decimals, 6);
            && FormatUnits(value, decimals) == (if f == "" then whole else whole + "." + f)
            && |f| <= k && (forall i :: 0 <= i < |f| ==> IsDigit(f[i]))
            && (f != [] ==> f[|f| - 1] != '0')
            && Denotes(whole, f, k) == value / Pow10(decimals - k)
  {
    FractionValue(value, decimals);
    var k := Min(decimals, 6);
    FloorSplits(value, k, decimals - k);
    NumeralRoundTrip(Quot(value, Pow10(decimals)));
  }

  /** The ether printer is the 18-decimals instance. */
  lemma WeiPrinterIsFormatUnits(wei: nat)
    ensures FormatWeiToEth(wei) == FormatUnits(wei, 18)
  {
  }
}
