/** Byte order of texts, decimal digits, and the fraction and zone of a printed time. */
module Texts {

  const BILLION: nat := 1_000_000_000

  // ---- byte order ----

  /** Byte order of texts, a proper prefix coming first. */
  predicate Less(a: string, b: string) {
    if b == "" then false
    else if a == "" then true
    else a[0] < b[0] || (a[0] == b[0] && Less(a[1..], b[1..]))
  }

  /** The first difference decides. */
  lemma {:induction false} FirstDifference(a: string, b: string, k: nat)
    requires k < |a| && k < |b| && a[..k] == b[..k] && a[k] != b[k]
    ensures Less(a, b) <==> a[k] < b[k]
  {
    if k > 0 {
      assert a[0] == a[..k][0] == b[..k][0] == b[0];
      assert a[1..][..k - 1] == a[..k][1..] == b[..k][1..] == b[1..][..k - 1];
      FirstDifference(a[1..], b[1..], k - 1);
    }
  }

  function Digit(n: nat): char
    requires n < 10
  {
    '0' + n as char
  }

  /** The last w decimal digits. */
  function Digits(n: nat, w: nat): (s: string)
    ensures |s| == w
    ensures forall i :: 0 <= i < w ==> '0' <= s[i] <= '9'
  {
    if w == 0 then "" else Digits(n / 10, w - 1) + [Digit(n % 10)]
  }

  function Ten(w: nat): nat {
    if w == 0 then 1 else 10 * Ten(w - 1)
  }

  /** Numbers of one width differ first where the smaller has the smaller digit. */
  lemma {:induction false} DigitsDiffer(n: nat, m: nat, w: nat) returns (k: nat)
    requires n < m < Ten(w)
    ensures k < w && Digits(n, w)[..k] == Digits(m, w)[..k] && Digits(n, w)[k] < Digits(m, w)[k]
  {
    if n / 10 < m / 10 {
      k := DigitsDiffer(n / 10, m / 10, w - 1);
      assert Digits(n, w)[..k] == Digits(n / 10, w - 1)[..k];
      assert Digits(m, w)[..k] == Digits(m / 10, w - 1)[..k];
    } else {
      k := w - 1;
      assert Digits(n, w)[..k] == Digits(n / 10, w - 1);
      assert Digits(m, w)[..k] == Digits(m / 10, w - 1);
    }
  }

  lemma EmptyFirst(b: string)
    requires b != ""
    ensures Less("", b) && !Less(b, "")
  {
  }

  lemma {:induction false} IrreflexiveText(s: string)
    ensures !Less(s, s)
  {
    if s != "" { IrreflexiveText(s[1..]); }
  }

  /** Byte order is total. */
  lemma {:induction false} LessTotal(a: string, b: string)
    ensures a == b || Less(a, b) || Less(b, a)
    ensures !(Less(a, b) && Less(b, a))
  {
    if a != "" && b != "" {
      LessTotal(a[1..], b[1..]);
      assert a[0] == b[0] && a[1..] == b[1..] ==> a == b;
    }
  }

  lemma {:induction false} LessTransitive(a: string, b: string, c: string)
    requires Less(a, b) && Less(b, c)
    ensures Less(a, c)
  {
    if a != "" && a[0] == b[0] == c[0] { LessTransitive(a[1..], b[1..], c[1..]); }
  }

  /** A comparison decided at the first different digits, whatever follows and precedes. */
  lemma LessWithin(p: string, d: string, e: string, x: string, y: string, k: nat)
    requires |d| == |e| && k < |d| && d[..k] == e[..k] && d[k] < e[k]
    ensures Less(p + d + x, p + e + y) && !Less(p + e + y, p + d + x)
  {
    var a, b := p + d + x, p + e + y;
    assert a[..|p| + k] == p + d[..k];
    assert b[..|p| + k] == p + e[..k];
    FirstDifference(a, b, |p| + k);
    FirstDifference(b, a, |p| + k);
  }

  lemma FieldLess(p: string, n: nat, m: nat, w: nat, x: string, y: string)
    requires n < m < Ten(w)
    ensures Less(p + Digits(n, w) + x, p + Digits(m, w) + y)
    ensures !Less(p + Digits(m, w) + y, p + Digits(n, w) + x)
  {
    var k := DigitsDiffer(n, m, w);
    LessWithin(p, Digits(n, w), Digits(m, w), x, y, k);
  }

  // ---- fractions ----

  function Trimmed(s: string): (r: string)
    ensures |r| <= |s| && r == s[..|r|]
    ensures |r| > 0 ==> r[|r| - 1] != '0'
    ensures forall i :: |r| <= i < |s| ==> s[i] == '0'
  {
    if s != "" && s[|s| - 1] == '0' then Trimmed(s[..|s| - 1]) else s
  }

  /** The fraction digits that are printed: trailing zeros are dropped. */
  function FractionOf(n: nat): string {
    Trimmed(Digits(n, 9))
  }

  /** What follows the whole seconds. */
  function TailOf(n: nat): string {
    (if FractionOf(n) == "" then "" else "." + FractionOf(n)) + "Z"
  }

  predicate IsPrefix(a: string, b: string) {
    |a| <= |b| && b[..|a|] == a
  }

  /** Fractions without trailing zeros: either the earlier one is cut short inside the later
      one, or they differ at a printed digit. */
  lemma FractionsDiffer(n: nat, m: nat) returns (k: nat)
    requires n < m < BILLION
    ensures var f, g := Trimmed(Digits(n, 9)), Trimmed(Digits(m, 9));
            if IsPrefix(f, g) then |f| < |g|
            else k < |f| && k < |g| && f[..k] == g[..k] && f[k] < g[k]
  {
    hide Trimmed, Digits;
    assert Ten(9) == BILLION by {
      assert Ten(3) == 1000;
      assert Ten(6) == 1000 * Ten(3);
      assert Ten(9) == 1000 * Ten(6);
    }
    var d, e := Digits(n, 9), Digits(m, 9);
    k := DigitsDiffer(n, m, 9);
    var f, g := Trimmed(d), Trimmed(e);
    assert e[k] != '0';
    assert k < |g|;
    if |f| <= k {
      assert g[..|f|] == e[..k][..|f|] == d[..k][..|f|] == f;
    } else {
      assert f[..k] == d[..k] && g[..k] == e[..k];
      assert f[k] == d[k] && g[k] == e[k];
    }
  }

  lemma TailsCompare(p: string, n: nat, m: nat)
    requires n < m < BILLION
    ensures Less(p + TailOf(n), p + TailOf(m)) <==> !IsPrefix(FractionOf(n), FractionOf(m))
    ensures Less(p + TailOf(m), p + TailOf(n)) <==> IsPrefix(FractionOf(n), FractionOf(m))
  {
    hide Less, TailOf, Trimmed, Digits;
    var k := FractionsDiffer(n, m);
    if IsPrefix(FractionOf(n), FractionOf(m)) {
      CutShort(p, n, m);
    } else {
      PrintedDigit(p, n, m, k);
    }
  }

  lemma CutShort(p: string, n: nat, m: nat)
    requires IsPrefix(FractionOf(n), FractionOf(m)) && |FractionOf(n)| < |FractionOf(m)|
    ensures !Less(p + TailOf(n), p + TailOf(m)) && Less(p + TailOf(m), p + TailOf(n))
  {
    hide Less, FractionOf;
    var f, g := FractionOf(n), FractionOf(m);
    var s, t := p + TailOf(n), p + TailOf(m);
    FractionDigits(m);
    var k := |p| + if f == "" then 0 else 1 + |f|;
    assert s[..k] == p + (if f == "" then "" else "." + f);
    assert t[..k] == p + (if f == "" then "" else "." + g[..|f|]);
    assert s[k] == 'Z' && t[k] == if f == "" then '.' else g[|f|];
    FirstDifference(s, t, k);
    FirstDifference(t, s, k);
  }

  lemma PrintedDigit(p: string, n: nat, m: nat, k: nat)
    requires k < |FractionOf(n)| && k < |FractionOf(m)|
    requires FractionOf(n)[..k] == FractionOf(m)[..k] && FractionOf(n)[k] < FractionOf(m)[k]
    ensures Less(p + TailOf(n), p + TailOf(m)) && !Less(p + TailOf(m), p + TailOf(n))
  {
    hide Less, FractionOf;
    var f, g := FractionOf(n), FractionOf(m);
    var s, t := p + TailOf(n), p + TailOf(m);
    assert s[..|p| + 1 + k] == p + "." + f[..k];
    assert t[..|p| + 1 + k] == p + "." + g[..k];
    assert s[|p| + 1 + k] == f[k] && t[|p| + 1 + k] == g[k];
    FirstDifference(s, t, |p| + 1 + k);
    FirstDifference(t, s, |p| + 1 + k);
  }

  lemma FractionDigits(n: nat)
    ensures forall i :: 0 <= i < |FractionOf(n)| ==> '0' <= FractionOf(n)[i] <= '9'
  {
    hide Trimmed, Digits;
    forall i | 0 <= i < |FractionOf(n)| ensures '0' <= FractionOf(n)[i] <= '9' {
      assert FractionOf(n)[i] == Digits(n, 9)[i];
    }
  }
}
