/** Positional numerals: digit strings, most significant first, and the numbers they spell. */
module Numerals {

  function Value(d: seq<nat>, base: nat): nat
  {
    if d == [] then 0 else Value(d[..|d| - 1], base) * base + d[|d| - 1]
  }

  /** The shortest digit string of a number; empty for zero. */
  function Digits(v: nat, base: nat): (d: seq<nat>)
    requires base > 1
    ensures forall i | 0 <= i < |d| :: d[i] < base
    ensures d != [] ==> d[0] != 0
    decreases v
  {
    if v == 0 then [] else
      QuotientShrinks(v, base);
      Digits(v / base, base) + [v % base]
  }

  lemma QuotientShrinks(v: nat, base: nat)
    requires v > 0 && base > 1
    ensures v / base < v && v == v / base * base + v % base
    ensures v / base == 0 ==> v % base == v
  {
    var q, r := v / base, v % base;
    assert v == q * base + r;
    if q > 0 {
      assert q * base == q + (base - 1) * q;
      MultipleIsFar(base - 1, q);
    }
  }

  function Power(b: nat, n: nat): nat
  {
    if n == 0 then 1 else b * Power(b, n - 1)
  }

  function Zeros(n: nat): (d: seq<nat>)
    ensures |d| == n && forall i | 0 <= i < n :: d[i] == 0
  {
    seq(n, _ => 0)
  }

  // ---------- products and quotients ----------

  lemma MultipleIsFar(k: int, d: int)
    requires d > 0
    ensures k >= 1 ==> k * d >= d
    ensures k <= -1 ==> k * d <= -d
  {
  }

  lemma DivModUnique(x: int, d: int, q: int, r: int)
    requires d > 0 && 0 <= r < d && x == q * d + r
    ensures x / d == q && x % d == r
  {
    var q0, r0 := x / d, x % d;
    assert (q - q0) * d == r0 - r;
    MultipleIsFar(q - q0, d);
  }

  lemma ProductMonotone(a: nat, b: nat, c: nat, d: nat)
    requires a <= c && b <= d
    ensures a * b <= c * d
  {
    assert a * b <= a * d <= c * d by { assert a * (d - b) >= 0; assert (c - a) * d >= 0; }
  }

  lemma {:induction false} PowerAdd(b: nat, m: nat, n: nat)
    ensures Power(b, m + n) == Power(b, m) * Power(b, n)
    decreases m
  {
    if m > 0 {
      PowerAdd(b, m - 1, n);
      assert b * (Power(b, m - 1) * Power(b, n)) == (b * Power(b, m - 1)) * Power(b, n);
    }
  }

  lemma {:induction false} PowerPositive(b: nat, n: nat)
    requires b > 0
    ensures Power(b, n) > 0
  {
    if n > 0 {
      PowerPositive(b, n - 1);
    }
  }

  lemma {:induction false} PowerMonotone(a: nat, b: nat, n: nat)
    requires a <= b
    ensures Power(a, n) <= Power(b, n)
  {
    if n > 0 {
      PowerMonotone(a, b, n - 1);
      ProductMonotone(a, Power(a, n - 1), b, Power(b, n - 1));
    }
  }

  lemma {:induction false} PowerPower(b: nat, m: nat, n: nat)
    ensures Power(Power(b, m), n) == Power(b, m * n)
    decreases n
  {
    if n > 0 {
      PowerPower(b, m, n - 1);
      PowerAdd(b, m, m * (n - 1));
      assert m * n == m + m * (n - 1);
    }
  }

  lemma PowerGrows(m: nat, n: nat)
    requires m < n
    ensures Power(2, m) < Power(2, n)
  {
    PowerAdd(2, m + 1, n - m - 1);
    PowerPositive(2, n - m - 1);
    PowerPositive(2, m);
    ProductMonotone(Power(2, m + 1), 1, Power(2, m + 1), Power(2, n - m - 1));
  }

  // ---------- numerals ----------

  lemma ValueSnoc(d: seq<nat>, x: nat, base: nat)
    ensures Value(d + [x], base) == Value(d, base) * base + x
  {
    assert (d + [x])[..|d|] == d;
  }

  lemma {:induction false} ValueOfDigits(v: nat, base: nat)
    requires base > 1
    ensures Value(Digits(v, base), base) == v
    decreases v
  {
    if v > 0 {
      hide Value;
      var q, r := v / base, v % base;
      QuotientShrinks(v, base);
      ValueOfDigits(q, base);
      ValueSnoc(Digits(q, base), r, base);
      assert Digits(v, base) == Digits(q, base) + [r];
    }
  }

  lemma {:induction false} ValueConcat(a: seq<nat>, b: seq<nat>, base: nat)
    ensures Value(a + b, base) == Value(a, base) * Power(base, |b|) + Value(b, base)
    decreases |b|
  {
    if b == [] {
      assert a + b == a;
    } else {
      var c, x := b[..|b| - 1], b[|b| - 1];
      ValueConcat(a, c, base);
      assert a + b == (a + c) + [x] && b == c + [x];
      ValueSnoc(a + c, x, base);
      Distribute(Value(a, base), Power(base, |c|), Value(c, base), base);
    }
  }

  lemma Distribute(a: nat, p: nat, c: nat, base: nat)
    ensures (a * p + c) * base == a * (base * p) + c * base
  {
  }

  lemma {:induction false} ValueBound(d: seq<nat>, base: nat)
    requires forall i | 0 <= i < |d| :: d[i] < base
    ensures Value(d, base) < Power(base, |d|)
  {
    if d != [] {
      var c := d[..|d| - 1];
      ValueBound(c, base);
      OneMoreDigit(Value(c, base), d[|d| - 1], base, Power(base, |c|));
    }
  }

  lemma OneMoreDigit(v: nat, x: nat, base: nat, p: nat)
    requires v < p && x < base
    ensures v * base + x < base * p
  {
    ProductMonotone(v + 1, base, p, base);
    assert (v + 1) * base == v * base + base;
  }

  lemma {:induction false} ValuePositive(d: seq<nat>, base: nat)
    requires d != [] && d[0] != 0 && base > 0
    ensures Value(d, base) > 0
  {
    if |d| > 1 {
      ValuePositive(d[..|d| - 1], base);
      ProductMonotone(1, 1, Value(d[..|d| - 1], base), base);
    } else {
      assert Value(d[..0], base) == 0;
    }
  }

  /** A digit string without leading zeros is the shortest one of its value. */
  lemma {:induction false} DigitsOfValue(d: seq<nat>, base: nat)
    requires base > 1 && (forall i | 0 <= i < |d| :: d[i] < base) && (d != [] ==> d[0] != 0)
    ensures Digits(Value(d, base), base) == d
  {
    if d != [] {
      var c, x := d[..|d| - 1], d[|d| - 1];
      DigitsOfValue(c, base);
      ValuePositive(d, base);
      DivModUnique(Value(d, base), base, Value(c, base), x);
      assert d == c + [x];
    }
  }

  lemma {:induction false} ValueOfZeros(n: nat, base: nat)
    ensures Value(Zeros(n), base) == 0
  {
    if n > 0 {
      ValueOfZeros(n - 1, base);
      ValueSnoc(Zeros(n - 1), 0, base);
      assert Zeros(n) == Zeros(n - 1) + [0];
      assert 0 * base == 0;
    } else {
      assert Zeros(n) == [];
    }
  }

  lemma LeadingZeros(n: nat, d: seq<nat>, base: nat)
    ensures Value(Zeros(n) + d, base) == Value(d, base)
  {
    ValueConcat(Zeros(n), d, base);
    ValueOfZeros(n, base);
  }
}
