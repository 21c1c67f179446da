/** Little-endian integers of a fixed number of bytes. */
module LittleEndian {
  import opened Numerals

  type octet = x: int | 0 <= x < 256

  function ZeroBytes(n: nat): (z: seq<octet>)
    ensures |z| == n && forall i | 0 <= i < n :: z[i] == 0
  {
    if n == 0 then [] else ZeroBytes(n - 1) + [0]
  }

  /** The low n bytes of v, least significant first. */
  function LE(v: nat, n: nat): (b: seq<octet>)
    ensures |b| == n
  {
    if n == 0 then [] else [v % 256] + LE(v / 256, n - 1)
  }

  function LEValue(b: seq<octet>): (v: nat)
  {
    if b == [] then 0 else b[0] + 256 * LEValue(b[1..])
  }

  lemma {:induction false} ValueOfLE(v: nat, n: nat)
    requires v < Power(256, n)
    ensures LEValue(LE(v, n)) == v
  {
    if n > 0 {
      QuotientBound(v, Power(256, n - 1));
      ValueOfLE(v / 256, n - 1);
      assert LE(v, n)[1..] == LE(v / 256, n - 1);
    }
  }

  /** The lowest byte comes first. */
  lemma LowFirst(a: octet, b: octet, c: octet, d: octet)
    ensures LEValue([a, b]) == a + 256 * b && LEValue([a, b, c]) == a + 256 * b + 0x1_0000 * c
    ensures LEValue([a, b, c, d]) == a + 256 * b + 0x1_0000 * c + 0x100_0000 * d
  {
    assert [d][1..] == [] && [c][1..] == [] && [b][1..] == [];
    assert [c, d][1..] == [d] && [b, c][1..] == [c] && [a, b][1..] == [b];
    assert [b, c, d][1..] == [c, d] && [a, b, c][1..] == [b, c];
    assert [a, b, c, d][1..] == [b, c, d];
    assert LEValue([c, d]) == c + 256 * LEValue([d]) && LEValue([b, c, d]) == b + 256 * LEValue([c, d]);
    assert LEValue([b, c]) == b + 256 * LEValue([c]);
  }

  /** Only the low n bytes of a number are written. */
  lemma {:induction false} ValueOfLow(v: nat, n: nat)
    ensures Power(256, n) > 0 && LEValue(LE(v, n)) == v % Power(256, n)
  {
    PowerPositive(256, n);
    if n > 0 {
      var p := Power(256, n - 1);
      PowerPositive(256, n - 1);
      ValueOfLow(v / 256, n - 1);
      assert LE(v, n)[1..] == LE(v / 256, n - 1);
      LowDigit(v, p);
    }
  }

  lemma LowDigit(v: nat, p: nat)
    requires p > 0
    ensures v % 256 + 256 * (v / 256 % p) == v % (256 * p)
  {
    var q, r := v / 256 / p, v / 256 % p;
    assert v / 256 == p * q + r;
    assert v == 256 * (p * q + r) + v % 256;
    assert 256 * (p * q + r) == 256 * p * q + 256 * r;
    DivModUnique(v, 256 * p, q, v % 256 + 256 * r);
  }

  lemma QuotientBound(v: nat, p: nat)
    requires v < 256 * p
    ensures v / 256 < p
  {
  }

  lemma {:induction false} LEOfValue(b: seq<octet>)
    ensures LE(LEValue(b), |b|) == b
  {
    if b != [] {
      LEOfValue(b[1..]);
      Split(b[0], LEValue(b[1..]));
      assert b == [b[0]] + b[1..];
    }
  }

  lemma Split(x: octet, v: nat)
    ensures (x + 256 * v) % 256 == x && (x + 256 * v) / 256 == v
  {
  }

  lemma {:induction false} LEValueBound(b: seq<octet>)
    ensures LEValue(b) < Power(256, |b|)
  {
    if b != [] {
      LEValueBound(b[1..]);
    }
  }
}
