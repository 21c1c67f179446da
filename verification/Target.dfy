/** Share targets and scores in client_session.cpp. Floating-point quotients are taken exactly. */
module Target {
  import opened LittleEndian
  import opened Numerals

  /** 0xFFFF * 2^208, the difficulty-one target. */
  const MAX_TARGET := 26959535291011309493156476344723991336010898738574164086137773096960

  lemma MaxTarget()
    ensures MAX_TARGET == 0xFFFF * Power(2, 208)
  {
    hide Power;
    Power52();
    PowerAdd(2, 52, 52);
    PowerAdd(2, 104, 104);
  }

  lemma Power52()
    ensures Power(2, 52) == 4503599627370496
  {
    assert Power(2, 13) == 8192;
    PowerAdd(2, 13, 13);
    PowerAdd(2, 26, 26);
  }

  // ---------- advertising a target ----------

  function Quotient(d: real): (q: real)
    ensures q >= 0.0
  {
    if d > 0.0 then MAX_TARGET as real / d else MAX_TARGET as real
  }

  /** The digits of floor(M/d), least significant first. */
  function TargetBytes(d: real): (b: seq<octet>)
    ensures |b| == 32
  {
    LE(Quotient(d).Floor, 32)
  }

  /** fmod(x, 256) */
  function Fmod(x: real): (r: real)
  {
    x - (x / 256.0).Floor as real * 256.0
  }

  lemma FloorDigit(x: real)
    requires x >= 0.0
    ensures 0 <= Fmod(x).Floor < 256 && Fmod(x).Floor == x.Floor % 256 && (x / 256.0).Floor == x.Floor / 256
  {
    var n, q := x.Floor, (x / 256.0).Floor;
    assert n as real <= x < n as real + 1.0;
    assert q as real <= x / 256.0 < q as real + 1.0;
    assert q as real * 256.0 <= x < (q as real + 1.0) * 256.0;
    assert q * 256 <= n < q * 256 + 256;
  }

  /** diff_to_target_bytes */
  method DiffToTargetBytes(d: real) returns (bytes: seq<octet>)
    ensures bytes == TargetBytes(d)
  {
    hide Fmod, LE;
    var current := MAX_TARGET as real;
    if d > 0.0 {
      current := current / d;
    }
    bytes := [];
    assert bytes + LE(current.Floor, 32) == TargetBytes(d);
    for i := 0 to 32
      invariant current >= 0.0 && |bytes| == i && bytes + LE(current.Floor, 32 - i) == TargetBytes(d)
    {
      bytes, current := NextByte(bytes, current, 32 - i);
    }
    NoMore(current.Floor);
    assert bytes + [] == bytes;
  }

  method NextByte(bytes: seq<octet>, current: real, n: nat) returns (more: seq<octet>, next: real)
    requires current >= 0.0 && n > 0
    ensures next >= 0.0 && |more| == |bytes| + 1 && more + LE(next.Floor, n - 1) == bytes + LE(current.Floor, n)
  {
    hide Fmod, LE;
    FloorDigit(current);
    LEStep(current.Floor, n);
    var digit := Fmod(current).Floor;
    more := bytes + [digit];
    next := (current / 256.0).Floor as real;
    assert next.Floor == current.Floor / 256;
    assert bytes + ([digit] + LE(next.Floor, n - 1)) == more + LE(next.Floor, n - 1);
  }

  lemma NoMore(v: nat)
    ensures LE(v, 0) == []
  {
  }

  lemma LEStep(v: nat, n: nat)
    requires n > 0
    ensures LE(v, n) == [v % 256] + LE(v / 256, n - 1)
  {
  }

  // ---------- scoring a hash ----------

  /** The difficulty credited to a hash, zero for the hash zero. */
  function Score(h: nat): (s: real)
  {
    if h > 0 then MAX_TARGET as real / h as real else 0.0
  }

  /** h is within floor(M/d) exactly when it scores at least d. */
  lemma ScoreMeets(h: nat, d: real)
    requires h > 0 && d > 0.0
    ensures h <= Quotient(d).Floor <==> Score(h) >= d
  {
    var m, x := MAX_TARGET as real, h as real;
    var q, s := m / d, m / x;
    Cross(m, d, x, q, s);
    assert h <= q.Floor <==> x <= q;
  }

  lemma Cross(m: real, d: real, x: real, q: real, s: real)
    requires d > 0.0 && x > 0.0 && q == m / d && s == m / x
    ensures x <= q <==> s >= d
  {
    assert q * d == m && s * x == m;
    if x <= q {
      Less(x, q, d);
      Divides(d, s, x);
    } else {
      StrictLess(q, x, d);
      StrictDivides(s, d, x);
    }
  }

  lemma StrictDivides(a: real, b: real, c: real)
    requires c > 0.0 && a * c < b * c
    ensures a < b
  {
    if b <= a {
      Less(b, a, c);
    }
  }

  lemma Less(a: real, b: real, c: real)
    requires a <= b && c > 0.0
    ensures a * c <= b * c
  {
  }

  lemma StrictLess(a: real, b: real, c: real)
    requires a < b && c > 0.0
    ensures a * c < b * c
  {
  }

  lemma Divides(a: real, b: real, c: real)
    requires c > 0.0 && a * c <= b * c
    ensures a <= b
  {
    if a > b {
      StrictLess(b, a, c);
    }
  }

  /** The hashes a target of 32 bytes and a score agree on. */
  ghost predicate Agree(d: real)
  {
    forall h: nat | 0 < h < Power(256, 32) :: h <= LEValue(TargetBytes(d)) <==> Score(h) >= d
  }

  /**
    * The advertised target and the score agree on every possible hash exactly when floor(M/d) fits in 32 bytes,
    * or its low 32 bytes are all ones.
    */
  lemma TargetMatchesScore(d: real)
    requires d > 0.0
    ensures Power(256, 32) > 0
    ensures Agree(d) <==> Quotient(d).Floor < Power(256, 32) || Quotient(d).Floor % Power(256, 32) == Power(256, 32) - 1
  {
    hide Power, LE, Score, Quotient, Agree;
    ValueOfLow(Quotient(d).Floor, 32);
    AgreeOrCut(d);
  }

  /** At the difficulty M / 2^256 the target is cut to zero, while every hash still scores enough. */
  lemma TargetCut()
    ensures Power(256, 32) > 0
    ensures var d := MAX_TARGET as real / Power(256, 32) as real;
      d > 0.0 && LEValue(TargetBytes(d)) == 0 && !Agree(d)
  {
    hide Power, LE, Score, Agree;
    PowerPositive(256, 32);
    var p := Power(256, 32);
    var d := MAX_TARGET as real / p as real;
    Inverse(MAX_TARGET as real, p as real);
    assert Quotient(d).Floor == p;
    ValueOfLow(p, 32);
    Itself(p);
    PowerGrowsTo(p);
    TargetMatchesScore(d);
  }

  lemma Inverse(m: real, p: real)
    requires m > 0.0 && p > 0.0
    ensures m / p > 0.0 && m / (m / p) == p
  {
    var d := m / p;
    assert d * p == m;
    assert d > 0.0;
    assert m / d * d == m;
    if m / d < p {
      StrictLess(m / d, p, d);
    } else if p < m / d {
      StrictLess(p, m / d, d);
    }
  }

  lemma Itself(p: nat)
    requires p > 0
    ensures p % p == 0
  {
    DivModUnique(p, p, 1, 0);
  }

  lemma PowerGrowsTo(p: nat)
    requires p == Power(256, 32)
    ensures p > 1
  {
    PowerPositive(256, 31);
  }

  lemma AgreeOrCut(d: real)
    requires d > 0.0
    ensures Agree(d) <==>
      Quotient(d).Floor < Power(256, 32) || LEValue(TargetBytes(d)) == Power(256, 32) - 1
  {
    hide Power, LE, Score, Quotient, Agree;
    var n, p, target := Quotient(d).Floor, Power(256, 32), LEValue(TargetBytes(d));
    LEValueBound(TargetBytes(d));
    if n < p {
      ValueOfLE(n, 32);
      AgreesAt(d);
    } else if target == p - 1 {
      AgreesAt(d);
    } else {
      ScoreMeets(p - 1, d);
      NotAgree(d, p - 1);
    }
  }

  lemma AgreesAt(d: real)
    requires d > 0.0
    requires LEValue(TargetBytes(d)) == Quotient(d).Floor
      || (LEValue(TargetBytes(d)) == Power(256, 32) - 1 && Quotient(d).Floor >= Power(256, 32))
    ensures Agree(d)
  {
    hide Power, LE, Score, Quotient;
    forall h: nat | 0 < h < Power(256, 32)
      ensures h <= LEValue(TargetBytes(d)) <==> Score(h) >= d
    {
      ScoreMeets(h, d);
    }
  }

  lemma NotAgree(d: real, h: nat)
    requires 0 < h < Power(256, 32) && !(h <= LEValue(TargetBytes(d)) <==> Score(h) >= d)
    ensures !Agree(d)
  {
    hide Power, LE, Score, Quotient;
  }

  // ---------- comparing 32-byte numbers ----------

  /** le_byte_cmp: the difference of the first two bytes that differ, most significant first. */
  function Compare(a: seq<octet>, b: seq<octet>): (c: int)
    requires |a| == |b|
  {
    if a == [] then 0 else if a[0] != b[0] then a[0] - b[0] else Compare(a[1..], b[1..])
  }

  function Nats(b: seq<octet>): (n: seq<nat>)
    ensures |n| == |b| && forall i | 0 <= i < |b| :: n[i] == b[i] < 256
  {
    seq(|b|, i requires 0 <= i < |b| => b[i])
  }

  /** The number a big-endian byte string stands for. */
  function Number(b: seq<octet>): nat
  {
    Value(Nats(b), 256)
  }

  lemma NumberCons(b: seq<octet>)
    requires b != []
    ensures Number(b) == b[0] * Power(256, |b| - 1) + Number(b[1..]) && Number(b[1..]) < Power(256, |b| - 1)
  {
    hide Value;
    var n := Nats(b);
    assert n == [n[0]] + n[1..] && n[1..] == Nats(b[1..]);
    ValueConcat([n[0]], n[1..], 256);
    ValueBound(n[1..], 256);
    OneDigit(n[0]);
  }

  lemma OneDigit(x: nat)
    ensures Value([x], 256) == x
  {
    assert [x][..0] == [];
  }

  /** Comparing byte by byte is comparing the numbers. */
  lemma {:induction false} CompareIsNumeric(a: seq<octet>, b: seq<octet>)
    requires |a| == |b|
    ensures (Compare(a, b) < 0 <==> Number(a) < Number(b)) && (Compare(a, b) == 0 <==> Number(a) == Number(b))
    decreases |a|
  {
    hide Number, Power;
    if a == [] {
      assert a == b;
    } else {
      var p := Power(256, |a| - 1);
      NumberCons(a);
      NumberCons(b);
      if a[0] == b[0] {
        CompareIsNumeric(a[1..], b[1..]);
      } else {
        Leading(a[0], b[0], Number(a[1..]), Number(b[1..]), p);
      }
    }
  }

  lemma Leading(x: nat, y: nat, a: nat, b: nat, p: nat)
    requires x != y && a < p && b < p
    ensures x * p + a < y * p + b <==> x < y
    ensures x * p + a != y * p + b
  {
    if x < y {
      ProductMonotone(x + 1, p, y, p);
    } else {
      ProductMonotone(y + 1, p, x, p);
    }
  }

  method ByteCompare(a: seq<octet>, b: seq<octet>) returns (c: int)
    requires |a| == |b|
    ensures c == Compare(a, b)
  {
    var i := 0;
    while i < |a|
      invariant 0 <= i <= |a| && Compare(a, b) == Compare(a[i..], b[i..])
    {
      if a[i] != b[i] {
        return a[i] as int - b[i] as int;
      }
      assert a[i..][1..] == a[i + 1..] && b[i..][1..] == b[i + 1..];
      i := i + 1;
    }
    return 0;
  }

  // ---------- the network target ----------

  /** target_from_bits_hex: exponent and 24-bit mantissa as 32 bytes, most significant first. */
  function CompactTarget(exponent: octet, mantissa: nat): (b: seq<octet>)
    requires mantissa < 0x100_0000
    ensures |b| == 32
  {
    if exponent < 3 then ZeroBytes(29) + Three(mantissa / (if exponent == 2 then 0x100 else if exponent == 1 then 0x1_0000 else 0x100_0000))
    else if exponent > 32 then ZeroBytes(32)
    else ZeroBytes(32 - exponent) + Three(mantissa) + ZeroBytes(exponent - 3)
  }

  function Three(m: nat): (b: seq<octet>)
    ensures |b| == 3
  {
    [m / 0x1_0000 % 256, m / 0x100 % 256, m % 256]
  }

  method TargetFromBits(bits: seq<octet>) returns (out: seq<octet>)
    ensures |bits| == 4 ==> out == CompactTarget(bits[0], bits[1] as int * 0x1_0000 + bits[2] as int * 0x100 + bits[3] as int)
    ensures |bits| != 4 ==> out == ZeroBytes(32)
  {
    if |bits| != 4 {
      return ZeroBytes(32);
    }
    var a := new octet[32](_ => 0);
    var mantissa := bits[1] as int * 0x1_0000 + bits[2] as int * 0x100 + bits[3] as int;
    var shift := bits[0] as int - 3;
    if mantissa != 0 {
      if shift < 0 {
        var m := mantissa / (if shift == -1 then 0x100 else if shift == -2 then 0x1_0000 else 0x100_0000);
        a[29], a[30], a[31] := m / 0x1_0000 % 256, m / 0x100 % 256, m % 256;
      } else {
        var start := 32 - (3 + shift);
        if start >= 0 {
          a[start] := mantissa / 0x1_0000 % 256;
          a[start + 1] := mantissa / 0x100 % 256;
          a[start + 2] := mantissa % 256;
        }
      }
    }
    out := a[..];
    assert out == CompactTarget(bits[0], mantissa);
  }

  /** The compact form stands for mantissa * 256^(exponent - 3) as long as the exponent fits. */
  lemma CompactValue(exponent: octet, mantissa: nat)
    requires mantissa < 0x100_0000 && 3 <= exponent <= 32
    ensures Number(CompactTarget(exponent, mantissa)) == mantissa * Power(256, exponent - 3)
  {
    hide Power, Value;
    var lead, tail := 32 - exponent, exponent - 3;
    var n := Nats(CompactTarget(exponent, mantissa));
    assert n == Zeros(lead) + (Nats(Three(mantissa)) + Zeros(tail));
    LeadingZeros(lead, Nats(Three(mantissa)) + Zeros(tail), 256);
    ValueConcat(Nats(Three(mantissa)), Zeros(tail), 256);
    ValueOfZeros(tail, 256);
    ThreeValue(mantissa);
  }

  /** Below three the mantissa is shifted out on the right, and above 32 nothing is left. */
  lemma CompactOutside(exponent: octet, mantissa: nat)
    requires mantissa < 0x100_0000
    ensures exponent == 2 ==> Number(CompactTarget(exponent, mantissa)) == mantissa / 0x100
    ensures exponent == 1 ==> Number(CompactTarget(exponent, mantissa)) == mantissa / 0x1_0000
    ensures exponent == 0 || exponent > 32 ==> Number(CompactTarget(exponent, mantissa)) == 0
  {
    hide Value, Three;
    if exponent < 3 {
      var m := mantissa / (if exponent == 2 then 0x100 else if exponent == 1 then 0x1_0000 else 0x100_0000);
      assert Nats(CompactTarget(exponent, mantissa)) == Zeros(29) + Nats(Three(m));
      LeadingZeros(29, Nats(Three(m)), 256);
      ThreeValue(m);
    } else if exponent > 32 {
      assert Nats(CompactTarget(exponent, mantissa)) == Zeros(32);
      ValueOfZeros(32, 256);
    }
  }

  lemma ThreeValue(m: nat)
    requires m < 0x100_0000
    ensures Value(Nats(Three(m)), 256) == m
  {
    hide Value;
    var n := Nats(Three(m));
    assert n == [n[0]] + [n[1]] + [n[2]];
    OneDigit(n[0]);
    ValueSnoc([n[0]], n[1], 256);
    ValueSnoc([n[0]] + [n[1]], n[2], 256);
  }
}
