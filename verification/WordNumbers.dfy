/** The numbers that bits, bytes and machine words stand for. */
module WordNumbers {
  import opened BitStrings
  import Numerals

  /** The unsigned value of bits, most significant first. */
  function NumberOf(b: seq<bool>): (v: nat)
  {
    if b == [] then 0 else 2 * NumberOf(b[..|b| - 1]) + Bit(b[|b| - 1])
  }

  function Bit(x: bool): (v: nat)
  {
    if x then 1 else 0
  }

  // ---------- bytes ----------

  function ByteValue(b: byte): (v: nat)
    ensures v < 256
  {
    b as int
  }

  lemma ByteSum(b: byte)
    ensures var x := BitsOf(b);
      ByteValue(b) == 128 * Bit(x[0]) + 64 * Bit(x[1]) + 32 * Bit(x[2]) + 16 * Bit(x[3]) + 8 * Bit(x[4]) + 4 * Bit(x[5]) + 2 * Bit(x[6]) + Bit(x[7])
  {
  }

  lemma EightBits(x: seq<bool>)
    requires |x| == 8
    ensures NumberOf(x)
         == 128 * Bit(x[0]) + 64 * Bit(x[1]) + 32 * Bit(x[2]) + 16 * Bit(x[3]) + 8 * Bit(x[4]) + 4 * Bit(x[5]) + 2 * Bit(x[6]) + Bit(x[7])
  {
    assert NumberOf(x[..0]) == 0;
    forall i | 0 <= i < 8
      ensures NumberOf(x[..i + 1]) == 2 * NumberOf(x[..i]) + Bit(x[i])
    {
      assert x[..i + 1][..i] == x[..i];
    }
    assert x[..8] == x;
  }

  lemma ByteNumber(b: byte)
    ensures NumberOf(BitsOf(b)) == ByteValue(b)
  {
    hide BitsOf, NumberOf, ByteValue;
    EightBits(BitsOf(b));
    ByteSum(b);
  }

  lemma SameByte(a: byte, b: byte)
    ensures ByteValue(a) == ByteValue(b) <==> a == b
  {
    hide BitsOf, NumberOf, ByteValue;
    ByteNumber(a);
    ByteNumber(b);
    NumberInjective(BitsOf(a), BitsOf(b));
    ByteOfBits(a);
    ByteOfBits(b);
  }

  // ---------- words ----------

  lemma {:induction false} NumberConcat(a: seq<bool>, b: seq<bool>)
    ensures NumberOf(a + b) == NumberOf(a) * Numerals.Power(2, |b|) + NumberOf(b)
  {
    hide Numerals.Power;
    if b == [] {
      assert a + b == a;
      NoPower();
    } else {
      var m := |b| - 1;
      NumberConcat(a, b[..m]);
      assert (a + b)[..|a| + m] == a + b[..m];
      OnePower(m);
      Doubled(NumberOf(a), Numerals.Power(2, m));
    }
  }

  lemma NoPower()
    ensures Numerals.Power(2, 0) == 1
  {
  }

  lemma OnePower(m: nat)
    ensures Numerals.Power(2, m + 1) == 2 * Numerals.Power(2, m)
  {
  }

  lemma Doubled(n: nat, p: nat)
    ensures n * (2 * p) == 2 * (n * p)
  {
  }

  lemma {:induction false} NumberInjective(a: seq<bool>, b: seq<bool>)
    requires |a| == |b|
    ensures NumberOf(a) == NumberOf(b) <==> a == b
  {
    if a != [] {
      var m := |a| - 1;
      NumberInjective(a[..m], b[..m]);
      assert a == a[..m] + [a[m]] && b == b[..m] + [b[m]];
    }
  }

  lemma {:induction false} NumberBound(b: seq<bool>)
    ensures NumberOf(b) < Numerals.Power(2, |b|)
  {
    if b != [] {
      NumberBound(b[..|b| - 1]);
    }
  }

  /** Comparing words bit by bit is comparing their numbers. */
  lemma {:induction false} LessIsNumeric(x: seq<bool>, y: seq<bool>)
    requires |x| == |y|
    ensures Less(x, y) <==> NumberOf(x) < NumberOf(y)
  {
    if x != [] {
      LessIsNumeric(x[1..], y[1..]);
      HeadNumber(x);
      HeadNumber(y);
      NumberBound(x[1..]);
      NumberBound(y[1..]);
    }
  }

  lemma HeadNumber(x: seq<bool>)
    requires x != []
    ensures NumberOf(x) == Bit(x[0]) * Numerals.Power(2, |x| - 1) + NumberOf(x[1..])
  {
    hide Numerals.Power, NumberOf;
    NumberConcat([x[0]], x[1..]);
    assert [x[0]] + x[1..] == x;
    OneBit(x[0]);
  }

  lemma OneBit(x: bool)
    ensures NumberOf([x]) == Bit(x)
  {
    assert [x][..0] == [];
  }

  lemma ByteConcat(a: seq<bool>, b: byte)
    ensures NumberOf(a + BitsOf(b)) == 256 * NumberOf(a) + ByteValue(b)
  {
    hide BitsOf, NumberOf, ByteValue;
    NumberConcat(a, BitsOf(b));
    ByteNumber(b);
    TwoToEight();
  }

  lemma TwoToEight()
    ensures Numerals.Power(2, 8) == 256
  {
  }

  /** Four big-endian bytes */
  lemma FourBytes(b: seq<byte>)
    requires |b| == 4
    ensures NumberOf(Bits(b)) == 0x100_0000 * ByteValue(b[0]) + 0x1_0000 * ByteValue(b[1]) + 256 * ByteValue(b[2]) + ByteValue(b[3])
  {
    hide BitsOf, NumberOf, ByteValue;
    ByteConcat(Bits(b[..3]), b[3]);
    ByteConcat(Bits(b[..2]), b[2]);
    ByteConcat(Bits(b[..1]), b[1]);
    ByteConcat(Bits(b[..0]), b[0]);
    Nothing();
    assert b[..3][..2] == b[..2] && b[..2][..1] == b[..1] && b[..1][..0] == [] && b[..0] == [];
  }

  lemma Nothing()
    ensures NumberOf([]) == 0
  {
  }
}
