/**
 * The checksums as BIP 173 and the CashAddr specification write them, in machine arithmetic, are the register of the model.
 * The 30-bit register is shown never to leave its 30 bits, so one 64-bit word serves for both.
 */
module PolymodReference {
  import opened AddressText
  import opened BchCode
  import opened BitStrings
  import opened ConvertBits
  import opened Polymod

  datatype Standard = Bip173 | CashAddress

  // ---------- the reference ----------

  function Top(c: Standard, chk: bv64): bv64
  {
    match c
    case Bip173 => chk >> 25
    case CashAddress => chk >> 35
  }

  function Mask(c: Standard): bv64
  {
    match c
    case Bip173 => 0x1ffffff
    case CashAddress => 0x7ffffffff
  }

  function Words(c: Standard): (g: seq<bv64>)
    ensures |g| == 5
  {
    match c
    case Bip173 => [0x3b6a57b2, 0x26508e6d, 0x1ea119fa, 0x3d4233dd, 0x2a1462b3]
    case CashAddress => [0x98f2bc8e61, 0x79b76d99e2, 0xf33e5fb3c4, 0xae2eabe2a8, 0x1e4f43e470]
  }

  predicate On(top: bv64, i: bv64)
  {
    top & i != 0
  }

  /** `if ((top >> j) & 1) chk ^= g`, with i = 1 << j */
  function Tap(top: bv64, i: bv64, g: bv64): bv64
  {
    if On(top, i) then g else 0
  }

  function Shift(c: Standard, chk: bv64, v: byte): bv64
  {
    ((chk & Mask(c)) << 5) ^ (v as bv64)
  }

  function Plus(x: bv64, y: bv64): bv64
  {
    x ^ y
  }

  function Next(c: Standard, chk: bv64, v: byte): bv64
  {
    var top, g := Top(c, chk), Words(c);
    var a := Plus(Plus(Shift(c, chk, v), Tap(top, 1, g[0])), Tap(top, 2, g[1]));
    Plus(Plus(Plus(a, Tap(top, 4, g[2])), Tap(top, 8, g[3])), Tap(top, 16, g[4]))
  }

  /** The checksum of a list of values; CashAddr's own polymod is this exclusive-or 1. */
  function Reference(c: Standard, values: seq<byte>): (chk: bv64)
  {
    if values == [] then 1 else Next(c, Reference(c, values[..|values| - 1]), values[|values| - 1])
  }

  // ---------- the bits of a word ----------

  function Half(x: bv64): bv64
  {
    x >> 1
  }

  predicate Odd(x: bv64)
  {
    x & 1 != 0
  }

  /** The low n bits of a word, most significant first. */
  function Low(x: bv64, n: nat): (b: seq<bool>)
    ensures |b| == n
    decreases n
  {
    if n == 0 then [] else Low(Half(x), n - 1) + [Odd(x)]
  }

  function Halved(x: bv64, b: nat): bv64
    decreases b
  {
    if b == 0 then x else Half(Halved(x, b - 1))
  }

  function Fifth(x: bv64): bv64
  {
    x >> 5
  }

  function Down(x: bv64): bv64
  {
    x >> 8
  }

  lemma HalfPlus(x: bv64, y: bv64)
    ensures Half(Plus(x, y)) == Plus(Half(x), Half(y)) && Odd(Plus(x, y)) == (Odd(x) != Odd(y))
  {
  }

  lemma {:induction false} LowPlus(x: bv64, y: bv64, n: nat)
    ensures Low(Plus(x, y), n) == Xor(Low(x, n), Low(y, n))
    decreases n
  {
    hide Half, Odd, Plus;
    if n > 0 {
      HalfPlus(x, y);
      LowPlus(Half(x), Half(y), n - 1);
    }
  }

  lemma SmallHalves()
    ensures Half(0) == 0 && !Odd(0) && Half(1) == 0 && Odd(1)
  {
  }

  lemma {:induction false} LowZero(n: nat)
    ensures Low(0, n) == Zeros(n)
    decreases n
  {
    hide Half, Odd;
    if n > 0 {
      SmallHalves();
      LowZero(n - 1);
      assert Zeros(n) == Zeros(n - 1) + [false];
    }
  }

  lemma LowOne(n: nat)
    requires n > 0
    ensures Low(1, n) == One(n)
  {
    hide Half, Odd;
    SmallHalves();
    LowZero(n - 1);
    assert Low(1, n) == Low(Half(1), n - 1) + [Odd(1)];
  }

  lemma LowTap(top: bv64, i: bv64, g: bv64, n: nat)
    ensures Low(Tap(top, i, g), n) == Scale(On(top, i), Low(g, n))
  {
    hide On, Low;
    LowZero(n);
  }

  lemma HalvedHalf(x: bv64, b: nat)
    ensures Halved(Half(x), b) == Halved(x, b + 1)
    decreases b
  {
    hide Half;
    if b > 0 {
      HalvedHalf(x, b - 1);
    }
  }

  /** The low a + b bits are the low a bits above the low b bits. */
  lemma {:induction false} LowSplit(x: bv64, a: nat, b: nat)
    ensures Low(x, a + b) == Low(Halved(x, b), a) + Low(x, b)
    decreases b
  {
    hide Half, Odd, Halved, Low;
    if b > 0 {
      LowSplit(Half(x), a, b - 1);
      HalvedHalf(x, b - 1);
      LowLast(x, a + b - 1);
      LowLast(x, b - 1);
    } else {
      HalvedNone(x);
    }
  }

  lemma LowLast(x: bv64, n: nat)
    ensures Low(x, n + 1) == Low(Half(x), n) + [Odd(x)]
  {
  }

  lemma HalvedNone(x: bv64)
    ensures Halved(x, 0) == x
  {
  }

  lemma HalvedFive(x: bv64, k: nat)
    ensures Halved(x, k + 5) == Fifth(Halved(x, k))
  {
    hide Half, Fifth;
    var y := Halved(x, k);
    assert Halved(x, k + 1) == Half(y) && Halved(x, k + 2) == Half(Half(y));
    assert Halved(x, k + 3) == Half(Half(Half(y))) && Halved(x, k + 4) == Half(Half(Half(Half(y))));
    FiveHalves(y);
  }

  lemma FiveHalves(x: bv64)
    ensures Half(Half(Half(Half(Half(x))))) == Fifth(x) && Half(Half(Half(Fifth(x)))) == Down(x)
  {
  }

  lemma HalvedTop(c: Standard, x: bv64)
    ensures Halved(x, Width(c) - 5) == Top(c, x)
  {
    hide Half, Fifth, Top, Halved;
    TopFifths(x);
    HalvedNone(x);
    HalvedFive(x, 0);
    HalvedFive(x, 5);
    HalvedFive(x, 10);
    HalvedFive(x, 15);
    HalvedFive(x, 20);
    HalvedFive(x, 25);
    HalvedFive(x, 30);
  }

  lemma TopFifths(x: bv64)
    ensures Fifth(Fifth(Fifth(Fifth(Fifth(x))))) == Top(Bip173, x)
    ensures Fifth(Fifth(Fifth(Fifth(Fifth(Fifth(Fifth(x))))))) == Top(CashAddress, x)
  {
  }

  /** The low five bits of a word, most significant first. */
  function FiveOf(t: bv64): (b: symbol)
  {
    [On(t, 16), On(t, 8), On(t, 4), On(t, 2), On(t, 1)]
  }

  lemma OddsOf(t: bv64)
    ensures var a := Half(t); var b := Half(a); var c := Half(b); var d := Half(c);
      FiveOf(t) == [Odd(d), Odd(c), Odd(b), Odd(a), Odd(t)]
  {
  }

  lemma LowFive(t: bv64)
    ensures Low(t, 5) == FiveOf(t)
  {
    hide Half, Odd, FiveOf;
    OddsOf(t);
    var a := Half(t);
    var b := Half(a);
    var c := Half(b);
    var d := Half(c);
    assert Low(d, 1) == Low(Half(d), 0) + [Odd(d)];
    assert Low(c, 2) == Low(d, 1) + [Odd(c)] && Low(b, 3) == Low(c, 2) + [Odd(b)];
    assert Low(a, 4) == Low(b, 3) + [Odd(a)] && Low(t, 5) == Low(a, 4) + [Odd(t)];
  }

  // ---------- masks ----------

  function Both(x: bv64, y: bv64): bv64
  {
    x & y
  }

  function Grown(f: bv64): bv64
  {
    (f << 1) | 1
  }

  function GrownFive(f: bv64): bv64
  {
    (f << 5) | 31
  }

  /** n ones */
  function Full(n: nat): bv64
  {
    if n == 0 then 0 else Grown(Full(n - 1))
  }

  /** Every bit the register may have. */
  function All(c: Standard): bv64
  {
    match c
    case Bip173 => 0x3fffffff
    case CashAddress => 0xffffffffff
  }

  lemma HalfMask(x: bv64, f: bv64)
    ensures Half(Both(x, Grown(f))) == Both(Half(x), f) && Odd(Both(x, Grown(f))) == Odd(x)
  {
  }

  lemma {:induction false} LowMask(x: bv64, n: nat)
    ensures Low(Both(x, Full(n)), n) == Low(x, n)
    decreases n
  {
    hide Half, Odd, Both, Grown;
    if n > 0 {
      HalfMask(x, Full(n - 1));
      LowMask(Half(x), n - 1);
    }
  }

  lemma FullFive(k: nat)
    ensures Full(k + 5) == GrownFive(Full(k))
  {
    hide Grown, GrownFive;
    var f := Full(k);
    assert Full(k + 1) == Grown(f) && Full(k + 2) == Grown(Grown(f));
    assert Full(k + 3) == Grown(Grown(Grown(f))) && Full(k + 4) == Grown(Grown(Grown(Grown(f))));
    FiveGrown(f);
  }

  lemma FiveGrown(f: bv64)
    ensures Grown(Grown(Grown(Grown(Grown(f))))) == GrownFive(f)
  {
  }

  lemma GrownIs()
    ensures GrownFive(0) == 0x1f && GrownFive(0x1f) == 0x3ff && GrownFive(0x3ff) == 0x7fff && GrownFive(0x7fff) == 0xfffff
    ensures GrownFive(0xfffff) == 0x1ffffff && GrownFive(0x1ffffff) == 0x3fffffff
    ensures GrownFive(0x3fffffff) == 0x7ffffffff && GrownFive(0x7ffffffff) == 0xffffffffff
  {
  }

  lemma FullIs(c: Standard)
    ensures Full(Width(c) - 5) == Mask(c) && Full(Width(c)) == All(c)
  {
    assert Full(0) == 0;
    hide Full, GrownFive;
    GrownIs();
    FullFive(0);
    FullFive(5);
    FullFive(10);
    FullFive(15);
    FullFive(20);
    FullFive(25);
    FullFive(30);
    FullFive(35);
  }

  // ---------- the generators, byte by byte ----------

  function Byte(x: bv64): byte
  {
    (x & 0xff) as byte
  }

  lemma ByteBits(x: bv64)
    ensures BitsOf(Byte(x))[3..] == FiveOf(x) && BitsOf(Byte(x))[..3] == FiveOf(Fifth(x))[2..]
  {
  }

  lemma LowByte(x: bv64)
    ensures Low(x, 8) == BitsOf(Byte(x)) && Halved(x, 8) == Down(x)
  {
    hide Low, Half, BitsOf, Byte, Down, Fifth, FiveOf;
    var y := Fifth(x);
    HalvedNone(x);
    HalvedFive(x, 0);
    FiveHalves(x);
    assert Halved(x, 6) == Half(y) && Halved(x, 7) == Half(Half(y)) && Halved(x, 8) == Half(Half(Half(y)));
    ByteBits(x);
    LowSplit(x, 3, 5);
    LowFive(x);
    LowSplit(y, 2, 3);
    LowFive(y);
    assert Low(y, 5)[2..] == Low(y, 3);
    var b := BitsOf(Byte(x));
    assert b == b[..3] + b[3..];
  }

  /** The low k bytes of a word, most significant first. */
  function BytesOf(x: bv64, k: nat): (b: seq<byte>)
    decreases k
  {
    if k == 0 then [] else BytesOf(Down(x), k - 1) + [Byte(x)]
  }

  lemma {:induction false} LowBytes(x: bv64, k: nat)
    ensures Low(x, 8 * k) == Bits(BytesOf(x, k))
    decreases k
  {
    hide Down, BitsOf, Byte, Low, Halved;
    if k == 0 {
      assert Low(x, 0) == [];
    } else {
      LowSplit(x, 8 * (k - 1), 8);
      LowByte(x);
      LowBytes(Down(x), k - 1);
      BitsSnoc(BytesOf(Down(x), k - 1), Byte(x));
    }
  }

  lemma TwoBytes(x: bv64)
    ensures BytesOf(x, 2) == [Byte(Down(x)), Byte(x)]
  {
    hide Down, Byte;
    assert BytesOf(Down(x), 1) == [Byte(Down(x))];
  }

  lemma NextBytes(x: bv64, k: nat)
    ensures BytesOf(x, k + 1) == BytesOf(Down(x), k) + [Byte(x)]
  {
  }

  lemma FourBytes(x: bv64)
    ensures BytesOf(x, 4) == [Byte(Down(Down(Down(x)))), Byte(Down(Down(x))), Byte(Down(x)), Byte(x)]
  {
    hide Down, Byte, BytesOf;
    TwoBytes(Down(Down(x)));
    NextBytes(Down(x), 2);
    NextBytes(x, 3);
  }

  function Width(c: Standard): (n: nat)
    ensures n == 30 || n == 40
  {
    match c
    case Bip173 => BECH32_BITS
    case CashAddress => CASHADDR_BITS
  }

  function Generators(c: Standard): (gs: seq<seq<bool>>)
    ensures |gs| == 5 && forall j | 0 <= j < 5 :: |gs[j]| == Width(c)
  {
    match c
    case Bip173 => BECH32_GENERATORS
    case CashAddress => CASHADDR_GENERATORS
  }

  lemma ThirtyBits(x: bv64)
    ensures Low(x, 30) == Bits([Byte(Down(Down(Down(x)))), Byte(Down(Down(x))), Byte(Down(x)), Byte(x)])[2..]
  {
    hide Down, Byte, BytesOf, Low, Halved;
    FourBytes(x);
    LowBytes(x, 4);
    LowSplit(x, 2, 30);
  }

  lemma FortyBits(x: bv64)
    ensures Low(x, 40) == Bits([Byte(Down(Down(Down(Down(x))))), Byte(Down(Down(Down(x)))), Byte(Down(Down(x))), Byte(Down(x)), Byte(x)])
  {
    hide Down, Byte, BytesOf, Low;
    FourBytes(Down(x));
    NextBytes(x, 4);
    LowBytes(x, 5);
    var y := Down(x);
    var b4, b3, b2, b1, b0 := Byte(Down(Down(Down(y)))), Byte(Down(Down(y))), Byte(Down(y)), Byte(y), Byte(x);
    assert [b4, b3, b2, b1] + [b0] == [b4, b3, b2, b1, b0] && 8 * 5 == 40;
  }

  lemma GeneratorsAre(c: Standard)
    ensures forall j | 0 <= j < 5 :: Low(Words(c)[j], Width(c)) == Generators(c)[j]
  {
    hide Low, Bits, BitsOf;
    match c
    case Bip173 =>
      ThirtyBits(0x3b6a57b2);
      ThirtyBits(0x26508e6d);
      ThirtyBits(0x1ea119fa);
      ThirtyBits(0x3d4233dd);
      ThirtyBits(0x2a1462b3);
    case CashAddress =>
      FortyBits(0x98f2bc8e61);
      FortyBits(0x79b76d99e2);
      FortyBits(0xf33e5fb3c4);
      FortyBits(0xae2eabe2a8);
      FortyBits(0x1e4f43e470);
  }

  // ---------- one step ----------

  lemma ShiftParts(c: Standard, chk: bv64, v: byte)
    requires v < 32
    ensures var y := Shift(c, chk, v); Fifth(y) == Both(chk, Mask(c)) && FiveOf(y) == Field(v, 5)
  {
    match c
    case Bip173 =>
    case CashAddress =>
  }

  lemma LowShift(c: Standard, chk: bv64, v: byte)
    requires v < 32
    ensures Low(Shift(c, chk, v), Width(c)) == ShiftIn(Low(chk, Width(c)), Field(v, 5))
  {
    hide Low, Shift, Halved, Full, Both, Fifth, FiveOf, Field, Mask;
    var y, m := Shift(c, chk, v), Width(c) - 5;
    ShiftParts(c, chk, v);
    LowSplit(y, m, 5);
    HalvedNone(y);
    HalvedFive(y, 0);
    LowFive(y);
    FullIs(c);
    LowMask(chk, m);
    LowSplit(chk, 5, m);
    assert Low(chk, Width(c))[5..] == Low(chk, m);
    assert Halved(y, 5) == Fifth(y) && Low(y, Width(c)) == Low(Fifth(y), m) + FiveOf(y);
    ShiftFive(Low(chk, Width(c)), Field(v, 5));
  }

  lemma ShiftFive(x: seq<bool>, b: symbol)
    requires |x| >= 5
    ensures ShiftIn(x, b) == x[5..] + b
  {
  }

  lemma TopSymbol(c: Standard, chk: bv64)
    ensures Low(chk, Width(c))[..5] == FiveOf(Top(c, chk))
  {
    hide Low, Halved, Top, FiveOf;
    LowSplit(chk, 5, Width(c) - 5);
    HalvedTop(c, chk);
    LowFive(Top(c, chk));
  }

  lemma FivePlus(a: bv64, t0: bv64, t1: bv64, t2: bv64, t3: bv64, t4: bv64, n: nat)
    ensures Low(Plus(Plus(Plus(Plus(Plus(a, t0), t1), t2), t3), t4), n)
         == Xor(Low(a, n), Xor(Xor(Xor(Xor(Xor(Zeros(n), Low(t0, n)), Low(t1, n)), Low(t2, n)), Low(t3, n)), Low(t4, n)))
  {
    hide Low, Plus, Xor;
    LowPlus(a, t0, n);
    LowPlus(Plus(a, t0), t1, n);
    LowPlus(Plus(Plus(a, t0), t1), t2, n);
    LowPlus(Plus(Plus(Plus(a, t0), t1), t2), t3, n);
    LowPlus(Plus(Plus(Plus(Plus(a, t0), t1), t2), t3), t4, n);
    Reassociate(Low(a, n), Low(t0, n), Low(t1, n), Low(t2, n), Low(t3, n), Low(t4, n));
  }

  lemma Reassociate(a: seq<bool>, t0: seq<bool>, t1: seq<bool>, t2: seq<bool>, t3: seq<bool>, t4: seq<bool>)
    requires |a| == |t0| == |t1| == |t2| == |t3| == |t4|
    ensures Xor(Xor(Xor(Xor(Xor(a, t0), t1), t2), t3), t4)
         == Xor(a, Xor(Xor(Xor(Xor(Xor(Zeros(|a|), t0), t1), t2), t3), t4))
  {
  }

  lemma TapsOf(b: symbol, gs: seq<seq<bool>>, n: nat)
    requires |gs| == 5 && forall j | 0 <= j < 5 :: |gs[j]| == n
    ensures Taps(b, gs, n, 5)
         == Xor(Xor(Xor(Xor(Xor(Zeros(n), Scale(b[4], gs[0])), Scale(b[3], gs[1])), Scale(b[2], gs[2])), Scale(b[1], gs[3])), Scale(b[0], gs[4]))
  {
    hide Xor, Scale;
    assert Taps(b, gs, n, 1) == Xor(Taps(b, gs, n, 0), Scale(b[4], gs[0]));
    assert Taps(b, gs, n, 3) == Xor(Taps(b, gs, n, 2), Scale(b[2], gs[2]));
  }

  /** One step of the loop is one step of the register. */
  lemma NextIs(c: Standard, chk: bv64, v: byte)
    requires v < 32
    ensures Low(Next(c, chk, v), Width(c)) == Step(Low(chk, Width(c)), Field(v, 5), Generators(c), Width(c))
  {
    hide Low, Shift, Tap, On, Plus, Top, Scale, Xor, ShiftIn, Bits, Field, Taps, Words, Generators, Width;
    var n, top, g := Width(c), Top(c, chk), Words(c);
    LowShift(c, chk, v);
    TopSymbol(c, chk);
    GeneratorsAre(c);
    LowTap(top, 1, g[0], n);
    LowTap(top, 2, g[1], n);
    LowTap(top, 4, g[2], n);
    LowTap(top, 8, g[3], n);
    LowTap(top, 16, g[4], n);
    FivePlus(Shift(c, chk, v), Tap(top, 1, g[0]), Tap(top, 2, g[1]), Tap(top, 4, g[2]), Tap(top, 8, g[3]), Tap(top, 16, g[4]), n);
    TapsOf(FiveOf(top), Generators(c), n);
  }

  // ---------- whole lists ----------

  function Register(c: Standard, values: seq<byte>): (chk: seq<bool>)
    ensures |chk| == Width(c)
  {
    Checked(values, Generators(c), Width(c))
  }

  lemma NothingChecked(c: Standard)
    ensures Register(c, []) == One(Width(c))
  {
    hide Generators, Width;
  }

  lemma FitsBelow(v: byte)
    ensures Fits(v, 5) <==> v < 32
  {
    FiveBits(v);
  }

  /** The register holds the low bits of the reference. */
  lemma {:induction false} ReferenceIs(c: Standard, values: seq<byte>)
    requires AllFit(values, 5)
    ensures Low(Reference(c, values), Width(c)) == Register(c, values)
    decreases |values|
  {
    hide Low, Next, Field, Step, Run, Bits, Fits, Generators, Width;
    if values == [] {
      LowOne(Width(c));
      NothingChecked(c);
    } else {
      var m := |values| - 1;
      ReferenceIs(c, values[..m]);
      FitsBelow(values[m]);
      NextIs(c, Reference(c, values[..m]), values[m]);
      CheckedSnoc(values[..m], values[m], Generators(c), Width(c));
      assert values[..m] + [values[m]] == values;
    }
  }

  predicate Bounded(c: Standard, x: bv64)
  {
    x & All(c) == x
  }

  lemma BoundedPlus(c: Standard, x: bv64, y: bv64)
    ensures Bounded(c, x) && Bounded(c, y) ==> Bounded(c, Plus(x, y))
  {
  }

  lemma BoundedParts(c: Standard, chk: bv64, v: byte, top: bv64, i: bv64, g: bv64)
    requires v < 32
    ensures Bounded(c, Shift(c, chk, v)) && (Bounded(c, g) ==> Bounded(c, Tap(top, i, g)))
  {
    match c
    case Bip173 =>
    case CashAddress =>
  }

  lemma BoundedWords(c: Standard)
    ensures Bounded(c, 1) && forall j | 0 <= j < 5 :: Bounded(c, Words(c)[j])
  {
    match c
    case Bip173 =>
    case CashAddress =>
  }

  lemma BoundedNext(c: Standard, chk: bv64, v: byte)
    requires v < 32
    ensures Bounded(c, Next(c, chk, v))
  {
    BoundedWords(c);
    hide Shift, Tap, On, Plus, Top, Bounded, Words;
    var top, g, a := Top(c, chk), Words(c), Shift(c, chk, v);
    var t0, t1, t2, t3, t4 := Tap(top, 1, g[0]), Tap(top, 2, g[1]), Tap(top, 4, g[2]), Tap(top, 8, g[3]), Tap(top, 16, g[4]);
    BoundedParts(c, chk, v, top, 1, g[0]);
    BoundedParts(c, chk, v, top, 2, g[1]);
    BoundedParts(c, chk, v, top, 4, g[2]);
    BoundedParts(c, chk, v, top, 8, g[3]);
    BoundedParts(c, chk, v, top, 16, g[4]);
    BoundedPlus(c, a, t0);
    BoundedPlus(c, Plus(a, t0), t1);
    BoundedPlus(c, Plus(Plus(a, t0), t1), t2);
    BoundedPlus(c, Plus(Plus(Plus(a, t0), t1), t2), t3);
    BoundedPlus(c, Plus(Plus(Plus(Plus(a, t0), t1), t2), t3), t4);
  }

  lemma {:induction false} ReferenceBounded(c: Standard, values: seq<byte>)
    requires AllFit(values, 5)
    ensures Bounded(c, Reference(c, values))
    decreases |values|
  {
    hide Next, Bounded, Fits;
    if values == [] {
      BoundedWords(c);
    } else {
      FitsBelow(values[|values| - 1]);
      BoundedNext(c, Reference(c, values[..|values| - 1]), values[|values| - 1]);
    }
  }

  lemma SameMasked(x: bv64, y: bv64, f: bv64)
    ensures Both(Half(x), f) == Both(Half(y), f) && Odd(x) == Odd(y) ==> Both(x, Grown(f)) == Both(y, Grown(f))
    ensures Both(x, 0) == 0
  {
  }

  lemma {:induction false} LowTells(x: bv64, y: bv64, n: nat)
    requires Low(x, n) == Low(y, n)
    ensures Both(x, Full(n)) == Both(y, Full(n))
    decreases n
  {
    hide Half, Odd, Both, Grown;
    if n == 0 {
      SameMasked(x, y, 0);
      SameMasked(y, x, 0);
    } else {
      var a, b := Low(x, n), Low(y, n);
      assert a[..n - 1] == Low(Half(x), n - 1) && b[..n - 1] == Low(Half(y), n - 1);
      assert a[n - 1] == Odd(x) && b[n - 1] == Odd(y);
      LowTells(Half(x), Half(y), n - 1);
      SameMasked(x, y, Full(n - 1));
    }
  }

  lemma Unmasked(c: Standard, x: bv64, y: bv64)
    requires Bounded(c, x) && Bounded(c, y) && Both(x, All(c)) == Both(y, All(c))
    ensures x == y
  {
  }

  /** The register of the model reaches a target exactly when the reference computes it. */
  lemma ChecksumIs(c: Standard, values: seq<byte>, target: bv64)
    requires AllFit(values, 5) && Bounded(c, target)
    ensures Register(c, values) == Low(target, Width(c)) <==> Reference(c, values) == target
  {
    hide Low, Reference, Register, Bits, Full, Both, All, Bounded;
    ReferenceIs(c, values);
    ReferenceBounded(c, values);
    if Register(c, values) == Low(target, Width(c)) {
      LowTells(Reference(c, values), target, Width(c));
      FullIs(c);
      Unmasked(c, Reference(c, values), target);
    }
  }
}
