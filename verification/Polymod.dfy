/** bech32_polymod and cashaddr_polymod of address.cpp: the same checksum register in a 32- and a 64-bit word. */
module Polymod {
  import opened BchCode
  import opened BitStrings
  import opened ConvertBits

  // ---------- the generators ----------

  const BECH32_BITS := 30

  const BECH32_GENERATORS: seq<seq<bool>> := [
    Bits([0x3b, 0x6a, 0x57, 0xb2])[2..], Bits([0x26, 0x50, 0x8e, 0x6d])[2..], Bits([0x1e, 0xa1, 0x19, 0xfa])[2..],
    Bits([0x3d, 0x42, 0x33, 0xdd])[2..], Bits([0x2a, 0x14, 0x62, 0xb3])[2..]]

  const CASHADDR_BITS := 40

  const CASHADDR_GENERATORS: seq<seq<bool>> := [
    Bits([0x98, 0xf2, 0xbc, 0x8e, 0x61]), Bits([0x79, 0xb7, 0x6d, 0x99, 0xe2]), Bits([0xf3, 0x3e, 0x5f, 0xb3, 0xc4]),
    Bits([0xae, 0x2e, 0xab, 0xe2, 0xa8]), Bits([0x1e, 0x4f, 0x43, 0xe4, 0x70])]

  /** The low five bits of the generators. */
  function Lows(gs: seq<seq<bool>>, n: nat): (ls: seq<seq<bool>>)
    requires n >= 5 && |gs| == 5 && forall j | 0 <= j < 5 :: |gs[j]| == n
    ensures |ls| == 5 && forall j | 0 <= j < 5 :: |ls[j]| == 5 && ls[j] == gs[j][n - 5..]
  {
    seq(5, j requires 0 <= j < 5 => gs[j][n - 5..])
  }

  lemma {:induction false} TapsLow(b: symbol, gs: seq<seq<bool>>, n: nat, i: nat)
    requires i <= 5 <= n && |gs| == 5 && forall j | 0 <= j < 5 :: |gs[j]| == n
    ensures Taps(b, gs, n, i)[n - 5..] == Taps(b, Lows(gs, n), 5, i)
  {
    if i > 0 {
      TapsLow(b, gs, n, i - 1);
      XorLow(Taps(b, gs, n, i - 1), Scale(b[5 - i], gs[i - 1]), n);
    }
  }

  lemma XorLow(x: seq<bool>, y: seq<bool>, n: nat)
    requires |x| == |y| == n >= 5
    ensures Xor(x, y)[n - 5..] == Xor(x[n - 5..], y[n - 5..])
  {
  }

  /** Bit j of a combination of 5-bit generators is clear. */
  predicate BitClear(b: symbol, ls: seq<seq<bool>>, j: nat)
    requires j < 5 == |ls| && forall j | 0 <= j < 5 :: |ls[j]| == 5
  {
    !(((((b[4] && ls[0][j]) != (b[3] && ls[1][j])) != (b[2] && ls[2][j])) != (b[1] && ls[3][j])) != (b[0] && ls[4][j]))
  }

  /** Bit j by repeated use of the definition. */
  lemma TapsBit(b: symbol, ls: seq<seq<bool>>, j: nat)
    requires j < 5 == |ls| && forall j | 0 <= j < 5 :: |ls[j]| == 5
    ensures Taps(b, ls, 5, 5)[j] == !BitClear(b, ls, j)
  {
    hide Taps;
    TapBit(b, ls, 1, j);
    TapBit(b, ls, 2, j);
    TapBit(b, ls, 3, j);
    TapBit(b, ls, 4, j);
    TapBit(b, ls, 5, j);
  }

  lemma TapBit(b: symbol, ls: seq<seq<bool>>, i: nat, j: nat)
    requires j < 5 == |ls| && 0 < i <= 5 && forall j | 0 <= j < 5 :: |ls[j]| == 5
    ensures Taps(b, ls, 5, i)[j] == (Taps(b, ls, 5, i - 1)[j] != (b[5 - i] && ls[i - 1][j]))
    ensures !Taps(b, ls, 5, 0)[j]
  {
  }

  lemma LowBits(bytes: seq<byte>)
    requires bytes != []
    ensures Bits(bytes)[8 * |bytes| - 5..] == BitsOf(bytes[|bytes| - 1])[3..]
  {
  }

  lemma Bech32Lows()
    ensures var ls := Lows(BECH32_GENERATORS, 30);
      && ls[0] == BitsOf(0xb2)[3..] && ls[1] == BitsOf(0x6d)[3..] && ls[2] == BitsOf(0xfa)[3..]
      && ls[3] == BitsOf(0xdd)[3..] && ls[4] == BitsOf(0xb3)[3..]
  {
    hide Bits, BitsOf;
    LowBits([0x3b, 0x6a, 0x57, 0xb2]);
    LowBits([0x26, 0x50, 0x8e, 0x6d]);
    LowBits([0x1e, 0xa1, 0x19, 0xfa]);
    LowBits([0x3d, 0x42, 0x33, 0xdd]);
    LowBits([0x2a, 0x14, 0x62, 0xb3]);
  }

  lemma CashAddrLows()
    ensures var ls := Lows(CASHADDR_GENERATORS, 40);
      && ls[0] == BitsOf(0x61)[3..] && ls[1] == BitsOf(0xe2)[3..] && ls[2] == BitsOf(0xc4)[3..]
      && ls[3] == BitsOf(0xa8)[3..] && ls[4] == BitsOf(0x70)[3..]
  {
    hide Bits, BitsOf;
    LowBits([0x98, 0xf2, 0xbc, 0x8e, 0x61]);
    LowBits([0x79, 0xb7, 0x6d, 0x99, 0xe2]);
    LowBits([0xf3, 0x3e, 0x5f, 0xb3, 0xc4]);
    LowBits([0xae, 0x2e, 0xab, 0xe2, 0xa8]);
    LowBits([0x1e, 0x4f, 0x43, 0xe4, 0x70]);
  }

  lemma Independent(gs: seq<seq<bool>>, n: nat, ls: seq<seq<bool>>)
    requires n >= 10 && |gs| == 5 && (forall j | 0 <= j < 5 :: |gs[j]| == n) && ls == Lows(gs, n)
    requires forall b: symbol :: (forall j | 0 <= j < 5 :: BitClear(b, ls, j)) ==> !(b[0] || b[1] || b[2] || b[3] || b[4])
    ensures Code(gs, n)
  {
    hide Taps, Lows;
    forall b: symbol | Taps(b, gs, n, 5)[n - 5..] == Zeros(5)
      ensures b == Zeros(5)
    {
      TapsLow(b, gs, n, 5);
      assert Taps(b, ls, 5, 5) == Zeros(5);
      forall j | 0 <= j < 5
        ensures BitClear(b, ls, j)
      {
        TapsBit(b, ls, j);
        assert !Zeros(5)[j];
      }
    }
  }

  /** The bech32 generators make a code. */
  lemma Bech32IsCode()
    ensures Code(BECH32_GENERATORS, BECH32_BITS)
  {
    hide Bits, Lows, Code;
    Bech32Lows();
    var ls := Lows(BECH32_GENERATORS, 30);
    forall b: symbol | forall j | 0 <= j < 5 :: BitClear(b, ls, j)
      ensures !(b[0] || b[1] || b[2] || b[3] || b[4])
    {
      assert BitClear(b, ls, 0) && BitClear(b, ls, 1) && BitClear(b, ls, 2) && BitClear(b, ls, 3) && BitClear(b, ls, 4);
    }
    Independent(BECH32_GENERATORS, 30, ls);
  }

  /** The CashAddr generators make a code. */
  lemma CashAddrIsCode()
    ensures Code(CASHADDR_GENERATORS, CASHADDR_BITS)
  {
    hide Bits, Lows, Code;
    CashAddrLows();
    var ls := Lows(CASHADDR_GENERATORS, 40);
    forall b: symbol | forall j | 0 <= j < 5 :: BitClear(b, ls, j)
      ensures !(b[0] || b[1] || b[2] || b[3] || b[4])
    {
      assert BitClear(b, ls, 0) && BitClear(b, ls, 1) && BitClear(b, ls, 2) && BitClear(b, ls, 3) && BitClear(b, ls, 4);
    }
    Independent(CASHADDR_GENERATORS, 40, ls);
  }

  // ---------- the loops ----------

  function SymbolsOf(values: seq<byte>): (vs: seq<symbol>)
    ensures |vs| == |values|
  {
    seq(|values|, i requires 0 <= i < |values| => Field(values[i], 5))
  }

  function One(n: nat): (x: seq<bool>)
    requires n > 0
    ensures |x| == n
  {
    Zeros(n - 1) + [true]
  }

  /** The checksum of a list of values below 32. */
  function Checked(values: seq<byte>, gs: seq<seq<bool>>, n: nat): (chk: seq<bool>)
    requires n >= 10 && |gs| == 5 && forall j | 0 <= j < 5 :: |gs[j]| == n
    ensures |chk| == n
  {
    Run(One(n), SymbolsOf(values), gs, n)
  }

  /** ((chk & mask) << 5) ^ v in a machine word whose mask keeps the low n - 5 bits */
  function Shifted(chk: seq<bool>, v: byte, n: nat): (r: seq<bool>)
    requires 10 <= n <= |chk|
    ensures |r| == |chk|
  {
    Xor(ShiftIn(And(chk, Zeros(|chk| - (n - 5)) + Ones(n - 5)), Zeros(5)), Zeros(|chk| - 8) + BitsOf(v))
  }

  lemma ShiftedIs(chk: seq<bool>, v: byte, n: nat, s: seq<bool>)
    requires 10 <= n == |s| <= |chk| && chk == Zeros(|chk| - n) + s && Fits(v, 5)
    ensures Shifted(chk, v, n) == Zeros(|chk| - n) + ShiftIn(s, Field(v, 5))
  {
    hide BitsOf;
    var w, bits := |chk|, BitsOf(v);
    assert bits == Zeros(3) + Field(v, 5) by { assert bits == bits[..3] + bits[3..]; }
    var kept := And(chk, Zeros(w - (n - 5)) + Ones(n - 5));
    assert kept == Zeros(w - (n - 5)) + s[5..];
    assert ShiftIn(kept, Zeros(5)) == Zeros(w - n) + s[5..] + Zeros(5);
    assert Zeros(w - 8) + bits == Zeros(w - n) + Zeros(n - 5) + Field(v, 5);
    XorTail(w - n, s[5..], Field(v, 5));
  }

  lemma XorTail(k: nat, x: seq<bool>, f: seq<bool>)
    ensures Xor(Zeros(k) + x + Zeros(|f|), Zeros(k) + Zeros(|x|) + f) == Zeros(k) + (x + f)
  {
  }

  /** `for (i < 5) if ((b >> i) & 1) chk ^= G[i]`, where b is the top symbol of the register before the shift. */
  method ApplyTaps(chk0: seq<bool>, b: seq<bool>, gs: seq<seq<bool>>, n: nat, ghost s: seq<bool>) returns (chk: seq<bool>)
    requires 10 <= n == |s| <= |chk0| && chk0 == Zeros(|chk0| - n) + s && |b| >= 5
    requires |gs| == 5 && forall j | 0 <= j < 5 :: |gs[j]| == n
    ensures chk == Zeros(|chk0| - n) + Xor(s, Taps(b[|b| - 5..], gs, n, 5))
  {
    hide Xor;
    var w, i := |chk0|, 0;
    ghost var low := b[|b| - 5..];
    chk := chk0;
    XorZeros(s);
    while i < 5
      invariant 0 <= i <= 5 && |chk| == w && chk == Zeros(w - n) + Xor(s, Taps(low, gs, n, i))
    {
      ghost var taps := Taps(low, gs, n, i);
      TapStep(s, taps, gs[i], low[4 - i], w - n);
      if b[|b| - 1 - i] {
        chk := Xor(chk, Zeros(w - n) + gs[i]);
      }
      i := i + 1;
    }
  }

  lemma TapStep(s: seq<bool>, taps: seq<bool>, g: seq<bool>, on: bool, k: nat)
    requires |s| == |taps| == |g|
    ensures Zeros(k) + Xor(s, Xor(taps, Scale(on, g)))
         == if on then Xor(Zeros(k) + Xor(s, taps), Zeros(k) + g) else Zeros(k) + Xor(s, taps)
  {
  }

  lemma TopSymbol(s: seq<bool>, n: nat, w: nat)
    requires 10 <= n == |s| <= w
    ensures ShiftRight(Zeros(w - n) + s, n - 5)[w - 5..] == s[..5]
  {
  }

  lemma CheckedSnoc(values: seq<byte>, v: byte, gs: seq<seq<bool>>, n: nat)
    requires n >= 10 && |gs| == 5 && forall j | 0 <= j < 5 :: |gs[j]| == n
    ensures Checked(values + [v], gs, n) == Step(Checked(values, gs, n), Field(v, 5), gs, n)
  {
    hide Step, Field;
    assert SymbolsOf(values + [v]) == SymbolsOf(values) + [Field(v, 5)];
    assert SymbolsOf(values + [v])[..|values|] == SymbolsOf(values);
  }

  /** The polymod loop in a w-bit machine word; its bits above the register stay zero. */
  method Compute(values: seq<byte>, gs: seq<seq<bool>>, n: nat, w: nat) returns (chk: seq<bool>)
    requires AllFit(values, 5)
    requires 10 <= n <= w && |gs| == 5 && forall j | 0 <= j < 5 :: |gs[j]| == n
    ensures chk == Zeros(w - n) + Checked(values, gs, n)
  {
    hide Xor, ShiftIn, ShiftRight, Field, Fits, Taps, Shifted;
    chk := Zeros(w - 1) + [true];
    assert chk == Zeros(w - n) + One(n) && One(n) == Checked([], gs, n) by {
    }
    for i := 0 to |values|
      invariant |chk| == w && chk == Zeros(w - n) + Checked(values[..i], gs, n)
    {
      ghost var s := Checked(values[..i], gs, n);
      ghost var v := Field(values[i], 5);
      var b := ShiftRight(chk, n - 5);
      TopSymbol(s, n, w);
      ShiftedIs(chk, values[i], n, s);
      chk := ApplyTaps(Shifted(chk, values[i], n), b, gs, n, ShiftIn(s, v));
      CheckedSnoc(values[..i], values[i], gs, n);
      assert values[..i + 1] == values[..i] + [values[i]];
    }
    assert values[..|values|] == values;
  }

  // ---------- what the register detects ----------

  lemma SymbolsConcat(a: seq<byte>, b: seq<byte>)
    ensures SymbolsOf(a + b) == SymbolsOf(a) + SymbolsOf(b)
  {
    hide Field;
  }

  lemma FieldInjective(u: byte, v: byte)
    requires Fits(u, 5) && Fits(v, 5)
    ensures Field(u, 5) == Field(v, 5) <==> u == v
  {
    BoxedField(u, 5);
    BoxedField(v, 5);
  }

  /** Changing one value below 32, anywhere, changes the checksum. */
  lemma SingleValueChange(values: seq<byte>, i: nat, v: byte, gs: seq<seq<bool>>, n: nat)
    requires Code(gs, n) && i < |values| && Fits(values[i], 5) && Fits(v, 5)
    ensures Checked(values[i := v], gs, n) == Checked(values, gs, n) <==> v == values[i]
  {
    hide Field, Fits, Run;
    FieldInjective(v, values[i]);
    SingleChange(One(n), SymbolsOf(values), i, Field(v, 5), gs, n);
    assert SymbolsOf(values[i := v]) == SymbolsOf(values)[i := Field(v, 5)];
  }

  /** The values that complete a list to a given checksum. */
  function ChecksumValues(values: seq<byte>, target: seq<bool>, gs: seq<seq<bool>>, n: nat): (cs: seq<byte>)
    requires |target| == n >= 10 && n % 5 == 0 && |gs| == 5 && forall j | 0 <= j < 5 :: |gs[j]| == n
    ensures |cs| == n / 5 && AllFit(cs, 5)
  {
    var cs := Checksum(Checked(values, gs, n), target, gs, n);
    BoxedFits(cs, 5);
    BoxAll(cs)
  }

  lemma SymbolsOfBoxed(cs: seq<symbol>)
    ensures SymbolsOf(BoxAll(cs)) == cs
  {
    hide Boxed, Field, Fits;
    forall i | 0 <= i < |cs|
      ensures SymbolsOf(BoxAll(cs))[i] == cs[i]
    {
      FieldBoxed(cs[i]);
    }
  }

  lemma BoxedSymbolsOf(vs: seq<byte>)
    requires AllFit(vs, 5)
    ensures BoxAll(SymbolsOf(vs)) == vs
  {
    hide Boxed, Field, Fits;
    forall i | 0 <= i < |vs|
      ensures BoxAll(SymbolsOf(vs))[i] == vs[i]
    {
      BoxedField(vs[i], 5);
    }
  }

  /** Every list of values has exactly one checksum for every target. */
  lemma UniqueChecksum(values: seq<byte>, cs: seq<byte>, target: seq<bool>, gs: seq<seq<bool>>, n: nat)
    requires Code(gs, n) && |target| == n && n % 5 == 0 && |cs| == n / 5 && AllFit(cs, 5)
    ensures Checked(values + cs, gs, n) == target <==> cs == ChecksumValues(values, target, gs, n)
  {
    hide Field, Fits, Run, Checksum, BoxAll;
    var s := Checked(values, gs, n);
    SymbolsConcat(values, cs);
    RunConcat(One(n), SymbolsOf(values), SymbolsOf(cs), gs, n);
    ChecksumUnique(s, target, SymbolsOf(cs), gs, n);
    SymbolsOfBoxed(Checksum(s, target, gs, n));
    BoxedSymbolsOf(cs);
  }
}
