/** The bit unpacking of equihash.hpp: fixed-width bit groups of a byte string become zero-padded big-endian bytes. */
module BitUnpacking {
  import opened BitStrings
  import opened BitGroups
  import Numerals

  // ---------- what the unpacking means ----------

  function Padded(group: seq<bool>, width: nat): (b: seq<bool>)
    requires |group| <= 8 * width
    ensures |b| == 8 * width
  {
    Zeros(8 * width - |group|) + group
  }

  /** The groups one after the other, each in its own width bytes behind leading zero bits. */
  function Spread(gs: seq<seq<bool>>, width: nat): (bytes: seq<byte>)
    requires forall i | 0 <= i < |gs| :: |gs[i]| <= 8 * width
  {
    if gs == [] then [] else Spread(gs[..|gs| - 1], width) + Bytes(Padded(gs[|gs| - 1], width))
  }

  lemma {:induction false} SpreadLength(gs: seq<seq<bool>>, width: nat)
    requires forall i | 0 <= i < |gs| :: |gs[i]| <= 8 * width
    ensures |Spread(gs, width)| == |gs| * width
  {
    if gs != [] {
      SpreadLength(gs[..|gs| - 1], width);
      OneMore(|gs| - 1, width);
    }
  }

  lemma SpreadSnoc(gs: seq<seq<bool>>, g: seq<bool>, width: nat)
    requires |g| <= 8 * width && forall i | 0 <= i < |gs| :: |gs[i]| <= 8 * width
    ensures Spread(gs + [g], width) == Spread(gs, width) + Bytes(Padded(g, width))
  {
    assert (gs + [g])[..|gs|] == gs;
  }

  // ---------- the accumulator ----------

  /** The 32 low bits of everything read so far. */
  ghost predicate Accumulates(acc: seq<bool>, bits: seq<bool>)
  {
    acc == (Zeros(32) + bits)[|bits|..]
  }

  lemma ReadOne(acc: seq<bool>, bits: seq<bool>, n: nat, b: seq<bool>)
    requires |b| == 8 && n + 8 <= |bits| && bits[n..n + 8] == b && Accumulates(acc, bits[..n])
    ensures Accumulates(ShiftIn(acc, b), bits[..n + 8])
  {
    PrefixPlus(bits, n, 8);
    AccumulatorStep(acc, bits[..n], b);
  }

  lemma AccumulatorStep(acc: seq<bool>, bits: seq<bool>, b: seq<bool>)
    requires |b| == 8 && Accumulates(acc, bits)
    ensures Accumulates(ShiftIn(acc, b), bits + b)
  {
    var z := Zeros(32);
    assert (z + (bits + b))[|bits + b|..] == ((z + bits)[|bits|..] + b)[8..];
  }

  /** The byte k places from the end of the group on top of accBits unread bits, cut out by shift and mask. */
  function Extract(acc: seq<bool>, accBits: nat, bitLen: nat, k: nat): (b: byte)
    requires |acc| == 32 && accBits < 8 && 8 * k < bitLen <= 25
  {
    ByteOf(ExtractBits(acc, accBits, bitLen, k)[24..])
  }

  function ExtractBits(acc: seq<bool>, accBits: nat, bitLen: nat, k: nat): (x: seq<bool>)
    requires |acc| == 32 && accBits < 8 && 8 * k < bitLen <= 25
    ensures |x| == 32
  {
    var mask := Zeros(32 - bitLen) + Ones(bitLen);
    And(ShiftRight(acc, accBits + 8 * k), And(ShiftRight(mask, 8 * k), Zeros(24) + Ones(8)))
  }

  /** One output byte. A 32-bit accumulator suffices: at most 7 unread bits lie below a group of at most 25. */
  lemma AccumulatorByte(acc: seq<bool>, bits: seq<bool>, group: seq<bool>, rest: seq<bool>, width: nat, x: nat)
    requires Accumulates(acc, bits + group + rest) && |group| <= 25 && |rest| < 8
    requires |group| <= 8 * width && x < width && 8 * (width - x - 1) < |group|
    ensures ExtractBits(acc, |rest|, |group|, width - x - 1)[24..] == Padded(group, width)[8 * x..8 * x + 8]
  {
    var n := |group| + |rest|;
    forall i | 0 <= i < n
      ensures acc[32 - n + i] == (group + rest)[i]
    {
    }
  }

  lemma PaddingByte(group: seq<bool>, width: nat, x: nat)
    requires x < width && |group| <= 8 * (width - x - 1)
    ensures Padded(group, width)[8 * x..8 * x + 8] == Zeros(8)
  {
  }

  /** The declared output length leaves room for one more group wherever its bits are still to come. */
  ghost predicate Roomy(n: nat, outLen: nat, width: nat, w: nat)
    requires 0 < w <= 8 * width
  {
    forall bits: seq<bool> | Whole(bits, w) && |bits| + w <= 8 * n ::
      |Spread(Groups(bits, w), width)| + width <= outLen
  }

  lemma DeclaredLengthIsRoomy(n: nat, outLen: nat, width: nat, w: nat)
    requires 0 < w <= 8 * width && outLen == 8 * width * n / w
    ensures Roomy(n, outLen, width, w)
  {
    forall bits: seq<bool> | Whole(bits, w) && |bits| + w <= 8 * n
      ensures |Spread(Groups(bits, w), width)| + width <= outLen
    {
      WholeCount(bits, w);
      SpreadLength(Groups(bits, w), width);
      RoomForOneMore(|Groups(bits, w)|, w, n, width);
    }
  }

  lemma RoomForOneMore(g: nat, w: nat, n: nat, width: nat)
    requires w > 0 && g * w + w <= 8 * n
    ensures g * width + width <= 8 * width * n / w
  {
    OneMore(g, w);
    OneMore(g, width);
    ScaledQuotient(g + 1, w, 8 * n, width);
    assert 8 * n * width == 8 * width * n;
  }

  lemma ScaledQuotient(g: nat, d: nat, n: nat, w: nat)
    requires d > 0 && g * d <= n
    ensures g * w <= n * w / d
  {
    var q, r := n * w / d, n * w % d;
    assert n * w == q * d + r;
    assert (g * d) * w <= n * w;
    assert (g * w) * d == (g * d) * w;
    assert (g * w - q) * d <= r;
    Numerals.MultipleIsFar(g * w - q, d);
  }

  // ---------- ExpandArray ----------

  /** The bytes of the group on top of the accumulator. */
  ghost predicate OnTop(bytes: seq<byte>, bytePad: nat, acc: seq<bool>, accBits: nat, bitLen: nat)
  {
    && |acc| == 32 && accBits < 8 && 8 <= bitLen <= 25
    && |bytes| == (bitLen + 7) / 8 + bytePad
    && forall x | 0 <= x < |bytes| ::
         bytes[x] == if x < bytePad then 0 else Extract(acc, accBits, bitLen, |bytes| - x - 1)
  }

  lemma GroupOnTop(acc: seq<bool>, done: seq<bool>, group: seq<bool>, rest: seq<bool>, bytePad: nat)
    requires Accumulates(acc, done + group + rest) && 8 <= |group| <= 25 && |rest| < 8
    ensures OnTop(Bytes(Padded(group, (|group| + 7) / 8 + bytePad)), bytePad, acc, |rest|, |group|)
  {
    var width := (|group| + 7) / 8 + bytePad;
    AllOnTop(acc, done, group, rest, bytePad, width);
  }

  lemma AllOnTop(acc: seq<bool>, done: seq<bool>, group: seq<bool>, rest: seq<bool>, bytePad: nat, width: nat)
    requires Accumulates(acc, done + group + rest) && 8 <= |group| <= 25 && |rest| < 8
    requires bytePad <= width && |group| <= 8 * (width - bytePad) < |group| + 8
    ensures |acc| == 32 && |Bytes(Padded(group, width))| == width
    ensures forall x | 0 <= x < width ::
      Bytes(Padded(group, width))[x] == if x < bytePad then 0 else Extract(acc, |rest|, |group|, width - x - 1)
  {
    assert |acc| == 32;
    hide Padded, Accumulates, Extract, Bytes;
    forall x | 0 <= x < width
      ensures Bytes(Padded(group, width))[x] == if x < bytePad then 0 else Extract(acc, |rest|, |group|, width - x - 1)
    {
      ByteOnTop(acc, done, group, rest, bytePad, width, x);
    }
  }

  lemma ByteOnTop(acc: seq<bool>, done: seq<bool>, group: seq<bool>, rest: seq<bool>, bytePad: nat, width: nat, x: nat)
    requires Accumulates(acc, done + group + rest) && 8 <= |group| <= 25 && |rest| < 8 && |acc| == 32
    requires x < width && bytePad <= width && |group| <= 8 * (width - bytePad) < |group| + 8
    ensures Bytes(Padded(group, width))[x] == if x < bytePad then 0 else Extract(acc, |rest|, |group|, width - x - 1)
  {
    ZeroByte();
    hide Padded, Accumulates, ExtractBits, ByteOf, Bytes, Zeros;
    BytesAt(Padded(group, width), x);
    if x < bytePad {
      PaddingByte(group, width, x);
    } else {
      AccumulatorByte(acc, done, group, rest, width, x);
    }
  }

  lemma ZeroByte()
    ensures ByteOf(Zeros(8)) == 0
  {
  }

  /** The next w bits, with a few unread ones behind them, are on top of the accumulator. */
  lemma NextOnTop(acc: seq<bool>, bits: seq<bool>, c: nat, w: nat, unread: nat, bytePad: nat)
    requires 8 <= w <= 25 && unread < 8 && ReadUpTo(acc, bits, c + w + unread)
    ensures OnTop(Bytes(Padded(bits[c..c + w], (w + 7) / 8 + bytePad)), bytePad, acc, unread, w)
  {
    hide Accumulates, OnTop, Bytes, Padded;
    PrefixPlus(bits, c, w);
    PrefixPlus(bits, c + w, unread);
    GroupOnTop(acc, bits[..c], bits[c..c + w], bits[c + w..c + w + unread], bytePad);
  }

  /** The next w bits are one more group. */
  lemma GroupDone(bits: seq<bool>, c: nat, w: nat, width: nat)
    requires 0 < w <= 8 * width && GroupedUpTo(bits, c, w) && c + w <= |bits|
    ensures GroupedUpTo(bits, c + w, w)
    ensures WrittenUpTo(bits, c + w, w, width) == WrittenUpTo(bits, c, w, width) + Bytes(Padded(bits[c..c + w], width))
  {
    hide Bytes, Padded, Whole, Groups, Spread;
    PrefixPlus(bits, c, w);
    GroupsSnoc(bits[..c], bits[c..c + w], w);
    SpreadSnoc(Groups(bits[..c], w), bits[c..c + w], width);
  }

  // The state of the byte loop: n bits of the input are read, c of them are written out as groups.

  ghost predicate ReadUpTo(acc: seq<bool>, bits: seq<bool>, n: nat)
  {
    |acc| == 32 && n <= |bits| && Accumulates(acc, bits[..n])
  }

  ghost predicate GroupedUpTo(bits: seq<bool>, c: nat, w: nat)
  {
    w > 0 && c <= |bits| && Whole(bits[..c], w)
  }

  ghost function WrittenUpTo(bits: seq<bool>, c: nat, w: nat, width: nat): seq<byte>
    requires c <= |bits| && 0 < w <= 8 * width
  {
    Spread(Groups(bits[..c], w), width)
  }

  lemma ReadByte(acc: seq<bool>, input: seq<byte>, i: nat)
    requires i < |input| && ReadUpTo(acc, Bits(input), 8 * i)
    ensures ReadUpTo(ShiftIn(acc, BitsOf(input[i])), Bits(input), 8 * i + 8)
  {
    hide BitsOf, Bits, ShiftIn, Accumulates;
    BitsAt(input, i);
    ReadOne(acc, Bits(input), 8 * i, BitsOf(input[i]));
  }

  lemma RoomHere(bits: seq<bool>, c: nat, n: nat, outLen: nat, width: nat, w: nat)
    requires 0 < w <= 8 * width && Roomy(n, outLen, width, w) && GroupedUpTo(bits, c, w) && c + w <= 8 * n
    ensures |WrittenUpTo(bits, c, w, width)| + width <= outLen
  {
  }

  /** At the end less than a group is unread. */
  lemma LastGroups(bits: seq<bool>, c: nat, w: nat, width: nat)
    requires 0 < w <= 8 * width && GroupedUpTo(bits, c, w) && |bits| < c + w
    ensures WrittenUpTo(bits, c, w, width) == Spread(Groups(bits, w), width)
  {
    hide Spread;
    var rest := bits[c..];
    assert bits == bits[..c] + rest;
    assert Groups(rest, w) == [];
    hide Whole, Groups;
    GroupsConcat(bits[..c], rest, w);
    assert Groups(bits[..c], w) + [] == Groups(bits[..c], w);
  }

  /** The inner loops: padding zeros, then the accumulator's bytes under the shifted mask. */
  method WriteGroup(out: array<byte>, j: nat, bitLen: nat, bytePad: nat, acc: seq<bool>, accBits: nat,
                    ghost bytes: seq<byte>)
    requires OnTop(bytes, bytePad, acc, accBits, bitLen) && j + |bytes| <= out.Length
    modifies out
    ensures forall m | 0 <= m < out.Length ::
              out[m] == if j <= m < j + |bytes| then bytes[m - j] else old(out[m])
  {
    hide Extract;
    var outWidth := (bitLen + 7) / 8 + bytePad;
    for x := 0 to bytePad
      invariant forall m | 0 <= m < out.Length :: out[m] == if j <= m < j + x then bytes[m - j] else old(out[m])
    {
      out[j + x] := 0;
    }
    for x := bytePad to outWidth
      invariant forall m | 0 <= m < out.Length :: out[m] == if j <= m < j + x then bytes[m - j] else old(out[m])
    {
      out[j + x] := Extract(acc, accBits, bitLen, outWidth - x - 1);
    }
  }

  /** out begins with bytes and is otherwise as it was before. */
  ghost predicate Holds(out: seq<byte>, bytes: seq<byte>, before: seq<byte>)
  {
    |bytes| <= |before| && out == bytes + before[|bytes|..]
  }

  ghost predicate Expanding(input: seq<byte>, bitLen: nat, outWidth: nat, outLen: nat,
                            i: nat, acc: seq<bool>, accBits: nat, j: nat, out: seq<byte>, before: seq<byte>)
  {
    && 0 < bitLen <= 8 * outWidth && accBits < bitLen && i <= |input| && accBits <= 8 * i
    && ReadUpTo(acc, Bits(input), 8 * i)
    && GroupedUpTo(Bits(input), 8 * i - accBits, bitLen)
    && var bytes := WrittenUpTo(Bits(input), 8 * i - accBits, bitLen, outWidth);
       j == |bytes| <= outLen <= |before| && Holds(out, bytes, before)
  }

  /** One byte enters the accumulator; a complete group leaves it. */
  method ExpandByte(input: seq<byte>, out: array<byte>, ghost outLen: nat, outWidth: nat, bitLen: nat, bytePad: nat,
                    i: nat, acc0: seq<bool>, accBits0: nat, j0: nat, ghost before: seq<byte>)
    returns (acc: seq<bool>, accBits: nat, j: nat)
    requires 8 <= bitLen <= 25 && outWidth == (bitLen + 7) / 8 + bytePad && i < |input|
    requires Roomy(|input|, outLen, outWidth, bitLen)
    requires Expanding(input, bitLen, outWidth, outLen, i, acc0, accBits0, j0, out[..], before)
    modifies out
    ensures Expanding(input, bitLen, outWidth, outLen, i + 1, acc, accBits, j, out[..], before)
  {
    hide Roomy, Bits, ReadUpTo, GroupedUpTo, WrittenUpTo, ShiftIn, BitsOf, Bytes, Padded, OnTop;
    ghost var bits := Bits(input);
    ghost var c := 8 * i - accBits0;
    ReadByte(acc0, input, i);
    acc := ShiftIn(acc0, BitsOf(input[i]));
    accBits := accBits0 + 8;
    j := j0;
    if accBits >= bitLen {
      accBits := accBits - bitLen;
      RoomHere(bits, c, |input|, outLen, outWidth, bitLen);
      GroupDone(bits, c, bitLen, outWidth);
      NextOnTop(acc, bits, c, bitLen, accBits, bytePad);
      WriteGroup(out, j, bitLen, bytePad, acc, accBits, Bytes(Padded(bits[c..c + bitLen], outWidth)));
      j := j + outWidth;
    }
  }

  /** The groups of the input land one after the other, zero-padded in front; nothing behind them changes. */
  method ExpandArray(input: seq<byte>, out: array<byte>, outLen: nat, bitLen: nat, bytePad: nat)
    requires 8 <= bitLen <= 25
    requires outLen == 8 * ((bitLen + 7) / 8 + bytePad) * |input| / bitLen
    requires outLen <= out.Length
    modifies out
    ensures var bytes := Spread(Groups(Bits(input), bitLen), (bitLen + 7) / 8 + bytePad);
            |bytes| <= outLen && Holds(out[..], bytes, old(out[..]))
  {
    hide *;
    var outWidth := (bitLen + 7) / 8 + bytePad;
    var accBits, acc, j := 0, Zeros(32), 0;
    ghost var before := out[..];
    DeclaredLengthIsRoomy(|input|, outLen, outWidth, bitLen);
    LoopStart(input, bitLen, outWidth, outLen, before);
    for i := 0 to |input|
      invariant Expanding(input, bitLen, outWidth, outLen, i, acc, accBits, j, out[..], before)
    {
      acc, accBits, j := ExpandByte(input, out, outLen, outWidth, bitLen, bytePad, i, acc, accBits, j, before);
    }
    LoopEnd(input, bitLen, outWidth, outLen, acc, accBits, j, out[..], before);
  }

  lemma LoopStart(input: seq<byte>, bitLen: nat, outWidth: nat, outLen: nat, before: seq<byte>)
    requires 0 < bitLen <= 8 * outWidth && outLen <= |before|
    ensures Expanding(input, bitLen, outWidth, outLen, 0, Zeros(32), 0, 0, before, before)
  {
  }

  lemma LoopEnd(input: seq<byte>, bitLen: nat, outWidth: nat, outLen: nat,
                acc: seq<bool>, accBits: nat, j: nat, out: seq<byte>, before: seq<byte>)
    requires 0 < bitLen <= 8 * outWidth
    requires Expanding(input, bitLen, outWidth, outLen, |input|, acc, accBits, j, out, before)
    ensures var bytes := Spread(Groups(Bits(input), bitLen), outWidth);
            |bytes| <= outLen && Holds(out, bytes, before)
  {
    hide Groups, Spread, Bits, ReadUpTo, Holds;
    LastGroups(Bits(input), 8 * |input| - accBits, bitLen, outWidth);
  }

  // ---------- GetIndicesFromMinimal ----------

  type word = x: seq<bool> | |x| == 32 witness Zeros(32)

  /** The w-bit groups of a packed solution as 32-bit unsigned integers. */
  function Indices(soln: seq<byte>, w: nat): (ret: seq<word>)
    requires 0 < w <= 32
    ensures |ret| == |Groups(Bits(soln), w)|
  {
    Widen(Groups(Bits(soln), w))
  }

  function Widen(gs: seq<seq<bool>>): (ret: seq<word>)
    requires forall i | 0 <= i < |gs| :: |gs[i]| <= 32
    ensures |ret| == |gs| && forall i | 0 <= i < |gs| :: ret[i] == Padded(gs[i], 4)
  {
    seq(|gs|, i requires 0 <= i < |gs| => Padded(gs[i], 4))
  }

  lemma {:induction false} SpreadPrefix(gs: seq<seq<bool>>, width: nat, i: nat)
    requires i <= |gs| && forall k | 0 <= k < |gs| :: |gs[k]| <= 8 * width
    ensures Spread(gs[..i], width) <= Spread(gs, width)
  {
    hide Bytes, Padded;
    var n := |gs| - 1;
    if i <= n {
      SpreadPrefix(gs[..n], width, i);
      assert gs[..n][..i] == gs[..i];
    } else {
      assert gs[..i] == gs;
    }
  }

  /** Group i lies in the width bytes behind the groups before it. */
  lemma SpreadBehind(gs: seq<seq<bool>>, width: nat, i: nat, at: nat)
    requires i < |gs| && (forall k | 0 <= k < |gs| :: |gs[k]| <= 8 * width) && at == |Spread(gs[..i], width)|
    ensures at + width <= |Spread(gs, width)| && Spread(gs, width)[at..at + width] == Bytes(Padded(gs[i], width))
  {
    hide Bytes, Padded, Spread;
    SpreadPrefix(gs, width, i + 1);
    assert gs[..i + 1] == gs[..i] + [gs[i]];
    SpreadSnoc(gs[..i], gs[i], width);
    SliceAt(Spread(gs[..i], width), Bytes(Padded(gs[i], width)), Spread(gs, width), at);
  }

  lemma SliceAt<T>(a: seq<T>, b: seq<T>, s: seq<T>, at: nat)
    requires a + b <= s && at == |a|
    ensures at + |b| <= |s| && s[at..at + |b|] == b
  {
  }

  lemma ReadIndex(soln: seq<byte>, w: nat, i: nat)
    requires 0 < w <= 32 && i < |Groups(Bits(soln), w)|
    ensures var padded := Spread(Groups(Bits(soln), w), 4);
            4 * i + 4 <= |padded| && Bits(padded[4 * i..4 * i + 4]) == Indices(soln, w)[i]
  {
    hide Bytes, Padded, Groups, Spread, Bits;
    var gs := Groups(Bits(soln), w);
    SpreadLength(gs[..i], 4);
    SpreadBehind(gs, 4, i, 4 * i);
    BitsOfBytes(Padded(gs[i], 4));
  }

  /** Where the padded array is made of whole 4-byte reads, it holds exactly one per group. */
  lemma WholeReads(n: nat, w: nat, len: nat, g: nat)
    requires w > 0 && len == 32 * n / w && len % 4 == 0 && g * w <= 8 * n < g * w + w
    ensures len == 4 * g
  {
    var r := 32 * n % w;
    assert 32 * n == len * w + r;
    var h := len / 4;
    assert len * w == 4 * (h * w);
    assert (h - g) * w == h * w - g * w;
    Numerals.MultipleIsFar(h - g, w);
    Numerals.MultipleIsFar(g - h, w);
  }

  /** Every index is read back from its 4 padded big-endian bytes. */
  method GetIndicesFromMinimal(soln: seq<byte>, cBitLen: nat) returns (ret: seq<word>)
    requires 7 <= cBitLen <= 24
    requires 32 * |soln| / (cBitLen + 1) % 4 == 0  // otherwise the last 4-byte read leaves the array
    ensures ret == Indices(soln, cBitLen + 1)
  {
    hide Padded, Spread, Groups, Bytes, Bits, Indices, Widen;
    var w := cBitLen + 1;
    var lenIndices := 32 * |soln| / w;
    var bytePad := 4 - (w + 7) / 8;
    var arr := new byte[lenIndices](_ => 0);
    ExpandArray(soln, arr, lenIndices, w, bytePad);
    ghost var gs, words := Groups(Bits(soln), w), Indices(soln, w);
    GroupCount(Bits(soln), w);
    WholeReads(|soln|, w, lenIndices, |gs|);
    SpreadLength(gs, 4);
    ghost var padded := Spread(gs, 4);
    var bytes := arr[..];
    assert bytes == padded;
    ret := [];
    var i := 0;
    while i < lenIndices
      invariant i == 4 * |ret| <= lenIndices
      invariant |ret| <= |words| && forall k | 0 <= k < |ret| :: ret[k] == words[k]
    {
      ReadIndex(soln, w, |ret|);
      ret := ret + [Bits(bytes[i..i + 4])];
      i := i + 4;
    }
  }

  // ---------- the minimal packing and its inverse ----------

  /** The indices without their 32 - w leading bits, one after the other. */
  function Narrow(indices: seq<word>, w: nat): (bits: seq<bool>)
    requires w <= 32
  {
    if indices == [] then [] else indices[0][32 - w..] + Narrow(indices[1..], w)
  }

  /** The minimal encoding of an index list: w bits each, in whole bytes. */
  function Pack(indices: seq<word>, w: nat): (soln: seq<byte>)
    requires w <= 32 && |Narrow(indices, w)| % 8 == 0
  {
    Bytes(Narrow(indices, w))
  }

  predicate Fits(x: word, w: nat)
    requires w <= 32
  {
    x[..32 - w] == Zeros(32 - w)
  }

  lemma {:induction false} NarrowWidened(bits: seq<bool>, w: nat)
    requires 0 < w <= 32 && Whole(bits, w)
    ensures Narrow(Widen(Groups(bits, w)), w) == bits
    decreases |bits|
  {
    if bits != [] {
      var rest := Groups(bits[w..], w);
      NarrowWidened(bits[w..], w);
      WidenCons(bits[..w], rest);
      hide Groups, Widen, Whole, Padded;
      assert ([Padded(bits[..w], 4)] + Widen(rest))[1..] == Widen(rest);
      PaddingDropped(bits[..w]);
    }
  }

  lemma PaddingDropped(group: seq<bool>)
    requires |group| <= 32
    ensures Padded(group, 4)[32 - |group|..] == group
  {
  }

  lemma WidenCons(g: seq<bool>, gs: seq<seq<bool>>)
    requires |g| <= 32 && forall i | 0 <= i < |gs| :: |gs[i]| <= 32
    ensures Widen([g] + gs) == [Padded(g, 4)] + Widen(gs)
  {
    hide Padded;
  }

  lemma {:induction false} WidenedNarrow(indices: seq<word>, w: nat)
    requires 0 < w <= 32 && forall i | 0 <= i < |indices| :: Fits(indices[i], w)
    ensures Widen(Groups(Narrow(indices, w), w)) == indices
  {
    var bits := Narrow(indices, w);
    if indices != [] {
      var rest := Narrow(indices[1..], w);
      var head := indices[0][32 - w..];
      WidenedNarrow(indices[1..], w);
      assert bits[..w] == head && bits[w..] == rest;
      assert Padded(head, 4) == indices[0];
      assert Groups(bits, w) == [head] + Groups(rest, w);
      hide Groups, Narrow, Padded;
      WidenCons(head, Groups(rest, w));
    }
  }

  /** Unpacking inverts the minimal packing of every list of w-bit indices that fills whole bytes ... */
  lemma UnpackInvertsPack(indices: seq<word>, w: nat)
    requires 0 < w <= 32 && (forall i | 0 <= i < |indices| :: Fits(indices[i], w)) && |Narrow(indices, w)| % 8 == 0
    ensures Indices(Pack(indices, w), w) == indices
  {
    BitsOfBytes(Narrow(indices, w));
    WidenedNarrow(indices, w);
  }

  /** ... and packing inverts unpacking on solutions of whole groups ... */
  lemma PackInvertsUnpack(soln: seq<byte>, w: nat)
    requires 0 < w <= 32 && 8 * |soln| % w == 0
    ensures |Narrow(Indices(soln, w), w)| == 8 * |soln| && Pack(Indices(soln, w), w) == soln
  {
    WholeWhenDivisible(Bits(soln), w);
    NarrowWidened(Bits(soln), w);
    BytesOfBits(soln);
  }

  /** ... so no two of those solutions unpack to the same indices. */
  lemma UnpackInjective(a: seq<byte>, b: seq<byte>, w: nat)
    requires 0 < w <= 32 && 8 * |a| % w == 0 && 8 * |b| % w == 0 && Indices(a, w) == Indices(b, w)
    ensures a == b
  {
    PackInvertsUnpack(a, w);
    PackInvertsUnpack(b, w);
  }
}
