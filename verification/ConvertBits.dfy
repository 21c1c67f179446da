/** convert_bits of address.cpp: regrouping a stream of fixed-width fields held one to a byte. */
module ConvertBits {
  import opened AddressResult
  import opened BitGroups
  import opened BitStrings
  import Numerals

  type width = w: nat | 0 < w <= 8 witness 8

  // ---------- fields ----------

  predicate Fits(v: byte, w: width)
  {
    BitsOf(v)[..8 - w] == Zeros(8 - w)
  }

  /** The low w bits of a byte. */
  function Field(v: byte, w: width): (b: seq<bool>)
    ensures |b| == w
  {
    BitsOf(v)[8 - w..]
  }

  /** The byte holding a field. */
  function Boxed(b: seq<bool>): (v: byte)
    requires |b| <= 8
  {
    ByteOf(Zeros(8 - |b|) + b)
  }

  lemma FieldBoxed(b: seq<bool>)
    requires 0 < |b| <= 8
    ensures Fits(Boxed(b), |b|) && Field(Boxed(b), |b|) == b
  {
    hide ByteOf, BitsOf;
    var x := Zeros(8 - |b|) + b;
    BitsOfByte(x);
    assert x[8 - |b|..] == b && x[..8 - |b|] == Zeros(8 - |b|);
  }

  lemma BoxedField(v: byte, w: width)
    requires Fits(v, w)
    ensures Boxed(Field(v, w)) == v
  {
    hide ByteOf, BitsOf;
    ByteOfBits(v);
    assert BitsOf(v) == BitsOf(v)[..8 - w] + BitsOf(v)[8 - w..];
  }

  predicate AllFit(vs: seq<byte>, w: width)
  {
    forall i | 0 <= i < |vs| :: Fits(vs[i], w)
  }

  /** The fields of the bytes one after the other. */
  function Stream(vs: seq<byte>, w: width): (b: seq<bool>)
  {
    if vs == [] then [] else Stream(vs[..|vs| - 1], w) + Field(vs[|vs| - 1], w)
  }

  /** One byte for every field. */
  function BoxAll(gs: seq<seq<bool>>): (vs: seq<byte>)
    requires forall i | 0 <= i < |gs| :: |gs[i]| <= 8
    ensures |vs| == |gs|
  {
    seq(|gs|, i requires 0 <= i < |gs| => Boxed(gs[i]))
  }

  // ---------- what convert_bits means ----------

  /** Complete groups, then the padded remainder; without padding the remainder must be short and zero. */
  function Converted(vs: seq<byte>, from: width, to: width, pad: bool): Result<seq<byte>>
  {
    if !AllFit(vs, from) then
      Err(BadCharacter)
    else
      var bits := Stream(vs, from);
      var out, rest := BoxAll(Groups(bits, to)), Rest(bits, to);
      if pad then
        Ok(if rest == [] then out else out + [Boxed(rest + Zeros(to - |rest|))])
      else if |rest| >= from || rest != Zeros(|rest|) then
        Err(BadLength)
      else
        Ok(out)
  }

  /** The bits after the last complete group. */
  function Rest(bits: seq<bool>, w: nat): (r: seq<bool>)
    requires w > 0
    ensures |r| < w
    decreases |bits|
  {
    if |bits| < w then bits else Rest(bits[w..], w)
  }

  lemma {:induction false} RestConcat(a: seq<bool>, b: seq<bool>, w: nat)
    requires w > 0 && Whole(a, w)
    ensures Rest(a + b, w) == Rest(b, w)
    decreases |a|
  {
    if a == [] {
      assert a + b == b;
    } else {
      assert (a + b)[w..] == a[w..] + b;
      RestConcat(a[w..], b, w);
    }
  }

  lemma GroupsAndRest(done: seq<bool>, rest: seq<bool>, w: nat)
    requires w > 0 && Whole(done, w) && |rest| < w
    ensures Groups(done + rest, w) == Groups(done, w) && Rest(done + rest, w) == rest
  {
    GroupsConcat(done, rest, w);
    RestConcat(done, rest, w);
  }

  // ---------- the loop ----------

  /** The accumulator's low bits are the bits not yet emitted; whole groups of everything before have been. */
  ghost predicate Emitting(acc: seq<bool>, bits: nat, out: seq<byte>, seen: seq<bool>, done: seq<bool>, to: width)
  {
    && |acc| == 32 && bits <= 32 && Whole(done, to) && seen == done + acc[32 - bits..]
    && out == BoxAll(Groups(done, to))
  }

  /** acc = ((acc << from) | v) & maxa */
  function Absorb(acc: seq<bool>, v: byte, from: width, to: width): (r: seq<bool>)
    requires |acc| == 32
    ensures |r| == 32
  {
    And(ShiftIn(acc, Field(v, from)), Zeros(33 - from - to) + Ones(from + to - 1))
  }

  lemma AbsorbKeeps(acc: seq<bool>, bits: nat, v: byte, from: width, to: width)
    requires |acc| == 32 && bits < to
    ensures Absorb(acc, v, from, to)[32 - (bits + from)..] == acc[32 - bits..] + Field(v, from)
  {
    hide BitsOf;
    var f, r := Field(v, from), Absorb(acc, v, from, to);
    assert r[32 - (bits + from)..] == ShiftIn(acc, f)[32 - (bits + from)..];
  }

  /** (acc >> bits) & maxv, as a byte */
  function Emit(acc: seq<bool>, bits: nat, to: width): (v: byte)
    requires |acc| == 32 && bits <= 32
  {
    ByteOf(And(ShiftRight(acc, bits), Zeros(32 - to) + Ones(to))[24..])
  }

  lemma EmitIsGroup(acc: seq<bool>, bits: nat, to: width)
    requires |acc| == 32 && bits + to <= 32
    ensures Emit(acc, bits, to) == Boxed(acc[32 - bits - to..32 - bits])
  {
    hide ByteOf;
    assert And(ShiftRight(acc, bits), Zeros(32 - to) + Ones(to))[24..] == Zeros(8 - to) + acc[32 - bits - to..32 - bits];
  }

  lemma EmitStep(acc: seq<bool>, bits: nat, out: seq<byte>, seen: seq<bool>, done: seq<bool>, to: width)
    returns (more: seq<bool>)
    requires Emitting(acc, bits, out, seen, done, to) && bits >= to
    ensures Emitting(acc, bits - to, out + [Emit(acc, bits - to, to)], seen, more, to)
  {
    hide BitsOf, ByteOf, Emit, Boxed;
    var group := acc[32 - bits..32 - bits + to];
    EmitIsGroup(acc, bits - to, to);
    GroupsSnoc(done, group, to);
    more := done + group;
    assert acc[32 - bits..] == group + acc[32 - (bits - to)..];
    BoxSnoc(Groups(done, to), group);
  }

  lemma BoxSnoc(gs: seq<seq<bool>>, g: seq<bool>)
    requires |g| <= 8 && forall i | 0 <= i < |gs| :: |gs[i]| <= 8
    ensures BoxAll(gs + [g]) == BoxAll(gs) + [Boxed(g)]
  {
    hide Boxed;
  }

  /** `while (bits >= to_bits)` */
  method Drain(acc: seq<bool>, bits0: nat, out0: seq<byte>, to: width, ghost seen: seq<bool>, ghost done0: seq<bool>)
    returns (bits: nat, out: seq<byte>, ghost done: seq<bool>)
    requires Emitting(acc, bits0, out0, seen, done0, to)
    ensures Emitting(acc, bits, out, seen, done, to) && bits < to
  {
    hide Emit;
    bits, out, done := bits0, out0, done0;
    while bits >= to
      invariant Emitting(acc, bits, out, seen, done, to)
    {
      done := EmitStep(acc, bits, out, seen, done, to);
      bits := bits - to;
      out := out + [Emit(acc, bits, to)];
    }
  }

  /** (acc << (to - bits)) & maxv */
  function Tail(acc: seq<bool>, bits: nat, to: width): (r: seq<bool>)
    requires |acc| == 32 && bits <= to
    ensures |r| == 32
  {
    And(ShiftIn(acc, Zeros(to - bits)), Zeros(32 - to) + Ones(to))
  }

  lemma TailIsRest(acc: seq<bool>, bits: nat, to: width)
    requires |acc| == 32 && bits <= to
    ensures Tail(acc, bits, to) == Zeros(32 - to) + acc[32 - bits..] + Zeros(to - bits)
  {
  }

  lemma TailTests(rest: seq<bool>, to: width)
    requires |rest| <= to
    ensures (Zeros(32 - to) + rest + Zeros(to - |rest|))[24..] == Zeros(8 - to) + (rest + Zeros(to - |rest|))
    ensures Zeros(32 - to) + rest + Zeros(to - |rest|) == Zeros(32) <==> rest == Zeros(|rest|)
  {
    var t := Zeros(32 - to) + rest + Zeros(to - |rest|);
    assert forall i | 0 <= i < |rest| :: t[32 - to + i] == rest[i];
  }

  lemma FinalBits(acc: seq<bool>, bits: nat, to: width)
    requires |acc| == 32 && bits < to
    ensures ByteOf(Tail(acc, bits, to)[24..]) == Boxed(acc[32 - bits..] + Zeros(to - bits))
    ensures Tail(acc, bits, to) == Zeros(32) <==> acc[32 - bits..] == Zeros(bits)
  {
    hide ByteOf, Tail;
    TailIsRest(acc, bits, to);
    TailTests(acc[32 - bits..], to);
  }

  /** What is left in the accumulator is what follows the last complete group. */
  lemma Left(acc: seq<bool>, bits: nat, done: seq<bool>, to: width) returns (rest: seq<bool>)
    requires |acc| == 32 && bits < to && Whole(done, to)
    ensures rest == acc[32 - bits..] && |rest| == bits
    ensures Groups(done + rest, to) == Groups(done, to) && Rest(done + rest, to) == rest
  {
    rest := acc[32 - bits..];
    GroupsAndRest(done, rest, to);
  }

  lemma StreamStep(vs: seq<byte>, i: nat, from: width)
    requires i < |vs|
    ensures Stream(vs[..i + 1], from) == Stream(vs[..i], from) + Field(vs[i], from)
  {
    assert vs[..i + 1][..i] == vs[..i];
  }

  lemma EmptyStart(to: width, from: width)
    ensures Emitting(Zeros(32), 0, [], Stream([], from), [], to)
  {
    hide Field, Boxed;
    assert Zeros(32)[32..] == [];
  }

  /** The loop over the input; ok is false when a value has more than from bits. */
  method Regroup(vs: seq<byte>, from: width, to: width)
    returns (ok: bool, acc: seq<bool>, bits: nat, out: seq<byte>, ghost done: seq<bool>)
    ensures ok == AllFit(vs, from)
    ensures ok ==> Emitting(acc, bits, out, Stream(vs, from), done, to) && bits < to
  {
    hide BitsOf, ByteOf, Field, Absorb, Boxed, Fits, Whole, Stream, Groups, BoxAll;
    acc, bits, out, done := Zeros(32), 0, [], [];
    EmptyStart(to, from);
    for i := 0 to |vs|
      invariant AllFit(vs[..i], from)
      invariant Emitting(acc, bits, out, Stream(vs[..i], from), done, to) && bits < to
    {
      if !Fits(vs[i], from) {
        return false, acc, bits, out, done;
      }
      AbsorbKeeps(acc, bits, vs[i], from, to);
      StreamStep(vs, i, from);
      acc := Absorb(acc, vs[i], from, to);
      bits := bits + from;
      bits, out, done := Drain(acc, bits, out, to, Stream(vs[..i + 1], from), done);
    }
    assert vs[..|vs|] == vs;
    ok := true;
  }

  method Convert(vs: seq<byte>, from: width, to: width, pad: bool) returns (r: Result<seq<byte>>)
    ensures r == Converted(vs, from, to, pad)
  {
    hide BitsOf, ByteOf, Field, Tail, Boxed, Fits, AllFit, Whole, Stream, Groups, Rest, BoxAll;
    var ok, acc, bits, out, done := Regroup(vs, from, to);
    if !ok {
      return Err(BadCharacter);
    }
    ghost var rest := Left(acc, bits, done, to);
    FinalBits(acc, bits, to);
    if pad {
      if bits != 0 {
        out := out + [ByteOf(Tail(acc, bits, to)[24..])];
      }
    } else if bits >= from || Tail(acc, bits, to) != Zeros(32) {
      return Err(BadLength);
    }
    return Ok(out);
  }

  // ---------- regrouping loses nothing ----------

  lemma {:induction false} StreamConcat(a: seq<byte>, b: seq<byte>, w: width)
    ensures Stream(a + b, w) == Stream(a, w) + Stream(b, w)
  {
    hide Field;
    if b == [] {
      assert a + b == a;
    } else {
      var m := |b| - 1;
      assert (a + b)[..|a| + m] == a + b[..m];
      StreamConcat(a, b[..m], w);
    }
  }

  lemma StreamOne(v: byte, w: width)
    ensures Stream([v], w) == Field(v, w)
  {
    hide Field;
    assert [v][..0] == [];
  }

  lemma {:induction false} StreamLength(vs: seq<byte>, w: width)
    ensures |Stream(vs, w)| == |vs| * w
  {
    hide Field;
    if vs != [] {
      StreamLength(vs[..|vs| - 1], w);
      OneMore(|vs| - 1, w);
    }
  }

  lemma {:induction false} StreamInjective(a: seq<byte>, b: seq<byte>, w: width)
    requires AllFit(a, w) && AllFit(b, w) && |a| == |b| && Stream(a, w) == Stream(b, w)
    ensures a == b
  {
    hide Field, Fits;
    if a != [] {
      var m := |a| - 1;
      StreamLength(a[..m], w);
      StreamLength(b[..m], w);
      ConcatInjective(Stream(a[..m], w), Field(a[m], w), Stream(b[..m], w), Field(b[m], w));
      StreamInjective(a[..m], b[..m], w);
      BoxedField(a[m], w);
      BoxedField(b[m], w);
      assert a == a[..m] + [a[m]] && b == b[..m] + [b[m]];
    }
  }

  lemma ConcatInjective<T>(a: seq<T>, b: seq<T>, c: seq<T>, d: seq<T>)
    requires |a| == |c| && a + b == c + d
    ensures a == c && b == d
  {
    assert a == (a + b)[..|a|] && b == (a + b)[|a|..];
  }

  lemma {:induction false} StreamWhole(vs: seq<byte>, w: width)
    ensures Whole(Stream(vs, w), w)
  {
    hide Field;
    if vs != [] {
      StreamWhole(vs[..|vs| - 1], w);
      GroupsSnoc(Stream(vs[..|vs| - 1], w), Field(vs[|vs| - 1], w), w);
    }
  }

  lemma {:induction false} GroupsOfStream(vs: seq<byte>, w: width)
    requires AllFit(vs, w)
    ensures BoxAll(Groups(Stream(vs, w), w)) == vs
  {
    hide Field, Boxed, Fits;
    if vs != [] {
      var m := |vs| - 1;
      GroupsOfStream(vs[..m], w);
      StreamWhole(vs[..m], w);
      GroupsSnoc(Stream(vs[..m], w), Field(vs[m], w), w);
      BoxSnoc(Groups(Stream(vs[..m], w), w), Field(vs[m], w));
      BoxedField(vs[m], w);
    }
  }

  lemma BoxedFits(gs: seq<seq<bool>>, w: width)
    requires forall i | 0 <= i < |gs| :: |gs[i]| == w
    ensures AllFit(BoxAll(gs), w)
  {
    hide Boxed, Fits;
    forall i | 0 <= i < |gs|
      ensures Fits(BoxAll(gs)[i], w)
    {
      FieldBoxed(gs[i]);
    }
  }

  lemma {:induction false} StreamOfGroups(bits: seq<bool>, w: width)
    ensures Stream(BoxAll(Groups(bits, w)), w) + Rest(bits, w) == bits
    decreases |bits|
  {
    hide Groups, Rest, BoxAll, Boxed, Stream;
    if |bits| < w {
      NoGroups(bits, w);
    } else {
      var g, more := bits[..w], bits[w..];
      StreamOfGroups(more, w);
      UnfoldGroups(bits, w);
      StreamBoxed(g, Groups(more, w), w);
      Regrouped(bits, w, Stream(BoxAll(Groups(more, w)), w), Rest(more, w));
    }
  }

  lemma Regrouped(bits: seq<bool>, w: nat, a: seq<bool>, b: seq<bool>)
    requires w <= |bits| && a + b == bits[w..]
    ensures bits[..w] + a + b == bits
  {
    assert bits[..w] + a + b == bits[..w] + (a + b);
  }

  lemma NoGroups(bits: seq<bool>, w: width)
    requires |bits| < w
    ensures Stream(BoxAll(Groups(bits, w)), w) + Rest(bits, w) == bits
  {
    assert BoxAll([]) == [];
    assert [] + bits == bits;
  }

  lemma UnfoldGroups(bits: seq<bool>, w: width)
    requires |bits| >= w
    ensures Groups(bits, w) == [bits[..w]] + Groups(bits[w..], w) && Rest(bits, w) == Rest(bits[w..], w)
  {
  }

  lemma StreamBoxed(g: seq<bool>, gs: seq<seq<bool>>, w: width)
    requires |g| == w && forall i | 0 <= i < |gs| :: |gs[i]| == w
    ensures Stream(BoxAll([g] + gs), w) == g + Stream(BoxAll(gs), w)
  {
    hide Boxed, Field, Stream, Fits;
    FieldBoxed(g);
    StreamOne(Boxed(g), w);
    StreamConcat([Boxed(g)], BoxAll(gs), w);
    assert BoxAll([g] + gs) == [Boxed(g)] + BoxAll(gs);
  }

  /** Padding appends fewer than `to` zero bits. */
  lemma PaddedStream(vs: seq<byte>, from: width, to: width) returns (k: nat)
    requires AllFit(vs, from)
    ensures k < to && AllFit(Converted(vs, from, to, true).value, to)
    ensures Stream(Converted(vs, from, to, true).value, to) == Stream(vs, from) + Zeros(k)
  {
    hide Boxed, Fits, Field, Stream, Groups, Rest, BoxAll;
    var bits := Stream(vs, from);
    var out, rest := BoxAll(Groups(bits, to)), Rest(bits, to);
    StreamOfGroups(bits, to);
    BoxedFits(Groups(bits, to), to);
    if rest == [] {
      k := 0;
      assert bits + Zeros(0) == bits;
    } else {
      k := to - |rest|;
      var last := rest + Zeros(k);
      FieldBoxed(last);
      StreamOne(Boxed(last), to);
      StreamConcat(out, [Boxed(last)], to);
      assert Stream(out, to) + last == bits + Zeros(k);
    }
  }

  lemma CloseMultiples(a: nat, b: nat, w: nat)
    requires a * w < b * w + w && b * w < a * w + w
    ensures a == b
  {
    Numerals.MultipleIsFar(a - b, w);
    Numerals.MultipleIsFar(b - a, w);
  }

  /** Unpadded regrouping to the wider field is exactly the inverse of padded regrouping to the narrower one. */
  lemma RoundTrip(bytes: seq<byte>, symbols: seq<byte>, wide: width, narrow: width)
    requires narrow <= wide
    ensures Converted(symbols, narrow, wide, false) == Ok(bytes)
       <==> Converted(bytes, wide, narrow, true) == Ok(symbols)
  {
    hide Converted, AllFit;
    if Converted(symbols, narrow, wide, false) == Ok(bytes) {
      UnpaddedThenPadded(bytes, symbols, wide, narrow);
    }
    if Converted(bytes, wide, narrow, true) == Ok(symbols) {
      PaddedThenUnpadded(bytes, symbols, wide, narrow);
    }
  }

  lemma PaddedThenUnpadded(bytes: seq<byte>, symbols: seq<byte>, wide: width, narrow: width)
    requires narrow <= wide && Converted(bytes, wide, narrow, true) == Ok(symbols)
    ensures Converted(symbols, narrow, wide, false) == Ok(bytes)
  {
    hide Boxed, Fits, Field, Stream, Groups, Rest, BoxAll, Whole;
    var k := PaddedStream(bytes, wide, narrow);
    StreamWhole(bytes, wide);
    GroupsAndRest(Stream(bytes, wide), Zeros(k), wide);
    GroupsOfStream(bytes, wide);
  }

  lemma UnpaddedThenPadded(bytes: seq<byte>, symbols: seq<byte>, wide: width, narrow: width)
    requires narrow <= wide && Converted(symbols, narrow, wide, false) == Ok(bytes)
    ensures Converted(bytes, wide, narrow, true) == Ok(symbols)
  {
    hide Boxed, Fits, Field, Stream, Groups, Rest, BoxAll;
    var bits := Stream(symbols, narrow);
    var q := |Rest(bits, wide)|;
    BoxedFits(Groups(bits, wide), wide);
    StreamOfGroups(bits, wide);
    var k := PaddedStream(bytes, wide, narrow);
    var again := Converted(bytes, wide, narrow, true).value;
    StreamLength(again, narrow);
    StreamLength(symbols, narrow);
    CloseMultiples(|again|, |symbols|, narrow);
    StreamInjective(again, symbols, narrow);
  }

  lemma AnyFitsEight(vs: seq<byte>)
    ensures AllFit(vs, 8)
  {
    hide BitsOf;
    forall i | 0 <= i < |vs|
      ensures Fits(vs[i], 8)
    {
      assert BitsOf(vs[i])[..0] == Zeros(0);
    }
  }

  lemma PaddedOk(bytes: seq<byte>)
    ensures Converted(bytes, 8, 5, true).Ok? && AllFit(Converted(bytes, 8, 5, true).value, 5)
  {
    hide Fits;
    AnyFitsEight(bytes);
    var k := PaddedStream(bytes, 8, 5);
  }
}
