/** Bytes, and unsigned machine words as their bits, most significant first. */
module BitStrings {

  type byte = bv8

  // ---------- words ----------

  function Zeros(n: nat): (b: seq<bool>)
    ensures |b| == n
  {
    seq(n, _ => false)
  }

  function Ones(n: nat): (b: seq<bool>)
    ensures |b| == n
  {
    seq(n, _ => true)
  }

  /** x >> s, as wide as x */
  function ShiftRight(x: seq<bool>, s: nat): (y: seq<bool>)
    requires s <= |x|
    ensures |y| == |x|
  {
    Zeros(s) + x[..|x| - s]
  }

  /** (x << |b|) | b, as wide as x: the high bits of x fall off */
  function ShiftIn(x: seq<bool>, b: seq<bool>): (y: seq<bool>)
    ensures |y| == |x|
  {
    (x + b)[|b|..]
  }

  function And(x: seq<bool>, y: seq<bool>): (z: seq<bool>)
    requires |x| == |y|
    ensures |z| == |x|
  {
    seq(|x|, i requires 0 <= i < |x| => x[i] && y[i])
  }

  function Xor(x: seq<bool>, y: seq<bool>): (z: seq<bool>)
    requires |x| == |y|
    ensures |z| == |x|
  {
    seq(|x|, i requires 0 <= i < |x| => x[i] != y[i])
  }

  /** Unsigned comparison of words of the same width. */
  predicate Less(x: seq<bool>, y: seq<bool>)
    requires |x| == |y|
  {
    x != [] && if x[0] == y[0] then Less(x[1..], y[1..]) else y[0]
  }

  // ---------- bytes and their bits ----------

  function BitsOf(b: byte): (x: seq<bool>)
    ensures |x| == 8
  {
    [b & 0x80 != 0, b & 0x40 != 0, b & 0x20 != 0, b & 0x10 != 0, b & 8 != 0, b & 4 != 0, b & 2 != 0, b & 1 != 0]
  }

  function ByteOf(x: seq<bool>): (b: byte)
    requires |x| == 8
  {
    (if x[0] then 0x80 else 0) | (if x[1] then 0x40 else 0) | (if x[2] then 0x20 else 0) | (if x[3] then 0x10 else 0)
    | (if x[4] then 8 else 0) | (if x[5] then 4 else 0) | (if x[6] then 2 else 0) | (if x[7] then 1 else 0)
  }

  lemma ByteOfBits(b: byte)
    ensures ByteOf(BitsOf(b)) == b
  {
  }

  lemma BitsOfByte(x: seq<bool>)
    requires |x| == 8
    ensures BitsOf(ByteOf(x)) == x
  {
  }

  /** The bits of a byte string. */
  function Bits(bytes: seq<byte>): (b: seq<bool>)
    ensures |b| == 8 * |bytes|
  {
    if bytes == [] then [] else Bits(bytes[..|bytes| - 1]) + BitsOf(bytes[|bytes| - 1])
  }

  /** The bytes of a bit string of whole bytes. */
  function Bytes(b: seq<bool>): (bytes: seq<byte>)
    requires |b| % 8 == 0
    ensures |bytes| == |b| / 8
  {
    if b == [] then [] else Bytes(b[..|b| - 8]) + [ByteOf(b[|b| - 8..])]
  }

  lemma {:induction false} BytesAt(b: seq<bool>, i: nat)
    requires |b| % 8 == 0 && i < |b| / 8
    ensures Bytes(b)[i] == ByteOf(b[8 * i..8 * i + 8])
  {
    hide ByteOf, Bytes;
    EightLess(|b|);
    var n := |b| - 8;
    LastByte(b, n);
    TwoParts(b, n);
    if i < n / 8 {
      BytesAt(b[..n], i);
      assert b[..n][8 * i..8 * i + 8] == b[8 * i..8 * i + 8];
    } else {
      assert 8 * i == n;
    }
  }

  lemma EightLess(n: nat)
    requires n % 8 == 0 && n > 0
    ensures n >= 8 && (n - 8) % 8 == 0 && n / 8 == (n - 8) / 8 + 1
  {
  }

  lemma LastByte(b: seq<bool>, k: nat)
    requires |b| == k + 8 && k % 8 == 0 && |b| % 8 == 0
    ensures Bytes(b) == Bytes(b[..k]) + [ByteOf(b[k..])]
  {
    hide ByteOf;
    assert |b| - 8 == k;
  }

  lemma TwoParts(b: seq<bool>, k: nat)
    requires k <= |b|
    ensures b == b[..k] + b[k..] && b[k..] == b[k..|b|]
  {
  }

  lemma BitsSnoc(bytes: seq<byte>, b: byte)
    ensures Bits(bytes + [b]) == Bits(bytes) + BitsOf(b)
  {
    assert (bytes + [b])[..|bytes|] == bytes;
  }

  lemma {:induction false} BitsOfBytes(b: seq<bool>)
    requires |b| % 8 == 0
    ensures Bits(Bytes(b)) == b
  {
    hide ByteOf, BitsOf, Bytes, Bits;
    if b == [] {
      NoBytes();
    } else {
      EightLess(|b|);
      var n := |b| - 8;
      LastByte(b, n);
      TwoParts(b, n);
      BitsOfBytes(b[..n]);
      BitsSnoc(Bytes(b[..n]), ByteOf(b[n..]));
      BitsOfByte(b[n..]);
    }
  }

  lemma NoBytes()
    ensures Bytes([]) == [] && Bits([]) == []
  {
  }

  lemma {:induction false} BytesOfBits(bytes: seq<byte>)
    ensures Bytes(Bits(bytes)) == bytes
  {
    hide ByteOf, BitsOf;
    if bytes != [] {
      var n := |bytes| - 1;
      BytesOfBits(bytes[..n]);
      ByteOfBits(bytes[n]);
      BytesSnoc(Bits(bytes[..n]), BitsOf(bytes[n]));
    }
  }

  lemma BytesSnoc(a: seq<bool>, b: seq<bool>)
    requires |a| % 8 == 0 && |b| == 8
    ensures Bytes(a + b) == Bytes(a) + [ByteOf(b)]
  {
    hide ByteOf;
    var n := |a + b| - 8;
    assert (a + b)[..n] == a && (a + b)[n..] == b;
  }

  lemma {:induction false} BitsAt(bytes: seq<byte>, i: nat)
    requires i < |bytes|
    ensures Bits(bytes)[8 * i..8 * i + 8] == BitsOf(bytes[i])
  {
    hide BitsOf, Bits;
    var m := |bytes| - 1;
    assert bytes == bytes[..m] + [bytes[m]];
    BitsSnoc(bytes[..m], bytes[m]);
    if i < m {
      BitsAt(bytes[..m], i);
    }
  }
}
