/** The Wagner tree check of equihash.hpp against the recursive Equihash definition, for any number of rounds. */
module Equihash {
  import opened BitStrings
  import opened BitGroups
  import opened BitUnpacking

  function Pow2(n: nat): (p: nat)
    ensures p > 0
  {
    if n == 0 then 1 else 2 * Pow2(n - 1)
  }

  // ---------- the definition (section 7.7.1 of the Zcash Protocol Specification) ----------

  /** The XOR of the n-bit digests of a list of indices. */
  function XorAll(digest: word -> seq<bool>, n: nat, indices: seq<word>): (x: seq<bool>)
    requires forall w: word :: |digest(w)| == n
    ensures |x| == n
  {
    if indices == [] then Zeros(n) else Xor(digest(indices[0]), XorAll(digest, n, indices[1..]))
  }

  /** Lexicographic order on index lists of the same length. */
  predicate Before(a: seq<word>, b: seq<word>)
    requires |a| == |b|
  {
    a != [] && if a[0] == b[0] then Before(a[1..], b[1..]) else Less(a[0], b[0])
  }

  predicate Disjoint(a: seq<word>, b: seq<word>)
  {
    forall i, j | 0 <= i < |a| && 0 <= j < |b| :: a[i] != b[j]
  }

  /** Every node at height r has 20*r leading zero bits, index-ordered halves and no index in both halves. */
  ghost predicate Node(digest: word -> seq<bool>, n: nat, indices: seq<word>, r: nat)
    requires (forall w: word :: |digest(w)| == n) && |indices| == Pow2(r) && 20 * r <= n
  {
    r == 0 ||
    var h := Pow2(r - 1);
    && Node(digest, n, indices[..h], r - 1)
    && Node(digest, n, indices[h..], r - 1)
    && XorAll(digest, n, indices)[..20 * r] == Zeros(20 * r)
    && Before(indices[..h], indices[h..])
    && Disjoint(indices[..h], indices[h..])
  }

  /** A solution of the instance with k rounds: a valid tree whose digests cancel on all 20*(k+1) bits. */
  ghost predicate Solution(digest: word -> seq<bool>, k: nat, indices: seq<word>)
    requires (forall w: word :: |digest(w)| == 20 * (k + 1)) && |indices| == Pow2(k)
  {
    Node(digest, 20 * (k + 1), indices, k) && XorAll(digest, 20 * (k + 1), indices) == Zeros(20 * (k + 1))
  }

  /** In a valid tree all indices are distinct. */
  lemma {:induction false} NodeDistinct(digest: word -> seq<bool>, n: nat, indices: seq<word>, r: nat)
    requires (forall w: word :: |digest(w)| == n) && |indices| == Pow2(r) && 20 * r <= n
    requires Node(digest, n, indices, r)
    ensures forall i, j | 0 <= i < j < |indices| :: indices[i] != indices[j]
  {
    hide XorAll, Before, Zeros;
    if r > 0 {
      var h := Pow2(r - 1);
      NodeDistinct(digest, n, indices[..h], r - 1);
      NodeDistinct(digest, n, indices[h..], r - 1);
      forall i, j | 0 <= i < j < |indices|
        ensures indices[i] != indices[j]
      {
        if j < h {
          assert indices[i] == indices[..h][i] && indices[j] == indices[..h][j];
        } else if i >= h {
          assert indices[i] == indices[h..][i - h] && indices[j] == indices[h..][j - h];
        } else {
          assert indices[i] == indices[..h][i] && indices[j] == indices[h..][j - h];
        }
      }
    }
  }

  lemma {:induction false} XorAllConcat(digest: word -> seq<bool>, n: nat, a: seq<word>, b: seq<word>)
    requires forall w: word :: |digest(w)| == n
    ensures XorAll(digest, n, a + b) == Xor(XorAll(digest, n, a), XorAll(digest, n, b))
    decreases |a|
  {
    if a == [] {
      assert a + b == b;
    } else {
      XorAllConcat(digest, n, a[1..], b);
      assert (a + b)[1..] == a[1..] + b;
      assert (a + b)[0] == a[0];
    }
  }

  // ---------- rows as bytes ----------

  /** The expanded form of a digest: 20 bits to every 3 bytes. */
  function Expanded(x: seq<bool>): seq<byte>
  {
    Spread(Groups(x, 20), 3)
  }

  function IndexBytes(indices: seq<word>): (bytes: seq<byte>)
    ensures |bytes| == 4 * |indices|
  {
    if indices == [] then [] else Bytes(indices[0]) + IndexBytes(indices[1..])
  }

  lemma {:induction false} IndexBytesConcat(a: seq<word>, b: seq<word>)
    ensures IndexBytes(a + b) == IndexBytes(a) + IndexBytes(b)
    decreases |a|
  {
    if a == [] {
      assert a + b == b;
    } else {
      hide Bytes;
      IndexBytesConcat(a[1..], b);
      assert (a + b)[1..] == a[1..] + b && (a + b)[0] == a[0];
    }
  }

  lemma {:induction false} IndexBytesAt(indices: seq<word>, i: nat)
    requires i < |indices|
    ensures IndexBytes(indices)[4 * i..4 * i + 4] == Bytes(indices[i])
  {
    hide Bytes;
    if i > 0 {
      IndexBytesAt(indices[1..], i - 1);
    }
  }

  /** A row after r of k rounds: what is left of the expanded XOR, then the indices, big-endian and in leaf order. */
  ghost predicate Row(bytes: seq<byte>, digest: word -> seq<bool>, k: nat, r: nat, indices: seq<word>)
    requires forall w: word :: |digest(w)| == 20 * (k + 1)
  {
    var e := Expanded(XorAll(digest, 20 * (k + 1), indices));
    var len := 3 * (k + 1 - r);
    && r <= k + 1
    && |e| == 3 * (k + 1) && len + 4 * |indices| <= |bytes|
    && bytes[..len] == e[3 * r..]
    && bytes[len..len + 4 * |indices|] == IndexBytes(indices)
  }

  // ---------- memcmp ----------

  function Memcmp(a: seq<byte>, b: seq<byte>): int
    requires |a| == |b|
  {
    if a == [] then 0
    else if a[0] == b[0] then Memcmp(a[1..], b[1..])
    else if a[0] < b[0] then -1 else 1
  }

  lemma {:induction false} MemcmpEqual(a: seq<byte>, b: seq<byte>)
    requires |a| == |b|
    ensures Memcmp(a, b) == 0 <==> a == b
  {
    if a != [] {
      MemcmpEqual(a[1..], b[1..]);
    }
  }

  lemma {:induction false} MemcmpConcat(a: seq<byte>, b: seq<byte>, c: seq<byte>, d: seq<byte>)
    requires |a| == |b| && |c| == |d|
    ensures Memcmp(a + c, b + d) == if a == b then Memcmp(c, d) else Memcmp(a, b)
    decreases |a|
  {
    if a == [] {
      assert a + c == c && b + d == d;
    } else {
      MemcmpConcat(a[1..], b[1..], c, d);
      assert (a + c)[1..] == a[1..] + c && (b + d)[1..] == b[1..] + d;
      assert a == b <==> a[0] == b[0] && a[1..] == b[1..];
    }
  }

  lemma {:induction false} LessConcat(a: seq<bool>, b: seq<bool>, c: seq<bool>, d: seq<bool>)
    requires |a| == |b| && |c| == |d|
    ensures Less(a + c, b + d) == if a == b then Less(c, d) else Less(a, b)
    decreases |a|
  {
    if a == [] {
      assert a + c == c && b + d == d;
    } else {
      LessConcat(a[1..], b[1..], c, d);
      assert (a + c)[1..] == a[1..] + c && (b + d)[1..] == b[1..] + d;
      assert a == b <==> a[0] == b[0] && a[1..] == b[1..];
    }
  }

  lemma LessAt(x: seq<bool>, y: seq<bool>, i: nat)
    requires i < |x| == |y|
    ensures Less(x[i..], y[i..]) <==> if x[i] == y[i] then Less(x[i + 1..], y[i + 1..]) else y[i]
  {
    assert x[i..][1..] == x[i + 1..] && y[i..][1..] == y[i + 1..];
  }

  lemma LessByte(a: byte, b: byte)
    ensures Less(BitsOf(a), BitsOf(b)) <==> a < b
  {
    hide Less, BitsOf;
    var x, y := BitsOf(a), BitsOf(b);
    BitwiseLess(a, b);
    LessUnrolled(x, y);
  }

  lemma LessUnrolled(x: seq<bool>, y: seq<bool>)
    requires |x| == |y| == 8
    ensures Less(x, y) <==>
            if x[0] != y[0] then y[0] else if x[1] != y[1] then y[1] else
            if x[2] != y[2] then y[2] else if x[3] != y[3] then y[3] else
            if x[4] != y[4] then y[4] else if x[5] != y[5] then y[5] else
            if x[6] != y[6] then y[6] else x[7] != y[7] && y[7]
  {
    LessNothing(x[8..], y[8..]);
    hide Less;
    LessAt(x, y, 0);
    LessAt(x, y, 1);
    LessAt(x, y, 2);
    LessAt(x, y, 3);
    LessAt(x, y, 4);
    LessAt(x, y, 5);
    LessAt(x, y, 6);
    LessAt(x, y, 7);
    assert x[0..] == x && y[0..] == y;
  }

  lemma LessNothing(x: seq<bool>, y: seq<bool>)
    requires |x| == |y| == 0
    ensures !Less(x, y)
  {
  }

  lemma BitwiseLess(a: byte, b: byte)
    ensures var x, y := BitsOf(a), BitsOf(b);
            a < b <==>
            if x[0] != y[0] then y[0] else if x[1] != y[1] then y[1] else
            if x[2] != y[2] then y[2] else if x[3] != y[3] then y[3] else
            if x[4] != y[4] then y[4] else if x[5] != y[5] then y[5] else
            if x[6] != y[6] then y[6] else x[7] != y[7] && y[7]
  {
  }

  /** Byte-wise comparison of big-endian bytes is comparison of the words. */
  lemma {:induction false} MemcmpWords(x: seq<bool>, y: seq<bool>)
    requires |x| == |y| && |x| % 8 == 0
    ensures Memcmp(Bytes(x), Bytes(y)) < 0 <==> Less(x, y)
  {
    hide BitsOf, ByteOf;
    if x != [] {
      var n := |x| - 8;
      var p, q := ByteOf(x[n..]), ByteOf(y[n..]);
      MemcmpWords(x[..n], y[..n]);
      MemcmpConcat(Bytes(x[..n]), Bytes(y[..n]), [p], [q]);
      LessConcat(x[..n], y[..n], x[n..], y[n..]);
      assert x == x[..n] + x[n..] && y == y[..n] + y[n..];
      LessByte(p, q);
      BitsOfByte(x[n..]);
      BitsOfByte(y[n..]);
      BytesEqual(x[..n], y[..n]);
      MemcmpOne(p, q);
    }
  }

  lemma MemcmpOne(p: byte, q: byte)
    ensures Memcmp([p], [q]) < 0 <==> p < q
  {
  }

  lemma BytesEqual(x: seq<bool>, y: seq<bool>)
    requires |x| == |y| && |x| % 8 == 0
    ensures Bytes(x) == Bytes(y) <==> x == y
  {
    BitsOfBytes(x);
    BitsOfBytes(y);
  }

  lemma {:induction false} MemcmpIndices(a: seq<word>, b: seq<word>)
    requires |a| == |b|
    ensures Memcmp(IndexBytes(a), IndexBytes(b)) < 0 <==> Before(a, b)
  {
    hide Bytes, Less;
    if a != [] {
      MemcmpIndices(a[1..], b[1..]);
      MemcmpConcat(Bytes(a[0]), Bytes(b[0]), IndexBytes(a[1..]), IndexBytes(b[1..]));
      BytesEqual(a[0], b[0]);
      MemcmpWords(a[0], b[0]);
    }
  }

  lemma {:induction false} BeforeTotal(a: seq<word>, b: seq<word>)
    requires |a| == |b|
    ensures !(Before(a, b) && Before(b, a))
    ensures Before(a, b) || Before(b, a) || a == b
  {
    if a != [] {
      if a[0] == b[0] {
        BeforeTotal(a[1..], b[1..]);
        assert a == [a[0]] + a[1..] && b == [b[0]] + b[1..];
      } else {
        LessTotal(a[0], b[0]);
      }
    }
  }

  lemma {:induction false} LessTotal(x: seq<bool>, y: seq<bool>)
    requires |x| == |y|
    ensures !(Less(x, y) && Less(y, x))
    ensures Less(x, y) || Less(y, x) || x == y
  {
    if x != [] && x[0] == y[0] {
      LessTotal(x[1..], y[1..]);
      assert x == [x[0]] + x[1..] && y == [y[0]] + y[1..];
    }
  }

  // ---------- XOR of rows ----------

  function XorBytes(a: seq<byte>, b: seq<byte>): (c: seq<byte>)
    requires |a| == |b|
    ensures |c| == |a|
  {
    seq(|a|, i requires 0 <= i < |a| => a[i] ^ b[i])
  }

  lemma ByteXor(x: seq<bool>, y: seq<bool>)
    requires |x| == |y| == 8
    ensures ByteOf(Xor(x, y)) == ByteOf(x) ^ ByteOf(y)
  {
  }

  lemma {:induction false} BytesXor(x: seq<bool>, y: seq<bool>)
    requires |x| == |y| && |x| % 8 == 0
    ensures Bytes(Xor(x, y)) == XorBytes(Bytes(x), Bytes(y))
  {
    hide ByteOf, Bytes, XorBytes, Xor;
    if x == [] {
      NoBytesXor(x, y);
    } else {
      var n := |x| - 8;
      BytesXor(x[..n], y[..n]);
      ByteXor(x[n..], y[n..]);
      XorCut(x, y, n);
      BytesSnoc(x);
      BytesSnoc(y);
      BytesSnoc(Xor(x, y));
      XorBytesSnoc(Bytes(x[..n]), ByteOf(x[n..]), Bytes(y[..n]), ByteOf(y[n..]));
    }
  }

  lemma NoBytesXor(x: seq<bool>, y: seq<bool>)
    requires |x| == |y| == 0
    ensures Bytes(Xor(x, y)) == XorBytes(Bytes(x), Bytes(y))
  {
  }

  lemma XorCut(x: seq<bool>, y: seq<bool>, n: nat)
    requires n <= |x| == |y|
    ensures Xor(x, y)[..n] == Xor(x[..n], y[..n]) && Xor(x, y)[n..] == Xor(x[n..], y[n..])
  {
  }

  lemma BytesSnoc(x: seq<bool>)
    requires x != [] && |x| % 8 == 0
    ensures Bytes(x) == Bytes(x[..|x| - 8]) + [ByteOf(x[|x| - 8..])]
  {
    hide ByteOf;
  }

  lemma XorBytesSnoc(a: seq<byte>, x: byte, b: seq<byte>, y: byte)
    requires |a| == |b|
    ensures XorBytes(a + [x], b + [y]) == XorBytes(a, b) + [x ^ y]
  {
  }

  lemma PaddedXor(x: seq<bool>, y: seq<bool>)
    requires |x| == |y| <= 24
    ensures Padded(Xor(x, y), 3) == Xor(Padded(x, 3), Padded(y, 3))
  {
  }

  /** The three bytes of group g. */
  lemma ExpandedAt(x: seq<bool>, g: nat)
    requires 20 * g + 20 <= |x|
    ensures |Expanded(x)| == 3 * (|x| / 20)
    ensures Expanded(x)[3 * g..3 * g + 3] == Bytes(Padded(x[20 * g..20 * g + 20], 3))
  {
    hide Bytes, Padded, Spread, Groups;
    GroupCount(x, 20);
    SpreadLength(Groups(x, 20), 3);
    GroupsAt(x, 20, g);
    SpreadLength(Groups(x, 20)[..g], 3);
    SpreadBehind(Groups(x, 20), 3, g, 3 * g);
  }

  lemma ExpandedLength(x: seq<bool>)
    ensures |Expanded(x)| == 3 * (|x| / 20)
  {
    hide Spread, Groups;
    GroupCount(x, 20);
    SpreadLength(Groups(x, 20), 3);
  }

  /** Expansion keeps XOR ... */
  lemma ExpandedXor(x: seq<bool>, y: seq<bool>)
    requires |x| == |y|
    ensures |Expanded(x)| == |Expanded(y)|
    ensures Expanded(Xor(x, y)) == XorBytes(Expanded(x), Expanded(y))
  {
    hide Bytes, Padded, Expanded;
    ExpandedLength(x);
    ExpandedLength(y);
    ExpandedLength(Xor(x, y));
    forall j | 0 <= j < |Expanded(x)|
      ensures Expanded(Xor(x, y))[j] == Expanded(x)[j] ^ Expanded(y)[j]
    {
      GroupXor(x, y, j / 3);
      assert forall e: seq<byte> | |e| == |Expanded(x)| :: e[j] == e[3 * (j / 3)..3 * (j / 3) + 3][j % 3];
    }
  }

  lemma GroupXor(x: seq<bool>, y: seq<bool>, g: nat)
    requires |x| == |y| && 20 * g + 20 <= |x|
    ensures |Expanded(x)| == |Expanded(y)| == |Expanded(Xor(x, y))| == 3 * (|x| / 20)
    ensures Expanded(Xor(x, y))[3 * g..3 * g + 3]
         == XorBytes(Expanded(x)[3 * g..3 * g + 3], Expanded(y)[3 * g..3 * g + 3])
  {
    hide Bytes, Padded, Expanded;
    ExpandedAt(x, g);
    ExpandedAt(y, g);
    ExpandedAt(Xor(x, y), g);
    var p, q := x[20 * g..20 * g + 20], y[20 * g..20 * g + 20];
    assert Xor(x, y)[20 * g..20 * g + 20] == Xor(p, q);
    PaddedXor(p, q);
    BytesXor(Padded(p, 3), Padded(q, 3));
  }

  /** ... and the collision bytes agree exactly when the 20 bits agree. */
  lemma CollisionBits(x: seq<bool>, y: seq<bool>, g: nat)
    requires |x| == |y| && 20 * g + 20 <= |x|
    ensures |Expanded(x)| == |Expanded(y)| == 3 * (|x| / 20)
    ensures Expanded(x)[3 * g..3 * g + 3] == Expanded(y)[3 * g..3 * g + 3] <==>
            x[20 * g..20 * g + 20] == y[20 * g..20 * g + 20]
  {
    hide Bytes, Padded, Expanded;
    ExpandedAt(x, g);
    ExpandedAt(y, g);
    var p, q := x[20 * g..20 * g + 20], y[20 * g..20 * g + 20];
    BytesEqual(Padded(p, 3), Padded(q, 3));
    PaddedEqual(p, q);
  }

  lemma PaddedEqual(p: seq<bool>, q: seq<bool>)
    requires |p| == |q| <= 24
    ensures Padded(p, 3) == Padded(q, 3) <==> p == q
  {
    PaddingDropped3(p);
    PaddingDropped3(q);
  }

  lemma PaddingDropped3(p: seq<bool>)
    requires |p| <= 24
    ensures Padded(p, 3)[24 - |p|..] == p
  {
  }

  // ---------- one round on one pair of rows ----------

  /** The used part of the row that two rows make. */
  function Collided(a: seq<byte>, b: seq<byte>, len: nat, lenIndices: nat, trim: nat): (row: seq<byte>)
    requires trim <= len && len + lenIndices <= |a| && len + lenIndices <= |b|
    ensures |row| == len - trim + 2 * lenIndices
  {
    var ia, ib := a[len..len + lenIndices], b[len..len + lenIndices];
    XorBytes(a[trim..len], b[trim..len]) + (if Memcmp(ia, ib) < 0 then ia + ib else ib + ia)
  }

  /** Rows of two ordered lists make the row of the concatenation, one group shorter. */
  lemma CollidedRow(a: seq<byte>, b: seq<byte>, row: seq<byte>, digest: word -> seq<bool>, k: nat, r: nat,
                    l: seq<word>, q: seq<word>)
    requires forall w: word :: |digest(w)| == 20 * (k + 1)
    requires r <= k && |l| == |q| && Before(l, q)
    requires Row(a, digest, k, r, l) && Row(b, digest, k, r, q)
    requires Collided(a, b, 3 * (k + 1 - r), 4 * |l|, 3) <= row
    ensures Row(row, digest, k, r + 1, l + q)
  {
    hide Expanded, XorAll, Before, Memcmp, Xor, IndexBytes, XorBytes, Collided;
    var n, len := 20 * (k + 1), 3 * (k + 1 - r);
    var x, y := XorAll(digest, n, l), XorAll(digest, n, q);
    var e, f := Expanded(x), Expanded(y);
    MemcmpIndices(l, q);
    CollidedParts(a, b, row, len, IndexBytes(l), IndexBytes(q));
    IndexBytesConcat(l, q);
    XorAllConcat(digest, n, l, q);
    ExpandedXor(x, y);
    XorSuffix(a, b, e, f, len, 3 * r);
    ExpandedLength(Xor(x, y));
    RowOf(row, digest, k, r + 1, l + q, len - 3, Expanded(Xor(x, y)));
  }

  lemma RowOf(row: seq<byte>, digest: word -> seq<bool>, k: nat, r: nat, indices: seq<word>, len: nat, e: seq<byte>)
    requires forall w: word :: |digest(w)| == 20 * (k + 1)
    requires r <= k + 1 && len == 3 * (k + 1 - r) && e == Expanded(XorAll(digest, 20 * (k + 1), indices)) && |e| == 3 * (k + 1)
    requires len + 4 * |indices| <= |row| && row[..len] == e[3 * r..] && row[len..len + 4 * |indices|] == IndexBytes(indices)
    ensures Row(row, digest, k, r, indices)
  {
    hide Expanded, XorAll, IndexBytes;
  }

  lemma XorSuffix(a: seq<byte>, b: seq<byte>, e: seq<byte>, f: seq<byte>, len: nat, s: nat)
    requires 3 <= len <= |a| && len <= |b| && s + len == |e| == |f|
    requires a[..len] == e[s..] && b[..len] == f[s..]
    ensures XorBytes(a[3..len], b[3..len]) == XorBytes(e, f)[s + 3..]
  {
    assert a[3..len] == a[..len][3..] && b[3..len] == b[..len][3..];
  }

  lemma CollidedParts(a: seq<byte>, b: seq<byte>, row: seq<byte>, len: nat, ia: seq<byte>, ib: seq<byte>)
    requires 3 <= len && |ia| == |ib| && len + |ia| <= |a| && len + |ia| <= |b|
    requires a[len..len + |ia|] == ia && b[len..len + |ia|] == ib && Memcmp(ia, ib) < 0
    requires Collided(a, b, len, |ia|, 3) <= row
    ensures |row| >= len - 3 + 2 * |ia|
    ensures row[..len - 3] == XorBytes(a[3..len], b[3..len])
    ensures row[len - 3..len - 3 + 2 * |ia|] == ia + ib
  {
    CollidedIs(a, b, len, ia, ib);
    hide Memcmp, XorBytes, Collided;
    RowParts(row, XorBytes(a[3..len], b[3..len]), ia + ib);
  }

  lemma CollidedIs(a: seq<byte>, b: seq<byte>, len: nat, ia: seq<byte>, ib: seq<byte>)
    requires 3 <= len && |ia| == |ib| && len + |ia| <= |a| && len + |ia| <= |b|
    requires a[len..len + |ia|] == ia && b[len..len + |ia|] == ib && Memcmp(ia, ib) < 0
    ensures Collided(a, b, len, |ia|, 3) == XorBytes(a[3..len], b[3..len]) + (ia + ib)
  {
    hide Memcmp, XorBytes;
  }

  lemma RowParts(row: seq<byte>, x: seq<byte>, y: seq<byte>)
    requires x + y <= row
    ensures row[..|x|] == x && row[|x|..|x| + |y|] == y
  {
  }

  /** The 3-byte test of round r decides the next 20 bits of the node. */
  lemma CollisionTest(a: seq<byte>, b: seq<byte>, digest: word -> seq<bool>, k: nat, r: nat, l: seq<word>, q: seq<word>)
    requires forall w: word :: |digest(w)| == 20 * (k + 1)
    requires r <= k && Row(a, digest, k, r, l) && Row(b, digest, k, r, q)
    requires XorAll(digest, 20 * (k + 1), l)[..20 * r] == Zeros(20 * r)
    requires XorAll(digest, 20 * (k + 1), q)[..20 * r] == Zeros(20 * r)
    ensures Memcmp(a[..3], b[..3]) == 0 <==> XorAll(digest, 20 * (k + 1), l + q)[..20 * (r + 1)] == Zeros(20 * (r + 1))
  {
    hide Expanded, XorAll, Memcmp, Xor, IndexBytes;
    var n, len := 20 * (k + 1), 3 * (k + 1 - r);
    var x, y := XorAll(digest, n, l), XorAll(digest, n, q);
    MemcmpEqual(a[..3], b[..3]);
    XorAllConcat(digest, n, l, q);
    CollisionBits(x, y, r);
    assert a[..3] == a[..len][..3] == Expanded(x)[3 * r..3 * r + 3];
    assert b[..3] == b[..len][..3] == Expanded(y)[3 * r..3 * r + 3];
    ZeroPrefix(x, y, 20 * r, 20);
  }

  lemma SameSlice(x: seq<bool>, y: seq<bool>, i: nat, n: nat)
    requires |x| == |y| && i + n <= |x| && forall j | i <= j < i + n :: x[j] == y[j]
    ensures x[i..i + n] == y[i..i + n]
  {
  }

  lemma ZeroPrefix(x: seq<bool>, y: seq<bool>, i: nat, n: nat)
    requires |x| == |y| && i + n <= |x| && x[..i] == Zeros(i) && y[..i] == Zeros(i)
    ensures Xor(x, y)[..i + n] == Zeros(i + n) <==> x[i..i + n] == y[i..i + n]
  {
    var z := Xor(x, y);
    assert forall j | 0 <= j < i :: x[j] == x[..i][j] && y[j] == y[..i][j];
    if x[i..i + n] == y[i..i + n] {
      assert forall j | i <= j < i + n :: x[j] == x[i..i + n][j - i] && y[j] == y[i..i + n][j - i];
    }
    if z[..i + n] == Zeros(i + n) {
      forall j | i <= j < i + n
        ensures x[j] == y[j]
      {
        assert z[j] == z[..i + n][j] == Zeros(i + n)[j];
      }
      SameSlice(x, y, i, n);
    }
  }

  /** After the last round the row is all zero exactly when the digests cancel. */
  lemma FinalTest(a: seq<byte>, digest: word -> seq<bool>, k: nat, indices: seq<word>)
    requires forall w: word :: |digest(w)| == 20 * (k + 1)
    requires Row(a, digest, k, k, indices)
    requires XorAll(digest, 20 * (k + 1), indices)[..20 * k] == Zeros(20 * k)
    ensures (forall i | 0 <= i < 3 :: a[i] == 0) <==> XorAll(digest, 20 * (k + 1), indices) == Zeros(20 * (k + 1))
  {
    hide Expanded, XorAll, Xor, IndexBytes;
    var n := 20 * (k + 1);
    var x, z := XorAll(digest, n, indices), Zeros(n);
    ZeroExpands(k);
    CollisionBits(x, z, k);
    assert a[..3] == Expanded(x)[3 * k..3 * k + 3] by { assert a[..3] == Expanded(x)[3 * k..]; }
    assert x[..20 * k] == z[..20 * k];
    assert x == x[..20 * k] + x[20 * k..20 * k + 20] && z == z[..20 * k] + z[20 * k..20 * k + 20];
    assert (forall i | 0 <= i < 3 :: a[i] == 0) <==> a[..3] == [0, 0, 0];
  }

  lemma ZeroExpands(g: nat)
    ensures |Expanded(Zeros(20 * (g + 1)))| == 3 * (g + 1)
    ensures Expanded(Zeros(20 * (g + 1)))[3 * g..3 * g + 3] == [0, 0, 0]
  {
    hide Expanded, Bytes, Padded, Zeros;
    var z := Zeros(20 * (g + 1));
    ZeroBytes();
    ExpandedAt(z, g);
    ZeroSlice(20 * (g + 1), 20 * g, 20);
    TwentyFolds(g);
  }

  lemma ZeroSlice(n: nat, i: nat, k: nat)
    requires i + k <= n
    ensures Zeros(n)[i..i + k] == Zeros(k)
  {
  }

  lemma TwentyFolds(g: nat)
    ensures 3 * (20 * (g + 1) / 20) == 3 * (g + 1)
  {
  }

  lemma PaddedZeros()
    ensures Padded(Zeros(20), 3) == Zeros(24)
  {
  }

  lemma ZeroByteAt(i: nat)
    requires i < 3
    ensures Bytes(Zeros(24))[i] == 0
  {
    hide Bytes, ByteOf;
    ZeroByte();
    BytesAt(Zeros(24), i);
    assert Zeros(24)[8 * i..8 * i + 8] == Zeros(8);
  }

  lemma ZeroBytes()
    ensures Bytes(Padded(Zeros(20), 3)) == [0, 0, 0]
  {
    hide Bytes, Padded, Zeros;
    PaddedZeros();
    ZeroByteAt(0);
    ZeroByteAt(1);
    ZeroByteAt(2);
  }
}
