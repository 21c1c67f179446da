/** verify_200_9 and the row structure it works on. */
module EquihashVerifier {
  import opened BitStrings
  import opened BitGroups
  import opened BitUnpacking
  import opened Equihash
  import opened WordNumbers

  class StepRow {
    const hash: array<byte>

    constructor (size: nat)
      ensures fresh(hash) && hash.Length == size
      ensures forall i | 0 <= i < size :: hash[i] == 0
    {
      hash := new byte[size](_ => 0);
    }

    /** The expanded digest, and behind it the index, big-endian. */
    method Init(hashIn: seq<byte>, hLen: nat, cBitLen: nat, index: word)
      requires 8 <= cBitLen <= 25 && hLen == 8 * ((cBitLen + 7) / 8) * |hashIn| / cBitLen
      requires hLen + 4 <= hash.Length
      modifies hash
      ensures var bytes := Spread(Groups(Bits(hashIn), cBitLen), (cBitLen + 7) / 8);
              |bytes| == hLen ==> bytes + Bytes(index) <= hash[..]
    {
      hide Bits, Groups, Spread, Bytes;
      ExpandArray(hashIn, hash, hLen, cBitLen, 0);
      var bei := Bytes(index);
      hash[hLen], hash[hLen + 1], hash[hLen + 2], hash[hLen + 3] := bei[0], bei[1], bei[2], bei[3];
    }

    method InitCollide(a: StepRow, b: StepRow, len: nat, lenIndices: nat, trim: nat)
      requires hash != a.hash && hash != b.hash
      requires trim <= len && len + lenIndices <= a.hash.Length && len + lenIndices <= b.hash.Length
      requires len - trim + 2 * lenIndices <= hash.Length
      modifies hash
      ensures Collided(a.hash[..], b.hash[..], len, lenIndices, trim) <= hash[..]
    {
      hide Memcmp, XorBytes;
      XorTail(a, b, len, trim);
      var ia, ib := a.hash[..][len..len + lenIndices], b.hash[..][len..len + lenIndices];
      if Memcmp(ia, ib) < 0 {
        CopyBoth(ia, ib, len - trim);
      } else {
        CopyBoth(ib, ia, len - trim);
      }
    }

    method XorTail(a: StepRow, b: StepRow, len: nat, trim: nat)
      requires hash != a.hash && hash != b.hash
      requires trim <= len && len <= a.hash.Length && len <= b.hash.Length && len - trim <= hash.Length
      modifies hash
      ensures hash[..len - trim] == XorBytes(a.hash[..][trim..len], b.hash[..][trim..len])
    {
      for i := trim to len
        invariant forall j | 0 <= j < i - trim :: hash[j] == a.hash[j + trim] ^ b.hash[j + trim]
      {
        hash[i - trim] := a.hash[i] ^ b.hash[i];
      }
    }

    method CopyBoth(first: seq<byte>, second: seq<byte>, at: nat)
      requires at + |first| + |second| <= hash.Length
      modifies hash
      ensures old(hash[..at]) + (first + second) <= hash[..]
    {
      Copy(first, at);
      Copy(second, at + |first|);
    }

    /** std::copy into the row */
    method Copy(bytes: seq<byte>, at: nat)
      requires at + |bytes| <= hash.Length
      modifies hash
      ensures forall i | 0 <= i < hash.Length ::
                hash[i] == if at <= i < at + |bytes| then bytes[i - at] else old(hash[i])
    {
      for i := 0 to |bytes|
        invariant forall j | 0 <= j < hash.Length ::
                    hash[j] == if at <= j < at + i then bytes[j - at] else old(hash[j])
      {
        hash[at + i] := bytes[i];
      }
    }

    method IsZero(len: nat) returns (zero: bool)
      requires len <= hash.Length
      ensures zero <==> forall i | 0 <= i < len :: hash[i] == 0
    {
      for i := 0 to len
        invariant forall j | 0 <= j < i :: hash[j] == 0
      {
        if hash[i] != 0 {
          return false;
        }
      }
      return true;
    }
  }

  method DistinctIndices(a: StepRow, b: StepRow, len: nat, lenIndices: nat, ghost l: seq<word>, ghost q: seq<word>)
    returns (distinct: bool)
    requires lenIndices == 4 * |l| == 4 * |q| && len + lenIndices <= a.hash.Length && len + lenIndices <= b.hash.Length
    requires a.hash[..][len..len + lenIndices] == IndexBytes(l)
    requires b.hash[..][len..len + lenIndices] == IndexBytes(q)
    ensures distinct <==> Disjoint(l, q)
  {
    hide IndexBytes, Memcmp;
    var ia, ib := a.hash[..][len..len + lenIndices], b.hash[..][len..len + lenIndices];
    var i := 0;
    while i < lenIndices
      invariant 0 <= i <= lenIndices && i % 4 == 0
      invariant forall m, n | 0 <= m < i / 4 && 0 <= n < |q| :: l[m] != q[n]
    {
      var j := 0;
      while j < lenIndices
        invariant 0 <= j <= lenIndices && j % 4 == 0
        invariant forall n | 0 <= n < j / 4 :: l[i / 4] != q[n]
      {
        SameIndex(l, q, i / 4, j / 4);
        if Memcmp(ia[i..i + 4], ib[j..j + 4]) == 0 {
          return false;
        }
        j := j + 4;
      }
      i := i + 4;
    }
    return true;
  }

  lemma SameIndex(l: seq<word>, q: seq<word>, i: nat, j: nat)
    requires i < |l| && j < |q|
    ensures Memcmp(IndexBytes(l)[4 * i..4 * i + 4], IndexBytes(q)[4 * j..4 * j + 4]) == 0 <==> l[i] == q[j]
  {
    hide IndexBytes, Memcmp, Bytes;
    IndexBytesAt(l, i);
    IndexBytesAt(q, j);
    MemcmpEqual(Bytes(l[i]), Bytes(q[j]));
    BytesEqual(l[i], q[j]);
  }

  // ---------- the level of the tree that the rows stand for ----------

  /** The index lists of the next level: neighbours joined. */
  function Merge(leaves: seq<seq<word>>): (merged: seq<seq<word>>)
    ensures |merged| == |leaves| / 2
  {
    seq(|leaves| / 2, i requires 0 <= i < |leaves| / 2 => leaves[2 * i] + leaves[2 * i + 1])
  }

  function Root(leaves: seq<seq<word>>): seq<word>
    decreases |leaves|
  {
    if leaves == [] then [] else if |leaves| == 1 then leaves[0] else Root(Merge(leaves))
  }

  ghost predicate Nodes(digest: word -> seq<bool>, n: nat, leaves: seq<seq<word>>, r: nat)
    requires (forall w: word :: |digest(w)| == n) && 20 * r <= n
  {
    forall i | 0 <= i < |leaves| :: |leaves[i]| == Pow2(r) && Node(digest, n, leaves[i], r)
  }

  /** A valid tree has valid nodes on every level. */
  lemma MergedHalves(leaves: seq<seq<word>>, j: nat, h: nat)
    requires |leaves| % 2 == 0 && 2 * j + 1 < |leaves| && |leaves[2 * j]| == h
    ensures j < |Merge(leaves)| && |Merge(leaves)[j]| == h + |leaves[2 * j + 1]|
    ensures Merge(leaves)[j][..h] == leaves[2 * j] && Merge(leaves)[j][h..] == leaves[2 * j + 1]
  {
  }

  lemma NodeHalves(digest: word -> seq<bool>, n: nat, p: seq<word>, r: nat)
    requires (forall w: word :: |digest(w)| == n) && |p| == Pow2(r + 1) && 20 * (r + 1) <= n
    ensures Node(digest, n, p, r + 1) ==> Node(digest, n, p[..Pow2(r)], r) && Node(digest, n, p[Pow2(r)..], r)
  {
    hide XorAll, Before, Zeros, Disjoint;
  }

  lemma {:induction false} RootNodes(digest: word -> seq<bool>, n: nat, leaves: seq<seq<word>>, r: nat, m: nat)
    requires (forall w: word :: |digest(w)| == n) && 20 * (r + m) <= n
    requires |leaves| == Pow2(m) && forall i | 0 <= i < |leaves| :: |leaves[i]| == Pow2(r)
    ensures |Root(leaves)| == Pow2(r + m)
    ensures Node(digest, n, Root(leaves), r + m) ==> Nodes(digest, n, leaves, r)
    decreases m
  {
    hide XorAll, Before, Zeros, Disjoint;
    if m > 0 {
      var merged := Merge(leaves);
      RootNodes(digest, n, merged, r + 1, m - 1);
      if Node(digest, n, Root(leaves), r + m) {
        forall i | 0 <= i < |leaves|
          ensures Node(digest, n, leaves[i], r)
        {
          MergedHalves(leaves, i / 2, Pow2(r));
          NodeHalves(digest, n, merged[i / 2], r);
        }
      }
    }
  }

  function Flatten(leaves: seq<seq<word>>): seq<word>
  {
    if leaves == [] then [] else leaves[0] + Flatten(leaves[1..])
  }

  lemma {:induction false} FlattenMerge(leaves: seq<seq<word>>)
    requires |leaves| % 2 == 0
    ensures Flatten(Merge(leaves)) == Flatten(leaves)
  {
    if leaves != [] {
      var rest := leaves[2..];
      FlattenMerge(rest);
      assert Merge(leaves)[1..] == Merge(rest);
      assert leaves[1..][1..] == rest;
      assert Flatten(leaves) == leaves[0] + (leaves[1] + Flatten(rest)) == (leaves[0] + leaves[1]) + Flatten(rest);
    }
  }

  lemma {:induction false} RootFlatten(leaves: seq<seq<word>>, m: nat)
    requires |leaves| == Pow2(m)
    ensures Root(leaves) == Flatten(leaves)
    decreases m
  {
    if m > 0 {
      FlattenMerge(leaves);
      RootFlatten(Merge(leaves), m - 1);
    } else {
      assert leaves[1..] == [] && leaves[0] + [] == leaves[0];
    }
  }

  // ---------- the rounds ----------

  /** The rows of one level, each holding its node's digests and indices; all nodes so far are valid. */
  ghost predicate Level(rows: seq<StepRow>, size: nat, digest: word -> seq<bool>, k: nat, r: nat, leaves: seq<seq<word>>)
    requires forall w: word :: |digest(w)| == 20 * (k + 1)
    reads set i | 0 <= i < |rows| :: rows[i].hash
  {
    && r <= k && |rows| == |leaves| && Nodes(digest, 20 * (k + 1), leaves, r)
    && forall i | 0 <= i < |rows| :: rows[i].hash.Length == size && Row(rows[i].hash[..], digest, k, r, leaves[i])
  }

  lemma NodePrefix(digest: word -> seq<bool>, n: nat, indices: seq<word>, r: nat)
    requires (forall w: word :: |digest(w)| == n) && |indices| == Pow2(r) && 20 * r <= n
    requires Node(digest, n, indices, r)
    ensures XorAll(digest, n, indices)[..20 * r] == Zeros(20 * r)
  {
    hide XorAll;
  }

  lemma JoinedNode(digest: word -> seq<bool>, n: nat, l: seq<word>, q: seq<word>, r: nat)
    requires (forall w: word :: |digest(w)| == n) && |l| == |q| == Pow2(r) && 20 * (r + 1) <= n
    requires Node(digest, n, l, r) && Node(digest, n, q, r)
    ensures Node(digest, n, l + q, r + 1) <==>
            && XorAll(digest, n, l + q)[..20 * (r + 1)] == Zeros(20 * (r + 1))
            && !Before(q, l) && Disjoint(l, q)
  {
    hide XorAll, Before;
    assert (l + q)[..Pow2(r)] == l && (l + q)[Pow2(r)..] == q;
    BeforeTotal(l, q);
    if l == q {
      assert l[0] == q[0];
    }
  }

  /** The three tests on a pair of rows, and the row they make when all pass. */
  method CollidePair(a: StepRow, b: StepRow, row: StepRow, hashLen: nat, lenIndices: nat,
                     ghost digest: word -> seq<bool>, ghost k: nat, ghost r: nat, ghost l: seq<word>, ghost q: seq<word>)
    returns (ok: bool)
    requires forall w: word :: |digest(w)| == 20 * (k + 1)
    requires r < k && |l| == |q| == Pow2(r) && hashLen == 3 * (k + 1 - r) && lenIndices == 4 * |l|
    requires Row(a.hash[..], digest, k, r, l) && Row(b.hash[..], digest, k, r, q)
    requires Node(digest, 20 * (k + 1), l, r) && Node(digest, 20 * (k + 1), q, r)
    requires row.hash != a.hash && row.hash != b.hash && hashLen - 3 + 2 * lenIndices <= row.hash.Length
    modifies row.hash
    ensures ok <==> Node(digest, 20 * (k + 1), l + q, r + 1)
    ensures ok ==> Row(row.hash[..], digest, k, r + 1, l + q)
  {
    hide XorAll, Before, Memcmp, IndexBytes, Expanded, Disjoint, Node, Collided, Zeros;
    ghost var n := 20 * (k + 1);
    NodePrefix(digest, n, l, r);
    NodePrefix(digest, n, q, r);
    CollisionTest(a.hash[..], b.hash[..], digest, k, r, l, q);
    JoinedNode(digest, n, l, q, r);
    MemcmpIndices(q, l);
    if Memcmp(a.hash[..][..3], b.hash[..][..3]) != 0 {
      return false;
    }
    if Memcmp(b.hash[..][hashLen..hashLen + lenIndices], a.hash[..][hashLen..hashLen + lenIndices]) < 0 {
      return false;
    }
    var distinct := DistinctIndices(a, b, hashLen, lenIndices, l, q);
    if !distinct {
      return false;
    }
    BeforeTotal(l, q);
    NotDisjoint(l, q);
    row.InitCollide(a, b, hashLen, lenIndices, 3);
    CollidedRow(a.hash[..], b.hash[..], row.hash[..], digest, k, r, l, q);
    return true;
  }

  lemma NotDisjoint(l: seq<word>, q: seq<word>)
    requires l != []
    ensures l == q ==> !Disjoint(l, q)
  {
    assert l[0] == l[0];
  }

  /** One round over all pairs; it fails exactly when some node of the next level is not valid. */
  method Round(rows: seq<StepRow>, size: nat, hashLen: nat, lenIndices: nat,
               ghost digest: word -> seq<bool>, ghost k: nat, ghost r: nat, ghost leaves: seq<seq<word>>)
    returns (ok: bool, next: seq<StepRow>)
    requires forall w: word :: |digest(w)| == 20 * (k + 1)
    requires r < k && |rows| % 2 == 0 && hashLen == 3 * (k + 1 - r) && lenIndices == 4 * Pow2(r)
    requires hashLen - 3 + 2 * lenIndices <= size
    requires Level(rows, size, digest, k, r, leaves)
    ensures ok <==> Nodes(digest, 20 * (k + 1), Merge(leaves), r + 1)
    ensures ok ==> Level(next, size, digest, k, r + 1, Merge(leaves))
  {
    hide XorAll, Before, Row, Node, Disjoint;
    ghost var merged := Merge(leaves);
    next := [];
    var i := 0;
    while i < |rows|
      invariant 0 <= i <= |rows| && i == 2 * |next|
      invariant forall j | 0 <= j < |next| :: fresh(next[j].hash) && next[j].hash.Length == size
      invariant forall j | 0 <= j < |next| :: Row(next[j].hash[..], digest, k, r + 1, merged[j])
      invariant forall j | 0 <= j < |next| :: |merged[j]| == Pow2(r + 1) && Node(digest, 20 * (k + 1), merged[j], r + 1)
    {
      var row := new StepRow(size);
      ghost var l, q := leaves[i], leaves[i + 1];
      assert merged[i / 2] == l + q;
      var good := CollidePair(rows[i], rows[i + 1], row, hashLen, lenIndices, digest, k, r, l, q);
      if !good {
        return false, [];
      }
      next := next + [row];
      i := i + 2;
    }
    ok := true;
  }

  /** The loop over the rounds. */
  method VerifyRounds(leafRows: seq<StepRow>, size: nat, k: nat, ghost digest: word -> seq<bool>, ghost indices: seq<word>)
    returns (ok: bool)
    requires forall w: word :: |digest(w)| == 20 * (k + 1)
    requires |indices| == Pow2(k) && 6 + 4 * Pow2(k) <= size
    requires Level(leafRows, size, digest, k, 0, Singles(indices))
    ensures ok <==> Solution(digest, k, indices)
  {
    hide XorAll, Before, Row, Node, Disjoint, Merge;
    var rows := leafRows;
    var hashLen, lenIndices := 3 * (k + 1), 4;
    ghost var n, r, leaves := 20 * (k + 1), 0, Singles(indices);
    SinglesRoot(indices, k);
    while |rows| > 1
      invariant 0 <= r <= k && |leaves| == Pow2(k - r) && Root(leaves) == indices
      invariant hashLen == 3 * (k + 1 - r) && lenIndices == 4 * Pow2(r)
      invariant Level(rows, size, digest, k, r, leaves)
      decreases k - r
    {
      MergedLengths(leaves, r);
      RootNodes(digest, n, Merge(leaves), r + 1, k - r - 1);
      RowFits(r, k);
      var good, next := Round(rows, size, hashLen, lenIndices, digest, k, r, leaves);
      if !good {
        return false;
      }
      rows := next;
      leaves := Merge(leaves);
      r := r + 1;
      hashLen := hashLen - 3;
      lenIndices := lenIndices * 2;
    }
    ok := rows[0].IsZero(hashLen);
    NodePrefix(digest, n, indices, k);
    FinalTest(rows[0].hash[..], digest, k, indices);
  }

  lemma MergedLengths(leaves: seq<seq<word>>, r: nat)
    requires forall i | 0 <= i < |leaves| :: |leaves[i]| == Pow2(r)
    ensures forall i | 0 <= i < |Merge(leaves)| :: |Merge(leaves)[i]| == Pow2(r + 1)
  {
  }

  /** The row buffer is large enough in every round. */
  lemma RowFits(r: nat, k: nat)
    requires r < k
    ensures 3 * (k + 1 - r) - 3 + 8 * Pow2(r) <= 6 + 4 * Pow2(k)
    decreases k - r
  {
    if r + 1 < k {
      RowFits(r + 1, k);
      assert Pow2(r) >= 1;
    }
  }

  function Singles(indices: seq<word>): (leaves: seq<seq<word>>)
    ensures |leaves| == |indices|
  {
    seq(|indices|, i requires 0 <= i < |indices| => [indices[i]])
  }

  lemma {:induction false} SinglesFlatten(indices: seq<word>)
    ensures Flatten(Singles(indices)) == indices
  {
    if indices != [] {
      SinglesFlatten(indices[1..]);
      assert Singles(indices)[1..] == Singles(indices[1..]);
    }
  }

  lemma SinglesRoot(indices: seq<word>, k: nat)
    requires |indices| == Pow2(k)
    ensures Root(Singles(indices)) == indices
  {
    RootFlatten(Singles(indices), k);
    SinglesFlatten(indices);
  }

  // ---------- the (200, 9) instance ----------

  type Blake = seq<byte> -> seq<byte>

  /** A 32-bit integer as the bytes that a little-endian store writes. */
  function LeBytes(x: word): seq<byte>
  {
    var b := Bytes(x);
    [b[3], b[2], b[1], b[0]]
  }

  /** The 25 bytes that belong to an index: every 50-byte output of BLAKE2b serves two indices. */
  function HalfOutput(blake: Blake, header: seq<byte>, index: word): (half: seq<byte>)
    requires forall m: seq<byte> :: |blake(m)| == 50
    ensures |half| == 25
  {
    var offset := if index[31] then 25 else 0;
    blake(header + LeBytes(ShiftRight(index, 1)))[offset..offset + 25]
  }

  function Digest(blake: Blake, header: seq<byte>): (digest: word -> seq<bool>)
    requires forall m: seq<byte> :: |blake(m)| == 50
    ensures forall w: word :: |digest(w)| == 200
  {
    (w: word) => Bits(HalfOutput(blake, header, w))
  }

  /** The number four little-endian bytes stand for */
  function LittleEndianNumber(r: seq<byte>): (v: nat)
    requires |r| == 4
  {
    ByteValue(r[0]) + 256 * ByteValue(r[1]) + 0x1_0000 * ByteValue(r[2]) + 0x100_0000 * ByteValue(r[3])
  }

  /** The two indices of a pair take the first and the second half of one output, for half their number stored little-endian. */
  lemma PairOfDigests(blake: Blake, header: seq<byte>, even: word, odd: word, r: seq<byte>)
    requires forall m: seq<byte> :: |blake(m)| == 50
    requires |r| == 4 && NumberOf(even) == 2 * LittleEndianNumber(r) && NumberOf(odd) == 2 * LittleEndianNumber(r) + 1
    ensures Digest(blake, header)(even) + Digest(blake, header)(odd) == Bits(blake(header + r))
  {
    hide LeBytes, ShiftRight, Bits, NumberOf;
    LastBit(even);
    LastBit(odd);
    NumberInjective(even[..31], odd[..31]);
    HalfIndex(even, r);
    HalfIndex(odd, r);
    var out := blake(header + r);
    assert out == out[..25] + out[25..] && out[0..25] == out[..25] && out[25..25 + 25] == out[25..];
    BitsConcat(out[..25], out[25..]);
  }

  lemma LastBit(x: word)
    ensures NumberOf(x) == 2 * NumberOf(x[..31]) + Bit(x[31])
  {
  }

  lemma HalfIndex(index: word, r: seq<byte>)
    requires |r| == 4 && NumberOf(index[..31]) == LittleEndianNumber(r)
    ensures LeBytes(ShiftRight(index, 1)) == r
  {
    hide Bits, Bytes, NumberOf, Zeros, LittleEndianNumber;
    var x := ShiftRight(index, 1);
    LeadingZero(index[..31]);
    assert x == Zeros(1) + index[..31];
    BitsOfBytes(x);
    Backwards(Bytes(x), r);
  }

  lemma Backwards(b: seq<byte>, r: seq<byte>)
    requires |b| == |r| == 4 && NumberOf(Bits(b)) == LittleEndianNumber(r)
    ensures [b[3], b[2], b[1], b[0]] == r
  {
    hide Bits, NumberOf, ByteValue;
    FourBytes(b);
    FourDigits(ByteValue(b[3]), ByteValue(b[2]), ByteValue(b[1]), ByteValue(b[0]),
               ByteValue(r[0]), ByteValue(r[1]), ByteValue(r[2]), ByteValue(r[3]));
    SameByte(b[3], r[0]);
    SameByte(b[2], r[1]);
    SameByte(b[1], r[2]);
    SameByte(b[0], r[3]);
  }

  lemma FourDigits(a: nat, b: nat, c: nat, d: nat, p: nat, q: nat, r: nat, s: nat)
    requires a < 256 && b < 256 && c < 256 && d < 256 && p < 256 && q < 256 && r < 256 && s < 256
    requires a + 256 * b + 0x1_0000 * c + 0x100_0000 * d == p + 256 * q + 0x1_0000 * r + 0x100_0000 * s
    ensures a == p && b == q && c == r && d == s
  {
    LowDigit(a, b + 256 * c + 0x1_0000 * d, p, q + 256 * r + 0x1_0000 * s);
    LowDigit(b, c + 256 * d, q, r + 256 * s);
    LowDigit(c, d, r, s);
  }

  lemma LowDigit(a: nat, x: nat, p: nat, y: nat)
    requires a < 256 && p < 256 && a + 256 * x == p + 256 * y
    ensures a == p && x == y
  {
  }

  lemma LeadingZero(x: seq<bool>)
    ensures NumberOf(Zeros(1) + x) == NumberOf(x)
  {
    hide NumberOf;
    assert Zeros(1) == [false];
    NumberConcat([false], x);
    OneBit(false);
  }

  lemma {:induction false} BitsConcat(a: seq<byte>, b: seq<byte>)
    ensures Bits(a + b) == Bits(a) + Bits(b)
  {
    hide BitsOf, Bits;
    if b == [] {
      NoBits();
      assert a + b == a;
    } else {
      var c, d := b[..|b| - 1], b[|b| - 1];
      assert b == c + [d];
      BitsConcat(a, c);
      BitsSnoc(c, d);
      BitsSnoc(a + c, d);
      BytesRegroup(a, c, [d]);
      BitsRegroup(Bits(a), Bits(c), BitsOf(d));
    }
  }

  lemma NoBits()
    ensures Bits([]) == []
  {
  }

  lemma BytesRegroup(a: seq<byte>, c: seq<byte>, d: seq<byte>)
    ensures a + c + d == a + (c + d)
  {
  }

  lemma BitsRegroup(a: seq<bool>, c: seq<bool>, d: seq<bool>)
    ensures a + c + d == a + (c + d)
  {
  }

  /** Accepts exactly the 1344-byte solutions whose 512 indices solve the instance of the header. */
  method Verify2009(blake: Blake, header: seq<byte>, soln: seq<byte>) returns (ok: bool)
    requires forall m: seq<byte> :: |blake(m)| == 50
    ensures ok <==>
            |soln| == 1344 && |Indices(soln, 21)| == Pow2(9) && Solution(Digest(blake, header), 9, Indices(soln, 21))
    ensures ok ==> |Indices(soln, 21)| == 512 && AllDistinct(Indices(soln, 21))
  {
    hide Solution, Bits, Indices, Row, Node, XorAll, HalfOutput, AllDistinct, Expanded, Pow2, Before, Disjoint;
    if |soln| != 1344 {
      return false;
    }
    var indices := GetIndicesFromMinimal(soln, 20);
    if |indices| != 512 {
      IndexCount(soln);
      return false;
    }
    Pow2Of9();
    var rows: seq<StepRow> := [];
    ghost var digest := Digest(blake, header);
    for i := 0 to |indices|
      invariant |rows| == i && forall j | 0 <= j < i :: fresh(rows[j].hash) && rows[j].hash.Length == 2054
      invariant forall j | 0 <= j < i :: Row(rows[j].hash[..], digest, 9, 0, [indices[j]])
    {
      var row := new StepRow(2054);
      var half := HalfOutput(blake, header, indices[i]);
      row.Init(half, 30, 20, indices[i]);
      LeafRow(row.hash[..], digest, indices[i], half);
      rows := rows + [row];
    }
    LeafNodes(digest, indices);
    ok := VerifyRounds(rows, 2054, 9, digest, indices);
    SolutionDistinct(digest, 9, indices);
  }

  ghost predicate AllDistinct(indices: seq<word>)
  {
    forall i, j | 0 <= i < j < |indices| :: indices[i] != indices[j]
  }

  /** No index occurs twice in a solution. */
  lemma SolutionDistinct(digest: word -> seq<bool>, k: nat, indices: seq<word>)
    requires (forall w: word :: |digest(w)| == 20 * (k + 1)) && |indices| == Pow2(k)
    ensures Solution(digest, k, indices) ==> AllDistinct(indices)
  {
    hide Node, XorAll;
    if Solution(digest, k, indices) {
      NodeDistinct(digest, 20 * (k + 1), indices, k);
    }
  }

  lemma Pow2Of9()
    ensures Pow2(9) == 512
  {
    assert Pow2(5) == 32;
  }

  lemma IndexCount(soln: seq<byte>)
    requires |soln| == 1344
    ensures |Indices(soln, 21)| == 512
  {
    hide Groups, Bits, Widen;
    GroupCount(Bits(soln), 21);
  }

  lemma LeafRow(row: seq<byte>, digest: word -> seq<bool>, index: word, half: seq<byte>)
    requires forall w: word :: |digest(w)| == 200
    requires |half| == 25 && digest(index) == Bits(half)
    requires |Spread(Groups(Bits(half), 20), 3)| == 30 ==> Spread(Groups(Bits(half), 20), 3) + Bytes(index) <= row
    ensures Row(row, digest, 9, 0, [index])
  {
    SingleXor(digest, index);
    ExpandedLength(Bits(half));
    hide Spread, Groups, XorAll, Bits, Bytes;
    RowParts(row, Expanded(digest(index)), Bytes(index));
    assert [index][1..] == [] && Bytes(index) + [] == Bytes(index);
  }

  lemma SingleXor(digest: word -> seq<bool>, index: word)
    requires forall w: word :: |digest(w)| == 200
    ensures XorAll(digest, 200, [index]) == digest(index)
  {
    assert [index][1..] == [];
  }

  lemma LeafNodes(digest: word -> seq<bool>, indices: seq<word>)
    requires forall w: word :: |digest(w)| == 200
    ensures Nodes(digest, 200, Singles(indices), 0)
  {
    hide XorAll;
  }
}
