/** merkle.cpp: a branch computed without the coinbase still proves the root of the full tree. */
module Merkle {
  import opened Hashing
  import opened Hex
  import opened LittleEndian
  import opened MerkleTree

  datatype Error = Malformed | BadLength
  datatype Result<T> = Ok(value: T) | Err(error: Error)

  // ---------- hex text ----------

  function AsHash(b: seq<octet>): hash
    requires |b| == 32
  {
    b
  }

  function ParseHash(s: string): (r: Result<hash>)
  {
    if !HexDecoded(s).Bytes? then Err(Malformed)
    else if |HexDecoded(s).bytes| != 32 then Err(BadLength)
    else Ok(AsHash(HexDecoded(s).bytes))
  }

  /** All the hashes, or the first error. */
  function ParseAll(texts: seq<string>): (r: Result<seq<hash>>)
    ensures r.Ok? ==> |r.value| == |texts|
  {
    if texts == [] then Ok([])
    else Appended(ParseAll(texts[..|texts| - 1]), ParseHash(texts[|texts| - 1]))
  }

  function Appended(init: Result<seq<hash>>, last: Result<hash>): (r: Result<seq<hash>>)
  {
    if init.Err? then init else if last.Err? then Err(last.error) else Ok(init.value + [last.value])
  }

  function HexAll(hashes: seq<hash>): (texts: seq<string>)
    ensures |texts| == |hashes|
  {
    seq(|hashes|, i requires 0 <= i < |hashes| => HexOf(hashes[i]))
  }

  function HexOf(h: hash): (s: string)
    ensures |s| == 64
  {
    ToHex(h)
  }

  lemma ParseHexOf(h: hash)
    ensures ParseHash(HexOf(h)) == Ok(h)
  {
    HexRoundTrip(h);
  }

  lemma {:induction false} ParseHexAll(hashes: seq<hash>)
    ensures ParseAll(HexAll(hashes)) == Ok(hashes)
  {
    hide HexOf, ParseHash;
    if hashes != [] {
      var m := |hashes| - 1;
      ParseHexAll(hashes[..m]);
      ParseHexOf(hashes[m]);
      assert HexAll(hashes)[..m] == HexAll(hashes[..m]);
      assert hashes == hashes[..m] + [hashes[m]];
    }
  }

  lemma {:induction false} ParseStops(texts: seq<string>, i: nat)
    requires i < |texts|
    ensures ParseAll(texts[..i]).Ok? && ParseHash(texts[i]).Err? ==> ParseAll(texts) == Err(ParseHash(texts[i]).error)
    decreases |texts|
  {
    hide ParseHash;
    var m := |texts| - 1;
    if i < m {
      ParseStops(texts[..m], i);
      assert texts[..m][..i] == texts[..i];
    }
  }

  lemma ParseSnoc(texts: seq<string>, i: nat)
    requires i < |texts| && ParseAll(texts[..i]).Ok? && ParseHash(texts[i]).Ok?
    ensures ParseAll(texts[..i + 1]) == Ok(ParseAll(texts[..i]).value + [ParseHash(texts[i]).value])
  {
    hide ParseHash;
    assert texts[..i + 1][..i] == texts[..i];
  }

  method ReadHash(s: string) returns (r: Result<hash>)
    ensures r == ParseHash(s)
  {
    hide HexDecoded;
    var b := FromHex(s);
    if !b.Bytes? {
      return Err(Malformed);
    }
    if |b.bytes| != 32 {
      return Err(BadLength);
    }
    return Ok(AsHash(b.bytes));
  }

  // ---------- build_branch_le_hex ----------

  const PLACEHOLDER: hash := ZeroBytes(32)

  function BranchHex(txids: seq<string>, sha256d: seq<octet> -> hash): (r: Result<seq<string>>)
  {
    if ParseAll(txids).Err? then Err(ParseAll(txids).error)
    else Ok(HexAll(Branch([PLACEHOLDER] + ParseAll(txids).value, Combiner(sha256d))))
  }

  /** The placeholder followed by the transaction ids. */
  method ReadLevel(txids: seq<string>) returns (r: Result<seq<hash>>)
    ensures r.Ok? == ParseAll(txids).Ok?
    ensures r == if ParseAll(txids).Ok? then Ok([PLACEHOLDER] + ParseAll(txids).value) else ParseAll(txids)
  {
    hide ParseHash;
    var level := [PLACEHOLDER];
    assert ParseAll(txids[..0]) == Ok([]);
    for i := 0 to |txids|
      invariant ParseAll(txids[..i]).Ok? && level == [PLACEHOLDER] + ParseAll(txids[..i]).value
    {
      var h := ReadHash(txids[i]);
      ParseStops(txids, i);
      if h.Err? {
        return Err(h.error);
      }
      ParseSnoc(txids, i);
      level := level + [h.value];
    }
    assert txids[..|txids|] == txids;
    r := Ok(level);
  }

  method NextLevel(level: seq<hash>, sha256d: seq<octet> -> hash) returns (next: seq<hash>)
    requires |level| % 2 == 0
    ensures next == Paired(level, Combiner(sha256d))
  {
    hide Combine;
    next := [];
    var i := 0;
    while i < |level|
      invariant 0 <= i <= |level| && i == 2 * |next|
      invariant next == Paired(level, Combiner(sha256d))[..|next|]
    {
      next := next + [Combine(level[i], level[i + 1], sha256d)];
      i := i + 2;
    }
  }

  method BuildBranch(txids: seq<string>, sha256d: seq<octet> -> hash) returns (r: Result<seq<string>>)
    ensures r == BranchHex(txids, sha256d)
  {
    hide ParseAll, Paired, HexOf, Branch;
    var start := ReadLevel(txids);
    if start.Err? {
      return Err(start.error);
    }
    var level, branch := start.value, [];
    ghost var done: seq<hash> := [];
    while |level| > 1
      invariant level != [] && Branch(start.value, Combiner(sha256d)) == done + Branch(level, Combiner(sha256d)) && branch == HexAll(done)
    {
      BranchUnfolds(level, sha256d);
      if |level| % 2 != 0 {
        level := level + [level[|level| - 1]];
      }
      branch := branch + [HexOf(level[1])];
      done := done + [level[1]];
      level := NextLevel(level, sha256d);
    }
    BranchUnfolds(level, sha256d);
    assert done + [] == done;
    r := Ok(branch);
  }

  lemma BranchUnfolds(level: seq<hash>, sha256d: seq<octet> -> hash)
    requires level != []
    ensures Branch(level, Combiner(sha256d))
         == if |level| == 1 then [] else [Evened(level)[1]] + Branch(Paired(Evened(level), Combiner(sha256d)), Combiner(sha256d))
  {
    hide Paired;
  }

  // ---------- compute_root_le_hex ----------

  function RootHex(coinbase: string, branch: seq<string>, sha256d: seq<octet> -> hash): (r: Result<string>)
  {
    if ParseHash(coinbase).Err? then Err(ParseHash(coinbase).error)
    else if ParseAll(branch).Err? then Err(ParseAll(branch).error)
    else Ok(HexOf(Fold(ParseHash(coinbase).value, ParseAll(branch).value, Combiner(sha256d))))
  }

  method ComputeRoot(coinbase: string, branch: seq<string>, sha256d: seq<octet> -> hash) returns (r: Result<string>)
    ensures r == RootHex(coinbase, branch, sha256d)
  {
    hide ParseHash, HexOf, Combine;
    var start := ReadHash(coinbase);
    if start.Err? {
      return Err(start.error);
    }
    var cur := start.value;
    assert ParseAll(branch[..0]) == Ok([]) && Fold(cur, [], Combiner(sha256d)) == cur;
    for i := 0 to |branch|
      invariant ParseAll(branch[..i]).Ok? && cur == Fold(start.value, ParseAll(branch[..i]).value, Combiner(sha256d))
    {
      var sibling := ReadHash(branch[i]);
      ParseStops(branch, i);
      if sibling.Err? {
        return Err(sibling.error);
      }
      ParseSnoc(branch, i);
      FoldSnoc(start.value, ParseAll(branch[..i]).value, sibling.value, Combiner(sha256d));
      cur := Combine(cur, sibling.value, sha256d);
    }
    assert branch[..|branch|] == branch;
    r := Ok(HexOf(cur));
  }

  /** Trees of one, two and three leaves, and one step along a branch: the coinbase and every left node come first. */
  lemma SmallTrees(coinbase: hash, a: hash, b: hash, sha256d: seq<octet> -> hash)
    ensures var join := Combiner(sha256d);
      var pair: seq<octet>, twice: seq<octet> := coinbase + a, b + b;
      var top: seq<octet> := sha256d(pair) + sha256d(twice);
      && Root([coinbase], join) == coinbase && Root([coinbase, a], join) == sha256d(pair)
      && Root([coinbase, a, b], join) == sha256d(top) && Fold(coinbase, [a], join) == sha256d(pair)
  {
    var join := Combiner(sha256d);
    TwoLeaves(coinbase, a, join);
    TwoLeaves(join(coinbase, a), join(b, b), join);
    assert Evened([coinbase, a, b]) == [coinbase, a, b, b];
    assert Paired([coinbase, a, b, b], join) == [join(coinbase, a), join(b, b)];
    assert [a][1..] == [] && Fold(join(coinbase, a), [], join) == join(coinbase, a);
  }

  lemma TwoLeaves(a: hash, b: hash, join: (hash, hash) -> hash)
    ensures Root([a, b], join) == join(a, b)
  {
    assert Evened([a, b]) == [a, b] && Paired([a, b], join) == [join(a, b)];
    assert Root([join(a, b)], join) == join(a, b);
  }

  /** A branch built from the transaction ids alone takes any coinbase id to the root of the full tree. */
  lemma BranchProvesRoot(coinbase: string, txids: seq<string>, sha256d: seq<octet> -> hash)
    requires ParseHash(coinbase).Ok? && ParseAll(txids).Ok?
    ensures BranchHex(txids, sha256d).Ok?
    ensures RootHex(coinbase, BranchHex(txids, sha256d).value, sha256d)
         == Ok(HexOf(Root([ParseHash(coinbase).value] + ParseAll(txids).value, Combiner(sha256d))))
  {
    hide ParseHash, ParseAll, HexAll, HexOf, Fold, Branch, Root;
    var leaves, c := ParseAll(txids).value, ParseHash(coinbase).value;
    var level := [PLACEHOLDER] + leaves;
    assert level[0 := c] == [c] + leaves;
    BranchIgnoresSlotZero(level, c, Combiner(sha256d));
    FoldReachesRoot([c] + leaves, Combiner(sha256d));
    ParseHexAll(Branch(level, Combiner(sha256d)));
  }
}
