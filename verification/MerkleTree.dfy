/** Merkle trees with odd levels completed by their last node, over any way of joining two nodes. */
module MerkleTree {
  import opened Numerals

  // ---------- the tree ----------

  /** One level with its last node repeated when their number is odd. */
  function Evened<T>(level: seq<T>): (e: seq<T>)
    requires level != []
    ensures |e| % 2 == 0 && |level| <= |e| <= |level| + 1
  {
    if |level| % 2 != 0 then level + [level[|level| - 1]] else level
  }

  function Paired<T>(level: seq<T>, join: (T, T) -> T): (next: seq<T>)
    requires |level| % 2 == 0
    ensures 2 * |next| == |level|
  {
    seq(|level| / 2, i requires 0 <= i < |level| / 2 => join(level[2 * i], level[2 * i + 1]))
  }

  /** The root of the full tree over the leaves. */
  function Root<T>(level: seq<T>, join: (T, T) -> T): T
    requires level != []
    decreases |level|
  {
    if |level| == 1 then level[0] else Root(Paired(Evened(level), join), join)
  }

  /** The siblings of slot 0, from the leaves up. */
  function Branch<T>(level: seq<T>, join: (T, T) -> T): (branch: seq<T>)
    requires level != []
    decreases |level|
  {
    if |level| == 1 then []
    else [Evened(level)[1]] + Branch(Paired(Evened(level), join), join)
  }

  function Fold<T>(cur: T, branch: seq<T>, join: (T, T) -> T): T
    decreases |branch|
  {
    if branch == [] then cur else Fold(join(cur, branch[0]), branch[1..], join)
  }

  /** Combining slot 0 with its siblings gives the root. */
  lemma {:induction false} FoldReachesRoot<T>(level: seq<T>, join: (T, T) -> T)
    requires level != []
    ensures Fold(level[0], Branch(level, join), join) == Root(level, join)
    decreases |level|
  {
    if |level| > 1 {
      var next := Paired(Evened(level), join);
      assert next[0] == join(level[0], Evened(level)[1]);
      hide Evened, Paired;
      FoldReachesRoot(next, join);
      FoldStep(level[0], Evened(level)[1], Branch(next, join), join);
    }
  }

  lemma FoldStep<T>(cur: T, sibling: T, rest: seq<T>, join: (T, T) -> T)
    ensures Fold(cur, [sibling] + rest, join) == Fold(join(cur, sibling), rest, join)
  {
    assert ([sibling] + rest)[1..] == rest;
  }

  /** No sibling of slot 0 depends on what is in slot 0. */
  lemma {:induction false} BranchIgnoresSlotZero<T>(level: seq<T>, other: T, join: (T, T) -> T)
    requires level != []
    ensures Branch(level[0 := other], join) == Branch(level, join)
    decreases |level|
  {
    if |level| > 1 {
      var e := Evened(level);
      assert Evened(level[0 := other]) == e[0 := other];
      var p := join(other, e[1]);
      assert Paired(e[0 := other], join) == Paired(e, join)[0 := p];
      BranchIgnoresSlotZero(Paired(e, join), p, join);
    }
  }

  /** A branch over n leaves has ceil(log2(n)) siblings. */
  lemma {:induction false} BranchLength<T>(level: seq<T>, join: (T, T) -> T)
    requires level != []
    ensures var k := |Branch(level, join)|; |level| <= Power(2, k) && (k > 0 ==> Power(2, k - 1) < |level|)
    decreases |level|
  {
    if |level| > 1 {
      var next := Paired(Evened(level), join);
      var k := |Branch(next, join)|;
      BranchLength(next, join);
      assert |Branch(level, join)| == k + 1;
      hide Evened, Paired, Branch;
      Doubles(k);
    }
  }

  lemma Doubles(k: nat)
    ensures Power(2, k + 1) == 2 * Power(2, k) && Power(2, 0) == 1
    ensures k > 0 ==> Power(2, k) == 2 * Power(2, k - 1)
  {
  }

  lemma {:induction false} FoldSnoc<T>(cur: T, branch: seq<T>, sibling: T, join: (T, T) -> T)
    ensures Fold(cur, branch + [sibling], join) == join(Fold(cur, branch, join), sibling)
    decreases |branch|
  {
    if branch == [] {
      assert [sibling][1..] == [];
    } else {
      FoldSnoc(join(cur, branch[0]), branch[1..], sibling, join);
      assert (branch + [sibling])[1..] == branch[1..] + [sibling];
    }
  }

  /** Two leaves with the same root under one branch exhibit two different pairs that join to the same node. */
  lemma {:induction false} SameRootCollides<T>(a: T, b: T, branch: seq<T>, join: (T, T) -> T) returns (x: T, y: T, sibling: T)
    requires a != b && Fold(a, branch, join) == Fold(b, branch, join)
    ensures x != y && join(x, sibling) == join(y, sibling)
    decreases |branch|
  {
    if branch != [] {
      x, y, sibling := a, b, branch[0];
      if join(a, sibling) != join(b, sibling) {
        x, y, sibling := SameRootCollides(join(a, sibling), join(b, sibling), branch[1..], join);
      }
    }
  }
}
