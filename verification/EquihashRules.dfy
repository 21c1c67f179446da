/** The rules a solution is checked by, each stated for every block of indices on its own, are the recursive definition. */
module EquihashRules {
  import opened BitStrings
  import opened BitGroups
  import opened BitUnpacking
  import opened Equihash
  import opened EquihashVerifier
  import opened WordNumbers

  /** The 2^s indices from p on cancel on 20*s bits, and the number that leads their first half is below that of the second. */
  ghost predicate Binds(digest: word -> seq<bool>, n: nat, indices: seq<word>, s: nat, p: nat)
    requires (forall w: word :: |digest(w)| == n) && s > 0 && 20 * s <= n && p + Pow2(s) <= |indices|
  {
    var block := indices[p..p + Pow2(s)];
    && XorAll(digest, n, block)[..20 * s] == Zeros(20 * s)
    && NumberOf(block[0]) < NumberOf(block[Pow2(s - 1)])
  }

  /** Every aligned block of every size binds. */
  ghost predicate AllBind(digest: word -> seq<bool>, n: nat, indices: seq<word>, r: nat)
    requires (forall w: word :: |digest(w)| == n) && 20 * r <= n
  {
    forall s: nat, p: nat | 0 < s <= r && p + Pow2(s) <= |indices| && p % Pow2(s) == 0 :: Binds(digest, n, indices, s, p)
  }

  // ---------- aligned blocks and halves ----------

  lemma {:induction false} HalfIsAligned(s: nat, h: nat) returns (q: nat)
    requires s <= h
    ensures Pow2(h) == q * Pow2(s)
  {
    if s == h {
      q := 1;
    } else {
      var t := HalfIsAligned(s, h - 1);
      q := 2 * t;
      Twice(t, Pow2(s));
    }
  }

  lemma Twice(t: nat, m: nat)
    ensures 2 * (t * m) == 2 * t * m
  {
  }

  lemma ProductMod(q: nat, m: nat)
    requires m > 0
    ensures (q * m) % m == 0
  {
    var r := (q * m) % m;
    var d := (q * m) / m;
    Difference(q, d, m, r);
  }

  lemma Difference(q: nat, d: int, m: nat, r: nat)
    requires m > 0 && q * m == d * m + r && r < m
    ensures r == 0
  {
    assert (q - d) * m == r;
    if q - d >= 1 {
      AtLeast(q - d, m);
    } else if q - d <= -1 {
      AtLeast(d - q, m);
    }
  }

  lemma AtLeast(k: int, m: nat)
    requires k >= 1
    ensures k * m >= m
  {
  }

  lemma Multiple(p: nat, m: nat) returns (a: nat)
    requires m > 0 && p % m == 0
    ensures p == a * m
  {
    a := p / m;
  }

  lemma Distribute(a: int, b: int, m: nat)
    ensures (a + b) * m == a * m + b * m && (a - b) * m == a * m - b * m
  {
  }

  /** An aligned block of at most half the size lies in one half, where it is aligned too. */
  lemma InOneHalf(p: nat, s: nat, h: nat)
    requires s <= h && p % Pow2(s) == 0
    ensures p < Pow2(h) ==> p + Pow2(s) <= Pow2(h)
    ensures p >= Pow2(h) ==> (p - Pow2(h)) % Pow2(s) == 0
    ensures (p + Pow2(h)) % Pow2(s) == 0
  {
    hide Pow2;
    var m := Pow2(s);
    var a := Multiple(p, m);
    var b := HalfIsAligned(s, h);
    Distribute(b, a, m);
    Distribute(a, b, m);
    ProductMod(a + b, m);
    if p < Pow2(h) {
      Fewer(a, b, m);
    } else {
      NotFewer(a, b, m);
      ProductMod(a - b, m);
    }
  }

  lemma Fewer(a: nat, b: nat, m: nat)
    requires a * m < b * m
    ensures a * m + m <= b * m
  {
    if a >= b {
      AtLeastProduct(a, b, m);
    } else {
      AtLeastProduct(b, a + 1, m);
      Distribute(a, 1, m);
    }
  }

  lemma NotFewer(a: nat, b: nat, m: nat)
    requires m > 0 && a * m >= b * m
    ensures a >= b
  {
    if a < b {
      AtLeastProduct(b, a + 1, m);
      Distribute(a, 1, m);
    }
  }

  lemma AtLeastProduct(a: nat, b: nat, m: nat)
    requires a >= b
    ensures a * m >= b * m
  {
    Distribute(b, a - b, m);
    assert (a - b) * m >= 0;
  }

  // ---------- the rules are the definition ----------

  lemma BindsInPart(digest: word -> seq<bool>, n: nat, indices: seq<word>, part: seq<word>, at: nat, s: nat, p: nat)
    requires (forall w: word :: |digest(w)| == n) && s > 0 && 20 * s <= n && p + Pow2(s) <= |part|
    requires at + |part| <= |indices| && part == indices[at..at + |part|]
    ensures Binds(digest, n, part, s, p) <==> Binds(digest, n, indices, s, at + p)
  {
    hide XorAll, NumberOf, Pow2;
    SliceOfSlice(indices, at, |part|, p, Pow2(s));
  }

  lemma SliceOfSlice(indices: seq<word>, at: nat, size: nat, p: nat, m: nat)
    requires at + size <= |indices| && p + m <= size
    ensures indices[at..at + size][p..p + m] == indices[at + p..at + p + m]
  {
    var whole := indices[at..at + size];
    var x, y := whole[p..p + m], indices[at + p..at + p + m];
    assert |x| == |y|;
    forall i | 0 <= i < m
      ensures x[i] == y[i]
    {
      assert x[i] == whole[p + i] && y[i] == indices[at + p + i];
    }
  }

  lemma HalvesBind(digest: word -> seq<bool>, n: nat, indices: seq<word>, r: nat)
    requires (forall w: word :: |digest(w)| == n) && |indices| == Pow2(r) && r > 0 && 20 * r <= n
    ensures var h := Pow2(r - 1);
      AllBind(digest, n, indices, r) <==>
        AllBind(digest, n, indices[..h], r - 1) && AllBind(digest, n, indices[h..], r - 1) && Binds(digest, n, indices, r, 0)
  {
    hide Binds, Pow2;
    DoublePow2(r - 1);
    var h := Pow2(r - 1);
    if AllBind(digest, n, indices, r) {
      HalvesFollow(digest, n, indices, r, h);
    }
    if AllBind(digest, n, indices[..h], r - 1) && AllBind(digest, n, indices[h..], r - 1) && Binds(digest, n, indices, r, 0) {
      WholeFollows(digest, n, indices, r, h);
    }
  }

  lemma DoublePow2(r: nat)
    ensures Pow2(r + 1) == 2 * Pow2(r)
  {
  }

  lemma HalvesFollow(digest: word -> seq<bool>, n: nat, indices: seq<word>, r: nat, h: nat)
    requires (forall w: word :: |digest(w)| == n) && r > 0 && h == Pow2(r - 1) && |indices| == 2 * h == Pow2(r) && 20 * r <= n
    requires AllBind(digest, n, indices, r)
    ensures AllBind(digest, n, indices[..h], r - 1) && AllBind(digest, n, indices[h..], r - 1) && Binds(digest, n, indices, r, 0)
  {
    hide Binds, Pow2;
    forall s: nat, p: nat | 0 < s <= r - 1 && p + Pow2(s) <= h && p % Pow2(s) == 0
      ensures Binds(digest, n, indices[..h], s, p) && Binds(digest, n, indices[h..], s, p)
    {
      InOneHalf(p, s, r - 1);
      BindsInPart(digest, n, indices, indices[..h], 0, s, p);
      BindsInPart(digest, n, indices, indices[h..], h, s, p);
      assert Binds(digest, n, indices, s, 0 + p) && Binds(digest, n, indices, s, h + p);
    }
  }

  lemma WholeFollows(digest: word -> seq<bool>, n: nat, indices: seq<word>, r: nat, h: nat)
    requires (forall w: word :: |digest(w)| == n) && r > 0 && h == Pow2(r - 1) && |indices| == 2 * h == Pow2(r) && 20 * r <= n
    requires AllBind(digest, n, indices[..h], r - 1) && AllBind(digest, n, indices[h..], r - 1) && Binds(digest, n, indices, r, 0)
    ensures AllBind(digest, n, indices, r)
  {
    hide Binds, Pow2;
    forall s: nat, p: nat | 0 < s <= r && p + Pow2(s) <= |indices| && p % Pow2(s) == 0
      ensures Binds(digest, n, indices, s, p)
    {
      if s == r {
        assert p == 0;
      } else {
        InOneHalf(p, s, r - 1);
        if p < h {
          BindsInPart(digest, n, indices, indices[..h], 0, s, p);
        } else {
          BindsInPart(digest, n, indices, indices[h..], h, s, p - h);
        }
      }
    }
  }

  lemma HalvesDistinct(indices: seq<word>, h: nat)
    requires h <= |indices|
    ensures AllDistinct(indices) <==> AllDistinct(indices[..h]) && AllDistinct(indices[h..]) && Disjoint(indices[..h], indices[h..])
  {
    var a, b := indices[..h], indices[h..];
    assert forall i | 0 <= i < h :: a[i] == indices[i];
    assert forall i | 0 <= i < |b| :: b[i] == indices[h + i];
    if AllDistinct(a) && AllDistinct(b) && Disjoint(a, b) {
      forall i, j | 0 <= i < j < |indices|
        ensures indices[i] != indices[j]
      {
        if j < h {
          assert a[i] != a[j];
        } else if i >= h {
          assert b[i - h] != b[j - h];
        } else {
          assert a[i] != b[j - h];
        }
      }
    }
  }

  /** Among distinct indices the order of two lists is the numeric order of their first members. */
  lemma FirstDecides(a: seq<word>, b: seq<word>)
    requires |a| == |b| > 0 && Disjoint(a, b)
    ensures Before(a, b) <==> NumberOf(a[0]) < NumberOf(b[0])
  {
    hide NumberOf;
    assert a[0] != b[0];
    LessIsNumeric(a[0], b[0]);
  }

  lemma {:induction false} NodeIs(digest: word -> seq<bool>, n: nat, indices: seq<word>, r: nat)
    requires (forall w: word :: |digest(w)| == n) && |indices| == Pow2(r) && 20 * r <= n
    ensures Node(digest, n, indices, r) <==> AllDistinct(indices) && AllBind(digest, n, indices, r)
  {
    hide XorAll, Before, NumberOf, AllDistinct, AllBind, Disjoint;
    if r == 0 {
      OneIsDistinct(digest, n, indices);
    } else {
      var h := Pow2(r - 1);
      NodeIs(digest, n, indices[..h], r - 1);
      NodeIs(digest, n, indices[h..], r - 1);
      HalvesBind(digest, n, indices, r);
      HalvesDistinct(indices, h);
      if Disjoint(indices[..h], indices[h..]) {
        FirstDecides(indices[..h], indices[h..]);
      }
      assert indices[0..0 + Pow2(r)] == indices;
    }
  }

  lemma OneIsDistinct(digest: word -> seq<bool>, n: nat, indices: seq<word>)
    requires (forall w: word :: |digest(w)| == n) && |indices| == 1
    ensures AllDistinct(indices) && AllBind(digest, n, indices, 0)
  {
  }

  /** A solution: distinct indices, digests that cancel on every bit, and every aligned block of 2^s indices binds. */
  lemma SolutionIs(digest: word -> seq<bool>, k: nat, indices: seq<word>)
    requires (forall w: word :: |digest(w)| == 20 * (k + 1)) && |indices| == Pow2(k)
    ensures var n := 20 * (k + 1);
      Solution(digest, k, indices)
      <==> && XorAll(digest, n, indices) == Zeros(n)
           && (forall i, j | 0 <= i < j < |indices| :: indices[i] != indices[j])
           && forall s: nat, p: nat | 0 < s <= k && p + Pow2(s) <= |indices| && p % Pow2(s) == 0 :: Binds(digest, n, indices, s, p)
  {
    hide XorAll, Binds, Node, Pow2;
    NodeIs(digest, 20 * (k + 1), indices, k);
  }

  /** Bit b of an exclusive-or is set exactly when it is set in an odd number of the digests. */
  lemma {:induction false} XorIsParity(digest: word -> seq<bool>, n: nat, indices: seq<word>, b: nat)
    requires (forall w: word :: |digest(w)| == n) && b < n
    ensures XorAll(digest, n, indices)[b] <==> SetIn(digest, n, indices, b) % 2 == 1
  {
    if indices != [] {
      XorIsParity(digest, n, indices[1..], b);
    }
  }

  /** The number of digests in which a bit is set. */
  ghost function SetIn(digest: word -> seq<bool>, n: nat, indices: seq<word>, b: nat): (c: nat)
    requires (forall w: word :: |digest(w)| == n) && b < n
  {
    if indices == [] then 0 else (if digest(indices[0])[b] then 1 else 0) + SetIn(digest, n, indices[1..], b)
  }

  /** Index i is the number that bits 21*i to 21*i + 20 of the solution stand for. */
  lemma IndexNumber(soln: seq<byte>, i: nat)
    requires |soln| == 1344 && i < 512
    ensures |Indices(soln, 21)| == 512 && NumberOf(Indices(soln, 21)[i]) == NumberOf(Bits(soln)[21 * i..21 * i + 21])
  {
    hide Groups, NumberOf, Bits, Zeros;
    IndexCount(soln);
    GroupsAt(Bits(soln), 21, i);
    PaddedNumber(Groups(Bits(soln), 21)[i]);
  }

  lemma PaddedNumber(g: seq<bool>)
    requires |g| <= 32
    ensures NumberOf(Padded(g, 4)) == NumberOf(g)
  {
    hide NumberOf, Zeros;
    NumberConcat(Zeros(32 - |g|), g);
    NumberOfZeros(32 - |g|);
  }

  lemma {:induction false} NumberOfZeros(n: nat)
    ensures NumberOf(Zeros(n)) == 0
  {
    if n > 0 {
      NumberOfZeros(n - 1);
      assert Zeros(n)[..n - 1] == Zeros(n - 1);
    }
  }
}
