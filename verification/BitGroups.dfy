/** Cutting a bit string into groups of a fixed width. */
module BitGroups {
  import opened Numerals

  /** The complete w-bit groups of a bit string; an incomplete last group is dropped. */
  function Groups(bits: seq<bool>, w: nat): (gs: seq<seq<bool>>)
    requires w > 0
    ensures forall i | 0 <= i < |gs| :: |gs[i]| == w
  {
    if |bits| < w then [] else [bits[..w]] + Groups(bits[w..], w)
  }

  ghost predicate Whole(bits: seq<bool>, w: nat)
    requires w > 0
  {
    bits == [] || (|bits| >= w && Whole(bits[w..], w))
  }

  lemma {:induction false} GroupsConcat(a: seq<bool>, b: seq<bool>, w: nat)
    requires w > 0 && Whole(a, w)
    ensures Groups(a + b, w) == Groups(a, w) + Groups(b, w)
    decreases |a|
  {
    if a == [] {
      assert a + b == b;
    } else {
      var ab := a + b;
      assert ab[w..] == a[w..] + b && ab[..w] == a[..w];
      GroupsConcat(a[w..], b, w);
    }
  }

  lemma {:induction false} WholeConcat(a: seq<bool>, b: seq<bool>, w: nat)
    requires w > 0 && Whole(a, w) && Whole(b, w)
    ensures Whole(a + b, w)
    decreases |a|
  {
    if a == [] {
      assert a + b == b;
    } else {
      WholeConcat(a[w..], b, w);
      assert (a + b)[w..] == a[w..] + b;
    }
  }

  lemma GroupsSnoc(a: seq<bool>, b: seq<bool>, w: nat)
    requires w > 0 && Whole(a, w) && |b| == w
    ensures Groups(a + b, w) == Groups(a, w) + [b] && Whole(a + b, w)
  {
    var rest := b[w..];
    assert b[..w] == b && rest == [];
    assert Whole(rest, w) && Groups(rest, w) == [];
    GroupsConcat(a, b, w);
    WholeConcat(a, b, w);
  }

  lemma OneMore(n: nat, w: nat)
    ensures (n + 1) * w == n * w + w
  {
  }

  lemma {:induction false} WholeCount(bits: seq<bool>, w: nat)
    requires w > 0 && Whole(bits, w)
    ensures |Groups(bits, w)| * w == |bits|
    decreases |bits|
  {
    if bits != [] {
      WholeCount(bits[w..], w);
      OneMore(|Groups(bits[w..], w)|, w);
    }
  }

  /** Group g is exactly bits [g*w, (g+1)*w) of the bit string. */
  lemma {:induction false} GroupsAt(bits: seq<bool>, w: nat, g: nat)
    requires w > 0 && g < |Groups(bits, w)|
    ensures 0 <= g * w <= g * w + w <= |bits|
    ensures Groups(bits, w)[g] == bits[g * w..g * w + w]
  {
    if g == 0 {
      assert bits[0..w] == bits[..w];
    } else {
      GroupsAt(bits[w..], w, g - 1);
      OneMore(g - 1, w);
      SliceOfSuffix(bits, w, (g - 1) * w);
    }
  }

  lemma SliceOfSuffix<T>(b: seq<T>, w: nat, s: nat)
    requires s + w + w <= |b|
    ensures b[w..][s..s + w] == b[s + w..s + w + w]
  {
  }

  lemma {:induction false} GroupCount(bits: seq<bool>, w: nat)
    requires w > 0
    ensures |Groups(bits, w)| * w <= |bits| < |Groups(bits, w)| * w + w
    decreases |bits|
  {
    if |bits| >= w {
      GroupCount(bits[w..], w);
      OneMore(|Groups(bits[w..], w)|, w);
    }
  }

  lemma {:induction false} WholeWhenDivisible(bits: seq<bool>, w: nat)
    requires w > 0 && |bits| % w == 0
    ensures Whole(bits, w)
    decreases |bits|
  {
    if bits != [] {
      var q := |bits| / w;
      assert |bits| == q * w;
      MultipleIsFar(q, w);
      RemainderLess(|bits|, w);
      WholeWhenDivisible(bits[w..], w);
    }
  }

  lemma RemainderLess(n: nat, w: nat)
    requires n >= w > 0 && n % w == 0
    ensures (n - w) % w == 0
  {
    var q := n / w;
    var m, r := (n - w) / w, (n - w) % w;
    assert (q - 1 - m) * w == r;
    MultipleIsFar(q - 1 - m, w);
    MultipleIsFar(m - q + 1, w);
  }

  lemma PrefixPlus<T>(s: seq<T>, i: nat, n: nat)
    requires i + n <= |s|
    ensures s[..i + n] == s[..i] + s[i..i + n]
  {
  }
}
