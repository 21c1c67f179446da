/** The checksum register shared by bech32, bech32m and CashAddr: a linear code over 5-bit symbols. */
module BchCode {
  import opened BitStrings
  import opened BitGroups

  type symbol = s: seq<bool> | |s| == 5 witness [false, false, false, false, false]

  // ---------- exclusive or ----------

  lemma XorSelf(x: seq<bool>, y: seq<bool>)
    requires |x| == |y|
    ensures Xor(x, y) == Zeros(|x|) <==> x == y
  {
    var z, o := Xor(x, y), Zeros(|x|);
    assert forall i | 0 <= i < |x| :: z[i] == o[i] <==> x[i] == y[i];
    if z == o {
      assert forall i | 0 <= i < |x| :: z[i] == o[i];
    }
  }

  lemma XorCancel(x: seq<bool>, y: seq<bool>)
    requires |x| == |y|
    ensures Xor(x, Xor(x, y)) == y
  {
  }

  lemma XorSwap(p: seq<bool>, q: seq<bool>, r: seq<bool>, s: seq<bool>)
    requires |p| == |q| == |r| == |s|
    ensures Xor(Xor(p, r), Xor(q, s)) == Xor(Xor(p, q), Xor(r, s))
  {
  }

  lemma XorZeros(x: seq<bool>)
    ensures Xor(x, Zeros(|x|)) == x
  {
  }

  lemma XorConcat(a: seq<bool>, b: seq<bool>, c: seq<bool>, d: seq<bool>)
    requires |a| == |c| && |b| == |d|
    ensures Xor(a + b, c + d) == Xor(a, c) + Xor(b, d)
  {
  }

  // ---------- one step of the register ----------

  /** g if the bit is set, else zero: `if ((b >> i) & 1) chk ^= G[i]` */
  function Scale(on: bool, g: seq<bool>): (z: seq<bool>)
    ensures |z| == |g|
  {
    if on then g else Zeros(|g|)
  }

  /** The generators selected by the low i bits of b; b is written most significant bit first. */
  function Taps(b: symbol, gs: seq<seq<bool>>, n: nat, i: nat): (z: seq<bool>)
    requires i <= 5 == |gs| && forall j | 0 <= j < 5 :: |gs[j]| == n
    ensures |z| == n
  {
    if i == 0 then Zeros(n) else Xor(Taps(b, gs, n, i - 1), Scale(b[5 - i], gs[i - 1]))
  }

  /** Five generators of n bits whose low symbols are linearly independent. */
  ghost predicate Code(gs: seq<seq<bool>>, n: nat)
  {
    && 10 <= n && |gs| == 5 && (forall j | 0 <= j < 5 :: |gs[j]| == n)
    && forall b: symbol :: Taps(b, gs, n, 5)[n - 5..] == Zeros(5) ==> b == Zeros(5)
  }

  function Step(s: seq<bool>, v: symbol, gs: seq<seq<bool>>, n: nat): (t: seq<bool>)
    requires |s| == n >= 10 && |gs| == 5 && forall j | 0 <= j < 5 :: |gs[j]| == n
    ensures |t| == n
  {
    Xor(ShiftIn(s, v), Taps(s[..5], gs, n, 5))
  }

  function Run(s: seq<bool>, vs: seq<symbol>, gs: seq<seq<bool>>, n: nat): (t: seq<bool>)
    requires |s| == n >= 10 && |gs| == 5 && forall j | 0 <= j < 5 :: |gs[j]| == n
    ensures |t| == n
  {
    if vs == [] then s else Step(Run(s, vs[..|vs| - 1], gs, n), vs[|vs| - 1], gs, n)
  }

  // ---------- linearity ----------

  lemma ScaleXor(a: bool, b: bool, g: seq<bool>)
    ensures Scale(a != b, g) == Xor(Scale(a, g), Scale(b, g))
  {
  }

  lemma {:induction false} TapsXor(b: symbol, c: symbol, gs: seq<seq<bool>>, n: nat, i: nat)
    requires i <= 5 == |gs| && forall j | 0 <= j < 5 :: |gs[j]| == n
    ensures Taps(Xor(b, c), gs, n, i) == Xor(Taps(b, gs, n, i), Taps(c, gs, n, i))
  {
    hide Scale;
    if i == 0 {
      XorZeros(Zeros(n));
    } else {
      TapsXor(b, c, gs, n, i - 1);
      ScaleXor(b[5 - i], c[5 - i], gs[i - 1]);
      XorSwap(Taps(b, gs, n, i - 1), Taps(c, gs, n, i - 1), Scale(b[5 - i], gs[i - 1]), Scale(c[5 - i], gs[i - 1]));
    }
  }

  lemma ShiftInXor(s: seq<bool>, t: seq<bool>, u: symbol, v: symbol)
    requires |s| == |t| >= 5
    ensures ShiftIn(Xor(s, t), Xor(u, v)) == Xor(ShiftIn(s, u), ShiftIn(t, v))
    ensures Xor(s, t)[..5] == Xor(s[..5], t[..5])
  {
    hide Xor;
    assert s == s[..5] + s[5..] && t == t[..5] + t[5..];
    XorConcat(s[..5], s[5..], t[..5], t[5..]);
    XorConcat(s[5..], u, t[5..], v);
    ShiftInIs(s, u);
    ShiftInIs(t, v);
    ShiftInIs(Xor(s, t), Xor(u, v));
  }

  lemma ShiftInIs(s: seq<bool>, v: symbol)
    requires |s| >= 5
    ensures ShiftIn(s, v) == s[5..] + v
  {
  }

  lemma StepXor(s: seq<bool>, t: seq<bool>, u: symbol, v: symbol, gs: seq<seq<bool>>, n: nat)
    requires |s| == |t| == n && Code(gs, n)
    ensures Step(Xor(s, t), Xor(u, v), gs, n) == Xor(Step(s, u, gs, n), Step(t, v, gs, n))
  {
    hide Xor, ShiftIn, Taps;
    ShiftInXor(s, t, u, v);
    TapsXor(s[..5], t[..5], gs, n, 5);
    XorSwap(ShiftIn(s, u), ShiftIn(t, v), Taps(s[..5], gs, n, 5), Taps(t[..5], gs, n, 5));
  }

  function XorAll(us: seq<symbol>, vs: seq<symbol>): (ws: seq<symbol>)
    requires |us| == |vs|
    ensures |ws| == |us|
  {
    seq(|us|, i requires 0 <= i < |us| => Xor(us[i], vs[i]))
  }

  /** The whole checksum computation is linear over GF(2). */
  lemma {:induction false} RunXor(s: seq<bool>, t: seq<bool>, us: seq<symbol>, vs: seq<symbol>, gs: seq<seq<bool>>, n: nat)
    requires |s| == |t| == n && |us| == |vs| && Code(gs, n)
    ensures Run(Xor(s, t), XorAll(us, vs), gs, n) == Xor(Run(s, us, gs, n), Run(t, vs, gs, n))
  {
    hide Xor, Step;
    if us != [] {
      var m := |us| - 1;
      RunXor(s, t, us[..m], vs[..m], gs, n);
      StepXor(Run(s, us[..m], gs, n), Run(t, vs[..m], gs, n), us[m], vs[m], gs, n);
      assert XorAll(us, vs)[..m] == XorAll(us[..m], vs[..m]);
    }
  }

  // ---------- injectivity ----------

  lemma ZeroStep(s: seq<bool>, gs: seq<seq<bool>>, n: nat)
    requires |s| == n && Code(gs, n)
    ensures Step(s, Zeros(5), gs, n) == Zeros(n) <==> s == Zeros(n)
  {
    var top, z := s[..5], Zeros(5);
    ShiftInIs(s, z);
    assert s == top + s[5..];
    var shifted, taps := s[5..] + z, Taps(top, gs, n, 5);
    XorSelf(shifted, taps);
    NoTaps(top, gs, n, 5);
    assert Zeros(n)[..5] == z && Zeros(n)[5..] + z == Zeros(n);
    if shifted == taps {
      EmptyTop(s, gs, n);
    }
  }

  lemma EmptyTop(s: seq<bool>, gs: seq<seq<bool>>, n: nat)
    requires |s| == n && Code(gs, n) && s[5..] + Zeros(5) == Taps(s[..5], gs, n, 5)
    ensures s == Zeros(n)
  {
    hide Taps;
    var top, shifted := s[..5], s[5..] + Zeros(5);
    assert shifted[n - 5..] == Zeros(5);
    assert top == Zeros(5);
    NoTaps(top, gs, n, 5);
    assert s[5..] == shifted[..n - 5] == Zeros(n - 5);
    assert s == top + s[5..];
    assert Zeros(n) == Zeros(5) + Zeros(n - 5);
  }

  lemma {:induction false} NoTaps(b: symbol, gs: seq<seq<bool>>, n: nat, i: nat)
    requires i <= 5 == |gs| && forall j | 0 <= j < 5 :: |gs[j]| == n
    ensures b == Zeros(5) ==> Taps(b, gs, n, i) == Zeros(n)
  {
    if i > 0 {
      NoTaps(b, gs, n, i - 1);
      XorZeros(Zeros(n));
    }
  }

  /** No two states meet: a step on a fixed symbol is a bijection of the register. */
  lemma StepInjective(s: seq<bool>, t: seq<bool>, v: symbol, gs: seq<seq<bool>>, n: nat)
    requires |s| == |t| == n && Code(gs, n)
    ensures Step(s, v, gs, n) == Step(t, v, gs, n) <==> s == t
  {
    hide Xor, Step;
    StepXor(s, t, v, v, gs, n);
    XorSelf(v, v);
    ZeroStep(Xor(s, t), gs, n);
    XorSelf(s, t);
    XorSelf(Step(s, v, gs, n), Step(t, v, gs, n));
  }

  lemma {:induction false} RunInjective(s: seq<bool>, t: seq<bool>, vs: seq<symbol>, gs: seq<seq<bool>>, n: nat)
    requires |s| == |t| == n && Code(gs, n)
    ensures Run(s, vs, gs, n) == Run(t, vs, gs, n) <==> s == t
  {
    if vs != [] {
      hide Step;
      var m := |vs| - 1;
      RunInjective(s, t, vs[..m], gs, n);
      StepInjective(Run(s, vs[..m], gs, n), Run(t, vs[..m], gs, n), vs[m], gs, n);
    }
  }

  lemma {:induction false} RunConcat(s: seq<bool>, us: seq<symbol>, vs: seq<symbol>, gs: seq<seq<bool>>, n: nat)
    requires |s| == n && Code(gs, n)
    ensures Run(s, us + vs, gs, n) == Run(Run(s, us, gs, n), vs, gs, n)
  {
    hide Step;
    if vs == [] {
      assert us + vs == us;
    } else {
      var m := |vs| - 1;
      RunConcat(s, us, vs[..m], gs, n);
      assert (us + vs)[..|us| + m] == us + vs[..m];
    }
  }

  lemma StepTells(s: seq<bool>, u: symbol, v: symbol, gs: seq<seq<bool>>, n: nat)
    requires |s| == n && Code(gs, n)
    ensures Step(s, u, gs, n) == Step(s, v, gs, n) <==> u == v
  {
    hide Xor, Taps;
    ShiftInIs(s, u);
    ShiftInIs(s, v);
    var taps := Taps(s[..5], gs, n, 5);
    XorCancel(taps, ShiftIn(s, u));
    XorCancel(taps, ShiftIn(s, v));
    XorSymmetric(taps, ShiftIn(s, u));
    XorSymmetric(taps, ShiftIn(s, v));
    assert ShiftIn(s, u)[n - 5..] == u && ShiftIn(s, v)[n - 5..] == v;
  }

  lemma XorSymmetric(x: seq<bool>, y: seq<bool>)
    requires |x| == |y|
    ensures Xor(x, y) == Xor(y, x)
  {
  }

  /** Changing exactly one symbol, at any position of a list of any length, changes the checksum. */
  lemma SingleChange(s: seq<bool>, vs: seq<symbol>, i: nat, w: symbol, gs: seq<seq<bool>>, n: nat)
    requires |s| == n && Code(gs, n) && i < |vs|
    ensures Run(s, vs[i := w], gs, n) == Run(s, vs, gs, n) <==> w == vs[i]
  {
    hide Step, Run;
    var head, tail := vs[..i], vs[i + 1..];
    assert vs == head + [vs[i]] + tail && vs[i := w] == head + [w] + tail;
    RunConcat(s, head + [vs[i]], tail, gs, n);
    RunConcat(s, head + [w], tail, gs, n);
    RunSnoc(s, head, vs[i], gs, n);
    RunSnoc(s, head, w, gs, n);
    var t := Run(s, head, gs, n);
    StepTells(t, vs[i], w, gs, n);
    RunInjective(Step(t, vs[i], gs, n), Step(t, w, gs, n), tail, gs, n);
  }

  lemma RunSnoc(s: seq<bool>, vs: seq<symbol>, v: symbol, gs: seq<seq<bool>>, n: nat)
    requires |s| == n && Code(gs, n)
    ensures Run(s, vs + [v], gs, n) == Step(Run(s, vs, gs, n), v, gs, n)
  {
    hide Step;
    assert (vs + [v])[..|vs|] == vs;
  }

  // ---------- checksums ----------

  function ZeroSymbols(k: nat): (zs: seq<symbol>)
    ensures |zs| == k
  {
    seq(k, _ => Zeros(5))
  }

  /** The bits of a list of symbols. */
  function Joined(vs: seq<symbol>): (b: seq<bool>)
    ensures |b| == 5 * |vs|
  {
    if vs == [] then [] else Joined(vs[..|vs| - 1]) + vs[|vs| - 1]
  }

  /** The 5-bit symbols of a bit string. */
  function Symbols(b: seq<bool>): (vs: seq<symbol>)
    requires |b| % 5 == 0
    ensures |vs| == |b| / 5
  {
    if b == [] then [] else Symbols(b[..|b| - 5]) + [b[|b| - 5..]]
  }

  lemma {:induction false} JoinedSymbols(b: seq<bool>)
    requires |b| % 5 == 0
    ensures Joined(Symbols(b)) == b
  {
    hide Joined, Symbols;
    if b == [] {
      NoSymbols();
    } else {
      FiveLess(|b|);
      var k := |b| - 5;
      LastSymbol(b, k);
      var init, last := b[..k], b[k..];
      JoinedSymbols(init);
      JoinedSnoc(Symbols(init), last);
    }
  }

  lemma NoSymbols()
    ensures Symbols([]) == [] && Joined([]) == []
  {
  }

  lemma FiveLess(n: nat)
    requires n % 5 == 0 && n > 0
    ensures n >= 5 && (n - 5) % 5 == 0
  {
  }

  lemma LastSymbol(b: seq<bool>, k: nat)
    requires k + 5 == |b| && (k + 5) % 5 == 0 && k % 5 == 0
    ensures Symbols(b) == Symbols(b[..k]) + [b[k..]] && b == b[..k] + b[k..]
  {
  }

  lemma JoinedSnoc(vs: seq<symbol>, v: symbol)
    ensures Joined(vs + [v]) == Joined(vs) + v
  {
    assert (vs + [v])[..|vs|] == vs;
  }

  lemma {:induction false} SymbolsJoined(vs: seq<symbol>)
    ensures Symbols(Joined(vs)) == vs
  {
    hide Symbols;
    if vs == [] {
      NoSymbols();
    } else {
      var m := |vs| - 1;
      SymbolsJoined(vs[..m]);
      SymbolsSnoc(Joined(vs[..m]), vs[m]);
      assert vs == vs[..m] + [vs[m]];
    }
  }

  lemma SymbolsSnoc(b: seq<bool>, v: symbol)
    requires |b| % 5 == 0
    ensures Symbols(b + v) == Symbols(b) + [v]
  {
    assert (b + v)[..|b|] == b && (b + v)[|b|..] == v;
  }

  /** Up to n/5 symbols fed to an empty register just fill it. */
  lemma {:induction false} Fill(vs: seq<symbol>, gs: seq<seq<bool>>, n: nat)
    requires Code(gs, n) && 5 * |vs| <= n
    ensures Run(Zeros(n), vs, gs, n) == Zeros(n - 5 * |vs|) + Joined(vs)
  {
    hide Step, Joined, Zeros;
    if vs == [] {
      NoSymbols();
      assert Zeros(n) + [] == Zeros(n);
    } else {
      var m := |vs| - 1;
      var k := n - 5 * |vs|;
      Fill(vs[..m], gs, n);
      JoinedSnoc(vs[..m], vs[m]);
      assert vs[..m] + [vs[m]] == vs;
      FillStep(Joined(vs[..m]), vs[m], gs, n, k);
    }
  }

  /** One symbol shifted into a register that starts with five zeros */
  lemma FillStep(tail: seq<bool>, v: symbol, gs: seq<seq<bool>>, n: nat, k: nat)
    requires Code(gs, n) && k + 5 + |tail| == n
    ensures Step(Zeros(k + 5) + tail, v, gs, n) == Zeros(k) + (tail + v)
  {
    hide Xor, Taps;
    var s := Zeros(k + 5) + tail;
    assert s[..5] == Zeros(5);
    NoTaps(s[..5], gs, n, 5);
    ShiftInIs(s, v);
    XorZeros(s[5..] + v);
    assert s[5..] == Zeros(k) + tail;
  }

  lemma XorAllZeros(vs: seq<symbol>)
    ensures XorAll(ZeroSymbols(|vs|), vs) == vs
  {
    forall i | 0 <= i < |vs|
      ensures Xor(ZeroSymbols(|vs|)[i], vs[i]) == vs[i]
    {
      XorSymmetric(Zeros(5), vs[i]);
      XorZeros(vs[i]);
    }
  }

  /** The last n/5 symbols enter the result only by exclusive or. */
  lemma RunChecksum(s: seq<bool>, cs: seq<symbol>, gs: seq<seq<bool>>, n: nat)
    requires |s| == n && Code(gs, n) && 5 * |cs| == n
    ensures Run(s, cs, gs, n) == Xor(Run(s, ZeroSymbols(|cs|), gs, n), Joined(cs))
  {
    hide Xor, Run;
    XorZeros(s);
    XorAllZeros(cs);
    RunXor(s, Zeros(n), ZeroSymbols(|cs|), cs, gs, n);
    Fill(cs, gs, n);
    assert Zeros(0) + Joined(cs) == Joined(cs);
  }

  /** The symbols that make the register reach a target. */
  function Checksum(s: seq<bool>, target: seq<bool>, gs: seq<seq<bool>>, n: nat): (cs: seq<symbol>)
    requires |s| == |target| == n >= 10 && n % 5 == 0 && |gs| == 5 && forall j | 0 <= j < 5 :: |gs[j]| == n
    ensures |cs| == n / 5
  {
    Symbols(Xor(Run(s, ZeroSymbols(n / 5), gs, n), target))
  }

  /** Exactly one list of n/5 symbols takes the register from s to the target. */
  lemma ChecksumUnique(s: seq<bool>, target: seq<bool>, cs: seq<symbol>, gs: seq<seq<bool>>, n: nat)
    requires |s| == |target| == n && n % 5 == 0 && |cs| == n / 5 && Code(gs, n)
    ensures Run(s, cs, gs, n) == target <==> cs == Checksum(s, target, gs, n)
  {
    hide Run, Xor, Symbols, Joined;
    var r := Run(s, ZeroSymbols(n / 5), gs, n);
    RunChecksum(s, cs, gs, n);
    XorCancel(r, Joined(cs));
    XorCancel(r, target);
    SymbolsJoined(cs);
    JoinedSymbols(Xor(r, target));
  }
}
