/** The frames of cluster_protocol.hpp and what a run of them means to one client. */
module ClusterProtocol {

  /** One JSON object a line; Malformed is text that does not parse, Unknown a type that is ignored. */
  datatype Frame =
    | Hello(role: string, coin: string, token: string)
    | Welcome
    | Bye
    | Open(cid: nat)
    | Data(cid: nat, text: string)
    | Close(cid: nat)
    | Block
    | Ping
    | Pong
    | Malformed
    | Unknown

  /** A stratum line as it is written to a socket. */
  function Terminated(text: string): (line: string)
  {
    text + "\n"
  }

  predicate IsClientFrame(f: Frame)
  {
    f.Open? || f.Data? || f.Close?
  }

  /** The lines of client c in a run of frames. */
  function Lines(fs: seq<Frame>, c: nat): (lines: seq<string>)
  {
    if fs == [] then [] else Lines(fs[..|fs| - 1], c) + LineOf(fs[|fs| - 1], c)
  }

  function LineOf(f: Frame, c: nat): (lines: seq<string>)
  {
    if f.Data? && f.cid == c then [Terminated(f.text)] else []
  }

  lemma {:induction false} LinesConcat(a: seq<Frame>, b: seq<Frame>, c: nat)
    ensures Lines(a + b, c) == Lines(a, c) + Lines(b, c)
  {
    hide LineOf;
    if b == [] {
      assert a + b == a;
    } else {
      var m := |b| - 1;
      assert (a + b)[..|a| + m] == a + b[..m];
      LinesConcat(a, b[..m], c);
    }
  }

  // ---------- what a peer that follows open and close forwards ----------

  /** Whether client c is open after a run of frames. */
  function OpenAfter(fs: seq<Frame>, c: nat, open: bool): (o: bool)
  {
    if fs == [] then open else OpenedBy(fs[|fs| - 1], c, OpenAfter(fs[..|fs| - 1], c, open))
  }

  function OpenedBy(f: Frame, c: nat, open: bool): bool
  {
    if f == Open(c) then true else if f == Close(c) then false else open
  }

  /** The lines of client c that arrive while it is open. */
  function Replay(fs: seq<Frame>, c: nat, open: bool): (lines: seq<string>)
  {
    if fs == [] then []
    else
      var init := fs[..|fs| - 1];
      Replay(init, c, open) + if OpenAfter(init, c, open) then LineOf(fs[|fs| - 1], c) else []
  }

  lemma {:induction false} ReplayConcat(a: seq<Frame>, b: seq<Frame>, c: nat, open: bool)
    ensures OpenAfter(a + b, c, open) == OpenAfter(b, c, OpenAfter(a, c, open))
    ensures Replay(a + b, c, open) == Replay(a, c, open) + Replay(b, c, OpenAfter(a, c, open))
  {
    hide LineOf, OpenedBy;
    if b == [] {
      assert a + b == a;
    } else {
      var m := |b| - 1;
      assert (a + b)[..|a| + m] == a + b[..m];
      ReplayConcat(a, b[..m], c, open);
    }
  }

  // ---------- where the open frame of a client can be ----------

  /** No frame of the client; its open frame and then none; some frames but no open frame; anything else. */
  datatype Shape = Empty | Opening | Plain | Bad

  function Join(x: Shape, y: Shape): Shape
  {
    if x.Empty? then y else if y.Empty? then x else if y.Plain? then x else Bad
  }

  function ShapeOf(f: Frame, c: nat): Shape
  {
    if f == Open(c) then Opening
    else if (f.Data? || f.Close?) && f.cid == c then Plain
    else Empty
  }

  function Shaped(fs: seq<Frame>, c: nat): (s: Shape)
  {
    if fs == [] then Empty else Join(Shaped(fs[..|fs| - 1], c), ShapeOf(fs[|fs| - 1], c))
  }

  lemma JoinAssociates(x: Shape, y: Shape, z: Shape)
    ensures Join(Join(x, y), z) == Join(x, Join(y, z))
  {
  }

  lemma {:induction false} ShapedConcat(a: seq<Frame>, b: seq<Frame>, c: nat)
    ensures Shaped(a + b, c) == Join(Shaped(a, c), Shaped(b, c))
  {
    hide ShapeOf;
    if b == [] {
      assert a + b == a;
    } else {
      var m := |b| - 1;
      assert (a + b)[..|a| + m] == a + b[..m];
      ShapedConcat(a, b[..m], c);
      JoinAssociates(Shaped(a, c), Shaped(b[..m], c), ShapeOf(b[m], c));
    }
  }

  /** Without an open frame a closed client forwards nothing. */
  lemma {:induction false} NothingOpens(fs: seq<Frame>, c: nat)
    requires Shaped(fs, c).Empty? || Shaped(fs, c).Plain?
    ensures Replay(fs, c, false) == [] && !OpenAfter(fs, c, false)
  {
    if fs != [] {
      NothingOpens(fs[..|fs| - 1], c);
    }
  }

  lemma {:induction false} NoFrames(fs: seq<Frame>, c: nat, open: bool)
    requires Shaped(fs, c).Empty?
    ensures Replay(fs, c, open) == [] && OpenAfter(fs, c, open) == open && Lines(fs, c) == []
  {
    if fs != [] {
      NoFrames(fs[..|fs| - 1], c, open);
    }
  }

  // ---------- subsequences ----------

  /** x is y with zero or more elements left out. */
  predicate Subsequence<T(==)>(x: seq<T>, y: seq<T>)
  {
    if x == [] then true
    else if y == [] then false
    else if x[|x| - 1] == y[|y| - 1] && Subsequence(x[..|x| - 1], y[..|y| - 1]) then true
    else Subsequence(x, y[..|y| - 1])
  }

  lemma SubsequenceSkip<T>(x: seq<T>, y: seq<T>, e: T)
    requires Subsequence(x, y)
    ensures Subsequence(x, y + [e])
  {
    assert (y + [e])[..|y|] == y;
  }

  lemma SubsequenceSnoc<T>(x: seq<T>, y: seq<T>, e: T)
    requires Subsequence(x, y)
    ensures Subsequence(x + [e], y + [e])
  {
    assert (y + [e])[..|y|] == y && (x + [e])[..|x|] == x;
  }

  /** Leaving out more elements, whether at the end or in the middle. */
  lemma {:induction false} SubsequenceOmit<T>(a: seq<T>, m: seq<T>, b: seq<T>, y: seq<T>)
    requires Subsequence(a + m + b, y)
    ensures Subsequence(a + b, y)
    decreases |y|
  {
    if m == [] {
      assert a + m + b == a + b;
    } else if y != [] && a + b != [] {
      var x, yy := a + m + b, y[..|y| - 1];
      if x[|x| - 1] == y[|y| - 1] && Subsequence(x[..|x| - 1], yy) {
        if b != [] {
          assert x[..|x| - 1] == a + m + b[..|b| - 1];
          SubsequenceOmit(a, m, b[..|b| - 1], yy);
          assert (a + b)[..|a + b| - 1] == a + b[..|b| - 1];
        } else {
          assert x[..|x| - 1] == a + m[..|m| - 1] + [];
          SubsequenceOmit(a, m[..|m| - 1], [], yy);
          assert a + b == a + [];
          Widen(a + b, yy, y);
        }
      } else {
        SubsequenceOmit(a, m, b, yy);
        Widen(a + b, yy, y);
      }
    }
  }

  lemma Widen<T>(x: seq<T>, init: seq<T>, y: seq<T>)
    requires y != [] && init == y[..|y| - 1] && Subsequence(x, init)
    ensures Subsequence(x, y)
  {
  }
}
