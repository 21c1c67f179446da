/** Both halves of the cluster trunk over links that can be lost, as interleaved steps. */
module ClusterSystem {
  import opened ClusterIngest
  import opened ClusterProtocol
  import opened ClusterTrunk

  // ---------- state ----------

  /** One trunk connection: frames in flight each way and the session that accepted it. */
  datatype Conn = Conn(up: seq<Frame>, down: seq<Frame>, origin: Origin)

  /**
    * The edge uses the last connection while it is connected; older ones drain on the origin's side.
    * tasks are the send_frame posts not yet run; live are the miners not yet closed. The rest records
    * what each miner sent and got, what each loopback connection got and produced, on which connection
    * each open frame was written, which bridges were opened, and whether a full buffer dropped a frame.
    */
  datatype System = System(
    edge: Edge, tasks: seq<Frame>, conns: seq<Conn>, live: set<nat>,
    sent: map<nat, seq<string>>, got: map<nat, seq<string>>,
    loopIn: map<nat, seq<string>>, loopOut: map<nat, seq<string>>,
    home: map<nat, nat>, bridged: set<(nat, nat)>, opens: multiset<nat>, capHit: bool)

  datatype Event =
    | MinerConnects
    | MinerLine(cid: nat, text: string)
    | MinerCloses(cid: nat)
    | TaskRuns
    | EdgeConnects
    | EdgeOpens(role: string, coin: string, token: string)
    | EdgeReads
    | EdgeLosesLink
    | OriginReads(k: nat)
    | OriginLosesLink(k: nat)
    | LoopbackConnects(k: nat, cid: nat)
    | LoopbackLine(k: nat, cid: nat, text: string)
    | LoopbackCloses(k: nat, cid: nat)

  const INITIAL: System :=
    System(INITIAL_EDGE.(running := true), [], [], {}, map[], map[], map[], map[], map[], {}, multiset{}, false)

  function Log(m: map<nat, seq<string>>, c: nat): (lines: seq<string>)
  {
    if c in m then m[c] else []
  }

  function Logged(m: map<nat, seq<string>>, c: nat, lines: seq<string>): (r: map<nat, seq<string>>)
    ensures forall d: nat :: Log(r, d) == if d == c then Log(m, c) + lines else Log(m, d)
  {
    m[c := Log(m, c) + lines]
  }

  // ---------- steps ----------

  /** The edge writes frames on its connection. */
  function Pushed(conns: seq<Conn>, out: seq<Frame>): (r: seq<Conn>)
    ensures |r| == |conns|
  {
    if conns == [] then [] else
      var n := |conns| - 1;
      conns[n := conns[n].(up := conns[n].up + out)]
  }

  /** Records the connection on which open frames are written. */
  function Homes(home: map<nat, nat>, out: seq<Frame>, k: nat): (r: map<nat, nat>)
  {
    if out == [] then home
    else
      var r, f := Homes(home, out[..|out| - 1], k), out[|out| - 1];
      if f.Open? then r[f.cid := k] else r
  }

  function Written(s: System, out: seq<Frame>): System
  {
    if s.conns == [] then s else s.(conns := Pushed(s.conns, out), home := Homes(s.home, out, |s.conns| - 1))
  }

  predicate Enabled(s: System, e: Event)
  {
    match e
    case MinerConnects => true
    case MinerLine(cid, _) => cid in s.live
    case MinerCloses(cid) => cid in s.live
    case TaskRuns => s.tasks != []
    case EdgeConnects => !s.edge.connected
    case EdgeOpens(_, _, _) => s.edge.connected
    case EdgeReads => s.edge.connected && s.conns != [] && s.conns[|s.conns| - 1].down != []
    case EdgeLosesLink => s.edge.connected
    case OriginReads(k) => k < |s.conns| && !s.conns[k].origin.closed && s.conns[k].up != []
    case OriginLosesLink(k) => k < |s.conns|
    case LoopbackConnects(k, cid) => k < |s.conns|
    case LoopbackLine(k, cid, _) => k < |s.conns| && (k, cid) in s.bridged
    case LoopbackCloses(k, cid) => k < |s.conns|
  }

  function Next(s: System, config: Config, e: Event): System
    requires Enabled(s, e)
  {
    match e
    case MinerConnects =>
      var cid := s.edge.nextCid;
      s.(edge := Attached(s.edge), tasks := s.tasks + [Open(cid)], live := s.live + {cid})
    case MinerLine(cid, text) =>
      s.(tasks := s.tasks + [Data(cid, text)], sent := Logged(s.sent, cid, [Terminated(text)]))
    case MinerCloses(cid) =>
      s.(edge := Detached(s.edge, cid), live := s.live - {cid},
         tasks := s.tasks + if cid in s.edge.sessions then [Close(cid)] else [])
    case TaskRuns =>
      var (edge, out) := Sent(s.edge, s.tasks[0]);
      Written(s.(edge := edge, tasks := s.tasks[1..], capHit := s.capHit || SendDrops(s.edge)), out)
    case EdgeConnects =>
      s.(edge := Connected(s.edge), conns := s.conns + [Conn([], [], INITIAL_ORIGIN)])
    case EdgeOpens(role, coin, token) =>
      Written(s.(edge := s.edge.(backoff := 0)), [Hello(role, coin, token)])
    case EdgeReads =>
      ReadByEdge(s)
    case EdgeLosesLink =>
      s.(edge := Lost(s.edge))
    case OriginReads(k) =>
      ReadByOrigin(s, config, k)
    case OriginLosesLink(k) =>
      s.(conns := s.conns[k := s.conns[k].(origin := Shut(s.conns[k].origin))])
    case LoopbackConnects(k, cid) =>
      var conn := s.conns[k];
      s.(conns := s.conns[k := conn.(origin := LoopbackUp(conn.origin, cid))],
         loopIn := Logged(s.loopIn, cid, Flushed(conn.origin, cid)))
    case LoopbackLine(k, cid, text) =>
      var conn := s.conns[k];
      s.(conns := s.conns[k := conn.(down := conn.down + Produced(conn, cid, text))],
         loopOut := Logged(s.loopOut, cid, [Terminated(text)]))
    case LoopbackCloses(k, cid) =>
      var conn := s.conns[k];
      s.(conns := s.conns[k := conn.(origin := LoopbackDown(conn.origin, cid), down := conn.down + Told(conn, cid))])
  }

  /** The edge takes a frame off its connection and hands a line to its miner. */
  function Popped(s: System): (q: System)
    requires s.conns != [] && s.conns[|s.conns| - 1].down != []
    ensures q == s.(conns := q.conns, got := q.got) && |q.conns| == |s.conns|
  {
    var n := |s.conns| - 1;
    var conn := s.conns[n];
    var delivered := Delivered(s.edge, conn.down[0]);
    s.(conns := s.conns[n := conn.(down := conn.down[1..])],
       got := if delivered == [] then s.got else Logged(s.got, delivered[0].0, [delivered[0].1]))
  }

  function ReadByEdge(s: System): System
    requires s.conns != [] && s.conns[|s.conns| - 1].down != []
  {
    var (edge, out) := Received(s.edge, s.conns[|s.conns| - 1].down[0]);
    Written(Popped(s).(edge := edge), out)
  }

  function ReadByOrigin(s: System, config: Config, k: nat): System
    requires k < |s.conns| && s.conns[k].up != []
  {
    var conn := s.conns[k];
    var f := conn.up[0];
    var o := Handled(conn.origin, config, f);
    var isNew := f.Open? && f.cid in o.clients && f.cid !in conn.origin.clients;
    s.(conns := s.conns[k := Conn(conn.up[1..], conn.down + Replies(conn.origin, config, f), o)],
       loopIn := if f.Data? then Logged(s.loopIn, f.cid, Forwarded(conn.origin, f, f.cid)) else s.loopIn,
       bridged := if isNew then s.bridged + {(k, f.cid)} else s.bridged,
       opens := if isNew then s.opens + multiset{f.cid} else s.opens,
       capHit := s.capHit || ClientDrops(conn.origin, f))
  }

  /** The state after a run; an event that is not enabled does not happen. */
  function After(config: Config, run: seq<Event>): System
  {
    if run == [] then INITIAL
    else
      var s, e := After(config, run[..|run| - 1]), run[|run| - 1];
      if Enabled(s, e) then Next(s, config, e) else s
  }

  // ---------- the invariant, for one client ----------

  predicate PlainOrEmpty(x: Shape)
  {
    x.Empty? || x.Plain?
  }

  /** A connection on which client c has never been announced. */
  predicate Stranger(conn: Conn, c: nat)
  {
    c !in conn.origin.clients && PlainOrEmpty(Shaped(conn.up, c)) && Lines(conn.down, c) == []
  }

  function Waiting(s: System): (fs: seq<Frame>)
  {
    s.edge.pending + s.tasks
  }

  predicate IsCurrent(s: System, k: nat)
  {
    s.edge.connected && k == |s.conns| - 1
  }

  /** Only a session that has accepted a hello and is not closed has bridges. */
  predicate Serving(o: Origin)
  {
    o.closed || !o.helloOk ==> o.clients == map[]
  }

  /** Buffers and connections agree. */
  ghost predicate Linked(s: System)
  {
    && s.edge.running && s.edge.nextCid >= 1
    && (s.edge.connected ==> s.conns != [])
    && (s.edge.welcomed ==> s.edge.connected && s.edge.pending == [])
    && (forall k | 0 <= k < |s.conns| :: Serving(s.conns[k].origin))
  }

  /** Where the frames of client c can be. */
  ghost predicate Placed(s: System, c: nat)
  {
    var w := Shaped(Waiting(s), c);
    && (forall k | 0 <= k < |s.conns| && !(c in s.home && s.home[c] == k) :: Stranger(s.conns[k], c))
    && if c in s.home then
         && s.home[c] < |s.conns| && PlainOrEmpty(w) && AtHome(s.conns[s.home[c]], c, s.opens[c])
       else
         && !w.Bad? && s.opens[c] == 0
         && (w.Opening? ==> forall k | 0 <= k < |s.conns| :: Shaped(s.conns[k].up, c).Empty?)
  }

  predicate AtHome(conn: Conn, c: nat, opens: nat)
  {
    && !Shaped(conn.up, c).Bad? && opens <= 1
    && (opens == 1 ==> PlainOrEmpty(Shaped(conn.up, c)))
    && (opens == 0 ==> c !in conn.origin.clients && Lines(conn.down, c) == [])
    && (c in conn.origin.clients ==> conn.origin.clients[c].connected ==> conn.origin.clients[c].pending == [])
  }

  /** A client id not handed out yet has left no trace. */
  ghost predicate Unborn(s: System, c: nat)
  {
    && Shaped(Waiting(s), c).Empty? && c !in s.home && c !in s.live && c !in s.edge.sessions && Log(s.sent, c) == []
    && forall k | 0 <= k < |s.conns| :: Shaped(s.conns[k].up, c).Empty?
  }

  ghost predicate Sane(s: System, c: nat)
  {
    Linked(s) && Placed(s, c) && (c == 0 || c >= s.edge.nextCid ==> Unborn(s, c))
  }

  // ---------- pieces of steps ----------

  lemma ShapedOne(f: Frame, c: nat)
    ensures Shaped([f], c) == ShapeOf(f, c)
  {
    assert [f][..0] == [];
  }

  lemma ShapedCons(fs: seq<Frame>, c: nat)
    requires fs != []
    ensures Shaped(fs, c) == Join(ShapeOf(fs[0], c), Shaped(fs[1..], c))
  {
    hide ShapeOf;
    ShapedOne(fs[0], c);
    ShapedConcat([fs[0]], fs[1..], c);
    assert fs == [fs[0]] + fs[1..];
  }

  lemma LinesOne(f: Frame, c: nat)
    ensures Lines([f], c) == LineOf(f, c)
  {
    assert [f][..0] == [];
  }

  lemma LinesCons(fs: seq<Frame>, c: nat)
    requires fs != []
    ensures Lines(fs, c) == LineOf(fs[0], c) + Lines(fs[1..], c)
  {
    hide LineOf;
    LinesOne(fs[0], c);
    LinesConcat([fs[0]], fs[1..], c);
    assert fs == [fs[0]] + fs[1..];
  }

  /** Writing frames moves the home of a client exactly when its open frame is among them. */
  lemma {:induction false} HomesOf(home: map<nat, nat>, out: seq<Frame>, k: nat, c: nat)
    requires !Shaped(out, c).Bad?
    ensures var r := Homes(home, out, k);
      if Shaped(out, c).Opening? then c in r && r[c] == k
      else (c in r <==> c in home) && (c in home ==> r[c] == home[c])
  {
    if out != [] {
      var m := |out| - 1;
      HomesOf(home, out[..m], k, c);
    }
  }

  lemma MinerConnectsSane(s: System, config: Config, c: nat)
    requires Sane(s, c)
    ensures Sane(Next(s, config, MinerConnects), c)
  {
    hide Shaped, Lines, Log, Stranger, AtHome;
    var t, f := Next(s, config, MinerConnects), Open(s.edge.nextCid);
    assert Waiting(t) == Waiting(s) + [f];
    ShapedConcat(Waiting(s), [f], c);
    ShapedOne(f, c);
  }

  /** Posting a frame that opens nothing, of a client that was handed out. */
  lemma PostSane(s: System, t: System, f: Frame, c: nat)
    requires Sane(s, c) && !f.Open? && (c == 0 || c >= s.edge.nextCid ==> ShapeOf(f, c).Empty?)
    requires t == s.(edge := t.edge, tasks := s.tasks + [f], live := t.live, sent := t.sent)
    requires t.edge == s.edge.(sessions := t.edge.sessions) && t.edge.sessions <= s.edge.sessions && t.live <= s.live
    requires c == 0 || c >= s.edge.nextCid ==> Log(t.sent, c) == []
    ensures Sane(t, c)
  {
    hide Shaped, Lines, Log, Stranger, AtHome;
    assert Waiting(t) == Waiting(s) + [f];
    ShapedConcat(Waiting(s), [f], c);
    ShapedOne(f, c);
  }

  lemma MinerLineSane(s: System, config: Config, cid: nat, text: string, c: nat)
    requires Sane(s, c) && cid in s.live
    ensures Sane(Next(s, config, MinerLine(cid, text)), c)
  {
    hide Shaped, Lines, Log, Stranger, AtHome, Placed;
    PostSane(s, Next(s, config, MinerLine(cid, text)), Data(cid, text), c);
  }

  lemma MinerClosesSane(s: System, config: Config, cid: nat, c: nat)
    requires Sane(s, c) && cid in s.live
    ensures Sane(Next(s, config, MinerCloses(cid)), c)
  {
    hide Shaped, Lines, Log, Stranger, AtHome;
    var t := Next(s, config, MinerCloses(cid));
    if cid in s.edge.sessions {
      PostSane(s, t, Close(cid), c);
    } else {
      assert t.tasks == s.tasks;
      assert Placed(t, c);
    }
  }

  /** Frames leave the buffers and are written on the current connection in order. */
  lemma WriteSane(s: System, p: System, out: seq<Frame>, c: nat)
    requires Sane(s, c) && s.edge.connected && p == s.(edge := p.edge, tasks := p.tasks, capHit := p.capHit)
    requires p.edge.running && p.edge.connected && p.edge.nextCid == s.edge.nextCid && p.edge.sessions <= s.edge.sessions
    requires p.edge.welcomed ==> p.edge.pending == []
    requires Shaped(Waiting(s), c) == Join(Shaped(out, c), Shaped(Waiting(p), c))
    ensures Sane(Written(p, out), c)
  {
    hide Shaped, Lines, Log, Homes, Waiting, Placed, Unborn;
    var t := Written(p, out);
    assert Linked(t);
    NotBad(s, c);
    WritePlaced(s, p, out, c);
    if c == 0 || c >= s.edge.nextCid {
      WriteUnborn(s, p, out, c);
    }
  }

  lemma WriteUnborn(s: System, p: System, out: seq<Frame>, c: nat)
    requires Unborn(s, c) && s.conns != [] && p == s.(edge := p.edge, tasks := p.tasks, capHit := p.capHit)
    requires p.edge.sessions <= s.edge.sessions
    requires Shaped(Waiting(s), c) == Join(Shaped(out, c), Shaped(Waiting(p), c))
    ensures Unborn(Written(p, out), c)
  {
    hide Shaped, Log, Homes;
    var n := |s.conns| - 1;
    var t := Written(p, out);
    HomesOf(s.home, out, n, c);
    ShapedConcat(s.conns[n].up, out, c);
    assert forall k | 0 <= k < n :: t.conns[k] == s.conns[k];
    assert Waiting(t) == Waiting(p);
  }

  lemma WritePlaced(s: System, p: System, out: seq<Frame>, c: nat)
    requires Placed(s, c) && s.conns != [] && p == s.(edge := p.edge, tasks := p.tasks, capHit := p.capHit)
    requires Shaped(Waiting(s), c) == Join(Shaped(out, c), Shaped(Waiting(p), c)) && !Shaped(Waiting(s), c).Bad?
    ensures Placed(Written(p, out), c)
  {
    hide Shaped, Lines, Homes;
    var n := |s.conns| - 1;
    var t := Written(p, out);
    HomesOf(s.home, out, n, c);
    ShapedConcat(s.conns[n].up, out, c);
    assert forall k | 0 <= k < n :: t.conns[k] == s.conns[k];
    assert t.conns[n].origin == s.conns[n].origin && t.conns[n].down == s.conns[n].down;
    assert Waiting(t) == Waiting(p);
  }

  lemma EdgeConnectsSane(s: System, config: Config, c: nat)
    requires Sane(s, c) && !s.edge.connected
    ensures Sane(Next(s, config, EdgeConnects), c)
  {
    hide Log, AtHome, Shaped, Lines;
    EmptyQueue(c);
    var t := Next(s, config, EdgeConnects);
    assert Waiting(t) == Waiting(s);
    assert forall k | 0 <= k < |s.conns| :: t.conns[k] == s.conns[k];
  }

  lemma EmptyQueue(c: nat)
    ensures Lines([], c) == [] && Shaped([], c).Empty?
  {
  }

  lemma TaskRunsSane(s: System, config: Config, c: nat)
    requires Sane(s, c) && s.tasks != []
    ensures Sane(Next(s, config, TaskRuns), c)
  {
    hide Shaped, Lines, Log, Placed, Written, ShapeOf;
    var f := s.tasks[0];
    NotBad(s, c);
    var (edge, out) := Sent(s.edge, f);
    var p := s.(edge := edge, tasks := s.tasks[1..], capHit := s.capHit || SendDrops(s.edge));
    ShapedConcat(s.edge.pending, s.tasks, c);
    ShapedCons(s.tasks, c);
    ShapedOne(f, c);
    if Direct(s.edge) {
      assert Waiting(p) == s.tasks[1..] && Waiting(s) == s.tasks;
      WriteSane(s, p, [f], c);
    } else if SendDrops(s.edge) {
      ShapedConcat(s.edge.pending, s.tasks[1..], c);
      DropSane(s, p, c);
    } else {
      assert Waiting(p) == Waiting(s);
      DropSane(s, p, c);
    }
  }

  lemma NotBad(s: System, c: nat)
    requires Sane(s, c)
    ensures !Shaped(Waiting(s), c).Bad?
  {
    hide Shaped, Stranger, AtHome;
  }

  /** Losing frames from the buffers. */
  lemma DropSane(s: System, p: System, c: nat)
    requires Sane(s, c) && p == s.(edge := p.edge, tasks := p.tasks, capHit := p.capHit)
    requires p.edge.running && p.edge.nextCid == s.edge.nextCid && p.edge.sessions <= s.edge.sessions
    requires p.edge.connected ==> s.edge.connected
    requires p.edge.welcomed ==> p.edge.connected && p.edge.pending == []
    requires var x, y := Shaped(Waiting(p), c), Shaped(Waiting(s), c); x == y || x.Empty? || (x.Plain? && y.Opening?)
    ensures Sane(Written(p, []), c) && Sane(p, c)
  {
    hide Shaped, Lines, Log, Waiting;
    assert Written(p, []).conns == p.conns && Written(p, []) == p by { NoWrite(p); }
  }

  lemma NoWrite(p: System)
    ensures Written(p, []) == p
  {
    if p.conns != [] {
      var n := |p.conns| - 1;
      assert p.conns[n].(up := p.conns[n].up + []) == p.conns[n];
    }
  }

  /** A step of one connection that respects the client's place on it. */
  lemma ConnSane(s: System, t: System, k: nat, c: nat)
    requires Sane(s, c) && k < |s.conns| && |t.conns| == |s.conns| && t.conns == s.conns[k := t.conns[k]]
    requires t.edge == s.edge && t.tasks == s.tasks && t.live == s.live && t.sent == s.sent && t.home == s.home
    requires Serving(t.conns[k].origin)
    requires Shaped(s.conns[k].up, c).Empty? ==> Shaped(t.conns[k].up, c).Empty?
    requires if c in s.home && s.home[c] == k then AtHome(t.conns[k], c, t.opens[c])
      else Stranger(t.conns[k], c) && t.opens[c] == s.opens[c]
    ensures Sane(t, c)
  {
    hide Shaped, Lines, Log, Stranger, AtHome;
    assert forall j | 0 <= j < |s.conns| && j != k :: t.conns[j] == s.conns[j];
    assert Waiting(t) == Waiting(s);
  }

  lemma HasPlace(s: System, k: nat, c: nat)
    requires Sane(s, c) && k < |s.conns|
    ensures if c in s.home && s.home[c] == k then AtHome(s.conns[k], c, s.opens[c]) else Stranger(s.conns[k], c)
    ensures Serving(s.conns[k].origin)
  {
    hide Shaped, Lines, Log, Stranger, AtHome;
  }

  lemma OriginLosesLinkSane(s: System, config: Config, k: nat, c: nat)
    requires Sane(s, c) && k < |s.conns|
    ensures Sane(Next(s, config, OriginLosesLink(k)), c)
  {
    hide Shaped, Lines, Log, Sane;
    HasPlace(s, k, c);
    ConnSane(s, Next(s, config, OriginLosesLink(k)), k, c);
  }

  lemma LoopbackConnectsSane(s: System, config: Config, k: nat, cid: nat, c: nat)
    requires Sane(s, c) && k < |s.conns|
    ensures Sane(Next(s, config, LoopbackConnects(k, cid)), c)
  {
    hide Shaped, Lines, Log, Sane;
    HasPlace(s, k, c);
    ConnSane(s, Next(s, config, LoopbackConnects(k, cid)), k, c);
  }

  lemma LoopbackClosesSane(s: System, config: Config, k: nat, cid: nat, c: nat)
    requires Sane(s, c) && k < |s.conns|
    ensures Sane(Next(s, config, LoopbackCloses(k, cid)), c)
  {
    hide Shaped, Lines, Log, Sane;
    HasPlace(s, k, c);
    var conn, t := s.conns[k], Next(s, config, LoopbackCloses(k, cid));
    CloseQuiet(conn, cid, c);
    assert t.conns[k].up == conn.up && t.conns[k].origin == LoopbackDown(conn.origin, cid);
    ConnSane(s, t, k, c);
  }

  function Told(conn: Conn, cid: nat): seq<Frame>
  {
    if cid in conn.origin.clients && !conn.origin.closed then [Close(cid)] else []
  }

  lemma CloseQuiet(conn: Conn, cid: nat, c: nat)
    ensures Lines(conn.down + Told(conn, cid), c) == Lines(conn.down, c)
  {
    LinesConcat(conn.down, Told(conn, cid), c);
    LinesOne(Close(cid), c);
  }

  /** Bridges are exactly where their open frames were written. */
  ghost predicate Bridged(s: System, c: nat)
  {
    forall k: nat | (k, c) in s.bridged :: c in s.home && s.home[c] == k && s.opens[c] == 1
  }

  lemma LoopbackLineSane(s: System, config: Config, k: nat, cid: nat, text: string, c: nat)
    requires Sane(s, c) && Bridged(s, c) && k < |s.conns| && (k, cid) in s.bridged
    ensures Sane(Next(s, config, LoopbackLine(k, cid, text)), c)
  {
    hide Shaped, Lines, Log, Sane;
    HasPlace(s, k, c);
    var conn, t := s.conns[k], Next(s, config, LoopbackLine(k, cid, text));
    ProducedLines(conn, cid, text, c);
    assert t.conns[k].up == conn.up && t.conns[k].origin == conn.origin;
    ConnSane(s, t, k, c);
  }

  function Produced(conn: Conn, cid: nat, text: string): seq<Frame>
  {
    if conn.origin.closed then [] else [Data(cid, text)]
  }

  lemma ProducedLines(conn: Conn, cid: nat, text: string, c: nat)
    ensures Lines(conn.down + Produced(conn, cid, text), c)
         == Lines(conn.down, c) + if conn.origin.closed || cid != c then [] else [Terminated(text)]
  {
    LinesConcat(conn.down, Produced(conn, cid, text), c);
    LinesOne(Data(cid, text), c);
  }

  lemma OriginReadsSane(s: System, config: Config, k: nat, c: nat)
    requires Sane(s, c) && Enabled(s, OriginReads(k))
    ensures Sane(Next(s, config, OriginReads(k)), c)
  {
    hide Shaped, Lines, Log, Sane, Handled, Replies;
    var conn := s.conns[k];
    var f, t := conn.up[0], Next(s, config, OriginReads(k));
    HasPlace(s, k, c);
    ShapedCons(conn.up, c);
    RepliesQuiet(conn.origin, config, f, c);
    LinesConcat(conn.down, Replies(conn.origin, config, f), c);
    HandledOne(conn.origin, config, f, c);
    ConnSane(s, t, k, c);
  }

  lemma RepliesQuiet(o: Origin, config: Config, f: Frame, c: nat)
    ensures Lines(Replies(o, config, f), c) == []
  {
    assert [Welcome][..0] == [] && [Pong][..0] == [];
  }

  /** What a frame does to the bridge of client c. */
  lemma HandledOne(o: Origin, config: Config, f: Frame, c: nat)
    requires Serving(o) && !o.closed
    ensures var h := Handled(o, config, f);
      && Serving(h)
      && (c in h.clients && c !in o.clients ==> f == Open(c) && h.clients[c] == Client(false, []))
      && (c in h.clients && c in o.clients && h.clients[c] != o.clients[c] ==>
            f.Data? && f.cid == c && !o.clients[c].connected && !h.clients[c].connected)
  {
  }

  lemma EdgeOpensSane(s: System, config: Config, role: string, coin: string, token: string, c: nat)
    requires Sane(s, c) && s.edge.connected
    ensures Sane(Next(s, config, EdgeOpens(role, coin, token)), c)
  {
    hide Shaped, Lines, Log, Placed, Written, Unborn;
    var p, out := s.(edge := s.edge.(backoff := 0)), [Hello(role, coin, token)];
    ShapedOne(out[0], c);
    assert Waiting(p) == Waiting(s);
    WriteSane(s, p, out, c);
  }

  lemma EdgeLosesLinkSane(s: System, config: Config, c: nat)
    requires Sane(s, c) && s.edge.connected
    ensures Sane(Next(s, config, EdgeLosesLink), c)
  {
    hide Shaped, Lines, Log, Placed, Written, Unborn;
    var t := Next(s, config, EdgeLosesLink);
    assert Waiting(t) == t.tasks == s.tasks;
    ShapedConcat(s.edge.pending, s.tasks, c);
    NotBad(s, c);
    DropSane(s, t, c);
  }

  lemma PoppedSane(s: System, c: nat)
    requires Sane(s, c) && s.conns != [] && s.conns[|s.conns| - 1].down != []
    ensures Sane(Popped(s), c)
  {
    hide Shaped, Lines, Log, Sane, Delivered;
    var n := |s.conns| - 1;
    HasPlace(s, n, c);
    LinesCons(s.conns[n].down, c);
    ConnSane(s, Popped(s), n, c);
  }

  lemma EdgeReadsSane(s: System, config: Config, c: nat)
    requires Sane(s, c) && Enabled(s, EdgeReads)
    ensures Sane(Next(s, config, EdgeReads), c)
  {
    hide Shaped, Lines, Log, Placed, Written, Unborn, Delivered, Linked, Popped;
    var f, q := s.conns[|s.conns| - 1].down[0], Popped(s);
    var (edge, out) := Received(s.edge, f);
    PoppedSane(s, c);
    LinkedEdge(s);
    var p := q.(edge := edge);
    FlushShapes(s.edge, f, s.tasks, c);
    WriteSane(q, p, out, c);
  }

  lemma LinkedEdge(s: System)
    requires Linked(s)
    ensures s.edge.running && (s.edge.welcomed ==> s.edge.connected && s.edge.pending == [])
  {
  }

  lemma FlushShapes(edge: Edge, f: Frame, tasks: seq<Frame>, c: nat)
    requires edge.connected
    ensures var (e, out) := Received(edge, f);
      Shaped(edge.pending + tasks, c) == Join(Shaped(out, c), Shaped(e.pending + tasks, c))
  {
    ShapedConcat(edge.pending, tasks, c);
    ShapedConcat([], tasks, c);
    ShapedOne(Pong, c);
    assert ShapeOf(Pong, c) == Empty;
  }

  // ---------- lines towards the origin, for one client ----------

  /** The connection of client c, when its open frame has been written. */
  predicate AtHomeConn(s: System, c: nat)
  {
    c in s.home && s.home[c] < |s.conns|
  }

  /** The frames that can still reach the bridge of client c. */
  function Coming(s: System, c: nat): (fs: seq<Frame>)
  {
    if AtHomeConn(s, c) then s.conns[s.home[c]].up + (if IsCurrent(s, s.home[c]) then Waiting(s) else [])
    else Waiting(s)
  }

  predicate IsBridged(s: System, c: nat)
  {
    AtHomeConn(s, c) && c in s.conns[s.home[c]].origin.clients
  }

  function Held(s: System, c: nat): (lines: seq<string>)
  {
    if IsBridged(s, c) then s.conns[s.home[c]].origin.clients[c].pending else []
  }

  /** Whether frames posted from now on can still follow. */
  predicate Extensible(s: System, c: nat)
  {
    AtHomeConn(s, c) ==> IsCurrent(s, s.home[c])
  }

  /** What has been passed on or buffered, what is coming, and what the miner sent. */
  datatype View = View(
    past: seq<string>, lines: seq<string>, replay: seq<string>, stillOpen: bool, sent: seq<string>, extensible: bool, cap: bool)

  function ViewOf(s: System, c: nat): View
  {
    var fs, open := Coming(s, c), IsBridged(s, c);
    View(Log(s.loopIn, c) + Held(s, c), Lines(fs, c), Replay(fs, c, open), OpenAfter(fs, c, open),
         Log(s.sent, c), Extensible(s, c), s.capHit)
  }

  /** In order always; nothing missing in between unless a full buffer dropped something. */
  predicate Good(v: View)
  {
    && Subsequence(v.past + v.lines, v.sent)
    && (!v.cap ==> v.past + v.replay <= v.sent && (v.extensible && v.stillOpen ==> v.past + v.replay == v.sent))
  }

  ghost predicate Flow(s: System, c: nat)
  {
    Good(ViewOf(s, c)) && (c !in s.home ==> Log(s.loopIn, c) == [])
  }

  lemma GoodSame(v: View, w: View)
    requires Good(v) && w == v.(cap := w.cap, extensible := w.extensible)
    requires (v.cap ==> w.cap) && (w.extensible ==> v.extensible)
    ensures Good(w)
  {
  }

  /** Lines are lost from the end of what is coming, or from anywhere once a buffer was full. */
  lemma GoodLess(v: View, w: View, a: seq<string>, m: seq<string>, b: seq<string>)
    requires Good(v) && w.sent == v.sent && (v.cap ==> w.cap)
    requires v.past + v.lines == a + m + b && w.past + w.lines == a + b
    requires !w.cap ==> w.past + w.replay <= v.past + v.replay && !(w.extensible && w.stillOpen)
    ensures Good(w)
  {
    SubsequenceOmit(a, m, b, v.sent);
  }

  lemma FlowSame(s: System, t: System, c: nat)
    requires Flow(s, c) && ViewOf(t, c) == ViewOf(s, c).(cap := t.capHit, extensible := Extensible(t, c))
    requires (s.capHit ==> t.capHit) && (Extensible(t, c) ==> Extensible(s, c))
    requires c !in t.home ==> c !in s.home && Log(t.loopIn, c) == Log(s.loopIn, c)
    ensures Flow(t, c)
  {
    hide Good;
    GoodSame(ViewOf(s, c), ViewOf(t, c));
  }

  lemma AppendOne(fs: seq<Frame>, f: Frame, c: nat, open: bool)
    ensures Lines(fs + [f], c) == Lines(fs, c) + LineOf(f, c)
    ensures OpenAfter(fs + [f], c, open) == OpenedBy(f, c, OpenAfter(fs, c, open))
    ensures Replay(fs + [f], c, open) == Replay(fs, c, open) + if OpenAfter(fs, c, open) then LineOf(f, c) else []
  {
    hide LineOf, OpenedBy;
    assert (fs + [f])[..|fs|] == fs;
  }

  /** A frame posted while the client's frames can still follow. */
  lemma GoodPost(v: View, w: View, f: Frame, c: nat)
    requires Good(v) && v.extensible && w.past == v.past && w.cap == v.cap
    requires w.lines == v.lines + LineOf(f, c) && w.stillOpen == OpenedBy(f, c, v.stillOpen)
    requires w.replay == v.replay + if v.stillOpen then LineOf(f, c) else []
    requires w.sent == v.sent + LineOf(f, c) && f != Open(c)
    ensures Good(w)
  {
    hide LineOf, OpenedBy, Subsequence;
    var line := LineOf(f, c);
    LineFacts(f, c, v.stillOpen);
    NothingMore(v.lines, v.sent, v.replay);
    if line != [] {
      SubsequenceSnoc(v.past + v.lines, v.sent, line[0]);
      Onwards(v.past, v.lines, line);
      Onwards(v.past, v.replay, line);
      Longer(v.past + v.replay, v.sent, line);
    }
  }

  lemma LineFacts(f: Frame, c: nat, open: bool)
    ensures LineOf(f, c) == [] || LineOf(f, c) == [LineOf(f, c)[0]]
    ensures f != Open(c) && OpenedBy(f, c, open) ==> open
  {
  }

  lemma NothingMore(a: seq<string>, b: seq<string>, d: seq<string>)
    ensures a + [] == a && b + [] == b && d + [] == d
  {
  }

  lemma Onwards(a: seq<string>, b: seq<string>, x: seq<string>)
    ensures a + (b + x) == a + b + x
  {
  }

  lemma Longer(a: seq<string>, b: seq<string>, x: seq<string>)
    ensures a <= b ==> a <= b + x
  {
  }

  /** A line whose connection is gone. */
  lemma GoodLate(v: View, w: View, line: string)
    requires Good(v) && !v.extensible && w == v.(sent := v.sent + [line])
    ensures Good(w)
  {
    SubsequenceSkip(v.past + v.lines, v.sent, line);
  }

  /** Posting a frame other than the client's open frame. */
  lemma PostFlow(s: System, t: System, f: Frame, c: nat)
    requires Flow(s, c) && f != Open(c) && t.tasks == s.tasks + [f] && t.edge.pending == s.edge.pending
    requires t.edge.connected == s.edge.connected && t.conns == s.conns && t.home == s.home && t.loopIn == s.loopIn
    requires t.capHit == s.capHit && Log(t.sent, c) == Log(s.sent, c) + LineOf(f, c)
    ensures Flow(t, c)
  {
    hide Lines, Replay, OpenAfter, LineOf, OpenedBy, Good, Log, Coming, Held, IsBridged, Extensible;
    var v, w := ViewOf(s, c), ViewOf(t, c);
    PostComing(s, t, f, c);
    assert Coming(s, c) + [] == Coming(s, c);
    if v.extensible {
      AppendOne(Coming(s, c), f, c, IsBridged(s, c));
      GoodPost(v, w, f, c);
    } else {
      LateLine(v, w, f, c);
    }
  }

  lemma PostComing(s: System, t: System, f: Frame, c: nat)
    requires t.tasks == s.tasks + [f] && t.edge.pending == s.edge.pending
    requires t.edge.connected == s.edge.connected && t.conns == s.conns && t.home == s.home
    ensures Coming(t, c) == Coming(s, c) + if Extensible(s, c) then [f] else []
    ensures Extensible(t, c) == Extensible(s, c) && IsBridged(t, c) == IsBridged(s, c) && Held(t, c) == Held(s, c)
  {
    assert Coming(s, c) + [] == Coming(s, c);
    if Extensible(s, c) {
      assert Coming(t, c) == Coming(s, c) + [f];
    }
  }

  lemma LateLine(v: View, w: View, f: Frame, c: nat)
    requires Good(v) && !v.extensible && w == v.(sent := v.sent + LineOf(f, c))
    ensures Good(w)
  {
    hide Good;
    if LineOf(f, c) == [] {
      assert v.sent + [] == v.sent;
    } else {
      GoodLate(v, w, Terminated(f.text));
    }
  }

  lemma MinerConnectsFlow(s: System, config: Config, c: nat)
    requires Sane(s, c) && Flow(s, c)
    ensures Flow(Next(s, config, MinerConnects), c)
  {
    hide Lines, Replay, OpenAfter, Log, Shaped, Placed;
    var t, f := Next(s, config, MinerConnects), Open(s.edge.nextCid);
    assert LineOf(f, c) == [];
    assert Log(s.sent, c) + [] == Log(s.sent, c);
    if c == s.edge.nextCid {
      assert Coming(t, c) == Waiting(s) + [f];
      NoFrames(Waiting(s), c, false);
      AppendOne(Waiting(s), f, c, false);
    } else {
      PostFlow(s, t, f, c);
    }
  }

  lemma MinerLineFlow(s: System, config: Config, cid: nat, text: string, c: nat)
    requires Flow(s, c) && cid in s.live
    ensures Flow(Next(s, config, MinerLine(cid, text)), c)
  {
    hide Flow, Log;
    assert Log(s.sent, c) + [] == Log(s.sent, c);
    PostFlow(s, Next(s, config, MinerLine(cid, text)), Data(cid, text), c);
  }

  lemma MinerClosesFlow(s: System, config: Config, cid: nat, c: nat)
    requires Flow(s, c) && cid in s.live
    ensures Flow(Next(s, config, MinerCloses(cid)), c)
  {
    hide Flow, Log;
    var t := Next(s, config, MinerCloses(cid));
    assert Log(s.sent, c) + [] == Log(s.sent, c);
    if cid in s.edge.sessions {
      PostFlow(s, t, Close(cid), c);
    } else {
      assert t.tasks == s.tasks;
      SameBuffers(s, t, c);
    }
  }

  lemma SameBuffers(s: System, t: System, c: nat)
    requires Flow(s, c) && t.tasks == s.tasks && t.edge.pending == s.edge.pending && t.edge.connected == s.edge.connected
    requires t.conns == s.conns && t.home == s.home && t.loopIn == s.loopIn && t.sent == s.sent && t.capHit == s.capHit
    ensures Flow(t, c)
  {
    hide Good;
  }

  /** Frames without any of the client's change nothing for it, wherever they stand. */
  lemma NoiseBetween(a: seq<Frame>, noise: seq<Frame>, b: seq<Frame>, c: nat, open: bool)
    requires Shaped(noise, c).Empty?
    ensures Lines(a + noise + b, c) == Lines(a + b, c)
    ensures Replay(a + noise + b, c, open) == Replay(a + b, c, open)
    ensures OpenAfter(a + noise + b, c, open) == OpenAfter(a + b, c, open)
  {
    hide Lines, Replay, OpenAfter, Shaped;
    var o := OpenAfter(a, c, open);
    NoFrames(noise, c, o);
    LinesConcat(a, noise, c);
    LinesConcat(a + noise, b, c);
    LinesConcat(a, b, c);
    ReplayConcat(a, noise, c, open);
    ReplayConcat(a + noise, b, c, open);
    ReplayConcat(a, b, c, open);
  }

  lemma WrittenConns(p: System, out: seq<Frame>)
    requires p.conns != []
    ensures var t, n := Written(p, out), |p.conns| - 1;
      && t == p.(conns := t.conns, home := Homes(p.home, out, n)) && |t.conns| == n + 1
      && t.conns[n] == p.conns[n].(up := p.conns[n].up + out)
      && forall k | 0 <= k < n :: t.conns[k] == p.conns[k]
  {
    hide Homes;
  }

  /** Buffered frames are written in order. */
  lemma MoveFlow(s: System, p: System, out: seq<Frame>, c: nat)
    requires Sane(s, c) && Flow(s, c) && s.edge.connected && p == s.(edge := p.edge, tasks := p.tasks, capHit := p.capHit)
    requires p.edge.connected && Waiting(s) == out + Waiting(p) && (s.capHit ==> p.capHit)
    ensures Flow(Written(p, out), c)
  {
    hide Lines, Replay, OpenAfter, Shaped, Log, Good, Written, Homes, Stranger, AtHome;
    var n, t := |s.conns| - 1, Written(p, out);
    WrittenConns(p, out);
    assert Waiting(t) == Waiting(p);
    NotBad(s, c);
    ShapedConcat(out, Waiting(p), c);
    HomesOf(s.home, out, n, c);
    if c in s.home {
      assert PlainOrEmpty(Shaped(Waiting(s), c)) && s.home[c] < |s.conns|;
      assert Coming(t, c) == Coming(s, c);
      FlowSame(s, t, c);
    } else if Shaped(out, c).Opening? {
      MoveOpen(s, p, out, c);
    } else {
      MovePlain(s, p, out, c);
    }
  }

  lemma MoveOpen(s: System, p: System, out: seq<Frame>, c: nat)
    requires Sane(s, c) && Flow(s, c) && s.edge.connected && p == s.(edge := p.edge, tasks := p.tasks, capHit := p.capHit)
    requires p.edge.connected && Waiting(s) == out + Waiting(p) && (s.capHit ==> p.capHit)
    requires c !in s.home && Shaped(out, c).Opening? && Shaped(Waiting(s), c).Opening?
    ensures Flow(Written(p, out), c)
  {
    hide Lines, Replay, OpenAfter, Shaped, Log, Good, Waiting, Written, Homes, Coming, Placed, Stranger;
    var n, t := |s.conns| - 1, Written(p, out);
    var up := s.conns[n].up;
    MoveOpenComing(s, p, out, c);
    NoiseBetween([], up, Waiting(s), c, false);
    assert [] + Waiting(s) == Waiting(s);
    FlowSame(s, t, c);
  }

  lemma MoveOpenComing(s: System, p: System, out: seq<Frame>, c: nat)
    requires Placed(s, c) && s.conns != [] && s.edge.connected
    requires p == s.(edge := p.edge, tasks := p.tasks, capHit := p.capHit)
    requires p.edge.connected && Waiting(s) == out + Waiting(p)
    requires c !in s.home && Shaped(out, c).Opening? && Shaped(Waiting(s), c).Opening?
    ensures var n, t := |s.conns| - 1, Written(p, out);
      && Coming(s, c) == Waiting(s) && Coming(t, c) == [] + s.conns[n].up + Waiting(s) && Shaped(s.conns[n].up, c).Empty?
      && !IsBridged(s, c) && !IsBridged(t, c) && IsCurrent(t, n) && AtHomeConn(t, c) && t.home[c] == n
      && t.loopIn == s.loopIn && t.sent == s.sent && t.capHit == p.capHit
  {
    hide Shaped, Written, Homes;
    var n, t := |s.conns| - 1, Written(p, out);
    WrittenConns(p, out);
    assert Waiting(t) == Waiting(p);
    HomesOf(s.home, out, n, c);
    assert s.conns[n].up + out + Waiting(p) == [] + s.conns[n].up + (out + Waiting(p));
  }

  /** Frames of a client whose open frame was lost. */
  lemma MovePlain(s: System, p: System, out: seq<Frame>, c: nat)
    requires Sane(s, c) && Flow(s, c) && s.edge.connected && p == s.(edge := p.edge, tasks := p.tasks, capHit := p.capHit)
    requires p.edge.connected && Waiting(s) == out + Waiting(p) && (s.capHit ==> p.capHit)
    requires c !in s.home && PlainOrEmpty(Shaped(out, c)) && !Shaped(Waiting(s), c).Bad?
    ensures Flow(Written(p, out), c)
  {
    hide Lines, Replay, OpenAfter, Shaped, Log, Good, Waiting, Written, Homes, Coming, Placed, Stranger;
    var t := Written(p, out);
    MovePlainComing(s, p, out, c);
    if Shaped(out, c).Empty? {
      assert [] + out + Waiting(p) == Waiting(s) && [] + Waiting(p) == Waiting(p);
      NoiseBetween([], out, Waiting(p), c, false);
      FlowSame(s, t, c);
    } else {
      LostOpen(out, Waiting(p), c);
      LessLines(ViewOf(s, c), ViewOf(t, c), Lines(out, c), Lines(Waiting(p), c));
    }
  }

  lemma MovePlainComing(s: System, p: System, out: seq<Frame>, c: nat)
    requires s.conns != [] && p == s.(edge := p.edge, tasks := p.tasks, capHit := p.capHit)
    requires c !in s.home && PlainOrEmpty(Shaped(out, c))
    ensures var t := Written(p, out);
      && Coming(s, c) == Waiting(s) && Coming(t, c) == Waiting(p) && c !in t.home && !IsBridged(s, c) && !IsBridged(t, c)
      && t.loopIn == s.loopIn && t.sent == s.sent && t.capHit == p.capHit
  {
    hide Shaped, Written, Homes;
    WrittenConns(p, out);
    assert Waiting(Written(p, out)) == Waiting(p);
    HomesOf(s.home, out, |s.conns| - 1, c);
  }

  lemma LostOpen(out: seq<Frame>, rest: seq<Frame>, c: nat)
    requires Shaped(out, c).Plain? && !Shaped(out + rest, c).Bad?
    ensures Replay(rest, c, false) == [] && !OpenAfter(rest, c, false)
    ensures Lines(out + rest, c) == Lines(out, c) + Lines(rest, c)
  {
    hide Lines, Replay, OpenAfter, Shaped;
    ShapedConcat(out, rest, c);
    NothingOpens(rest, c);
    LinesConcat(out, rest, c);
  }

  lemma LessLines(v: View, w: View, m: seq<string>, b: seq<string>)
    requires Good(v) && w.past == v.past && w.sent == v.sent && (v.cap ==> w.cap) && v.lines == m + b && w.lines == b
    requires w.replay == [] && !w.stillOpen
    ensures Good(w)
  {
    assert v.past + v.lines == v.past + m + b;
    assert w.past + w.replay <= v.past + v.replay;
    GoodLess(v, w, v.past, m, b);
  }

  /** A frame that concerns no client is written. */
  lemma NoiseFlow(s: System, p: System, out: seq<Frame>, c: nat)
    requires Sane(s, c) && Flow(s, c) && s.edge.connected && p == s.(edge := p.edge, tasks := p.tasks, capHit := p.capHit)
    requires p.edge.connected && Waiting(s) == Waiting(p) && p.capHit == s.capHit && Shaped(out, c).Empty?
    ensures Flow(Written(p, out), c)
  {
    hide Lines, Replay, OpenAfter, Shaped, Log, Good, Written, Homes, Stranger, AtHome;
    var n, t := |s.conns| - 1, Written(p, out);
    WrittenConns(p, out);
    assert Waiting(t) == Waiting(p);
    HomesOf(s.home, out, n, c);
    if AtHomeConn(s, c) && s.home[c] == n {
      var up := s.conns[n].up;
      assert Coming(t, c) == up + out + Waiting(p) && Coming(s, c) == up + Waiting(p);
      NoiseBetween(up, out, Waiting(p), c, IsBridged(s, c));
    }
    FlowSame(s, t, c);
  }

  /** A full buffer drops one frame. */
  lemma CapFlow(s: System, t: System, before: seq<Frame>, f: Frame, after: seq<Frame>, c: nat)
    requires Flow(s, c) && t == s.(tasks := t.tasks, edge := t.edge, capHit := true) && t.edge.connected == s.edge.connected
    requires Waiting(s) == before + [f] + after && Waiting(t) == before + after
    ensures Flow(t, c)
  {
    hide Lines, Replay, OpenAfter, LineOf, Log, Good, Waiting, Coming;
    var v, w := ViewOf(s, c), ViewOf(t, c);
    var up := if AtHomeConn(s, c) then s.conns[s.home[c]].up else [];
    ComingWaits(s, t, c, up);
    if v.extensible {
      UpFirst(up, before, f, after);
      OneOut(v, w, up + before, f, after, c);
    } else {
      FlowSame(s, t, c);
    }
  }

  lemma ComingWaits(s: System, t: System, c: nat, up: seq<Frame>)
    requires t == s.(tasks := t.tasks, edge := t.edge, capHit := true) && t.edge.connected == s.edge.connected
    requires up == if AtHomeConn(s, c) then s.conns[s.home[c]].up else []
    ensures Extensible(s, c) ==> Coming(s, c) == up + Waiting(s) && Coming(t, c) == up + Waiting(t)
    ensures !Extensible(s, c) ==> Coming(t, c) == Coming(s, c)
  {
    hide Waiting;
    assert [] + Waiting(s) == Waiting(s) && [] + Waiting(t) == Waiting(t);
  }

  lemma UpFirst(up: seq<Frame>, before: seq<Frame>, f: Frame, after: seq<Frame>)
    ensures up + (before + [f] + after) == up + before + [f] + after && up + (before + after) == up + before + after
  {
  }

  lemma OneOut(v: View, w: View, before: seq<Frame>, f: Frame, after: seq<Frame>, c: nat)
    requires Good(v) && w.cap && w.past == v.past && w.sent == v.sent
    requires v.lines == Lines(before + [f] + after, c) && w.lines == Lines(before + after, c)
    ensures Good(w)
  {
    hide Lines, LineOf, Good;
    LinesConcat(before + [f], after, c);
    LinesConcat(before, [f], c);
    LinesConcat(before, after, c);
    var a, m, b := v.past + Lines(before, c), Lines([f], c), Lines(after, c);
    assert v.past + v.lines == a + m + b && w.past + w.lines == a + b;
    GoodLess(v, w, a, m, b);
  }

  lemma TaskRunsFlow(s: System, config: Config, c: nat)
    requires Sane(s, c) && Flow(s, c) && s.tasks != []
    ensures Flow(Next(s, config, TaskRuns), c)
  {
    hide Flow, Placed, Unborn, Written;
    var f := s.tasks[0];
    var (edge, out) := Sent(s.edge, f);
    var p := s.(edge := edge, tasks := s.tasks[1..], capHit := s.capHit || SendDrops(s.edge));
    assert s.tasks == [f] + s.tasks[1..];
    NoWrite(p);
    if Direct(s.edge) {
      assert Waiting(p) == s.tasks[1..] && Waiting(s) == s.tasks;
      MoveFlow(s, p, [f], c);
    } else if SendDrops(s.edge) {
      assert Waiting(s) == s.edge.pending + [f] + s.tasks[1..];
      CapFlow(s, p, s.edge.pending, f, s.tasks[1..], c);
    } else {
      assert Waiting(p) == Waiting(s);
      SameWaiting(s, p, c);
    }
  }

  lemma SameWaiting(s: System, t: System, c: nat)
    requires Flow(s, c) && Waiting(t) == Waiting(s) && t.edge.connected == s.edge.connected && |t.conns| == |s.conns|
    requires forall k | 0 <= k < |s.conns| :: t.conns[k].up == s.conns[k].up && t.conns[k].origin == s.conns[k].origin
    requires t.home == s.home && t.loopIn == s.loopIn && t.sent == s.sent && t.capHit == s.capHit
    ensures Flow(t, c)
  {
    hide Good, Waiting, Lines, Replay, OpenAfter, Log;
  }

  lemma EdgeConnectsFlow(s: System, config: Config, c: nat)
    requires Sane(s, c) && Flow(s, c) && !s.edge.connected
    ensures Flow(Next(s, config, EdgeConnects), c)
  {
    hide Good, Lines, Replay, OpenAfter, Log, Stranger, AtHome, Shaped;
    var t := Next(s, config, EdgeConnects);
    assert Waiting(t) == Waiting(s);
    assert forall k | 0 <= k < |s.conns| :: t.conns[k] == s.conns[k];
    assert Coming(t, c) == Coming(s, c);
  }

  lemma EdgeOpensFlow(s: System, config: Config, role: string, coin: string, token: string, c: nat)
    requires Sane(s, c) && Flow(s, c) && s.edge.connected
    ensures Flow(Next(s, config, EdgeOpens(role, coin, token)), c)
  {
    hide Flow, Placed, Unborn, Written, Linked;
    var p, out := s.(edge := s.edge.(backoff := 0)), [Hello(role, coin, token)];
    ShapedOne(out[0], c);
    assert Waiting(p) == Waiting(s);
    NoiseFlow(s, p, out, c);
  }

  lemma EdgeReadsFlow(s: System, config: Config, c: nat)
    requires Sane(s, c) && Flow(s, c) && Enabled(s, EdgeReads)
    ensures Flow(Next(s, config, EdgeReads), c)
  {
    hide Flow, Placed, Unborn, Written, Linked, Sane;
    var f, q := s.conns[|s.conns| - 1].down[0], Popped(s);
    var (edge, out) := Received(s.edge, f);
    PoppedSane(s, c);
    SameWaiting(s, q, c);
    var p := q.(edge := edge);
    NoWrite(p);
    if f.Welcome? {
      assert Waiting(q) == out + Waiting(p);
      MoveFlow(q, p, out, c);
    } else {
      assert Waiting(q) == Waiting(p);
      ShapedOne(Pong, c);
      assert Shaped([], c).Empty?;
      NoiseFlow(q, p, out, c);
    }
  }

  lemma EdgeLosesLinkFlow(s: System, config: Config, c: nat)
    requires Sane(s, c) && Flow(s, c) && s.edge.connected
    ensures Flow(Next(s, config, EdgeLosesLink), c)
  {
    hide Flow, Unborn, Linked, Placed;
    var t := Next(s, config, EdgeLosesLink);
    assert Waiting(t) == t.tasks;
    if c in s.home {
      LoseAtHome(s, t, c);
    } else {
      LoseUnwritten(s, t, c);
    }
  }

  lemma LoseAtHome(s: System, t: System, c: nat)
    requires Placed(s, c) && Flow(s, c) && s.edge.connected && !t.edge.connected && t == s.(edge := t.edge) && c in s.home
    ensures Flow(t, c)
  {
    hide Lines, Replay, OpenAfter, Log, Good, Shaped, Stranger, AtHome, Waiting;
    var up := s.conns[s.home[c]].up;
    assert up + [] == up;
    if IsCurrent(s, s.home[c]) {
      CutOff(ViewOf(s, c), ViewOf(t, c), up, Waiting(s), c, IsBridged(s, c));
    } else {
      FlowSame(s, t, c);
    }
  }

  lemma LoseUnwritten(s: System, t: System, c: nat)
    requires Placed(s, c) && Flow(s, c) && t == s.(edge := t.edge) && c !in s.home && Waiting(t) == s.tasks
    ensures Flow(t, c)
  {
    hide Lines, Replay, OpenAfter, Log, Good, Shaped, Stranger;
    var pending, tasks := s.edge.pending, s.tasks;
    assert Coming(s, c) == pending + tasks && Coming(t, c) == tasks && !IsBridged(s, c) && !IsBridged(t, c);
    ShapedConcat(pending, tasks, c);
    if Shaped(pending, c).Empty? {
      assert [] + pending + tasks == pending + tasks && [] + tasks == tasks;
      NoiseBetween([], pending, tasks, c, false);
      FlowSame(s, t, c);
    } else {
      NothingOpens(tasks, c);
      LinesConcat(pending, tasks, c);
      LessLines(ViewOf(s, c), ViewOf(t, c), Lines(pending, c), Lines(tasks, c));
    }
  }

  /** Everything behind what has been written is lost. */
  lemma CutOff(v: View, w: View, up: seq<Frame>, lost: seq<Frame>, c: nat, open: bool)
    requires Good(v) && w.past == v.past && w.sent == v.sent && w.cap == v.cap && !w.extensible
    requires v.lines == Lines(up + lost, c) && v.replay == Replay(up + lost, c, open)
    requires w.lines == Lines(up, c) && w.replay == Replay(up, c, open)
    ensures Good(w)
  {
    hide Lines, Replay, OpenAfter, Good;
    LinesConcat(up, lost, c);
    ReplayConcat(up, lost, c, open);
    var a, m := v.past + Lines(up, c), Lines(lost, c);
    assert v.past + v.lines == a + m + [] && w.past + w.lines == a + [];
    assert v.past + v.replay == w.past + w.replay + Replay(lost, c, OpenAfter(up, c, open));
    GoodLess(v, w, a, m, []);
  }

  /** A frame the origin does not refuse is handled as the forwarding rule says, unless the client's buffer is full. */
  lemma HandledClient(o: Origin, config: Config, f: Frame, c: nat)
    requires Serving(o) && !o.closed && c != 0 && !Handled(o, config, f).closed
    requires c in o.clients && o.clients[c].connected ==> o.clients[c].pending == []
    ensures var h := Handled(o, config, f);
      && (c in h.clients <==> OpenedBy(f, c, c in o.clients))
      && ((f != Close(c) || c !in o.clients) && !(ClientDrops(o, f) && f.Data? && f.cid == c) ==>
           Forwarded(o, f, c) + PendingOf(h, c) == PendingOf(o, c) + if c in o.clients then LineOf(f, c) else [])
      && (ClientDrops(o, f) && f.Data? && f.cid == c ==> Forwarded(o, f, c) == [] && PendingOf(h, c) == PendingOf(o, c))
  {
    var held := PendingOf(o, c);
    assert held + [] == held && [] + held == held;
    if f.Data? && f.cid == c && o.helloOk && c in o.clients {
      BufferedOne(o, c, f.text);
    }
  }

  lemma BufferedOne(o: Origin, c: nat, text: string)
    requires c in o.clients && (o.clients[c].connected ==> o.clients[c].pending == [])
    ensures var h, line := Buffered(o, c, Terminated(text)), [Terminated(text)];
      && c in h.clients
      && (if o.clients[c].connected then line + h.clients[c].pending == o.clients[c].pending + line
          else if |o.clients[c].pending| < CLIENT_CAP then [] + h.clients[c].pending == o.clients[c].pending + line
          else h == o)
  {
    var pending, line := o.clients[c].pending, [Terminated(text)];
    assert line + [] == line && [] + line == line && [] + (pending + line) == pending + line;
  }

  function PendingOf(o: Origin, c: nat): (lines: seq<string>)
  {
    if c in o.clients then o.clients[c].pending else []
  }

  lemma ReplayCons(fs: seq<Frame>, c: nat, open: bool)
    requires fs != []
    ensures var o := OpenedBy(fs[0], c, open);
      && OpenAfter(fs, c, open) == OpenAfter(fs[1..], c, o)
      && Replay(fs, c, open) == (if open then LineOf(fs[0], c) else []) + Replay(fs[1..], c, o)
  {
    hide LineOf, OpenedBy;
    var f := fs[0];
    assert fs == [f] + fs[1..] && [f][..0] == [];
    ReplayConcat([f], fs[1..], c, open);
  }

  /** The origin handles the first of the coming frames. */
  lemma GoodConsume(v: View, w: View, fs: seq<Frame>, c: nat, open: bool, past: seq<string>)
    requires Good(v) && fs != [] && v.lines == Lines(fs, c) && v.replay == Replay(fs, c, open) && v.stillOpen == OpenAfter(fs, c, open)
    requires w.past == v.past + past && past == if open then LineOf(fs[0], c) else []
    requires w.lines == Lines(fs[1..], c) && w.replay == Replay(fs[1..], c, OpenedBy(fs[0], c, open))
    requires w.stillOpen == OpenAfter(fs[1..], c, OpenedBy(fs[0], c, open))
    requires w.sent == v.sent && w.extensible == v.extensible && (v.cap ==> w.cap)
    ensures Good(w)
  {
    hide Lines, Replay, OpenAfter, LineOf, OpenedBy, Subsequence;
    LinesCons(fs, c);
    ReplayCons(fs, c, open);
    var l := LineOf(fs[0], c);
    assert v.past + v.replay == w.past + w.replay;
    if open {
      assert v.past + v.lines == w.past + w.lines;
    } else {
      assert v.past + v.lines == v.past + l + w.lines && w.past + w.lines == v.past + w.lines;
      SubsequenceOmit(v.past, l, w.lines, v.sent);
    }
  }

  /** A line is dropped by a full client buffer. */
  lemma GoodFull(v: View, w: View, fs: seq<Frame>, c: nat)
    requires Good(v) && fs != [] && v.lines == Lines(fs, c) && w.cap && w.past == v.past && w.lines == Lines(fs[1..], c) && w.sent == v.sent
    ensures Good(w)
  {
    hide Lines, LineOf, Subsequence;
    LinesCons(fs, c);
    assert v.past + v.lines == v.past + LineOf(fs[0], c) + w.lines;
    SubsequenceOmit(v.past, LineOf(fs[0], c), w.lines, v.sent);
  }

  /** A bridge goes away together with what it had buffered, and nothing will open it again. */
  lemma GoodUnbridge(v: View, w: View, held: seq<string>, gone: seq<string>)
    requires Good(v) && v.past == w.past + held && v.lines == gone + w.lines && w.replay == [] && !w.stillOpen
    requires w.sent == v.sent && (v.cap ==> w.cap)
    ensures Good(w)
  {
    hide Subsequence;
    assert v.past + v.lines == w.past + (held + gone) + w.lines;
    assert w.past + w.replay <= v.past + v.replay;
    GoodLess(v, w, w.past, held + gone, w.lines);
  }

  /** A step of a connection that is not the client's home. */
  lemma ElsewhereFlow(s: System, t: System, k: nat, c: nat)
    requires Placed(s, c) && Flow(s, c) && k < |s.conns| && !(c in s.home && s.home[c] == k) && |t.conns| == |s.conns|
    requires t == s.(conns := s.conns[k := t.conns[k]], loopIn := t.loopIn, loopOut := t.loopOut, got := t.got,
                     bridged := t.bridged, opens := t.opens, capHit := t.capHit)
    requires Log(t.loopIn, c) == Log(s.loopIn, c) && (s.capHit ==> t.capHit)
    ensures Flow(t, c)
  {
    hide Lines, Replay, OpenAfter, Log, Good, Shaped, Stranger, AtHome;
    assert Waiting(t) == Waiting(s);
    FlowSame(s, t, c);
  }

  lemma FromStranger(o: Origin, f: Frame, c: nat)
    requires c !in o.clients
    ensures Forwarded(o, f, c) == [] && Flushed(o, c) == []
  {
  }

  lemma LogNothing(m: map<nat, seq<string>>, d: nat, lines: seq<string>, c: nat)
    requires c == d ==> lines == []
    ensures Log(Logged(m, d, lines), c) == Log(m, c)
  {
    assert Log(m, c) + [] == Log(m, c);
  }

  /** The bridge goes away: nothing that is still coming can open it again. */
  lemma UnbridgeFlow(s: System, t: System, k: nat, c: nat, gone: seq<Frame>)
    requires Sane(s, c) && Flow(s, c) && c in s.home && s.home[c] == k && k < |s.conns| && c in s.conns[k].origin.clients
    requires |t.conns| == |s.conns|
    requires t == s.(conns := s.conns[k := t.conns[k]], loopIn := t.loopIn, bridged := t.bridged, opens := t.opens,
                     capHit := t.capHit)
    requires c !in t.conns[k].origin.clients && s.conns[k].up == gone + t.conns[k].up
    requires Log(t.loopIn, c) == Log(s.loopIn, c) && (s.capHit ==> t.capHit)
    ensures Flow(t, c)
  {
    hide Lines, Replay, OpenAfter, Log, Good, Shaped, Stranger, Linked, Unborn;
    assert Waiting(t) == Waiting(s);
    var rest := Coming(t, c);
    assert Coming(s, c) == gone + rest;
    ComingIsPlain(s, c);
    ShapedConcat(gone, rest, c);
    NothingOpens(rest, c);
    LinesConcat(gone, rest, c);
    assert Log(t.loopIn, c) + [] == Log(t.loopIn, c);
    hide Placed, Coming;
    GoodUnbridge(ViewOf(s, c), ViewOf(t, c), Held(s, c), Lines(gone, c));
  }

  lemma ComingIsPlain(s: System, c: nat)
    requires Placed(s, c) && IsBridged(s, c)
    ensures PlainOrEmpty(Shaped(Coming(s, c), c))
  {
    hide Shaped, Stranger, Waiting;
    ShapedConcat(s.conns[s.home[c]].up, Waiting(s), c);
    assert s.conns[s.home[c]].up + [] == s.conns[s.home[c]].up;
  }

  lemma OriginLosesLinkFlow(s: System, config: Config, k: nat, c: nat)
    requires Sane(s, c) && Flow(s, c) && k < |s.conns|
    ensures Flow(Next(s, config, OriginLosesLink(k)), c)
  {
    hide Log, Good, Placed, Linked, Unborn, Stranger;
    var t := Next(s, config, OriginLosesLink(k));
    if !(c in s.home && s.home[c] == k) {
      ElsewhereFlow(s, t, k, c);
    } else if c in s.conns[k].origin.clients {
      assert s.conns[k].up == [] + t.conns[k].up;
      UnbridgeFlow(s, t, k, c, []);
    } else {
      UnchangedFlow(s, t, k, c);
    }
  }

  /** A step at home that leaves the client alone. */
  lemma UnchangedFlow(s: System, t: System, k: nat, c: nat)
    requires Flow(s, c) && c in s.home && s.home[c] == k && k < |s.conns| && |t.conns| == |s.conns|
    requires t == s.(conns := s.conns[k := t.conns[k]], loopIn := t.loopIn, loopOut := t.loopOut, capHit := t.capHit)
    requires t.conns[k].up == s.conns[k].up && (s.capHit ==> t.capHit)
    requires c in t.conns[k].origin.clients <==> c in s.conns[k].origin.clients
    requires Log(t.loopIn, c) + PendingOf(t.conns[k].origin, c) == Log(s.loopIn, c) + PendingOf(s.conns[k].origin, c)
    ensures Flow(t, c)
  {
    hide Lines, Replay, OpenAfter, Log, Good;
    assert Waiting(t) == Waiting(s);
    FlowSame(s, t, c);
  }

  lemma LoopbackConnectsFlow(s: System, config: Config, k: nat, cid: nat, c: nat)
    requires Sane(s, c) && Flow(s, c) && k < |s.conns|
    ensures Flow(Next(s, config, LoopbackConnects(k, cid)), c)
  {
    hide Log, Good, Placed, Linked, Unborn, Flow;
    var o, t := s.conns[k].origin, Next(s, config, LoopbackConnects(k, cid));
    HasPlace(s, k, c);
    if !(c in s.home && s.home[c] == k) {
      FromStranger(o, Ping, c);
      LogNothing(s.loopIn, cid, Flushed(o, cid), c);
      ElsewhereFlow(s, t, k, c);
    } else {
      var line := if c == cid then Flushed(o, c) else [];
      assert Log(s.loopIn, c) + line + PendingOf(t.conns[k].origin, c) == Log(s.loopIn, c) + PendingOf(o, c);
      assert Log(s.loopIn, c) + [] == Log(s.loopIn, c);
      UnchangedFlow(s, t, k, c);
    }
  }

  lemma LoopbackClosesFlow(s: System, config: Config, k: nat, cid: nat, c: nat)
    requires Sane(s, c) && Flow(s, c) && k < |s.conns|
    ensures Flow(Next(s, config, LoopbackCloses(k, cid)), c)
  {
    hide Log, Good, Placed, Linked, Unborn, Flow;
    var o, t := s.conns[k].origin, Next(s, config, LoopbackCloses(k, cid));
    if !(c in s.home && s.home[c] == k) {
      ElsewhereFlow(s, t, k, c);
    } else if c == cid && c in o.clients {
      assert s.conns[k].up == [] + t.conns[k].up;
      UnbridgeFlow(s, t, k, c, []);
    } else {
      UnchangedFlow(s, t, k, c);
    }
  }

  lemma LoopbackLineFlow(s: System, config: Config, k: nat, cid: nat, text: string, c: nat)
    requires Flow(s, c) && k < |s.conns| && (k, cid) in s.bridged
    ensures Flow(Next(s, config, LoopbackLine(k, cid, text)), c)
  {
    hide Good, Log, Lines, Replay, OpenAfter;
    var t := Next(s, config, LoopbackLine(k, cid, text));
    assert Waiting(t) == Waiting(s);
    FlowSame(s, t, c);
  }

  /** The client's view before and after its home connection hands one frame to the origin. */
  lemma ReadHome(s: System, t: System, k: nat, c: nat)
    requires c in s.home && s.home[c] == k && k < |s.conns| && s.conns[k].up != [] && |t.conns| == |s.conns|
    requires t == s.(conns := s.conns[k := t.conns[k]], loopIn := t.loopIn, bridged := t.bridged, opens := t.opens, capHit := t.capHit)
    requires t.conns[k].up == s.conns[k].up[1..]
    ensures Coming(s, c) != [] && Coming(s, c)[0] == s.conns[k].up[0] && Coming(t, c) == Coming(s, c)[1..]
    ensures Extensible(t, c) == Extensible(s, c) && t.sent == s.sent
    ensures IsBridged(s, c) == (c in s.conns[k].origin.clients) && Held(s, c) == PendingOf(s.conns[k].origin, c)
    ensures IsBridged(t, c) == (c in t.conns[k].origin.clients) && Held(t, c) == PendingOf(t.conns[k].origin, c)
  {
    assert Waiting(t) == Waiting(s);
  }

  lemma ConsumeFlow(s: System, t: System, k: nat, c: nat)
    requires Flow(s, c) && c in s.home && s.home[c] == k && k < |s.conns| && s.conns[k].up != [] && |t.conns| == |s.conns|
    requires t == s.(conns := s.conns[k := t.conns[k]], loopIn := t.loopIn, bridged := t.bridged, opens := t.opens, capHit := t.capHit)
    requires t.conns[k].up == s.conns[k].up[1..] && (s.capHit ==> t.capHit)
    requires var o, h, f := s.conns[k].origin, t.conns[k].origin, s.conns[k].up[0];
      && (c in h.clients <==> OpenedBy(f, c, c in o.clients))
      && Log(t.loopIn, c) + PendingOf(h, c)
         == Log(s.loopIn, c) + PendingOf(o, c) + if c in o.clients then LineOf(f, c) else []
    ensures Flow(t, c)
  {
    hide Lines, Replay, OpenAfter, OpenedBy, LineOf, Log, Good, Coming, Held, IsBridged;
    var f, open := s.conns[k].up[0], IsBridged(s, c);
    ReadHome(s, t, k, c);
    GoodConsume(ViewOf(s, c), ViewOf(t, c), Coming(s, c), c, open, if open then LineOf(f, c) else []);
  }

  lemma FullFlow(s: System, t: System, k: nat, c: nat)
    requires Flow(s, c) && c in s.home && s.home[c] == k && k < |s.conns| && s.conns[k].up != [] && |t.conns| == |s.conns|
    requires t == s.(conns := s.conns[k := t.conns[k]], loopIn := t.loopIn, bridged := t.bridged, opens := t.opens, capHit := t.capHit)
    requires t.conns[k].up == s.conns[k].up[1..] && t.capHit
    requires Log(t.loopIn, c) + PendingOf(t.conns[k].origin, c) == Log(s.loopIn, c) + PendingOf(s.conns[k].origin, c)
    ensures Flow(t, c)
  {
    hide Lines, Replay, OpenAfter, OpenedBy, LineOf, Log, Good, Coming, Held, IsBridged;
    ReadHome(s, t, k, c);
    GoodFull(ViewOf(s, c), ViewOf(t, c), Coming(s, c), c);
  }

  /** A refused open frame: the client will never be bridged. */
  lemma RefusedFlow(s: System, t: System, k: nat, c: nat)
    requires Placed(s, c) && Flow(s, c) && c in s.home && s.home[c] == k && k < |s.conns| && s.conns[k].up != []
    requires |t.conns| == |s.conns|
    requires t == s.(conns := s.conns[k := t.conns[k]], loopIn := t.loopIn, bridged := t.bridged, opens := t.opens, capHit := t.capHit)
    requires t.conns[k].up == s.conns[k].up[1..] && (s.capHit ==> t.capHit) && s.conns[k].up[0] == Open(c)
    requires c !in s.conns[k].origin.clients && c !in t.conns[k].origin.clients && Log(t.loopIn, c) == Log(s.loopIn, c)
    ensures Flow(t, c)
  {
    hide Lines, Replay, OpenAfter, LineOf, Log, Good, Coming, Held, IsBridged, Shaped, Waiting, Stranger;
    ReadHome(s, t, k, c);
    RestIsPlain(s, c);
    NothingOpens(Coming(t, c), c);
    LinesCons(Coming(s, c), c);
    assert Log(s.loopIn, c) + [] == Log(s.loopIn, c);
    hide Placed;
    GoodUnbridge(ViewOf(s, c), ViewOf(t, c), [], LineOf(Open(c), c));
  }

  lemma RestIsPlain(s: System, c: nat)
    requires Placed(s, c) && c in s.home && s.conns[s.home[c]].up != [] && s.conns[s.home[c]].up[0] == Open(c)
    ensures Coming(s, c) != [] && PlainOrEmpty(Shaped(Coming(s, c)[1..], c))
  {
    hide Stranger, Waiting;
    var up, w := s.conns[s.home[c]].up, if IsCurrent(s, s.home[c]) then Waiting(s) else [];
    ShapedCons(up, c);
    ShapedConcat(up[1..], w, c);
    assert (up + w)[1..] == up[1..] + w;
    assert Shaped([], c).Empty?;
  }

  lemma ForwardedLog(m: map<nat, seq<string>>, o: Origin, f: Frame, c: nat)
    ensures Log(if f.Data? then Logged(m, f.cid, Forwarded(o, f, f.cid)) else m, c) == Log(m, c) + Forwarded(o, f, c)
  {
    assert Log(m, c) + [] == Log(m, c);
  }

  lemma NotZero(s: System, c: nat)
    requires Sane(s, c) && c in s.home
    ensures c != 0
  {
    hide Placed, Linked;
  }

  lemma UnbridgeIsQuiet(o: Origin, config: Config, f: Frame, c: nat)
    requires Serving(o) && c in o.clients && c !in Handled(o, config, f).clients
    ensures Forwarded(o, f, c) == []
  {
  }

  lemma ShutIsQuiet(o: Origin, config: Config, f: Frame, c: nat)
    requires Serving(o) && !o.closed && Handled(o, config, f).closed
    ensures Forwarded(o, f, c) == [] && c !in Handled(o, config, f).clients
  {
  }

  lemma OriginReadsFlow(s: System, config: Config, k: nat, c: nat)
    requires Sane(s, c) && Flow(s, c) && Enabled(s, OriginReads(k))
    ensures Flow(Next(s, config, OriginReads(k)), c)
  {
    hide Log, Good, Placed, Linked, Unborn, Flow, Handled, OpenedBy, LineOf, Forwarded, PendingOf, ClientDrops;
    var conn, t := s.conns[k], Next(s, config, OriginReads(k));
    var o, f := conn.origin, conn.up[0];
    HasPlace(s, k, c);
    ForwardedLog(s.loopIn, o, f, c);
    assert Log(s.loopIn, c) + [] == Log(s.loopIn, c);
    if !(c in s.home && s.home[c] == k) {
      FromStranger(o, f, c);
      ElsewhereFlow(s, t, k, c);
    } else if c in o.clients && c !in Handled(o, config, f).clients {
      UnbridgeIsQuiet(o, config, f, c);
      assert conn.up == [f] + conn.up[1..];
      UnbridgeFlow(s, t, k, c, [f]);
    } else {
      NotZero(s, c);
      ReadsAtHome(s, t, config, k, c);
    }
  }

  lemma ReadsAtHome(s: System, t: System, config: Config, k: nat, c: nat)
    requires Placed(s, c) && Flow(s, c) && Enabled(s, OriginReads(k)) && t == ReadByOrigin(s, config, k)
    requires c in s.home && s.home[c] == k && c != 0
    requires var o, h := s.conns[k].origin, t.conns[k].origin; Serving(o) && (c in o.clients ==> c in h.clients)
    requires AtHome(s.conns[k], c, s.opens[c])
    ensures Flow(t, c)
  {
    hide Log, Good, Placed, Flow, Handled, LineOf, Forwarded, PendingOf, ClientDrops, Shaped, Lines;
    var o, f := s.conns[k].origin, s.conns[k].up[0];
    ForwardedLog(s.loopIn, o, f, c);
    assert Log(s.loopIn, c) + [] == Log(s.loopIn, c);
    if t.conns[k].origin.closed {
      ShutIsQuiet(o, config, f, c);
      NobodyHeld(o, c);
      NobodyHeld(t.conns[k].origin, c);
      assert Log(s.loopIn, c) + [] + [] == Log(s.loopIn, c) + [];
      if f == Open(c) {
        RefusedFlow(s, t, k, c);
      } else {
        assert !OpenedBy(f, c, false);
        ConsumeFlow(s, t, k, c);
      }
    } else {
      HandledClient(o, config, f, c);
      Regroup(Log(s.loopIn, c), Forwarded(o, f, c), PendingOf(t.conns[k].origin, c), PendingOf(o, c),
              if c in o.clients then LineOf(f, c) else []);
      if ClientDrops(o, f) && f.Data? && f.cid == c {
        FullFlow(s, t, k, c);
      } else {
        CloseOpens(f, c);
        ConsumeFlow(s, t, k, c);
      }
    }
  }

  lemma CloseOpens(f: Frame, c: nat)
    ensures f == Close(c) ==> !OpenedBy(f, c, true)
  {
  }

  lemma NobodyHeld(o: Origin, c: nat)
    ensures c !in o.clients ==> PendingOf(o, c) == []
  {
  }

  lemma Regroup(a: seq<string>, b: seq<string>, x: seq<string>, y: seq<string>, z: seq<string>)
    ensures b + x == y + z ==> a + b + x == a + y + z
    ensures b == [] ==> a + b + x == a + x
  {
    assert a + b + x == a + (b + x) && a + y + z == a + (y + z);
  }

  // ---------- lines towards the miner, for one client ----------

  /** An attached client gets everything its own bridge produced, in order. */
  ghost predicate Back(s: System, c: nat)
  {
    var got, out := Log(s.got, c), Log(s.loopOut, c);
    && got <= out && (s.opens[c] == 0 ==> out == [])
    && (c in s.edge.sessions && AtHomeConn(s, c) ==> IsCurrent(s, s.home[c]) && InStep(s.conns[s.home[c]], got, out, c))
  }

  predicate InStep(conn: Conn, got: seq<string>, out: seq<string>, c: nat)
  {
    got + Lines(conn.down, c) <= out && (!conn.origin.closed ==> got + Lines(conn.down, c) == out)
  }

  lemma WriteBack(s: System, p: System, out: seq<Frame>, c: nat)
    requires Sane(s, c) && Back(s, c) && s.edge.connected && p == s.(edge := p.edge, tasks := p.tasks, capHit := p.capHit)
    requires p.edge.connected && p.edge.sessions <= s.edge.sessions
    requires !Shaped(out, c).Bad? && (Shaped(out, c).Opening? ==> c !in s.home)
    ensures Back(Written(p, out), c)
  {
    hide Lines, Log, Shaped, Homes, Waiting, Written, Unborn;
    var n, t := |s.conns| - 1, Written(p, out);
    WrittenConns(p, out);
    HomesOf(s.home, out, n, c);
  }

  lemma MinerConnectsBack(s: System, config: Config, c: nat)
    requires Sane(s, c) && Back(s, c)
    ensures Back(Next(s, config, MinerConnects), c)
  {
    hide Lines, Log, Shaped, Placed, Waiting;
  }

  lemma MinerLineBack(s: System, config: Config, cid: nat, text: string, c: nat)
    requires Back(s, c) && cid in s.live
    ensures Back(Next(s, config, MinerLine(cid, text)), c)
  {
    hide Lines, Log;
  }

  lemma MinerClosesBack(s: System, config: Config, cid: nat, c: nat)
    requires Back(s, c) && cid in s.live
    ensures Back(Next(s, config, MinerCloses(cid)), c)
  {
    hide Lines, Log;
  }

  lemma TaskRunsBack(s: System, config: Config, c: nat)
    requires Sane(s, c) && Back(s, c) && s.tasks != []
    ensures Back(Next(s, config, TaskRuns), c)
  {
    hide Lines, Log, Shaped, Written, Unborn, Placed;
    var f := s.tasks[0];
    var (edge, out) := Sent(s.edge, f);
    var p := s.(edge := edge, tasks := s.tasks[1..], capHit := s.capHit || SendDrops(s.edge));
    NoWrite(p);
    if Direct(s.edge) {
      assert s.edge.pending + s.tasks == [f] + s.tasks[1..];
      WaitingSplit(s, [f], s.tasks[1..], c);
      WriteBack(s, p, [f], c);
    }
  }

  /** The frames about to be written hold the client's open frame only before it has a home. */
  lemma WaitingSplit(s: System, out: seq<Frame>, rest: seq<Frame>, c: nat)
    requires Placed(s, c) && Waiting(s) == out + rest
    ensures !Shaped(out, c).Bad? && (Shaped(out, c).Opening? ==> c !in s.home)
  {
    hide Shaped, Stranger, AtHome, Waiting;
    ShapedConcat(out, rest, c);
  }

  lemma EdgeConnectsBack(s: System, config: Config, c: nat)
    requires Sane(s, c) && Back(s, c) && !s.edge.connected
    ensures Back(Next(s, config, EdgeConnects), c)
  {
    hide Lines, Log, Shaped, Unborn, Stranger, AtHome;
  }

  lemma EdgeOpensBack(s: System, config: Config, role: string, coin: string, token: string, c: nat)
    requires Sane(s, c) && Back(s, c) && s.edge.connected
    ensures Back(Next(s, config, EdgeOpens(role, coin, token)), c)
  {
    hide Lines, Log, Written, Unborn, Placed, Back, Shaped;
    ShapedOne(Hello(role, coin, token), c);
    WriteBack(s, s.(edge := s.edge.(backoff := 0)), [Hello(role, coin, token)], c);
  }

  lemma EdgeLosesLinkBack(s: System, config: Config, c: nat)
    requires Back(s, c) && s.edge.connected
    ensures Back(Next(s, config, EdgeLosesLink), c)
  {
    hide Lines, Log;
  }

  lemma OriginLosesLinkBack(s: System, config: Config, k: nat, c: nat)
    requires Back(s, c) && k < |s.conns|
    ensures Back(Next(s, config, OriginLosesLink(k)), c)
  {
    hide Lines, Log;
  }

  lemma LoopbackConnectsBack(s: System, config: Config, k: nat, cid: nat, c: nat)
    requires Back(s, c) && k < |s.conns|
    ensures Back(Next(s, config, LoopbackConnects(k, cid)), c)
  {
    hide Lines, Log;
  }

  lemma LoopbackClosesBack(s: System, config: Config, k: nat, cid: nat, c: nat)
    requires Back(s, c) && k < |s.conns|
    ensures Back(Next(s, config, LoopbackCloses(k, cid)), c)
  {
    hide Lines, Log;
    CloseQuiet(s.conns[k], cid, c);
  }

  lemma OriginReadsBack(s: System, config: Config, k: nat, c: nat)
    requires Back(s, c) && Enabled(s, OriginReads(k))
    ensures Back(Next(s, config, OriginReads(k)), c)
  {
    hide Lines, Log, Handled, Replies;
    var conn := s.conns[k];
    RepliesQuiet(conn.origin, config, conn.up[0], c);
    LinesConcat(conn.down, Replies(conn.origin, config, conn.up[0]), c);
  }

  lemma LoopbackLineBack(s: System, config: Config, k: nat, cid: nat, text: string, c: nat)
    requires Placed(s, c) && Bridged(s, c) && Back(s, c) && k < |s.conns| && (k, cid) in s.bridged
    ensures Back(Next(s, config, LoopbackLine(k, cid, text)), c)
  {
    hide Lines, Log, Shaped, Placed, Produced, InStep;
    var conn := s.conns[k];
    if c == cid {
      ProducedInStep(conn, Log(s.got, c), Log(s.loopOut, c), c, text);
    } else {
      ProducedElsewhere(conn, Log(s.got, c), Log(s.loopOut, c), cid, c, text);
    }
  }

  lemma ProducedElsewhere(conn: Conn, got: seq<string>, out: seq<string>, cid: nat, c: nat, text: string)
    requires c != cid
    ensures InStep(conn, got, out, c) ==> InStep(conn.(down := conn.down + Produced(conn, cid, text)), got, out, c)
  {
    hide Lines, Produced;
    ProducedLines(conn, cid, text, c);
  }

  lemma ProducedInStep(conn: Conn, got: seq<string>, out: seq<string>, c: nat, text: string)
    ensures got <= out ==> got <= out + [Terminated(text)]
    ensures InStep(conn, got, out, c) ==>
      InStep(conn.(down := conn.down + Produced(conn, c, text)), got, out + [Terminated(text)], c)
  {
    hide Lines, Terminated, Produced;
    ProducedLines(conn, c, text, c);
    var lines, line := Lines(conn.down, c), [Terminated(text)];
    assert got + (lines + line) == got + lines + line && lines + [] == lines;
  }

  lemma PoppedBack(s: System, c: nat)
    requires Sane(s, c) && Back(s, c) && Enabled(s, EdgeReads)
    ensures Back(Popped(s), c)
  {
    hide Lines, Log, Shaped, Linked, Unborn, Waiting, InStep, LineOf, Stranger, AtHome;
    var n := |s.conns| - 1;
    NoStrayLine(s, c);
    if c in s.home {
      NotZero(s, c);
    }
    DeliveredIs(s.edge, s.conns[n].down[0], c);
    PoppedInStep(s.conns[n], Log(s.got, c), Log(s.loopOut, c), c);
  }

  lemma DeliveredIs(e: Edge, f: Frame, c: nat)
    ensures var d := Delivered(e, f);
      (if d != [] && d[0].0 == c then [d[0].1] else []) == if c != 0 && c in e.sessions then LineOf(f, c) else []
  {
  }

  lemma PoppedInStep(conn: Conn, got: seq<string>, out: seq<string>, c: nat)
    requires conn.down != []
    ensures InStep(conn, got, out, c) ==>
      && InStep(conn.(down := conn.down[1..]), got + LineOf(conn.down[0], c), out, c)
      && got + LineOf(conn.down[0], c) <= out
    ensures got + [] == got
    ensures LineOf(conn.down[0], c) == [] ==> InStep(conn.(down := conn.down[1..]), got, out, c) == InStep(conn, got, out, c)
  {
    hide Lines, LineOf;
    LinesCons(conn.down, c);
    var l, rest := LineOf(conn.down[0], c), Lines(conn.down[1..], c);
    assert got + (l + rest) == got + l + rest && [] + rest == rest;
  }

  /** A line on a connection that is not the client's home is not the client's. */
  lemma NoStrayLine(s: System, c: nat)
    requires Sane(s, c) && Enabled(s, EdgeReads)
    ensures !(c in s.home && s.home[c] == |s.conns| - 1) ==> LineOf(s.conns[|s.conns| - 1].down[0], c) == []
  {
    hide Lines, Shaped, Linked, Unborn, Waiting, LineOf, AtHome;
    var down := s.conns[|s.conns| - 1].down;
    LinesCons(down, c);
    FirstIsEmpty(LineOf(down[0], c), Lines(down[1..], c));
  }

  lemma FirstIsEmpty(a: seq<string>, b: seq<string>)
    ensures a + b == [] ==> a == []
  {
    assert |a + b| == |a| + |b|;
  }

  lemma EdgeReadsBack(s: System, config: Config, c: nat)
    requires Sane(s, c) && Back(s, c) && Enabled(s, EdgeReads)
    ensures Back(Next(s, config, EdgeReads), c)
  {
    hide Lines, Log, Written, Unborn, Linked, Placed, Back, Popped;
    var f, q := s.conns[|s.conns| - 1].down[0], Popped(s);
    var (edge, out) := Received(s.edge, f);
    PoppedSane(s, c);
    PoppedBack(s, c);
    if f.Welcome? {
      WaitingSplit(q, out, s.tasks, c);
    } else {
      ShapedOne(Pong, c);
      assert Shaped([], c).Empty?;
    }
    WriteBack(q, q.(edge := edge), out, c);
  }

  // ---------- every run ----------

  lemma BridgedKept(s: System, t: System, c: nat)
    requires Bridged(s, c) && t.bridged == s.bridged && t.opens == s.opens && (c in s.home ==> c in t.home && t.home[c] == s.home[c])
    ensures Bridged(t, c)
  {
  }

  lemma WriteBridged(s: System, p: System, out: seq<Frame>, c: nat)
    requires Bridged(s, c) && s.conns != [] && p == s.(edge := p.edge, tasks := p.tasks, capHit := p.capHit)
    requires !Shaped(out, c).Bad? && (Shaped(out, c).Opening? ==> c !in s.home)
    ensures Bridged(Written(p, out), c)
  {
    hide Shaped, Homes, Written, Bridged;
    WrittenConns(p, out);
    HomesOf(s.home, out, |s.conns| - 1, c);
    BridgedKept(s, Written(p, out), c);
  }

  lemma TaskRunsBridged(s: System, config: Config, c: nat)
    requires Sane(s, c) && Bridged(s, c) && s.tasks != []
    ensures Bridged(Next(s, config, TaskRuns), c)
  {
    hide Shaped, Written, Unborn, Placed, Bridged;
    var f := s.tasks[0];
    var (edge, out) := Sent(s.edge, f);
    var p := s.(edge := edge, tasks := s.tasks[1..], capHit := s.capHit || SendDrops(s.edge));
    NoWrite(p);
    if Direct(s.edge) {
      assert s.edge.pending + s.tasks == [f] + s.tasks[1..];
      WaitingSplit(s, [f], s.tasks[1..], c);
      WriteBridged(s, p, [f], c);
    } else {
      BridgedKept(s, p, c);
    }
  }

  lemma EdgeReadsBridged(s: System, config: Config, c: nat)
    requires Sane(s, c) && Bridged(s, c) && Enabled(s, EdgeReads)
    ensures Bridged(Next(s, config, EdgeReads), c)
  {
    hide Written, Unborn, Linked, Placed, Bridged, Popped;
    var f, q := s.conns[|s.conns| - 1].down[0], Popped(s);
    var (edge, out) := Received(s.edge, f);
    PoppedSane(s, c);
    BridgedKept(s, q, c);
    if f.Welcome? {
      WaitingSplit(q, out, s.tasks, c);
    } else {
      ShapedOne(Pong, c);
      assert Shaped([], c).Empty?;
    }
    WriteBridged(q, q.(edge := edge), out, c);
  }

  lemma EdgeOpensBridged(s: System, config: Config, role: string, coin: string, token: string, c: nat)
    requires Sane(s, c) && Bridged(s, c) && s.edge.connected
    ensures Bridged(Next(s, config, EdgeOpens(role, coin, token)), c)
  {
    hide Shaped, Written, Unborn, Placed, Bridged;
    ShapedOne(Hello(role, coin, token), c);
    WriteBridged(s, s.(edge := s.edge.(backoff := 0)), [Hello(role, coin, token)], c);
  }

  lemma OriginReadsBridged(s: System, config: Config, k: nat, c: nat)
    requires Sane(s, c) && Bridged(s, c) && Enabled(s, OriginReads(k))
    ensures Bridged(Next(s, config, OriginReads(k)), c)
  {
    hide Shaped, Lines, Log, Replies, Handled, Placed, Linked, Unborn;
    var conn := s.conns[k];
    HasPlace(s, k, c);
    HandledOne(conn.origin, config, conn.up[0], c);
    ShapedCons(conn.up, c);
    UnopenedHome(s, c);
  }

  lemma UnopenedHome(s: System, c: nat)
    requires Placed(s, c)
    ensures c !in s.home ==> s.opens[c] == 0
  {
    hide Shaped, Stranger, AtHome;
  }

  ghost predicate Invariant(s: System, c: nat)
  {
    Sane(s, c) && Bridged(s, c) && Flow(s, c) && Back(s, c)
  }

  lemma EdgeStep(s: System, config: Config, e: Event, c: nat)
    requires Invariant(s, c) && Enabled(s, e)
    requires e.MinerConnects? || e.MinerLine? || e.MinerCloses? || e.TaskRuns? || e.EdgeConnects?
    ensures Invariant(Next(s, config, e), c)
  {
    hide Sane, Bridged, Flow, Back;
    match e
    case MinerConnects =>
      MinerConnectsSane(s, config, c);
      MinerConnectsFlow(s, config, c);
      MinerConnectsBack(s, config, c);
      BridgedKept(s, Next(s, config, e), c);
    case MinerLine(cid, text) =>
      MinerLineSane(s, config, cid, text, c);
      MinerLineFlow(s, config, cid, text, c);
      MinerLineBack(s, config, cid, text, c);
      BridgedKept(s, Next(s, config, e), c);
    case MinerCloses(cid) =>
      MinerClosesSane(s, config, cid, c);
      MinerClosesFlow(s, config, cid, c);
      MinerClosesBack(s, config, cid, c);
      BridgedKept(s, Next(s, config, e), c);
    case TaskRuns =>
      TaskRunsSane(s, config, c);
      TaskRunsFlow(s, config, c);
      TaskRunsBack(s, config, c);
      TaskRunsBridged(s, config, c);
    case EdgeConnects =>
      EdgeConnectsSane(s, config, c);
      EdgeConnectsFlow(s, config, c);
      EdgeConnectsBack(s, config, c);
      BridgedKept(s, Next(s, config, e), c);
  }

  lemma LinkStep(s: System, config: Config, e: Event, c: nat)
    requires Invariant(s, c) && Enabled(s, e)
    requires e.EdgeOpens? || e.EdgeReads? || e.EdgeLosesLink? || e.OriginReads? || e.OriginLosesLink?
    ensures Invariant(Next(s, config, e), c)
  {
    hide Sane, Bridged, Flow, Back;
    match e
    case EdgeOpens(role, coin, token) =>
      EdgeOpensSane(s, config, role, coin, token, c);
      EdgeOpensFlow(s, config, role, coin, token, c);
      EdgeOpensBack(s, config, role, coin, token, c);
      EdgeOpensBridged(s, config, role, coin, token, c);
    case EdgeReads =>
      EdgeReadsSane(s, config, c);
      EdgeReadsFlow(s, config, c);
      EdgeReadsBack(s, config, c);
      EdgeReadsBridged(s, config, c);
    case EdgeLosesLink =>
      EdgeLosesLinkSane(s, config, c);
      EdgeLosesLinkFlow(s, config, c);
      EdgeLosesLinkBack(s, config, c);
      BridgedKept(s, Next(s, config, e), c);
    case OriginReads(k) =>
      OriginReadsSane(s, config, k, c);
      OriginReadsFlow(s, config, k, c);
      OriginReadsBack(s, config, k, c);
      OriginReadsBridged(s, config, k, c);
    case OriginLosesLink(k) =>
      OriginLosesLinkSane(s, config, k, c);
      OriginLosesLinkFlow(s, config, k, c);
      OriginLosesLinkBack(s, config, k, c);
      BridgedKept(s, Next(s, config, e), c);
  }

  lemma LoopbackStep(s: System, config: Config, e: Event, c: nat)
    requires Invariant(s, c) && Enabled(s, e) && (e.LoopbackConnects? || e.LoopbackLine? || e.LoopbackCloses?)
    ensures Invariant(Next(s, config, e), c)
  {
    hide Bridged, Flow, Back;
    BridgedKept(s, Next(s, config, e), c);
    match e
    case LoopbackConnects(k, cid) =>
      LoopbackConnectsSane(s, config, k, cid, c);
      LoopbackConnectsFlow(s, config, k, cid, c);
      LoopbackConnectsBack(s, config, k, cid, c);
    case LoopbackLine(k, cid, text) =>
      LoopbackLineSane(s, config, k, cid, text, c);
      LoopbackLineFlow(s, config, k, cid, text, c);
      assert Placed(s, c);
      LoopbackLineBack(s, config, k, cid, text, c);
    case LoopbackCloses(k, cid) =>
      LoopbackClosesSane(s, config, k, cid, c);
      LoopbackClosesFlow(s, config, k, cid, c);
      LoopbackClosesBack(s, config, k, cid, c);
  }

  /** Every reachable state satisfies the invariant of every client. */
  lemma {:induction false} Always(config: Config, run: seq<Event>, c: nat)
    ensures Invariant(After(config, run), c)
  {
    if run == [] {
      assert After(config, run) == INITIAL;
      assert Waiting(INITIAL) == [];
    } else {
      hide Invariant;
      var s, e := After(config, run[..|run| - 1]), run[|run| - 1];
      Always(config, run[..|run| - 1], c);
      if Enabled(s, e) {
        if e.LoopbackConnects? || e.LoopbackLine? || e.LoopbackCloses? {
          LoopbackStep(s, config, e, c);
        } else if e.EdgeOpens? || e.EdgeReads? || e.EdgeLosesLink? || e.OriginReads? || e.OriginLosesLink? {
          LinkStep(s, config, e, c);
        } else {
          EdgeStep(s, config, e, c);
        }
      }
    }
  }

  // ---------- the welcome comes first ----------

  /** Client frames and welcomes are only on connections whose hello was accepted. */
  predicate Clear(conn: Conn)
  {
    && (forall i | 0 <= i < |conn.up| :: IsClientFrame(conn.up[i]) ==> conn.origin.helloOk)
    && (forall i | 0 <= i < |conn.down| :: conn.down[i].Welcome? ==> conn.origin.helloOk)
  }

  ghost predicate Greeted(s: System)
  {
    && (forall k | 0 <= k < |s.conns| :: Clear(s.conns[k]))
    && (s.edge.connected ==> s.conns != [])
    && (s.edge.welcomed ==> s.edge.connected && s.conns[|s.conns| - 1].origin.helloOk)
  }

  lemma WriteGreeted(s: System, p: System, out: seq<Frame>)
    requires Greeted(s) && s.edge.connected && p == s.(edge := p.edge, tasks := p.tasks, capHit := p.capHit)
    requires p.edge.connected && (p.edge.welcomed ==> s.conns[|s.conns| - 1].origin.helloOk)
    requires s.conns[|s.conns| - 1].origin.helloOk || forall i | 0 <= i < |out| :: !IsClientFrame(out[i])
    ensures Greeted(Written(p, out))
  {
    hide Written, Homes;
    WrittenConns(p, out);
  }

  lemma ConnGreeted(s: System, t: System, k: nat)
    requires Greeted(s) && k < |s.conns| && |t.conns| == |s.conns| && t.conns == s.conns[k := t.conns[k]] && t.edge == s.edge
    requires Clear(t.conns[k]) && (s.conns[k].origin.helloOk ==> t.conns[k].origin.helloOk)
    ensures Greeted(t)
  {
    hide Clear;
  }

  lemma TaskRunsGreeted(s: System, config: Config)
    requires Greeted(s) && s.tasks != []
    ensures Greeted(Next(s, config, TaskRuns))
  {
    hide Written, Clear;
    var (edge, out) := Sent(s.edge, s.tasks[0]);
    var p := s.(edge := edge, tasks := s.tasks[1..], capHit := s.capHit || SendDrops(s.edge));
    NoWrite(p);
    if out != [] {
      WriteGreeted(s, p, out);
    }
  }

  lemma EdgeReadsGreeted(s: System, config: Config)
    requires Greeted(s) && Enabled(s, EdgeReads)
    ensures Greeted(Next(s, config, EdgeReads))
  {
    hide Written;
    var n, q := |s.conns| - 1, Popped(s);
    var f := s.conns[n].down[0];
    var (edge, out) := Received(s.edge, f);
    ConnGreeted(s, q, n);
    WriteGreeted(q, q.(edge := edge), out);
  }

  lemma OriginReadsGreeted(s: System, config: Config, k: nat)
    requires Greeted(s) && Enabled(s, OriginReads(k))
    ensures Greeted(Next(s, config, OriginReads(k)))
  {
    var t := Next(s, config, OriginReads(k));
    assert Clear(s.conns[k]);
    ConnGreeted(s, t, k);
  }

  lemma LinkGreeted(s: System, config: Config, e: Event)
    requires Greeted(s) && Enabled(s, e) && (e.EdgeConnects? || e.EdgeOpens? || e.EdgeLosesLink?)
    ensures Greeted(Next(s, config, e))
  {
    hide Written;
    match e
    case EdgeConnects =>
      assert Clear(Conn([], [], INITIAL_ORIGIN));
    case EdgeOpens(role, coin, token) =>
      WriteGreeted(s, s.(edge := s.edge.(backoff := 0)), [Hello(role, coin, token)]);
    case EdgeLosesLink =>
  }

  lemma OriginGreeted(s: System, config: Config, e: Event)
    requires Greeted(s) && Enabled(s, e)
    requires e.OriginLosesLink? || e.LoopbackConnects? || e.LoopbackLine? || e.LoopbackCloses?
    ensures Greeted(Next(s, config, e))
  {
    assert Clear(s.conns[e.k]);
    ConnGreeted(s, Next(s, config, e), e.k);
  }

  lemma {:induction false} AlwaysGreeted(config: Config, run: seq<Event>)
    ensures Greeted(After(config, run))
  {
    if run != [] {
      var s, e := After(config, run[..|run| - 1]), run[|run| - 1];
      AlwaysGreeted(config, run[..|run| - 1]);
      if Enabled(s, e) {
        match e
        case TaskRuns => TaskRunsGreeted(s, config);
        case EdgeReads => EdgeReadsGreeted(s, config);
        case OriginReads(k) => OriginReadsGreeted(s, config, k);
        case OriginLosesLink(_) => OriginGreeted(s, config, e);
        case LoopbackConnects(_, _) => OriginGreeted(s, config, e);
        case LoopbackLine(_, _, _) => OriginGreeted(s, config, e);
        case LoopbackCloses(_, _) => OriginGreeted(s, config, e);
        case EdgeConnects => LinkGreeted(s, config, e);
        case EdgeOpens(_, _, _) => LinkGreeted(s, config, e);
        case EdgeLosesLink => LinkGreeted(s, config, e);
        case _ =>
      }
    }
  }

  // ---------- main results ----------

  /**
    * Over every interleaving, with any number of link losses: what a client's bridge got is an in-order
    * subsequence of what its miner sent, and a prefix of it unless a full buffer dropped a frame somewhere.
    */
  lemma LinesInOrder(config: Config, run: seq<Event>, c: nat)
    ensures var s := After(config, run);
      && Subsequence(Log(s.loopIn, c), Log(s.sent, c))
      && (!s.capHit ==> Log(s.loopIn, c) <= Log(s.sent, c))
  {
    hide After, Subsequence, Lines, Replay, OpenAfter, Log, Sane, Bridged, Back, Coming, Held;
    var s := After(config, run);
    Always(config, run, c);
    var v, held := ViewOf(s, c), Held(s, c);
    var past := Log(s.loopIn, c);
    assert v.past + v.lines == past + (held + v.lines) + [] && past + [] == past;
    SubsequenceOmit(past, held + v.lines, [], v.sent);
  }

  /** What a miner got is a prefix of what its own bridge produced. */
  lemma AnswersInOrder(config: Config, run: seq<Event>, c: nat)
    ensures var s := After(config, run); Log(s.got, c) <= Log(s.loopOut, c)
  {
    hide After, Log;
    Always(config, run, c);
  }

  /** No client is bridged twice, on whatever connections. */
  lemma OneBridge(config: Config, run: seq<Event>, c: nat)
    ensures After(config, run).opens[c] <= 1
  {
    hide After, Shaped, Stranger, Linked;
    Always(config, run, c);
  }

  /** No open, data or close frame is on a connection before the origin has accepted its hello. */
  lemma WelcomeFirst(config: Config, run: seq<Event>, k: nat, i: nat)
    ensures var s := After(config, run);
      k < |s.conns| && i < |s.conns[k].up| && IsClientFrame(s.conns[k].up[i]) ==> s.conns[k].origin.helloOk
  {
    hide After;
    AlwaysGreeted(config, run);
    var s := After(config, run);
    if k < |s.conns| {
      assert Clear(s.conns[k]);
    }
  }
}
