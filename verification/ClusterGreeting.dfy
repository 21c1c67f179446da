/** Which hello opens a cluster trunk, over every run of the system. */
module ClusterGreeting {
  import opened ClusterIngest
  import opened ClusterProtocol
  import opened ClusterSystem
  import opened ClusterTrunk

  /** The token is the configured one if one is configured, the coins do not differ, and the role is known. */
  predicate Credentials(config: Config, role: string, coin: string, token: string)
  {
    && (config.token == "" || token == config.token)
    && (config.coin == "" || coin == "" || coin == config.coin)
    && role in {"passthrough", "node"}
  }

  predicate Entitled(config: Config, f: Frame)
  {
    f.Hello? && Credentials(config, f.role, f.coin, f.token)
  }

  // ---------- one hello ----------

  /** On a connection without a hello so far, the origin answers an entitled hello with a welcome and nothing else, and closes after any other frame. */
  lemma HelloDecides(s: System, config: Config, k: nat)
    requires Enabled(s, OriginReads(k)) && !s.conns[k].origin.helloOk
    ensures var conn, t := s.conns[k], Next(s, config, OriginReads(k)).conns[k];
      && t.down == conn.down + (if Entitled(config, conn.up[0]) then [Welcome] else [])
      && t.origin.helloOk == Entitled(config, conn.up[0]) && t.origin.closed == !Entitled(config, conn.up[0])
  {
  }

  // ---------- the hellos of a run ----------

  /** The hellos the edge has written on connection k. */
  function Hellos(config: Config, run: seq<Event>, k: nat): (fs: seq<Frame>)
  {
    if run == [] then []
    else
      var init, e := run[..|run| - 1], run[|run| - 1];
      var s := After(config, init);
      Hellos(config, init, k)
      + if e.EdgeOpens? && Enabled(s, e) && |s.conns| == k + 1 then [Hello(e.role, e.coin, e.token)] else []
  }

  ghost predicate Introduced(config: Config, run: seq<Event>, k: nat)
  {
    exists i | 0 <= i < |Hellos(config, run, k)| :: Entitled(config, Hellos(config, run, k)[i])
  }

  predicate Vouched(config: Config, conn: Conn, said: bool)
  {
    && (conn.origin.helloOk ==> said)
    && forall i | 0 <= i < |conn.up| :: Entitled(config, conn.up[i]) ==> said
  }

  predicate NoHello(fs: seq<Frame>)
  {
    forall i | 0 <= i < |fs| :: !fs[i].Hello?
  }

  /** Only connections in said have an accepted hello or one on its way that will be accepted, and only they have bridges. */
  ghost predicate Greets(config: Config, s: System, said: set<nat>)
  {
    && (forall k | 0 <= k < |s.conns| :: Vouched(config, s.conns[k], k in said))
    && NoHello(s.edge.pending) && NoHello(s.tasks) && (s.edge.connected ==> s.conns != [])
    && (forall k, c | (k, c) in s.bridged :: k < |s.conns| && s.conns[k].origin.helloOk)
  }

  /** The connection on which a step writes an entitled hello. */
  function Speaks(config: Config, s: System, e: Event): (ks: set<nat>)
  {
    if e.EdgeOpens? && s.conns != [] && Credentials(config, e.role, e.coin, e.token) then {|s.conns| - 1} else {}
  }

  function Said(config: Config, run: seq<Event>): (said: set<nat>)
  {
    if run == [] then {}
    else
      var s, e := After(config, run[..|run| - 1]), run[|run| - 1];
      Said(config, run[..|run| - 1]) + if Enabled(s, e) then Speaks(config, s, e) else {}
  }

  lemma {:induction false} SaidIsIntroduced(config: Config, run: seq<Event>, k: nat)
    ensures k in Said(config, run) <==> Introduced(config, run, k)
  {
    if run != [] {
      hide After, Credentials;
      var init := run[..|run| - 1];
      SaidIsIntroduced(config, init, k);
      var before, after := Hellos(config, init, k), Hellos(config, run, k);
      assert forall i | 0 <= i < |before| :: after[i] == before[i];
      if after != before {
        assert Entitled(config, after[|before|]) <==> Credentials(config, run[|run| - 1].role, run[|run| - 1].coin, run[|run| - 1].token);
      }
    }
  }

  // ---------- steps ----------

  lemma WriteGreets(config: Config, p: System, out: seq<Frame>, said: set<nat>)
    requires Greets(config, p, said) && p.conns != []
    requires |p.conns| - 1 in said || forall i | 0 <= i < |out| :: !Entitled(config, out[i])
    ensures Greets(config, Written(p, out), said)
  {
    hide Written, Entitled;
    WrittenConns(p, out);
    var n := |p.conns| - 1;
    assert Vouched(config, p.conns[n], n in said);
  }

  lemma ConnGreets(config: Config, s: System, t: System, k: nat, said: set<nat>)
    requires Greets(config, s, said) && k < |s.conns| == |t.conns|
    requires t.conns == s.conns[k := t.conns[k]] && t.edge == s.edge && t.tasks == s.tasks
    requires Vouched(config, t.conns[k], k in said) && (s.conns[k].origin.helloOk ==> t.conns[k].origin.helloOk)
    requires forall j, c | (j, c) in t.bridged :: (j, c) in s.bridged || (j == k && t.conns[k].origin.helloOk)
    ensures Greets(config, t, said)
  {
    hide Vouched;
  }

  lemma TaskRunsGreets(config: Config, s: System, said: set<nat>)
    requires Greets(config, s, said) && Enabled(s, TaskRuns)
    ensures Greets(config, Next(s, config, TaskRuns), said)
  {
    hide Written, Vouched, Credentials;
    var (edge, out) := Sent(s.edge, s.tasks[0]);
    var p := s.(edge := edge, tasks := s.tasks[1..], capHit := s.capHit || SendDrops(s.edge));
    if out != [] {
      WriteGreets(config, p, out, said);
    } else {
      NothingWritten(p);
    }
  }

  lemma NothingWritten(p: System)
    ensures Written(p, []) == p
  {
    if p.conns != [] {
      WrittenConns(p, []);
      var t, n := Written(p, []), |p.conns| - 1;
      assert p.conns[n].up + [] == p.conns[n].up;
      assert t.conns == p.conns;
      assert Homes(p.home, [], n) == p.home;
    }
  }

  lemma EdgeReadsGreets(config: Config, s: System, said: set<nat>)
    requires Greets(config, s, said) && Enabled(s, EdgeReads)
    ensures Greets(config, Next(s, config, EdgeReads), said)
  {
    hide Written, Credentials;
    var n, q := |s.conns| - 1, Popped(s);
    var (edge, out) := Received(s.edge, s.conns[n].down[0]);
    assert Vouched(config, s.conns[n], n in said);
    ConnGreets(config, s, q, n, said);
    WriteGreets(config, q.(edge := edge), out, said);
  }

  lemma OriginReadsGreets(config: Config, s: System, k: nat, said: set<nat>)
    requires Greets(config, s, said) && Enabled(s, OriginReads(k))
    ensures Greets(config, Next(s, config, OriginReads(k)), said)
  {
    var conn, t := s.conns[k], Next(s, config, OriginReads(k));
    assert Vouched(config, conn, k in said);
    if !conn.origin.helloOk {
      HelloDecides(s, config, k);
    }
    ReadKeeps(config, s, k, said);
    ConnGreets(config, s, t, k, said);
  }

  lemma ReadKeeps(config: Config, s: System, k: nat, said: set<nat>)
    requires Enabled(s, OriginReads(k)) && Vouched(config, s.conns[k], k in said)
    ensures var t := Next(s, config, OriginReads(k));
      && t.conns == s.conns[k := t.conns[k]] && t.edge == s.edge && t.tasks == s.tasks && |t.conns| == |s.conns|
      && Vouched(config, t.conns[k], k in said) && (s.conns[k].origin.helloOk ==> t.conns[k].origin.helloOk)
      && forall j, c | (j, c) in t.bridged :: (j, c) in s.bridged || (j == k && t.conns[k].origin.helloOk)
  {
    var conn := s.conns[k];
    assert Entitled(config, conn.up[0]) ==> k in said;
  }

  lemma OriginGreets(config: Config, s: System, e: Event, said: set<nat>)
    requires Greets(config, s, said) && Enabled(s, e)
    requires e.OriginLosesLink? || e.LoopbackConnects? || e.LoopbackLine? || e.LoopbackCloses?
    ensures Greets(config, Next(s, config, e), said)
  {
    hide Credentials;
    assert Vouched(config, s.conns[e.k], e.k in said);
    ConnGreets(config, s, Next(s, config, e), e.k, said);
  }

  lemma LinkGreets(config: Config, s: System, e: Event, said: set<nat>)
    requires Greets(config, s, said) && Enabled(s, e) && (e.EdgeConnects? || e.EdgeOpens? || e.EdgeLosesLink?)
    ensures Greets(config, Next(s, config, e), said + Speaks(config, s, e))
  {
    hide Written, Credentials;
    var more := said + Speaks(config, s, e);
    assert forall k | 0 <= k < |s.conns| :: Vouched(config, s.conns[k], k in said) && Vouched(config, s.conns[k], k in more);
    match e
    case EdgeConnects =>
      assert Vouched(config, Conn([], [], INITIAL_ORIGIN), |s.conns| in more);
    case EdgeOpens(role, coin, token) =>
      WriteGreets(config, s.(edge := s.edge.(backoff := 0)), [Hello(role, coin, token)], more);
    case EdgeLosesLink =>
  }

  lemma MinerGreets(config: Config, s: System, e: Event, said: set<nat>)
    requires Greets(config, s, said) && Enabled(s, e) && (e.MinerConnects? || e.MinerLine? || e.MinerCloses?)
    ensures Greets(config, Next(s, config, e), said)
  {
    hide Vouched, Log;
  }

  lemma {:induction false} AlwaysGreets(config: Config, run: seq<Event>)
    ensures Greets(config, After(config, run), Said(config, run))
  {
    if run != [] {
      hide Greets, Speaks, Next;
      var s, e := After(config, run[..|run| - 1]), run[|run| - 1];
      AlwaysGreets(config, run[..|run| - 1]);
      if Enabled(s, e) {
        StepGreets(config, s, e, Said(config, run[..|run| - 1]));
      }
    }
  }

  lemma StepGreets(config: Config, s: System, e: Event, said: set<nat>)
    requires Greets(config, s, said) && Enabled(s, e)
    ensures Greets(config, Next(s, config, e), said + Speaks(config, s, e))
  {
    hide Greets, Next;
    if !(e.EdgeConnects? || e.EdgeOpens? || e.EdgeLosesLink?) {
      assert said + Speaks(config, s, e) == said;
    }
    match e
    case TaskRuns => TaskRunsGreets(config, s, said);
    case EdgeReads => EdgeReadsGreets(config, s, said);
    case OriginReads(k) => OriginReadsGreets(config, s, k, said);
    case OriginLosesLink(_) => OriginGreets(config, s, e, said);
    case LoopbackConnects(_, _) => OriginGreets(config, s, e, said);
    case LoopbackLine(_, _, _) => OriginGreets(config, s, e, said);
    case LoopbackCloses(_, _) => OriginGreets(config, s, e, said);
    case EdgeConnects => LinkGreets(config, s, e, said);
    case EdgeOpens(_, _, _) => LinkGreets(config, s, e, said);
    case EdgeLosesLink => LinkGreets(config, s, e, said);
    case MinerConnects => MinerGreets(config, s, e, said);
    case MinerLine(_, _) => MinerGreets(config, s, e, said);
    case MinerCloses(_) => MinerGreets(config, s, e, said);
  }

  // ---------- main result ----------

  /** Over every run, a connection with a bridge, or with a client frame on it, is one on which the edge wrote an entitled hello. */
  lemma OnlyEntitled(config: Config, run: seq<Event>, k: nat)
    ensures var s := After(config, run);
      && (forall c | (k, c) in s.bridged :: Introduced(config, run, k))
      && (k < |s.conns| ==> forall i | 0 <= i < |s.conns[k].up| && IsClientFrame(s.conns[k].up[i]) :: Introduced(config, run, k))
  {
    hide After, Said, Introduced;
    var s := After(config, run);
    AlwaysGreets(config, run);
    SaidIsIntroduced(config, run, k);
    forall i | k < |s.conns| && 0 <= i < |s.conns[k].up| && IsClientFrame(s.conns[k].up[i])
      ensures Introduced(config, run, k)
    {
      WelcomeFirst(config, run, k, i);
      assert Vouched(config, s.conns[k], k in Said(config, run));
    }
    forall c | (k, c) in s.bridged
      ensures Introduced(config, run, k)
    {
      assert Vouched(config, s.conns[k], k in Said(config, run));
    }
  }
}
