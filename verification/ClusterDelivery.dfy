/** What the cluster trunk delivers in full, and when it may drop a frame. */
module ClusterDelivery {
  import opened ClusterIngest
  import opened ClusterProtocol
  import opened ClusterSystem
  import opened ClusterTrunk

  /** Nothing is on its way to the origin. */
  predicate UpQuiet(s: System)
  {
    s.edge.connected && s.tasks == [] && s.edge.pending == [] && s.conns != [] && s.conns[|s.conns| - 1].up == []
  }

  /**
    * Over every run in which no buffer was full: once nothing is on its way, the bridge of a client on the live connection
    * has got exactly the lines of its miner, all of them.
    */
  lemma NothingMissing(config: Config, run: seq<Event>, c: nat)
    ensures var s := After(config, run);
      && UpQuiet(s) && !s.capHit && c in s.conns[|s.conns| - 1].origin.clients && s.conns[|s.conns| - 1].origin.clients[c].pending == []
      ==> Log(s.loopIn, c) == Log(s.sent, c)
  {
    hide After, Log, Invariant;
    var s := After(config, run);
    Always(config, run, c);
    if UpQuiet(s) && c in s.conns[|s.conns| - 1].origin.clients {
      QuietView(s, c);
    }
  }

  lemma QuietView(s: System, c: nat)
    requires Invariant(s, c) && UpQuiet(s) && c in s.conns[|s.conns| - 1].origin.clients
    ensures !s.capHit && s.conns[|s.conns| - 1].origin.clients[c].pending == [] ==> Log(s.loopIn, c) == Log(s.sent, c)
  {
    hide Log, Bridged, Back, Subsequence, Shaped, Lines;
    var n := |s.conns| - 1;
    assert c in s.home && s.home[c] == n;
    assert Coming(s, c) == [];
    var v := ViewOf(s, c);
    assert v.replay == [] && v.stillOpen && v.extensible;
    assert v.past + v.replay == v.past;
    assert Log(s.loopIn, c) + [] == Log(s.loopIn, c);
  }

  /** Once nothing is on its way back, an attached miner has got exactly what its bridge on the live connection produced. */
  lemma AllAnswered(config: Config, run: seq<Event>, c: nat)
    ensures var s := After(config, run); var n := |s.conns| - 1;
      && s.conns != [] && !s.conns[n].origin.closed && s.conns[n].down == [] && c in s.edge.sessions && (n, c) in s.bridged
      ==> Log(s.got, c) == Log(s.loopOut, c)
  {
    hide After, Log, Sane, Flow;
    var s := After(config, run);
    Always(config, run, c);
    assert forall x: seq<string> :: x + [] == x;
  }

  /** A frame is dropped for want of room only at 100000 pending frames of the edge, or at 64 pending lines of one client. */
  lemma OnlyWhenFull(config: Config, run: seq<Event>, e: Event)
    ensures var s := After(config, run);
      Enabled(s, e) && !s.capHit && Next(s, config, e).capHit ==>
        || (e.TaskRuns? && !(s.edge.welcomed && s.edge.connected) && |s.edge.pending| >= 100000)
        || (e.OriginReads? && exists c | c in s.conns[e.k].origin.clients ::
             !s.conns[e.k].origin.clients[c].connected && |s.conns[e.k].origin.clients[c].pending| >= 64)
  {
    hide After, Log, Bridged, Flow, Back, Placed, Unborn, Replies, Handled, Received;
    var s := After(config, run);
    Always(config, run, 0);
    if Enabled(s, e) && e.TaskRuns? {
      var (edge, out) := Sent(s.edge, s.tasks[0]);
      NoWrite(s.(edge := edge, tasks := s.tasks[1..], capHit := s.capHit || SendDrops(s.edge)));
    }
  }
}
