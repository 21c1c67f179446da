/** The edge half of the cluster trunk, cluster_trunk.cpp. */
module ClusterTrunk {
  import opened ClusterProtocol

  const PENDING_CAP := 100000

  // ---------- what each handler does ----------

  /** The fields of the trunk; sessions are the attached client ids. */
  datatype Edge = Edge(
    running: bool, welcomed: bool, connected: bool, pending: seq<Frame>, sessions: set<nat>, nextCid: nat, backoff: nat)

  const INITIAL_EDGE := Edge(false, false, false, [], {}, 1, 0)

  predicate Direct(t: Edge)
  {
    t.welcomed && t.connected
  }

  /** A posted send_frame: nothing is written before the welcome. */
  function Sent(t: Edge, f: Frame): (r: (Edge, seq<Frame>))
  {
    if !t.running then (t, [])
    else if Direct(t) then (t, [f])
    else if |t.pending| < PENDING_CAP then (t.(pending := t.pending + [f]), [])
    else (t, [])
  }

  predicate SendDrops(t: Edge)
  {
    !t.running || (!Direct(t) && |t.pending| >= PENDING_CAP)
  }

  function Connected(t: Edge): Edge
  {
    if t.running then t.(welcomed := false, connected := true) else t
  }

  /** A frame from the origin: new state and frames written back. */
  function Received(t: Edge, f: Frame): (r: (Edge, seq<Frame>))
  {
    match f
    case Welcome => (t.(welcomed := true, pending := []), if t.connected then t.pending else [])
    case Close(cid) => (t.(sessions := t.sessions - {cid}), [])
    case Ping => (t, if t.connected then [Pong] else [])
    case _ => (t, [])
  }

  /** The line a frame from the origin hands to a miner. */
  function Delivered(t: Edge, f: Frame): (r: seq<(nat, string)>)
  {
    if f.Data? && f.cid != 0 && f.cid in t.sessions then [(f.cid, Terminated(f.text))] else []
  }

  function Lost(t: Edge): Edge
  {
    t.(welcomed := false, connected := false, pending := [], sessions := {},
       backoff := if t.running && t.backoff + 1 < 15 then t.backoff + 1 else if t.running then 15 else t.backoff)
  }

  function Attached(t: Edge): Edge
  {
    t.(sessions := t.sessions + {t.nextCid}, nextCid := t.nextCid + 1)
  }

  function Detached(t: Edge, cid: nat): Edge
  {
    t.(sessions := t.sessions - {cid})
  }

  // ---------- the trunk ----------

  class Trunk {
    var running: bool
    var welcomed: bool
    var connected: bool
    var pending: seq<Frame>
    var sessions: set<nat>
    var nextCid: nat
    var backoff: nat

    function State(): Edge
      reads this
    {
      Edge(running, welcomed, connected, pending, sessions, nextCid, backoff)
    }

    constructor ()
      ensures State() == INITIAL_EDGE
    {
      running, welcomed, connected, pending, sessions, nextCid, backoff := false, false, false, [], {}, 1, 0;
    }

    method Start()
      modifies this
      ensures State() == Connected(old(State()).(running := true))
      ensures running && connected && !welcomed
    {
      running := true;
      Connect();
    }

    method Connect()
      modifies this
      ensures State() == Connected(old(State()))
      ensures running ==> connected && !welcomed
    {
      if !running {
        return;
      }
      welcomed := false;
      connected := true;
    }

    method OnOpen(role: string, coin: string, token: string) returns (written: seq<Frame>)
      modifies this
      ensures State() == old(State()).(backoff := 0)
      ensures written == if connected then [Hello(role, coin, token)] else []
    {
      backoff := 0;
      written := if connected then [Hello(role, coin, token)] else [];
    }

    method OnFrame(f: Frame) returns (written: seq<Frame>, delivered: seq<(nat, string)>, shutdown: set<nat>, closing: bool)
      modifies this
      ensures (State(), written) == Received(old(State()), f)
      ensures delivered == Delivered(old(State()), f)
      ensures delivered == if f.Data? && f.cid != 0 && f.cid in sessions then [(f.cid, f.text + "\n")] else []
      ensures f.Welcome? ==> welcomed && pending == [] && written == if connected then old(pending) else []
      ensures !f.Welcome? ==>
        welcomed == old(welcomed) && pending == old(pending) && written == if f.Ping? && connected then [Pong] else []
      ensures sessions == if f.Close? then old(sessions) - {f.cid} else old(sessions)
      ensures shutdown == old(sessions) - sessions
      ensures closing == (f == Bye && connected)
    {
      written, delivered, shutdown, closing := [], [], {}, false;
      match f {
        case Welcome =>
          welcomed := true;
          for i := 0 to |pending|
            invariant written == if connected then pending[..i] else []
            invariant State() == old(State()).(welcomed := true)
          {
            if connected {
              written := written + [pending[i]];
            }
          }
          assert pending[..|pending|] == pending;
          pending := [];
        case Bye =>
          closing := connected;
        case Data(cid, text) =>
          if cid != 0 && cid in sessions {
            delivered := [(cid, Terminated(text))];
          }
        case Close(cid) =>
          if cid in sessions {
            sessions := sessions - {cid};
            shutdown := {cid};
          }
          assert sessions == old(sessions) - {cid};
        case Ping =>
          if connected {
            written := [Pong];
          }
        case _ =>
      }
    }

    /** Every session is shut down, and the delay in seconds before the next attempt is returned. */
    method OnClose() returns (shutdown: set<nat>, delay: nat)
      modifies this
      ensures State() == Lost(old(State())) && shutdown == old(sessions)
      ensures !welcomed && !connected && pending == [] && sessions == {} && nextCid == old(nextCid)
      ensures running ==> 2 <= delay <= 30 && delay == if old(backoff) >= 14 then 30 else 2 + 2 * old(backoff)
    {
      welcomed := false;
      connected := false;
      pending := [];
      shutdown := DropAllSessions();
      delay := 0;
      if running {
        delay := ScheduleReconnect();
      }
    }

    method DropAllSessions() returns (shutdown: set<nat>)
      modifies this`sessions
      ensures shutdown == old(sessions) && sessions == {}
    {
      shutdown := sessions;
      sessions := {};
    }

    method ScheduleReconnect() returns (delay: nat)
      modifies this`backoff
      ensures 2 <= delay <= 30 && delay == if old(backoff) >= 14 then 30 else 2 + 2 * old(backoff)
      ensures backoff == if old(backoff) + 1 < 15 then old(backoff) + 1 else 15
    {
      delay := if 2 + backoff * 2 < 30 then 2 + backoff * 2 else 30;
      backoff := if backoff + 1 < 15 then backoff + 1 else 15;
    }

    /** The task that send_frame posts to the strand. */
    method SendFrame(f: Frame) returns (written: seq<Frame>)
      modifies this
      ensures (State(), written) == Sent(old(State()), f)
      ensures written == if running && welcomed && connected then [f] else []
      ensures pending == if running && !(welcomed && connected) && |old(pending)| < 100000 then old(pending) + [f] else old(pending)
    {
      written := [];
      if !running {
        return;
      }
      if welcomed && connected {
        written := [f];
      } else if |pending| < PENDING_CAP {
        pending := pending + [f];
      }
    }

    /** Reserves a client id; the frame is posted. */
    method Attach() returns (cid: nat, posted: Frame)
      modifies this
      ensures State() == Attached(old(State()))
      ensures cid == old(nextCid) && posted == Open(cid) && sessions == old(sessions) + {cid} && nextCid > cid
    {
      cid := nextCid;
      nextCid := nextCid + 1;
      sessions := sessions + {cid};
      posted := Open(cid);
    }

    /** The posted frame carries this line to the client's bridge and to no other, and opens nothing. */
    method ClientLine(cid: nat, text: string) returns (posted: Frame)
      ensures posted.Data? && IsClientFrame(posted)
      ensures forall c :: LineOf(posted, c) == if c == cid then [text + "\n"] else []
      ensures forall c :: ShapeOf(posted, c) == if c == cid then Plain else Shape.Empty
    {
      posted := Data(cid, text);
    }

    /** A close frame is posted only when the id was still attached. */
    method Detach(cid: nat) returns (posted: seq<Frame>)
      modifies this
      ensures State() == Detached(old(State()), cid)
      ensures posted == if cid in old(sessions) then [Close(cid)] else []
    {
      var had := cid in sessions;
      sessions := sessions - {cid};
      posted := if had then [Close(cid)] else [];
    }
  }
}
