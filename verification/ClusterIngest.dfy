/** The origin half of the cluster trunk, cluster_ingest.cpp. */
module ClusterIngest {
  import opened ClusterProtocol

  const CLIENT_CAP := 64

  /** The configured token and coin; empty means not checked. */
  datatype Config = Config(token: string, coin: string)

  datatype Client = Client(connected: bool, pending: seq<string>)

  datatype Origin = Origin(helloOk: bool, closed: bool, clients: map<nat, Client>)

  const INITIAL_ORIGIN := Origin(false, false, map[])

  // ---------- what each handler does ----------

  function Shut(o: Origin): Origin
  {
    o.(closed := true, clients := map[])
  }

  predicate GoodHello(config: Config, f: Frame)
    requires f.Hello?
  {
    && (config.token == "" || f.token == config.token)
    && (config.coin == "" || f.coin == "" || f.coin == config.coin)
    && (f.role == "passthrough" || f.role == "node")
  }

  /**
    * One frame from the edge. A refusal posts a bye, but the session is closed before the post runs
    * and a closed session writes nothing, so a refused edge is written nothing.
    */
  function Handled(o: Origin, config: Config, f: Frame): (r: Origin)
  {
    if f.Malformed? then Shut(o)
    else if !o.helloOk then
      if f.Hello? && GoodHello(config, f) then o.(helloOk := true) else Shut(o)
    else match f
      case Open(cid) => if cid != 0 && cid !in o.clients then o.(clients := o.clients[cid := Client(false, [])]) else o
      case Data(cid, text) => if cid != 0 && cid in o.clients then Buffered(o, cid, Terminated(text)) else o
      case Close(cid) => if cid != 0 then o.(clients := o.clients - {cid}) else o
      case _ => o
  }

  function Buffered(o: Origin, cid: nat, line: string): Origin
    requires cid in o.clients
  {
    var client := o.clients[cid];
    if client.connected || |client.pending| >= CLIENT_CAP then o
    else o.(clients := o.clients[cid := client.(pending := client.pending + [line])])
  }

  function Replies(o: Origin, config: Config, f: Frame): (r: seq<Frame>)
  {
    if !o.helloOk && f.Hello? && GoodHello(config, f) then [Welcome]
    else if o.helloOk && f.Ping? then [Pong]
    else []
  }

  /** The lines a frame passes straight on to the loopback connection of client c. */
  function Forwarded(o: Origin, f: Frame, c: nat): (lines: seq<string>)
  {
    if o.helloOk && f.Data? && f.cid == c && c != 0 && c in o.clients && o.clients[c].connected then [Terminated(f.text)] else []
  }

  predicate ClientDrops(o: Origin, f: Frame)
  {
    o.helloOk && f.Data? && f.cid != 0 && f.cid in o.clients
    && !o.clients[f.cid].connected && |o.clients[f.cid].pending| >= CLIENT_CAP
  }

  function LoopbackUp(o: Origin, cid: nat): Origin
  {
    if cid in o.clients then o.(clients := o.clients[cid := Client(true, [])]) else o
  }

  function Flushed(o: Origin, cid: nat): (lines: seq<string>)
  {
    if cid in o.clients then o.clients[cid].pending else []
  }

  function LoopbackDown(o: Origin, cid: nat): Origin
  {
    o.(clients := o.clients - {cid})
  }

  // ---------- the session ----------

  class Ingest {
    const config: Config
    var helloOk: bool
    var closed: bool
    var clients: map<nat, Client>

    function State(): Origin
      reads this
    {
      Origin(helloOk, closed, clients)
    }

    constructor (config: Config)
      ensures State() == INITIAL_ORIGIN && this.config == config
    {
      this.config := config;
      helloOk, closed, clients := false, false, map[];
    }

    /** close() runs on_closed, which drops every loopback connection. */
    method Shutdown() returns (dropped: set<nat>)
      requires closed ==> clients == map[]
      modifies this
      ensures State() == Shut(old(State())) && dropped == if old(closed) then {} else old(clients).Keys
      ensures closed && clients == map[]
    {
      dropped := {};
      if !closed {
        closed := true;
        dropped := clients.Keys;
        clients := map[];
      }
    }

    /** toLoopback is the lines written to the loopback connection of the frame's client. */
    method OnLine(f: Frame) returns (reply: seq<Frame>, toLoopback: seq<string>, opens: bool)
      requires !closed
      modifies this
      ensures State() == Handled(old(State()), config, f)
      ensures reply == Replies(old(State()), config, f)
      ensures toLoopback == if f.Data? then Forwarded(old(State()), f, f.cid) else []
      ensures opens == (old(helloOk) && f.Open? && f.cid != 0 && f.cid !in old(clients))
      ensures f.Malformed? || (!old(helloOk) && !f.Hello?) ==> closed && reply == []
      ensures old(helloOk) && !f.Malformed? ==> !closed && reply == if f.Ping? then [Pong] else []
      ensures opens ==> clients == old(clients)[f.cid := Client(false, [])]
      ensures old(helloOk) && f.Close? && f.cid != 0 ==> clients == old(clients) - {f.cid}
      ensures old(helloOk) && f.Data? ==> clients.Keys == old(clients).Keys
      ensures old(helloOk) && f.Data? ==>
        toLoopback == if f.cid != 0 && f.cid in old(clients) && old(clients)[f.cid].connected then [f.text + "\n"] else []
    {
      reply, toLoopback, opens := [], [], false;
      if f.Malformed? {
        var dropped := Shutdown();
        return;
      }
      if !helloOk {
        if !f.Hello? {
          var dropped := Shutdown();
          return;
        }
        reply := HandleHello(f);
        return;
      }
      match f {
        case Open(cid) =>
          if cid != 0 {
            opens := OpenClient(cid);
          }
        case Data(cid, text) =>
          if cid != 0 {
            toLoopback := ClientData(cid, text);
          }
        case Close(cid) =>
          if cid != 0 {
            var told := CloseClient(cid, false);
          }
        case Ping =>
          reply := [Pong];
        case _ =>
      }
    }

    method HandleHello(f: Frame) returns (reply: seq<Frame>)
      requires f.Hello? && !helloOk && !closed
      modifies this
      ensures State() == Handled(old(State()), config, f)
      ensures reply == Replies(old(State()), config, f)
      ensures helloOk <==>
        && (config.token == "" || f.token == config.token) && (config.coin == "" || f.coin == "" || f.coin == config.coin)
        && f.role in {"passthrough", "node"}
      ensures reply == (if helloOk then [Welcome] else []) && closed == !helloOk
    {
      reply := [];
      if config.token != "" && f.token != config.token {
        var dropped := Shutdown();
        return;
      }
      if config.coin != "" && f.coin != "" && f.coin != config.coin {
        var dropped := Shutdown();
        return;
      }
      if f.role != "passthrough" && f.role != "node" {
        var dropped := Shutdown();
        return;
      }
      helloOk := true;
      reply := [Welcome];
    }

    /** Bridges a new client; a second open of the same id is ignored. */
    method OpenClient(cid: nat) returns (isNew: bool)
      modifies this`clients
      ensures isNew == (cid !in old(clients))
      ensures clients == if cid in old(clients) then old(clients) else old(clients)[cid := Client(false, [])]
    {
      if cid in clients {
        return false;
      }
      clients := clients[cid := Client(false, [])];
      return true;
    }

    method ClientData(cid: nat, text: string) returns (toLoopback: seq<string>)
      modifies this`clients
      ensures clients == if cid in old(clients) then Buffered(old(State()), cid, Terminated(text)).clients else old(clients)
      ensures toLoopback == if cid in old(clients) && old(clients)[cid].connected then [text + "\n"] else []
      ensures clients.Keys == old(clients).Keys && forall c | c in clients ::
        && clients[c].connected == old(clients)[c].connected
        && clients[c].pending == old(clients)[c].pending
             + if c == cid && !clients[c].connected && |old(clients)[c].pending| < 64 then [text + "\n"] else []
    {
      toLoopback := [];
      if cid !in clients {
        return;
      }
      var client := clients[cid];
      if client.connected {
        toLoopback := [Terminated(text)];
      } else if |client.pending| < CLIENT_CAP {
        clients := clients[cid := client.(pending := client.pending + [Terminated(text)])];
      }
    }

    method LoopbackConnected(cid: nat) returns (flushed: seq<string>)
      modifies this`clients
      ensures State() == LoopbackUp(old(State()), cid) && flushed == Flushed(old(State()), cid)
      ensures cid in old(clients) ==> flushed == old(clients)[cid].pending && clients == old(clients)[cid := Client(true, [])]
    {
      flushed := [];
      if cid !in clients {
        return;
      }
      var pending := clients[cid].pending;
      for i := 0 to |pending|
        invariant flushed == pending[..i]
        invariant clients == old(clients)
      {
        flushed := flushed + [pending[i]];
      }
      clients := clients[cid := Client(true, [])];
    }

    method CloseClient(cid: nat, tellEdge: bool) returns (reply: seq<Frame>)
      modifies this`clients
      ensures State() == LoopbackDown(old(State()), cid) && clients == old(clients) - {cid}
      ensures reply == if cid in old(clients) && tellEdge && !closed then [Close(cid)] else []
    {
      reply := [];
      if cid !in clients {
        assert clients - {cid} == clients;
        return;
      }
      clients := clients - {cid};
      if tellEdge && !closed {
        reply := [Close(cid)];
      }
    }
  }
}
