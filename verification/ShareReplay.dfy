/** The share path of sv2Ingest in the dashboard's server.js: rescanning the log again is harmless. */
module ShareReplay {

  /** A share line of the pool log: channel, sequence number, work, difficulty, timestamp in milliseconds. */
  datatype Share = Share(channel: string, number: nat, work: real, difficulty: real, time: int)

  datatype Channel = Channel(accepted: nat, best: real, maxNumber: int, last: int, roundAccepted: nat)

  const NEW_CHANNEL := Channel(0, 0.0, -1, 0, 0)

  /** roundStart is in seconds; it and the channels survive a restart. */
  datatype State = State(channels: map<string, Channel>, roundWork: real, shares: seq<Share>, roundStart: int)

  function ChannelOf(s: State, name: string): Channel
  {
    if name in s.channels then s.channels[name] else NEW_CHANNEL
  }

  /** A share at or below the highest number of its channel has been seen. */
  predicate Seen(s: State, x: Share)
  {
    x.channel in s.channels && x.number <= s.channels[x.channel].maxNumber
  }

  /** One share line. resets gives the time in seconds of a channel's last best-difficulty reset. */
  function Ingested(resets: string -> int, s: State, x: Share): (r: State)
  {
    var c := ChannelOf(s, x.channel);
    if x.number <= c.maxNumber then s.(channels := s.channels[x.channel := c])
    else
      var counts := x.time > 1000 * s.roundStart;
      State(
        s.channels[x.channel := Channel(
          c.accepted + 1,
          if x.time > 1000 * resets(x.channel) && x.difficulty > c.best then x.difficulty else c.best,
          x.number,
          if x.time / 1000 > c.last then x.time / 1000 else c.last,
          if counts then c.roundAccepted + 1 else c.roundAccepted)],
        if counts then s.roundWork + x.work else s.roundWork,
        s.shares + [x],
        s.roundStart)
  }

  function IngestedAll(resets: string -> int, s: State, xs: seq<Share>): (r: State)
  {
    if xs == [] then s else Ingested(resets, IngestedAll(resets, s, xs[..|xs| - 1]), xs[|xs| - 1])
  }

  /** Shares older than ten minutes leave the front of the list. */
  function Pruned(shares: seq<Share>, cut: int): (r: seq<Share>)
  {
    if shares != [] && shares[0].time < cut then Pruned(shares[1..], cut) else shares
  }

  function Scanned(resets: string -> int, s: State, xs: seq<Share>, now: int): State
  {
    var t := IngestedAll(resets, s, xs);
    t.(shares := Pruned(t.shares, now - 600000))
  }

  class Ingester {
    const resets: string -> int
    var channels: map<string, Channel>
    var roundWork: real
    var shares: seq<Share>
    var roundStart: int

    function Now(): State
      reads this
    {
      State(channels, roundWork, shares, roundStart)
    }

    constructor (resets: string -> int)
      ensures Now() == State(map[], 0.0, [], 0) && this.resets == resets
    {
      this.resets := resets;
      channels, roundWork, shares, roundStart := map[], 0.0, [], 0;
    }

    /** The lines read from the log, then the pruning of the list. */
    method Ingest(lines: seq<Share>, now: int)
      modifies this
      ensures Now() == Scanned(resets, old(Now()), lines, now)
      ensures shares == [] || shares[0].time >= now - 600000
    {
      hide Ingested, Pruned;
      for i := 0 to |lines|
        invariant Now() == IngestedAll(resets, old(Now()), lines[..i])
      {
        assert lines[..i + 1][..i] == lines[..i];
        IngestLine(lines[i]);
      }
      assert lines[..|lines|] == lines;
      PrunedIs(shares, now - 600000);
      Prune(now - 600000);
    }

    method IngestLine(x: Share)
      modifies this
      ensures Now() == Ingested(resets, old(Now()), x)
    {
      if x.channel !in channels {
        channels := channels[x.channel := NEW_CHANNEL];
      }
      var c := channels[x.channel];
      if x.number <= c.maxNumber {
        assert channels == channels[x.channel := c];
        return;
      }
      var best := c.best;
      if x.time > 1000 * resets(x.channel) && x.difficulty > best {
        best := x.difficulty;
      }
      var last := if x.time / 1000 > c.last then x.time / 1000 else c.last;
      var roundAccepted := c.roundAccepted;
      if x.time > 1000 * roundStart {
        roundWork := roundWork + x.work;
        roundAccepted := roundAccepted + 1;
      }
      channels := channels[x.channel := Channel(c.accepted + 1, best, x.number, last, roundAccepted)];
      shares := shares + [x];
    }

    method Prune(cut: int)
      modifies this`shares
      ensures shares == Pruned(old(shares), cut)
    {
      while shares != [] && shares[0].time < cut
        invariant Pruned(shares, cut) == Pruned(old(shares), cut)
        decreases |shares|
      {
        shares := shares[1..];
      }
    }

    /** A local block: the round starts again at the given time. */
    method ResetRound(now: int)
      modifies this
      ensures Now() == RoundReset(old(Now()), now)
      ensures roundWork == 0.0 && roundStart == now && shares == old(shares) && channels.Keys == old(channels).Keys
      ensures forall name | name in channels :: channels[name] == old(channels)[name].(roundAccepted := 0)
    {
      roundWork := 0.0;
      roundStart := now;
      channels := map name | name in channels :: channels[name].(roundAccepted := 0);
    }

    /** A restart loads the channels last saved and the persisted round start. */
    method Restart(saved: map<string, Channel>)
      modifies this
      ensures Now() == Restarted(old(Now()), saved)
      ensures roundWork == 0.0 && roundStart == old(roundStart) && shares == [] && channels.Keys == saved.Keys
      ensures forall name | name in channels :: channels[name] == saved[name].(roundAccepted := 0)
    {
      channels := map name | name in saved :: saved[name].(roundAccepted := 0);
      roundWork := 0.0;
      shares := [];
    }
  }

  function RoundReset(s: State, now: int): State
  {
    State(map name | name in s.channels :: s.channels[name].(roundAccepted := 0), 0.0, s.shares, now)
  }

  function Restarted(s: State, saved: map<string, Channel>): State
  {
    State(map name | name in saved :: saved[name].(roundAccepted := 0), 0.0, [], s.roundStart)
  }

  // ---------- rescanning ----------

  lemma SeenAgain(resets: string -> int, s: State, x: Share)
    requires Seen(s, x)
    ensures Ingested(resets, s, x) == s
  {
    assert s.channels[x.channel := s.channels[x.channel]] == s.channels;
  }

  lemma StaysSeen(resets: string -> int, s: State, x: Share, y: Share)
    ensures Seen(Ingested(resets, s, x), x)
    ensures Seen(s, y) ==> Seen(Ingested(resets, s, x), y)
  {
  }

  lemma {:induction false} AllSeen(resets: string -> int, s: State, xs: seq<Share>, i: nat)
    requires i < |xs|
    ensures Seen(IngestedAll(resets, s, xs), xs[i])
  {
    hide Ingested, Seen;
    var m := |xs| - 1;
    var before := IngestedAll(resets, s, xs[..m]);
    StaysSeen(resets, before, xs[m], xs[i]);
    if i < m {
      AllSeen(resets, s, xs[..m], i);
    }
  }

  lemma {:induction false} NothingNew(resets: string -> int, s: State, xs: seq<Share>)
    requires forall i | 0 <= i < |xs| :: Seen(s, xs[i])
    ensures IngestedAll(resets, s, xs) == s
  {
    hide Ingested, Seen;
    if xs != [] {
      var m := |xs| - 1;
      NothingNew(resets, s, xs[..m]);
      SeenAgain(resets, s, xs[m]);
    }
  }

  lemma {:induction false} IngestConcat(resets: string -> int, s: State, a: seq<Share>, b: seq<Share>)
    ensures IngestedAll(resets, s, a + b) == IngestedAll(resets, IngestedAll(resets, s, a), b)
  {
    hide Ingested;
    if b == [] {
      assert a + b == a;
    } else {
      var m := |b| - 1;
      assert (a + b)[..|a| + m] == a + b[..m];
      IngestConcat(resets, s, a, b[..m]);
    }
  }

  /** The list of recent shares plays no part in what else is recorded. */
  lemma {:induction false} ListIsApart(resets: string -> int, s: State, front: seq<Share>, xs: seq<Share>)
    ensures var t := IngestedAll(resets, s, xs);
      s.shares <= t.shares && IngestedAll(resets, s.(shares := front), xs) == t.(shares := front + t.shares[|s.shares|..])
  {
    if xs == [] {
      assert front + s.shares[|s.shares|..] == front;
    } else {
      var m := |xs| - 1;
      ListIsApart(resets, s, front, xs[..m]);
      OneApart(resets, IngestedAll(resets, s, xs[..m]), |s.shares|, front, xs[m]);
    }
  }

  lemma OneApart(resets: string -> int, t: State, n: nat, front: seq<Share>, x: Share)
    requires n <= |t.shares|
    ensures var u := Ingested(resets, t, x);
      && Ingested(resets, t.(shares := front + t.shares[n..]), x) == u.(shares := front + u.shares[n..]) && t.shares <= u.shares
  {
    assert front + t.shares[n..] + [x] == front + (t.shares + [x])[n..];
  }

  lemma {:induction false} PruneLater(x: seq<Share>, y: seq<Share>, cut: int, later: int)
    requires cut <= later
    ensures Pruned(Pruned(x, cut) + y, later) == Pruned(x + y, later)
    decreases |x|
  {
    if x != [] && x[0].time < cut {
      assert (x + y)[1..] == x[1..] + y;
      PruneLater(x[1..], y, cut, later);
    }
  }

  /** One reading of the log from one line to another. */
  datatype Scan = Scan(from: nat, to: nat, now: int)

  function Reach(scans: seq<Scan>): (n: nat)
  {
    if scans == [] then 0
    else
      var n := Reach(scans[..|scans| - 1]);
      if scans[|scans| - 1].to > n then scans[|scans| - 1].to else n
  }

  /** Every scan starts no later than where the scans before it ended; the clock does not run backwards. */
  ghost predicate GapFree(scans: seq<Scan>, lines: nat)
  {
    scans == [] ||
    var m := |scans| - 1;
    && GapFree(scans[..m], lines) && scans[m].from <= Reach(scans[..m]) && scans[m].from <= scans[m].to <= lines
    && (m > 0 ==> scans[m - 1].now <= scans[m].now)
  }

  lemma {:induction false} ReachInLog(scans: seq<Scan>, lines: nat)
    requires GapFree(scans, lines)
    ensures Reach(scans) <= lines
  {
    if scans != [] {
      ReachInLog(scans[..|scans| - 1], lines);
    }
  }

  function AfterScans(resets: string -> int, s: State, log: seq<Share>, scans: seq<Scan>): State
    requires GapFree(scans, |log|)
  {
    if scans == [] then s
    else
      var m := |scans| - 1;
      Scanned(resets, AfterScans(resets, s, log, scans[..m]), log[scans[m].from..scans[m].to], scans[m].now)
  }

  lemma OneMoreScan(resets: string -> int, s: State, log: seq<Share>, n: nat, cut: int, scan: Scan)
    requires n <= |log| && scan.from <= n && scan.from <= scan.to <= |log| && cut <= scan.now - 600000 && s.shares == []
    ensures var t := IngestedAll(resets, s, log[..n]);
      Scanned(resets, t.(shares := Pruned(t.shares, cut)), log[scan.from..scan.to], scan.now)
      == Scanned(resets, s, log[..if scan.to > n then scan.to else n], scan.now)
  {
    hide Ingested, Pruned, Seen;
    var t, later := IngestedAll(resets, s, log[..n]), scan.now - 600000;
    var front := Pruned(t.shares, cut);
    var u := t.(shares := front);
    var known := log[scan.from..if scan.to < n then scan.to else n];
    forall i | 0 <= i < |known|
      ensures Seen(u, known[i])
    {
      AllSeen(resets, s, log[..n], scan.from + i);
      SameSeen(t, u, known[i]);
    }
    NothingNew(resets, u, known);
    if scan.to <= n {
      PruneLater(t.shares, [], cut, later);
      assert front + [] == front && t.shares + [] == t.shares;
    } else {
      var more := log[n..scan.to];
      assert log[scan.from..scan.to] == known + more && log[..scan.to] == log[..n] + more;
      IngestConcat(resets, u, known, more);
      IngestConcat(resets, s, log[..n], more);
      ListIsApart(resets, t, front, more);
      var v := IngestedAll(resets, t, more);
      PruneLater(t.shares, v.shares[|t.shares|..], cut, later);
      assert v.shares == t.shares + v.shares[|t.shares|..];
    }
  }

  lemma SameSeen(s: State, t: State, x: Share)
    requires s.channels == t.channels
    ensures Seen(s, x) <==> Seen(t, x)
  {
  }

  /** Any gap-free series of overlapping rescans leaves exactly the state of one scan. */
  lemma {:induction false} RescansAreOneScan(resets: string -> int, s: State, log: seq<Share>, scans: seq<Scan>)
    requires GapFree(scans, |log|) && scans != [] && s.shares == []
    ensures Reach(scans) <= |log|
    ensures AfterScans(resets, s, log, scans) == Scanned(resets, s, log[..Reach(scans)], scans[|scans| - 1].now)
    decreases |scans|
  {
    hide Ingested, Pruned, IngestedAll;
    var m := |scans| - 1;
    ReachInLog(scans, |log|);
    ReachInLog(scans[..m], |log|);
    if m == 0 {
      assert scans[..0] == [];
      assert log[0..scans[0].to] == log[..scans[0].to];
    } else {
      RescansAreOneScan(resets, s, log, scans[..m]);
      OneMoreScan(resets, s, log, Reach(scans[..m]), scans[m - 1].now - 600000, scans[m]);
    }
  }

  // ---------- what one scan counts ----------

  function CountOf(xs: seq<Share>, name: string): (n: nat)
  {
    if xs == [] then 0 else CountOf(xs[..|xs| - 1], name) + if xs[|xs| - 1].channel == name then 1 else 0
  }

  ghost predicate Increasing(xs: seq<Share>)
  {
    forall i, j | 0 <= i < j < |xs| && xs[i].channel == xs[j].channel :: xs[i].number < xs[j].number
  }

  /** The highest number of a channel is that of its last share. */
  lemma {:induction false} MaxIsLast(resets: string -> int, s: State, xs: seq<Share>, name: string)
    requires s.channels == map[] && Increasing(xs)
    ensures var max := ChannelOf(IngestedAll(resets, s, xs), name).maxNumber;
      max == -1 || exists i | 0 <= i < |xs| :: xs[i].channel == name && max == xs[i].number
  {
    if xs != [] {
      var m := |xs| - 1;
      assert forall i | 0 <= i < m :: xs[..m][i] == xs[i];
      MaxIsLast(resets, s, xs[..m], name);
    }
  }

  /** When a channel's numbers increase, one scan accepts every one of its shares. */
  lemma {:induction false} AcceptedIsCount(resets: string -> int, s: State, xs: seq<Share>, name: string)
    requires s.channels == map[] && Increasing(xs)
    ensures ChannelOf(IngestedAll(resets, s, xs), name).accepted == CountOf(xs, name)
  {
    hide Ingested;
    if xs == [] {
      assert ChannelOf(s, name) == NEW_CHANNEL;
    } else {
      hide ChannelOf;
      var m := |xs| - 1;
      assert forall i | 0 <= i < m :: xs[..m][i] == xs[i];
      AcceptedIsCount(resets, s, xs[..m], name);
      MaxIsLast(resets, s, xs[..m], name);
      OneAccepted(resets, IngestedAll(resets, s, xs[..m]), xs[m], name);
    }
  }

  lemma OneAccepted(resets: string -> int, s: State, x: Share, name: string)
    ensures ChannelOf(Ingested(resets, s, x), name).accepted
         == ChannelOf(s, name).accepted + if x.channel == name && x.number > ChannelOf(s, name).maxNumber then 1 else 0
  {
  }

  /** The work of the shares stamped after a time in milliseconds. */
  function WorkAfter(xs: seq<Share>, cut: int): (sum: real)
  {
    if xs == [] then 0.0 else WorkAfter(xs[..|xs| - 1], cut) + if xs[|xs| - 1].time > cut then xs[|xs| - 1].work else 0.0
  }

  function CountAfter(xs: seq<Share>, name: string, cut: int): (n: nat)
  {
    if xs == [] then 0
    else CountAfter(xs[..|xs| - 1], name, cut) + if xs[|xs| - 1].channel == name && xs[|xs| - 1].time > cut then 1 else 0
  }

  /** The best difficulty of a channel is that of its hardest share since the reset, and the time of its last share the latest. */
  ghost predicate Summarizes(resets: string -> int, xs: seq<Share>, name: string, c: Channel)
  {
    && (forall i | 0 <= i < |xs| && xs[i].channel == name && xs[i].time > 1000 * resets(name) :: xs[i].difficulty <= c.best)
    && (c.best == 0.0 ||
        exists i | 0 <= i < |xs| :: xs[i].channel == name && xs[i].time > 1000 * resets(name) && xs[i].difficulty == c.best)
    && (forall i | 0 <= i < |xs| && xs[i].channel == name :: xs[i].time / 1000 <= c.last && xs[i].number <= c.maxNumber)
    && (c.last == 0 || exists i | 0 <= i < |xs| :: xs[i].channel == name && xs[i].time / 1000 == c.last)
  }

  lemma SummarizesMore(resets: string -> int, xs: seq<Share>, x: Share, name: string, c: Channel, s: State)
    requires Summarizes(resets, xs, name, c) && c == ChannelOf(s, name) && x.number > ChannelOf(s, x.channel).maxNumber
    ensures Summarizes(resets, xs + [x], name, ChannelOf(Ingested(resets, s, x), name))
  {
    var more := xs + [x];
    assert more[|xs|] == x && forall i | 0 <= i < |xs| :: more[i] == xs[i];
    if c.best != 0.0 {
      var i :| 0 <= i < |xs| && xs[i].channel == name && xs[i].time > 1000 * resets(name) && xs[i].difficulty == c.best;
      assert more[i].channel == name && more[i].time > 1000 * resets(name) && more[i].difficulty == c.best;
    }
    if c.last != 0 {
      var i :| 0 <= i < |xs| && xs[i].channel == name && xs[i].time / 1000 == c.last;
      assert more[i].channel == name && more[i].time / 1000 == c.last;
    }
  }

  /**
    * When a channel's numbers increase, one scan lists every share in order, the round total is the work of every share
    * after the round start, and each channel has the count, the best difficulty and the last time of its shares.
    */
  lemma {:induction false} OneScanIs(resets: string -> int, s: State, xs: seq<Share>, name: string)
    requires s.channels == map[] && Increasing(xs)
    ensures var t, c := IngestedAll(resets, s, xs), ChannelOf(IngestedAll(resets, s, xs), name);
      && t.shares == s.shares + xs && t.roundStart == s.roundStart
      && t.roundWork == s.roundWork + WorkAfter(xs, 1000 * s.roundStart)
      && c.roundAccepted == CountAfter(xs, name, 1000 * s.roundStart) && Summarizes(resets, xs, name, c)
  {
    hide IngestedAll, Ingested, ChannelOf, Summarizes;
    if xs == [] {
      NoScan(resets, s, xs, name);
    } else {
      var m := |xs| - 1;
      var before := IngestedAll(resets, s, xs[..m]);
      IncreasingFront(xs);
      OneScanIs(resets, s, xs[..m], name);
      NextIsHigher(resets, s, xs);
      OneScanStep(resets, before, xs[m], name);
      SummarizesMore(resets, xs[..m], xs[m], name, ChannelOf(before, name), before);
      LastIngested(resets, s, xs);
      assert xs[..m] + [xs[m]] == xs && s.shares + xs[..m] + [xs[m]] == s.shares + xs;
    }
  }

  lemma NoScan(resets: string -> int, s: State, xs: seq<Share>, name: string)
    requires s.channels == map[] && xs == []
    ensures IngestedAll(resets, s, xs) == s && ChannelOf(s, name) == NEW_CHANNEL
    ensures Summarizes(resets, xs, name, NEW_CHANNEL) && s.shares + xs == s.shares
  {
  }

  lemma IncreasingFront(xs: seq<Share>)
    requires xs != [] && Increasing(xs)
    ensures Increasing(xs[..|xs| - 1])
  {
    var m := |xs| - 1;
    assert forall i | 0 <= i < m :: xs[..m][i] == xs[i];
  }

  lemma NextIsHigher(resets: string -> int, s: State, xs: seq<Share>)
    requires xs != [] && s.channels == map[] && Increasing(xs)
    ensures xs[|xs| - 1].number > ChannelOf(IngestedAll(resets, s, xs[..|xs| - 1]), xs[|xs| - 1].channel).maxNumber
  {
    hide IngestedAll, ChannelOf;
    var m := |xs| - 1;
    IncreasingFront(xs);
    MaxIsLast(resets, s, xs[..m], xs[m].channel);
  }

  lemma LastIngested(resets: string -> int, s: State, xs: seq<Share>)
    requires xs != []
    ensures IngestedAll(resets, s, xs) == Ingested(resets, IngestedAll(resets, s, xs[..|xs| - 1]), xs[|xs| - 1])
  {
    hide Ingested;
  }

  lemma OneScanStep(resets: string -> int, s: State, x: Share, name: string)
    requires x.number > ChannelOf(s, x.channel).maxNumber
    ensures var t := Ingested(resets, s, x); var counts := x.time > 1000 * s.roundStart;
      && t.shares == s.shares + [x] && t.roundStart == s.roundStart
      && t.roundWork == s.roundWork + (if counts then x.work else 0.0)
      && ChannelOf(t, name).roundAccepted == ChannelOf(s, name).roundAccepted + if x.channel == name && counts then 1 else 0
  {
  }

  /** Pruning drops from the front exactly the shares before the first one that is not too old. */
  lemma {:induction false} PrunedIs(shares: seq<Share>, cut: int)
    ensures var r := Pruned(shares, cut); var k := |shares| - |r|;
      && 0 <= k && r == shares[k..] && (forall i | 0 <= i < k :: shares[i].time < cut) && (r != [] ==> r[0].time >= cut)
    decreases |shares|
  {
    if shares != [] && shares[0].time < cut {
      PrunedIs(shares[1..], cut);
    }
  }

  // ---------- restarts ----------

  /** The fields of the channels that are saved. */
  ghost predicate SameSaved(s: State, t: State)
  {
    && s.channels.Keys == t.channels.Keys
    && forall name | name in s.channels :: s.channels[name].(roundAccepted := 0) == t.channels[name].(roundAccepted := 0)
  }

  lemma SavedStep(resets: string -> int, s: State, t: State, x: Share)
    requires SameSaved(s, t)
    ensures SameSaved(Ingested(resets, s, x), Ingested(resets, t, x))
  {
  }

  lemma {:induction false} SavedAll(resets: string -> int, s: State, t: State, xs: seq<Share>)
    requires SameSaved(s, t)
    ensures SameSaved(IngestedAll(resets, s, xs), IngestedAll(resets, t, xs))
  {
    if xs != [] {
      hide Ingested, SameSaved;
      var m := |xs| - 1;
      SavedAll(resets, s, t, xs[..m]);
      SavedStep(resets, IngestedAll(resets, s, xs[..m]), IngestedAll(resets, t, xs[..m]), xs[m]);
    }
  }

  /** After a restart from channels saved at line m, rescanning from any line up to m recovers every saved counter. */
  lemma RestartRecovers(resets: string -> int, s: State, log: seq<Share>, m: nat, from: nat, to: nat, crashed: State)
    requires from <= m <= to <= |log|
    ensures var saved := IngestedAll(resets, s, log[..m]).channels;
      SameSaved(IngestedAll(resets, Restarted(crashed, saved), log[from..to]), IngestedAll(resets, s, log[..to]))
  {
    hide Ingested, SameSaved;
    var t := IngestedAll(resets, s, log[..m]);
    var u := Restarted(crashed, t.channels);
    RestartedSame(crashed, t);
    RescanSkips(resets, s, log, m, from, to, crashed);
    IngestConcat(resets, s, log[..m], log[m..to]);
    assert log[..to] == log[..m] + log[m..to];
    SavedAll(resets, u, t, log[m..to]);
  }

  /** What was seen when the channels were saved is skipped by the rescan. */
  lemma RescanSkips(resets: string -> int, s: State, log: seq<Share>, m: nat, from: nat, to: nat, crashed: State)
    requires from <= m <= to <= |log|
    ensures var u := Restarted(crashed, IngestedAll(resets, s, log[..m]).channels);
      IngestedAll(resets, u, log[from..to]) == IngestedAll(resets, u, log[m..to])
  {
    hide Ingested, Seen;
    var t := IngestedAll(resets, s, log[..m]);
    var u := Restarted(crashed, t.channels);
    forall i | 0 <= i < |log[from..m]|
      ensures Seen(u, log[from..m][i])
    {
      AllSeen(resets, s, log[..m], from + i);
      RestartedSeen(crashed, t, log[from + i]);
    }
    NothingNew(resets, u, log[from..m]);
    IngestConcat(resets, u, log[from..m], log[m..to]);
    assert log[from..to] == log[from..m] + log[m..to];
  }

  lemma RestartedSame(crashed: State, t: State)
    ensures SameSaved(Restarted(crashed, t.channels), t)
  {
  }

  lemma RestartedSeen(crashed: State, t: State, x: Share)
    requires Seen(t, x)
    ensures Seen(Restarted(crashed, t.channels), x)
  {
  }

  /** The shares of a list that are added to the round total. */
  function CountedLines(resets: string -> int, s: State, xs: seq<Share>): (r: seq<Share>)
  {
    if xs == [] then []
    else
      var init := xs[..|xs| - 1];
      Counted(IngestedAll(resets, s, init), CountedLines(resets, s, init), Line(xs[|xs| - 1]))
  }

  lemma {:induction false} WorkOfLines(resets: string -> int, s: State, xs: seq<Share>)
    ensures IngestedAll(resets, s, xs).roundWork == s.roundWork + TotalWork(CountedLines(resets, s, xs))
    ensures IngestedAll(resets, s, xs).roundStart == s.roundStart
  {
    hide TotalWork;
    NoWork();
    if xs != [] {
      var m := |xs| - 1;
      WorkOfLines(resets, s, xs[..m]);
      OneMoreWork(CountedLines(resets, s, xs[..m]), xs[m]);
    }
  }

  /** States that have seen the same shares count the same shares. */
  lemma {:induction false} SameCounted(resets: string -> int, s: State, t: State, xs: seq<Share>)
    requires SameSaved(s, t) && s.roundStart == t.roundStart
    ensures CountedLines(resets, s, xs) == CountedLines(resets, t, xs)
  {
    if xs != [] {
      hide Ingested;
      var m := |xs| - 1;
      SameCounted(resets, s, t, xs[..m]);
      SavedAll(resets, s, t, xs[..m]);
      WorkOfLines(resets, s, xs[..m]);
      WorkOfLines(resets, t, xs[..m]);
    }
  }

  /** A restart clears the round total, and the rescan misses exactly the shares that had been counted when the channels were saved. */
  lemma RestartMisses(resets: string -> int, s: State, log: seq<Share>, m: nat, from: nat, to: nat, crashed: State)
    requires from <= m <= to <= |log| && crashed.roundStart == s.roundStart && s.roundWork == 0.0
    ensures var saved := IngestedAll(resets, s, log[..m]).channels;
      IngestedAll(resets, s, log[..to]).roundWork
      == IngestedAll(resets, Restarted(crashed, saved), log[from..to]).roundWork + TotalWork(CountedLines(resets, s, log[..m]))
  {
    hide Ingested, IngestedAll, SameSaved, CountedLines, TotalWork;
    var t := IngestedAll(resets, s, log[..m]);
    var u := Restarted(crashed, t.channels);
    RestartedSame(crashed, t);
    RescanSkips(resets, s, log, m, from, to, crashed);
    IngestConcat(resets, s, log[..m], log[m..to]);
    assert log[..to] == log[..m] + log[m..to];
    WorkOfLines(resets, s, log[..m]);
    WorkOfLines(resets, t, log[m..to]);
    WorkOfLines(resets, u, log[m..to]);
    SameCounted(resets, u, t, log[m..to]);
  }

  // ---------- the round total ----------

  datatype Event = Line(share: Share) | Block(now: int) | Crash(saved: map<string, Channel>)

  function Happened(resets: string -> int, s: State, e: Event): State
  {
    match e
    case Line(x) => Ingested(resets, s, x)
    case Block(now) => RoundReset(s, now)
    case Crash(saved) => Restarted(s, saved)
  }

  /** The shares that make up the round total. */
  function Counted(s: State, counted: seq<Share>, e: Event): (r: seq<Share>)
  {
    if !e.Line? then []
    else if e.share.number > ChannelOf(s, e.share.channel).maxNumber && e.share.time > 1000 * s.roundStart then counted + [e.share]
    else counted
  }

  function TotalWork(xs: seq<Share>): real
  {
    if xs == [] then 0.0 else TotalWork(xs[..|xs| - 1]) + xs[|xs| - 1].work
  }

  /** The round total is the work of distinct shares, every one stamped after the round start. */
  ghost predicate RoundSound(s: State, counted: seq<Share>)
  {
    && s.roundWork == TotalWork(counted)
    && (forall i | 0 <= i < |counted| :: counted[i].time > 1000 * s.roundStart && Seen(s, counted[i]))
    && (forall i, j | 0 <= i < j < |counted| && counted[i].channel == counted[j].channel :: counted[i].number < counted[j].number)
  }

  lemma OneMoreWork(xs: seq<Share>, x: Share)
    ensures TotalWork(xs + [x]) == TotalWork(xs) + x.work
  {
    assert (xs + [x])[..|xs|] == xs;
  }

  lemma NoWork()
    ensures TotalWork([]) == 0.0
  {
  }

  lemma RoundStep(resets: string -> int, s: State, counted: seq<Share>, e: Event)
    requires RoundSound(s, counted)
    ensures RoundSound(Happened(resets, s, e), Counted(s, counted, e))
  {
    hide TotalWork;
    NoWork();
    if e.Line? {
      var more := Counted(s, counted, e);
      forall i | 0 <= i < |more|
        ensures Seen(Ingested(resets, s, e.share), more[i])
      {
        StaysSeen(resets, s, e.share, more[i]);
      }
      OneMoreWork(counted, e.share);
    }
  }

  function AfterEvents(resets: string -> int, s: State, es: seq<Event>): State
  {
    if es == [] then s else Happened(resets, AfterEvents(resets, s, es[..|es| - 1]), es[|es| - 1])
  }

  function CountedAll(resets: string -> int, s: State, counted: seq<Share>, es: seq<Event>): seq<Share>
  {
    if es == [] then counted
    else
      var init := es[..|es| - 1];
      Counted(AfterEvents(resets, s, init), CountedAll(resets, s, counted, init), es[|es| - 1])
  }

  /**
    * Over any mix of rescans, blocks and restarts no share stamped at or before the persisted round start is in the
    * round total, and no share is in it twice.
    */
  lemma {:induction false} RoundTotalIsSound(resets: string -> int, s: State, es: seq<Event>)
    requires s.roundWork == 0.0
    ensures RoundSound(AfterEvents(resets, s, es), CountedAll(resets, s, [], es))
  {
    if es != [] {
      hide RoundSound, Happened, Counted;
      var init := es[..|es| - 1];
      RoundTotalIsSound(resets, s, init);
      RoundStep(resets, AfterEvents(resets, s, init), CountedAll(resets, s, [], init), es[|es| - 1]);
    }
  }
}
