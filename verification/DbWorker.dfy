/** The batched writer of db_worker.cpp: what is queued is committed once and in order, and round effort adds up. */
module DbWorker {

  type work = r: real | r >= 0.0 witness 0.0

  datatype Share = Share(difficulty: work, accepted: bool, text: string)

  /** coin is empty for the primary coin. */
  datatype Block = Block(hash: string, coin: string, height: int)

  /** One batch, or one set of queues; the three kinds of record without arithmetic are their text. */
  datatype Records = Records(shares: seq<Share>, presences: seq<string>, best: seq<string>, hashrates: seq<string>, blocks: seq<Block>)

  const NONE := Records([], [], [], [], [])

  function Plus(a: Records, b: Records): Records
  {
    Records(a.shares + b.shares, a.presences + b.presences, a.best + b.best, a.hashrates + b.hashrates, a.blocks + b.blocks)
  }

  lemma PlusAssociates(a: Records, b: Records, c: Records)
    ensures Plus(Plus(a, b), c) == Plus(a, Plus(b, c)) && Plus(a, NONE) == a && Plus(NONE, a) == a
  {
    assert a.shares + b.shares + c.shares == a.shares + (b.shares + c.shares);
    assert a.presences + b.presences + c.presences == a.presences + (b.presences + c.presences);
    assert a.best + b.best + c.best == a.best + (b.best + c.best);
    assert a.hashrates + b.hashrates + c.hashrates == a.hashrates + (b.hashrates + c.hashrates);
    assert a.blocks + b.blocks + c.blocks == a.blocks + (b.blocks + c.blocks);
  }

  // ---------- the database ----------

  datatype Row = Row(hash: string, aux: bool, roundEffort: real)

  /** The blocks table, the effort accumulator, and a record of the work wiped by blocks that were already there. */
  datatype Db = Db(rows: seq<Row>, accum: real, wiped: real)

  const EMPTY_DB := Db([], 0.0, 0.0)

  predicate Has(rows: seq<Row>, hash: string)
  {
    exists i | 0 <= i < |rows| :: rows[i].hash == hash
  }

  function Earned(shares: seq<Share>): (sum: real)
    ensures sum >= 0.0
  {
    if shares == [] then 0.0
    else Earned(shares[..|shares| - 1]) + if shares[|shares| - 1].accepted then shares[|shares| - 1].difficulty else 0.0
  }

  predicate IsAux(primary: string, b: Block)
  {
    b.coin != "" && b.coin != primary
  }

  /** INSERT with ON CONFLICT DO NOTHING, and the reset of the accumulator by a parent block. */
  function Recorded(db: Db, primary: string, b: Block): Db
  {
    var aux := IsAux(primary, b);
    var rows := if Has(db.rows, b.hash) then db.rows else db.rows + [Row(b.hash, aux, if aux then 0.0 else db.accum)];
    if aux then db.(rows := rows)
    else Db(rows, 0.0, db.wiped + if Has(db.rows, b.hash) then db.accum else 0.0)
  }

  function RecordedAll(db: Db, primary: string, bs: seq<Block>): Db
  {
    if bs == [] then db else Recorded(RecordedAll(db, primary, bs[..|bs| - 1]), primary, bs[|bs| - 1])
  }

  /** What committing a batch does: the accumulator first, then the blocks. */
  function Committed(db: Db, primary: string, batch: Records): Db
  {
    RecordedAll(db.(accum := db.accum + Earned(batch.shares)), primary, batch.blocks)
  }

  // ---------- effort ----------

  /** Round effort over the parent rows. */
  function ParentEffort(rows: seq<Row>): (sum: real)
  {
    if rows == [] then 0.0
    else ParentEffort(rows[..|rows| - 1]) + if rows[|rows| - 1].aux then 0.0 else rows[|rows| - 1].roundEffort
  }

  function Balance(db: Db): real
  {
    ParentEffort(db.rows) + db.accum + db.wiped
  }

  lemma RecordedBalance(db: Db, primary: string, b: Block)
    ensures Balance(Recorded(db, primary, b)) == Balance(db)
    ensures IsAux(primary, b) ==> Recorded(db, primary, b).accum == db.accum
  {
    hide Has, IsAux;
    var rows := Recorded(db, primary, b).rows;
    if rows != db.rows {
      assert rows[..|rows| - 1] == db.rows;
    }
  }

  lemma {:induction false} RecordedAllBalance(db: Db, primary: string, bs: seq<Block>)
    ensures Balance(RecordedAll(db, primary, bs)) == Balance(db)
  {
    if bs != [] {
      hide Balance, Recorded;
      RecordedAllBalance(db, primary, bs[..|bs| - 1]);
      RecordedBalance(RecordedAll(db, primary, bs[..|bs| - 1]), primary, bs[|bs| - 1]);
    }
  }

  /** Blocks of another coin are stored without effort and leave the accumulator alone. */
  lemma {:induction false} OtherCoins(db: Db, primary: string, bs: seq<Block>)
    requires forall i | 0 <= i < |bs| :: bs[i].coin != "" && bs[i].coin != primary
    ensures var after := RecordedAll(db, primary, bs);
      && after.accum == db.accum && after.wiped == db.wiped && |db.rows| <= |after.rows| && after.rows[..|db.rows|] == db.rows
      && forall i | |db.rows| <= i < |after.rows| :: after.rows[i].aux && after.rows[i].roundEffort == 0.0
  {
    if bs != [] {
      hide Has;
      var m := |bs| - 1;
      OtherCoins(db, primary, bs[..m]);
    }
  }

  /** A batch whose blocks are all of other coins adds its accepted difficulty to the accumulator and nothing to any round. */
  lemma OtherCoinsBatch(db: Db, primary: string, batch: Records)
    requires forall i | 0 <= i < |batch.blocks| :: batch.blocks[i].coin != "" && batch.blocks[i].coin != primary
    ensures var after := Committed(db, primary, batch);
      && after.accum == db.accum + Earned(batch.shares) && |db.rows| <= |after.rows| && after.rows[..|db.rows|] == db.rows
      && forall i | |db.rows| <= i < |after.rows| :: after.rows[i].roundEffort == 0.0
  {
    hide RecordedAll, Earned;
    OtherCoins(db.(accum := db.accum + Earned(batch.shares)), primary, batch.blocks);
  }

  /** A new block of the primary coin takes the whole accumulator into its row, wherever it is in a batch. */
  lemma OwnBlock(db: Db, primary: string, bs: seq<Block>, b: Block)
    requires b.coin == "" || b.coin == primary
    requires forall i | 0 <= i < |RecordedAll(db, primary, bs).rows| :: RecordedAll(db, primary, bs).rows[i].hash != b.hash
    ensures var before, after := RecordedAll(db, primary, bs), RecordedAll(db, primary, bs + [b]);
      after.rows == before.rows + [Row(b.hash, false, before.accum)] && after.accum == 0.0
  {
    assert (bs + [b])[..|bs|] == bs;
  }

  /** A block of another coin after a share of 5: the 5 stay in the accumulator. */
  lemma OtherCoinKeepsEffort()
    ensures var db := Committed(EMPTY_DB, "LTC", Records([Share(5.0, true, "")], [], [], [], [Block("h", "DOGE", 1)]));
      db.accum == 5.0 && db.rows == [Row("h", true, 0.0)]
  {
    EarnedOne(5.0);
    RecordedOne(EMPTY_DB.(accum := 5.0), "LTC", Block("h", "DOGE", 1));
    assert |"DOGE"| != |"LTC"|;
  }

  /** A committed batch moves exactly its accepted difficulty into rounds, the accumulator and what was wiped. */
  lemma CommittedBalance(db: Db, primary: string, batch: Records)
    ensures Balance(Committed(db, primary, batch)) == Balance(db) + Earned(batch.shares)
  {
    hide ParentEffort, Earned, RecordedAll;
    RecordedAllBalance(db.(accum := db.accum + Earned(batch.shares)), primary, batch.blocks);
  }

  /** No block is in the table already or twice in the list. */
  ghost predicate NewHashes(rows: seq<Row>, bs: seq<Block>)
  {
    && (forall i | 0 <= i < |bs| :: !Has(rows, bs[i].hash))
    && (forall i, j | 0 <= i < j < |bs| :: bs[i].hash != bs[j].hash)
  }

  predicate Reported(bs: seq<Block>, hash: string)
  {
    exists i | 0 <= i < |bs| :: bs[i].hash == hash
  }

  lemma ReportedConcat(a: seq<Block>, b: seq<Block>, hash: string)
    ensures Reported(a + b, hash) <==> Reported(a, hash) || Reported(b, hash)
  {
    assert forall i | 0 <= i < |a| :: (a + b)[i] == a[i];
    assert forall i | 0 <= i < |b| :: (a + b)[|a| + i] == b[i];
  }

  lemma ReportedLast(bs: seq<Block>, hash: string)
    requires bs != []
    ensures Reported(bs, hash) <==> Reported(bs[..|bs| - 1], hash) || bs[|bs| - 1].hash == hash
  {
    var m := |bs| - 1;
    assert forall i | 0 <= i < m :: bs[..m][i] == bs[i];
  }

  lemma {:induction false} RowsOfAll(db: Db, primary: string, bs: seq<Block>, hash: string)
    ensures Has(RecordedAll(db, primary, bs).rows, hash) <==> Has(db.rows, hash) || Reported(bs, hash)
  {
    if bs != [] {
      hide Has, Recorded, Reported;
      var m := |bs| - 1;
      var before := RecordedAll(db, primary, bs[..m]);
      RowsOfAll(db, primary, bs[..m], hash);
      HasAfter(before, primary, bs[m], hash);
      ReportedLast(bs, hash);
    }
  }

  lemma HasAfter(db: Db, primary: string, b: Block, hash: string)
    ensures Has(Recorded(db, primary, b).rows, hash) <==> Has(db.rows, hash) || b.hash == hash
  {
    var rows := Recorded(db, primary, b).rows;
    if rows != db.rows {
      assert rows[|rows| - 1].hash == b.hash;
      assert forall i | 0 <= i < |db.rows| :: rows[i] == db.rows[i];
    }
  }

  /** With distinct hashes nothing is wiped. */
  lemma {:induction false} NothingWiped(db: Db, primary: string, bs: seq<Block>)
    requires NewHashes(db.rows, bs)
    ensures RecordedAll(db, primary, bs).wiped == db.wiped
  {
    if bs != [] {
      hide Has, IsAux;
      var m := |bs| - 1;
      assert forall i | 0 <= i < m :: bs[..m][i] == bs[i];
      NothingWiped(db, primary, bs[..m]);
      RowsOfAll(db, primary, bs[..m], bs[m].hash);
    }
  }

  /** Two shares of 5 and 7 around two reports of the same block: 7 is in no round. */
  lemma DuplicateLosesEffort(primary: string)
    ensures
      var first := Records([Share(5.0, true, "")], [], [], [], [Block("h", "", 1)]);
      var second := Records([Share(7.0, true, "")], [], [], [], [Block("h", "", 1)]);
      var db := Committed(Committed(EMPTY_DB, primary, first), primary, second);
      ParentEffort(db.rows) + db.accum == 5.0 && db.wiped == 7.0
  {
    var b := Block("h", "", 1);
    EarnedOne(5.0);
    EarnedOne(7.0);
    RecordedOne(EMPTY_DB.(accum := 5.0), primary, b);
    var db := Recorded(EMPTY_DB.(accum := 5.0), primary, b);
    assert db == Db([Row("h", false, 5.0)], 0.0, 0.0);
    RecordedOne(db.(accum := 7.0), primary, b);
    assert db.rows[0].hash == "h" && db.rows[..0] == [];
  }

  lemma EarnedOne(d: work)
    ensures Earned([Share(d, true, "")]) == d
  {
    assert [Share(d, true, "")][..0] == [];
  }

  lemma RecordedOne(db: Db, primary: string, b: Block)
    ensures RecordedAll(db, primary, [b]) == Recorded(db, primary, b)
  {
    assert [b][..0] == [];
  }

  // ---------- whole histories ----------

  function AllBlocks(batches: seq<Records>): (bs: seq<Block>)
  {
    if batches == [] then [] else AllBlocks(batches[..|batches| - 1]) + batches[|batches| - 1].blocks
  }

  function AllShares(batches: seq<Records>): (ss: seq<Share>)
  {
    if batches == [] then [] else AllShares(batches[..|batches| - 1]) + batches[|batches| - 1].shares
  }

  function History(primary: string, batches: seq<Records>): (db: Db)
  {
    if batches == [] then EMPTY_DB else Committed(History(primary, batches[..|batches| - 1]), primary, batches[|batches| - 1])
  }

  lemma {:induction false} EarnedConcat(a: seq<Share>, b: seq<Share>)
    ensures Earned(a + b) == Earned(a) + Earned(b)
  {
    if b == [] {
      assert a + b == a;
    } else {
      var m := |b| - 1;
      assert (a + b)[..|a| + m] == a + b[..m];
      EarnedConcat(a, b[..m]);
    }
  }

  /** A share counts with its difficulty exactly when it was accepted, wherever it is in a batch. */
  lemma OneShareCounts(a: seq<Share>, x: Share, b: seq<Share>)
    ensures Earned(a + [x] + b) == Earned(a + b) + if x.accepted then x.difficulty else 0.0
  {
    EarnedConcat(a + [x], b);
    EarnedConcat(a, [x]);
    EarnedConcat(a, b);
    assert [x][..0] == [];
  }

  /** A batch with shares, blocks of other coins and then a new block of the primary coin: the row has all the effort so far. */
  lemma OwnBlockBatch(db: Db, primary: string, shares: seq<Share>, others: seq<Block>, b: Block)
    requires b.coin == "" || b.coin == primary
    requires forall i | 0 <= i < |others| :: others[i].coin != "" && others[i].coin != primary && others[i].hash != b.hash
    requires forall i | 0 <= i < |db.rows| :: db.rows[i].hash != b.hash
    ensures var after := Committed(db, primary, Records(shares, [], [], [], others + [b]));
      after.rows != [] && after.rows[|after.rows| - 1] == Row(b.hash, false, db.accum + Earned(shares)) && after.accum == 0.0
  {
    hide Earned, RecordedAll;
    var start := db.(accum := db.accum + Earned(shares));
    OtherCoins(start, primary, others);
    RowsOfAll(start, primary, others, b.hash);
    OwnBlock(start, primary, others, b);
  }

  /** Round effort, the accumulator and what was wiped add up to all the difficulty ever accepted. */
  lemma {:induction false} EffortAddsUp(primary: string, batches: seq<Records>)
    ensures Balance(History(primary, batches)) == Earned(AllShares(batches))
  {
    hide Committed;
    if batches == [] {
      assert Earned([]) == 0.0;
    } else {
      hide Balance;
      var m := |batches| - 1;
      EffortAddsUp(primary, batches[..m]);
      CommittedBalance(History(primary, batches[..m]), primary, batches[m]);
      EarnedConcat(AllShares(batches[..m]), batches[m].shares);
    }
  }

  lemma {:induction false} RowsOfHistory(primary: string, batches: seq<Records>, hash: string)
    ensures Has(History(primary, batches).rows, hash) <==> Reported(AllBlocks(batches), hash)
  {
    if batches != [] {
      hide Has, Earned, RecordedAll, Reported;
      var m := |batches| - 1;
      var a, b := AllBlocks(batches[..m]), batches[m].blocks;
      var before := History(primary, batches[..m]);
      RowsOfHistory(primary, batches[..m], hash);
      RowsOfAll(before.(accum := before.accum + Earned(batches[m].shares)), primary, b, hash);
      ReportedConcat(a, b, hash);
    }
  }

  ghost predicate Distinct(bs: seq<Block>)
  {
    forall i, j | 0 <= i < j < |bs| :: bs[i].hash != bs[j].hash
  }

  lemma DistinctParts(a: seq<Block>, b: seq<Block>)
    requires Distinct(a + b)
    ensures Distinct(a) && Distinct(b)
    ensures forall i, j | 0 <= i < |a| && 0 <= j < |b| :: a[i].hash != b[j].hash
  {
    assert forall i | 0 <= i < |a| :: (a + b)[i] == a[i];
    assert forall j | 0 <= j < |b| :: (a + b)[|a| + j] == b[j];
  }

  lemma {:induction false} HistoryWipesNothing(primary: string, batches: seq<Records>)
    requires Distinct(AllBlocks(batches))
    ensures History(primary, batches).wiped == 0.0
  {
    if batches != [] {
      hide Has, Earned, RecordedAll;
      var m := |batches| - 1;
      var a, b := AllBlocks(batches[..m]), batches[m].blocks;
      var before := History(primary, batches[..m]);
      DistinctParts(a, b);
      HistoryWipesNothing(primary, batches[..m]);
      forall i | 0 <= i < |b|
        ensures !Has(before.rows, b[i].hash)
      {
        RowsOfHistory(primary, batches[..m], b[i].hash);
      }
      NothingWiped(before.(accum := before.accum + Earned(batches[m].shares)), primary, b);
    }
  }

  /** A parent block is recorded again while work has been added since. */
  predicate Wipes(db: Db, primary: string, b: Block)
  {
    !IsAux(primary, b) && Has(db.rows, b.hash) && db.accum != 0.0
  }

  predicate NoneWipes(db: Db, primary: string, bs: seq<Block>)
  {
    bs == []
    || (NoneWipes(db, primary, bs[..|bs| - 1]) && !Wipes(RecordedAll(db, primary, bs[..|bs| - 1]), primary, bs[|bs| - 1]))
  }

  /** No block of any batch wipes when its turn comes. */
  predicate NeverWipes(primary: string, batches: seq<Records>)
  {
    batches == []
    || var m := |batches| - 1; var before := History(primary, batches[..m]);
       NeverWipes(primary, batches[..m]) && NoneWipes(before.(accum := before.accum + Earned(batches[m].shares)), primary, batches[m].blocks)
  }

  lemma RecordedWipes(db: Db, primary: string, b: Block)
    requires db.accum >= 0.0
    ensures var after := Recorded(db, primary, b);
      after.accum >= 0.0 && after.wiped >= db.wiped && (after.wiped == db.wiped <==> !Wipes(db, primary, b))
  {
    hide Has, IsAux;
  }

  lemma {:induction false} BatchWipes(db: Db, primary: string, bs: seq<Block>)
    requires db.accum >= 0.0
    ensures var after := RecordedAll(db, primary, bs);
      after.accum >= 0.0 && after.wiped >= db.wiped && (after.wiped == db.wiped <==> NoneWipes(db, primary, bs))
  {
    if bs != [] {
      hide Recorded, Wipes;
      var m := |bs| - 1;
      BatchWipes(db, primary, bs[..m]);
      RecordedWipes(RecordedAll(db, primary, bs[..m]), primary, bs[m]);
    }
  }

  lemma HistoryLast(primary: string, batches: seq<Records>)
    requires batches != []
    ensures var m := |batches| - 1; var before := History(primary, batches[..m]);
      var start := before.(accum := before.accum + Earned(batches[m].shares));
      && History(primary, batches) == RecordedAll(start, primary, batches[m].blocks)
      && (NeverWipes(primary, batches) <==> NeverWipes(primary, batches[..m]) && NoneWipes(start, primary, batches[m].blocks))
  {
    hide RecordedAll, NoneWipes, Earned;
  }

  lemma NoHistory(primary: string)
    ensures History(primary, []) == EMPTY_DB && NeverWipes(primary, [])
  {
  }

  lemma {:induction false} HistoryWipes(primary: string, batches: seq<Records>)
    ensures var db := History(primary, batches);
      db.accum >= 0.0 && db.wiped >= 0.0 && (db.wiped == 0.0 <==> NeverWipes(primary, batches))
  {
    hide History, NeverWipes, RecordedAll, NoneWipes, Earned;
    if batches == [] {
      NoHistory(primary);
    } else {
      var m := |batches| - 1;
      var before := History(primary, batches[..m]);
      HistoryWipes(primary, batches[..m]);
      BatchWipes(before.(accum := before.accum + Earned(batches[m].shares)), primary, batches[m].blocks);
      HistoryLast(primary, batches);
    }
  }

  /**
    * All accepted work is in a parent block's round or still in the accumulator, exactly when no parent block that
    * is already in the table is recorded while the accumulator is not zero.
    */
  lemma EffortConserved(primary: string, batches: seq<Records>)
    ensures var db := History(primary, batches);
      ParentEffort(db.rows) + db.accum == Earned(AllShares(batches)) <==> NeverWipes(primary, batches)
  {
    hide Has, Earned, History, ParentEffort, NeverWipes;
    EffortAddsUp(primary, batches);
    HistoryWipes(primary, batches);
  }

  /** With distinct block hashes no work is ever lost. */
  lemma DistinctConserves(primary: string, batches: seq<Records>)
    requires Distinct(AllBlocks(batches))
    ensures NeverWipes(primary, batches)
    ensures var db := History(primary, batches); ParentEffort(db.rows) + db.accum == Earned(AllShares(batches))
  {
    hide Has, Earned, History, ParentEffort, Distinct, NeverWipes;
    EffortConserved(primary, batches);
    HistoryWipesNothing(primary, batches);
    HistoryWipes(primary, batches);
  }

  // ---------- the run of the worker ----------

  /** How a flush ends: committed, rolled back with the connection, or rolled back for another reason. */
  datatype Outcome = Success | BrokenConnection | OtherError

  /** Where the worker thread is: at the top of its loop, connected, or with a batch to write. */
  datatype Phase = Top | Connected | Drained

  /** A batch that was written, or given up after an error that is not the connection's. */
  datatype Settled = Settled(batch: Records, kept: bool)

  function Batches(settled: seq<Settled>): (bs: seq<Records>)
  {
    if settled == [] then [] else Batches(settled[..|settled| - 1]) + [settled[|settled| - 1].batch]
  }

  function Kept(settled: seq<Settled>): (bs: seq<Records>)
  {
    if settled == [] then []
    else Kept(settled[..|settled| - 1]) + if settled[|settled| - 1].kept then [settled[|settled| - 1].batch] else []
  }

  lemma SettledSnoc(settled: seq<Settled>, x: Settled)
    ensures Batches(settled + [x]) == Batches(settled) + [x.batch]
    ensures Kept(settled + [x]) == if x.kept then Kept(settled) + [x.batch] else Kept(settled)
  {
    assert (settled + [x])[..|settled|] == settled;
  }

  lemma {:induction false} NoMoreKept(settled: seq<Settled>)
    ensures |Kept(settled)| <= |Batches(settled)|
  {
    if settled != [] {
      NoMoreKept(settled[..|settled| - 1]);
    }
  }

  /** What happens to the worker: an offered record, a connection check with what it finds and gets, a drain, the end of a flush. */
  datatype Step =
    | OfferShare(share: Share) | OfferPresence(presence: string) | OfferBestShare(best: string) | OfferHashrate(hashrate: string)
    | OfferBlock(block: Block) | Connect(alive: bool, ok: bool) | Drain | Flush(outcome: Outcome)

  datatype Config = Config(primary: string, maxQueue: nat)

  /** The worker between two steps; settled lists every batch written or given up so far. */
  datatype State = State(queue: Records, batch: Records, phase: Phase, connected: bool, db: Db, settled: seq<Settled>)

  const START := State(NONE, NONE, Top, false, EMPTY_DB, [])

  /** What an offer adds to the queues: its record, unless the queue it goes to is full. */
  function Taken(config: Config, queue: Records, step: Step): (more: Records)
  {
    match step
    case OfferShare(r) => if |queue.shares| < config.maxQueue then NONE.(shares := [r]) else NONE
    case OfferPresence(r) => if |queue.presences| < config.maxQueue then NONE.(presences := [r]) else NONE
    case OfferBestShare(r) => if |queue.best| < config.maxQueue then NONE.(best := [r]) else NONE
    case OfferHashrate(r) => if |queue.hashrates| < config.maxQueue then NONE.(hashrates := [r]) else NONE
    case OfferBlock(r) => if |queue.blocks| < config.maxQueue then NONE.(blocks := [r]) else NONE
    case _ => NONE
  }

  /** One transaction; when the connection breaks the batch goes back to the front of the queues. */
  function Flushed(config: Config, s: State, outcome: Outcome): (t: State)
  {
    match outcome
    case Success =>
      State(s.queue, NONE, Top, true, Committed(s.db, config.primary, s.batch), s.settled + [Settled(s.batch, true)])
    case BrokenConnection => State(Plus(s.batch, s.queue), NONE, Top, false, s.db, s.settled)
    case OtherError => State(s.queue, NONE, Top, true, s.db, s.settled + [Settled(s.batch, false)])
  }

  /** One step; a step of the worker thread happens only where the thread is. */
  function Next(config: Config, s: State, step: Step): (t: State)
  {
    match step
    case Connect(alive, ok) =>
      var connected := (s.connected && alive) || ok;
      if s.phase != Top then s else s.(connected := connected, phase := if connected then Connected else Top)
    case Drain =>
      if s.phase != Connected then s else s.(queue := NONE, batch := s.queue, phase := if s.queue == NONE then Top else Drained)
    case Flush(outcome) => if s.phase != Drained then s else Flushed(config, s, outcome)
    case _ => s.(queue := Plus(s.queue, Taken(config, s.queue, step)))
  }

  function After(config: Config, steps: seq<Step>): (s: State)
  {
    if steps == [] then START else Next(config, After(config, steps[..|steps| - 1]), steps[|steps| - 1])
  }

  /** The records accepted by all enqueues. */
  function Accepted(config: Config, steps: seq<Step>): (r: Records)
  {
    if steps == [] then NONE
    else
      var before := steps[..|steps| - 1];
      Plus(Accepted(config, before), Taken(config, After(config, before).queue, steps[|steps| - 1]))
  }

  /** Some flush ended in an error that is not the connection's. */
  predicate GivesUp(config: Config, steps: seq<Step>)
  {
    steps != [] && var before := steps[..|steps| - 1];
    GivesUp(config, before) || (steps[|steps| - 1] == Step.Flush(OtherError) && After(config, before).phase == Drained)
  }

  // ---------- order ----------

  function Together(batches: seq<Records>): Records
  {
    if batches == [] then NONE else Plus(Together(batches[..|batches| - 1]), batches[|batches| - 1])
  }

  lemma TogetherSnoc(batches: seq<Records>, b: Records)
    ensures Together(batches + [b]) == Plus(Together(batches), b)
  {
    assert (batches + [b])[..|batches|] == batches;
  }

  lemma HistorySnoc(primary: string, batches: seq<Records>, b: Records)
    ensures History(primary, batches + [b]) == Committed(History(primary, batches), primary, b)
  {
    assert (batches + [b])[..|batches|] == batches;
  }

  /** Settled, in flight and queued, in this order; a batch is in flight only between drain and flush. */
  function Everything(s: State): Records
  {
    Plus(Plus(Together(Batches(s.settled)), s.batch), s.queue)
  }

  ghost predicate Sane(config: Config, s: State)
  {
    && s.db == History(config.primary, Kept(s.settled))
    && (s.phase != Drained ==> s.batch == NONE) && (s.phase != Top ==> s.connected)
  }

  lemma FlushedKeeps(config: Config, s: State, outcome: Outcome)
    requires Sane(config, s)
    ensures Everything(Flushed(config, s, outcome)) == Everything(s) && Sane(config, Flushed(config, s, outcome))
  {
    hide Plus, Together, Batches, Kept, History, Committed;
    var done := Together(Batches(s.settled));
    if outcome == BrokenConnection {
      PlusAssociates(done, s.batch, s.queue);
      PlusAssociates(done, NONE, Plus(s.batch, s.queue));
    } else {
      SettledSnoc(s.settled, Settled(s.batch, outcome == Success));
      TogetherSnoc(Batches(s.settled), s.batch);
      HistorySnoc(config.primary, Kept(s.settled), s.batch);
      PlusAssociates(Plus(done, s.batch), NONE, s.queue);
    }
  }

  lemma NextKeeps(config: Config, s: State, step: Step)
    requires Sane(config, s)
    ensures Everything(Next(config, s, step)) == Plus(Everything(s), Taken(config, s.queue, step)) && Sane(config, Next(config, s, step))
  {
    hide Plus, Together, Batches, Kept, History, Flushed;
    var done := Together(Batches(s.settled));
    PlusAssociates(Everything(s), NONE, NONE);
    match step
    case Connect(_, _) =>
    case Drain =>
      PlusAssociates(done, NONE, s.queue);
      PlusAssociates(done, s.queue, NONE);
      PlusAssociates(Plus(done, s.queue), NONE, NONE);
    case Flush(outcome) => FlushedKeeps(config, s, outcome);
    case _ => PlusAssociates(Plus(done, s.batch), s.queue, Taken(config, s.queue, step));
  }

  /**
    * Under any interleaving of offers, connection checks, drains and flushes: what was accepted is, in order, the batches
    * settled, the batch in flight and the queue, and the database is the history of the batches kept.
    */
  lemma {:induction false} InOrder(config: Config, steps: seq<Step>)
    ensures Everything(After(config, steps)) == Accepted(config, steps) && Sane(config, After(config, steps))
  {
    if steps == [] {
      assert Kept([]) == [] && Batches([]) == [];
    } else {
      hide Everything, Sane, Next, Taken;
      InOrder(config, steps[..|steps| - 1]);
      NextKeeps(config, After(config, steps[..|steps| - 1]), steps[|steps| - 1]);
    }
  }

  /** Every batch settled is in the database, exactly when no flush ended in an error that is not the connection's. */
  lemma {:induction false} NothingLost(config: Config, steps: seq<Step>)
    ensures var settled := After(config, steps).settled; Kept(settled) == Batches(settled) <==> !GivesUp(config, steps)
  {
    if steps == [] {
      assert Kept([]) == [] && Batches([]) == [];
    } else {
      hide Next, Kept, Batches;
      NothingLost(config, steps[..|steps| - 1]);
      NextLoses(config, After(config, steps[..|steps| - 1]), steps[|steps| - 1]);
    }
  }

  lemma NextLoses(config: Config, s: State, step: Step)
    ensures var settled := Next(config, s, step).settled;
      Kept(settled) == Batches(settled)
      <==> Kept(s.settled) == Batches(s.settled) && !(step == Step.Flush(OtherError) && s.phase == Drained)
  {
    hide Plus, Committed, Taken, Kept, Batches;
    if step.Flush? && s.phase == Drained && step.outcome != BrokenConnection {
      SettledSnoc(s.settled, Settled(s.batch, step.outcome == Success));
      NoMoreKept(s.settled);
      LastBatch(Kept(s.settled), Batches(s.settled), s.batch);
    }
  }

  /** One pass of the loop with nothing offered meanwhile. */
  function OnePass(config: Config, s: State, alive: bool, ok: bool, outcome: Outcome): (t: State)
  {
    Next(config, Next(config, Next(config, s, Connect(alive, ok)), Drain), Flush(outcome))
  }

  /** A pass that has a connection and commits leaves everything accepted in the database. */
  lemma AllCommitted(config: Config, steps: seq<Step>, alive: bool, ok: bool)
    requires After(config, steps).phase == Top && ((After(config, steps).connected && alive) || ok)
    ensures var t := OnePass(config, After(config, steps), alive, ok, Success);
      && t.queue == NONE && t.batch == NONE && Together(Batches(t.settled)) == Accepted(config, steps)
      && t.db == History(config.primary, Kept(t.settled))
      && (Kept(t.settled) == Batches(t.settled) <==> !GivesUp(config, steps))
  {
    hide After, Accepted, Plus, Together, Committed, Batches, Kept, History, GivesUp;
    var s := After(config, steps);
    var a := Next(config, s, Connect(alive, ok));
    var b := Next(config, a, Drain);
    var t := Next(config, b, Flush(Success));
    InOrder(config, steps);
    NextKeeps(config, s, Connect(alive, ok));
    NextKeeps(config, a, Drain);
    NextKeeps(config, b, Flush(Success));
    PlusAssociates(Everything(s), NONE, NONE);
    PlusAssociates(Together(Batches(t.settled)), NONE, NONE);
    NothingLost(config, steps);
    SettledSnoc(s.settled, Settled(b.batch, true));
    LastBatch(Batches(s.settled), Kept(s.settled), b.batch);
  }

  lemma LastBatch(x: seq<Records>, y: seq<Records>, b: Records)
    ensures x + [b] == y + [b] <==> x == y
  {
    assert x == (x + [b])[..|x|] && y == (y + [b])[..|y|];
    assert x + [b] == y + [b] ==> |x| == |y|;
  }

  // ---------- the worker ----------

  class Worker {
    const config: Config
    var shares: seq<Share>
    var presences: seq<string>
    var bestShares: seq<string>
    var hashrates: seq<string>
    var blocks: seq<Block>
    /** The batch being flushed, and the database as last committed. */
    var batch: Records
    var phase: Phase
    var connected: bool
    var db: Db
    ghost var settled: seq<Settled>

    function Queue(): Records
      reads this
    {
      Records(shares, presences, bestShares, hashrates, blocks)
    }

    ghost function Now(): State
      reads this
    {
      State(Queue(), batch, phase, connected, db, settled)
    }

    constructor (config: Config)
      ensures Now() == START && this.config == config
    {
      this.config := config;
      shares, presences, bestShares, hashrates, blocks := [], [], [], [], [];
      batch, phase, connected, db, settled := NONE, Top, false, EMPTY_DB, [];
    }

    method EnqueueShare(r: Share) returns (ok: bool)
      modifies this`shares
      ensures Now() == Next(config, old(Now()), OfferShare(r)) && ok == (|old(shares)| < config.maxQueue)
      ensures shares == if ok then old(shares) + [r] else old(shares)
    {
      if |shares| >= config.maxQueue {
        return false;
      }
      shares := shares + [r];
      ok := true;
    }

    method EnqueuePresence(r: string) returns (ok: bool)
      modifies this`presences
      ensures Now() == Next(config, old(Now()), OfferPresence(r)) && ok == (|old(presences)| < config.maxQueue)
      ensures presences == if ok then old(presences) + [r] else old(presences)
    {
      if |presences| >= config.maxQueue {
        return false;
      }
      presences := presences + [r];
      ok := true;
    }

    method EnqueueBestShare(r: string) returns (ok: bool)
      modifies this`bestShares
      ensures Now() == Next(config, old(Now()), OfferBestShare(r)) && ok == (|old(bestShares)| < config.maxQueue)
      ensures bestShares == if ok then old(bestShares) + [r] else old(bestShares)
    {
      if |bestShares| >= config.maxQueue {
        return false;
      }
      bestShares := bestShares + [r];
      ok := true;
    }

    method EnqueueHashrate(r: string) returns (ok: bool)
      modifies this`hashrates
      ensures Now() == Next(config, old(Now()), OfferHashrate(r)) && ok == (|old(hashrates)| < config.maxQueue)
      ensures hashrates == if ok then old(hashrates) + [r] else old(hashrates)
    {
      if |hashrates| >= config.maxQueue {
        return false;
      }
      hashrates := hashrates + [r];
      ok := true;
    }

    method EnqueueBlock(r: Block) returns (ok: bool)
      modifies this`blocks
      ensures Now() == Next(config, old(Now()), OfferBlock(r)) && ok == (|old(blocks)| < config.maxQueue)
      ensures blocks == if ok then old(blocks) + [r] else old(blocks)
    {
      if |blocks| >= config.maxQueue {
        return false;
      }
      blocks := blocks + [r];
      ok := true;
    }

    /** The top of the loop: a connection that is gone is replaced, and without one the loop starts over. */
    method Connect(alive: bool, ok: bool)
      requires phase == Top
      modifies this`phase, this`connected
      ensures Now() == Next(config, old(Now()), Step.Connect(alive, ok))
    {
      if !connected || !alive {
        connected := ok;
      }
      if connected {
        phase := Connected;
      }
    }

    /** Everything queued becomes the batch; with nothing queued the loop starts over. */
    method Drain()
      requires phase == Connected
      modifies this
      ensures Now() == Next(config, old(Now()), Step.Drain)
    {
      hide Plus, Taken, Flushed;
      batch := Records(shares, presences, bestShares, hashrates, blocks);
      shares, presences, bestShares, hashrates, blocks := [], [], [], [], [];
      phase := if batch == NONE then Top else Drained;
    }

    /** One transaction, committed or rolled back. */
    method Flush(outcome: Outcome)
      requires phase == Drained && connected
      modifies this
      ensures Now() == Next(config, old(Now()), Step.Flush(outcome))
    {
      hide Committed, Plus;
      var written := Transaction(db, batch);
      phase := Top;
      match outcome
      case Success =>
        db := written;
        settled := settled + [Settled(batch, true)];
        batch := NONE;
      case BrokenConnection =>
        Requeue();
        batch := NONE;
        connected := false;
      case OtherError =>
        settled := settled + [Settled(batch, false)];
        batch := NONE;
    }

    method Perform(step: Step)
      requires phase == Drained ==> connected
      modifies this
      ensures Now() == Next(config, old(Now()), step)
    {
      hide Plus, Flushed;
      match step
      case OfferShare(r) => var _ := EnqueueShare(r);
      case OfferPresence(r) => var _ := EnqueuePresence(r);
      case OfferBestShare(r) => var _ := EnqueueBestShare(r);
      case OfferHashrate(r) => var _ := EnqueueHashrate(r);
      case OfferBlock(r) => var _ := EnqueueBlock(r);
      case Connect(alive, ok) =>
        if phase == Top {
          Connect(alive, ok);
        }
      case Drain =>
        if phase == Connected {
          Drain();
        }
      case Flush(outcome) =>
        if phase == Drained {
          Flush(outcome);
        }
    }

    /** One pass of the loop with nothing enqueued meanwhile. */
    method Pass(alive: bool, ok: bool, outcome: Outcome)
      requires phase == Top && batch == NONE
      modifies this
      ensures Now() == OnePass(config, old(Now()), alive, ok, outcome) && phase == Top
      ensures !(old(connected) && alive) && !ok ==> settled == old(settled) && Queue() == old(Queue())
      ensures (old(connected) && alive) || ok ==>
        if old(Queue()) == NONE then settled == old(settled) && Queue() == NONE
        else if outcome == BrokenConnection then settled == old(settled) && Queue() == old(Queue()) && !connected
        else settled == old(settled) + [Settled(old(Queue()), outcome == Success)] && Queue() == NONE
    {
      hide Committed, Plus;
      PlusAssociates(Queue(), NONE, NONE);
      Connect(alive, ok);
      if phase == Connected {
        Drain();
        if phase == Drained {
          Flush(outcome);
        }
      }
    }

    /** The whole batch goes back to the front of each queue. */
    method Requeue()
      modifies this`shares, this`presences, this`bestShares, this`hashrates, this`blocks
      ensures Queue() == Plus(batch, old(Queue()))
    {
      shares := PushFront(batch.shares, shares);
      presences := PushFront(batch.presences, presences);
      bestShares := PushFront(batch.best, bestShares);
      hashrates := PushFront(batch.hashrates, hashrates);
      blocks := PushFront(batch.blocks, blocks);
    }

    /** The statements of the transaction. */
    method Transaction(start: Db, records: Records) returns (written: Db)
      ensures written == Committed(start, config.primary, records)
    {
      hide Recorded;
      var sum := 0.0;
      for i := 0 to |records.shares|
        invariant sum == Earned(records.shares[..i])
      {
        assert records.shares[..i + 1][..i] == records.shares[..i];
        if records.shares[i].accepted {
          sum := sum + records.shares[i].difficulty;
        }
      }
      assert records.shares[..|records.shares|] == records.shares;
      written := start;
      if sum > 0.0 {
        written := written.(accum := written.accum + sum);
      }
      ghost var base := written;
      for i := 0 to |records.blocks|
        invariant written == RecordedAll(base, config.primary, records.blocks[..i])
      {
        assert records.blocks[..i + 1][..i] == records.blocks[..i];
        written := Recorded(written, config.primary, records.blocks[i]);
      }
      assert records.blocks[..|records.blocks|] == records.blocks;
    }
  }

  /** The whole life of a worker. */
  method Lifetime(config: Config, steps: seq<Step>) returns (w: Worker)
    ensures w.config == config && w.Now() == After(config, steps)
  {
    hide Next;
    w := new Worker(config);
    assert steps[..0] == [];
    for i := 0 to |steps|
      invariant fresh(w) && w.config == config && w.Now() == After(config, steps[..i])
    {
      assert steps[..i + 1][..i] == steps[..i];
      InOrder(config, steps[..i]);
      w.Perform(steps[i]);
    }
    assert steps[..|steps|] == steps;
  }

  /** push_front from the last to the first keeps the order. */
  method PushFront<T>(batch: seq<T>, queue: seq<T>) returns (q: seq<T>)
    ensures q == batch + queue
  {
    q := queue;
    var i := |batch|;
    while i > 0
      invariant 0 <= i <= |batch| && q == batch[i..] + queue
    {
      i := i - 1;
      q := [batch[i]] + q;
    }
  }
}
