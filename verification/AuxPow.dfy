/** Merge mining in client_session.cpp: the Dogecoin block the pool assembles carries a proof that checks out. */
module AuxPow {
  import opened Coinbase
  import opened CoinbaseOutputs
  import opened Hashing
  import opened LittleEndian
  import opened MerkleTree
  import opened Numerals
  import opened Options
  import Target
  import opened Transactions

  function Reverse(b: seq<octet>): (r: seq<octet>)
    ensures |r| == |b| && forall i | 0 <= i < |b| :: r[i] == b[|b| - 1 - i]
  {
    seq(|b|, i requires 0 <= i < |b| => b[|b| - 1 - i])
  }

  function Header(version: seq<octet>, previous: seq<octet>, root: seq<octet>, time: seq<octet>, bits: seq<octet>, nonce: seq<octet>):
    (h: seq<octet>)
  {
    version + previous + root + time + bits + nonce
  }

  predicate IsHeader(version: seq<octet>, previous: seq<octet>, root: seq<octet>, time: seq<octet>, bits: seq<octet>, nonce: seq<octet>)
  {
    |version| == 4 && |previous| == 32 && |root| == 32 && |time| == 4 && |bits| == 4 && |nonce| == 4
  }

  /** What a share and its job put around the root. */
  datatype HeaderFields = HeaderFields(version: seq<octet>, previous: seq<octet>, time: seq<octet>, bits: seq<octet>, nonce: seq<octet>)

  predicate RightSizes(f: HeaderFields)
  {
    |f.version| == 4 && |f.previous| == 32 && |f.time| == 4 && |f.bits| == 4 && |f.nonce| == 4
  }

  lemma PartsOfHeader(version: seq<octet>, previous: seq<octet>, root: seq<octet>, time: seq<octet>, bits: seq<octet>, nonce: seq<octet>)
    requires IsHeader(version, previous, root, time, bits, nonce)
    ensures var h := Header(version, previous, root, time, bits, nonce);
      && |h| == 80 && h[..4] == version && h[4..36] == previous && h[36..68] == root
      && h[68..72] == time && h[72..76] == bits && h[76..] == nonce
  {
  }

  /** Byte for byte from the other end: display order against header order. */
  predicate Backwards(x: seq<octet>, y: seq<octet>)
  {
    |x| == |y| && forall i | 0 <= i < |x| :: x[i] == y[|x| - 1 - i]
  }

  // ---------- the Dogecoin coinbase ----------

  function DogeDonation(value: int, percent: real, script: seq<octet>): (d: int)
    ensures value >= 0 ==> 0 <= d <= value
  {
    if percent > 0.0 && script != [] then
      var d := Percent(value, percent);
      if d < 0 || d > value then 0 else d
    else 0
  }

  function DogePayments(value: int, miner: seq<octet>, percent: real, script: seq<octet>): (ps: seq<Payment>)
  {
    var d := DogeDonation(value, percent, script);
    [Payment(value - d, miner)] + if d > 0 && script != [] then [Payment(d, script)] else []
  }

  /** The miner and the operator share exactly the block's value. */
  lemma DogeValueConserved(value: int, miner: seq<octet>, percent: real, script: seq<octet>)
    requires value >= 0
    ensures Conserves(DogePayments(value, miner, percent, script), value)
  {
    hide Percent;
    SumShort(DogePayments(value, miner, percent, script));
  }

  /** The outputs read back from the Dogecoin coinbase add up to the block's value. */
  lemma DogeTotal(height: nat, signature: seq<octet>, value: int, miner: seq<octet>, percent: real, script: seq<octet>)
    requires height < 0x8000_0000 && |signature| <= 75 && 0 <= value < 0x8000_0000_0000_0000
    ensures Total(DogeTx(height, signature, DogePayments(value, miner, percent, script)).outputs) == value
  {
    hide Total, AsOutputs, Pushes, NullInput, DogePayments, Sum;
    DogeValueConserved(value, miner, percent, script);
    TotalOfSum(DogePayments(value, miner, percent, script));
  }

  /** Read back from the Dogecoin coinbase: the miner has what the operator's rounded share leaves. */
  lemma DogeDivides(height: nat, signature: seq<octet>, value: int, miner: seq<octet>, percent: real, script: seq<octet>)
    requires height < 0x8000_0000 && |signature| <= 75 && 0 <= value < 0x8000_0000_0000_0000 && percent <= 100.0
    ensures Divides(DogeTx(height, signature, DogePayments(value, miner, percent, script)).outputs, 0, value, percent, miner,
                    if script != [] then Some(script) else None)
  {
    hide Pushes, NullInput, Percent, Nearest, DogeDonation, Divides, DogePayments;
    DogePaymentsDivide(value, miner, percent, script);
  }

  lemma DogePaymentsDivide(value: int, miner: seq<octet>, percent: real, script: seq<octet>)
    requires 0 <= value < 0x8000_0000_0000_0000 && percent <= 100.0
    ensures Divides(AsOutputs(DogePayments(value, miner, percent, script)), 0, value, percent, miner,
                    if script != [] then Some(script) else None)
  {
    hide Percent, Nearest, DogeDonation;
    DogeShare(value, percent, script);
  }

  lemma DogeShare(value: int, percent: real, script: seq<octet>)
    requires value >= 0 && percent <= 100.0
    ensures var d := DogeDonation(value, percent, script);
      && 0 <= d <= value && (d > 0 <==> percent > 0.0 && script != [] && value as real * percent / 100.0 >= 0.5)
      && (d > 0 ==> Nearest(d, value, percent))
  {
    hide Percent, Nearest;
    if percent > 0.0 {
      PercentNearest(value, percent);
      PercentBelow(value, percent);
    }
  }

  function DogeTx(height: nat, signature: seq<octet>, ps: seq<Payment>): (tx: Tx)
    requires height < 0x8000_0000 && |signature| <= 75
  {
    CoinbaseTx(Pushes(height, signature), [], ps)
  }

  lemma DogeTxEncodable(height: nat, signature: seq<octet>, ps: seq<Payment>)
    requires height < 0x8000_0000 && |signature| <= 75 && Short(ps) && |ps| < 0xfd
    ensures Encodable(DogeTx(height, signature, ps))
  {
    hide Pushes, NullInput;
  }

  /** build_doge_coinbase; a negative height or a long signature throws. */
  method BuildDogeCoinbase(height: int, signature: seq<octet>, value: int, miner: seq<octet>, script: seq<octet>, percent: real)
    returns (r: Option<seq<octet>>)
    requires height < 0x8000_0000 && |miner| < 0xfd && |script| < 0xfd
    ensures r.Some? <==> height >= 0 && |signature| <= 75
    ensures r.Some? ==>
      var ps := DogePayments(value, miner, percent, script);
      Short(ps) && |ps| < 0xfd && Parse(r.value) == Some(DogeTx(height, signature, ps))
  {
    hide Parse, Percent, HeightPush, LE, CoinbaseTx, NullInput;
    var heightPush := EncodeHeight(height);
    if heightPush.None? || |signature| > 75 {
      return None;
    }
    var scriptSig := heightPush.value;
    if signature != [] {
      scriptSig := scriptSig + ([|signature|] + signature);
    }
    assert scriptSig == Pushes(height, signature);
    var donation := 0;
    if percent > 0.0 && script != [] {
      donation := Percent(value, percent);
      if donation < 0 || donation > value {
        donation := 0;
      }
    }
    var outputs := if donation > 0 && script != [] then 2 else 1;
    var cb := DogeHead(scriptSig, outputs);
    ghost var head, ps := cb, [];
    assert Short(ps) && cb == head + PaymentsBytes(ps);
    cb, ps := AppendOutput(cb, value - donation, miner, ps, head);
    if donation > 0 && script != [] {
      cb, ps := AppendOutput(cb, donation, script, ps, head);
    }
    assert ps == DogePayments(value, miner, percent, script);
    DogeParses(height, signature, ps, head, cb);
    r := Some(cb + [0, 0, 0, 0]);
  }

  method DogeHead(scriptSig: seq<octet>, outputs: octet) returns (cb: seq<octet>)
    requires |scriptSig| < 0xfd
    ensures cb == [1, 0, 0, 0] + ([1] + NullInput() + [|scriptSig|] + scriptSig + [255, 255, 255, 255] + [outputs])
  {
    hide ZeroBytes;
    cb := [1, 0, 0, 0];
    cb := cb + [1];
    cb := cb + ZeroBytes(32);
    cb := cb + [255, 255, 255, 255];
    cb := cb + [|scriptSig|];
    cb := cb + scriptSig;
    cb := cb + [255, 255, 255, 255];
    cb := cb + [outputs];
  }

  lemma DogeParses(height: nat, signature: seq<octet>, ps: seq<Payment>, head: seq<octet>, cb: seq<octet>)
    requires height < 0x8000_0000 && |signature| <= 75 && Short(ps) && |ps| < 0xfd && cb == head + PaymentsBytes(ps)
    requires var s := Pushes(height, signature);
      head == [1, 0, 0, 0] + ([1] + NullInput() + [|s|] + s + [255, 255, 255, 255] + [|ps|])
    ensures Parse(cb + [0, 0, 0, 0]) == Some(DogeTx(height, signature, ps))
  {
    hide Parse, OutputsBytes, Pushes, NullInput;
    var tx := DogeTx(height, signature, ps);
    DogeTxEncodable(height, signature, ps);
    assert tx.scriptSig == Pushes(height, signature);
    assert cb == tx.version + Body(tx);
    ParseWithTail(tx, [0, 0, 0, 0]);
  }

  // ---------- the work of one session ----------

  /** The auxiliary fields of a job; hashes and bits are in display order. */
  datatype AuxTemplate = AuxTemplate(
    enabled: bool, version: nat, previous: seq<octet>, bits: seq<octet>, target: seq<octet>, time: nat, height: int, value: int)

  datatype SessionAux = SessionAux(
    template: AuxTemplate, target: seq<octet>, commit: seq<octet>, coinbase: seq<octet>, header: seq<octet>, blockHash: hash)

  predicate Fields(a: AuxTemplate)
  {
    a.version < 0x1_0000_0000 && a.time < 0x1_0000_0000 && a.height < 0x8000_0000
  }

  /** The header fields of a template, apart from the root. */
  predicate Describes(h: seq<octet>, a: AuxTemplate)
  {
    && |h| == 80 && LEValue(h[..4]) == a.version && Backwards(h[4..36], a.previous)
    && LEValue(h[68..72]) == a.time && Backwards(h[72..76], a.bits) && h[76..] == [0, 0, 0, 0]
  }

  /** Magic, hash in display order, merkle size 1, nonce 0. */
  predicate Commits(c: seq<octet>, h: seq<octet>)
  {
    |c| == 44 && c[..4] == [0xfa, 0xbe, 0x6d, 0x6d] && Backwards(c[4..36], h) && c[36..40] == [1, 0, 0, 0] && c[40..] == [0, 0, 0, 0]
  }

  lemma CommitmentCommits(h: hash)
    ensures Commits(Commitment(Reverse(h)), h)
  {
  }

  /** What makes a session's work usable: the header is that of the template over the coinbase, and the commitment follows from it. */
  predicate Works(aux: SessionAux, sha256d: seq<octet> -> hash)
  {
    && Parse(aux.coinbase).Some?
    && Describes(aux.header, aux.template) && aux.header[36..68] == sha256d(aux.coinbase)
    && aux.blockHash == Reverse(sha256d(aux.header)) && aux.commit == Commitment(aux.blockHash)
    && |aux.target| == 32 && aux.target == aux.template.target
  }

  lemma WorkIsDescribed(aux: SessionAux, sha256d: seq<octet> -> hash)
    requires Works(aux, sha256d)
    ensures Describes(aux.header, aux.template) && |aux.target| == 32 && aux.target == aux.template.target
  {
  }

  /** build_session_aux */
  method BuildSessionAux(a: AuxTemplate, signature: seq<octet>, miner: seq<octet>, donation: seq<octet>, percent: real,
                         sha256d: seq<octet> -> hash)
    returns (r: Option<SessionAux>)
    requires Fields(a) && |miner| < 0xfd && |donation| < 0xfd
    ensures r.Some? <==>
      && a.enabled && miner != [] && |a.previous| == 32 && |a.bits| == 4 && |a.target| == 32
      && a.height >= 0 && |signature| <= 75
    ensures r.Some? ==> Works(r.value, sha256d) && r.value.template == a && r.value.target == a.target
    ensures r.Some? ==> Parse(r.value.coinbase) == Some(DogeTx(a.height, signature, DogePayments(a.value, miner, percent, donation)))
  {
    hide Parse, LE, Commitment, Describes;
    if !a.enabled || miner == [] {
      return None;
    }
    if |a.previous| != 32 || |a.bits| != 4 || |a.target| != 32 {
      return None;
    }
    var coinbase := BuildDogeCoinbase(a.height, signature, a.value, miner, donation, percent);
    if coinbase.None? {
      return None;
    }
    var root := sha256d(coinbase.value);
    var header := Header(LE(a.version, 4), Reverse(a.previous), root, LE(a.time, 4), Reverse(a.bits), [0, 0, 0, 0]);
    PartsOfHeader(LE(a.version, 4), Reverse(a.previous), root, LE(a.time, 4), Reverse(a.bits), [0, 0, 0, 0]);
    FieldsDescribe(header, a);
    var blockHash: hash := Reverse(sha256d(header));
    r := Some(SessionAux(a, a.target, Commitment(blockHash), coinbase.value, header, blockHash));
  }

  lemma FieldsDescribe(h: seq<octet>, a: AuxTemplate)
    requires Fields(a) && |h| == 80 && h[..4] == LE(a.version, 4) && h[4..36] == Reverse(a.previous)
    requires h[68..72] == LE(a.time, 4) && h[72..76] == Reverse(a.bits) && h[76..] == [0, 0, 0, 0]
    ensures Describes(h, a)
  {
    hide LE, LEValue;
    FourBytes();
    ValueOfLE(a.version, 4);
    ValueOfLE(a.time, 4);
  }

  lemma FourBytes()
    ensures Power(256, 4) == 0x1_0000_0000
  {
    PowerAdd(256, 2, 2);
    assert Power(256, 2) == 0x1_0000;
  }

  /** The commitment goes over the last 44 bytes of the first half. */
  function Spliced(first: seq<octet>, commit: seq<octet>): (r: seq<octet>)
  {
    if |first| >= 44 then first[..|first| - 44] + commit else first
  }

  /** Splicing replaces the placeholder and leaves every length byte right. */
  lemma SpliceFits(height: nat, signature: seq<octet>, commit: seq<octet>)
    requires height < 0x8000_0000 && |signature| <= 75 && |commit| == 44
    ensures Spliced(FirstHalf(ScriptHead(height, signature, true)), commit) == FirstHalf(Pushes(height, signature) + commit)
  {
    hide Pushes, Placeholder, NullInput;
    var pushes := Pushes(height, signature);
    var n := |pushes| + 44 + EXTRANONCE;
    var start := [1, 0, 0, 0] + [1] + NullInput() + [n] + pushes;
    assert FirstHalf(pushes + Placeholder()) == start + Placeholder();
    assert FirstHalf(pushes + commit) == start + commit;
    assert (start + Placeholder())[..|start|] == start;
  }

  // ---------- the submitted block ----------

  function Hashes(branch: seq<hash>): (b: seq<octet>)
    ensures |b| == 32 * |branch|
  {
    if branch == [] then [] else Hashes(branch[..|branch| - 1]) + branch[|branch| - 1]
  }

  /** maybe_submit_aux_block: header, proof, one transaction. */
  function AuxBlock(aux: SessionAux, cb: seq<octet>, branch: seq<hash>, parent: seq<octet>, sha256d: seq<octet> -> hash): (b: seq<octet>)
    requires |branch| < 0xfd
  {
    aux.header + Proof(cb, branch, parent, sha256d) + [1] + aux.coinbase
  }

  function Proof(cb: seq<octet>, branch: seq<hash>, parent: seq<octet>, sha256d: seq<octet> -> hash): (b: seq<octet>)
    requires |branch| < 0xfd
  {
    cb + Middle(sha256d(parent), |branch|, Hashes(branch), parent)
  }

  /** Block hash, branch, index, empty chain branch, chain index, parent header. */
  function Middle(parentHash: seq<octet>, n: octet, hashes: seq<octet>, parent: seq<octet>): (b: seq<octet>)
  {
    parentHash + [n] + hashes + [0, 0, 0, 0] + [0] + [0, 0, 0, 0] + parent
  }

  datatype Proven = Proven(
    header: seq<octet>, coinbase: Tx, parentHash: seq<octet>, branch: seq<octet>, branchCount: octet, index: seq<octet>,
    chainCount: octet, chainIndex: seq<octet>, parent: seq<octet>, count: octet, transactions: seq<octet>)

  /** Reads a block in the merged mining format: header, parent coinbase, hash, branch, index, chain branch, parent header, transactions. */
  function ParseProven(b: seq<octet>): (r: Option<Proven>)
  {
    if |b| < 84 then None
    else
      var body := ParseBody(b[80..84], b[84..]);
      if body.Malformed? || |body.rest| < 37 then None
      else
        var rest := body.rest;
        var n := 37 + 32 * rest[36] as int;
        if |rest| < n + 90 then None
        else Some(Proven(b[..80], body.tx.(locktime := rest[..4]), rest[4..36], rest[37..n], rest[36], rest[n..n + 4], rest[n + 4],
                         rest[n + 5..n + 9], rest[n + 9..n + 89], rest[n + 89], rest[n + 90..]))
  }

  /** The 44 bytes before the extranonce. */
  function CommittedIn(scriptSig: seq<octet>, extranonce: nat): (c: seq<octet>)
    requires |scriptSig| >= extranonce + 44
  {
    var n := |scriptSig| - extranonce;
    scriptSig[n - 44..n]
  }

  /** The checks of the merged mining specification. */
  ghost predicate Proves(p: Proven, extranonce: nat, sha256d: seq<octet> -> hash)
  {
    && |p.header| == 80 && |p.parent| == 80
    && p.count == 1 && Parse(p.transactions).Some? && p.header[36..68] == sha256d(p.transactions)
    && Encodable(p.coinbase) && |p.coinbase.scriptSig| >= extranonce + 44
    && Commits(CommittedIn(p.coinbase.scriptSig, extranonce), sha256d(p.header))
    && p.index == [0, 0, 0, 0] && p.chainCount == 0 && p.chainIndex == [0, 0, 0, 0] && p.parentHash == sha256d(p.parent)
    && exists branch: seq<hash> ::
         && Hashes(branch) == p.branch && |branch| == p.branchCount
         && Fold(sha256d(Serialize(p.coinbase)), branch, Combiner(sha256d)) == p.parent[36..68]
  }

  function Tail(locktime: seq<octet>, parentHash: seq<octet>, n: octet, hashes: seq<octet>, parent: seq<octet>, txs: seq<octet>):
    (rest: seq<octet>)
  {
    locktime + Middle(parentHash, n, hashes, parent) + [1] + txs
  }

  lemma MiddleParts(parentHash: seq<octet>, n: octet, hashes: seq<octet>, parent: seq<octet>)
    requires |parentHash| == 32 && |hashes| == 32 * n && |parent| == 80
    ensures var b, m := Middle(parentHash, n, hashes, parent), 33 + 32 * n as int;
      && |b| == m + 89 && b[..32] == parentHash && b[32] == n && b[33..m] == hashes
      && b[m..m + 4] == [0, 0, 0, 0] && b[m + 4] == 0 && b[m + 5..m + 9] == [0, 0, 0, 0] && b[m + 9..] == parent
  {
    var head := parentHash + [n] + hashes;
    assert head[..32] == parentHash && head[32] == n && head[33..] == hashes;
    BehindHead(head, parent);
  }

  lemma BehindHead(head: seq<octet>, parent: seq<octet>)
    ensures var b, m := head + [0, 0, 0, 0] + [0] + [0, 0, 0, 0] + parent, |head|;
      && b[..m] == head && b[m..m + 4] == [0, 0, 0, 0] && b[m + 4] == 0 && b[m + 5..m + 9] == [0, 0, 0, 0] && b[m + 9..] == parent
  {
  }

  lemma Shifted(a: seq<octet>, b: seq<octet>, c: seq<octet>, x: nat, y: nat)
    requires x <= y <= |b|
    ensures (a + b + c)[|a| + x..|a| + y] == b[x..y]
  {
  }

  lemma TailParts(locktime: seq<octet>, parentHash: seq<octet>, n: octet, hashes: seq<octet>, parent: seq<octet>, txs: seq<octet>)
    requires |locktime| == 4 && |parentHash| == 32 && |hashes| == 32 * n && |parent| == 80
    ensures var rest := Tail(locktime, parentHash, n, hashes, parent, txs);
      var m := 37 + 32 * n as int;
      && |rest| >= m + 90 && rest[..4] == locktime && rest[4..36] == parentHash && rest[36] == n && rest[37..m] == hashes
      && rest[m..m + 4] == [0, 0, 0, 0] && rest[m + 4] == 0 && rest[m + 5..m + 9] == [0, 0, 0, 0]
      && rest[m + 9..m + 89] == parent && rest[m + 89] == 1 && rest[m + 90..] == txs
  {
    hide Middle;
    var b, c, m := Middle(parentHash, n, hashes, parent), [1] + txs, 33 + 32 * n as int;
    MiddleParts(parentHash, n, hashes, parent);
    assert Tail(locktime, parentHash, n, hashes, parent, txs) == locktime + b + c;
    Shifted(locktime, b, c, 0, 32);
    Shifted(locktime, b, c, 33, m);
    Shifted(locktime, b, c, m, m + 4);
    Shifted(locktime, b, c, m + 5, m + 9);
    Shifted(locktime, b, c, m + 9, m + 89);
  }

  /** The pieces of an assembled block are read back. */
  lemma BlockParts(aux: SessionAux, tx: Tx, branch: seq<hash>, parent: seq<octet>, sha256d: seq<octet> -> hash)
    requires |branch| < 0xfd && |aux.header| == 80 && |parent| == 80 && Encodable(tx)
    ensures ParseProven(AuxBlock(aux, Serialize(tx), branch, parent, sha256d))
         == Some(Proven(aux.header, tx, sha256d(parent), Hashes(branch), |branch|, [0, 0, 0, 0], 0, [0, 0, 0, 0], parent, 1, aux.coinbase))
  {
    hide ParseProven, Serialize, Hashes, AuxBlock;
    var hashes, parentHash := Hashes(branch), sha256d(parent);
    var rest := Tail(tx.locktime, parentHash, |branch|, hashes, parent, aux.coinbase);
    BlockShape(aux, tx, branch, parent, sha256d);
    ProvenOf(aux.header, tx, rest);
    TailParts(tx.locktime, parentHash, |branch|, hashes, parent, aux.coinbase);
  }

  lemma BlockShape(aux: SessionAux, tx: Tx, branch: seq<hash>, parent: seq<octet>, sha256d: seq<octet> -> hash)
    requires |branch| < 0xfd && Encodable(tx)
    ensures AuxBlock(aux, Serialize(tx), branch, parent, sha256d)
         == aux.header + tx.version + (Body(tx) + Tail(tx.locktime, sha256d(parent), |branch|, Hashes(branch), parent, aux.coinbase))
  {
    hide Body, Hashes, Middle;
    var m := Middle(sha256d(parent), |branch|, Hashes(branch), parent);
    SevenParts(aux.header, tx.version, Body(tx), tx.locktime, m, [1], aux.coinbase);
  }

  lemma SevenParts(h: seq<octet>, v: seq<octet>, b: seq<octet>, l: seq<octet>, m: seq<octet>, n: seq<octet>, t: seq<octet>)
    ensures h + (v + b + l + m) + n + t == h + v + (b + (l + m + n + t))
  {
  }

  lemma ProvenOf(header: seq<octet>, tx: Tx, rest: seq<octet>)
    requires |header| == 80 && Encodable(tx) && |rest| >= 37
    ensures var n := 37 + 32 * rest[36] as int;
      |rest| >= n + 90 ==>
        ParseProven(header + tx.version + (Body(tx) + rest))
        == Some(Proven(header, tx.(locktime := rest[..4]), rest[4..36], rest[37..n], rest[36], rest[n..n + 4], rest[n + 4],
                       rest[n + 5..n + 9], rest[n + 9..n + 89], rest[n + 89], rest[n + 90..]))
  {
    hide Body, ParseBody;
    ThreeParts(header, tx.version, Body(tx) + rest);
    ParseBodyOf(tx, rest);
  }

  lemma ThreeParts(a: seq<octet>, b: seq<octet>, c: seq<octet>)
    requires |a| == 80 && |b| == 4
    ensures (a + b + c)[..80] == a && (a + b + c)[80..84] == b && (a + b + c)[84..] == c
  {
  }

  /** The parent coinbase as rebuilt at submission. */
  function SessionCoinbase(aux: SessionAux, height: nat, signature: seq<octet>, extranonce: seq<octet>, job: Job, miner: seq<octet>):
    (cb: seq<octet>)
    requires height < 0x8000_0000 && |signature| <= 75 && ShortScripts(job, miner)
  {
    Rebuilt(Spliced(FirstHalf(ScriptHead(height, signature, true)), aux.commit), extranonce, SecondHalf(job, miner))
  }

  /** The parent header of a share: its root is computed from the rebuilt coinbase and the branch. */
  function ShareHeader(cb: seq<octet>, branch: seq<hash>, f: HeaderFields, sha256d: seq<octet> -> hash): (h: seq<octet>)
    requires RightSizes(f)
    ensures |h| == 80 && h[..4] == f.version && h[4..36] == f.previous && h[36..68] == Fold(sha256d(cb), branch, Combiner(sha256d))
    ensures h[68..72] == f.time && h[72..76] == f.bits && h[76..] == f.nonce
  {
    var root := Fold(sha256d(cb), branch, Combiner(sha256d));
    PartsOfHeader(f.version, f.previous, root, f.time, f.bits, f.nonce);
    Header(f.version, f.previous, root, f.time, f.bits, f.nonce)
  }

  /** With the branch sent for the job the parent header's root is that of the full tree over the rebuilt coinbase and the job's transactions. */
  lemma HeaderRootOfTree(cb: seq<octet>, placeholder: hash, txids: seq<hash>, f: HeaderFields, sha256d: seq<octet> -> hash)
    requires RightSizes(f)
    ensures ShareHeader(cb, Branch([placeholder] + txids, Combiner(sha256d)), f, sha256d)[36..68]
         == Root([sha256d(cb)] + txids, Combiner(sha256d))
  {
    hide ShareHeader, Branch, Root, Fold;
    var level, id: hash := [placeholder] + txids, sha256d(cb);
    assert level[0 := id] == [id] + txids;
    BranchIgnoresSlotZero(level, id, Combiner(sha256d));
    FoldReachesRoot([id] + txids, Combiner(sha256d));
  }

  /** The block assembled for a share. */
  function ShareBlock(aux: SessionAux, cb: seq<octet>, branch: seq<hash>, f: HeaderFields, sha256d: seq<octet> -> hash): (b: seq<octet>)
    requires |branch| < 0xfd && RightSizes(f)
  {
    AuxBlock(aux, cb, branch, ShareHeader(cb, branch, f, sha256d), sha256d)
  }

  /** Every block assembled for a share is a self-consistent proof, whatever the job, extranonce, branch and header fields. */
  lemma SubmittedBlockProves(
      aux: SessionAux, height: nat, signature: seq<octet>, extranonce: seq<octet>, job: Job, miner: seq<octet>, branch: seq<hash>,
      f: HeaderFields, sha256d: seq<octet> -> hash)
    requires Works(aux, sha256d) && height < 0x8000_0000 && |signature| <= 75 && |extranonce| == EXTRANONCE
    requires ShortScripts(job, miner) && miner != [] && !job.eCash && |branch| < 0xfd && RightSizes(f)
    ensures var b := ShareBlock(aux, SessionCoinbase(aux, height, signature, extranonce, job, miner), branch, f, sha256d);
      && ParseProven(b).Some? && Proves(ParseProven(b).value, EXTRANONCE, sha256d) && ParseProven(b).value.header == aux.header
      && ParseProven(b).value.parent == ShareHeader(SessionCoinbase(aux, height, signature, extranonce, job, miner), branch, f, sha256d)
  {
    hide Works, ParseProven, Proves, AuxBlock, SessionCoinbase, ShareHeader, ShortScripts;
    var cb := SessionCoinbase(aux, height, signature, extranonce, job, miner);
    BlockWithRootProves(aux, height, signature, extranonce, job, miner, branch, ShareHeader(cb, branch, f, sha256d), sha256d);
  }

  lemma BlockWithRootProves(
      aux: SessionAux, height: nat, signature: seq<octet>, extranonce: seq<octet>, job: Job, miner: seq<octet>, branch: seq<hash>,
      parent: seq<octet>, sha256d: seq<octet> -> hash)
    requires Works(aux, sha256d) && height < 0x8000_0000 && |signature| <= 75 && |extranonce| == EXTRANONCE
    requires ShortScripts(job, miner) && miner != [] && !job.eCash && |branch| < 0xfd && |parent| == 80
    requires parent[36..68] == Fold(sha256d(SessionCoinbase(aux, height, signature, extranonce, job, miner)), branch, Combiner(sha256d))
    ensures var b := AuxBlock(aux, SessionCoinbase(aux, height, signature, extranonce, job, miner), branch, parent, sha256d);
      && ParseProven(b).Some? && Proves(ParseProven(b).value, EXTRANONCE, sha256d) && ParseProven(b).value.header == aux.header
      && ParseProven(b).value.parent == parent
  {
    hide Parse, ParseProven, Rebuilt, FirstHalf, SecondHalf, Payments, AuxBlock, Fold, Hashes, Pushes, Commitment, Spliced, Serialize;
    hide Commits, Backwards, CommittedIn;
    var cb := SessionCoinbase(aux, height, signature, extranonce, job, miner);
    var head, ps := Pushes(height, signature) + aux.commit, Payments(job, miner);
    SpliceFits(height, signature, aux.commit);
    CoinbaseParses(head, extranonce, job, miner);
    SerializeParse(cb);
    var tx := CoinbaseTx(head, extranonce, ps);
    BlockParts(aux, tx, branch, parent, sha256d);
    CommitmentCommits(sha256d(aux.header));
    CommitPlace(Pushes(height, signature), aux.commit, extranonce);
  }

  lemma CommitPlace(pushes: seq<octet>, commit: seq<octet>, extranonce: seq<octet>)
    requires |commit| == 44
    ensures CommittedIn(pushes + commit + extranonce, |extranonce|) == commit
  {
  }

  // ---------- what a session remembers ----------

  /** A job sent to the miner: with the session's own commitment, or as the stratifier built it. */
  datatype Notice = WithAux(id: string, aux: SessionAux) | Plain(id: string)

  /** The map is emptied before it would hold more than 257 jobs. */
  function Remembered(jobs: map<string, SessionAux>, id: string, aux: SessionAux): (more: map<string, SessionAux>)
  {
    (if |jobs| > 256 then map[] else jobs)[id := aux]
  }

  function Stored(notices: seq<Notice>): (jobs: map<string, SessionAux>)
  {
    if notices == [] then map[]
    else
      var before := Stored(notices[..|notices| - 1]);
      match notices[|notices| - 1]
      case WithAux(id, aux) => Remembered(before, id, aux)
      case Plain(_) => before
  }

  lemma StoredLast(notices: seq<Notice>, n: Notice)
    ensures Stored(notices + [n]) == if n.WithAux? then Remembered(Stored(notices), n.id, n.aux) else Stored(notices)
  {
    assert (notices + [n])[..|notices|] == notices;
  }

  /** The last notice about a job */
  function LastNotice(notices: seq<Notice>, id: string): (n: Option<Notice>)
    ensures n.Some? ==> n.value.id == id
  {
    if notices == [] then None
    else if notices[|notices| - 1].id == id then Some(notices[|notices| - 1])
    else LastNotice(notices[..|notices| - 1], id)
  }

  /** The map was emptied after the last notice about the job. */
  predicate ClearedSince(notices: seq<Notice>, id: string)
  {
    notices != [] && notices[|notices| - 1].id != id
    && var before := notices[..|notices| - 1];
       (notices[|notices| - 1].WithAux? && |Stored(before)| > 256) || ClearedSince(before, id)
  }

  /** The first half in the miner's hands */
  function SentFirst(n: Notice, first: seq<octet>): (sent: seq<octet>)
  {
    if n.WithAux? then Spliced(first, n.aux.commit) else first
  }

  /** The first half a share is rebuilt with */
  function ActiveFirst(jobs: map<string, SessionAux>, id: string, first: seq<octet>): (active: seq<octet>)
  {
    if id in jobs then Spliced(first, jobs[id].commit) else first
  }

  lemma {:induction false} StoredSince(notices: seq<Notice>, id: string)
    requires LastNotice(notices, id).Some? && LastNotice(notices, id).value.WithAux?
    ensures if ClearedSince(notices, id) then id !in Stored(notices)
            else id in Stored(notices) && Stored(notices)[id] == LastNotice(notices, id).value.aux
  {
    var m := |notices| - 1;
    if notices[m].id != id {
      StoredSince(notices[..m], id);
    }
  }

  /** The job once went out with a commitment, and the map was not emptied after the last time it did. */
  predicate Held(notices: seq<Notice>, id: string)
  {
    notices != [] && var before, n := notices[..|notices| - 1], notices[|notices| - 1];
    if n.WithAux? then n.id == id || (|Stored(before)| <= 256 && Held(before, id)) else Held(before, id)
  }

  /** The commitment the job last went out with */
  function LastCommit(notices: seq<Notice>, id: string): (commit: seq<octet>)
  {
    if notices == [] then []
    else if notices[|notices| - 1] == Plain(id) || notices[|notices| - 1].id != id then LastCommit(notices[..|notices| - 1], id)
    else notices[|notices| - 1].aux.commit
  }

  lemma {:induction false} StoredExactly(notices: seq<Notice>, id: string)
    ensures id in Stored(notices) <==> Held(notices, id)
    ensures Held(notices, id) ==> Stored(notices)[id].commit == LastCommit(notices, id)
  {
    if notices != [] {
      StoredExactly(notices[..|notices| - 1], id);
    }
  }

  /**
    * A share is rebuilt with what the miner was sent, exactly when: the job last went out with a commitment and the map was
    * not emptied since, or it last went out plain and never with a commitment that is still held, or the commitment
    * changes nothing.
    */
  lemma RebuiltAsSent(notices: seq<Notice>, id: string, first: seq<octet>)
    requires LastNotice(notices, id).Some?
    ensures var n := LastNotice(notices, id).value;
      ActiveFirst(Stored(notices), id, first) == SentFirst(n, first) <==>
        if n.WithAux? then !ClearedSince(notices, id) || Spliced(first, n.aux.commit) == first
        else !Held(notices, id) || Spliced(first, LastCommit(notices, id)) == first
  {
    hide Stored, ClearedSince, LastNotice, Spliced, Held, LastCommit;
    StoredExactly(notices, id);
    if LastNotice(notices, id).value.WithAux? {
      StoredSince(notices, id);
    }
  }

  /** A commitment other than the placeholder's changes the first half. */
  lemma SpliceChanges(height: nat, signature: seq<octet>, hash: seq<octet>)
    requires height < 0x8000_0000 && |signature| <= 75 && |hash| == 32
    ensures var first := FirstHalf(ScriptHead(height, signature, true));
      Spliced(first, Commitment(hash)) == first <==> hash == ZeroBytes(32)
  {
    hide Pushes, NullInput, Spliced, ZeroBytes;
    SpliceFits(height, signature, Commitment(hash));
    var pushes := Pushes(height, signature);
    var a, b := FirstHalf(pushes + Commitment(hash)), FirstHalf(pushes + Placeholder());
    assert a[|a| - 40..|a| - 8] == hash && b[|b| - 40..|b| - 8] == ZeroBytes(32);
  }

  /** A job sent again without the commitment is still rebuilt with it: the miner hashed something else. */
  lemma ResentPlain(id: string, aux: SessionAux, height: nat, signature: seq<octet>)
    requires height < 0x8000_0000 && |signature| <= 75
    requires aux.commit == Commitment(aux.blockHash) && aux.blockHash != ZeroBytes(32)
    ensures var first, notices := FirstHalf(ScriptHead(height, signature, true)), [WithAux(id, aux), Plain(id)];
      LastNotice(notices, id) == Some(Plain(id)) && ActiveFirst(Stored(notices), id, first) != first
  {
    hide FirstHalf, ScriptHead, Commitment, ZeroBytes, Spliced;
    SpliceChanges(height, signature, aux.blockHash);
    var notices := [WithAux(id, aux), Plain(id)];
    assert notices[..1] == [WithAux(id, aux)] && [WithAux(id, aux)][..0] == [];
    assert Stored([WithAux(id, aux)]) == map[id := aux];
  }

  /** With at most 257 jobs sent, none is forgotten. */
  lemma {:induction false} FewRemembered(notices: seq<Notice>, id: string)
    requires |notices| <= 257
    ensures |Stored(notices)| <= |notices| && !ClearedSince(notices, id)
  {
    if notices != [] {
      FewRemembered(notices[..|notices| - 1], id);
    }
  }

  function Name(n: nat): (id: string)
    ensures |id| == n
  {
    seq(n, _ => 'x')
  }

  function Distinctly(n: nat, aux: SessionAux): (notices: seq<Notice>)
    ensures |notices| == n && forall i | 0 <= i < n :: notices[i] == WithAux(Name(i), aux)
  {
    if n == 0 then [] else Distinctly(n - 1, aux) + [WithAux(Name(n - 1), aux)]
  }

  lemma {:induction false} AllRemembered(n: nat, aux: SessionAux)
    requires n <= 257
    ensures |Stored(Distinctly(n, aux))| == n && forall id <- Stored(Distinctly(n, aux)) :: |id| < n
  {
    hide Stored, Name;
    if n == 0 {
      NothingStored();
    } else {
      AllRemembered(n - 1, aux);
      StoredLast(Distinctly(n - 1, aux), WithAux(Name(n - 1), aux));
      assert Name(n - 1) !in Stored(Distinctly(n - 1, aux));
    }
  }

  lemma NothingStored()
    ensures Stored([]) == map[]
  {
  }

  /** Of 258 jobs with a commitment the one before the last is forgotten: its shares are rebuilt with the placeholder. */
  lemma JobForgotten(aux: SessionAux, first: seq<octet>)
    ensures var jobs := Distinctly(258, aux);
      && LastNotice(jobs, Name(256)) == Some(WithAux(Name(256), aux))
      && ActiveFirst(Stored(jobs), Name(256), first) == first
  {
    hide Stored, LastNotice, Distinctly;
    AllRemembered(257, aux);
    Forgotten(aux);
  }

  lemma Forgotten(aux: SessionAux)
    requires |Stored(Distinctly(257, aux))| == 257
    ensures LastNotice(Distinctly(258, aux), Name(256)) == Some(WithAux(Name(256), aux)) && Name(256) !in Stored(Distinctly(258, aux))
  {
    var jobs := Distinctly(258, aux);
    assert jobs[..257] == Distinctly(257, aux);
    assert |Name(256)| != |Name(257)|;
    assert jobs[..257][256] == WithAux(Name(256), aux);
  }

  // ---------- the session ----------

  /** What the session knows of a share's job: the template, the miner's script and the branch. */
  datatype ShareJob = ShareJob(height: nat, signature: seq<octet>, job: Job, miner: seq<octet>, branch: seq<hash>)

  predicate Usable(j: ShareJob)
  {
    && j.height < 0x8000_0000 && |j.signature| <= 75
    && ShortScripts(j.job, j.miner) && j.miner != [] && !j.job.eCash && |j.branch| < 0xfd
  }

  /** The work announced per job id, and the Dogecoin hashes already submitted; both are emptied when they grow too large. */
  class AuxSession {
    const sha256d: seq<octet> -> hash
    /** The proof-of-work hash of a parent header */
    const work: seq<octet> -> hash
    var jobs: map<string, SessionAux>
    var submitted: set<hash>
    /** Every job sent so far */
    ghost var notices: seq<Notice>

    ghost predicate Valid()
      reads this
    {
      jobs == Stored(notices) && forall id | id in jobs :: Works(jobs[id], sha256d)
    }

    constructor (sha256d: seq<octet> -> hash, work: seq<octet> -> hash)
      ensures Valid() && notices == [] && submitted == {} && this.sha256d == sha256d && this.work == work
    {
      this.sha256d := sha256d;
      this.work := work;
      jobs, submitted, notices := map[], {}, [];
    }

    /** A new job: with work of its own the session splices its commitment into the first half, otherwise the job goes out plain. */
    method Notify(id: string, a: AuxTemplate, signature: seq<octet>, miner: seq<octet>, donation: seq<octet>, percent: real,
                  first: seq<octet>)
      returns (sent: seq<octet>)
      requires Valid() && Fields(a) && |miner| < 0xfd && |donation| < 0xfd
      modifies this`jobs, this`notices
      ensures Valid() && |notices| == |old(notices)| + 1 && notices[..|old(notices)|] == old(notices)
      ensures notices[|old(notices)|].id == id && sent == SentFirst(notices[|old(notices)|], first)
      ensures notices[|old(notices)|].WithAux? <==>
        && a.enabled && miner != [] && |a.previous| == 32 && |a.bits| == 4 && |a.target| == 32
        && a.height >= 0 && |signature| <= 75
      ensures notices[|old(notices)|].WithAux? ==>
        Works(notices[|old(notices)|].aux, sha256d) && notices[|old(notices)|].aux.template == a
        && notices[|old(notices)|].aux.target == a.target
    {
      hide Works, Fields, Spliced, Stored, Parse, DogeTx, DogePayments;
      var aux := BuildSessionAux(a, signature, miner, donation, percent, sha256d);
      if aux.None? {
        sent := Resend(id, first);
        return;
      }
      if |jobs| > 256 {
        jobs := map[];
      }
      jobs := jobs[id := aux.value];
      StoredLast(notices, WithAux(id, aux.value));
      notices := notices + [WithAux(id, aux.value)];
      sent := Spliced(first, aux.value.commit);
    }

    /** A job sent as the stratifier built it, for instance again with a new difficulty. */
    method Resend(id: string, first: seq<octet>) returns (sent: seq<octet>)
      requires Valid()
      modifies this`notices
      ensures Valid() && notices == old(notices) + [Plain(id)] && sent == first
    {
      hide Works, Stored;
      StoredLast(notices, Plain(id));
      notices := notices + [Plain(id)];
      sent := first;
    }

    /**
      * A share whose proof-of-work hash, as a number, is at most the template's target becomes a block, once for every Dogecoin
      * hash still remembered, and the block proves itself with that work.
      */
    method Submit(id: string, j: ShareJob, extranonce: seq<octet>, f: HeaderFields) returns (r: Option<seq<octet>>)
      requires Valid() && Usable(j) && |extranonce| == EXTRANONCE && RightSizes(f)
      modifies this`submitted
      ensures r.Some? <==>
        && id in jobs && jobs[id].blockHash !in old(submitted)
        && var cb := SessionCoinbase(jobs[id], j.height, j.signature, extranonce, j.job, j.miner);
           LEValue(work(ShareHeader(cb, j.branch, f, sha256d))) <= Target.Number(jobs[id].target)
      ensures submitted == if r.Some? then (if |old(submitted)| > 512 then {} else old(submitted)) + {jobs[id].blockHash} else old(submitted)
      ensures r.Some? ==>
        && r.value == ShareBlock(jobs[id], SessionCoinbase(jobs[id], j.height, j.signature, extranonce, j.job, j.miner), j.branch, f, sha256d)
        && ParseProven(r.value).Some? && Proves(ParseProven(r.value).value, EXTRANONCE, sha256d)
        && Describes(ParseProven(r.value).value.header, jobs[id].template)
        && LEValue(work(ParseProven(r.value).value.parent)) <= Target.Number(jobs[id].template.target)
    {
      hide Works, ParseProven, Proves, ShareBlock, ShareHeader, SessionCoinbase, Stored, ShortScripts, Describes, LEValue, Target.Number;
      if id !in jobs {
        return None;
      }
      var aux := jobs[id];
      WorkIsDescribed(aux, sha256d);
      var cb := SessionCoinbase(aux, j.height, j.signature, extranonce, j.job, j.miner);
      var meets := MeetsTarget(work(ShareHeader(cb, j.branch, f, sha256d)), aux.target);
      if !meets {
        return None;
      }
      if aux.blockHash in submitted {
        return None;
      }
      if |submitted| > 512 {
        submitted := {};
      }
      submitted := submitted + {aux.blockHash};
      SubmittedBlockProves(aux, j.height, j.signature, extranonce, j.job, j.miner, j.branch, f, sha256d);
      r := Some(ShareBlock(aux, cb, j.branch, f, sha256d));
    }
  }

  /** The first byte that differs decides, most significant first; a hash equal to the target meets it. */
  method MeetsTarget(proof: hash, target: seq<octet>) returns (meets: bool)
    requires |target| == 32
    ensures meets <==> LEValue(proof) <= Target.Number(target)
  {
    hide Target.Number, LEValue, Reverse;
    var shown := Reverse(proof);
    ReversedNumber(proof);
    Target.CompareIsNumeric(shown, target);
    for i := 0 to 32
      invariant Target.Compare(shown, target) == Target.Compare(shown[i..], target[i..])
    {
      if shown[i] != target[i] {
        return shown[i] < target[i];
      }
      assert shown[i..][1..] == shown[i + 1..] && target[i..][1..] == target[i + 1..];
    }
    meets := true;
  }

  /** The little-endian number of bytes is the big-endian number of their reverse. */
  lemma {:induction false} ReversedNumber(b: seq<octet>)
    ensures Target.Number(Reverse(b)) == LEValue(b)
  {
    if b == [] {
      assert Reverse(b) == [];
    } else {
      ReversedNumber(b[1..]);
      assert Reverse(b) == Reverse(b[1..]) + [b[0]];
      NumberSnoc(Reverse(b[1..]), b[0]);
    }
  }

  lemma NumberSnoc(b: seq<octet>, x: octet)
    ensures Target.Number(b + [x]) == 256 * Target.Number(b) + x
  {
    assert Target.Nats(b + [x])[..|b|] == Target.Nats(b);
  }
}
