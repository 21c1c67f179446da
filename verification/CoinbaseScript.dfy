/** What a node reads in the coinbase scripts of both chains. */
module CoinbaseScript {
  import opened AuxPow
  import opened Coinbase
  import opened CoinbaseOutputs
  import opened LittleEndian
  import opened Numerals
  import opened Options
  import opened Transactions

  /** The first push is the height, in as few bytes as it needs; then comes the signature, when there is one, and then rest. */
  predicate Opens(s: seq<octet>, height: nat, signature: seq<octet>, rest: seq<octet>)
  {
    && |s| > 0 && 1 <= s[0] <= 4 && |s| > s[0] as int && LEValue(s[1..1 + s[0] as int]) == height && (s[0] > 1 ==> s[s[0]] != 0)
    && s[1 + s[0] as int..] == (if signature == [] then [] else [|signature|] + signature) + rest
  }

  /** Version 1, one input that spends nothing, final, and no locktime. */
  predicate SpendsNothing(tx: Tx)
  {
    && tx.version == [1, 0, 0, 0] && tx.sequence == [255, 255, 255, 255] && tx.locktime == [0, 0, 0, 0]
    && |tx.previous| == 36 && (forall i | 0 <= i < 32 :: tx.previous[i] == 0) && tx.previous[32..] == [255, 255, 255, 255]
  }

  lemma PushesOpen(height: nat, signature: seq<octet>, rest: seq<octet>)
    requires height < 0x8000_0000 && |signature| <= 75
    ensures Opens(Pushes(height, signature) + rest, height, signature, rest)
  {
    hide Minimal, LEValue;
    HeightIsShort(height);
    HeightNumber(height);
    var b, p := HeightBytes(height), if signature == [] then [] else [|signature|] + signature;
    PushParts(b, p, rest);
    assert Pushes(height, signature) + rest == [|b|] + b + p + rest;
  }

  lemma PushParts(b: seq<octet>, p: seq<octet>, rest: seq<octet>)
    requires 0 < |b| <= 4
    ensures var s := [|b|] + b + p + rest; s[0] == |b| && s[1..1 + |b|] == b && s[1 + |b|..] == p + rest && s[|b|] == b[|b| - 1]
  {
  }

  lemma HeightNumber(height: nat)
    ensures var b := HeightBytes(height); LEValue(b) == height && (|b| > 1 ==> b[|b| - 1] != 0)
  {
    MinimalValue(height);
    if height == 0 {
      assert [0][1..] == [];
    }
  }

  /** The parent coinbase around any extranonce: height, signature, the commitment's place when merge mining is on, extranonce. */
  lemma CoinbaseReads(height: nat, signature: seq<octet>, aux: bool, extranonce: seq<octet>, job: Job, miner: seq<octet>)
    requires height < 0x8000_0000 && |signature| <= 75 && |extranonce| == 12 && ShortScripts(job, miner) && miner != []
    requires !(job.eCash && job.segwit && job.commitment != [])
    ensures var tx := Parse(Rebuilt(FirstHalf(ScriptHead(height, signature, aux)), extranonce, SecondHalf(job, miner)));
      var place := if aux then [0xfa, 0xbe, 0x6d, 0x6d] + ZeroBytes(32) + [1, 0, 0, 0, 0, 0, 0, 0] else [];
      tx.Some? && SpendsNothing(tx.value) && Opens(tx.value.scriptSig, height, signature, place + extranonce)
  {
    hide Parse, Rebuilt, FirstHalf, SecondHalf, Payments, Pushes, Opens, LEValue;
    CommitmentWhen(job);
    CoinbaseParses(ScriptHead(height, signature, aux), extranonce, job, miner);
    var place := if aux then Placeholder() else [];
    assert ScriptHead(height, signature, aux) + extranonce == Pushes(height, signature) + (place + extranonce);
    PushesOpen(height, signature, place + extranonce);
    assert aux ==> place == [0xfa, 0xbe, 0x6d, 0x6d] + ZeroBytes(32) + [1, 0, 0, 0, 0, 0, 0, 0];
  }

  /** The Dogecoin coinbase: height and signature, and nothing else. */
  lemma DogeReads(height: nat, signature: seq<octet>, value: int, miner: seq<octet>, percent: real, script: seq<octet>)
    requires height < 0x8000_0000 && |signature| <= 75
    ensures var tx := DogeTx(height, signature, DogePayments(value, miner, percent, script));
      SpendsNothing(tx) && Opens(tx.scriptSig, height, signature, [])
  {
    hide Pushes, Opens, DogePayments;
    PushesOpen(height, signature, []);
  }
}
