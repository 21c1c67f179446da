/** One-input transactions, as legacy bytes and with a witness (BIP 144). */
module Transactions {
  import opened LittleEndian
  import opened Numerals
  import opened Options

  datatype Output = Output(value: nat, script: seq<octet>)

  datatype Tx = Tx(
    version: seq<octet>, previous: seq<octet>, scriptSig: seq<octet>, sequence: seq<octet>,
    outputs: seq<Output>, locktime: seq<octet>)

  /** Lengths and counts that fit the one-byte form of a variable-length integer. */
  predicate EncodableOutput(o: Output)
  {
    o.value < 0x1_0000_0000_0000_0000 && |o.script| < 0xfd
  }

  predicate Encodable(tx: Tx)
  {
    && |tx.version| == 4 && |tx.previous| == 36 && |tx.sequence| == 4 && |tx.locktime| == 4
    && |tx.scriptSig| < 0xfd && |tx.outputs| < 0xfd && forall i | 0 <= i < |tx.outputs| :: EncodableOutput(tx.outputs[i])
  }

  // ---------- serializing ----------

  function OutputBytes(o: Output): (b: seq<octet>)
    requires EncodableOutput(o)
  {
    LE(o.value, 8) + [|o.script|] + o.script
  }

  function OutputsBytes(os: seq<Output>): (b: seq<octet>)
    requires forall i | 0 <= i < |os| :: EncodableOutput(os[i])
    decreases |os|
  {
    if os == [] then [] else OutputBytes(os[0]) + OutputsBytes(os[1..])
  }

  /** Input and outputs: everything between version and locktime. */
  function Body(tx: Tx): (b: seq<octet>)
    requires Encodable(tx)
  {
    [1] + tx.previous + [|tx.scriptSig|] + tx.scriptSig + tx.sequence + [|tx.outputs|] + OutputsBytes(tx.outputs)
  }

  function Serialize(tx: Tx): (b: seq<octet>)
    requires Encodable(tx)
  {
    tx.version + Body(tx) + tx.locktime
  }

  // ---------- parsing ----------

  datatype Outputs = Outputs(list: seq<Output>, rest: seq<octet>) | Broken

  function ParseOutputs(b: seq<octet>, n: nat): (r: Outputs)
    decreases n
  {
    if n == 0 then Outputs([], b)
    else if |b| < 9 || b[8] >= 0xfd || |b| < 9 + b[8] as int then Broken
    else
      var more := ParseOutputs(b[9 + b[8] as int..], n - 1);
      if more.Broken? then Broken else Outputs([Output(LEValue(b[..8]), b[9..9 + b[8] as int])] + more.list, more.rest)
  }

  datatype Parsed = Parsed(tx: Tx, rest: seq<octet>) | Malformed

  /** The input and outputs after the version; what follows the outputs is left. */
  function ParseBody(version: seq<octet>, b: seq<octet>): (r: Parsed)
  {
    if |b| < 38 || b[0] != 1 || b[37] >= 0xfd || |b| < 43 + b[37] as int then Malformed
    else
      var s := 38 + b[37] as int;
      if b[s + 4] >= 0xfd then Malformed
      else
        var outputs := ParseOutputs(b[s + 5..], b[s + 4]);
        if outputs.Broken? then Malformed
        else Parsed(Tx(version, b[1..37], b[38..s], b[s..s + 4], outputs.list, []), outputs.rest)
  }

  /** A whole legacy transaction and nothing else. */
  function Parse(b: seq<octet>): (r: Option<Tx>)
  {
    if |b| < 4 then None
    else
      var body := ParseBody(b[..4], b[4..]);
      if body.Malformed? || |body.rest| != 4 then None else Some(body.tx.(locktime := body.rest))
  }

  lemma Sixteen()
    ensures Power(256, 8) == 0x1_0000_0000_0000_0000
  {
    PowerAdd(256, 4, 4);
    assert Power(256, 4) == 0x1_0000_0000;
  }

  lemma OutputParts(o: Output, more: seq<octet>)
    requires EncodableOutput(o)
    ensures var b, n := OutputBytes(o) + more, |o.script|;
      |b| >= 9 + n && b[8] == n && b[..8] == LE(o.value, 8) && b[9..9 + n] == o.script && b[9 + n..] == more
  {
  }

  lemma {:induction false} ParseOutputsBytes(os: seq<Output>, more: seq<octet>)
    requires forall i | 0 <= i < |os| :: EncodableOutput(os[i])
    ensures ParseOutputs(OutputsBytes(os) + more, |os|) == Outputs(os, more)
    decreases |os|
  {
    hide OutputBytes;
    if os == [] {
      assert [] + more == more;
    } else {
      var tail := OutputsBytes(os[1..]);
      Sixteen();
      ValueOfLE(os[0].value, 8);
      OutputParts(os[0], tail + more);
      assert OutputsBytes(os) + more == OutputBytes(os[0]) + (tail + more);
      ParseOutputsBytes(os[1..], more);
    }
  }

  lemma BodyParts(tx: Tx, more: seq<octet>)
    requires Encodable(tx)
    ensures var b, s := Body(tx) + more, 38 + |tx.scriptSig|;
      && |b| >= s + 5 && b[0] == 1 && b[1..37] == tx.previous && b[37] == |tx.scriptSig| && b[38..s] == tx.scriptSig
      && b[s..s + 4] == tx.sequence && b[s + 4] == |tx.outputs| && b[s + 5..] == OutputsBytes(tx.outputs) + more
  {
    hide OutputsBytes;
    var outs := OutputsBytes(tx.outputs);
    HeadParts(tx.previous, tx.scriptSig, tx.sequence, |tx.outputs|, outs + more);
    assert Body(tx) + more
        == [1] + tx.previous + [|tx.scriptSig|] + tx.scriptSig + tx.sequence + [|tx.outputs|] + (outs + more);
  }

  lemma HeadParts(previous: seq<octet>, script: seq<octet>, sequence: seq<octet>, n: octet, rest: seq<octet>)
    requires |previous| == 36 && |script| < 0xfd && |sequence| == 4
    ensures var b, s := [1] + previous + [|script|] + script + sequence + [n] + rest, 38 + |script|;
      && |b| >= s + 5 && b[0] == 1 && b[1..37] == previous && b[37] == |script| && b[38..s] == script
      && b[s..s + 4] == sequence && b[s + 4] == n && b[s + 5..] == rest
  {
  }

  lemma ParseBodyOf(tx: Tx, more: seq<octet>)
    requires Encodable(tx)
    ensures ParseBody(tx.version, Body(tx) + more) == Parsed(tx.(locktime := []), more)
  {
    hide Body, ParseOutputs, OutputsBytes;
    BodyParts(tx, more);
    ParseOutputsBytes(tx.outputs, more);
  }

  /** With anything but a locktime after the counted outputs the bytes are no transaction. */
  lemma ParseWithTail(tx: Tx, tail: seq<octet>)
    requires Encodable(tx)
    ensures Parse(tx.version + Body(tx) + tail) == if |tail| == 4 then Some(tx.(locktime := tail)) else None
  {
    hide Body, ParseBody;
    ParseBodyOf(tx, tail);
    var b := tx.version + Body(tx) + tail;
    assert b[..4] == tx.version && b[4..] == Body(tx) + tail;
  }

  /** Serialized bytes parse as exactly the transaction they came from. */
  lemma ParseSerialize(tx: Tx)
    requires Encodable(tx)
    ensures Parse(Serialize(tx)) == Some(tx)
  {
    hide Body, Parse;
    ParseWithTail(tx, tx.locktime);
  }

  // ---------- parsing is exact ----------

  lemma {:induction false} OutputsOfParse(b: seq<octet>, n: nat)
    ensures var r := ParseOutputs(b, n);
      r.Outputs? ==> |r.list| == n && (forall i | 0 <= i < n :: EncodableOutput(r.list[i])) && b == OutputsBytes(r.list) + r.rest
    decreases n
  {
    if n == 0 {
      assert [] + b == b;
    } else if |b| >= 9 && b[8] < 0xfd && |b| >= 9 + b[8] as int {
      hide OutputBytes, OutputsBytes, EncodableOutput;
      var m := 9 + b[8] as int;
      var more := ParseOutputs(b[m..], n - 1);
      OutputsOfParse(b[m..], n - 1);
      if more.Outputs? {
        OneOutput(b, m);
        OneMore(b, m, Output(LEValue(b[..8]), b[9..m]), more);
      }
    }
  }

  lemma OneMore(b: seq<octet>, m: nat, o: Output, more: Outputs)
    requires m <= |b| && EncodableOutput(o) && OutputBytes(o) == b[..m] && more.Outputs?
    requires (forall i | 0 <= i < |more.list| :: EncodableOutput(more.list[i])) && b[m..] == OutputsBytes(more.list) + more.rest
    ensures (forall i | 0 <= i <= |more.list| :: EncodableOutput(([o] + more.list)[i]))
    ensures b == OutputsBytes([o] + more.list) + more.rest
  {
    hide OutputBytes, OutputsBytes, EncodableOutput;
    OutputsCons(o, more.list);
    assert b == b[..m] + b[m..];
  }

  lemma OutputsCons(o: Output, os: seq<Output>)
    requires EncodableOutput(o) && forall i | 0 <= i < |os| :: EncodableOutput(os[i])
    ensures OutputsBytes([o] + os) == OutputBytes(o) + OutputsBytes(os)
  {
    hide OutputBytes;
    assert ([o] + os)[1..] == os;
  }

  lemma OneOutput(b: seq<octet>, m: nat)
    requires 9 <= m <= |b| && m == 9 + b[8] as int && b[8] < 0xfd
    ensures var o := Output(LEValue(b[..8]), b[9..m]); EncodableOutput(o) && OutputBytes(o) == b[..m]
  {
    Sixteen();
    LEValueBound(b[..8]);
    LEOfValue(b[..8]);
    assert b[..m] == b[..8] + [b[8]] + b[9..m];
  }

  /** Only serialized transactions parse. */
  lemma SerializeParse(b: seq<octet>)
    ensures Parse(b).Some? ==> Encodable(Parse(b).value) && Serialize(Parse(b).value) == b
  {
    hide ParseOutputs, OutputsBytes;
    if Parse(b).Some? {
      var c, tx := b[4..], Parse(b).value;
      var s := 38 + c[37] as int;
      OutputsOfParse(c[s + 5..], c[s + 4]);
      assert b == b[..4] + c;
      Pieces(c, s);
    }
  }

  lemma Pieces(c: seq<octet>, s: nat)
    requires 38 <= s && s + 5 <= |c|
    ensures c == [c[0]] + c[1..37] + [c[37]] + c[38..s] + c[s..s + 4] + [c[s + 4]] + c[s + 5..]
  {
  }

  // ---------- the witness form ----------

  /** A transaction with one witness item for its one input. */
  datatype Witnessed = Witnessed(tx: Tx, item: seq<octet>)

  /** Version, marker 0 and flag 1, body, a witness stack of one item of less than 253 bytes, locktime. */
  function ParseWitnessed(b: seq<octet>): (r: Option<Witnessed>)
  {
    if |b| < 6 || b[4] != 0 || b[5] != 1 then None
    else
      var body := ParseBody(b[..4], b[6..]);
      if body.Malformed? || |body.rest| < 2 || body.rest[0] != 1 || body.rest[1] >= 0xfd
         || |body.rest| != 6 + body.rest[1] as int then None
      else
        var n := 2 + body.rest[1] as int;
        Some(Witnessed(body.tx.(locktime := body.rest[n..]), body.rest[2..n]))
  }

  /** segwitify_coinbase */
  function Segwitified(cb: seq<octet>): (b: seq<octet>)
  {
    if |cb| < 8 then cb
    else cb[..4] + [0, 1] + cb[4..|cb| - 4] + [1, 32] + ZeroBytes(32) + cb[|cb| - 4..]
  }

  /** Adding the witness changes nothing that the transaction id covers. */
  lemma WitnessKeepsTx(tx: Tx)
    requires Encodable(tx)
    ensures ParseWitnessed(Segwitified(Serialize(tx))) == Some(Witnessed(tx, ZeroBytes(32)))
  {
    hide Body, ParseBody;
    var cb, tail := Serialize(tx), [1, 32] + ZeroBytes(32) + tx.locktime;
    assert cb[..4] == tx.version && cb[4..|cb| - 4] == Body(tx) && cb[|cb| - 4..] == tx.locktime;
    WitnessParts(tx.version, Body(tx), tail);
    assert tx.version + [0, 1] + Body(tx) + [1, 32] + ZeroBytes(32) + tx.locktime == tx.version + [0, 1] + Body(tx) + tail;
    ParseBodyOf(tx, tail);
    assert tail[2..34] == ZeroBytes(32) && tail[34..] == tx.locktime;
  }

  lemma WitnessParts(version: seq<octet>, body: seq<octet>, tail: seq<octet>)
    requires |version| == 4
    ensures var b := version + [0, 1] + body + tail; |b| >= 6 && b[4] == 0 && b[5] == 1 && b[..4] == version && b[6..] == body + tail
  {
  }

  /** segwitify_coinbase, appending piece by piece. */
  method SegwitifyCoinbase(cb: seq<octet>) returns (out: seq<octet>)
    ensures out == Segwitified(cb)
    ensures |cb| >= 8 ==>
      && |out| == |cb| + 36 && out[..4] == cb[..4] && out[4] == 0 && out[5] == 1 && out[6..|cb| - 2] == cb[4..|cb| - 4]
      && out[|cb| - 2] == 1 && out[|cb| - 1] == 32 && (forall i | |cb| <= i < |cb| + 32 :: out[i] == 0) && out[|cb| + 32..] == cb[|cb| - 4..]
  {
    if |cb| < 8 {
      return cb;
    }
    out := cb[..4];
    out := out + [0, 1];
    out := out + cb[4..|cb| - 4];
    out := out + [1];
    out := out + [32];
    out := out + ZeroBytes(32);
    out := out + cb[|cb| - 4..];
  }
}
