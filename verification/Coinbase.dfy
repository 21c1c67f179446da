/** The coinbase the pool builds in two halves around the miner's extranonce. Hex text is modelled as the bytes it spells. */
module Coinbase {
  import opened LittleEndian
  import opened Numerals
  import opened Options
  import opened Transactions

  // ---------- script pushes ----------

  /** The bytes of a number, least significant first and no more than needed; none for zero. */
  function Minimal(v: nat): (b: seq<octet>)
  {
    if v == 0 then [] else [v % 256] + Minimal(v / 256)
  }

  function HeightBytes(height: nat): (b: seq<octet>)
    ensures b != []
  {
    if height == 0 then [0] else Minimal(height)
  }

  function HeightPush(height: nat): (push: seq<octet>)
    requires height < 0x8000_0000
  {
    HeightIsShort(height);
    [|HeightBytes(height)|] + HeightBytes(height)
  }

  lemma HeightIsShort(height: nat)
    requires height < 0x8000_0000
    ensures 0 < |HeightBytes(height)| <= 4
  {
    ShortNumber(height, 4);
  }

  lemma {:induction false} ShortNumber(v: nat, n: nat)
    requires v < Power(256, n)
    ensures |Minimal(v)| <= n
  {
    if v > 0 {
      if n > 0 {
        QuotientBound(v, Power(256, n - 1));
        ShortNumber(v / 256, n - 1);
      }
    }
  }

  method EncodeHeight(height: int) returns (push: Option<seq<octet>>)
    requires height < 0x8000_0000
    ensures push == if height < 0 then None else Some(HeightPush(height))
  {
    if height < 0 {
      return None;
    }
    var b: seq<octet> := [];
    var h := height;
    assert Minimal(0) == [];
    assert b + Minimal(h) == Minimal(height);
    while h != 0
      invariant h >= 0 && b + Minimal(h) == Minimal(height)
    {
      assert Minimal(h) == [h % 256] + Minimal(h / 256);
      b := b + [h % 256];
      h := h / 256;
    }
    assert b == Minimal(height);
    if b == [] {
      b := b + [0];
    }
    assert b == HeightBytes(height);
    HeightIsShort(height);
    b := [|b|] + b;
    push := Some(b);
  }

  /** A script number: little-endian, the top bit of the last byte is the sign. */
  function ScriptNumber(b: seq<octet>): int
  {
    if b == [] then 0
    else if b[|b| - 1] >= 0x80 then -(LEValue(b[..|b| - 1] + [b[|b| - 1] - 0x80]) as int)
    else LEValue(b)
  }

  lemma {:induction false} MinimalValue(v: nat)
    ensures LEValue(Minimal(v)) == v
    ensures v > 0 ==> Minimal(v) != [] && Minimal(v)[|Minimal(v)| - 1] != 0
  {
    if v > 0 {
      MinimalValue(v / 256);
      assert Minimal(v)[1..] == Minimal(v / 256);
      if v / 256 > 0 {
        assert Minimal(v)[|Minimal(v)| - 1] == Minimal(v / 256)[|Minimal(v / 256)| - 1];
      }
    }
  }

  lemma ReadsBackByTop(height: nat)
    ensures var b := HeightBytes(height); ScriptNumber(b) == height <==> b[|b| - 1] < 0x80
  {
    var b := HeightBytes(height);
    MinimalValue(height);
    if height == 0 {
      assert LEValue([0]) == 0 by { assert [0][1..] == []; }
    }
  }

  lemma TopByte(v: nat)
    requires v > 0
    ensures Minimal(v) != []
    ensures v < 256 ==> Minimal(v) == [v]
    ensures v >= 256 ==> Minimal(v / 256) != [] && Minimal(v)[|Minimal(v)| - 1] == Minimal(v / 256)[|Minimal(v / 256)| - 1]
  {
    assert Minimal(0) == [];
  }

  /** Heights whose highest byte has the sign bit of a script number. */
  predicate SignLost(height: nat)
  {
    128 <= height < 256 || 0x8000 <= height < 0x1_0000 || 0x80_0000 <= height < 0x100_0000
  }

  /** The pushed height reads back as a script number exactly when it is in none of three ranges. */
  lemma HeightReadsBack(height: nat)
    requires height < 0x8000_0000
    ensures ScriptNumber(HeightBytes(height)) == height <==> !SignLost(height)
  {
    hide Minimal, ScriptNumber;
    ReadsBackByTop(height);
    if height > 0 {
      TopByte(height);
      if height >= 256 {
        TopByte(height / 256);
        if height >= 0x1_0000 {
          TopByte(height / 256 / 256);
          if height >= 0x100_0000 {
            TopByte(height / 256 / 256 / 256);
          }
        }
      }
    }
  }

  /** 32768 is pushed as 00 80, which reads back as zero. */
  lemma HeightMisread()
    ensures HeightBytes(32768) == [0, 128] && ScriptNumber([0, 128]) != 32768
  {
    assert Minimal(32768) == [0] + Minimal(128) && Minimal(128) == [128] + Minimal(0);
    assert [0, 128][..1] + [0] == [0, 0] && [0, 0][1..] == [0] && [0][1..] == [];
    assert LEValue([0]) == 0;
  }

  function SignaturePush(signature: seq<octet>): (push: seq<octet>)
    requires |signature| <= 75
  {
    if signature == [] then [] else [|signature|] + signature
  }

  // ---------- the half before the extranonce ----------

  /** Four bytes from the pool and eight from the miner. */
  const EXTRANONCE := 12

  const MAGIC: seq<octet> := [0xfa, 0xbe, 0x6d, 0x6d]

  /** Magic, hash, merkle size 1, nonce 0. */
  function Commitment(hash: seq<octet>): (c: seq<octet>)
    requires |hash| == 32
    ensures |c| == 44
  {
    MAGIC + hash + [1, 0, 0, 0] + [0, 0, 0, 0]
  }

  function Placeholder(): (c: seq<octet>)
    ensures |c| == 44
  {
    Commitment(ZeroBytes(32))
  }

  function Pushes(height: nat, signature: seq<octet>): (b: seq<octet>)
    requires height < 0x8000_0000 && |signature| <= 75
    ensures |b| <= 81
  {
    HeightIsShort(height);
    HeightPush(height) + SignaturePush(signature)
  }

  function NullInput(): (b: seq<octet>)
    ensures |b| == 36
  {
    ZeroBytes(32) + [255, 255, 255, 255]
  }

  /** Version, input count, null input, script length, and the script up to the extranonce. */
  function FirstHalf(head: seq<octet>): (b: seq<octet>)
    requires |head| + EXTRANONCE < 0xfd
  {
    [1, 0, 0, 0] + [1] + NullInput() + [|head| + EXTRANONCE] + head
  }

  function ScriptHead(height: nat, signature: seq<octet>, aux: bool): (b: seq<octet>)
    requires height < 0x8000_0000 && |signature| <= 75
    ensures |b| <= 125
  {
    Pushes(height, signature) + if aux then Placeholder() else []
  }

  /** The first half always fits: the length check never refuses it. */
  method BuildFirstHalf(height: int, signature: seq<octet>, aux: bool) returns (r: Option<seq<octet>>)
    requires height < 0x8000_0000
    ensures r.Some? <==> height >= 0 && |signature| <= 75
    ensures r.Some? ==> r.value == FirstHalf(ScriptHead(height, signature, aux))
  {
    hide HeightPush, ZeroBytes, FirstHalf, Placeholder;
    var heightPush := EncodeHeight(height);
    if heightPush.None? || |signature| > 75 {
      return None;
    }
    var signaturePush := if signature == [] then [] else [|signature|] + signature;
    var commit := if aux then Placeholder() else [];
    var length := |heightPush.value| + |signaturePush| + 4 + 8;
    if commit != [] {
      length := length + |commit|;
    }
    ghost var head := ScriptHead(height, signature, aux);
    assert head == heightPush.value + signaturePush + commit && length == |head| + EXTRANONCE;
    if length > 0xfc {
      assert false;
      return None;
    }
    var cb := AppendFirstHalf(length, heightPush.value, signaturePush, commit);
    r := Some(cb);
  }

  method AppendFirstHalf(length: octet, heightPush: seq<octet>, signaturePush: seq<octet>, commit: seq<octet>) returns (cb: seq<octet>)
    requires length == |heightPush + signaturePush + commit| + EXTRANONCE < 0xfd
    ensures cb == FirstHalf(heightPush + signaturePush + commit)
  {
    hide ZeroBytes;
    cb := [1, 0, 0, 0];
    cb := cb + [1];
    cb := cb + ZeroBytes(32);
    cb := cb + [255, 255, 255, 255];
    cb := cb + [length];
    assert cb == [1, 0, 0, 0] + [1] + NullInput() + [length];
    cb := cb + heightPush;
    cb := cb + signaturePush;
    cb := cb + commit;
  }
}
