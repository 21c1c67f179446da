/** The Writer and Reader of sv2_codec.hpp. */
module Sv2Codec {
  import opened LittleEndian
  import opened Numerals

  datatype Read<T> = Value(value: T) | OutOfRange

  class Writer {
    var buf: seq<octet>

    constructor ()
      ensures buf == []
    {
      buf := [];
    }

    method WriteU8(val: octet)
      modifies this
      ensures buf == old(buf) + LE(val, 1)
    {
      OneByte(val);
      buf := buf + [val];
    }

    method WriteU16(val: nat)
      requires val < 0x1_0000
      modifies this
      ensures buf == old(buf) + LE(val, 2)
    {
      TwoBytes(val);
      buf := buf + [val % 256];
      buf := buf + [val / 256 % 256];
    }

    method WriteU24(val: nat)
      requires val < 0x1_0000_0000
      modifies this
      ensures buf == old(buf) + LE(val, 3)
    {
      ThreeBytes(val);
      buf := buf + [val % 256];
      buf := buf + [val / 256 % 256];
      buf := buf + [val / 65536 % 256];
    }

    method WriteU64(val: nat)
      requires val < Power(256, 8)
      modifies this
      ensures buf == old(buf) + LE(val, 8)
    {
      hide LE;
      var rest := val;
      for i := 0 to 8
        invariant buf + LE(rest, 8 - i) == old(buf) + LE(val, 8)
      {
        FirstByte(rest, 8 - i);
        assert buf + [rest % 256] + LE(rest / 256, 8 - i - 1) == buf + ([rest % 256] + LE(rest / 256, 8 - i - 1));
        buf := buf + [rest % 256];
        rest := rest / 256;
      }
      FirstByte(rest, 0);
      assert buf + [] == buf;
    }

    /** At most 255 bytes are written, after their number. */
    method WriteB0255(val: seq<octet>)
      modifies this
      ensures buf == old(buf) + if |val| <= 255 then [|val|] + val else [255] + val[..255]
    {
      var len := if |val| < 255 then |val| else 255;
      WriteU8(len);
      OneByte(len);
      buf := buf + val[..len];
    }

    method Append(bytes: seq<octet>)
      modifies this
      ensures buf == old(buf) + bytes
    {
      buf := buf + bytes;
    }
  }

  class Reader {
    const data: seq<octet>
    var pos: nat

    ghost predicate Valid()
      reads this
    {
      pos <= |data|
    }

    constructor (data: seq<octet>)
      ensures Valid() && this.data == data && pos == 0
    {
      this.data := data;
      pos := 0;
    }

    method ReadU8() returns (r: Read<octet>)
      requires Valid()
      modifies this
      ensures Valid()
      ensures r == if old(pos) + 1 > |data| then OutOfRange else Value(data[old(pos)])
      ensures pos == if r.Value? then old(pos) + 1 else old(pos)
    {
      if pos + 1 > |data| {
        return OutOfRange;
      }
      r := Value(data[pos]);
      pos := pos + 1;
    }

    method ReadU16() returns (r: Read<nat>)
      requires Valid()
      modifies this
      ensures Valid()
      ensures r == if old(pos) + 2 > |data| then OutOfRange else Value(LEValue(data[old(pos)..old(pos) + 2]))
      ensures pos == if r.Value? then old(pos) + 2 else old(pos)
    {
      if pos + 2 > |data| {
        return OutOfRange;
      }
      ValueOfTwo(data[pos..pos + 2]);
      r := Value(data[pos] as int + 256 * data[pos + 1] as int);
      pos := pos + 2;
    }

    method ReadU24() returns (r: Read<nat>)
      requires Valid()
      modifies this
      ensures Valid()
      ensures r == if old(pos) + 3 > |data| then OutOfRange else Value(LEValue(data[old(pos)..old(pos) + 3]))
      ensures pos == if r.Value? then old(pos) + 3 else old(pos)
    {
      if pos + 3 > |data| {
        return OutOfRange;
      }
      ValueOfThree(data[pos..pos + 3]);
      r := Value(data[pos] as int + 256 * data[pos + 1] as int + 65536 * data[pos + 2] as int);
      pos := pos + 3;
    }

    method ReadB0255() returns (r: Read<seq<octet>>)
      requires Valid()
      modifies this
      ensures Valid()
      ensures r == B0255At(data, old(pos))
      ensures r.Value? ==> pos == old(pos) + 1 + |r.value|
    {
      var len := ReadU8();
      if len.OutOfRange? || pos + len.value > |data| {
        return OutOfRange;
      }
      r := Value(data[pos..pos + len.value]);
      pos := pos + len.value;
    }
  }

  function B0255At(data: seq<octet>, pos: nat): (r: Read<seq<octet>>)
  {
    if pos + 1 > |data| || pos + 1 + data[pos] > |data| then OutOfRange else Value(data[pos + 1..pos + 1 + data[pos]])
  }

  /** A written byte string reads back whole exactly when it has at most 255 bytes. */
  lemma B0255RoundTrip(before: seq<octet>, val: seq<octet>, more: seq<octet>)
    ensures var written := if |val| <= 255 then [|val|] + val else [255] + val[..255];
      B0255At(before + written + more, |before|) == Value(val) <==> |val| <= 255
  {
    var written := if |val| <= 255 then [|val|] + val else [255] + val[..255];
    var data, n := before + written + more, |before|;
    assert data[n] == written[0];
    assert data[n + 1..n + 1 + written[0] as int] == written[1..];
    assert |val| <= 255 ==> written[1..] == val;
  }

  lemma FirstByte(v: nat, n: nat)
    ensures LE(v, n) == if n == 0 then [] else [v % 256] + LE(v / 256, n - 1)
  {
  }

  lemma OneByte(v: octet)
    ensures LE(v, 1) == [v]
  {
  }

  lemma TwoBytes(v: nat)
    ensures LE(v, 2) == [v % 256, v / 256 % 256]
  {
  }

  lemma ThreeBytes(v: nat)
    ensures LE(v, 3) == [v % 256, v / 256 % 256, v / 65536 % 256]
  {
    TwoBytes(v / 256);
  }

  lemma ValueOfTwo(b: seq<octet>)
    requires |b| == 2
    ensures LEValue(b) == b[0] as int + 256 * b[1] as int
  {
    assert b[1..] == [b[1]] && [b[1]][1..] == [];
    assert LEValue([b[1]]) == b[1];
  }

  lemma ValueOfThree(b: seq<octet>)
    requires |b| == 3
    ensures LEValue(b) == b[0] as int + 256 * b[1] as int + 65536 * b[2] as int
  {
    ValueOfTwo(b[1..]);
  }
}
