/** bech32_decode of address.cpp against the encoder of BIP 173 and BIP 350. */
module Bech32 {
  import opened AddressResult
  import opened AddressText
  import opened BchCode
  import opened BitStrings
  import opened ConvertBits
  import opened Polymod

  const SEPARATOR: byte := 0x31

  /** bech32 is encoding 0 and bech32m is encoding 1. */
  type encoding = e: int | 0 <= e < 2

  function ConstantOf(e: encoding): (c: seq<bool>)
    ensures |c| == 30
  {
    if e == 0 then One(30) else Bits([0x2b, 0xc8, 0x30, 0xa3])[2..]
  }

  lemma ConstantsDiffer()
    ensures ConstantOf(0) != ConstantOf(1)
  {
    LowBits([0x2b, 0xc8, 0x30, 0xa3]);
    assert ConstantOf(1)[28] == BitsOf(0xa3)[3..][3];
    assert BitsOf(0xa3)[6];
  }

  predicate Ascii(s: text)
  {
    forall i | 0 <= i < |s| :: s[i] < 0x80
  }

  function HighPart(c: byte): byte
  {
    c >> 5
  }

  function LowPart(c: byte): byte
  {
    c & 31
  }

  function HighParts(hrp: text): (vs: seq<byte>)
    ensures |vs| == |hrp|
  {
    seq(|hrp|, i requires 0 <= i < |hrp| => HighPart(hrp[i]))
  }

  function LowParts(hrp: text): (vs: seq<byte>)
    ensures |vs| == |hrp|
  {
    seq(|hrp|, i requires 0 <= i < |hrp| => LowPart(hrp[i]))
  }

  function HrpExpand(hrp: text): (vs: seq<byte>)
  {
    HighParts(hrp) + [0] + LowParts(hrp)
  }

  lemma ExpandFits(hrp: text)
    ensures AllFit(HrpExpand(hrp), 5)
  {
    hide Fits;
    var vs := HrpExpand(hrp);
    forall i | 0 <= i < |vs|
      ensures Fits(vs[i], 5)
    {
      FiveBits(vs[i]);
      if i < |hrp| {
        TopThree(hrp[i]);
      } else if i > |hrp| {
        LowFive(hrp[i - |hrp| - 1]);
      }
    }
  }

  lemma TopThree(c: byte)
    ensures HighPart(c) < 32
  {
  }

  lemma LowFive(c: byte)
    ensures LowPart(c) < 32
  {
  }

  /** The last position of a byte, or -1: std::string::rfind */
  function RFind(s: text, c: byte): (pos: int)
    ensures -1 <= pos < |s|
    ensures pos >= 0 ==> s[pos] == c
    ensures forall i | pos < i < |s| :: s[i] != c
  {
    if s == [] then -1 else if s[|s| - 1] == c then |s| - 1 else RFind(s[..|s| - 1], c)
  }

  // ---------- the encoder ----------

  function ChecksumOf(hrp: text, data: seq<byte>, e: encoding): (cs: seq<byte>)
    ensures |cs| == 6 && AllFit(cs, 5)
  {
    ChecksumValues(HrpExpand(hrp) + data, ConstantOf(e), BECH32_GENERATORS, 30)
  }

  /** The bech32 or bech32m string of a human-readable part and values below 32. */
  function Encoded(hrp: text, data: seq<byte>, e: encoding): (s: text)
  {
    hrp + [SEPARATOR] + Chars(data + ChecksumOf(hrp, data, e))
  }

  // ---------- the decoder ----------

  function Decoded(hrp: text, s: text): (r: Result<(encoding, seq<byte>)>)
  {
    var lower := Lower(s);
    var pos := RFind(lower, SEPARATOR);
    if MixedCase(s) then Err(BadCharacter)
    else if pos < 1 || pos + 7 > |lower| then Err(BadLength)
    else if lower[..pos] != hrp then Err(UnknownPrefix)
    else DecodedValues(hrp, Values(lower[pos + 1..]))
  }

  function DecodedValues(hrp: text, values: seq<byte>): (r: Result<(encoding, seq<byte>)>)
    requires |values| >= 6
  {
    var chk := Checked(HrpExpand(hrp) + values, BECH32_GENERATORS, 30);
    if !AllFit(values, 5) then Err(BadCharacter)
    else if chk == ConstantOf(0) then Ok((0, values[..|values| - 6]))
    else if chk == ConstantOf(1) then Ok((1, values[..|values| - 6]))
    else Err(BadChecksum)
  }

  method Decode(hrp: text, s: text) returns (r: Result<(encoding, seq<byte>)>)
    requires Ascii(hrp)
    ensures r == Decoded(hrp, s)
  {
    hide Lower, RFind, Values, Checked, HrpExpand, ConstantOf, Fits;
    var mixed := ScanCase(s);
    if mixed {
      return Err(BadCharacter);
    }
    var lower := Lower(s);
    var pos := RFind(lower, SEPARATOR);
    if pos < 1 || pos + 7 > |lower| {
      return Err(BadLength);
    }
    if lower[..pos] != hrp {
      return Err(UnknownPrefix);
    }
    var ok, values := ReadValues(lower[pos + 1..]);
    if !ok {
      return Err(BadCharacter);
    }
    ExpandFits(hrp);
    var chk := Compute(HrpExpand(hrp) + values, BECH32_GENERATORS, 30, 32);
    WordEqual(Checked(HrpExpand(hrp) + values, BECH32_GENERATORS, 30), ConstantOf(0));
    WordEqual(Checked(HrpExpand(hrp) + values, BECH32_GENERATORS, 30), ConstantOf(1));
    var e: encoding;
    if chk == Zeros(2) + ConstantOf(0) {
      e := 0;
    } else if chk == Zeros(2) + ConstantOf(1) {
      e := 1;
    } else {
      return Err(BadChecksum);
    }
    return Ok((e, values[..|values| - 6]));
  }

  lemma WordEqual(x: seq<bool>, y: seq<bool>)
    requires |x| == |y|
    ensures Zeros(2) + x == Zeros(2) + y <==> x == y
  {
    if Zeros(2) + x == Zeros(2) + y {
      assert x == (Zeros(2) + x)[2..] && y == (Zeros(2) + y)[2..];
    }
  }

  // ---------- decoding is exactly the inverse of encoding ----------

  lemma ChecksumTest(hrp: text, values: seq<byte>, e: encoding)
    requires |values| >= 6 && AllFit(values, 5)
    ensures var n := |values| - 6;
      Checked(HrpExpand(hrp) + values, BECH32_GENERATORS, 30) == ConstantOf(e)
      <==> values[n..] == ChecksumOf(hrp, values[..n], e)
  {
    hide Checked, HrpExpand, ConstantOf, Fits, Bits, ChecksumValues, Code;
    var n := |values| - 6;
    var data, cs := values[..n], values[n..];
    Bech32IsCode();
    UniqueChecksum(HrpExpand(hrp) + data, cs, ConstantOf(e), BECH32_GENERATORS, 30);
    assert HrpExpand(hrp) + values == HrpExpand(hrp) + data + cs;
  }

  lemma DecodedValuesOk(hrp: text, values: seq<byte>, e: encoding, data: seq<byte>)
    requires |values| >= 6
    ensures DecodedValues(hrp, values) == Ok((e, data))
       <==> AllFit(values, 5) && values == data + ChecksumOf(hrp, data, e)
  {
    hide Checked, HrpExpand, ConstantOf, Fits, ChecksumOf;
    var n := |values| - 6;
    assert values == values[..n] + values[n..];
    if AllFit(values, 5) {
      ConstantsDiffer();
      ChecksumTest(hrp, values, 0);
      ChecksumTest(hrp, values, 1);
      if values == data + ChecksumOf(hrp, data, e) {
        assert values[..n] == data && values[n..] == ChecksumOf(hrp, data, e);
      }
    }
  }

  /** A text decodes to (e, data) exactly when it is one of the two single-case spellings of the encoding of data. */
  lemma DecodedInvertsEncoded(hrp: text, s: text, e: encoding, data: seq<byte>)
    ensures Decoded(hrp, s) == Ok((e, data))
       <==> !MixedCase(s) && hrp != [] && AllFit(data, 5) && Lower(s) == Encoded(hrp, data, e)
  {
    hide Lower, MixedCase, Fits, Values, Chars, ValueOf, CharOf, DecodedValues, ChecksumOf;
    var lower := Lower(s);
    var pos := RFind(lower, SEPARATOR);
    if Decoded(hrp, s) == Ok((e, data)) {
      var values := Values(lower[pos + 1..]);
      DecodedValuesOk(hrp, values, e, data);
      CharsAndValues(lower[pos + 1..], values);
      AllFitConcat(data, ChecksumOf(hrp, data, e));
      assert lower == lower[..pos] + [lower[pos]] + lower[pos + 1..];
    }
    if hrp != [] && AllFit(data, 5) && lower == Encoded(hrp, data, e) {
      EncodedSplits(hrp, lower, data, e);
      DecodedValuesOk(hrp, Values(lower[pos + 1..]), e, data);
    }
  }

  lemma EncodedSplits(hrp: text, lower: text, data: seq<byte>, e: encoding)
    requires AllFit(data, 5) && lower == Encoded(hrp, data, e)
    ensures RFind(lower, SEPARATOR) == |hrp| && lower[..|hrp|] == hrp && |lower| == |hrp| + 7 + |data|
    ensures Values(lower[|hrp| + 1..]) == data + ChecksumOf(hrp, data, e) && AllFit(Values(lower[|hrp| + 1..]), 5)
  {
    hide Fits, Values, Chars, ValueOf, CharOf, ChecksumOf, RFind;
    var values := data + ChecksumOf(hrp, data, e);
    AllFitConcat(data, ChecksumOf(hrp, data, e));
    CharsAndValues(Chars(values), values);
    assert lower[|hrp| + 1..] == Chars(values);
    assert lower[|hrp|] == SEPARATOR;
    forall i | |hrp| < i < |lower|
      ensures lower[i] != SEPARATOR
    {
      NotSeparator(values[i - |hrp| - 1]);
    }
  }

  lemma NotSeparator(v: byte)
    requires Fits(v, 5)
    ensures CharOf(v) != SEPARATOR
  {
    hide CharOf, Fits;
    FiveBits(v);
    ValueOfCharOf(v);
    assert ValueOf(SEPARATOR) == NO_VALUE;
  }
}
