/** segwit_decode of address.cpp is exactly the inverse of the BIP 173 and BIP 350 address encoder. */
module Segwit {
  import opened AddressResult
  import opened AddressText
  import opened BchCode
  import opened Bech32
  import opened BitStrings
  import opened ConvertBits
  import opened Polymod

  datatype Info = Info(version: byte, program: seq<byte>, form: encoding)

  // ---------- the encoder ----------

  predicate ValidProgram(version: byte, program: seq<byte>)
  {
    version <= 16 && 2 <= |program| <= 40 && (version == 0 ==> |program| == 20 || |program| == 32)
  }

  function EncodingFor(version: byte): encoding
  {
    if version == 0 then 0 else 1
  }

  function DataPart(version: byte, program: seq<byte>): (data: seq<byte>)
  {
    AnyFitsEight(program);
    [version] + Converted(program, 8, 5, true).value
  }

  function SegwitAddress(hrp: text, version: byte, program: seq<byte>): (s: text)
  {
    Encoded(hrp, DataPart(version, program), EncodingFor(version))
  }

  // ---------- the decoder ----------

  function SegwitDecoded(hrp: text, s: text): (r: Result<Info>)
  {
    match Decoded(hrp, s)
    case Err(e) => Err(e)
    case Ok((e, data)) => if data == [] then Err(BadLength) else OfData(e, data)
  }

  function OfData(e: encoding, data: seq<byte>): (r: Result<Info>)
    requires data != []
  {
    if data[0] > 16 then Err(UnsupportedVersion)
    else match Converted(data[1..], 5, 8, false)
      case Err(error) => Err(error)
      case Ok(program) =>
        if |program| < 2 || |program| > 40 then Err(BadLength)
        else if data[0] == 0 && |program| != 20 && |program| != 32 then Err(BadLength)
        else if (data[0] == 0 && e != 0) || (data[0] >= 1 && e != 1) then Err(BadChecksum)
        else Ok(Info(data[0], program, e))
  }

  method DecodeSegwit(hrp: text, s: text) returns (r: Result<Info>)
    requires Ascii(hrp)
    ensures r == SegwitDecoded(hrp, s)
  {
    hide Decoded, Converted;
    var dec := Decode(hrp, s);
    if dec.Err? {
      return Err(dec.error);
    }
    var (e, data) := dec.value;
    if data == [] {
      return Err(BadLength);
    }
    var version := data[0];
    if version > 16 {
      return Err(UnsupportedVersion);
    }
    var program := Convert(data[1..], 5, 8, false);
    if program.Err? {
      return Err(program.error);
    }
    var length := |program.value|;
    if length < 2 || length > 40 {
      return Err(BadLength);
    }
    if version == 0 && length != 20 && length != 32 {
      return Err(BadLength);
    }
    if (version == 0 && e != 0) || (version >= 1 && e != 1) {
      return Err(BadChecksum);
    }
    return Ok(Info(version, program.value, e));
  }

  // ---------- round trip ----------

  lemma OfDataOk(e: encoding, data: seq<byte>, info: Info)
    requires data != []
    ensures OfData(e, data) == Ok(info)
       <==> && ValidProgram(info.version, info.program) && info.form == e == EncodingFor(info.version)
            && data == DataPart(info.version, info.program)
  {
    hide Converted, AllFit;
    AnyFitsEight(info.program);
    RoundTrip(info.program, data[1..], 8, 5);
    assert data == [data[0]] + data[1..];
    PaddedOk(info.program);
  }

  lemma DataPartFits(version: byte, program: seq<byte>)
    requires version <= 16
    ensures AllFit(DataPart(version, program), 5)
  {
    hide Converted, Fits;
    PaddedOk(program);
    FiveBits(version);
  }

  /** A text decodes to a version and program exactly when it is a single-case spelling of their one address. */
  lemma SegwitRoundTrip(hrp: text, s: text, info: Info)
    ensures SegwitDecoded(hrp, s) == Ok(info)
       <==> && !MixedCase(s) && hrp != [] && ValidProgram(info.version, info.program)
            && info.form == EncodingFor(info.version)
            && Lower(s) == SegwitAddress(hrp, info.version, info.program)
  {
    hide Decoded, Encoded, OfData, MixedCase, Lower, AllFit;
    var data := DataPart(info.version, info.program);
    DecodedInvertsEncoded(hrp, s, info.form, data);
    assert data != [];
    OfDataOk(info.form, data, info);
    if ValidProgram(info.version, info.program) {
      DataPartFits(info.version, info.program);
    }
    if Decoded(hrp, s).Ok? && Decoded(hrp, s).value.1 != [] {
      OfDataOk(Decoded(hrp, s).value.0, Decoded(hrp, s).value.1, info);
    }
  }

  // ---------- one wrong character ----------

  /** Two encodings of the same length that differ in one value and agree on the constant are the same. */
  lemma OneValue(hrp: text, a: seq<byte>, b: seq<byte>, e: encoding, j: nat)
    requires AllFit(a, 5) && AllFit(b, 5) && |a| == |b|
    requires var x, y := a + ChecksumOf(hrp, a, e), b + ChecksumOf(hrp, b, e); j < |x| && y == x[j := y[j]]
    ensures a + ChecksumOf(hrp, a, e) == b + ChecksumOf(hrp, b, e)
  {
    hide Checked, HrpExpand, ConstantOf, Fits, ChecksumOf, Bits, Code;
    var x, y := a + ChecksumOf(hrp, a, e), b + ChecksumOf(hrp, b, e);
    var h := HrpExpand(hrp);
    AllFitConcat(a, ChecksumOf(hrp, a, e));
    AllFitConcat(b, ChecksumOf(hrp, b, e));
    ChecksumTest(hrp, x, e);
    ChecksumTest(hrp, y, e);
    assert x[..|a|] == a && x[|a|..] == ChecksumOf(hrp, a, e) && y[..|b|] == b && y[|b|..] == ChecksumOf(hrp, b, e);
    Bech32IsCode();
    assert (h + x)[|h| + j] == x[j];
    SingleValueChange(h + x, |h| + j, y[j], BECH32_GENERATORS, 30);
    assert h + y == (h + x)[|h| + j := y[j]];
  }

  lemma CharTells(u: byte, v: byte)
    requires Fits(u, 5) && Fits(v, 5)
    ensures CharOf(u) == CharOf(v) <==> u == v
  {
    hide CharOf, ValueOf, Fits;
    FiveBits(u);
    FiveBits(v);
    ValueOfCharOf(u);
    ValueOfCharOf(v);
  }

  lemma CharsChange(x: seq<byte>, y: seq<byte>, j: nat, c: byte)
    requires AllFit(x, 5) && AllFit(y, 5) && |x| == |y| && j < |x| && Chars(y) == Chars(x)[j := c]
    ensures y == x[j := y[j]]
  {
    hide CharOf, Fits;
    forall k | 0 <= k < |x| && k != j
      ensures y[k] == x[k]
    {
      assert Chars(y)[k] == Chars(x)[k];
      CharTells(x[k], y[k]);
    }
  }

  /** No other encoding with the same prefix and constant is one character away. */
  lemma NoNeighbour(hrp: text, a: seq<byte>, b: seq<byte>, e: encoding, i: nat, c: byte)
    requires AllFit(a, 5) && AllFit(b, 5) && i < |Encoded(hrp, a, e)| && Encoded(hrp, b, e) == Encoded(hrp, a, e)[i := c]
    ensures c == Encoded(hrp, a, e)[i]
  {
    hide CharOf, Fits, ChecksumOf;
    var x, y := a + ChecksumOf(hrp, a, e), b + ChecksumOf(hrp, b, e);
    var ea, eb := Encoded(hrp, a, e), Encoded(hrp, b, e);
    assert |a| == |b|;
    if i <= |hrp| {
      assert eb[i] == (hrp + [SEPARATOR])[i] == ea[i];
    } else {
      var j := i - |hrp| - 1;
      Suffixes(hrp, a, b, e, i, c);
      AllFitConcat(a, ChecksumOf(hrp, a, e));
      AllFitConcat(b, ChecksumOf(hrp, b, e));
      CharsChange(x, y, j, c);
      OneValue(hrp, a, b, e, j);
      assert ea == eb;
    }
  }

  lemma Suffixes(hrp: text, a: seq<byte>, b: seq<byte>, e: encoding, i: nat, c: byte)
    requires |hrp| < i < |Encoded(hrp, a, e)| && Encoded(hrp, b, e) == Encoded(hrp, a, e)[i := c]
    ensures Chars(b + ChecksumOf(hrp, b, e)) == Chars(a + ChecksumOf(hrp, a, e))[i - |hrp| - 1 := c]
  {
    hide CharOf, ChecksumOf, Chars;
    var x, y := a + ChecksumOf(hrp, a, e), b + ChecksumOf(hrp, b, e);
    assert Chars(x) == Encoded(hrp, a, e)[|hrp| + 1..];
    assert Chars(y) == Encoded(hrp, b, e)[|hrp| + 1..];
  }

  lemma FirstValue(hrp: text, data: seq<byte>, e: encoding)
    requires data != [] && AllFit(data, 5)
    ensures |Encoded(hrp, data, e)| > |hrp| + 1 && ValueOf(Encoded(hrp, data, e)[|hrp| + 1]) == data[0]
  {
    hide ChecksumOf, CharOf, ValueOf, Fits;
    FiveBits(data[0]);
    ValueOfCharOf(data[0]);
    assert (data + ChecksumOf(hrp, data, e))[0] == data[0];
  }

  /** One wrong character in an accepted address is always refused, unless it turns version 0 into another or back. */
  lemma SingleErrorRefused(hrp: text, s: text, i: nat, c: byte)
    requires SegwitDecoded(hrp, s).Ok? && i < |s| && ToLower(c) != ToLower(s[i])
    requires i == |hrp| + 1 ==> (ValueOf(ToLower(c)) == 0 <==> ValueOf(ToLower(s[i])) == 0)
    ensures SegwitDecoded(hrp, s[i := c]).Err?
  {
    hide SegwitDecoded, Encoded, DataPart, MixedCase, ToLower, ValueOf, Fits;
    var t := s[i := c];
    if SegwitDecoded(hrp, t).Ok? {
      var p, q := SegwitDecoded(hrp, s).value, SegwitDecoded(hrp, t).value;
      var a, b := DataPart(p.version, p.program), DataPart(q.version, q.program);
      SegwitRoundTrip(hrp, s, p);
      SegwitRoundTrip(hrp, t, q);
      LowerChange(s, i, c);
      assert p.version <= 16 && q.version <= 16;
      DataPartFits(p.version, p.program);
      DataPartFits(q.version, q.program);
      DataHead(p.version, p.program);
      DataHead(q.version, q.program);
      FirstValue(hrp, a, p.form);
      FirstValue(hrp, b, q.form);
      NoNeighbour(hrp, a, b, p.form, i, ToLower(c));
      assert false;
    }
  }

  lemma DataHead(version: byte, program: seq<byte>)
    ensures DataPart(version, program) != [] && DataPart(version, program)[0] == version
  {
  }
}
