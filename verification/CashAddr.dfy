/** cashaddr_decode of address.cpp is exactly the inverse of the CashAddr encoder. */
module CashAddr {
  import opened AddressResult
  import opened AddressText
  import opened BchCode
  import opened BitStrings
  import opened ConvertBits
  import opened Polymod

  const COLON: byte := 0x3a

  /** "bitcoincash" */
  const DEFAULT_PREFIX: text := [0x62, 0x69, 0x74, 0x63, 0x6f, 0x69, 0x6e, 0x63, 0x61, 0x73, 0x68]

  datatype CashInfo = CashInfo(prefix: text, kind: byte, hash: seq<byte>)

  // ---------- prefix and payload ----------

  /** The first position of a byte, or the length when there is none: std::string::find */
  function Find(s: text, c: byte): (pos: nat)
    ensures pos <= |s|
    ensures pos < |s| ==> s[pos] == c
    ensures forall i | 0 <= i < pos :: s[i] != c
  {
    if s == [] || s[0] == c then 0 else 1 + Find(s[1..], c)
  }

  function PrefixOf(s: text): (prefix: text)
  {
    var colon := Find(s, COLON);
    Lower(if colon < |s| then s[..colon] else DEFAULT_PREFIX)
  }

  function PayloadOf(s: text): (payload: text)
  {
    var colon := Find(s, COLON);
    if colon < |s| then s[colon + 1..] else s
  }

  function LowFive(c: byte): byte
  {
    c & 0x1f
  }

  function ExpandPrefix(prefix: text): (vs: seq<byte>)
  {
    seq(|prefix|, i requires 0 <= i < |prefix| => LowFive(prefix[i])) + [0]
  }

  lemma LowFiveFits(c: byte)
    ensures Fits(LowFive(c), 5)
  {
    FiveBits(LowFive(c));
  }

  lemma ExpandPrefixFits(prefix: text)
    ensures AllFit(ExpandPrefix(prefix), 5)
  {
    hide Fits, LowFive;
    var vs := ExpandPrefix(prefix);
    forall i | 0 <= i < |vs|
      ensures Fits(vs[i], 5)
    {
      FiveBits(0);
      if i < |prefix| {
        LowFiveFits(prefix[i]);
      }
    }
  }

  // ---------- the version byte ----------

  /** The hash length in bytes for the low three bits of the version byte. */
  function HashLength(code: byte): (n: nat)
  {
    match code
    case 0 => 20 case 1 => 24 case 2 => 28 case 3 => 32 case 4 => 40 case 5 => 48 case 6 => 56 case _ => 64
  }

  function SizeCode(n: nat): (code: byte)
  {
    match n
    case 20 => 0 case 24 => 1 case 28 => 2 case 32 => 3 case 40 => 4 case 48 => 5 case 56 => 6 case _ => 7
  }

  predicate HashSize(n: nat)
  {
    HashLength(SizeCode(n)) == n
  }

  function KindOf(version: byte): byte
  {
    (version >> 3) & 0x1f
  }

  function CodeOf(version: byte): byte
  {
    version & 7
  }

  function VersionByte(kind: byte, n: nat): (version: byte)
  {
    (kind << 3) | SizeCode(n)
  }

  lemma KindAndCode(version: byte, kind: byte, code: byte)
    requires code < 8
    ensures KindOf(version) == kind && CodeOf(version) == code <==> kind < 32 && version == (kind << 3) | code
  {
  }

  lemma LengthOfCode(code: byte, n: nat)
    requires code < 8
    ensures HashLength(code) == n <==> HashSize(n) && code == SizeCode(n)
  {
  }

  lemma CodeIsSmall(version: byte)
    ensures CodeOf(version) < 8
  {
  }

  lemma SizeCodeIsSmall(n: nat)
    ensures SizeCode(n) < 8
  {
  }

  /** A version byte names one kind and one hash length. */
  lemma VersionSplits(version: byte, kind: byte, n: nat)
    ensures KindOf(version) == kind && HashLength(CodeOf(version)) == n
       <==> kind < 32 && HashSize(n) && version == VersionByte(kind, n)
  {
    hide KindOf, CodeOf, HashLength, SizeCode, HashSize;
    CodeIsSmall(version);
    SizeCodeIsSmall(n);
    LengthOfCode(CodeOf(version), n);
    KindAndCode(version, kind, SizeCode(n));
  }

  // ---------- the encoder ----------

  function CashChecksum(prefix: text, data: seq<byte>): (cs: seq<byte>)
    ensures |cs| == 8 && AllFit(cs, 5)
  {
    ChecksumValues(ExpandPrefix(prefix) + data, One(40), CASHADDR_GENERATORS, 40)
  }

  function CashData(kind: byte, hash: seq<byte>): (data: seq<byte>)
  {
    AnyFitsEight([VersionByte(kind, |hash|)] + hash);
    Converted([VersionByte(kind, |hash|)] + hash, 8, 5, true).value
  }

  /** The payload of the address of a hash under a prefix. */
  function CashPayload(prefix: text, kind: byte, hash: seq<byte>): (s: text)
  {
    var data := CashData(kind, hash);
    Chars(data + CashChecksum(prefix, data))
  }

  // ---------- the decoder ----------

  predicate ChecksumHolds(prefix: text, values: seq<byte>)
  {
    Checked(ExpandPrefix(prefix) + values, CASHADDR_GENERATORS, 40) == One(40)
  }

  function CashDecoded(s: text): (r: Result<CashInfo>)
  {
    var values := Values(Lower(PayloadOf(s)));
    if MixedCase(PayloadOf(s)) then Err(BadCharacter)
    else if !AllFit(values, 5) then Err(BadCharacter)
    else if |values| < 8 then Err(BadLength)
    else if !ChecksumHolds(PrefixOf(s), values) then Err(BadChecksum)
    else OfValues(PrefixOf(s), values[..|values| - 8])
  }

  function OfValues(prefix: text, data: seq<byte>): (r: Result<CashInfo>)
  {
    match Converted(data, 5, 8, false)
    case Err(e) => Err(e)
    case Ok(bytes) =>
      if bytes == [] then Err(BadLength)
      else if |bytes| - 1 != HashLength(CodeOf(bytes[0])) then Err(BadLength)
      else Ok(CashInfo(prefix, KindOf(bytes[0]), bytes[1..]))
  }

  method FromValues(prefix: text, data: seq<byte>) returns (r: Result<CashInfo>)
    ensures r == OfValues(prefix, data)
  {
    hide Converted, HashLength, CodeOf, KindOf;
    var bytes := Convert(data, 5, 8, false);
    if bytes.Err? {
      return Err(bytes.error);
    }
    if bytes.value == [] {
      return Err(BadLength);
    }
    var version := bytes.value[0];
    if |bytes.value| - 1 != HashLength(CodeOf(version)) {
      return Err(BadLength);
    }
    return Ok(CashInfo(prefix, KindOf(version), bytes.value[1..]));
  }

  method DecodeCash(s: text) returns (r: Result<CashInfo>)
    ensures r == CashDecoded(s)
  {
    hide Lower, Find, Values, Checked, ExpandPrefix, Fits, OfValues, MixedCase, Xor;
    var prefix, payload := DEFAULT_PREFIX, s;
    var colon := Find(s, COLON);
    if colon < |s| {
      prefix, payload := s[..colon], s[colon + 1..];
    }
    var mixed := ScanCase(payload);
    if mixed {
      return Err(BadCharacter);
    }
    prefix := Lower(prefix);
    var ok, values := ReadValues(Lower(payload));
    if !ok {
      return Err(BadCharacter);
    }
    if |values| < 8 {
      return Err(BadLength);
    }
    ExpandPrefixFits(prefix);
    var chk := Compute(ExpandPrefix(prefix) + values, CASHADDR_GENERATORS, 40, 64);
    WithoutOne(Checked(ExpandPrefix(prefix) + values, CASHADDR_GENERATORS, 40));
    if Xor(chk, Zeros(63) + [true]) != Zeros(64) {
      return Err(BadChecksum);
    }
    r := FromValues(prefix, values[..|values| - 8]);
  }

  /** c ^ 1 == 0 */
  lemma WithoutOne(chk: seq<bool>)
    requires |chk| == 40
    ensures Xor(Zeros(24) + chk, Zeros(63) + [true]) == Zeros(64) <==> chk == One(40)
  {
    assert Zeros(63) + [true] == Zeros(24) + One(40);
    XorSelf(Zeros(24) + chk, Zeros(63) + [true]);
    if Zeros(24) + chk == Zeros(24) + One(40) {
      assert chk == (Zeros(24) + chk)[24..] && One(40) == (Zeros(24) + One(40))[24..];
    }
  }

  // ---------- round trip ----------

  lemma OfValuesOk(prefix: text, data: seq<byte>, info: CashInfo)
    ensures OfValues(prefix, data) == Ok(info)
       <==> && info.prefix == prefix && info.kind < 32 && HashSize(|info.hash|)
            && data == CashData(info.kind, info.hash)
  {
    hide Converted, HashSize, HashLength, KindOf, CodeOf, VersionByte, AllFit;
    var bytes := [VersionByte(info.kind, |info.hash|)] + info.hash;
    AnyFitsEight(bytes);
    RoundTrip(bytes, data, 8, 5);
    PaddedOk(bytes);
    var r := Converted(data, 5, 8, false);
    VersionSplits(bytes[0], info.kind, |info.hash|);
    if OfValues(prefix, data) == Ok(info) {
      VersionSplits(r.value[0], info.kind, |info.hash|);
      assert r.value == [r.value[0]] + r.value[1..];
    }
  }

  lemma CashChecksumTest(prefix: text, values: seq<byte>)
    requires |values| >= 8 && AllFit(values, 5)
    ensures var n := |values| - 8;
      Checked(ExpandPrefix(prefix) + values, CASHADDR_GENERATORS, 40) == One(40)
      <==> values[n..] == CashChecksum(prefix, values[..n])
  {
    hide Checked, ExpandPrefix, One, Fits, Bits, ChecksumValues, Code;
    var n := |values| - 8;
    var data, cs := values[..n], values[n..];
    CashAddrIsCode();
    UniqueChecksum(ExpandPrefix(prefix) + data, cs, One(40), CASHADDR_GENERATORS, 40);
    assert ExpandPrefix(prefix) + values == ExpandPrefix(prefix) + data + cs;
  }

  /** A text decodes to a kind and hash exactly when its payload is a single-case spelling of their one payload. */
  lemma CashRoundTrip(s: text, info: CashInfo)
    ensures CashDecoded(s) == Ok(info)
       <==> && info.prefix == PrefixOf(s) && !MixedCase(PayloadOf(s)) && info.kind < 32 && HashSize(|info.hash|)
            && Lower(PayloadOf(s)) == CashPayload(info.prefix, info.kind, info.hash)
  {
    hide Lower, MixedCase, Fits, Values, Chars, ValueOf, CharOf, OfValues, CashChecksum, CashData, HashSize;
    hide Checked, ExpandPrefix, One, PrefixOf, PayloadOf;
    var payload, prefix, data := Lower(PayloadOf(s)), PrefixOf(s), CashData(info.kind, info.hash);
    var values, full := Values(payload), data + CashChecksum(info.prefix, data);
    CashDataFits(info.kind, info.hash);
    AllFitConcat(data, CashChecksum(info.prefix, data));
    CharsAndValues(payload, full);
    if |values| >= 8 && AllFit(values, 5) {
      var n := |values| - 8;
      CashChecksumTest(prefix, values);
      OfValuesOk(prefix, values[..n], info);
      assert values == values[..n] + values[n..];
      assert values == full ==> values[..n] == data && values[n..] == CashChecksum(info.prefix, data);
    }
  }

  lemma CashDataFits(kind: byte, hash: seq<byte>)
    ensures AllFit(CashData(kind, hash), 5)
  {
    hide Converted, AllFit;
    PaddedOk([VersionByte(kind, |hash|)] + hash);
  }

  // ---------- one wrong character ----------

  lemma AcceptedChecksum(s: text)
    ensures CashDecoded(s).Ok? ==>
      && AllFit(Values(Lower(PayloadOf(s))), 5)
      && ChecksumHolds(PrefixOf(s), Values(Lower(PayloadOf(s))))
  {
    hide PrefixOf, PayloadOf, ChecksumHolds, OfValues, Values, Lower, AllFit;
  }

  /** The value lists of two texts whose payloads differ in one character differ in one value. */
  lemma PayloadChange(p: text, q: text, i: nat, c: byte)
    requires i < |p| && q == p[i := c]
    ensures Values(Lower(q)) == Values(Lower(p))[i := ValueOf(ToLower(c))]
  {
    hide ValueOf, ToLower;
  }

  lemma ValueTells(c: byte, d: byte)
    requires Fits(ValueOf(c), 5) && Fits(ValueOf(d), 5)
    ensures ValueOf(c) == ValueOf(d) <==> c == d
  {
    hide ValueOf, CharOf, Fits;
    ValueFits(c);
    ValueFits(d);
    CharOfValueOf(c);
    CharOfValueOf(d);
  }

  lemma PayloadErrorRefused(s: text, t: text, i: nat, c: byte)
    requires CashDecoded(s).Ok? && PrefixOf(t) == PrefixOf(s) && i < |PayloadOf(s)| && PayloadOf(t) == PayloadOf(s)[i := c]
    requires ToLower(c) != ToLower(PayloadOf(s)[i])
    ensures CashDecoded(t).Err?
  {
    hide CashDecoded, Checked, ExpandPrefix, PrefixOf, PayloadOf, ValueOf, ToLower, Fits, One, Bits, Code;
    var p, h, v := PayloadOf(s), ExpandPrefix(PrefixOf(s)), ValueOf(ToLower(c));
    var x, y := Values(Lower(p)), Values(Lower(PayloadOf(t)));
    AcceptedChecksum(s);
    AcceptedChecksum(t);
    PayloadChange(p, PayloadOf(t), i, c);
    if CashDecoded(t).Ok? {
      assert y[i] == v && x[i] == ValueOf(ToLower(p[i]));
      ValueTells(ToLower(c), ToLower(p[i]));
      WrongValue(h, x, i, v);
      assert false;
    }
  }

  lemma WrongValue(h: seq<byte>, x: seq<byte>, i: nat, v: byte)
    requires i < |x| && Fits(x[i], 5) && Fits(v, 5)
    ensures Checked(h + x[i := v], CASHADDR_GENERATORS, 40) == Checked(h + x, CASHADDR_GENERATORS, 40) <==> v == x[i]
  {
    hide Checked, Fits, Bits, Code;
    CashAddrIsCode();
    assert (h + x)[|h| + i] == x[i] && h + x[i := v] == (h + x)[|h| + i := v];
    SingleValueChange(h + x, |h| + i, v, CASHADDR_GENERATORS, 40);
  }

  lemma FindSkips(s: text, i: nat, c: byte)
    requires i < |s| && (i > Find(s, COLON) || (c != COLON && i != Find(s, COLON)))
    ensures Find(s[i := c], COLON) == Find(s, COLON)
  {
    hide Find;
    FindIs(s[i := c], COLON, Find(s, COLON));
  }

  lemma FindIs(s: text, c: byte, pos: nat)
    requires pos <= |s| && (pos < |s| ==> s[pos] == c) && forall i | 0 <= i < pos :: s[i] != c
    ensures Find(s, c) == pos
  {
    hide Find;
  }

  /** One wrong character in an accepted payload is always refused. */
  lemma SingleErrorRefused(s: text, i: nat, c: byte)
    requires CashDecoded(s).Ok? && i < |s| && ToLower(c) != ToLower(s[i])
    requires if Find(s, COLON) < |s| then i > Find(s, COLON) else c != COLON
    ensures CashDecoded(s[i := c]).Err?
  {
    hide CashDecoded, Find, ToLower, Lower;
    var t, colon := s[i := c], Find(s, COLON);
    FindSkips(s, i, c);
    if colon < |s| {
      assert t[..colon] == s[..colon];
      assert PayloadOf(s)[i - colon - 1] == s[i];
      assert PayloadOf(t) == PayloadOf(s)[i - colon - 1 := c];
      PayloadErrorRefused(s, t, i - colon - 1, c);
    } else {
      PayloadErrorRefused(s, t, i, c);
    }
  }

  /** A wrong character in the prefix passes the checksum exactly when its low five bits are right. */
  lemma PrefixError(s: text, i: nat, c: byte)
    requires CashDecoded(s).Ok? && i < Find(s, COLON) < |s| && c != COLON
    ensures CashDecoded(s[i := c]).Ok? <==> LowFive(ToLower(c)) == LowFive(ToLower(s[i]))
  {
    hide CashDecoded, ExpandPrefix, PrefixOf, Values, Lower, LowFive, ToLower, Checked, Fits, AllFit, Find, Bits, One, Code;
    var t, h, values := s[i := c], ExpandPrefix(PrefixOf(s)), Values(Lower(PayloadOf(s)));
    FindSkips(s, i, c);
    SamePayload(s, t);
    PrefixChange(s, i, c);
    PrefixValue(PrefixOf(s), i);
    AcceptedChecksum(s);
    LowFiveFits(ToLower(c));
    LowFiveFits(ToLower(s[i]));
    WrongPrefixValue(h, values, i, LowFive(ToLower(c)));
  }

  lemma PrefixValue(prefix: text, i: nat)
    requires i < |prefix|
    ensures i < |ExpandPrefix(prefix)| && ExpandPrefix(prefix)[i] == LowFive(prefix[i])
  {
  }

  lemma WrongPrefixValue(h: seq<byte>, x: seq<byte>, i: nat, v: byte)
    requires i < |h| && Fits(h[i], 5) && Fits(v, 5)
    ensures Checked(h[i := v] + x, CASHADDR_GENERATORS, 40) == Checked(h + x, CASHADDR_GENERATORS, 40) <==> v == h[i]
  {
    hide Checked, Fits, Bits, Code;
    CashAddrIsCode();
    assert (h + x)[i := v] == h[i := v] + x;
    SingleValueChange(h + x, i, v, CASHADDR_GENERATORS, 40);
  }

  lemma SamePayload(s: text, t: text)
    requires PayloadOf(t) == PayloadOf(s) && CashDecoded(s).Ok?
    ensures CashDecoded(t).Ok? <==> ChecksumHolds(PrefixOf(t), Values(Lower(PayloadOf(s))))
  {
    hide PrefixOf, PayloadOf, ChecksumHolds, OfValues, Values, Lower, AllFit, Fits;
    var values := Values(Lower(PayloadOf(s)));
    OnlyPrefix(PrefixOf(s), PrefixOf(t), values);
  }

  lemma PrefixChange(s: text, i: nat, c: byte)
    requires i < Find(s, COLON) < |s| && c != COLON
    ensures i < |PrefixOf(s)| && PrefixOf(s)[i] == ToLower(s[i])
    ensures PrefixOf(s[i := c]) == PrefixOf(s)[i := ToLower(c)]
    ensures ExpandPrefix(PrefixOf(s[i := c])) == ExpandPrefix(PrefixOf(s))[i := LowFive(ToLower(c))]
  {
    hide Find, ToLower, LowFive, Lower;
    var colon := Find(s, COLON);
    FindSkips(s, i, c);
    assert s[i := c][..colon] == s[..colon][i := c];
    LowerChange(s[..colon], i, c);
    ExpandChange(PrefixOf(s), i, ToLower(c));
  }

  lemma ExpandChange(prefix: text, i: nat, c: byte)
    requires i < |prefix|
    ensures ExpandPrefix(prefix[i := c]) == ExpandPrefix(prefix)[i := LowFive(c)]
  {
    hide LowFive;
  }

  lemma OnlyPrefix(p: text, q: text, values: seq<byte>)
    requires |values| >= 8
    ensures OfValues(p, values[..|values| - 8]).Ok? == OfValues(q, values[..|values| - 8]).Ok?
  {
    hide Converted, HashLength, CodeOf, KindOf;
  }
}
