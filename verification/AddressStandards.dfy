/** What the address decoders accept, in the terms of BIP 173, BIP 350 and the CashAddr specification. */
module AddressStandards {
  import opened AddressResult
  import opened AddressText
  import opened BitStrings
  import opened ConvertBits
  import Bech32
  import CashAddr
  import Polymod
  import opened PolymodReference
  import Segwit

  // ---------- bech32 and bech32m ----------

  /** The human-readable part goes in as its high three bits, a zero, and its low five bits. */
  lemma PrefixLayout(hrp: text, i: nat)
    requires i < |hrp|
    ensures var v := Bech32.HrpExpand(hrp);
      && |v| == 2 * |hrp| + 1 && v[|hrp|] == 0
      && v[i] < 8 && v[|hrp| + 1 + i] < 32 && hrp[i] == (v[i] << 5) | v[|hrp| + 1 + i]
  {
    var c := hrp[i];
    assert Bech32.HighPart(c) < 8 && Bech32.LowPart(c) < 32 && c == (Bech32.HighPart(c) << 5) | Bech32.LowPart(c);
  }

  function Bech32Constant(e: Bech32.encoding): (c: bv64)
  {
    if e == 0 then 1 else 0x2bc830a3
  }

  lemma ConstantIs(e: Bech32.encoding)
    ensures Bech32.ConstantOf(e) == Low(Bech32Constant(e), 30) && Bounded(Bip173, Bech32Constant(e))
  {
    hide Low, Bits;
    LowOne(30);
    ThirtyBits(0x2bc830a3);
  }

  /** The values after the prefix and the separator. */
  function Tail(hrp: text, s: text): (values: seq<byte>)
    requires |hrp| < |s|
  {
    Values(Lower(s)[|hrp| + 1..])
  }

  predicate Shaped(hrp: text, s: text)
  {
    && !MixedCase(s) && hrp != [] && |s| >= |hrp| + 7
    && Lower(s)[..|hrp| + 1] == hrp + [0x31] && AllFit(Tail(hrp, s), 5)
  }

  lemma SeparatorHasNoValue()
    ensures !Fits(ValueOf(Bech32.SEPARATOR), 5)
  {
    assert ValueOf(Bech32.SEPARATOR) == NO_VALUE;
    ValueFits(Bech32.SEPARATOR);
  }

  lemma FoundAt(hrp: text, s: text)
    requires Shaped(hrp, s)
    ensures Bech32.RFind(Lower(s), Bech32.SEPARATOR) == |hrp| && Lower(s)[..|hrp|] == hrp
  {
    hide Lower, Fits, ValueOf, MixedCase, Bech32.RFind;
    var lower, tail := Lower(s), Tail(hrp, s);
    SeparatorHasNoValue();
    forall i | |hrp| < i < |s|
      ensures lower[i] != Bech32.SEPARATOR
    {
      assert tail[i - |hrp| - 1] == ValueOf(lower[i]);
    }
    assert lower[|hrp|] == lower[..|hrp| + 1][|hrp|] == 0x31;
    assert lower[..|hrp|] == lower[..|hrp| + 1][..|hrp|];
  }

  lemma ShapedWhenDecoded(hrp: text, s: text)
    requires Bech32.Decoded(hrp, s).Ok?
    ensures Shaped(hrp, s)
  {
    hide Lower, Fits, ValueOf, MixedCase, Bech32.RFind, Bech32.HrpExpand, Bech32.ConstantOf, Polymod.Checked;
    var lower := Lower(s);
    var pos := Bech32.RFind(lower, Bech32.SEPARATOR);
    assert lower[..pos + 1] == lower[..pos] + [lower[pos]];
  }

  /** The checksum of BIP 173 alone decides a text of the right shape. */
  lemma Bech32Accepts(hrp: text, s: text, e: Bech32.encoding, data: seq<byte>)
    ensures Bech32.Decoded(hrp, s) == Ok((e, data))
       <==> && Shaped(hrp, s) && data == Tail(hrp, s)[..|Tail(hrp, s)| - 6]
            && Reference(Bip173, Bech32.HrpExpand(hrp) + Tail(hrp, s)) == (if e == 0 then 1 else 0x2bc830a3)
  {
    hide Lower, Fits, AllFit, Shaped, Tail, MixedCase, Reference, Bech32.RFind, Bech32.HrpExpand, Bech32.ConstantOf, Polymod.Checked, Low, Bits;
    if Bech32.Decoded(hrp, s).Ok? {
      ShapedWhenDecoded(hrp, s);
    }
    if Shaped(hrp, s) {
      FoundAt(hrp, s);
      ShapeSays(hrp, s);
      ChecksumVerdict(hrp, Tail(hrp, s), 0);
      ChecksumVerdict(hrp, Tail(hrp, s), 1);
    }
  }

  lemma ShapeSays(hrp: text, s: text)
    requires Shaped(hrp, s)
    ensures !MixedCase(s) && hrp != [] && |s| >= |hrp| + 7 && AllFit(Tail(hrp, s), 5)
    ensures Tail(hrp, s) == Values(Lower(s)[|hrp| + 1..])
  {
  }

  lemma ChecksumVerdict(hrp: text, values: seq<byte>, e: Bech32.encoding)
    requires AllFit(values, 5)
    ensures var full := Bech32.HrpExpand(hrp) + values;
      Polymod.Checked(full, Polymod.BECH32_GENERATORS, 30) == Bech32.ConstantOf(e) <==> Reference(Bip173, full) == Bech32Constant(e)
  {
    hide Fits, Reference, Bech32.HrpExpand, Bech32.ConstantOf, Polymod.Checked, Low, Bits, Bounded;
    var full := Bech32.HrpExpand(hrp) + values;
    Bech32.ExpandFits(hrp);
    AllFitConcat(Bech32.HrpExpand(hrp), values);
    ConstantIs(e);
    ChecksumIs(Bip173, full, Bech32Constant(e));
    assert Register(Bip173, full) == Polymod.Checked(full, Polymod.BECH32_GENERATORS, 30);
  }

  /** A segwit address: version 0 under the constant 1, versions 1 to 16 under 0x2bc830a3, and a program of legal length. */
  lemma SegwitAccepts(hrp: text, s: text, info: Segwit.Info)
    ensures Segwit.SegwitDecoded(hrp, s) == Ok(info)
       <==> && Shaped(hrp, s)
            && var v := Tail(hrp, s);
               && |v| > 6 && v[0] == info.version && Converted(v[1..|v| - 6], 5, 8, false) == Ok(info.program)
               && info.version <= 16 && 2 <= |info.program| <= 40
               && (info.version == 0 ==> |info.program| == 20 || |info.program| == 32)
               && info.form == (if info.version == 0 then 0 else 1)
               && Reference(Bip173, Bech32.HrpExpand(hrp) + v) == (if info.version == 0 then 1 else 0x2bc830a3)
  {
    hide Shaped, Tail, Reference, Bech32.HrpExpand, Bech32.Decoded, Converted;
    if Shaped(hrp, s) {
      ShapeSays(hrp, s);
      var v := Tail(hrp, s);
      Bech32Accepts(hrp, s, info.form, v[..|v| - 6]);
      assert |v| > 6 ==> v[..|v| - 6][0] == v[0] && v[..|v| - 6][1..] == v[1..|v| - 6];
    }
    if Bech32.Decoded(hrp, s).Ok? {
      Bech32Accepts(hrp, s, Bech32.Decoded(hrp, s).value.0, Bech32.Decoded(hrp, s).value.1);
    }
  }

  // ---------- CashAddr ----------

  /** The prefix goes in as its low five bits and a zero. */
  lemma CashPrefixLayout(prefix: text, i: nat)
    requires i < |prefix|
    ensures var v := CashAddr.ExpandPrefix(prefix);
      |v| == |prefix| + 1 && v[|prefix|] == 0 && v[i] < 32 && prefix[i] == (prefix[i] & 0xe0) | v[i]
  {
    var c := prefix[i];
    assert CashAddr.LowFive(c) < 32 && c == (c & 0xe0) | CashAddr.LowFive(c);
  }

  /** A text without a colon is a payload under "bitcoincash"; otherwise the first colon ends the prefix. */
  lemma PrefixAndPayload(prefix: text, payload: text)
    requires CashAddr.COLON !in prefix
    ensures CashAddr.PrefixOf(prefix + [0x3a] + payload) == Lower(prefix) && CashAddr.PayloadOf(prefix + [0x3a] + payload) == payload
    ensures CashAddr.PayloadOf(prefix) == prefix
    ensures CashAddr.PrefixOf(prefix) == [0x62, 0x69, 0x74, 0x63, 0x6f, 0x69, 0x6e, 0x63, 0x61, 0x73, 0x68]
  {
    hide ToLower, CashAddr.Find;
    var s := prefix + [0x3a] + payload;
    CashAddr.FindIs(s, CashAddr.COLON, |prefix|);
    CashAddr.FindIs(prefix, CashAddr.COLON, |prefix|);
    assert s[..|prefix|] == prefix && s[|prefix| + 1..] == payload;
    DefaultIsLower();
  }

  lemma DefaultIsLower()
    ensures Lower(CashAddr.DEFAULT_PREFIX) == CashAddr.DEFAULT_PREFIX
  {
  }

  predicate LegalLength(code: byte, n: nat)
  {
    || (code == 0 && n == 20) || (code == 1 && n == 24) || (code == 2 && n == 28) || (code == 3 && n == 32)
    || (code == 4 && n == 40) || (code == 5 && n == 48) || (code == 6 && n == 56) || (code == 7 && n == 64)
  }

  lemma LegalIs(version: byte, kind: byte, n: nat)
    ensures CashAddr.KindOf(version) == kind && CashAddr.HashLength(CashAddr.CodeOf(version)) == n
       <==> version >> 3 == kind && LegalLength(version & 7, n)
  {
    CashAddr.CodeIsSmall(version);
  }

  /** A CashAddr text: the checksum of the specification, a version byte of kind and size, and a hash of that size. */
  lemma CashAccepts(s: text, info: CashAddr.CashInfo)
    ensures CashAddr.CashDecoded(s) == Ok(info)
       <==> && !MixedCase(CashAddr.PayloadOf(s)) && info.prefix == CashAddr.PrefixOf(s)
            && var v := Values(Lower(CashAddr.PayloadOf(s)));
               && AllFit(v, 5) && |v| >= 8 && Reference(CashAddress, CashAddr.ExpandPrefix(CashAddr.PrefixOf(s)) + v) == 1
               && var bytes := Converted(v[..|v| - 8], 5, 8, false);
                  && bytes.Ok? && bytes.value != [] && bytes.value[1..] == info.hash
                  && bytes.value[0] >> 3 == info.kind && LegalLength(bytes.value[0] & 7, |info.hash|)
  {
    hide MixedCase, Lower, Values, Fits, AllFit, Reference, Converted, LegalLength;
    hide CashAddr.PrefixOf, CashAddr.PayloadOf, CashAddr.ExpandPrefix, CashAddr.ChecksumHolds, CashAddr.KindOf, CashAddr.CodeOf, CashAddr.HashLength;
    var v := Values(Lower(CashAddr.PayloadOf(s)));
    if AllFit(v, 5) && |v| >= 8 {
      CashVerdict(CashAddr.PrefixOf(s), v);
      var bytes := Converted(v[..|v| - 8], 5, 8, false);
      if bytes.Ok? && bytes.value != [] {
        LegalIs(bytes.value[0], info.kind, |bytes.value| - 1);
      }
    }
  }

  lemma CashVerdict(prefix: text, values: seq<byte>)
    requires AllFit(values, 5)
    ensures CashAddr.ChecksumHolds(prefix, values) <==> Reference(CashAddress, CashAddr.ExpandPrefix(prefix) + values) == 1
  {
    hide Fits, Reference, CashAddr.ExpandPrefix, Polymod.Checked, Low, Bits, Bounded;
    var full := CashAddr.ExpandPrefix(prefix) + values;
    CashAddr.ExpandPrefixFits(prefix);
    AllFitConcat(CashAddr.ExpandPrefix(prefix), values);
    LowOne(40);
    BoundedWords(CashAddress);
    ChecksumIs(CashAddress, full, 1);
    assert Register(CashAddress, full) == Polymod.Checked(full, Polymod.CASHADDR_GENERATORS, 40);
  }

  // ---------- published checksums ----------

  lemma Steps(c: Standard, values: seq<byte>, v: byte, longer: seq<byte>)
    requires longer == values + [v]
    ensures Reference(c, []) == 1 && Reference(c, longer) == Next(c, Reference(c, values), v)
  {
    hide Next;
    assert longer[..|values|] == values;
  }

  /** "a12uel5l", the shortest valid string of BIP 173 */
  lemma ShortestBech32()
    ensures Reference(Bip173, [3, 0, 1, 10, 28, 25, 31, 20, 31]) == 1
  {
    hide Reference, Next;
    Steps(Bip173, [], 3, [3]);
    Steps(Bip173, [3], 0, [3, 0]);
    Steps(Bip173, [3, 0], 1, [3, 0, 1]);
    Steps(Bip173, [3, 0, 1], 10, [3, 0, 1, 10]);
    Steps(Bip173, [3, 0, 1, 10], 28, [3, 0, 1, 10, 28]);
    Steps(Bip173, [3, 0, 1, 10, 28], 25, [3, 0, 1, 10, 28, 25]);
    Steps(Bip173, [3, 0, 1, 10, 28, 25], 31, [3, 0, 1, 10, 28, 25, 31]);
    Steps(Bip173, [3, 0, 1, 10, 28, 25, 31], 20, [3, 0, 1, 10, 28, 25, 31, 20]);
    Steps(Bip173, [3, 0, 1, 10, 28, 25, 31, 20], 31, [3, 0, 1, 10, 28, 25, 31, 20, 31]);
    ShortestBech32States();
  }

  lemma ShortestBech32States()
    ensures Next(Bip173, 0x1, 3) == 0x23
    ensures Next(Bip173, 0x23, 0) == 0x460
    ensures Next(Bip173, 0x460, 1) == 0x8c01
    ensures Next(Bip173, 0x8c01, 10) == 0x11802a
    ensures Next(Bip173, 0x11802a, 28) == 0x230055c
    ensures Next(Bip173, 0x230055c, 25) == 0x3d6afc2b
    ensures Next(Bip173, 0x3d6afc2b, 31) == 0x2f84386
    ensures Next(Bip173, 0x2f84386, 20) == 0x24622766
    ensures Next(Bip173, 0x24622766, 31) == 0x1
  {
  }

  /** "a1lqfn3a", the shortest valid string of BIP 350 */
  lemma ShortestBech32m()
    ensures Reference(Bip173, [3, 0, 1, 31, 0, 9, 19, 17, 29]) == 0x2bc830a3
  {
    hide Reference, Next;
    Steps(Bip173, [], 3, [3]);
    Steps(Bip173, [3], 0, [3, 0]);
    Steps(Bip173, [3, 0], 1, [3, 0, 1]);
    Steps(Bip173, [3, 0, 1], 31, [3, 0, 1, 31]);
    Steps(Bip173, [3, 0, 1, 31], 0, [3, 0, 1, 31, 0]);
    Steps(Bip173, [3, 0, 1, 31, 0], 9, [3, 0, 1, 31, 0, 9]);
    Steps(Bip173, [3, 0, 1, 31, 0, 9], 19, [3, 0, 1, 31, 0, 9, 19]);
    Steps(Bip173, [3, 0, 1, 31, 0, 9, 19], 17, [3, 0, 1, 31, 0, 9, 19, 17]);
    Steps(Bip173, [3, 0, 1, 31, 0, 9, 19, 17], 29, [3, 0, 1, 31, 0, 9, 19, 17, 29]);
    ShortestBech32mStates();
  }

  lemma ShortestBech32mStates()
    ensures Next(Bip173, 0x1, 3) == 0x23
    ensures Next(Bip173, 0x23, 0) == 0x460
    ensures Next(Bip173, 0x460, 1) == 0x8c01
    ensures Next(Bip173, 0x8c01, 31) == 0x11803f
    ensures Next(Bip173, 0x11803f, 0) == 0x23007e0
    ensures Next(Bip173, 0x23007e0, 9) == 0x3d6aabbb
    ensures Next(Bip173, 0x3d6aabbb, 19) == 0x2f2b18a
    ensures Next(Bip173, 0x2f2b18a, 17) == 0x253c66e3
    ensures Next(Bip173, 0x253c66e3, 29) == 0x2bc830a3
  {
  }

  /** "p:gpf8m4h7", a valid string of the CashAddr specification */
  lemma ShortestCashAddr()
    ensures Reference(CashAddress, [16, 0, 8, 1, 9, 7, 27, 21, 23, 30]) == 1
  {
    hide Reference, Next;
    Steps(CashAddress, [], 16, [16]);
    Steps(CashAddress, [16], 0, [16, 0]);
    Steps(CashAddress, [16, 0], 8, [16, 0, 8]);
    Steps(CashAddress, [16, 0, 8], 1, [16, 0, 8, 1]);
    Steps(CashAddress, [16, 0, 8, 1], 9, [16, 0, 8, 1, 9]);
    Steps(CashAddress, [16, 0, 8, 1, 9], 7, [16, 0, 8, 1, 9, 7]);
    Steps(CashAddress, [16, 0, 8, 1, 9, 7], 27, [16, 0, 8, 1, 9, 7, 27]);
    Steps(CashAddress, [16, 0, 8, 1, 9, 7, 27], 21, [16, 0, 8, 1, 9, 7, 27, 21]);
    Steps(CashAddress, [16, 0, 8, 1, 9, 7, 27, 21], 23, [16, 0, 8, 1, 9, 7, 27, 21, 23]);
    Steps(CashAddress, [16, 0, 8, 1, 9, 7, 27, 21, 23], 30, [16, 0, 8, 1, 9, 7, 27, 21, 23, 30]);
    ShortestCashAddrStates();
  }

  lemma ShortestCashAddrStates()
    ensures Next(CashAddress, 0x1, 16) == 0x30
    ensures Next(CashAddress, 0x30, 0) == 0x600
    ensures Next(CashAddress, 0x600, 8) == 0xc008
    ensures Next(CashAddress, 0xc008, 1) == 0x180101
    ensures Next(CashAddress, 0x180101, 9) == 0x3002029
    ensures Next(CashAddress, 0x3002029, 7) == 0x60040527
    ensures Next(CashAddress, 0x60040527, 27) == 0xc0080a4fb
    ensures Next(CashAddress, 0xc0080a4fb, 21) == 0x18e2a81114
    ensures Next(CashAddress, 0x18e2a81114, 23) == 0xfd10d33514
    ensures Next(CashAddress, 0xfd10d33514, 30) == 0x1
  {
  }
}
