/** Text as bytes, letter case, and the 32-character set that bech32 and CashAddr share. */
module AddressText {
  import opened BitStrings
  import opened ConvertBits

  type text = seq<byte>

  // ---------- letter case ----------

  predicate IsUpper(c: byte)
  {
    0x41 <= c <= 0x5a
  }

  predicate IsLower(c: byte)
  {
    0x61 <= c <= 0x7a
  }

  predicate HasUpper(s: text)
  {
    exists i | 0 <= i < |s| :: IsUpper(s[i])
  }

  predicate HasLower(s: text)
  {
    exists i | 0 <= i < |s| :: IsLower(s[i])
  }

  predicate MixedCase(s: text)
  {
    HasUpper(s) && HasLower(s)
  }

  /** tolower of one byte in the C locale */
  function ToLower(c: byte): (r: byte)
    ensures !IsUpper(r)
  {
    if IsUpper(c) then c + 0x20 else c
  }

  function Lower(s: text): (t: text)
    ensures |t| == |s| && forall i | 0 <= i < |s| :: t[i] == ToLower(s[i])
  {
    seq(|s|, i requires 0 <= i < |s| => ToLower(s[i]))
  }

  method ScanCase(s: text) returns (mixed: bool)
    ensures mixed == MixedCase(s)
  {
    hide IsUpper, IsLower;
    var hasUpper, hasLower := false, false;
    for i := 0 to |s|
      invariant hasUpper == HasUpper(s[..i]) && hasLower == HasLower(s[..i])
    {
      CaseSnoc(s, i);
      CaseExclusive(s[i]);
      if IsUpper(s[i]) {
        hasUpper := true;
      } else if IsLower(s[i]) {
        hasLower := true;
      }
    }
    assert s[..|s|] == s;
    mixed := hasUpper && hasLower;
  }

  lemma CaseExclusive(c: byte)
    ensures !(IsUpper(c) && IsLower(c))
  {
  }

  lemma CaseSnoc(s: text, i: nat)
    requires i < |s|
    ensures HasUpper(s[..i + 1]) == (HasUpper(s[..i]) || IsUpper(s[i]))
    ensures HasLower(s[..i + 1]) == (HasLower(s[..i]) || IsLower(s[i]))
  {
    hide IsUpper, IsLower;
    var t := s[..i + 1];
    assert t[i] == s[i] && forall j | 0 <= j < i :: t[j] == s[..i][j];
    if j :| 0 <= j < i && IsUpper(s[..i][j]) {
      assert IsUpper(t[j]);
    }
    if j :| 0 <= j < i && IsLower(s[..i][j]) {
      assert IsLower(t[j]);
    }
  }

  // ---------- the character set "qpzry9x8gf2tvdw0s3jn54khce6mua7l" ----------

  const NO_VALUE: byte := 0xff

  /** The position of a character in the set, or NO_VALUE. */
  function ValueOf(c: byte): (v: byte)
  {
    match c
    case 0x71 => 0 case 0x70 => 1 case 0x7a => 2 case 0x72 => 3 case 0x79 => 4 case 0x39 => 5 case 0x78 => 6 case 0x38 => 7
    case 0x67 => 8 case 0x66 => 9 case 0x32 => 10 case 0x74 => 11 case 0x76 => 12 case 0x64 => 13 case 0x77 => 14 case 0x30 => 15
    case 0x73 => 16 case 0x33 => 17 case 0x6a => 18 case 0x6e => 19 case 0x35 => 20 case 0x34 => 21 case 0x6b => 22 case 0x68 => 23
    case 0x63 => 24 case 0x65 => 25 case 0x36 => 26 case 0x6d => 27 case 0x75 => 28 case 0x61 => 29 case 0x37 => 30 case 0x6c => 31
    case _ => NO_VALUE
  }

  /** The character of a value below 32. */
  function CharOf(v: byte): (c: byte)
  {
    match v
    case 0 => 0x71 case 1 => 0x70 case 2 => 0x7a case 3 => 0x72 case 4 => 0x79 case 5 => 0x39 case 6 => 0x78 case 7 => 0x38
    case 8 => 0x67 case 9 => 0x66 case 10 => 0x32 case 11 => 0x74 case 12 => 0x76 case 13 => 0x64 case 14 => 0x77 case 15 => 0x30
    case 16 => 0x73 case 17 => 0x33 case 18 => 0x6a case 19 => 0x6e case 20 => 0x35 case 21 => 0x34 case 22 => 0x6b case 23 => 0x68
    case 24 => 0x63 case 25 => 0x65 case 26 => 0x36 case 27 => 0x6d case 28 => 0x75 case 29 => 0x61 case 30 => 0x37 case _ => 0x6c
  }

  lemma FirstEight()
    ensures [CharOf(0) as char, CharOf(1) as char, CharOf(2) as char, CharOf(3) as char, CharOf(4) as char, CharOf(5) as char, CharOf(6) as char, CharOf(7) as char] == "qpzry9x8"
  {
  }

  lemma SecondEight()
    ensures [CharOf(8) as char, CharOf(9) as char, CharOf(10) as char, CharOf(11) as char, CharOf(12) as char, CharOf(13) as char, CharOf(14) as char, CharOf(15) as char] == "gf2tvdw0"
  {
  }

  lemma ThirdEight()
    ensures [CharOf(16) as char, CharOf(17) as char, CharOf(18) as char, CharOf(19) as char, CharOf(20) as char, CharOf(21) as char, CharOf(22) as char, CharOf(23) as char] == "s3jn54kh"
  {
  }

  lemma LastEight()
    ensures [CharOf(24) as char, CharOf(25) as char, CharOf(26) as char, CharOf(27) as char, CharOf(28) as char, CharOf(29) as char, CharOf(30) as char, CharOf(31) as char] == "ce6mua7l"
  {
  }

  /** The character set, written out. */
  lemma CharacterSet()
    ensures [CharOf(0) as char, CharOf(1) as char, CharOf(2) as char, CharOf(3) as char, CharOf(4) as char, CharOf(5) as char, CharOf(6) as char, CharOf(7) as char] == "qpzry9x8"
    ensures [CharOf(8) as char, CharOf(9) as char, CharOf(10) as char, CharOf(11) as char, CharOf(12) as char, CharOf(13) as char, CharOf(14) as char, CharOf(15) as char] == "gf2tvdw0"
    ensures [CharOf(16) as char, CharOf(17) as char, CharOf(18) as char, CharOf(19) as char, CharOf(20) as char, CharOf(21) as char, CharOf(22) as char, CharOf(23) as char] == "s3jn54kh"
    ensures [CharOf(24) as char, CharOf(25) as char, CharOf(26) as char, CharOf(27) as char, CharOf(28) as char, CharOf(29) as char, CharOf(30) as char, CharOf(31) as char] == "ce6mua7l"
  {
    hide CharOf;
    FirstEight();
    SecondEight();
    ThirdEight();
    LastEight();
  }

  lemma LowCharOf(v: byte)
    requires v < 16
    ensures ValueOf(CharOf(v)) == v && !IsUpper(CharOf(v))
  {
    match v
    case 0 => case 1 => case 2 => case 3 => case 4 => case 5 => case 6 => case 7 =>
    case 8 => case 9 => case 10 => case 11 => case 12 => case 13 => case 14 => case _ =>
  }

  lemma ThirdCharOf(v: byte)
    requires 16 <= v < 24
    ensures ValueOf(CharOf(v)) == v && !IsUpper(CharOf(v))
  {
    match v
    case 16 => case 17 => case 18 => case 19 => case 20 => case 21 => case 22 => case _ =>
  }

  lemma LastCharOf(v: byte)
    requires 24 <= v < 32
    ensures ValueOf(CharOf(v)) == v && !IsUpper(CharOf(v))
  {
    match v
    case 24 => case 25 => case 26 => case 27 => case 28 => case 29 => case 30 => case _ =>
  }

  lemma ValueOfCharOf(v: byte)
    requires v < 32
    ensures ValueOf(CharOf(v)) == v && !IsUpper(CharOf(v))
  {
    if v < 16 {
      LowCharOf(v);
    } else if v < 24 {
      ThirdCharOf(v);
    } else {
      LastCharOf(v);
    }
  }

  lemma LowValueOf(c: byte)
    ensures ValueOf(c) < 16 ==> CharOf(ValueOf(c)) == c
  {
  }

  lemma ThirdValueOf(c: byte)
    ensures 16 <= ValueOf(c) < 24 ==> CharOf(ValueOf(c)) == c
  {
  }

  lemma LastValueOf(c: byte)
    ensures 24 <= ValueOf(c) < 32 ==> CharOf(ValueOf(c)) == c
  {
  }

  lemma ValueOrNone(c: byte)
    ensures ValueOf(c) < 32 || ValueOf(c) == NO_VALUE
  {
  }

  lemma CharOfValueOf(c: byte)
    requires ValueOf(c) != NO_VALUE
    ensures ValueOf(c) < 32 && CharOf(ValueOf(c)) == c
  {
    hide ValueOf, CharOf;
    LowValueOf(c);
    ThirdValueOf(c);
    LastValueOf(c);
    ValueOrNone(c);
  }

  lemma FiveBits(v: byte)
    ensures Fits(v, 5) <==> v < 32
    ensures v == NO_VALUE ==> !(v < 32)
  {
    var b := BitsOf(v);
    assert b[..3] == [b[0], b[1], b[2]] && Zeros(3) == [false, false, false];
  }

  function Values(s: text): (vs: seq<byte>)
    ensures |vs| == |s| && forall i | 0 <= i < |s| :: vs[i] == ValueOf(s[i])
  {
    seq(|s|, i requires 0 <= i < |s| => ValueOf(s[i]))
  }

  function Chars(vs: seq<byte>): (s: text)
    ensures |s| == |vs| && forall i | 0 <= i < |vs| :: s[i] == CharOf(vs[i])
  {
    seq(|vs|, i requires 0 <= i < |vs| => CharOf(vs[i]))
  }

  lemma ValueFits(c: byte)
    ensures Fits(ValueOf(c), 5) <==> ValueOf(c) != NO_VALUE
  {
    hide ValueOf, Fits;
    FiveBits(ValueOf(c));
    if ValueOf(c) != NO_VALUE {
      CharOfValueOf(c);
    }
  }

  /** Text over the set and values below 32 are the same thing. */
  lemma CharsAndValues(s: text, vs: seq<byte>)
    ensures AllFit(Values(s), 5) && Values(s) == vs <==> AllFit(vs, 5) && s == Chars(vs)
  {
    hide ValueOf, CharOf, Fits;
    if AllFit(Values(s), 5) && Values(s) == vs {
      forall i | 0 <= i < |s|
        ensures s[i] == CharOf(vs[i])
      {
        ValueFits(s[i]);
        CharOfValueOf(s[i]);
      }
    }
    if AllFit(vs, 5) && s == Chars(vs) {
      forall i | 0 <= i < |vs|
        ensures Values(s)[i] == vs[i]
      {
        FiveBits(vs[i]);
        ValueOfCharOf(vs[i]);
      }
    }
  }

  /** The values of a text, or ok == false at the first character outside the set. */
  method ReadValues(s: text) returns (ok: bool, vs: seq<byte>)
    ensures ok == AllFit(Values(s), 5)
    ensures ok ==> vs == Values(s)
  {
    hide ValueOf, Fits;
    vs := [];
    for i := 0 to |s|
      invariant AllFit(Values(s)[..i], 5) && vs == Values(s)[..i]
    {
      ValueFits(s[i]);
      var v := ValueOf(s[i]);
      if v == NO_VALUE {
        assert Values(s)[i] == v;
        return false, vs;
      }
      vs := vs + [v];
    }
    ok := true;
  }

  lemma AllFitConcat(a: seq<byte>, b: seq<byte>)
    ensures AllFit(a + b, 5) <==> AllFit(a, 5) && AllFit(b, 5)
  {
    hide Fits;
    var c := a + b;
    assert forall i | 0 <= i < |a| :: a[i] == c[i];
    assert forall i | 0 <= i < |b| :: b[i] == c[|a| + i];
  }

  lemma LowerChange(s: text, i: nat, c: byte)
    requires i < |s|
    ensures Lower(s[i := c]) == Lower(s)[i := ToLower(c)]
  {
  }
}
