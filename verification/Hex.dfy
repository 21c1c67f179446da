/** from_hex and to_hex of merkle.cpp. */
module Hex {
  import opened LittleEndian

  datatype HexResult = Bytes(bytes: seq<octet>) | OddLength | BadHex

  const NOT_HEX: octet := 0xff

  function Nibble(c: char): (n: octet)
    ensures n < 16 || n == NOT_HEX
  {
    match c
    case '0' => 0 case '1' => 1 case '2' => 2 case '3' => 3 case '4' => 4 case '5' => 5 case '6' => 6 case '7' => 7
    case '8' => 8 case '9' => 9 case 'a' => 10 case 'b' => 11 case 'c' => 12 case 'd' => 13 case 'e' => 14 case 'f' => 15
    case 'A' => 10 case 'B' => 11 case 'C' => 12 case 'D' => 13 case 'E' => 14 case 'F' => 15
    case _ => NOT_HEX
  }

  function Digit(n: octet): (c: char)
  {
    match n
    case 0 => '0' case 1 => '1' case 2 => '2' case 3 => '3' case 4 => '4' case 5 => '5' case 6 => '6' case 7 => '7'
    case 8 => '8' case 9 => '9' case 10 => 'a' case 11 => 'b' case 12 => 'c' case 13 => 'd' case 14 => 'e' case _ => 'f'
  }

  function Join(hi: octet, lo: octet): octet
    requires hi < 16 && lo < 16
  {
    16 * hi + lo
  }

  function High(b: octet): (n: octet)
    ensures n < 16
  {
    b / 16
  }

  function Low(b: octet): (n: octet)
    ensures n < 16
  {
    b % 16
  }

  lemma NibblesOfByte(b: octet)
    ensures Join(High(b), Low(b)) == b
  {
  }

  lemma NibbleOfDigit(n: octet)
    requires n < 16
    ensures Nibble(Digit(n)) == n
  {
  }

  function ToHex(bytes: seq<octet>): (s: string)
    ensures |s| == 2 * |bytes|
  {
    if bytes == [] then []
    else ToHex(bytes[..|bytes| - 1]) + [Digit(High(bytes[|bytes| - 1])), Digit(Low(bytes[|bytes| - 1]))]
  }

  predicate AllHex(s: string)
  {
    forall i | 0 <= i < |s| :: Nibble(s[i]) != NOT_HEX
  }

  function Pairs(s: string): (bytes: seq<octet>)
    requires |s| % 2 == 0 && AllHex(s)
    ensures 2 * |bytes| == |s|
  {
    if s == [] then [] else Pairs(s[..|s| - 2]) + [Join(Nibble(s[|s| - 2]), Nibble(s[|s| - 1]))]
  }

  function HexDecoded(s: string): (r: HexResult)
  {
    if |s| % 2 != 0 then OddLength else if !AllHex(s) then BadHex else Bytes(Pairs(s))
  }

  method FromHex(s: string) returns (r: HexResult)
    ensures r == HexDecoded(s)
  {
    hide Nibble, Join;
    if |s| % 2 != 0 {
      return OddLength;
    }
    var out := [];
    var i := 0;
    while i < |s|
      invariant 0 <= i <= |s| && i % 2 == 0 && AllHex(s[..i]) && out == Pairs(s[..i])
    {
      var hi, lo := Nibble(s[i]), Nibble(s[i + 1]);
      if hi == NOT_HEX || lo == NOT_HEX {
        return BadHex;
      }
      assert s[..i + 2][..i] == s[..i];
      out := out + [Join(hi, lo)];
      i := i + 2;
    }
    assert s[..|s|] == s;
    return Bytes(out);
  }

  /** Hex text reads back as the bytes it was written from. */
  lemma {:induction false} HexRoundTrip(bytes: seq<octet>)
    ensures HexDecoded(ToHex(bytes)) == Bytes(bytes)
  {
    hide Nibble, Digit, Join, High, Low;
    if bytes != [] {
      var m := |bytes| - 1;
      var b, s := bytes[m], ToHex(bytes);
      HexRoundTrip(bytes[..m]);
      NibblesOfByte(b);
      NibbleOfDigit(High(b));
      NibbleOfDigit(Low(b));
      SmallIsHex(High(b));
      SmallIsHex(Low(b));
      assert s[..|s| - 2] == ToHex(bytes[..m]);
      assert bytes == bytes[..m] + [b];
    }
  }

  /** The digits are the usual ones, in either case, and the first of two is worth sixteen. */
  lemma UsualDigits(c: char, hi: octet, lo: octet)
    requires hi < 16 && lo < 16
    ensures '0' <= c <= '9' ==> Nibble(c) == c as int - '0' as int
    ensures 'a' <= c <= 'f' ==> Nibble(c) == 10 + c as int - 'a' as int
    ensures 'A' <= c <= 'F' ==> Nibble(c) == 10 + c as int - 'A' as int
    ensures !('0' <= c <= '9' || 'a' <= c <= 'f' || 'A' <= c <= 'F') ==> Nibble(c) == NOT_HEX
    ensures Digit(lo) as int == if lo < 10 then '0' as int + lo else 'a' as int + lo - 10
    ensures ToHex([16 * hi + lo]) == [Digit(hi), Digit(lo)]
  {
    hide Nibble, Digit;
    CharOfDigit(lo);
    NibbleOfChar(c);
    var b: seq<octet> := [16 * hi + lo];
    assert b[..0] == [] && ToHex([]) == [];
  }

  lemma CharOfDigit(n: octet)
    requires n < 16
    ensures Digit(n) as int == if n < 10 then '0' as int + n else 'a' as int + n - 10
  {
  }

  lemma NibbleOfChar(c: char)
    ensures '0' <= c <= '9' ==> Nibble(c) == c as int - '0' as int
    ensures 'a' <= c <= 'f' ==> Nibble(c) == 10 + c as int - 'a' as int
    ensures 'A' <= c <= 'F' ==> Nibble(c) == 10 + c as int - 'A' as int
    ensures !('0' <= c <= '9' || 'a' <= c <= 'f' || 'A' <= c <= 'F') ==> Nibble(c) == NOT_HEX
  {
  }

  lemma SmallIsHex(n: octet)
    requires n < 16
    ensures n != NOT_HEX
  {
  }
}
