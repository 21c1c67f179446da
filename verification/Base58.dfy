/** base58_decode of address.cpp: big-number conversion in a fixed-size base-256 accumulator. */
module Base58 {
  import opened AddressResult
  import opened LittleEndian
  import opened Numerals

  /** The digit of a character: the alphabet leaves out '0', 'I', 'O' and 'l'. */
  function DigitOf(c: char): (d: int)
    ensures -1 <= d < 58
    ensures d >= 0 ==> CharOf(d) == c
  {
    if '1' <= c <= '9' then c as int - '1' as int
    else if 'A' <= c <= 'H' then c as int - 'A' as int + 9
    else if 'J' <= c <= 'N' then c as int - 'J' as int + 17
    else if 'P' <= c <= 'Z' then c as int - 'P' as int + 22
    else if 'a' <= c <= 'k' then c as int - 'a' as int + 33
    else if 'm' <= c <= 'z' then c as int - 'm' as int + 44
    else -1
  }

  /** The alphabet "123456789ABCDEFGHJKLMNPQRSTUVWXYZabcdefghijkmnopqrstuvwxyz" by position. */
  function CharOf(d: nat): (c: char)
    requires d < 58
  {
    if d < 9 then ('1' as int + d) as char
    else if d < 17 then ('A' as int + d - 9) as char
    else if d < 22 then ('J' as int + d - 17) as char
    else if d < 33 then ('P' as int + d - 22) as char
    else if d < 44 then ('a' as int + d - 33) as char
    else ('m' as int + d - 44) as char
  }

  /** The alphabet, written out. */
  lemma Alphabet()
    ensures [
       CharOf(0), CharOf(1), CharOf(2), CharOf(3), CharOf(4), CharOf(5), CharOf(6), CharOf(7), CharOf(8), CharOf(9),
       CharOf(10), CharOf(11), CharOf(12), CharOf(13), CharOf(14), CharOf(15), CharOf(16), CharOf(17), CharOf(18), CharOf(19),
       CharOf(20), CharOf(21), CharOf(22), CharOf(23), CharOf(24), CharOf(25), CharOf(26), CharOf(27), CharOf(28), CharOf(29),
       CharOf(30), CharOf(31), CharOf(32), CharOf(33), CharOf(34), CharOf(35), CharOf(36), CharOf(37), CharOf(38), CharOf(39),
       CharOf(40), CharOf(41), CharOf(42), CharOf(43), CharOf(44), CharOf(45), CharOf(46), CharOf(47), CharOf(48), CharOf(49),
       CharOf(50), CharOf(51), CharOf(52), CharOf(53), CharOf(54), CharOf(55), CharOf(56), CharOf(57)]
      == "123456789ABCDEFGHJKLMNPQRSTUVWXYZabcdefghijkmnopqrstuvwxyz"
  {
  }

  /** Two characters worth 1 and 39 spell the byte 58 + 39, and each leading '1' is a zero byte. */
  lemma KnownText()
    ensures ValidChars("112g") && Decoded("112g") == [0, 0, 97]
  {
    hide Power;
    var s := "112g";
    assert DigitOf('1') == 0 && DigitOf('2') == 1 && DigitOf('g') == 39;
    assert s[1..] == "12g" && "12g"[1..] == "2g";
    assert LeadingOnes("2g") == 0 && LeadingOnes("12g") == 1 && LeadingOnes(s) == 2;
    var d := DigitsOf(s);
    assert d == [0, 0, 1, 39];
    assert d[..3] == [0, 0, 1] && d[..3][..2] == [0, 0] && [0, 0][..1] == [0] && [0][..0] == [];
    assert Value([0], 58) == 0 && Value([0, 0], 58) == 0 && Value([0, 0, 1], 58) == 1 && Value(d, 58) == 97;
    assert Digits(97, 256) == Digits(0, 256) + [97] && Digits(0, 256) == [];
  }

  lemma DigitOfCharOf(d: nat)
    requires d < 58
    ensures DigitOf(CharOf(d)) == d
  {
  }

  predicate ValidChars(s: string)
  {
    forall i | 0 <= i < |s| :: DigitOf(s[i]) >= 0
  }

  function LeadingOnes(s: string): (n: nat)
    ensures n <= |s|
    ensures forall i | 0 <= i < n :: s[i] == '1'
    ensures n < |s| ==> s[n] != '1'
  {
    if s == [] || s[0] != '1' then 0 else 1 + LeadingOnes(s[1..])
  }

  function DigitsOf(s: string): (d: seq<nat>)
    requires ValidChars(s)
    ensures |d| == |s| && forall i | 0 <= i < |s| :: d[i] == DigitOf(s[i]) < 58
  {
    seq(|s|, i requires 0 <= i < |s| => DigitOf(s[i]))
  }

  /** What a string decodes to: one zero byte per leading '1', then the shortest base-256 form of its value. */
  function Decoded(s: string): (bytes: seq<nat>)
    requires ValidChars(s)
  {
    Zeros(LeadingOnes(s)) + Digits(Value(DigitsOf(s), 58), 256)
  }

  // ---------- the accumulator is large enough ----------

  function AccumulatorSize(n: nat): nat { n * 733 / 1000 + 1 }

  /** 58^22 < 2^129, and 129/22 is below 8 * 733/1000. */
  lemma Certificate()
    ensures Power(58, 22) < Power(2, 129)
  {
    hide Power;
    Power58();
    Power2();
  }

  lemma FirstPower(b: nat)
    ensures Power(b, 1) == b
  {
    assert Power(b, 0) == 1;
  }

  lemma Power58()
    ensures Power(58, 22) == 624332378391008467754527498760580235264
  {
    hide Power;
    FirstPower(58);
    PowerAdd(58, 1, 1);
    PowerAdd(58, 2, 2);
    PowerAdd(58, 1, 4);
    PowerAdd(58, 5, 5);
    PowerAdd(58, 1, 10);
    PowerAdd(58, 11, 11);
  }

  lemma Power2()
    ensures Power(2, 129) == 680564733841876926926749214863536422912
  {
    hide Power;
    FirstPower(2);
    PowerAdd(2, 1, 1);
    PowerAdd(2, 2, 2);
    PowerAdd(2, 4, 4);
    PowerAdd(2, 8, 8);
    PowerAdd(2, 16, 16);
    PowerAdd(2, 32, 32);
    PowerAdd(2, 64, 64);
    PowerAdd(2, 1, 128);
  }

  lemma RootLess(x: nat, y: nat, n: nat)
    requires Power(x, n) < Power(y, n)
    ensures x < y
  {
    if y <= x {
      PowerMonotone(y, x, n);
    }
  }

  lemma CompareByRoots(n: nat, f: nat, a: nat, b: nat)
    requires Power(58, a) <= Power(2, b) && b * n < 8 * (f * a)
    ensures Power(58, n) < Power(Power(2, 8), f)
  {
    PowerMonotone(Power(58, a), Power(2, b), n);
    PowerPower(58, a, n);
    PowerPower(58, n, a);
    PowerPower(2, b, n);
    PowerGrows(b * n, 8 * (f * a));
    PowerPower(2, 8, f * a);
    PowerPower(Power(2, 8), f, a);
    assert a * n == n * a;
    RootLess(Power(58, n), Power(Power(2, 8), f), a);
  }

  /** No base-58 number of n digits overflows floor(733n/1000) + 1 bytes. */
  lemma Roomy(n: nat)
    ensures Power(58, n) < Power(256, AccumulatorSize(n))
  {
    hide Power;
    Certificate();
    TwoFiftySix();
    CompareByRoots(n, AccumulatorSize(n), 22, 129);
  }

  lemma TwoFiftySix()
    ensures Power(2, 8) == 256
  {
    PowerAdd(2, 4, 4);
    assert Power(2, 4) == 16;
  }

  // ---------- base58_decode ----------

  /** b after the carry has passed bytes k and above of old, multiplied by 58: the suffix and the carry hold the sum. */
  ghost predicate Carried(old_: seq<nat>, b: seq<nat>, k: nat, digit: nat, carry: nat)
    requires k <= |b| == |old_|
  {
    && b[..k] == old_[..k]
    && Value(b[k..], 256) + carry * Power(256, |b| - k) == 58 * Value(old_[k..], 256) + digit
  }

  lemma CarryStep(old_: seq<nat>, b: seq<nat>, k: nat, digit: nat, carry: nat)
    requires 0 < k <= |b| == |old_| && Carried(old_, b, k, digit, carry)
    ensures var sum := carry + 58 * b[k - 1];
            Carried(old_, b[k - 1 := sum % 256], k - 1, digit, sum / 256)
  {
    var x := old_[k - 1];
    var sum := carry + 58 * x;
    var b' := b[k - 1 := sum % 256];
    var p := Power(256, |b| - k);
    assert b[k - 1] == b[..k][k - 1] == x;
    assert b'[k - 1..] == [sum % 256] + b[k..] && old_[k - 1..] == [x] + old_[k..];
    assert b'[..k - 1] == b[..k][..k - 1] == old_[..k - 1];
    ValueConcat([sum % 256], b[k..], 256);
    ValueConcat([x], old_[k..], 256);
    SingleDigit(sum % 256);
    SingleDigit(x);
    CarryArithmetic(sum % 256, sum / 256, carry, x, p, Value(b[k..], 256), Value(old_[k..], 256), digit);
  }

  lemma SingleDigit(x: nat)
    ensures Value([x], 256) == x
  {
    assert [x][..0] == [];
  }

  lemma CarryArithmetic(low: nat, high: nat, carry: nat, x: nat, p: nat, v: nat, w: nat, digit: nat)
    requires low + 256 * high == carry + 58 * x && v + carry * p == 58 * w + digit
    ensures low * p + v + high * (256 * p) == 58 * (x * p + w) + digit
  {
    assert (low + 256 * high) * p == (carry + 58 * x) * p;
    assert (low + 256 * high) * p == low * p + high * (256 * p);
    assert (carry + 58 * x) * p == carry * p + 58 * (x * p);
  }

  /** One pass of the carry through the accumulator, least significant byte first. */
  method MultiplyAdd(b256: array<octet>, digit: nat) returns (carry: nat)
    modifies b256
    ensures Value(b256[..], 256) + carry * Power(256, b256.Length) == 58 * Value(old(b256[..]), 256) + digit
  {
    carry := digit;
    ghost var before := b256[..];
    var k := b256.Length;
    assert Carried(before, b256[..], k, digit, carry);
    while k > 0
      invariant 0 <= k <= b256.Length && Carried(before, b256[..], k, digit, carry)
    {
      CarryStep(before, b256[..], k, digit, carry);
      k := k - 1;
      ghost var b: seq<nat> := b256[..];
      var byteValue: nat := b256[k];
      carry := carry + 58 * byteValue;
      b256[k] := carry % 256;
      assert b256[..] == b[k := carry % 256];
      carry := carry / 256;
    }
    assert b256[..][0..] == b256[..] && before[0..] == before;
  }

  lemma PrefixValue(s: string, i: nat)
    requires i < |s| && ValidChars(s[..i + 1])
    ensures ValidChars(s[..i])
    ensures Value(DigitsOf(s[..i + 1]), 58) == 58 * Value(DigitsOf(s[..i]), 58) + DigitOf(s[i])
  {
    assert s[..i + 1][i] == s[i];
    assert forall j | 0 <= j < i :: s[..i][j] == s[..i + 1][j];
    assert DigitsOf(s[..i + 1]) == DigitsOf(s[..i]) + [DigitOf(s[i])];
    ValueSnoc(DigitsOf(s[..i]), DigitOf(s[i]), 58);
  }

  /** The final carry is zero: the value fits. */
  lemma NoCarry(s: string, i: nat, v: nat, carry: nat)
    requires i < |s| && ValidChars(s[..i + 1])
    requires v + carry * Power(256, AccumulatorSize(|s|)) == Value(DigitsOf(s[..i + 1]), 58)
    ensures carry == 0
  {
    var d := DigitsOf(s[..i + 1]);
    ValueBound(d, 58);
    PowerAdd(58, i + 1, |s| - i - 1);
    PowerPositive(58, |s| - i - 1);
    ProductMonotone(Power(58, i + 1), 1, Power(58, i + 1), Power(58, |s| - i - 1));
    Roomy(|s|);
    MultipleIsFar(carry, Power(256, AccumulatorSize(|s|)));
  }

  /** Leading '1's are zero digits, so the zeroed accumulator is right for them. */
  lemma StartValue(s: string, zeros: nat, b: seq<nat>)
    requires zeros <= |s| && (forall j | 0 <= j < zeros :: s[j] == '1') && forall j | 0 <= j < |b| :: b[j] == 0
    ensures ValidChars(s[..zeros]) && Value(b, 256) == Value(DigitsOf(s[..zeros]), 58)
  {
    assert DigitsOf(s[..zeros]) == Zeros(zeros) && b == Zeros(|b|);
    ValueOfZeros(zeros, 58);
    ValueOfZeros(|b|, 256);
  }

  /** All valid strings decode; the only failure is a character outside the alphabet. */
  method Base58Decode(s: string) returns (r: Result<seq<nat>>)
    ensures r == if ValidChars(s) then Ok(Decoded(s)) else Err(BadCharacter)
  {
    hide DigitOf, Decoded, Power, Value;
    var zeros := 0;
    while zeros < |s| && s[zeros] == '1'
      invariant zeros <= |s| && forall j | 0 <= j < zeros :: s[j] == '1'
    {
      zeros := zeros + 1;
    }
    var b256 := new octet[AccumulatorSize(|s|)](_ => 0);
    StartValue(s, zeros, b256[..]);
    for i := zeros to |s|
      invariant ValidChars(s[..i]) && Value(b256[..], 256) == Value(DigitsOf(s[..i]), 58)
    {
      var d := DigitOf(s[i]);
      if d < 0 {
        return Err(BadCharacter);
      }
      PrefixValue(s, i);
      var carry := MultiplyAdd(b256, d);
      NoCarry(s, i, Value(b256[..], 256), carry);
      if carry != 0 {
        assert false;
        return Err(BadLength);
      }
    }
    var first := 0;
    while first < b256.Length && b256[first] == 0
      invariant first <= b256.Length && forall j | 0 <= j < first :: b256[j] == 0
    {
      first := first + 1;
    }
    assert s[..|s|] == s;
    DecodedIs(s, zeros, b256[..]);
    StripZeros(b256[..], first);
    r := Ok(Zeros(zeros) + b256[first..]);
  }

  lemma DecodedIs(s: string, zeros: nat, b: seq<nat>)
    requires ValidChars(s) && zeros <= |s| && (forall j | 0 <= j < zeros :: s[j] == '1')
    requires zeros < |s| ==> s[zeros] != '1'
    requires Value(b, 256) == Value(DigitsOf(s), 58)
    ensures Decoded(s) == Zeros(zeros) + Digits(Value(b, 256), 256)
  {
    CountOnes(s, zeros);
  }

  lemma StripZeros(b: seq<nat>, first: nat)
    requires first <= |b| && (forall j | 0 <= j < |b| :: b[j] < 256) && (forall j | 0 <= j < first :: b[j] == 0)
    requires first < |b| ==> b[first] != 0
    ensures b[first..] == Digits(Value(b, 256), 256)
  {
    assert b == Zeros(first) + b[first..];
    LeadingZeros(first, b[first..], 256);
    DigitsOfValue(b[first..], 256);
  }

  // ---------- the inverse ----------

  function LeadingZeroBytes(bytes: seq<nat>): (n: nat)
    ensures n <= |bytes|
    ensures forall i | 0 <= i < n :: bytes[i] == 0
    ensures n < |bytes| ==> bytes[n] != 0
  {
    if bytes == [] || bytes[0] != 0 then 0 else 1 + LeadingZeroBytes(bytes[1..])
  }

  function Chars(d: seq<nat>): (s: string)
    requires forall i | 0 <= i < |d| :: d[i] < 58
    ensures |s| == |d| && forall i | 0 <= i < |d| :: s[i] == CharOf(d[i])
  {
    seq(|d|, i requires 0 <= i < |d| => CharOf(d[i]))
  }

  /** The base-58 form of a byte string. */
  function Encoded(bytes: seq<nat>): (s: string)
  {
    Chars(Zeros(LeadingZeroBytes(bytes)) + Digits(Value(bytes, 256), 58))
  }

  lemma CharsDigits(d: seq<nat>)
    requires forall i | 0 <= i < |d| :: d[i] < 58
    ensures ValidChars(Chars(d)) && DigitsOf(Chars(d)) == d
  {
    forall i | 0 <= i < |d|
      ensures DigitOf(Chars(d)[i]) == d[i]
    {
      DigitOfCharOf(d[i]);
    }
  }

  lemma DigitsChars(s: string)
    requires ValidChars(s)
    ensures Chars(DigitsOf(s)) == s
  {
  }

  lemma ZeroIsOne(s: string, i: nat)
    requires ValidChars(s) && i < |s|
    ensures DigitsOf(s)[i] == 0 <==> s[i] == '1'
  {
  }

  /** A digit string is its leading zeros followed by the shortest form of its value. */
  lemma SplitZeros(d: seq<nat>, n: nat, base: nat)
    requires base > 1 && n <= |d| && (forall i | 0 <= i < |d| :: d[i] < base)
    requires (forall i | 0 <= i < n :: d[i] == 0) && (n < |d| ==> d[n] != 0)
    ensures d == Zeros(n) + Digits(Value(d, base), base)
  {
    assert d == Zeros(n) + d[n..];
    LeadingZeros(n, d[n..], base);
    DigitsOfValue(d[n..], base);
  }

  lemma {:induction false} CountZeroBytes(bytes: seq<nat>, n: nat)
    requires n <= |bytes| && (forall i | 0 <= i < n :: bytes[i] == 0) && (n < |bytes| ==> bytes[n] != 0)
    ensures LeadingZeroBytes(bytes) == n
  {
    if n > 0 {
      CountZeroBytes(bytes[1..], n - 1);
    }
  }

  lemma {:induction false} CountOnes(s: string, n: nat)
    requires n <= |s| && (forall i | 0 <= i < n :: s[i] == '1') && (n < |s| ==> s[n] != '1')
    ensures LeadingOnes(s) == n
  {
    if n > 0 {
      CountOnes(s[1..], n - 1);
    }
  }

  /** Encoding inverts decoding, so no two strings decode to the same bytes ... */
  lemma EncodeDecoded(s: string)
    requires ValidChars(s)
    ensures Encoded(Decoded(s)) == s
  {
    hide DigitOf, CharOf;
    var n, d := LeadingOnes(s), DigitsOf(s);
    var v := Value(d, 58);
    CountZeroBytes(Zeros(n) + Digits(v, 256), n);
    LeadingZeros(n, Digits(v, 256), 256);
    ValueOfDigits(v, 256);
    forall i | 0 <= i < |s|
      ensures d[i] == 0 <==> s[i] == '1'
    {
      ZeroIsOne(s, i);
    }
    SplitZeros(d, n, 58);
    DigitsChars(s);
  }

  /** ... and decoding inverts encoding, so every byte string is decoded from some string. */
  lemma DecodeEncoded(bytes: seq<nat>)
    requires forall i | 0 <= i < |bytes| :: bytes[i] < 256
    ensures ValidChars(Encoded(bytes)) && Decoded(Encoded(bytes)) == bytes
  {
    hide DigitOf, CharOf;
    var n, v := LeadingZeroBytes(bytes), Value(bytes, 256);
    var d := Zeros(n) + Digits(v, 58);
    var s := Encoded(bytes);
    CharsDigits(d);
    LeadingZeros(n, Digits(v, 58), 58);
    ValueOfDigits(v, 58);
    forall i | 0 <= i < |s|
      ensures d[i] == 0 <==> s[i] == '1'
    {
      ZeroIsOne(s, i);
    }
    CountOnes(s, n);
    SplitZeros(bytes, n, 256);
  }
}
