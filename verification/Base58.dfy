/** Base58 as a function on byte strings, a decoder that undoes it, and a bound on its length. */
module Base58 {
  import opened ByteStrings

  const LOW: string := "123456789ABCDEFGHJKLMN"
  const HIGH: string := "PQRSTUVWXYZabcdefghijkmnopqrstuvwxyz"
  const ALPHABET: string := LOW + HIGH

  function Symbol(d: nat): char
    requires d < 58
  {
    ALPHABET[d]
  }

  function SymbolValue(c: char): nat {
    var x := c as int;
    if 49 <= x <= 57 then x - 49
    else if 65 <= x <= 72 then x - 65 + 9
    else if 74 <= x <= 78 then x - 74 + 17
    else if 80 <= x <= 90 then x - 80 + 22
    else if 97 <= x <= 107 then x - 97 + 33
    else if 109 <= x <= 122 then x - 109 + 44
    else 0
  }

  /** `n` consecutive characters. */
  function Run(first: char, n: nat): string
    requires first as int + n < 0xD800
  {
    seq(n, i requires 0 <= i < n => (first as int + i) as char)
  }

  lemma LowSymbols(d: nat)
    requires d < 22
    ensures |LOW| == 22 && SymbolValue(LOW[d]) == d && LOW[0] == '1'
    ensures LOW == Run('1', 9) + (Run('A', 8) + Run('J', 5))
  {
    assert LOW == Run('1', 9) + (Run('A', 8) + Run('J', 5)) by {
      assert Run('1', 9) == "123456789";
      assert Run('A', 8) == "ABCDEFGH";
      assert Run('J', 5) == "JKLMN";
    }
  }

  lemma HighSymbols(d: nat)
    requires d < 36
    ensures |HIGH| == 36 && SymbolValue(HIGH[d]) == d + 22
    ensures HIGH == Run('P', 11) + (Run('a', 11) + Run('m', 14))
  {
    assert HIGH == Run('P', 11) + (Run('a', 11) + Run('m', 14)) by {
      assert Run('P', 11) == "PQRSTUVWXYZ";
      assert Run('a', 11) == "abcdefghijk";
      assert Run('m', 14) == "mnopqrstuvwxyz";
    }
  }

  /** The alphabet lists 58 different symbols. */
  lemma SymbolsDistinct(d: nat)
    requires d < 58
    ensures SymbolValue(Symbol(d)) == d
    ensures Symbol(0) == '1'
  {
    hide LOW, HIGH, SymbolValue;
    LowSymbols(if d < 22 then d else 0);
    HighSymbols(if d < 22 then 0 else d - 22);
  }

  function LeadingZeros(b: bytes): (n: nat)
    ensures n <= |b|
  {
    if b != [] && b[0] == 0 then 1 + LeadingZeros(b[1..]) else 0
  }

  function Digits(n: nat): string {
    if n == 0 then "" else Digits(n / 58) + [Symbol(n % 58)]
  }

  function Repeat<T>(x: T, n: nat): (s: seq<T>)
    ensures |s| == n
  {
    seq(n, _ => x)
  }

  /** `b` without its leading zero bytes. */
  function Significant(b: bytes): bytes {
    if b != [] && b[0] == 0 then Significant(b[1..]) else b
  }

  /** One '1' for each leading zero byte, then the value of all bytes in base 58. */
  function Encode(b: bytes): string {
    Repeat('1', LeadingZeros(b)) + Digits(FromBE(b))
  }

  // ---------------------------------------------------------------------------
  // The left inverse
  // ---------------------------------------------------------------------------

  function LeadingOnes(s: string): (n: nat)
    ensures n <= |s|
  {
    if s != "" && s[0] == '1' then 1 + LeadingOnes(s[1..]) else 0
  }

  function Value(s: string): nat {
    if s == "" then 0 else 58 * Value(s[..|s| - 1]) + SymbolValue(s[|s| - 1])
  }

  /** The shortest big-endian byte string of a number. */
  function BE(n: nat): bytes {
    if n == 0 then [] else BE(n / 256) + [n % 256]
  }

  function Decode(s: string): bytes {
    Repeat(0, LeadingOnes(s)) + BE(Value(s[LeadingOnes(s)..]))
  }

  lemma {:induction false} ValueOfDigits(n: nat)
    ensures Value(Digits(n)) == n
  {
    hide Symbol, SymbolValue;
    if n != 0 {
      ValueOfDigits(n / 58);
      SymbolsDistinct(n % 58);
      assert Digits(n)[..|Digits(n)| - 1] == Digits(n / 58);
    }
  }

  lemma {:induction false} DigitsStart(n: nat)
    ensures n > 0 ==> |Digits(n)| > 0 && Digits(n)[0] != '1'
  {
    hide Symbol, SymbolValue;
    if n >= 58 {
      DigitsStart(n / 58);
    } else if n > 0 {
      SymbolsDistinct(n);
      SymbolsDistinct(0);
      assert Digits(n) == Digits(0) + [Symbol(n)];
    }
  }

  lemma {:induction false} OnesThenDigits(k: nat, s: string)
    requires s == "" || s[0] != '1'
    ensures LeadingOnes(Repeat('1', k) + s) == k
  {
    if k == 0 {
      assert Repeat('1', 0) + s == s;
    } else {
      OnesThenDigits(k - 1, s);
      assert (Repeat('1', k) + s)[1..] == Repeat('1', k - 1) + s;
    }
  }

  lemma ZerosHaveNoValue(b: bytes)
    ensures FromBE(Significant(b)) == FromBE(b)
    ensures b == Repeat(0, LeadingZeros(b)) + Significant(b)
    ensures Significant(b) == [] || Significant(b)[0] != 0
  {
    SignificantValue(b);
    ZerosInFront(b);
  }

  lemma {:induction false} SignificantValue(b: bytes)
    ensures FromBE(Significant(b)) == FromBE(b)
    ensures Significant(b) == [] || Significant(b)[0] != 0
  {
    if b != [] && b[0] == 0 {
      SignificantValue(b[1..]);
      DropZero(b[1..]);
      hide FromBE;
      assert b == [0] + b[1..];
    }
  }

  lemma {:induction false} ZerosInFront(b: bytes)
    ensures b == Repeat(0, LeadingZeros(b)) + Significant(b)
  {
    if b != [] && b[0] == 0 {
      ZerosInFront(b[1..]);
      OneMoreZero(LeadingZeros(b[1..]), Significant(b[1..]));
      assert b == [0] + b[1..];
    } else {
      assert Repeat<byte>(0, 0) == [];
    }
  }

  lemma OneMoreZero(n: nat, s: bytes)
    ensures Repeat(0, 1 + n) + s == [0] + (Repeat(0, n) + s)
  {
  }

  lemma {:induction false} DropZero(b: bytes)
    ensures FromBE([0] + b) == FromBE(b)
  {
    if b != [] {
      DropZero(b[..|b| - 1]);
      assert ([0] + b)[..|b|] == [0] + b[..|b| - 1];
    } else {
      assert ([0] + b)[..0] == [];
    }
  }

  lemma {:induction false} BEInverts(b: bytes)
    requires b == [] || b[0] != 0
    ensures BE(FromBE(b)) == b
    ensures b != [] ==> FromBE(b) > 0
  {
    if b != [] {
      var init, last := b[..|b| - 1], b[|b| - 1];
      if init != [] {
        BEInverts(init);
      }
      DivMod256(last, FromBE(init));
      assert b == init + [last];
    }
  }

  /** Leading '1's restore the leading zero bytes and the digits restore the value. */
  lemma DecodeInvertsEncode(b: bytes)
    ensures Decode(Encode(b)) == b
  {
    var z, n := LeadingZeros(b), FromBE(b);
    DigitsStart(n);
    OnesThenDigits(z, Digits(n));
    assert Encode(b)[z..] == Digits(n);
    ValueOfDigits(n);
    ZerosHaveNoValue(b);
    BEInverts(Significant(b));
  }

  lemma EncodeInjective(a: bytes, b: bytes)
    requires Encode(a) == Encode(b)
    ensures a == b
  {
    DecodeInvertsEncode(a);
    DecodeInvertsEncode(b);
  }

  // ---------------------------------------------------------------------------
  // Length
  // ---------------------------------------------------------------------------

  function Pow58(k: nat): (p: nat)
    ensures p >= 1
  {
    if k == 0 then 1 else 58 * Pow58(k - 1)
  }

  lemma {:induction false} FromBEBound(b: bytes)
    ensures FromBE(b) < Pow256(|b|)
  {
    if b != [] {
      FromBEBound(b[..|b| - 1]);
    }
  }

  lemma {:induction false} DigitsLength(n: nat, k: nat)
    requires n < Pow58(k)
    ensures |Digits(n)| <= k
    decreases k
  {
    if n != 0 {
      DigitsLength(n / 58, k - 1);
    }
  }

  lemma LargePowers()
    ensures Pow256(25) <= Pow58(35)
  {
    hide Pow256, Pow58;
    LargePow256();
    LargePow58();
  }

  lemma LargePow256()
    ensures Pow256(25) == 1606938044258990275541962092341162602522202993782792835301376
  {
    assert Pow256(5) == 1099511627776;
    assert Pow256(10) == 1208925819614629174706176;
    assert Pow256(15) == 1329227995784915872903807060280344576;
    assert Pow256(20) == 1461501637330902918203684832716283019655932542976;
  }

  lemma LargePow58()
    ensures Pow58(35) == 52478302028992644968172978478148648556151605660894866578604032
  {
    assert Pow58(5) == 656356768;
    assert Pow58(10) == 430804206899405824;
    assert Pow58(15) == 282761256881297307761016832;
    assert Pow58(20) == 185592264682226060569122324245118976;
    assert Pow58(25) == 121814739012626444160521369338174330862829568;
    assert Pow58(30) == 79953928393091004080532279173738402825689466587316224;
  }

  /** Ten more base-58 digits than bytes are enough up to 25 bytes: 256^25 < 58^35. */
  lemma {:induction false} TenMoreDigits(m: nat)
    requires m <= 25
    ensures Pow256(m) <= Pow58(m + 10)
    decreases 25 - m
  {
    if m == 25 {
      LargePowers();
    } else {
      TenMoreDigits(m + 1);
    }
  }

  lemma EncodeLength(b: bytes)
    requires |b| <= 25
    ensures |Encode(b)| <= |b| + 10
  {
    var z := LeadingZeros(b);
    ZerosHaveNoValue(b);
    FromBEBound(Significant(b));
    TenMoreDigits(|b| - z);
    DigitsLength(FromBE(b), |b| - z + 10);
  }
}
