/** What an address tells its reader: the network and the kind of script by its first characters, and the
    hash or program of the script by its content. */
module AddressPrefixes {
  import opened ByteStrings
  import opened TxDecoder
  import opened Base58
  import opened Addresses
  import opened Base58Encoders

  // ---------------------------------------------------------------------------
  // The Base58 alphabet
  // ---------------------------------------------------------------------------

  /** Digits, upper-case and lower-case letters in their own order, without '0', 'I', 'O' and 'l'. */
  lemma AlphabetInOrder()
    ensures ALPHABET == Run('1', 9) + (Run('A', 8) + Run('J', 5)) + (Run('P', 11) + (Run('a', 11) + Run('m', 14)))
  {
    hide LOW, HIGH, Run, SymbolValue;
    LowSymbols(0);
    HighSymbols(0);
  }

  lemma SymbolsOfInterest()
    ensures Symbol(0) == '1' && Symbol(1) == '2' && Symbol(2) == '3' && Symbol(44) == 'm' && Symbol(45) == 'n'
  {
    AlphabetInOrder();
    hide LOW, HIGH;
  }

  // ---------------------------------------------------------------------------
  // The leading digit
  // ---------------------------------------------------------------------------

  /** A byte string is as large as its first byte says. */
  lemma {:induction false} FirstByte(b: bytes)
    requires b != []
    ensures b[0] * Pow256(|b| - 1) <= FromBE(b) < (b[0] + 1) * Pow256(|b| - 1)
  {
    var init := b[..|b| - 1];
    if init == [] {
      assert FromBE(init) == 0;
    } else {
      var p := Pow256(|b| - 2);
      FirstByte(init);
      assert Pow256(|b| - 1) == 256 * p;
      Scaled(b[0], p, FromBE(init), b[|b| - 1], 256);
    }
  }

  lemma Scaled(d: nat, p: nat, n: nat, last: nat, base: nat)
    requires d * p <= n < (d + 1) * p && last < base
    ensures d * (base * p) <= base * n + last < (d + 1) * (base * p)
  {
    var e := d + 1;
    ScaledBelow(d, p, n, base);
    ScaledAbove(e, p, n, last, base);
  }

  lemma ScaledBelow(d: nat, p: nat, n: nat, base: nat)
    requires d * p <= n
    ensures d * (base * p) <= base * n
  {
    Ordered(base, d * p, n);
    Swapped(d, base, p);
  }

  lemma ScaledAbove(e: nat, p: nat, n: nat, last: nat, base: nat)
    requires n < e * p && last < base
    ensures base * n + last < e * (base * p)
  {
    Ordered(base, n + 1, e * p);
    Swapped(e, base, p);
  }

  lemma Swapped(d: nat, base: nat, p: nat)
    ensures d * (base * p) == base * (d * p)
  {
  }

  lemma Ordered(k: nat, a: nat, b: nat)
    requires a <= b
    ensures k * a <= k * b
  {
  }

  /** A number between `d` and `d + 1` times a power of 58 is written with the symbol of `d` first. */
  lemma {:induction false} LeadingDigit(n: nat, k: nat, d: nat)
    requires 0 < d < 58 && d * Pow58(k) <= n < (d + 1) * Pow58(k)
    ensures Digits(n) != "" && Digits(n)[0] == Symbol(d)
    decreases k
  {
    hide Symbol;
    if k == 0 {
      assert n == d && Digits(d / 58) == "";
    } else {
      var p := Pow58(k - 1);
      Unscaled(d, p, n);
      LeadingDigit(n / 58, k - 1, d);
    }
  }

  lemma Unscaled(d: nat, p: nat, n: nat)
    requires d > 0 && p > 0 && d * (58 * p) <= n < (d + 1) * (58 * p)
    ensures n > 0 && d * p <= n / 58 < (d + 1) * p
  {
    assert d * (58 * p) == 58 * (d * p) && (d + 1) * (58 * p) == 58 * ((d + 1) * p);
  }

  lemma PowersNearby()
    ensures Pow256(24) == 6277101735386680763835789423207666416102355444464034512896
    ensures Pow58(33) == 15599970876632771988160814054146447252125923204784443097088
  {
    assert Pow256(6) == 281474976710656;
    assert Pow256(12) == 79228162514264337593543950336;
    assert Pow256(18) == 22300745198530623141535718272648361505980416;
    assert Pow58(5) == 656356768;
    assert Pow58(10) == 430804206899405824;
    assert Pow58(15) == 282761256881297307761016832;
    assert Pow58(20) == 185592264682226060569122324245118976;
    assert Pow58(25) == 121814739012626444160521369338174330862829568;
    assert Pow58(30) == 79953928393091004080532279173738402825689466587316224;
  }

  // ---------------------------------------------------------------------------
  // First characters
  // ---------------------------------------------------------------------------

  lemma NonZeroStart(b: bytes)
    requires b != [] && b[0] != 0
    ensures Encode(b) == Digits(FromBE(b))
  {
    assert Repeat('1', 0) + Digits(FromBE(b)) == Digits(FromBE(b));
  }

  lemma ZeroStart(b: bytes)
    requires b != [] && b[0] == 0
    ensures Encode(b) != "" && Encode(b)[0] == '1'
  {
  }

  ghost predicate StartsWith(s: string, cs: set<char>) {
    s != "" && s[0] in cs
  }

  /** The first character of twenty-five bytes in Base58, for the four version bytes in use. */
  lemma VersionShows(b: bytes)
    requires |b| == 25
    ensures b[0] == 0x00 ==> StartsWith(Encode(b), {'1'})
    ensures b[0] == 0x05 ==> StartsWith(Encode(b), {'3'})
    ensures b[0] == 0x6f ==> StartsWith(Encode(b), {'m', 'n'})
    ensures b[0] == 0xc4 ==> StartsWith(Encode(b), {'2'})
  {
    hide Pow256, FromBE, Digits, Symbol, Encode, Pow58;
    FirstByte(b);
    PowersNearby();
    SymbolsOfInterest();
    var n := FromBE(b);
    if b[0] == 0 {
      ZeroStart(b);
    } else {
      NonZeroStart(b);
      NextPower();
      if b[0] == 0x05 { LeadingDigit(n, 33, 2); }
      if b[0] == 0x6f { LeadingDigit(n, 33, if n < 45 * Pow58(33) then 44 else 45); }
      if b[0] == 0xc4 { LeadingDigit(n, 34, 1); }
    }
  }

  lemma NextPower()
    ensures Pow58(34) == 58 * Pow58(33)
  {
  }

  // ---------------------------------------------------------------------------
  // What an address says
  // ---------------------------------------------------------------------------

  /** A reader of Base58Check: version, content, and four bytes of the double hash of both. */
  function ReadBase58Check(s: string, sha256: hash256): Option<(byte, bytes)> {
    var data := Base58.Decode(s);
    if |data| < 5 || sha256(sha256(data[..|data| - 4]))[..4] != data[|data| - 4..] then None
    else Some((data[0], data[1..|data| - 4]))
  }

  /** The address of the script says version `v` and hash `h`, and starts with one of the characters. */
  ghost predicate Says(script: bytes, testnet: bool, v: byte, h: bytes, cs: set<char>, sha256: hash256) {
    var a := AddressOf(script, testnet, sha256);
    a.Some? && ReadBase58Check(a.value, sha256) == Some((v, h)) && StartsWith(a.value, cs)
  }

  /** The address of the script is Bech32 for version 0 and the program, on the network of the prefix. */
  ghost predicate SaysWitness(script: bytes, testnet: bool, hrp: string, program: bytes, sha256: hash256) {
    var a := AddressOf(script, testnet, sha256);
    a.Some? && ReadBech32(hrp, a.value) == Some((0, program)) && hrp + "1q" <= a.value
  }

  lemma PubkeyHashAddress(h: bytes, testnet: bool, sha256: hash256)
    requires |h| == 20
    ensures AddressOf([0x76, 0xa9, 0x14] + h + [0x88, 0xac], testnet, sha256)
            == Some(Encode(Checksummed([if testnet then 0x6f else 0x00] + h, sha256)))
  {
    hide Encode, Checksummed, Bech32String;
    var script := [0x76, 0xa9, 0x14] + h + [0x88, 0xac];
    assert script[3..23] == h && script[..3] == [0x76, 0xa9, 0x14] && script[23..] == [0x88, 0xac];
  }

  /** Pay to public key hash: OP_DUP OP_HASH160, twenty bytes, OP_EQUALVERIFY OP_CHECKSIG. */
  lemma PubkeyHashShows(h: bytes, sha256: hash256)
    requires |h| == 20
    ensures Says([0x76, 0xa9, 0x14] + h + [0x88, 0xac], false, 0x00, h, {'1'}, sha256)
    ensures Says([0x76, 0xa9, 0x14] + h + [0x88, 0xac], true, 0x6f, h, {'m', 'n'}, sha256)
  {
    hide Encode, ReadBase58Check, AddressOf, Checksummed;
    PubkeyHashAddress(h, false, sha256);
    PubkeyHashAddress(h, true, sha256);
    CheckedContent(0x00, h, sha256);
    CheckedContent(0x6f, h, sha256);
  }

  lemma ScriptHashAddress(h: bytes, testnet: bool, sha256: hash256)
    requires |h| == 20
    ensures AddressOf([0xa9, 0x14] + h + [0x87], testnet, sha256)
            == Some(Encode(Checksummed([if testnet then 0xc4 else 0x05] + h, sha256)))
  {
    hide Encode, Checksummed, Bech32String;
    var script := [0xa9, 0x14] + h + [0x87];
    assert script[2..22] == h && script[0..2] == [0xa9, 0x14] && script[22] == 0x87;
  }

  /** Pay to script hash: OP_HASH160, twenty bytes, OP_EQUAL. */
  lemma ScriptHashShows(h: bytes, sha256: hash256)
    requires |h| == 20
    ensures Says([0xa9, 0x14] + h + [0x87], false, 0x05, h, {'3'}, sha256)
    ensures Says([0xa9, 0x14] + h + [0x87], true, 0xc4, h, {'2'}, sha256)
  {
    hide Encode, ReadBase58Check, AddressOf, Checksummed;
    ScriptHashAddress(h, false, sha256);
    ScriptHashAddress(h, true, sha256);
    CheckedContent(0x05, h, sha256);
    CheckedContent(0xc4, h, sha256);
  }

  lemma CheckedContent(v: byte, h: bytes, sha256: hash256)
    requires |h| == 20
    ensures
      var a := Encode(Checksummed([v] + h, sha256));
      && ReadBase58Check(a, sha256) == Some((v, h))
      && (v == 0x00 ==> StartsWith(a, {'1'})) && (v == 0x05 ==> StartsWith(a, {'3'}))
      && (v == 0x6f ==> StartsWith(a, {'m', 'n'})) && (v == 0xc4 ==> StartsWith(a, {'2'}))
  {
    hide Encode, Base58.Decode;
    var data := Checksummed([v] + h, sha256);
    DecodeInvertsEncode(data);
    VersionShows(data);
    assert data[..21] == [v] + h && data[1..21] == h && data[21..] == sha256(sha256([v] + h))[..4];
  }

  lemma WitnessAddress(program: bytes, testnet: bool, sha256: hash256)
    requires |program| == 20 || |program| == 32
    ensures AddressOf([0x00, |program|] + program, testnet, sha256)
            == Some(Bech32String(if testnet then "tb" else "bc", 0, program))
  {
    hide Base58.Encode, Checksummed, Bech32String;
    var script := [0x00, |program|] + program;
    assert script[0..2] == [0x00, |program|] && script[2..] == program;
  }

  /** A witness program of version 0 with twenty or thirty-two bytes. */
  lemma WitnessShows(program: bytes, sha256: hash256)
    requires |program| == 20 || |program| == 32
    ensures SaysWitness([0x00, |program|] + program, false, "bc", program, sha256)
    ensures SaysWitness([0x00, |program|] + program, true, "tb", program, sha256)
  {
    hide ReadBech32, Bech32String, AddressOf;
    assert ReadablePrefix("bc") && ReadablePrefix("tb");
    WitnessAddress(program, false, sha256);
    WitnessAddress(program, true, sha256);
    Bech32ReadsBack("bc", 0, program);
    Bech32ReadsBack("tb", 0, program);
    WitnessStart("bc", program);
    WitnessStart("tb", program);
  }

  lemma WitnessStart(hrp: string, program: bytes)
    ensures hrp + "1q" <= Bech32String(hrp, 0, program)
  {
    var data := Payload(0, program);
    assert CharOf(0) == 'q';
    assert data[0] == 0;
    assert Bech32String(hrp, 0, program) == hrp + "1" + Chars(data + ChecksumOf(hrp, data));
    hide Payload, ChecksumOf;
    assert Chars(data + ChecksumOf(hrp, data))[0] == 'q';
  }

  /** No mainnet address is a testnet address. */
  lemma NetworksApart(a: bytes, b: bytes, sha256: hash256)
    requires AddressOf(a, false, sha256).Some? && AddressOf(b, true, sha256).Some?
    ensures AddressOf(a, false, sha256) != AddressOf(b, true, sha256)
  {
    hide AddressOf;
    FirstCharacter(a, sha256);
    FirstCharacter(b, sha256);
  }

  lemma FirstCharacter(s: bytes, sha256: hash256)
    requires AddressOf(s, false, sha256).Some? || AddressOf(s, true, sha256).Some?
    ensures AddressOf(s, false, sha256).Some? && StartsWith(AddressOf(s, false, sha256).value, {'1', '3', 'b'})
    ensures AddressOf(s, true, sha256).Some? && StartsWith(AddressOf(s, true, sha256).value, {'m', 'n', '2', 't'})
  {
    hide Bech32String, Encode, ReadBase58Check, ReadBech32, Checksummed;
    ScriptParts(s);
    if IsP2PKH(s) {
      PubkeyHashShows(s[3..23], sha256);
    } else if IsP2SH(s) {
      ScriptHashShows(s[2..22], sha256);
    } else {
      WitnessShows(s[2..], sha256);
    }
  }
}
