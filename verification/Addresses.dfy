/** From scripts to addresses: the Bech32 string, the four recognised script forms, and why a
    deposit address identifies one script. */
module Addresses {
  import opened ByteStrings
  import opened TxFormat
  import opened TxDecoder
  import opened Base58Encoders
  import Base58
  import opened BitGroups
  import opened Bech32

  // ---------------------------------------------------------------------------
  // The Bech32 string
  // ---------------------------------------------------------------------------

  const CHARSET: string := "qpzry9x8gf2tvdw0s3jn54khce6mua7l"

  function CharOf(d: nat): char
    requires d < 32
  {
    CHARSET[d]
  }

  /** The position of a character in the charset, 32 for every other character. */
  function CharValue(c: char): nat {
    match c
    case 'q' => 0 case 'p' => 1 case 'z' => 2 case 'r' => 3
    case 'y' => 4 case '9' => 5 case 'x' => 6 case '8' => 7
    case 'g' => 8 case 'f' => 9 case '2' => 10 case 't' => 11
    case 'v' => 12 case 'd' => 13 case 'w' => 14 case '0' => 15
    case 's' => 16 case '3' => 17 case 'j' => 18 case 'n' => 19
    case '5' => 20 case '4' => 21 case 'k' => 22 case 'h' => 23
    case 'c' => 24 case 'e' => 25 case '6' => 26 case 'm' => 27
    case 'u' => 28 case 'a' => 29 case '7' => 30 case 'l' => 31
    case _ => 32
  }

  lemma CharsDistinct(d: nat)
    requires d < 32
    ensures CharValue(CharOf(d)) == d
  {
  }

  function HrpExpand(hrp: string): symbols {
    seq(|hrp|, i requires 0 <= i < |hrp| => (hrp[i] as int / 32) as word)
    + [0]
    + seq(|hrp|, i requires 0 <= i < |hrp| => (hrp[i] as int % 32) as word)
  }

  function Words(data: seq<nat>): (s: symbols)
    requires Below(data, 32)
    ensures |s| == |data|
  {
    seq(|data|, i requires 0 <= i < |data| => data[i] as word)
  }

  function Ints(s: symbols): (data: seq<nat>)
    ensures |data| == |s|
  {
    seq(|s|, i requires 0 <= i < |s| => s[i] as int)
  }

  function Chars(data: seq<nat>): (s: string)
    requires Below(data, 32)
    ensures |s| == |data|
  {
    seq(|data|, i requires 0 <= i < |data| => CharOf(data[i]))
  }

  function CharValues(s: string): (data: seq<nat>)
    ensures |data| == |s|
  {
    seq(|s|, i requires 0 <= i < |s| => CharValue(s[i]))
  }

  /** The witness version and the program in five-bit groups. */
  function Payload(witver: nat, witprog: bytes): (data: seq<nat>)
    requires witver < 32
    ensures Below(data, 32)
  {
    RegroupBelow(Flatten(witprog, 8), 5, true);
    PowersOfInterest();
    [witver] + Regroup(Flatten(witprog, 8), 5, true)
  }

  lemma PowersOfInterest()
    ensures Pow2(5) == 32 && Pow2(8) == 256
  {
    assert Pow2(5) == 2 * (2 * (2 * Pow2(2)));
  }

  function ChecksumOf(hrp: string, data: seq<nat>): (c: seq<nat>)
    requires Below(data, 32)
    ensures |c| == 6 && Below(c, 32)
  {
    ChecksumFits(HrpExpand(hrp) + Words(data));
    WordsOfInts(Checksum(HrpExpand(hrp) + Words(data)));
    Ints(Checksum(HrpExpand(hrp) + Words(data)))
  }

  /** The Bech32 string of a witness program. */
  function Bech32String(hrp: string, witver: nat, witprog: bytes): string
    requires witver < 32
  {
    var data := Payload(witver, witprog);
    hrp + "1" + Chars(data + ChecksumOf(hrp, data))
  }

  method Bech32Encode(hrp: string, witver: nat, witprog: bytes) returns (s: string)
    requires witver < 32
    ensures s == Bech32String(hrp, witver, witprog)
  {
    PowersOfInterest();
    var groups := ConvertBits(witprog, 8, 5, true);
    RegroupBelow(Flatten(witprog, 8), 5, true);
    var data := [witver] + groups;
    var values := HrpExpand(hrp) + Words(data);
    var checksum := CreateChecksum(values);
    ChecksumFits(values);
    WordsOfInts(checksum);
    s := hrp + "1" + Chars(data + Ints(checksum));
  }

  /** BIP173, section "Bech32": printable characters, and no upper-case ones in a lower-case string. */
  predicate ReadablePrefix(hrp: string) {
    hrp != "" && forall i :: 0 <= i < |hrp| ==> '!' <= hrp[i] <= '~' && !('A' <= hrp[i] <= 'Z')
  }

  /** A reader as BIP173 describes it: at most 90 characters, prefix, separator, charset, checksum, and the
      program regrouped without padding, where what is left over is at most four bits, all zero. */
  function ReadBech32(hrp: string, s: string): Option<(nat, seq<nat>)> {
    if !ReadablePrefix(hrp) || |s| > 90 || !(hrp + "1" <= s) || |s| < |hrp| + 8 then None else
    var values := CharValues(s[|hrp| + 1..]);
    if !Below(values, 32) || Fold(1, HrpExpand(hrp) + Words(values)) != 1 then None else
    var program := Flatten(values[1..|values| - 6], 5);
    if |Leftover(program, 8)| > 4 || Leftover(program, 8) != Zeros(|Leftover(program, 8)|) then None else
    Some((values[0], Regroup(program, 8, false)))
  }

  /** A string that BIP173, section "Test vectors", lists as valid: "a12uel5l". */
  lemma ValidVector()
    ensures CharValues("2uel5l") == [10, 28, 25, 31, 20, 31]
    ensures Fold(1, HrpExpand("a") + Words([10, 28, 25, 31, 20, 31])) == 1
  {
    hide Fold;
    VectorValues();
    FoldConcat(1, [3, 0, 1], [10, 28, 25, 31, 20, 31]);
    FoldVector();
  }

  lemma VectorValues()
    ensures CharValues("2uel5l") == [10, 28, 25, 31, 20, 31]
    ensures HrpExpand("a") == [3, 0, 1] && Words([10, 28, 25, 31, 20, 31]) == [10, 28, 25, 31, 20, 31]
  {
    VectorHrp();
    VectorWords();
    hide HrpExpand, Words;
  }

  lemma VectorHrp()
    ensures HrpExpand("a") == [3, 0, 1]
  {
    var hi, lo := 3 as word, 1 as word;
    assert 'a' as int / 32 == 3 && 'a' as int % 32 == 1;
    var hrp := "a";
    assert seq(1, i requires 0 <= i < 1 => (hrp[i] as int / 32) as word) == [hi];
    assert seq(1, i requires 0 <= i < 1 => (hrp[i] as int % 32) as word) == [lo];
  }

  lemma VectorWords()
    ensures Words([10, 28, 25, 31, 20, 31]) == [10, 28, 25, 31, 20, 31]
  {
  }

  lemma FoldVector()
    ensures Fold(Fold(1, [3, 0, 1]), [10, 28, 25, 31, 20, 31]) == 1
  {
    assert Step(0x1, 3) == 0x23;
    assert Step(0x23, 0) == 0x460;
    assert Step(0x460, 1) == 0x8C01;
    assert Step(0x8C01, 10) == 0x11802A;
    assert Step(0x11802A, 28) == 0x230055C;
    assert Step(0x230055C, 25) == 0x3D6AFC2B;
    assert Step(0x3D6AFC2B, 31) == 0x2F84386;
    assert Step(0x2F84386, 20) == 0x24622766;
    assert Step(0x24622766, 31) == 0x1;
    hide Step;
    assert [3, 0, 1] == [3, 0] + [1];
    FoldConcat(1, [3, 0], [1]);
    FoldTwo(1, 3, 0);
    assert Fold(0x460, [1]) == Fold(Step(0x460, 1), []) by { assert [1 as word][1..] == []; }
    FoldSix(0x8C01, [10, 28, 25, 31, 20, 31]);
  }

  lemma CharsReadBack(data: seq<nat>)
    requires Below(data, 32)
    ensures CharValues(Chars(data)) == data
  {
    forall i | 0 <= i < |data| ensures CharValue(Chars(data)[i]) == data[i] {
      CharsDistinct(data[i]);
    }
  }

  lemma WordsOfInts(s: symbols)
    requires FiveBit(s)
    ensures Below(Ints(s), 32) && Words(Ints(s)) == s
  {
    forall i | 0 <= i < |s| ensures Ints(s)[i] < 32 && Ints(s)[i] as word == s[i] {
    }
  }

  /** A reader accepts the string of a witness program exactly when its prefix is readable and it is not too
      long, and returns the program. */
  lemma Bech32ReadsBack(hrp: string, witver: nat, witprog: bytes)
    requires witver < 32
    ensures ReadBech32(hrp, Bech32String(hrp, witver, witprog))
            == if ReadablePrefix(hrp) && |Bech32String(hrp, witver, witprog)| <= 90
               then Some((witver, witprog)) else None
    ensures |Bech32String(hrp, witver, witprog)| == |hrp| + 8 + (8 * |witprog| + 4) / 5
  {
    var data := Payload(witver, witprog);
    var all := data + ChecksumOf(hrp, data);
    var s := Bech32String(hrp, witver, witprog);
    ChecksummedVerifies(hrp, data);
    ProgramReadsBack(witver, witprog);
    hide Payload, ChecksumOf, HrpExpand, Words, Regroup, Flatten, Fold, Leftover;
    assert s[|hrp| + 1..] == Chars(all);
    CharsReadBack(all);
    assert all[1..|all| - 6] == data[1..];
  }

  lemma ChecksummedVerifies(hrp: string, data: seq<nat>)
    requires Below(data, 32)
    ensures Fold(1, HrpExpand(hrp) + Words(data + ChecksumOf(hrp, data))) == 1
  {
    var expanded, values := HrpExpand(hrp), HrpExpand(hrp) + Words(data);
    ChecksumFits(values);
    ChecksumVerifies(values);
    hide HrpExpand, Fold, Checksum, Words, Ints;
    WordsOfInts(Checksum(values));
    WordsConcat(data, Ints(Checksum(values)));
    assert expanded + (Words(data) + Checksum(values)) == values + Checksum(values);
  }

  lemma ChecksumFits(values: symbols)
    ensures |Checksum(values)| == 6 && FiveBit(Checksum(values))
  {
    GroupsFit(Xor(Fold(1, values + SIX_ZEROS), 1));
  }

  lemma WordsConcat(a: seq<nat>, b: seq<nat>)
    requires Below(a, 32) && Below(b, 32)
    ensures Below(a + b, 32) && Words(a + b) == Words(a) + Words(b)
  {
    forall i | 0 <= i < |a| + |b| ensures (a + b)[i] < 32 && Words(a + b)[i] == (Words(a) + Words(b))[i] {
      assert (a + b)[i] == if i < |a| then a[i] else b[i - |a|];
    }
  }

  lemma ProgramReadsBack(witver: nat, witprog: bytes)
    requires witver < 32
    ensures
      var data := Payload(witver, witprog);
      && |data| == 1 + (8 * |witprog| + 4) / 5
      && data[0] == witver && Regroup(Flatten(data[1..], 5), 8, false) == witprog
      && |Leftover(Flatten(data[1..], 5), 8)| <= 4
      && Leftover(Flatten(data[1..], 5), 8) == Zeros(|Leftover(Flatten(data[1..], 5), 8)|)
  {
    PowersOfInterest();
    ConversionInverts(witprog, 8, 5);
  }

  // ---------------------------------------------------------------------------
  // Scripts
  // ---------------------------------------------------------------------------

  /** The recognised forms; the field is the hash or the witness program. */
  function P2PKH(hash: bytes): bytes {
    [0x76, 0xa9, 0x14] + hash + [0x88, 0xac]
  }

  function P2SH(hash: bytes): bytes {
    [0xa9, 0x14] + hash + [0x87]
  }

  function P2WPKH(program: bytes): bytes {
    [0x00, 0x14] + program
  }

  function P2WSH(program: bytes): bytes {
    [0x00, 0x20] + program
  }

  function PubkeyVersion(testnet: bool): bytes {
    if testnet then [0x6f] else [0x00]
  }

  function ScriptVersion(testnet: bool): bytes {
    if testnet then [0xc4] else [0x05]
  }

  function Hrp(testnet: bool): string {
    if testnet then "tb" else "bc"
  }

  predicate IsP2PKH(script: bytes) {
    |script| == 25 && script[..3] == [0x76, 0xa9, 0x14] && script[23..] == [0x88, 0xac]
  }

  predicate IsP2SH(script: bytes) {
    |script| == 23 && script[0..2] == [0xa9, 0x14] && script[22] == 0x87
  }

  predicate IsP2WPKH(script: bytes) {
    |script| == 22 && script[0..2] == [0x00, 0x14]
  }

  predicate IsP2WSH(script: bytes) {
    |script| == 34 && script[0..2] == [0x00, 0x20]
  }

  function AddressOf(script: bytes, testnet: bool, sha256: hash256): Option<string> {
    if IsP2PKH(script) then
      Some(Base58.Encode(Checksummed(PubkeyVersion(testnet) + script[3..23], sha256)))
    else if IsP2SH(script) then
      Some(Base58.Encode(Checksummed(ScriptVersion(testnet) + script[2..22], sha256)))
    else if IsP2WPKH(script) || IsP2WSH(script) then
      Some(Bech32String(Hrp(testnet), 0, script[2..]))
    else
      None
  }

  method ScriptToAddress(script: bytes, testnet: bool, sha256: hash256) returns (address: Option<string>)
    ensures address == AddressOf(script, testnet, sha256)
  {
    var p2pkhVer := if testnet then [0x6f] else [0x00];
    var p2shVer := if testnet then [0xc4] else [0x05];
    var bech32Hrp := if testnet then "tb" else "bc";
    if |script| == 25 && script[..3] == [0x76, 0xa9, 0x14] && script[23..] == [0x88, 0xac] {
      var a := Base58Check(p2pkhVer + script[3..23], sha256);
      return Some(a);
    }
    if |script| == 23 && script[0..2] == [0xa9, 0x14] && script[22] == 0x87 {
      var a := Base58Check(p2shVer + script[2..22], sha256);
      return Some(a);
    }
    if |script| == 22 && script[0..2] == [0x00, 0x14] {
      var a := Bech32Encode(bech32Hrp, 0, script[2..]);
      return Some(a);
    }
    if |script| == 34 && script[0..2] == [0x00, 0x20] {
      var a := Bech32Encode(bech32Hrp, 0, script[2..]);
      return Some(a);
    }
    return None;
  }

  /** The payload whose Base58Check encoding is the address of a hash script. */
  function HashPayload(script: bytes, testnet: bool): bytes
    requires IsP2PKH(script) || IsP2SH(script)
  {
    if IsP2PKH(script) then PubkeyVersion(testnet) + script[3..23] else ScriptVersion(testnet) + script[2..22]
  }

  lemma HashPayloadInjective(a: bytes, b: bytes, testnet: bool)
    requires IsP2PKH(a) || IsP2SH(a)
    requires IsP2PKH(b) || IsP2SH(b)
    requires HashPayload(a, testnet) == HashPayload(b, testnet)
    ensures a == b
  {
    var pa, pb := HashPayload(a, testnet), HashPayload(b, testnet);
    assert pa[0] == pb[0] && pa[1..] == pb[1..];
    ScriptParts(a);
    ScriptParts(b);
  }

  /** A recognised script is determined by its form and its hash or program. */
  lemma ScriptParts(s: bytes)
    ensures IsP2PKH(s) ==> s == P2PKH(s[3..23])
    ensures IsP2SH(s) ==> s == P2SH(s[2..22])
    ensures IsP2WPKH(s) ==> s == P2WPKH(s[2..])
    ensures IsP2WSH(s) ==> s == P2WSH(s[2..])
  {
    if IsP2PKH(s) {
      assert s == s[..3] + s[3..23] + s[23..];
    } else if IsP2SH(s) {
      assert s == s[0..2] + s[2..22] + [s[22]];
    } else if |s| >= 2 {
      assert s == s[0..2] + s[2..];
    }
  }

  /** On a fixed network two recognised scripts have the same address only if they are equal. */
  lemma AddressInjective(a: bytes, b: bytes, testnet: bool, sha256: hash256)
    requires AddressOf(a, testnet, sha256).Some?
    requires AddressOf(a, testnet, sha256) == AddressOf(b, testnet, sha256)
    ensures a == b
  {
    AddressLength(a, testnet, sha256);
    AddressLength(b, testnet, sha256);
    if IsP2PKH(a) || IsP2SH(a) {
      var pa, pb := HashPayload(a, testnet), HashPayload(b, testnet);
      Base58.EncodeInjective(Checksummed(pa, sha256), Checksummed(pb, sha256));
      assert Checksummed(pa, sha256)[..21] == pa && Checksummed(pb, sha256)[..21] == pb;
      HashPayloadInjective(a, b, testnet);
    } else {
      WitnessAddressInjective(a, b, testnet);
    }
  }

  lemma WitnessAddressInjective(a: bytes, b: bytes, testnet: bool)
    requires IsP2WPKH(a) || IsP2WSH(a)
    requires IsP2WPKH(b) || IsP2WSH(b)
    requires Bech32String(Hrp(testnet), 0, a[2..]) == Bech32String(Hrp(testnet), 0, b[2..])
    ensures a == b
  {
    hide Bech32String, ReadBech32;
    Bech32ReadsBack(Hrp(testnet), 0, a[2..]);
    Bech32ReadsBack(Hrp(testnet), 0, b[2..]);
    ScriptParts(a);
    ScriptParts(b);
  }

  /** Base58 addresses have at most 35 characters, Bech32 addresses have 42 or 62. */
  lemma AddressLength(s: bytes, testnet: bool, sha256: hash256)
    requires AddressOf(s, testnet, sha256).Some?
    ensures var n := |AddressOf(s, testnet, sha256).value|;
      if IsP2PKH(s) || IsP2SH(s) then n <= 35 else if IsP2WPKH(s) then n == 42 else IsP2WSH(s) && n == 62
  {
    if IsP2PKH(s) || IsP2SH(s) {
      Base58.EncodeLength(Checksummed(HashPayload(s, testnet), sha256));
    } else {
      Bech32ReadsBack(Hrp(testnet), 0, s[2..]);
    }
  }

  // ---------------------------------------------------------------------------
  // The provider's address and the watcher's
  // ---------------------------------------------------------------------------

  /** The encoding half of the provider's testnet derivation, from the key hash on. */
  method DeriveTestnetAddress(ripe: bytes, sha256: hash256) returns (address: string)
    ensures address == ProviderAddress(ripe, sha256)
  {
    var versioned := [0x6F] + ripe;
    var checksum := sha256(sha256(versioned))[..4];
    address := B58Encode(versioned + checksum);
  }

  function ProviderAddress(ripe: bytes, sha256: hash256): string {
    Base58.Encode([0x6F] + ripe + sha256(sha256([0x6F] + ripe))[..4])
  }

  /** An output is recognised as a deposit to a derived address exactly when its script pays to
      the key hash the address was derived from. */
  lemma DepositRecognised(script: bytes, ripe: bytes, sha256: hash256)
    requires |ripe| == 20
    ensures AddressOf(script, true, sha256) == Some(ProviderAddress(ripe, sha256)) <==> script == P2PKH(ripe)
  {
    var own := P2PKH(ripe);
    assert own[3..23] == ripe;
    assert AddressOf(own, true, sha256) == Some(ProviderAddress(ripe, sha256));
    if AddressOf(script, true, sha256) == Some(ProviderAddress(ripe, sha256)) {
      AddressInjective(script, own, true, sha256);
    }
  }

  /** From the received bytes to the invoice: however the transaction is witnessed and whatever
      follows it, the watcher sees its txid and attributes an output to a derived address exactly
      when the output pays to the key hash behind that address. */
  lemma DepositDetected(tx: Tx, stacks: seq<stack>, rest: bytes, i: nat, ripe: bytes, sha256: hash256)
    requires |stacks| == |tx.inputs| && i < |tx.outputs| && |ripe| == 20
    ensures
      var d := Decode(Segwit(tx, stacks) + rest, true, sha256);
      && d.Some? && d.value.txid == TxId(sha256, Legacy(tx)) && d.value.tx.outputs == tx.outputs
      && (AddressOf(d.value.tx.outputs[i].scriptPubkey, true, sha256) == Some(ProviderAddress(ripe, sha256))
          <==> tx.outputs[i].scriptPubkey == P2PKH(ripe))
  {
    TxidIgnoresWitness(tx, stacks, rest, true, sha256);
    DepositRecognised(tx.outputs[i].scriptPubkey, ripe, sha256);
    hide Decode, AddressOf, Legacy, Segwit;
  }
}
