/** What the bytes of the wire format and the digits of a txid mean, spelled out: the order of bytes and
    fields, the marks of CompactSize, and how a spender names the transaction it spends. */
module TxLayout {
  import opened ByteStrings
  import opened TxFormat
  import opened TxDecoder

  // ---------------------------------------------------------------------------
  // Digits of a txid
  // ---------------------------------------------------------------------------

  const DIGITS: string := "0123456789abcdef"

  lemma DigitOf(d: nat)
    requires d < 16
    ensures HexDigit(d) == DIGITS[d]
  {
  }

  /** Two digits for each byte, the high one first. */
  lemma {:induction false} HexAt(b: bytes, i: nat)
    requires i < |b|
    ensures Hex(b)[2 * i] == DIGITS[b[i] / 16] && Hex(b)[2 * i + 1] == DIGITS[b[i] % 16]
  {
    DigitOf(b[i] / 16);
    DigitOf(b[i] % 16);
    hide HexDigit;
    if i > 0 {
      HexAt(b[1..], i - 1);
      assert Hex(b)[2..] == Hex(b[1..]);
    }
  }

  /** A txid prints the double hash from its last byte to its first. */
  lemma TxIdDigits(b: bytes, sha256: hash256, i: nat)
    requires i < 32
    ensures
      var digest := sha256(sha256(b));
      && TxId(sha256, b)[2 * i] == DIGITS[digest[31 - i] / 16]
      && TxId(sha256, b)[2 * i + 1] == DIGITS[digest[31 - i] % 16]
  {
    HexAt(Reversed(sha256(sha256(b))), i);
  }

  // ---------------------------------------------------------------------------
  // Naming the spent transaction
  // ---------------------------------------------------------------------------

  /** An input refers to a transaction by its txid exactly when its serialisation starts with the double
      hash of that transaction. */
  lemma SpenderSerialisesDigest(i: TxInput, b: bytes, sha256: hash256)
    ensures i.prevTxid == TxId(sha256, b) <==> PutInput(i)[..32] == sha256(sha256(b))
  {
    var digest := sha256(sha256(b));
    assert PutInput(i)[..32] == Reversed(FromHex(i.prevTxid));
    FromHexInvertsHex(Reversed(digest));
    HexInvertsFromHex(i.prevTxid);
    ReversedTwice(digest);
    ReversedTwice(FromHex(i.prevTxid));
    hide FromHex, Hex, Reversed, PutInput;
  }

  /** An input that is read names the decoded transaction by its txid exactly when it starts with the double
      hash of what the txid covers: the stripped form of a SegWit transaction, else all that was received. */
  lemma SpenderNamesTransaction(s: bytes, raw: bytes, testnet: bool, sha256: hash256)
    requires TakeInput(s).Parsed? && Decode(raw, testnet, sha256).Some?
    ensures
      var spent := Decode(raw, testnet, sha256).value;
      TakeInput(s).value.prevTxid == spent.txid
      <==> s[..32] == sha256(sha256(if spent.isSegwit then Legacy(spent.tx) else raw))
  {
    var spent := Decode(raw, testnet, sha256).value;
    var digest := sha256(sha256(if spent.isSegwit then Legacy(spent.tx) else raw));
    PrevoutRead(s);
    hide TakeInput;
    assert spent.txid == Hex(Reversed(digest)) by { hide TakeTx, Legacy, Hex, Reversed; }
    hide Decode;
    FromHexInvertsHex(Reversed(s[..32]));
    FromHexInvertsHex(Reversed(digest));
    ReversedTwice(s[..32]);
    ReversedTwice(digest);
    hide FromHex, Hex, Reversed;
  }

  lemma PrevoutRead(s: bytes)
    requires TakeInput(s).Parsed?
    ensures |s| >= 32 && TakeInput(s).value.prevTxid == Hex(Reversed(s[..32]))
  {
    hide TakeVarBytes, Hex, Reversed;
  }

  // ---------------------------------------------------------------------------
  // Marks and byte order
  // ---------------------------------------------------------------------------

  lemma LETwo(n: nat)
    ensures LE(n, 2) == [n % 256, n / 256 % 256]
  {
    assert LE(n / 256, 1) == [n / 256 % 256] + LE(n / 256 / 256, 0);
  }

  lemma LEFour(n: nat)
    ensures LE(n, 4) == [n % 256, n / 256 % 256, n / 0x1_0000 % 256, n / 0x100_0000 % 256]
  {
    LETwo(n);
    LETwo(n / 0x1_0000);
    assert LE(n, 4) == [n % 256, n / 256 % 256] + LE(n / 0x1_0000, 2);
  }

  lemma LEStep(n: nat, k: nat)
    ensures LE(n, k + 1) == [n % 256] + LE(n / 256, k)
  {
  }

  lemma LESkipTwo(n: nat, k: nat)
    ensures LE(n, k + 2) == [n % 256, n / 256 % 256] + LE(n / 0x1_0000, k)
  {
    hide LE;
    LEStep(n, k + 1);
    LEStep(n / 256, k);
    assert n / 256 / 256 == n / 0x1_0000;
  }

  lemma LEEight(n: nat)
    ensures LE(n, 8) == LE(n, 4) + LE(n / 0x1_0000_0000, 4)
  {
    hide LE;
    LESkipTwo(n, 6);
    LESkipTwo(n / 0x1_0000, 4);
    LESkipTwo(n, 2);
    LETwo(n / 0x1_0000);
    assert n / 0x1_0000 / 0x1_0000 == n / 0x1_0000_0000;
  }

  /** CompactSize: one byte up to 252; else a mark for two, four or eight bytes, lowest byte first. */
  lemma CompactSizes(n: u64)
    ensures n <= 252 ==> EncodeVarint(n) == [n]
    ensures 253 <= n <= 0xFFFF ==> EncodeVarint(n) == [0xFD, n % 256, n / 256]
    ensures 0x1_0000 <= n <= 0xFFFF_FFFF ==>
              EncodeVarint(n) == [0xFE, n % 256, n / 256 % 256, n / 0x1_0000 % 256, n / 0x100_0000]
    ensures 0x1_0000_0000 <= n ==>
              var high := n / 0x1_0000_0000;
              EncodeVarint(n) == [0xFF, n % 256, n / 256 % 256, n / 0x1_0000 % 256, n / 0x100_0000 % 256]
                                 + [high % 256, high / 256 % 256, high / 0x1_0000 % 256, high / 0x100_0000]
  {
    hide LE;
    if 253 <= n <= 0xFFFF { LETwo(n); }
    if 0x1_0000 <= n <= 0xFFFF_FFFF { LEFour(n); }
    if 0x1_0000_0000 <= n { WideCompactSize(n); }
  }

  lemma WideCompactSize(n: u64)
    requires 0x1_0000_0000 <= n
    ensures
      var high := n / 0x1_0000_0000;
      EncodeVarint(n) == [0xFF, n % 256, n / 256 % 256, n / 0x1_0000 % 256, n / 0x100_0000 % 256]
                         + [high % 256, high / 256 % 256, high / 0x1_0000 % 256, high / 0x100_0000]
  {
    hide LE;
    var high := n / 0x1_0000_0000;
    LEEight(n);
    LEFour(n);
    LEFour(high);
    assert high / 0x100_0000 % 256 == high / 0x100_0000;
  }

  lemma WrapsAround(v: int)
    ensures
      var u := v + 0x1_0000_0000;
      && u % 256 == v % 256 && u / 256 == v / 256 + 0x100_0000
      && u / 0x1_0000 == v / 0x1_0000 + 0x1_0000 && u / 0x100_0000 == v / 0x100_0000 + 0x100
  {
  }

  lemma SameRemainder(x: int, k: int)
    ensures (x + 256 * k) % 256 == x % 256
  {
  }

  /** Two's complement, lowest byte first; division and remainder round down. */
  lemma SignedBytes(v: i32)
    ensures PackI32(v) == [v % 256, v / 256 % 256, v / 0x1_0000 % 256, v / 0x100_0000 % 256]
  {
    hide LE;
    LEFour(if v < 0 then v + 0x1_0000_0000 else v);
    if v < 0 {
      WrapsAround(v);
      SameRemainder(v / 256, 0x1_0000);
      SameRemainder(v / 0x1_0000, 0x100);
      SameRemainder(v / 0x100_0000, 1);
    }
  }

  // ---------------------------------------------------------------------------
  // A transaction of BIP143
  // ---------------------------------------------------------------------------

  /** The signed transaction of BIP143, section "Native P2WPKH", with any digests, signatures, keys and
      scripts of the same lengths, and with what stands between version and inputs and before the lock time. */
  function Example(marker: bytes, d1: bytes, sig: bytes, d2: bytes, pk1: bytes, pk2: bytes, stacks: bytes): bytes {
    [0x01, 0x00, 0x00, 0x00] + (marker
    + (ExampleIn(d1, sig, d2)
       + (ExampleOut(pk1, pk2)
          + (stacks + [0x11, 0x00, 0x00, 0x00]))))
  }

  function ExampleIn(d1: bytes, sig: bytes, d2: bytes): bytes {
    [0x02] + ((d1 + [0x00, 0x00, 0x00, 0x00] + ([0x49] + sig) + [0xEE, 0xFF, 0xFF, 0xFF])
              + (d2 + [0x01, 0x00, 0x00, 0x00] + [0x00] + [0xFF, 0xFF, 0xFF, 0xFF]))
  }

  function ExampleOut(pk1: bytes, pk2: bytes): bytes {
    [0x02] + (([0x20, 0x2C, 0xB2, 0x06, 0x00, 0x00, 0x00, 0x00] + ([0x19] + pk1))
              + ([0x90, 0x93, 0x51, 0x0D, 0x00, 0x00, 0x00, 0x00] + ([0x19] + pk2)))
  }

  predicate ExampleParts(d1: bytes, sig: bytes, d2: bytes, pk1: bytes, pk2: bytes) {
    |d1| == 32 && |sig| == 0x49 && |d2| == 32 && |pk1| == 0x19 && |pk2| == 0x19
  }

  function ExampleTx(d1: bytes, sig: bytes, d2: bytes, pk1: bytes, pk2: bytes): Tx
    requires ExampleParts(d1, sig, d2, pk1, pk2)
  {
    Tx(1,
       [TxInput(Hex(Reversed(d1)), 0, sig, 0xFFFF_FFEE), TxInput(Hex(Reversed(d2)), 1, [], 0xFFFF_FFFF)],
       [TxOutput(112_340_000, pk1), TxOutput(223_450_000, pk2)],
       17)
  }

  /** Its bytes decode to the fields that BIP143 lists, and its txid covers its bytes without marker and
      witness. */
  lemma DecodesExample(d1: bytes, sig: bytes, d2: bytes, pk1: bytes, pk2: bytes, w1: bytes, w2: bytes,
                       testnet: bool, sha256: hash256)
    requires ExampleParts(d1, sig, d2, pk1, pk2) && |w1| == 0x47 && |w2| == 0x21
    ensures
      var spend := [0x00] + ([0x02] + ([0x47] + w1) + ([0x21] + w2));
      Decode(Example([0x00, 0x01], d1, sig, d2, pk1, pk2, spend), testnet, sha256)
      == Some(RawTx(TxId(sha256, Example([], d1, sig, d2, pk1, pk2, [])),
                    ExampleTx(d1, sig, d2, pk1, pk2), true, testnet))
  {
    var stacks: seq<stack> := [[], [w1, w2]];
    var spend := [0x00] + ([0x02] + ([0x47] + w1) + ([0x21] + w2));
    var raw := Example([0x00, 0x01], d1, sig, d2, pk1, pk2, spend);
    ExampleBytes(d1, sig, d2, pk1, pk2, w1, w2);
    hide Segwit, Legacy, Example, TxId, Decode, ExampleTx;
    TxidIgnoresWitness(ExampleTx(d1, sig, d2, pk1, pk2), stacks, [], testnet, sha256);
    assert raw + [] == raw;
  }

  lemma ExampleBytes(d1: bytes, sig: bytes, d2: bytes, pk1: bytes, pk2: bytes, w1: bytes, w2: bytes)
    requires ExampleParts(d1, sig, d2, pk1, pk2) && |w1| == 0x47 && |w2| == 0x21
    ensures
      var tx := ExampleTx(d1, sig, d2, pk1, pk2);
      var stacks: seq<stack> := [[], [w1, w2]];
      var spend := [0x00] + ([0x02] + ([0x47] + w1) + ([0x21] + w2));
      && |tx.inputs| == 2
      && Segwit(tx, stacks) == Example([0x00, 0x01], d1, sig, d2, pk1, pk2, spend)
      && Legacy(tx) == Example([], d1, sig, d2, pk1, pk2, [])
  {
    hide PutCounted, LE, PackI32, Hex, Reversed, PutMany, ExampleIn, ExampleOut;
    ExampleInputs(d1, sig, d2);
    ExampleOutputs(pk1, pk2);
    ExampleWitness(w1, w2);
    ExampleEnds();
    EmptyPut<stack>(PutStack);
    var ins, outs := ExampleIn(d1, sig, d2), ExampleOut(pk1, pk2);
    assert [] + (ins + (outs + ([] + [0x11, 0x00, 0x00, 0x00]))) == ins + (outs + ([] + [0x11, 0x00, 0x00, 0x00]));
  }

  lemma ExampleEnds()
    ensures PackI32(1) == [0x01, 0x00, 0x00, 0x00] && LE(17, 4) == [0x11, 0x00, 0x00, 0x00]
  {
    hide LE;
    LEFour(1);
    LEFour(17);
  }

  lemma ExampleInput(d: bytes, vout: u32, script: script, sequence: u32)
    requires |d| == 32 && |script| <= 252
    ensures PutInput(TxInput(Hex(Reversed(d)), vout, script, sequence))
            == d + LE(vout, 4) + ([|script|] + script) + LE(sequence, 4)
  {
    FromHexInvertsHex(Reversed(d));
    ReversedTwice(d);
    CompactSizes(|script|);
  }

  lemma TwoPut<T>(a: T, b: T, put: T -> bytes)
    ensures PutMany([a, b], put) == put(a) + put(b)
  {
    assert [a, b][1..] == [b] && [b][1..] == [];
    assert PutMany([b], put) == put(b) + PutMany([], put);
  }

  lemma FirstInput(d: bytes, sig: bytes)
    requires |d| == 32 && |sig| == 0x49
    ensures PutInput(TxInput(Hex(Reversed(d)), 0, sig, 0xFFFF_FFEE))
            == d + [0x00, 0x00, 0x00, 0x00] + ([0x49] + sig) + [0xEE, 0xFF, 0xFF, 0xFF]
  {
    hide LE, Hex, Reversed, PutInput;
    ExampleInput(d, 0, sig, 0xFFFF_FFEE);
    LEFour(0); LEFour(0xFFFF_FFEE);
  }

  lemma SecondInput(d: bytes)
    requires |d| == 32
    ensures PutInput(TxInput(Hex(Reversed(d)), 1, [], 0xFFFF_FFFF))
            == d + [0x01, 0x00, 0x00, 0x00] + [0x00] + [0xFF, 0xFF, 0xFF, 0xFF]
  {
    hide LE, Hex, Reversed, PutInput;
    ExampleInput(d, 1, [], 0xFFFF_FFFF);
    LEFour(1); LEFour(0xFFFF_FFFF);
    assert [0x00] + [] == [0x00 as byte];
  }

  lemma ExampleInputs(d1: bytes, sig: bytes, d2: bytes)
    requires |d1| == 32 && |sig| == 0x49 && |d2| == 32
    ensures
      PutCounted([TxInput(Hex(Reversed(d1)), 0, sig, 0xFFFF_FFEE), TxInput(Hex(Reversed(d2)), 1, [], 0xFFFF_FFFF)],
                 PutInput)
      == ExampleIn(d1, sig, d2)
  {
    hide LE, Hex, Reversed, PutInput, PutMany, EncodeVarint;
    FirstInput(d1, sig);
    SecondInput(d2);
    CompactSizes(2);
    TwoPut(TxInput(Hex(Reversed(d1)), 0, sig, 0xFFFF_FFEE), TxInput(Hex(Reversed(d2)), 1, [], 0xFFFF_FFFF), PutInput);
  }

  lemma ExampleAmounts()
    ensures LE(112_340_000, 8) == [0x20, 0x2C, 0xB2, 0x06, 0x00, 0x00, 0x00, 0x00]
    ensures LE(223_450_000, 8) == [0x90, 0x93, 0x51, 0x0D, 0x00, 0x00, 0x00, 0x00]
  {
    hide LE;
    LEEight(112_340_000); LEFour(112_340_000); LEFour(0);
    LEEight(223_450_000); LEFour(223_450_000);
  }

  lemma ExampleOutputs(pk1: bytes, pk2: bytes)
    requires |pk1| == 0x19 && |pk2| == 0x19
    ensures PutCounted([TxOutput(112_340_000, pk1), TxOutput(223_450_000, pk2)], PutOutput) == ExampleOut(pk1, pk2)
  {
    hide LE, PutMany, EncodeVarint;
    ExampleAmounts();
    CompactSizes(2);
    CompactSizes(0x19);
    TwoPut(TxOutput(112_340_000, pk1), TxOutput(223_450_000, pk2), PutOutput);
  }

  lemma ExampleWitness(w1: bytes, w2: bytes)
    requires |w1| == 0x47 && |w2| == 0x21
    ensures
      var stacks: seq<stack> := [[], [w1, w2]];
      PutMany(stacks, PutStack) == [0x00] + ([0x02] + ([0x47] + w1) + ([0x21] + w2))
  {
    hide PutMany, LE, EncodeVarint;
    TwoPut<script>(w1, w2, PutVarBytes);
    TwoPut<stack>([], [w1, w2], PutStack);
    CompactSizes(0); CompactSizes(2); CompactSizes(0x47); CompactSizes(0x21);
    EmptyPut<script>(PutVarBytes);
    assert PutStack([]) == [0x00];
    assert [0x02] + (([0x47] + w1) + ([0x21] + w2)) == [0x02] + ([0x47] + w1) + ([0x21] + w2);
  }

  lemma EmptyPut<T>(put: T -> bytes)
    ensures PutMany([], put) == []
  {
  }
}
