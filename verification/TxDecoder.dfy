/** The raw transaction decoder of the watcher: a cursor over the received bytes, the decoding
    loops, and the re-serialiser that yields the txid preimage of a SegWit transaction. */
module TxDecoder {
  import opened ByteStrings
  import opened TxFormat
  import opened TxTheorems

  /** SHA-256 is a parameter: any function with 32-byte results. */
  type hash256 = h: bytes -> bytes | forall b :: |h(b)| == 32 witness _ => seq(32, _ => 0)

  datatype RawTx = RawTx(txid: txid, tx: Tx, isSegwit: bool, testnet: bool)

  function TxId(sha256: hash256, preimage: bytes): txid {
    Hex(Reversed(sha256(sha256(preimage))))
  }

  /** What `decode_raw_tx` returns, `None` standing for its `ValueError`. */
  function Decode(raw: bytes, testnet: bool, sha256: hash256): Option<RawTx> {
    match TakeTx(raw)
    case Truncated => None
    case Parsed((tx, segwit), _) =>
      Some(RawTx(TxId(sha256, if segwit then Legacy(tx) else raw), tx, segwit, testnet))
  }

  // ---------------------------------------------------------------------------
  // The cursor
  // ---------------------------------------------------------------------------

  /** The value of a read, or the error "Unexpected end of data". */
  datatype Outcome<+T> = EndOfData | Got(value: T) {
    predicate IsFailure() {
      EndOfData?
    }

    function PropagateFailure<U>(): Outcome<U>
      requires EndOfData?
    {
      EndOfData
    }

    function Extract(): T
      requires Got?
    {
      value
    }
  }

  class Reader {
    const data: bytes
    var pos: nat

    ghost predicate Valid()
      reads this
    {
      pos <= |data|
    }

    ghost function Rest(): bytes
      requires Valid()
      reads this
    {
      data[pos..]
    }

    /** The outcome and the new position are those of the reader `p` on the bytes before. */
    ghost predicate Did<T>(p: Parsed<T>, outcome: Outcome<T>)
      requires Valid()
      reads this
    {
      match p
      case Truncated => outcome.EndOfData?
      case Parsed(x, rest) => outcome == Got(x) && Rest() == rest
    }

    constructor (data: bytes)
      ensures Valid() && this.data == data && Rest() == data
    {
      this.data := data;
      pos := 0;
    }

    method Read(n: nat) returns (chunk: Outcome<bytes>)
      requires Valid()
      modifies this
      ensures Valid() && Did(TakeBytes(old(Rest()), n), chunk)
      ensures chunk.EndOfData? ==> pos == old(pos)
    {
      var slice := data[pos..if pos + n <= |data| then pos + n else |data|];
      if |slice| < n {
        return EndOfData;
      }
      assert slice == Rest()[..n] && data[pos + n..] == Rest()[n..];
      pos := pos + n;
      return Got(slice);
    }

    method ReadVarint() returns (r: Outcome<u64>)
      requires Valid()
      modifies this
      ensures Valid() && Did(TakeVarint(old(Rest())), r)
    {
      var b :- Read(1);
      var first := b[0];
      if first < 0xFD {
        return Got(first);
      }
      Widths();
      if first == 0xFD {
        b :- Read(2);
      } else if first == 0xFE {
        b :- Read(4);
      } else {
        b :- Read(8);
      }
      LEInvertsFromLE(b);
      return Got(FromLE(b));
    }

    method ReadU32() returns (r: Outcome<u32>)
      requires Valid()
      modifies this
      ensures Valid() && Did(TakeU32(old(Rest())), r)
    {
      var b :- Read(4);
      LEInvertsFromLE(b); Widths();
      return Got(FromLE(b));
    }

    method ReadI32() returns (r: Outcome<i32>)
      requires Valid()
      modifies this
      ensures Valid() && Did(TakeI32(old(Rest())), r)
    {
      var b :- Read(4);
      return Got(UnpackI32(b));
    }

    method ReadU64() returns (r: Outcome<u64>)
      requires Valid()
      modifies this
      ensures Valid() && Did(TakeU64(old(Rest())), r)
    {
      var b :- Read(8);
      LEInvertsFromLE(b); Widths();
      return Got(FromLE(b));
    }

    method ReadVarBytes() returns (r: Outcome<script>)
      requires Valid()
      modifies this
      ensures Valid() && Did(TakeVarBytes(old(Rest())), r)
    {
      var n :- ReadVarint();
      var b :- Read(n);
      return Got(b);
    }

    method ReadInput() returns (r: Outcome<TxInput>)
      requires Valid()
      modifies this
      ensures Valid() && Did(TakeInput(old(Rest())), r)
    {
      var prev :- Read(32);
      var vout :- ReadU32();
      var script :- ReadVarBytes();
      var sequence :- ReadU32();
      return Got(TxInput(Hex(Reversed(prev)), vout, script, sequence));
    }

    method ReadOutput() returns (r: Outcome<TxOutput>)
      requires Valid()
      modifies this
      ensures Valid() && Did(TakeOutput(old(Rest())), r)
    {
      var value :- ReadU64();
      var script :- ReadVarBytes();
      return Got(TxOutput(value, script));
    }

    method ReadInputs() returns (r: Outcome<counted<TxInput>>)
      requires Valid()
      modifies this
      ensures Valid() && Did(TakeCounted(old(Rest()), TakeInput), r)
    {
      hide TakeInput;
      var count :- ReadVarint();
      var inputs: seq<TxInput> := [];
      ghost var start := Rest();
      for i := 0 to count
        invariant Valid() && TakeMany(i, start, TakeInput) == Parsed(inputs, Rest())
      {
        ManyExtends(i, count, start, TakeInput);
        var input :- ReadInput();
        inputs := inputs + [input];
      }
      return Got(inputs);
    }

    method ReadOutputs() returns (r: Outcome<counted<TxOutput>>)
      requires Valid()
      modifies this
      ensures Valid() && Did(TakeCounted(old(Rest()), TakeOutput), r)
    {
      hide TakeOutput;
      var count :- ReadVarint();
      var outputs: seq<TxOutput> := [];
      ghost var start := Rest();
      for i := 0 to count
        invariant Valid() && TakeMany(i, start, TakeOutput) == Parsed(outputs, Rest())
      {
        ManyExtends(i, count, start, TakeOutput);
        var output :- ReadOutput();
        outputs := outputs + [output];
      }
      return Got(outputs);
    }

    /** Skips one witness stack; the items are kept for the specification only. */
    method SkipStack() returns (r: Outcome<()>, ghost items: seq<script>)
      requires Valid()
      modifies this
      ensures Valid() && (r.Got? <==> TakeStack(old(Rest())).Parsed?)
      ensures r.Got? ==> TakeStack(old(Rest())) == Parsed(items, Rest())
    {
      items := [];
      var count := ReadVarint();
      if count.EndOfData? {
        return EndOfData, items;
      }
      ghost var start := Rest();
      for i := 0 to count.value
        invariant Valid() && TakeMany(i, start, TakeVarBytes) == Parsed(items, Rest())
      {
        ManyExtends(i, count.value, start, TakeVarBytes);
        var item := ReadVarBytes();
        if item.EndOfData? {
          return EndOfData, items;
        }
        items := items + [item.value];
      }
      return Got(()), items;
    }

    method SkipWitness(count: nat) returns (r: Outcome<()>, ghost stacks: seq<stack>)
      requires Valid()
      modifies this
      ensures Valid() && (r.Got? <==> TakeMany(count, old(Rest()), TakeStack).Parsed?)
      ensures r.Got? ==> TakeMany(count, old(Rest()), TakeStack) == Parsed(stacks, Rest())
    {
      stacks := [];
      ghost var start := Rest();
      for i := 0 to count
        invariant Valid() && TakeMany(i, start, TakeStack) == Parsed(stacks, Rest())
      {
        ManyExtends(i, count, start, TakeStack);
        var skipped, items := SkipStack();
        if skipped.EndOfData? {
          return EndOfData, stacks;
        }
        stacks := stacks + [items];
      }
      return Got(()), stacks;
    }

    /** Inputs, outputs, witness and locktime, once the version and the marker have been read. */
    method ReadBody(version: i32, segwit: bool) returns (r: Outcome<(Tx, bool)>)
      requires Valid()
      modifies this
      ensures Valid() && Did(TakeBody(version, segwit, old(Rest())), r)
    {
      var inputs :- ReadInputs();
      var outputs :- ReadOutputs();
      ghost var rest := Rest();
      if segwit {
        var skipped, stacks := SkipWitness(|inputs|);
        if skipped.EndOfData? {
          return EndOfData;
        }
      }
      var locktime :- ReadU32();
      return Got((Tx(version, inputs, outputs, locktime), segwit));
    }

    method ReadTx() returns (r: Outcome<(Tx, bool)>)
      requires Valid()
      modifies this
      ensures Valid() && Did(TakeTx(old(Rest())), r)
    {
      hide TakeBody;
      var version :- ReadI32();
      var isSegwit := false;
      ghost var s := Rest();
      var marker := data[pos..if pos + 2 <= |data| then pos + 2 else |data|];
      assert marker == s[..if |s| < 2 then |s| else 2];
      if marker == [0, 1] {
        isSegwit := true;
        var _ := Read(2);
      }
      assert isSegwit == HasMarker(s) && Rest() == if isSegwit then s[2..] else s;
      r := ReadBody(version, isSegwit);
    }
  }

  /** What the next iteration of a counted loop will have read, and that an error there is final. */
  lemma {:induction false} ManyExtends<T>(m: nat, n: nat, s: bytes, take: bytes -> Parsed<T>)
    requires m < n && TakeMany(m, s, take).Parsed?
    ensures
      var Parsed(xs, rest) := TakeMany(m, s, take);
      match take(rest)
      case Truncated => TakeMany(n, s, take).Truncated?
      case Parsed(x, r) => TakeMany(m + 1, s, take) == Parsed(xs + [x], r)
    decreases m
  {
    if m == 0 {
      if take(s).Parsed? {
        assert [take(s).value] + [] == [] + [take(s).value];
      }
    } else {
      ManyExtends(m - 1, n - 1, take(s).rest, take);
      var xs := TakeMany(m - 1, take(s).rest, take);
      if take(xs.rest).Parsed? {
        assert [take(s).value] + (xs.value + [take(xs.rest).value])
            == [take(s).value] + xs.value + [take(xs.rest).value];
      }
    }
  }

  method DecodeRawTx(raw: bytes, testnet: bool, sha256: hash256) returns (res: Option<RawTx>)
    ensures res == Decode(raw, testnet, sha256)
  {
    hide TakeTx, Legacy;
    var r := new Reader(raw);
    var body := r.ReadTx();
    if body.EndOfData? {
      return None;
    }
    var (tx, isSegwit) := body.value;
    var preimage := raw;
    if isSegwit {
      preimage := LegacySerialise(tx.version, tx.inputs, tx.outputs, tx.locktime);
    }
    return Some(RawTx(TxId(sha256, preimage), tx, isSegwit, testnet));
  }

  // ---------------------------------------------------------------------------
  // The re-serialiser
  // ---------------------------------------------------------------------------

  method AppendInput(buf: bytes, input: TxInput) returns (res: bytes)
    ensures res == buf + PutInput(input)
  {
    res := buf;
    res := res + Reversed(FromHex(input.prevTxid));
    res := res + LE(input.prevVout, 4);
    res := res + EncodeVarint(|input.scriptSig|);
    res := res + input.scriptSig;
    res := res + LE(input.sequence, 4);
  }

  method AppendOutput(buf: bytes, output: TxOutput) returns (res: bytes)
    ensures res == buf + PutOutput(output)
  {
    res := buf;
    res := res + LE(output.valueSat, 8);
    res := res + EncodeVarint(|output.scriptPubkey|);
    res := res + output.scriptPubkey;
  }

  method AppendInputs(buf: bytes, inputs: counted<TxInput>) returns (res: bytes)
    ensures res == buf + PutCounted(inputs, PutInput)
  {
    hide PutInput;
    res := buf + EncodeVarint(|inputs|);
    ghost var head := res;
    for i := 0 to |inputs|
      invariant res == head + PutMany(inputs[..i], PutInput)
    {
      PutManyExtends(inputs, i, PutInput);
      res := AppendInput(res, inputs[i]);
    }
    assert inputs[..|inputs|] == inputs;
  }

  method AppendOutputs(buf: bytes, outputs: counted<TxOutput>) returns (res: bytes)
    ensures res == buf + PutCounted(outputs, PutOutput)
  {
    hide PutOutput;
    res := buf + EncodeVarint(|outputs|);
    ghost var head := res;
    for i := 0 to |outputs|
      invariant res == head + PutMany(outputs[..i], PutOutput)
    {
      PutManyExtends(outputs, i, PutOutput);
      res := AppendOutput(res, outputs[i]);
    }
    assert outputs[..|outputs|] == outputs;
  }

  lemma {:induction false} PutManyExtends<T>(xs: seq<T>, i: nat, put: T -> bytes)
    requires i < |xs|
    ensures PutMany(xs[..i + 1], put) == PutMany(xs[..i], put) + put(xs[i])
  {
    if i != 0 {
      PutManyExtends(xs[1..], i - 1, put);
      assert xs[..i + 1][1..] == xs[1..][..i] && xs[..i][1..] == xs[1..][..i - 1];
    }
  }

  method LegacySerialise(version: i32, inputs: counted<TxInput>, outputs: counted<TxOutput>, locktime: u32)
    returns (buf: bytes)
    ensures buf == Legacy(Tx(version, inputs, outputs, locktime))
  {
    hide PutInput, PutOutput, PutCounted, PackI32;
    buf := PackI32(version);
    buf := AppendInputs(buf, inputs);
    buf := AppendOutputs(buf, outputs);
    buf := buf + LE(locktime, 4);
  }

  // ---------------------------------------------------------------------------
  // What the watcher may rely on
  // ---------------------------------------------------------------------------

  /** Decoding inverts the stripped serialisation, exactly when the counts of the transaction
      do not read as the SegWit marker. */
  lemma DecodeInvertsLegacy(tx: Tx, testnet: bool, sha256: hash256)
    ensures Decode(Legacy(tx), testnet, sha256) == Some(RawTx(TxId(sha256, Legacy(tx)), tx, false, testnet))
            <==> |tx.inputs| > 0 || |tx.outputs| != 1
  {
    hide TakeBody, PutBody;
    LegacyRoundTrip(tx, []);
    assert Legacy(tx) + [] == Legacy(tx);
    if |tx.inputs| == 0 && |tx.outputs| == 1 && TakeTx(Legacy(tx)).Parsed? {
      TxSplits(tx.version, PutBody(tx, []));
      MarkerIsAmbiguous(tx, []);
      assert PutBody(tx, []) + [] == PutBody(tx, []);
    }
  }

  /** The txid does not depend on the witness (BIP141, section "Transaction ID"): every SegWit
      encoding of a transaction, whatever follows it, hashes the stripped encoding. */
  lemma TxidIgnoresWitness(tx: Tx, stacks: seq<stack>, rest: bytes, testnet: bool, sha256: hash256)
    requires |stacks| == |tx.inputs|
    ensures Decode(Segwit(tx, stacks) + rest, testnet, sha256)
            == Some(RawTx(TxId(sha256, Legacy(tx)), tx, true, testnet))
  {
    SegwitRoundTrip(tx, stacks, rest);
  }

  /** Both encodings of one transaction are recognised under one txid. */
  lemma SameTxid(tx: Tx, stacks: seq<stack>, testnet: bool, sha256: hash256)
    requires |stacks| == |tx.inputs| && (|tx.inputs| > 0 || |tx.outputs| != 1)
    ensures
      var a := Decode(Legacy(tx), testnet, sha256);
      var b := Decode(Segwit(tx, stacks), testnet, sha256);
      a.Some? && b.Some? && a.value.(isSegwit := true) == b.value
  {
    DecodeInvertsLegacy(tx, testnet, sha256);
    TxidIgnoresWitness(tx, stacks, [], testnet, sha256);
    assert Segwit(tx, stacks) + [] == Segwit(tx, stacks);
  }

  /** A stripped transaction followed by other bytes keeps its fields, but its txid hashes
      those bytes too. */
  lemma LegacyTxidCoversTrailingBytes(raw: bytes, t: bytes, testnet: bool, sha256: hash256)
    requires TakeTx(raw).Parsed? && !TakeTx(raw).value.1
    ensures
      var a := Decode(raw, testnet, sha256);
      var b := Decode(raw + t, testnet, sha256);
      a.Some? && b.Some? && b.value == a.value.(txid := TxId(sha256, raw + t))
  {
    TrailingBytes(raw, t);
  }

  /** Exactly when accepted stripped bytes are their own serialisation: when nothing follows the
      transaction and none of its CompactSizes is wider than needed. */
  lemma OwnPreimage(raw: bytes)
    requires TakeTx(raw).Parsed? && !TakeTx(raw).value.1
    ensures raw == Legacy(TakeTx(raw).value.0) <==> TakeTx(raw).rest == [] && BodySlack(false, raw[4..]).0 == 0
  {
    ReserialisationShrinks(raw);
    hide BodySlack, TakeTx, Legacy;
    var Parsed((tx, _), rest) := TakeTx(raw);
    assert Legacy(tx) + [] == Legacy(tx);
  }

  lemma StrippedTxid(raw: bytes, testnet: bool, sha256: hash256)
    requires TakeTx(raw).Parsed? && !TakeTx(raw).value.1
    ensures Decode(raw, testnet, sha256).Some? && Decode(raw, testnet, sha256).value.txid == TxId(sha256, raw)
  {
    hide TakeTx, Legacy, TxId;
  }

  /** And exactly then the txid of a stripped transaction is that of its serialisation, whatever the hash. */
  lemma LegacyTxidIsItsOwn(raw: bytes, testnet: bool)
    requires TakeTx(raw).Parsed? && !TakeTx(raw).value.1
    ensures forall sha256: hash256 :: Decode(raw, testnet, sha256).Some?
    ensures
      (forall sha256: hash256 ::
         Decode(raw, testnet, sha256).value.txid == TxId(sha256, Legacy(TakeTx(raw).value.0)))
      <==> TakeTx(raw).rest == [] && BodySlack(false, raw[4..]).0 == 0
  {
    OwnPreimage(raw);
    forall sha256: hash256
      ensures Decode(raw, testnet, sha256).Some? && Decode(raw, testnet, sha256).value.txid == TxId(sha256, raw)
    {
      StrippedTxid(raw, testnet, sha256);
    }
    hide *;
    TxIdsSeparate(raw, Legacy(TakeTx(raw).value.0));
  }

  /** Preimages are equal exactly when their txids are equal under every hash function. */
  lemma TxIdsSeparate(a: bytes, b: bytes)
    ensures (forall sha256: hash256 :: TxId(sha256, a) == TxId(sha256, b)) <==> a == b
  {
    if a != b {
      var sha256 := HashThatSeparates(a, b);
      hide TxId;
      assert TxId(sha256, a) != TxId(sha256, b);
    }
  }

  /** Two different preimages have different txids under some hash function. */
  lemma HashThatSeparates(a: bytes, b: bytes) returns (sha256: hash256)
    requires a != b
    ensures TxId(sha256, a) != TxId(sha256, b)
  {
    var y := Unlike(a, b, 0);
    var z := Unlike(a, b, y[0] + 1);
    sha256 := x => if x == a || x == y then y else z;
    assert sha256(sha256(a)) == y && sha256(sha256(b)) == z;
    HashesDiffer(y, z);
  }

  /** Thirty-two equal bytes that are neither string, from `k` on. */
  lemma Unlike(a: bytes, b: bytes, k: nat) returns (h: bytes)
    requires k <= 3
    ensures |h| == 32 && k <= h[0] <= k + 2 && h != a && h != b
  {
    h := seq(32, _ => k);
    if h == a || h == b {
      h := seq(32, _ => k + 1);
      if h == a || h == b {
        h := seq(32, _ => k + 2);
      }
    }
  }

  /** Different hashes are printed differently. */
  lemma HashesDiffer(y: bytes, z: bytes)
    requires y != z
    ensures Hex(Reversed(y)) != Hex(Reversed(z))
  {
    FromHexInvertsHex(Reversed(y));
    FromHexInvertsHex(Reversed(z));
    ReversedTwice(y);
    ReversedTwice(z);
  }
}
