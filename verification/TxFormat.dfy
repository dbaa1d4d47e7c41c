/** The transaction wire format: what a cursor over a byte string reads, what the
    serialisers write, and how the two are related. A reader returns the value and the
    bytes that remain, or `Truncated` where the cursor raises "Unexpected end of data".

    The types carry the ranges of the wire format, so every value is serialisable:
    32- and 64-bit fields, 64 lower-case hex digits for a txid, and lengths below 2^64. */
module TxFormat {
  import opened ByteStrings

  datatype Parsed<+T> = Truncated | Parsed(value: T, rest: bytes) {
    predicate IsFailure() {
      Truncated?
    }

    function PropagateFailure<U>(): Parsed<U>
      requires Truncated?
    {
      Truncated
    }

    function Extract(): (T, bytes)
      requires Parsed?
    {
      (value, rest)
    }
  }

  type counted<T> = s: seq<T> | |s| < 0x1_0000_0000_0000_0000
  type script = counted<byte>
  type stack = counted<script>
  type txid = s: string | |s| == 64 && IsHex(s) witness Hex(seq(32, _ => 0))

  datatype TxInput = TxInput(prevTxid: txid, prevVout: u32, scriptSig: script, sequence: u32)
  datatype TxOutput = TxOutput(valueSat: u64, scriptPubkey: script)

  /** The fields that both serialisations carry. */
  datatype Tx = Tx(version: i32, inputs: counted<TxInput>, outputs: counted<TxOutput>, locktime: u32)

  // ---------------------------------------------------------------------------
  // Readers
  // ---------------------------------------------------------------------------

  function TakeBytes(s: bytes, n: nat): Parsed<bytes> {
    if |s| < n then Truncated else Parsed(s[..n], s[n..])
  }

  function TakeU32(s: bytes): Parsed<u32> {
    var (b, s) :- TakeBytes(s, 4);
    LEInvertsFromLE(b); Widths();
    Parsed(FromLE(b), s)
  }

  function TakeI32(s: bytes): Parsed<i32> {
    var (b, s) :- TakeBytes(s, 4);
    Parsed(UnpackI32(b), s)
  }

  function TakeU64(s: bytes): Parsed<u64> {
    var (b, s) :- TakeBytes(s, 8);
    LEInvertsFromLE(b); Widths();
    Parsed(FromLE(b), s)
  }

  /** How many bytes follow the first byte of a CompactSize. */
  function VarintWidth(first: byte): nat {
    if first < 0xFD then 0 else if first == 0xFD then 2 else if first == 0xFE then 4 else 8
  }

  function TakeVarint(s: bytes): Parsed<u64> {
    var (first, s) :- TakeBytes(s, 1);
    if first[0] < 0xFD then
      Parsed(first[0], s)
    else
      var (b, s) :- TakeBytes(s, VarintWidth(first[0]));
      LEInvertsFromLE(b); Widths();
      Parsed(FromLE(b), s)
  }

  function TakeVarBytes(s: bytes): Parsed<script> {
    var (n, s) :- TakeVarint(s);
    var (b, s) :- TakeBytes(s, n);
    Parsed(b, s)
  }

  function TakeMany<T>(n: nat, s: bytes, take: bytes -> Parsed<T>): (p: Parsed<seq<T>>)
    ensures p.Parsed? ==> |p.value| == n
    decreases n
  {
    if n == 0 then
      Parsed([], s)
    else
      var (x, s) :- take(s);
      var (xs, s) :- TakeMany(n - 1, s, take);
      Parsed([x] + xs, s)
  }

  function TakeCounted<T>(s: bytes, take: bytes -> Parsed<T>): Parsed<counted<T>> {
    var (n, s) :- TakeVarint(s);
    var (xs, s) :- TakeMany(n, s, take);
    Parsed(xs, s)
  }

  function TakeInput(s: bytes): Parsed<TxInput> {
    var (prev, s) :- TakeBytes(s, 32);
    var (vout, s) :- TakeU32(s);
    var (script, s) :- TakeVarBytes(s);
    var (sequence, s) :- TakeU32(s);
    Parsed(TxInput(Hex(Reversed(prev)), vout, script, sequence), s)
  }

  function TakeOutput(s: bytes): Parsed<TxOutput> {
    var (value, s) :- TakeU64(s);
    var (script, s) :- TakeVarBytes(s);
    Parsed(TxOutput(value, script), s)
  }

  function TakeStack(s: bytes): Parsed<stack> {
    TakeCounted(s, TakeVarBytes)
  }

  /** The marker and flag of BIP144, section "Serialization". */
  predicate HasMarker(s: bytes) {
    |s| >= 2 && s[0] == 0 && s[1] == 1
  }

  /** What follows the version and the optional marker. */
  function TakeBody(version: i32, segwit: bool, s: bytes): (p: Parsed<(Tx, bool)>)
    ensures p.Parsed? ==> p.value.0.version == version && p.value.1 == segwit
  {
    var (inputs, s) :- TakeCounted(s, TakeInput);
    var (outputs, s) :- TakeCounted(s, TakeOutput);
    var (_, s) :- TakeMany(if segwit then |inputs| else 0, s, TakeStack);
    var (locktime, s) :- TakeU32(s);
    Parsed((Tx(version, inputs, outputs, locktime), segwit), s)
  }

  /** Everything the decoder reads, and whether it saw the SegWit marker. */
  function TakeTx(raw: bytes): Parsed<(Tx, bool)> {
    var (version, s) :- TakeI32(raw);
    if HasMarker(s) then TakeBody(version, true, s[2..]) else TakeBody(version, false, s)
  }

  // ---------------------------------------------------------------------------
  // Writers
  // ---------------------------------------------------------------------------

  function EncodeVarint(n: u64): (b: bytes)
    ensures 1 <= |b| <= 9
  {
    if n < 0xFD then [n]
    else if n <= 0xFFFF then [0xFD] + LE(n, 2)
    else if n <= 0xFFFF_FFFF then [0xFE] + LE(n, 4)
    else [0xFF] + LE(n, 8)
  }

  function PutVarBytes(b: script): bytes {
    EncodeVarint(|b|) + b
  }

  function PutMany<T>(xs: seq<T>, put: T -> bytes): bytes {
    if xs == [] then [] else put(xs[0]) + PutMany(xs[1..], put)
  }

  function PutCounted<T>(xs: counted<T>, put: T -> bytes): bytes {
    EncodeVarint(|xs|) + PutMany(xs, put)
  }

  function PutInput(i: TxInput): bytes {
    Reversed(FromHex(i.prevTxid)) + LE(i.prevVout, 4) + PutVarBytes(i.scriptSig) + LE(i.sequence, 4)
  }

  function PutOutput(o: TxOutput): bytes {
    LE(o.valueSat, 8) + PutVarBytes(o.scriptPubkey)
  }

  function PutStack(s: stack): bytes {
    PutCounted(s, PutVarBytes)
  }

  function PutBody(tx: Tx, stacks: seq<stack>): bytes {
    PutCounted(tx.inputs, PutInput) + (PutCounted(tx.outputs, PutOutput)
    + (PutMany(stacks, PutStack) + LE(tx.locktime, 4)))
  }

  /** The serialisation without witness data, whose double hash is the txid. */
  function Legacy(tx: Tx): bytes {
    PackI32(tx.version) + PutBody(tx, [])
  }

  /** The BIP144 serialisation: marker, flag, and one witness stack for each input. */
  function Segwit(tx: Tx, stacks: seq<stack>): bytes
    requires |stacks| == |tx.inputs|
  {
    PackI32(tx.version) + ([0, 1] + PutBody(tx, stacks))
  }
}
