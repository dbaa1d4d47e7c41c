/** What the decoder and the serialisers guarantee to each other. */
module TxTheorems {
  import opened ByteStrings
  import opened TxFormat

  // ---------------------------------------------------------------------------
  // Reading back what was written
  // ---------------------------------------------------------------------------

  ghost predicate Inverts<T(!new)>(take: bytes -> Parsed<T>, put: T -> bytes) {
    forall x: T, rest: bytes :: take(put(x) + rest) == Parsed(x, rest)
  }

  lemma TakeAppended(a: bytes, rest: bytes)
    ensures TakeBytes(a + rest, |a|) == Parsed(a, rest)
  {
    assert (a + rest)[..|a|] == a;
    assert (a + rest)[|a|..] == rest;
  }

  lemma TakeLE32(n: u32, rest: bytes)
    ensures TakeU32(LE(n, 4) + rest) == Parsed(n, rest)
  {
    Widths(); FromLEInvertsLE(n, 4); TakeAppended(LE(n, 4), rest);
  }

  lemma TakeLE64(n: u64, rest: bytes)
    ensures TakeU64(LE(n, 8) + rest) == Parsed(n, rest)
  {
    Widths(); FromLEInvertsLE(n, 8); TakeAppended(LE(n, 8), rest);
  }

  lemma VarintRoundTrip(n: u64, rest: bytes)
    ensures TakeVarint(EncodeVarint(n) + rest) == Parsed(n, rest)
  {
    Widths();
    var e := EncodeVarint(n);
    assert e + rest == [e[0]] + (e[1..] + rest);
    TakeAppended([e[0]], e[1..] + rest);
    if n >= 0xFD {
      var width := VarintWidth(e[0]);
      assert e[1..] == LE(n, width);
      FromLEInvertsLE(n, width);
      TakeAppended(LE(n, width), rest);
    }
  }

  lemma VarBytesReadBack(b: script, rest: bytes)
    ensures TakeVarBytes(PutVarBytes(b) + rest) == Parsed(b, rest)
  {
    hide TakeVarint, EncodeVarint;
    assert PutVarBytes(b) + rest == EncodeVarint(|b|) + (b + rest);
    VarintRoundTrip(|b|, b + rest);
    TakeAppended(b, rest);
  }

  lemma VarBytesRoundTrip()
    ensures Inverts(TakeVarBytes, PutVarBytes)
  {
    forall b: script, rest: bytes ensures TakeVarBytes(PutVarBytes(b) + rest) == Parsed(b, rest) {
      VarBytesReadBack(b, rest);
    }
  }

  lemma {:induction false} ManyRoundTrip<T(!new)>(xs: seq<T>, rest: bytes, take: bytes -> Parsed<T>, put: T -> bytes)
    requires Inverts(take, put)
    ensures TakeMany(|xs|, PutMany(xs, put) + rest, take) == Parsed(xs, rest)
  {
    if xs != [] {
      var tail := PutMany(xs[1..], put) + rest;
      assert PutMany(xs, put) + rest == put(xs[0]) + tail;
      ManyRoundTrip(xs[1..], rest, take, put);
      assert xs == [xs[0]] + xs[1..];
    } else {
      assert PutMany(xs, put) + rest == rest;
    }
  }

  lemma CountedRoundTrip<T(!new)>(xs: counted<T>, rest: bytes, take: bytes -> Parsed<T>, put: T -> bytes)
    requires Inverts(take, put)
    ensures TakeCounted(PutCounted(xs, put) + rest, take) == Parsed(xs, rest)
  {
    assert PutCounted(xs, put) + rest == EncodeVarint(|xs|) + (PutMany(xs, put) + rest);
    VarintRoundTrip(|xs|, PutMany(xs, put) + rest);
    ManyRoundTrip(xs, rest, take, put);
  }

  lemma Assoc(a: bytes, b: bytes, c: bytes)
    ensures (a + b) + c == a + (b + c)
  {
  }

  lemma AssocFour(a: bytes, b: bytes, c: bytes, d: bytes, e: bytes)
    ensures a + b + c + d + e == a + (b + (c + (d + e)))
  {
    Assoc(a + b + c, d, e); Assoc(a + b, c, d + e); Assoc(a, b, c + (d + e));
  }

  lemma InputReadsBack(i: TxInput, rest: bytes)
    ensures TakeInput(PutInput(i) + rest) == Parsed(i, rest)
  {
    hide TakeVarBytes, PutVarBytes, LE, FromLE, Hex, FromHex, Reversed, Inverts, TakeU32;
    var prev, vout := Reversed(FromHex(i.prevTxid)), LE(i.prevVout, 4);
    var script, sequence := PutVarBytes(i.scriptSig), LE(i.sequence, 4);
    AssocFour(prev, vout, script, sequence, rest);
    TakeAppended(prev, vout + (script + (sequence + rest)));
    TakeLE32(i.prevVout, script + (sequence + rest));
    VarBytesReadBack(i.scriptSig, sequence + rest);
    TakeLE32(i.sequence, rest);
    ReversedTwice(FromHex(i.prevTxid));
    HexInvertsFromHex(i.prevTxid);
  }

  lemma InputRoundTrip()
    ensures Inverts(TakeInput, PutInput)
  {
    hide TakeInput, PutInput;
    forall i: TxInput, rest: bytes ensures TakeInput(PutInput(i) + rest) == Parsed(i, rest) {
      InputReadsBack(i, rest);
    }
  }

  lemma OutputReadsBack(o: TxOutput, rest: bytes)
    ensures TakeOutput(PutOutput(o) + rest) == Parsed(o, rest)
  {
    hide TakeVarBytes, PutVarBytes, LE, FromLE, TakeU64;
    Assoc(LE(o.valueSat, 8), PutVarBytes(o.scriptPubkey), rest);
    TakeLE64(o.valueSat, PutVarBytes(o.scriptPubkey) + rest);
    VarBytesReadBack(o.scriptPubkey, rest);
  }

  lemma OutputRoundTrip()
    ensures Inverts(TakeOutput, PutOutput)
  {
    hide TakeOutput, PutOutput;
    forall o: TxOutput, rest: bytes ensures TakeOutput(PutOutput(o) + rest) == Parsed(o, rest) {
      OutputReadsBack(o, rest);
    }
  }

  lemma StackRoundTrip()
    ensures Inverts(TakeStack, PutStack)
  {
    VarBytesRoundTrip();
    forall s: stack, rest: bytes ensures TakeStack(PutStack(s) + rest) == Parsed(s, rest) {
      CountedRoundTrip(s, rest, TakeVarBytes, PutVarBytes);
    }
  }

  lemma TakePackedI32(v: i32, rest: bytes)
    ensures TakeI32(PackI32(v) + rest) == Parsed(v, rest)
  {
    TakeAppended(PackI32(v), rest);
    I32RoundTrip(v, PackI32(v));
  }

  lemma BodyRoundTrip(tx: Tx, segwit: bool, stacks: seq<stack>, rest: bytes)
    requires |stacks| == if segwit then |tx.inputs| else 0
    ensures TakeBody(tx.version, segwit, PutBody(tx, stacks) + rest) == Parsed((tx, segwit), rest)
  {
    var i, o := PutCounted(tx.inputs, PutInput), PutCounted(tx.outputs, PutOutput);
    var w, l := PutMany(stacks, PutStack), LE(tx.locktime, 4);
    Assoc(i, o + (w + l), rest); Assoc(o, w + l, rest); Assoc(w, l, rest);
    InputRoundTrip(); OutputRoundTrip(); StackRoundTrip();
    CountedRoundTrip(tx.inputs, o + (w + (l + rest)), TakeInput, PutInput);
    CountedRoundTrip(tx.outputs, w + (l + rest), TakeOutput, PutOutput);
    ManyRoundTrip(stacks, l + rest, TakeStack, PutStack);
    TakeLE32(tx.locktime, rest);
    BodyReads(tx, segwit, stacks, PutBody(tx, stacks) + rest, o + (w + (l + rest)), w + (l + rest), l + rest, rest);
  }

  lemma BodyReads(tx: Tx, segwit: bool, stacks: seq<stack>, s: bytes, s1: bytes, s2: bytes, s3: bytes, rest: bytes)
    requires |stacks| == if segwit then |tx.inputs| else 0
    requires TakeCounted(s, TakeInput) == Parsed(tx.inputs, s1)
    requires TakeCounted(s1, TakeOutput) == Parsed(tx.outputs, s2)
    requires TakeMany(|stacks|, s2, TakeStack) == Parsed(stacks, s3)
    requires TakeU32(s3) == Parsed(tx.locktime, rest)
    ensures TakeBody(tx.version, segwit, s) == Parsed((tx, segwit), rest)
  {
  }

  lemma TxSplits(version: i32, s: bytes)
    ensures TakeTx(PackI32(version) + s)
            == if HasMarker(s) then TakeBody(version, true, s[2..]) else TakeBody(version, false, s)
  {
    TakePackedI32(version, s);
  }

  lemma MarkedTxSplits(version: i32, body: bytes)
    ensures TakeTx(PackI32(version) + ([0, 1] + body)) == TakeBody(version, true, body)
  {
    TxSplits(version, [0, 1] + body);
    assert ([0, 1] + body)[2..] == body;
  }

  /** Decoding the BIP144 form returns the same fields, whatever the witness and whatever follows. */
  lemma SegwitRoundTrip(tx: Tx, stacks: seq<stack>, rest: bytes)
    requires |stacks| == |tx.inputs|
    ensures TakeTx(Segwit(tx, stacks) + rest) == Parsed((tx, true), rest)
  {
    var body := PutBody(tx, stacks);
    Assoc(PackI32(tx.version), [0, 1] + body, rest);
    Assoc([0, 1], body, rest);
    MarkedTxSplits(tx.version, body + rest);
    BodyRoundTrip(tx, true, stacks, rest);
  }

  /** The bytes in the marker's place are the two counts when there are no inputs. */
  lemma MarkerIsAmbiguous(tx: Tx, rest: bytes)
    ensures HasMarker(PutBody(tx, []) + rest) <==> |tx.inputs| == 0 && |tx.outputs| == 1
  {
    var s := PutBody(tx, []) + rest;
    assert s[0] == EncodeVarint(|tx.inputs|)[0];
    if |tx.inputs| == 0 {
      assert PutCounted(tx.inputs, PutInput) == [0];
      assert s[1] == EncodeVarint(|tx.outputs|)[0];
    }
  }

  /** Decoding the stripped form returns the fields exactly when its counts cannot be taken
      for the SegWit marker, that is unless there is no input and one output. */
  lemma LegacyRoundTrip(tx: Tx, rest: bytes)
    ensures TakeTx(Legacy(tx) + rest) == Parsed((tx, false), rest)
            <==> |tx.inputs| > 0 || |tx.outputs| != 1
  {
    Assoc(PackI32(tx.version), PutBody(tx, []), rest);
    TxSplits(tx.version, PutBody(tx, []) + rest);
    MarkerIsAmbiguous(tx, rest);
    BodyRoundTrip(tx, false, [], rest);
  }

  // ---------------------------------------------------------------------------
  // Trailing bytes change nothing
  // ---------------------------------------------------------------------------

  ghost predicate Local<T(!new)>(take: bytes -> Parsed<T>) {
    forall s: bytes, t: bytes ::
      take(s).Parsed? ==> take(s + t) == Parsed(take(s).value, take(s).rest + t)
  }

  lemma BytesLocal(s: bytes, n: nat, t: bytes)
    requires n <= |s|
    ensures TakeBytes(s + t, n) == Parsed(s[..n], s[n..] + t)
  {
    assert (s + t)[..n] == s[..n];
    assert (s + t)[n..] == s[n..] + t;
  }

  lemma FixedWidthLocal()
    ensures Local(TakeU32) && Local(TakeI32) && Local(TakeU64)
  {
    forall s: bytes, t: bytes
      ensures TakeU32(s).Parsed? ==> TakeU32(s + t) == Parsed(TakeU32(s).value, TakeU32(s).rest + t)
      ensures TakeI32(s).Parsed? ==> TakeI32(s + t) == Parsed(TakeI32(s).value, TakeI32(s).rest + t)
      ensures TakeU64(s).Parsed? ==> TakeU64(s + t) == Parsed(TakeU64(s).value, TakeU64(s).rest + t)
    {
      if |s| >= 4 { BytesLocal(s, 4, t); }
      if |s| >= 8 { BytesLocal(s, 8, t); }
    }
  }

  lemma VarintLocal()
    ensures Local(TakeVarint)
  {
    forall s: bytes, t: bytes | TakeVarint(s).Parsed?
      ensures TakeVarint(s + t) == Parsed(TakeVarint(s).value, TakeVarint(s).rest + t)
    {
      BytesLocal(s, 1, t);
      if s[0] >= 0xFD {
        BytesLocal(s[1..], VarintWidth(s[0]), t);
      }
    }
  }

  lemma VarBytesLocal()
    ensures Local(TakeVarBytes)
  {
    VarintLocal();
    forall s: bytes, t: bytes | TakeVarBytes(s).Parsed?
      ensures TakeVarBytes(s + t) == Parsed(TakeVarBytes(s).value, TakeVarBytes(s).rest + t)
    {
      BytesLocal(TakeVarint(s).rest, TakeVarint(s).value, t);
    }
  }

  lemma {:induction false} ManyLocal<T(!new)>(n: nat, s: bytes, t: bytes, take: bytes -> Parsed<T>)
    requires Local(take) && TakeMany(n, s, take).Parsed?
    ensures TakeMany(n, s + t, take) == Parsed(TakeMany(n, s, take).value, TakeMany(n, s, take).rest + t)
    decreases n
  {
    if n != 0 {
      ManyLocal(n - 1, take(s).rest, t, take);
    }
  }

  lemma CountedLocal<T(!new)>(s: bytes, t: bytes, take: bytes -> Parsed<T>)
    requires Local(take) && TakeCounted(s, take).Parsed?
    ensures TakeCounted(s + t, take) == Parsed(TakeCounted(s, take).value, TakeCounted(s, take).rest + t)
  {
    VarintLocal();
    ManyLocal(TakeVarint(s).value, TakeVarint(s).rest, t, take);
  }

  lemma InputLocal(s: bytes, t: bytes)
    requires TakeInput(s).Parsed?
    ensures TakeInput(s + t) == Parsed(TakeInput(s).value, TakeInput(s).rest + t)
  {
    FixedWidthLocal(); VarBytesLocal(); BytesLocal(s, 32, t);
  }

  lemma OutputLocal(s: bytes, t: bytes)
    requires TakeOutput(s).Parsed?
    ensures TakeOutput(s + t) == Parsed(TakeOutput(s).value, TakeOutput(s).rest + t)
  {
    FixedWidthLocal(); VarBytesLocal();
  }

  lemma ElementsLocal()
    ensures Local(TakeInput) && Local(TakeOutput) && Local(TakeStack)
  {
    forall s: bytes, t: bytes | TakeInput(s).Parsed?
      ensures TakeInput(s + t) == Parsed(TakeInput(s).value, TakeInput(s).rest + t)
    {
      InputLocal(s, t);
    }
    forall s: bytes, t: bytes | TakeOutput(s).Parsed?
      ensures TakeOutput(s + t) == Parsed(TakeOutput(s).value, TakeOutput(s).rest + t)
    {
      OutputLocal(s, t);
    }
    VarBytesLocal();
    forall s: bytes, t: bytes | TakeStack(s).Parsed?
      ensures TakeStack(s + t) == Parsed(TakeStack(s).value, TakeStack(s).rest + t)
    {
      CountedLocal(s, t, TakeVarBytes);
    }
  }

  lemma BodyLocal(version: i32, segwit: bool, s: bytes, t: bytes)
    requires TakeBody(version, segwit, s).Parsed?
    ensures TakeBody(version, segwit, s + t)
            == Parsed(TakeBody(version, segwit, s).value, TakeBody(version, segwit, s).rest + t)
  {
    FixedWidthLocal(); ElementsLocal();
    var i := TakeCounted(s, TakeInput);
    CountedLocal(s, t, TakeInput);
    var o := TakeCounted(i.rest, TakeOutput);
    CountedLocal(i.rest, t, TakeOutput);
    ManyLocal(if segwit then |i.value| else 0, o.rest, t, TakeStack);
  }

  /** Bytes after the transaction are left over and change no field; so a transaction cut
      short anywhere is rejected. */
  lemma TrailingBytes(raw: bytes, t: bytes)
    requires TakeTx(raw).Parsed?
    ensures TakeTx(raw + t) == Parsed(TakeTx(raw).value, TakeTx(raw).rest + t)
  {
    hide TakeBody, UnpackI32;
    var version, s := TakeI32(raw).value, raw[4..];
    BytesLocal(raw, 4, t);
    if HasMarker(s) {
      BytesLocal(s, 2, t);
      BodyLocal(version, true, s[2..], t);
    } else {
      BodyLongerThanOne(version, s);
      BodyLocal(version, false, s, t);
    }
  }

  lemma BodyLongerThanOne(version: i32, s: bytes)
    requires TakeBody(version, false, s).Parsed?
    ensures |s| >= 2
  {
    if |s| == 1 {
      CountNeedsByte(TakeVarint(s).rest);
    }
  }

  lemma CountNeedsByte(s: bytes)
    requires TakeVarint(s).Parsed?
    ensures s != []
  {
  }

  lemma CutShort(raw: bytes, k: nat)
    requires TakeTx(raw).Parsed? && k < |raw| - |TakeTx(raw).rest|
    ensures TakeTx(raw[..k]).Truncated?
  {
    assert raw == raw[..k] + raw[k..];
    if TakeTx(raw[..k]).Parsed? {
      TrailingBytes(raw[..k], raw[k..]);
    }
  }

  // ---------------------------------------------------------------------------
  // What was read accounts for every byte
  // ---------------------------------------------------------------------------

  /** `s` is the encoding `enc` made `slack` bytes longer, followed by `rest`. */
  ghost predicate Accounts(s: bytes, enc: bytes, slack: nat, rest: bytes) {
    && |s| == |enc| + slack + |rest|
    && s[|enc| + slack..] == rest
    && (slack == 0 ==> s == enc + rest)
  }

  ghost predicate Sound<T(!new)>(take: bytes -> Parsed<T>, put: T -> bytes, slack: bytes -> nat) {
    forall s: bytes ::
      take(s).Parsed? ==> Accounts(s, put(take(s).value), slack(s), take(s).rest)
  }

  /** The bytes by which a CompactSize exceeds the shortest encoding of its value. */
  function VarintSlack(s: bytes): nat {
    if TakeVarint(s).Truncated? then 0 else
      VarintNotShorter(s);
      1 + VarintWidth(s[0]) - |EncodeVarint(TakeVarint(s).value)|
  }

  lemma VarintNotShorter(s: bytes)
    requires TakeVarint(s).Parsed?
    ensures |EncodeVarint(TakeVarint(s).value)| <= 1 + VarintWidth(s[0])
  {
    Widths();
    if s[0] >= 0xFD {
      LEInvertsFromLE(s[1..][..VarintWidth(s[0])]);
    }
  }

  function ManySlack<T>(n: nat, s: bytes, take: bytes -> Parsed<T>, slack: bytes -> nat): nat
    decreases n
  {
    if n == 0 || take(s).Truncated? then 0
    else slack(s) + ManySlack(n - 1, take(s).rest, take, slack)
  }

  function CountedSlack<T>(s: bytes, take: bytes -> Parsed<T>, slack: bytes -> nat): nat {
    if TakeVarint(s).Truncated? then 0
    else VarintSlack(s) + ManySlack(TakeVarint(s).value, TakeVarint(s).rest, take, slack)
  }

  function InputSlack(s: bytes): nat {
    if |s| < 36 then 0 else VarintSlack(s[36..])
  }

  function OutputSlack(s: bytes): nat {
    if |s| < 8 then 0 else VarintSlack(s[8..])
  }

  function StackSlack(s: bytes): nat {
    CountedSlack(s, TakeVarBytes, VarintSlack)
  }

  /** The slack of all CompactSizes of a transaction, and the witness that was skipped. */
  function BodySlack(segwit: bool, s: bytes): (nat, seq<stack>) {
    var inputs := TakeCounted(s, TakeInput);
    if inputs.Truncated? then (0, []) else
    var outputs := TakeCounted(inputs.rest, TakeOutput);
    if outputs.Truncated? then (0, []) else
    var n := if segwit then |inputs.value| else 0;
    var stacks := TakeMany(n, outputs.rest, TakeStack);
    if stacks.Truncated? then (0, []) else
    (CountedSlack(s, TakeInput, InputSlack) + CountedSlack(inputs.rest, TakeOutput, OutputSlack)
     + ManySlack(n, outputs.rest, TakeStack, StackSlack), stacks.value)
  }

  lemma Chain(s: bytes, e1: bytes, k1: nat, s1: bytes, e2: bytes, k2: nat, s2: bytes)
    requires Accounts(s, e1, k1, s1) && Accounts(s1, e2, k2, s2)
    ensures Accounts(s, e1 + e2, k1 + k2, s2)
  {
    assert s[|e1 + e2| + (k1 + k2)..] == s[|e1| + k1..][|e2| + k2..];
    if k1 + k2 == 0 {
      assert s == e1 + (e2 + s2);
    }
  }

  lemma BytesAccount(s: bytes, n: nat)
    requires n <= |s|
    ensures Accounts(s, s[..n], 0, s[n..])
  {
    assert s == s[..n] + s[n..];
  }

  lemma FixedAccounts(s: bytes)
    ensures |s| >= 4 ==> Accounts(s, LE(TakeU32(s).value, 4), 0, TakeU32(s).rest)
    ensures |s| >= 4 ==> Accounts(s, PackI32(TakeI32(s).value), 0, TakeI32(s).rest)
    ensures |s| >= 8 ==> Accounts(s, LE(TakeU64(s).value, 8), 0, TakeU64(s).rest)
  {
    if |s| >= 4 {
      BytesAccount(s, 4);
      LEInvertsFromLE(s[..4]); I32RoundTrip(0, s[..4]);
    }
    if |s| >= 8 {
      BytesAccount(s, 8);
      LEInvertsFromLE(s[..8]);
    }
  }

  lemma VarintAccounts(s: bytes)
    requires TakeVarint(s).Parsed?
    ensures Accounts(s, EncodeVarint(TakeVarint(s).value), VarintSlack(s), TakeVarint(s).rest)
  {
    if s[0] < 0xFD {
      BytesAccount(s, 1);
      assert s[..1] == [s[0]];
    } else {
      WideVarintAccounts(s);
    }
  }

  lemma WideVarintAccounts(s: bytes)
    requires TakeVarint(s).Parsed? && s[0] >= 0xFD
    ensures Accounts(s, EncodeVarint(TakeVarint(s).value), VarintSlack(s), TakeVarint(s).rest)
  {
    VarintNotShorter(s);
    SameWidthSameBytes(s);
    hide LE, FromLE, EncodeVarint;
    var w := VarintWidth(s[0]);
    BytesAccount(s, 1 + w);
    assert s[1..][w..] == s[1 + w..];
  }

  /** A CompactSize as wide as the shortest one is the shortest one. */
  lemma SameWidthSameBytes(s: bytes)
    requires TakeVarint(s).Parsed? && s[0] >= 0xFD
    ensures
      var w := VarintWidth(s[0]);
      |EncodeVarint(TakeVarint(s).value)| == 1 + w ==> EncodeVarint(TakeVarint(s).value) == s[..1 + w]
  {
    var w := VarintWidth(s[0]);
    var b := s[1..][..w];
    LEInvertsFromLE(b);
    hide LE, FromLE;
    assert s[..1 + w] == [s[0]] + b;
  }

  lemma VarBytesSound()
    ensures Sound(TakeVarBytes, PutVarBytes, VarintSlack)
  {
    forall s: bytes | TakeVarBytes(s).Parsed?
      ensures Accounts(s, PutVarBytes(TakeVarBytes(s).value), VarintSlack(s), TakeVarBytes(s).rest)
    {
      hide Accounts, TakeVarint, VarintSlack, EncodeVarint;
      VarintAccounts(s);
      var n := TakeVarint(s);
      BytesAccount(n.rest, n.value);
      Chain(s, EncodeVarint(n.value), VarintSlack(s), n.rest, n.rest[..n.value], 0, n.rest[n.value..]);
    }
  }

  lemma {:induction false} ManySound<T(!new)>(n: nat, s: bytes, take: bytes -> Parsed<T>, put: T -> bytes,
                                              slack: bytes -> nat)
    requires Sound(take, put, slack) && TakeMany(n, s, take).Parsed?
    ensures Accounts(s, PutMany(TakeMany(n, s, take).value, put), ManySlack(n, s, take, slack),
                     TakeMany(n, s, take).rest)
    decreases n
  {
    hide Accounts;
    if n == 0 {
      BytesAccount(s, 0);
    } else {
      var x := take(s);
      var xs := TakeMany(n - 1, x.rest, take);
      ManySound(n - 1, x.rest, take, put, slack);
      Chain(s, put(x.value), slack(s), x.rest, PutMany(xs.value, put), ManySlack(n - 1, x.rest, take, slack), xs.rest);
      assert ([x.value] + xs.value)[1..] == xs.value;
    }
  }

  lemma CountedSound<T(!new)>(s: bytes, take: bytes -> Parsed<T>, put: T -> bytes, slack: bytes -> nat)
    requires Sound(take, put, slack) && TakeCounted(s, take).Parsed?
    ensures Accounts(s, PutCounted(TakeCounted(s, take).value, put), CountedSlack(s, take, slack),
                     TakeCounted(s, take).rest)
  {
    hide Accounts, TakeVarint, VarintSlack, EncodeVarint, TakeMany, PutMany, ManySlack;
    VarintAccounts(s);
    var n := TakeVarint(s);
    ManySound(n.value, n.rest, take, put, slack);
    var xs := TakeMany(n.value, n.rest, take);
    Chain(s, EncodeVarint(n.value), VarintSlack(s), n.rest,
          PutMany(xs.value, put), ManySlack(n.value, n.rest, take, slack), xs.rest);
  }

  lemma InputAccounts(s: bytes)
    requires TakeInput(s).Parsed?
    ensures Accounts(s, PutInput(TakeInput(s).value), InputSlack(s), TakeInput(s).rest)
  {
    hide Accounts, TakeVarBytes, PutVarBytes, VarintSlack, LE, FromLE;
    var s1, s2 := s[32..], s[36..];
    assert s1[4..] == s2;
    var script := TakeVarBytes(s2);
    BytesAccount(s, 32);
    FromHexInvertsHex(Reversed(s[..32])); ReversedTwice(s[..32]);
    FixedAccounts(s1);
    VarBytesSound();
    FixedAccounts(script.rest);
    var i := TakeInput(s).value;
    Chain(s, s[..32], 0, s1, LE(i.prevVout, 4), 0, s2);
    Chain(s, s[..32] + LE(i.prevVout, 4), 0, s2, PutVarBytes(i.scriptSig), InputSlack(s), script.rest);
    Chain(s, s[..32] + LE(i.prevVout, 4) + PutVarBytes(i.scriptSig), InputSlack(s), script.rest,
          LE(i.sequence, 4), 0, TakeInput(s).rest);
  }

  lemma OutputAccounts(s: bytes)
    requires TakeOutput(s).Parsed?
    ensures Accounts(s, PutOutput(TakeOutput(s).value), OutputSlack(s), TakeOutput(s).rest)
  {
    hide Accounts, TakeVarBytes, PutVarBytes, VarintSlack, LE, FromLE;
    FixedAccounts(s);
    VarBytesSound();
    var o := TakeOutput(s).value;
    Chain(s, LE(o.valueSat, 8), 0, s[8..], PutVarBytes(o.scriptPubkey), OutputSlack(s), TakeOutput(s).rest);
  }

  lemma ElementsSound()
    ensures Sound(TakeInput, PutInput, InputSlack)
    ensures Sound(TakeOutput, PutOutput, OutputSlack)
    ensures Sound(TakeStack, PutStack, StackSlack)
  {
    VarBytesSound();
    forall s: bytes
      ensures TakeInput(s).Parsed? ==> Accounts(s, PutInput(TakeInput(s).value), InputSlack(s), TakeInput(s).rest)
      ensures TakeOutput(s).Parsed? ==> Accounts(s, PutOutput(TakeOutput(s).value), OutputSlack(s), TakeOutput(s).rest)
      ensures TakeStack(s).Parsed? ==> Accounts(s, PutStack(TakeStack(s).value), StackSlack(s), TakeStack(s).rest)
    {
      hide Accounts, InputSlack, OutputSlack, StackSlack, PutInput, PutOutput, TakeInput, TakeOutput;
      if TakeInput(s).Parsed? { InputAccounts(s); }
      if TakeOutput(s).Parsed? { OutputAccounts(s); }
      if TakeStack(s).Parsed? { CountedSound(s, TakeVarBytes, PutVarBytes, VarintSlack); }
    }
  }

  lemma BodyAccounts(version: i32, segwit: bool, s: bytes)
    requires TakeBody(version, segwit, s).Parsed?
    ensures
      var (slack, stacks) := BodySlack(segwit, s);
      var p := TakeBody(version, segwit, s);
      && |stacks| == (if segwit then |p.value.0.inputs| else 0)
      && Accounts(s, PutBody(p.value.0, stacks), slack, p.rest)
  {
    hide Accounts, TakeCounted, TakeMany, PutCounted, PutMany, CountedSlack, ManySlack;
    var i := TakeCounted(s, TakeInput);
    var o := TakeCounted(i.rest, TakeOutput);
    var n := if segwit then |i.value| else 0;
    var w := TakeMany(n, o.rest, TakeStack);
    var l := TakeU32(w.rest);
    PartsAccount(s, n, i, o, w, l);
  }

  lemma PartsAccount(s: bytes, n: nat, i: Parsed<counted<TxInput>>, o: Parsed<counted<TxOutput>>,
                     w: Parsed<seq<stack>>, l: Parsed<u32>)
    requires i == TakeCounted(s, TakeInput) && i.Parsed?
    requires o == TakeCounted(i.rest, TakeOutput) && o.Parsed?
    requires w == TakeMany(n, o.rest, TakeStack) && w.Parsed?
    requires l == TakeU32(w.rest) && l.Parsed?
    ensures Accounts(s, PutCounted(i.value, PutInput) + (PutCounted(o.value, PutOutput)
                        + (PutMany(w.value, PutStack) + LE(l.value, 4))),
                     CountedSlack(s, TakeInput, InputSlack) + CountedSlack(i.rest, TakeOutput, OutputSlack)
                     + ManySlack(n, o.rest, TakeStack, StackSlack), l.rest)
  {
    hide Accounts, TakeCounted, TakeMany, PutCounted, PutMany, CountedSlack, ManySlack;
    var a, ka := PutCounted(i.value, PutInput), CountedSlack(s, TakeInput, InputSlack);
    var b, kb := PutCounted(o.value, PutOutput), CountedSlack(i.rest, TakeOutput, OutputSlack);
    var c, kc := PutMany(w.value, PutStack), ManySlack(n, o.rest, TakeStack, StackSlack);
    assert Accounts(s, a, ka, i.rest) by {
      ElementsSound(); CountedSound(s, TakeInput, PutInput, InputSlack);
    }
    assert Accounts(i.rest, b, kb, o.rest) by {
      ElementsSound(); CountedSound(i.rest, TakeOutput, PutOutput, OutputSlack);
    }
    assert Accounts(o.rest, c, kc, w.rest) by {
      ElementsSound(); ManySound(n, o.rest, TakeStack, PutStack, StackSlack);
    }
    assert Accounts(w.rest, LE(l.value, 4), 0, l.rest) by {
      FixedAccounts(w.rest);
    }
    ChainFour(s, a, ka, i.rest, b, kb, o.rest, c, kc, w.rest, LE(l.value, 4), l.rest);
  }

  lemma ChainFour(s: bytes, e1: bytes, k1: nat, s1: bytes, e2: bytes, k2: nat, s2: bytes,
                  e3: bytes, k3: nat, s3: bytes, e4: bytes, s4: bytes)
    requires Accounts(s, e1, k1, s1) && Accounts(s1, e2, k2, s2) && Accounts(s2, e3, k3, s3) && Accounts(s3, e4, 0, s4)
    ensures Accounts(s, e1 + (e2 + (e3 + e4)), k1 + k2 + k3, s4)
  {
    hide Accounts;
    Chain(s2, e3, k3, s3, e4, 0, s4);
    Chain(s1, e2, k2, s2, e3 + e4, k3, s4);
    Chain(s, e1, k1, s1, e2 + (e3 + e4), k2 + k3, s4);
  }

  lemma {:induction false} ManyLength<T>(xs: seq<T>, put: T -> bytes, least: nat)
    requires forall x :: x in xs ==> |put(x)| >= least
    ensures |PutMany(xs, put)| >= least * |xs|
  {
    if xs != [] {
      ManyLength(xs[1..], put, least);
      assert least * |xs| == least + least * |xs[1..]|;
    }
  }

  /** Forty-one bytes for an input, nine for an output, one for a stack, six for the rest. */
  lemma BodyLength(tx: Tx, stacks: seq<stack>)
    ensures |PutBody(tx, stacks)| >= 6 + 41 * |tx.inputs| + 9 * |tx.outputs| + |stacks|
  {
    ManyLength(stacks, PutStack, 1);
    ManyLength(tx.inputs, PutInput, 41);
    ManyLength(tx.outputs, PutOutput, 9);
  }

  lemma SegwitAccounts(raw: bytes)
    requires TakeTx(raw).Parsed? && TakeTx(raw).value.1
    ensures
      var Parsed((tx, _), rest) := TakeTx(raw);
      var (slack, stacks) := BodySlack(true, raw[6..]);
      && |stacks| == |tx.inputs|
      && Accounts(raw, Segwit(tx, stacks), slack, rest)
      && |raw| - |rest| >= 12 + 42 * |tx.inputs| + 9 * |tx.outputs|
  {
    hide TakeBody, BodySlack, PutBody;
    var Parsed((tx, _), rest) := TakeTx(raw);
    var version, s, body := TakeI32(raw).value, raw[4..], raw[6..];
    assert s[2..] == body && s == [0, 1] + body;
    var (slack, stacks) := BodySlack(true, body);
    BodyAccounts(version, true, body);
    BodyLength(tx, stacks);
    PrefixAccounts(raw, PackI32(version), s, [0, 1], body, PutBody(tx, stacks), slack, rest) by {
      FixedAccounts(raw);
    }
  }

  lemma PrefixAccounts(raw: bytes, version: bytes, s: bytes, marker: bytes, body: bytes, enc: bytes,
                       slack: nat, rest: bytes)
    requires Accounts(raw, version, 0, s) && s == marker + body && Accounts(body, enc, slack, rest)
    ensures Accounts(raw, version + (marker + enc), slack, rest)
  {
    Chain(s, marker, 0, body, enc, slack, rest);
    Chain(raw, version, 0, s, marker + enc, slack, rest);
  }

  lemma LegacyAccounts(raw: bytes)
    requires TakeTx(raw).Parsed? && !TakeTx(raw).value.1
    ensures
      var Parsed((tx, _), rest) := TakeTx(raw);
      && Accounts(raw, Legacy(tx), BodySlack(false, raw[4..]).0, rest)
      && |raw| - |rest| >= 10 + 41 * |tx.inputs| + 9 * |tx.outputs|
  {
    hide TakeBody, BodySlack, PutBody;
    var Parsed((tx, _), rest) := TakeTx(raw);
    var version, s := TakeI32(raw).value, raw[4..];
    BodyAccounts(version, false, s);
    BodyLength(tx, []);
    LegacyPrefix(raw, tx, BodySlack(false, s).0, rest);
  }

  lemma LegacyPrefix(raw: bytes, tx: Tx, slack: nat, rest: bytes)
    requires |raw| >= 4 && tx.version == TakeI32(raw).value
    requires Accounts(raw[4..], PutBody(tx, []), slack, rest)
    ensures Accounts(raw, Legacy(tx), slack, rest)
  {
    hide PutBody, PackI32;
    FixedAccounts(raw);
    Chain(raw, PackI32(tx.version), 0, raw[4..], PutBody(tx, []), slack, rest);
  }

  /** For stripped input the re-serialisation is never longer than what was consumed; it is as
      long exactly when no CompactSize was wider than needed, and then it is what was consumed. */
  lemma ReserialisationShrinks(raw: bytes)
    requires TakeTx(raw).Parsed? && !TakeTx(raw).value.1
    ensures
      var Parsed((tx, _), rest) := TakeTx(raw);
      var slack := BodySlack(false, raw[4..]).0;
      && |Legacy(tx)| + slack == |raw| - |rest|
      && (slack == 0 <==> raw == Legacy(tx) + rest)
  {
    LegacyAccounts(raw);
  }

  /** Distinct transactions have distinct preimages, so distinct txids short of a hash collision. */
  lemma LegacyInjective(a: Tx, b: Tx)
    requires Legacy(a) == Legacy(b)
    ensures a == b
  {
    TakePackedI32(a.version, PutBody(a, []));
    TakePackedI32(b.version, PutBody(b, []));
    BodyRoundTrip(a, false, [], []);
    BodyRoundTrip(b, false, [], []);
    assert PutBody(a, []) + [] == PutBody(a, []) && PutBody(b, []) + [] == PutBody(b, []);
  }
}
