/** The two Base58 encoders of the system, written independently: the watcher's
    `_base58check` and the provider's `_b58encode`. */
module Base58Encoders {
  import opened ByteStrings
  import opened Base58
  import opened TxDecoder

  function Checksummed(payload: bytes, sha256: hash256): bytes {
    payload + sha256(sha256(payload))[..4]
  }

  lemma ReversedSnoc<T>(s: seq<T>, x: T)
    ensures Reversed(s + [x]) == [x] + Reversed(s)
  {
  }

  lemma SliceOfOne<T>(s: seq<T>, i: nat)
    requires i < |s|
    ensures s[i..i + 1] == [s[i]]
  {
  }

  /** What a digit loop has produced and what it has still to produce. */
  lemma DigitStep(n: nat, chars: string)
    requires n != 0
    ensures Digits(n) + Reversed(chars) == Digits(n / 58) + Reversed(chars + [ALPHABET[n % 58]])
  {
    hide Reversed;
    ReversedSnoc(chars, Symbol(n % 58));
    assert Reversed(chars + [Symbol(n % 58)]) == [Symbol(n % 58)] + Reversed(chars);
  }

  /** The watcher: counts zero bytes, collects the digits, joins the two. */
  method Base58Check(payload: bytes, sha256: hash256) returns (address: string)
    ensures address == Encode(Checksummed(payload, sha256))
  {
    var checksum := sha256(sha256(payload))[..4];
    var data := payload + checksum;
    var count := 0;
    while count < |data| && data[count] == 0
      invariant count <= |data|
      invariant LeadingZeros(data) == count + LeadingZeros(data[count..])
    {
      assert data[count..][1..] == data[count + 1..];
      count := count + 1;
    }
    var n := FromBE(data);
    var chars := "";
    assert Digits(n) == Digits(n) + Reversed(chars);
    hide Reversed, Digits, FromBE, LeadingZeros;
    while n != 0
      invariant Digits(FromBE(data)) == Digits(n) + Reversed(chars)
    {
      DigitStep(n, chars);
      var rem := n % 58;
      n := n / 58;
      SliceOfOne(ALPHABET, rem);
      chars := chars + ALPHABET[rem..rem + 1];
    }
    address := Repeat('1', count) + Reversed(chars);
  }

  /** The provider: collects the digits, appends one '1' per zero byte, reverses the whole. */
  method B58Encode(data: bytes) returns (s: string)
    ensures s == Encode(data)
  {
    var n := FromBE(data);
    var result := "";
    assert Digits(n) == Digits(n) + Reversed(result);
    hide Reversed, Digits, FromBE;
    while n != 0
      invariant Digits(FromBE(data)) == Digits(n) + Reversed(result)
    {
      DigitStep(n, result);
      var remainder := n % 58;
      n := n / 58;
      result := result + [ALPHABET[remainder]];
    }
    ghost var digits := result;
    var i := 0;
    while i < |data| && data[i] == 0
      invariant i <= |data|
      invariant LeadingZeros(data) == i + LeadingZeros(data[i..])
      invariant result == digits + Repeat('1', i)
    {
      assert data[i..][1..] == data[i + 1..];
      SymbolsDistinct(0);
      assert Repeat('1', i + 1) == Repeat('1', i) + ['1'];
      result := result + [ALPHABET[0]];
      i := i + 1;
    }
    s := Reversed(result);
    assert s == Repeat('1', i) + Reversed(digits);
  }
}
