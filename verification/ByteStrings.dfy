/** Byte strings, fixed-width integers and lower-case hexadecimal: the parts of
    Python's `bytes`, `struct` and `int.from_bytes` that the codec relies on. */
module ByteStrings {

  type byte = b: int | 0 <= b < 256
  type bytes = seq<byte>

  type u32 = n: int | 0 <= n < 0x1_0000_0000
  type u64 = n: int | 0 <= n < 0x1_0000_0000_0000_0000
  type i32 = n: int | -0x8000_0000 <= n < 0x8000_0000

  datatype Option<+T> = None | Some(value: T)

  function Pow256(k: nat): (p: nat)
    ensures p >= 1
  {
    if k == 0 then 1 else 256 * Pow256(k - 1)
  }

  /** `struct.pack` of an unsigned integer in `k` little-endian bytes. */
  function LE(n: nat, k: nat): (b: bytes)
    ensures |b| == k
    decreases k, n
  {
    if k == 0 then [] else [n % 256] + LE(n / 256, k - 1)
  }

  /** `struct.unpack` of unsigned little-endian bytes. */
  function FromLE(b: bytes): nat {
    if b == [] then 0 else b[0] + 256 * FromLE(b[1..])
  }

  /** `int.from_bytes(b, "big")`. */
  function FromBE(b: bytes): nat {
    if b == [] then 0 else 256 * FromBE(b[..|b| - 1]) + b[|b| - 1]
  }

  lemma {:induction false} FromLEInvertsLE(n: nat, k: nat)
    requires n < Pow256(k)
    ensures FromLE(LE(n, k)) == n
    decreases k
  {
    if k != 0 {
      FromLEInvertsLE(n / 256, k - 1);
      assert LE(n, k)[1..] == LE(n / 256, k - 1);
    }
  }

  lemma DivMod256(r: byte, q: nat)
    ensures (r + 256 * q) % 256 == r && (r + 256 * q) / 256 == q
  {
  }

  lemma {:induction false} LEInvertsFromLE(b: bytes)
    ensures FromLE(b) < Pow256(|b|)
    ensures LE(FromLE(b), |b|) == b
  {
    if b != [] {
      LEInvertsFromLE(b[1..]);
      DivMod256(b[0], FromLE(b[1..]));
      assert b == [b[0]] + b[1..];
    }
  }

  /** The bounds of the four widths used by the wire format. */
  lemma Widths()
    ensures Pow256(1) == 0x100 && Pow256(2) == 0x1_0000
    ensures Pow256(4) == 0x1_0000_0000
    ensures Pow256(8) == 0x1_0000_0000_0000_0000
  {
    assert Pow256(4) == 256 * (256 * Pow256(2));
    assert Pow256(8) == 256 * (256 * (256 * (256 * Pow256(4))));
  }

  /** Two's complement, as `struct.pack("<i", v)`. */
  function PackI32(v: i32): (b: bytes)
    ensures |b| == 4
  {
    LE(if v < 0 then v + 0x1_0000_0000 else v, 4)
  }

  function UnpackI32(b: bytes): (v: i32)
    requires |b| == 4
  {
    LEInvertsFromLE(b); Widths();
    var u := FromLE(b);
    if u < 0x8000_0000 then u else u - 0x1_0000_0000
  }

  lemma I32RoundTrip(v: i32, b: bytes)
    requires |b| == 4
    ensures UnpackI32(PackI32(v)) == v
    ensures PackI32(UnpackI32(b)) == b
  {
    Widths();
    FromLEInvertsLE(if v < 0 then v + 0x1_0000_0000 else v, 4);
    LEInvertsFromLE(b);
  }

  /** `b[::-1]`. */
  function Reversed<T>(s: seq<T>): (r: seq<T>)
    ensures |r| == |s|
    ensures forall i :: 0 <= i < |s| ==> r[i] == s[|s| - 1 - i]
  {
    if s == [] then [] else Reversed(s[1..]) + [s[0]]
  }

  lemma ReversedTwice<T>(s: seq<T>)
    ensures Reversed(Reversed(s)) == s
  {
  }

  predicate IsHexDigit(c: char) {
    '0' <= c <= '9' || 'a' <= c <= 'f'
  }

  predicate IsHex(s: string) {
    forall i :: 0 <= i < |s| ==> IsHexDigit(s[i])
  }

  function HexDigit(d: nat): (c: char)
    requires d < 16
    ensures IsHexDigit(c) && HexValue(c) == d
  {
    if d < 10 then (d + '0' as int) as char else (d - 10 + 'a' as int) as char
  }

  function HexValue(c: char): (v: nat)
    requires IsHexDigit(c)
    ensures v < 16
  {
    if c <= '9' then c as int - '0' as int else c as int - 'a' as int + 10
  }

  lemma HexPair(c: char, d: char)
    requires IsHexDigit(c) && IsHexDigit(d)
    ensures
      var v := 16 * HexValue(c) + HexValue(d);
      v < 256 && HexDigit(v / 16) == c && HexDigit(v % 16) == d
  {
  }

  /** `b.hex()`. */
  function Hex(b: bytes): (s: string)
    ensures |s| == 2 * |b| && IsHex(s)
  {
    if b == [] then "" else [HexDigit(b[0] / 16), HexDigit(b[0] % 16)] + Hex(b[1..])
  }

  /** `bytes.fromhex(s)`, on strings that `hex()` can produce. */
  function FromHex(s: string): (b: bytes)
    requires IsHex(s) && |s| % 2 == 0
    ensures 2 * |b| == |s|
  {
    if s == "" then [] else [16 * HexValue(s[0]) + HexValue(s[1])] + FromHex(s[2..])
  }

  lemma {:induction false} FromHexInvertsHex(b: bytes)
    ensures FromHex(Hex(b)) == b
  {
    if b != [] {
      FromHexInvertsHex(b[1..]);
      assert Hex(b)[2..] == Hex(b[1..]);
    }
  }

  lemma {:induction false} HexInvertsFromHex(s: string)
    requires IsHex(s) && |s| % 2 == 0
    ensures Hex(FromHex(s)) == s
  {
    if s != "" {
      HexInvertsFromHex(s[2..]);
      hide HexDigit, HexValue, IsHexDigit;
      HexPair(s[0], s[1]);
      assert FromHex(s)[1..] == FromHex(s[2..]);
      assert s == [s[0], s[1]] + s[2..];
    }
  }
}
