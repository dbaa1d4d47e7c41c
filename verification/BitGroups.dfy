/** Regrouping of bits (`_convertbits`): the accumulator loop, and what it means on bit strings.

    Shifts are written as products and quotients of powers of two; `(acc << f) | value` is
    `acc * 2^f + value` because the shifted accumulator has `f` zero bits where `value` goes. */
module BitGroups {

  type bits = seq<bool>

  function Pow2(k: nat): (p: nat)
    ensures p >= 1
  {
    if k == 0 then 1 else 2 * Pow2(k - 1)
  }

  /** The number that a bit string denotes, most significant bit first. */
  function ValueOf(b: bits): nat {
    if b == [] then 0 else 2 * ValueOf(b[..|b| - 1]) + if b[|b| - 1] then 1 else 0
  }

  function BitsOf(v: nat, k: nat): (b: bits)
    ensures |b| == k
    decreases k, v
  {
    if k == 0 then [] else BitsOf(v / 2, k - 1) + [v % 2 == 1]
  }

  function Zeros(k: nat): (b: bits)
    ensures |b| == k
  {
    seq(k, _ => false)
  }

  /** All groups of `width` bits, one after the other. */
  function Flatten(data: seq<nat>, width: nat): bits {
    if data == [] then [] else BitsOf(data[0], width) + Flatten(data[1..], width)
  }

  /** A bit string cut into groups of `width`; a short last group is filled up or dropped. */
  function Regroup(b: bits, width: nat, pad: bool): seq<nat>
    requires width > 0
    decreases |b|
  {
    if |b| >= width then [ValueOf(b[..width])] + Regroup(b[width..], width, pad)
    else if pad && b != [] then [ValueOf(b + Zeros(width - |b|))]
    else []
  }

  /** The bits that are left over when no padding is asked for. */
  function Leftover(b: bits, width: nat): bits
    requires width > 0
  {
    b[|b| - |b| % width..]
  }

  predicate Below(data: seq<nat>, limit: nat) {
    forall i :: 0 <= i < |data| ==> data[i] < limit
  }

  // ---------------------------------------------------------------------------
  // Arithmetic
  // ---------------------------------------------------------------------------

  lemma {:induction false} PowAdd(a: nat, b: nat)
    ensures Pow2(a + b) == Pow2(a) * Pow2(b)
  {
    if a != 0 {
      PowAdd(a - 1, b);
    }
  }

  lemma AtLeastOnce(d: nat, k: nat)
    requires k >= 1
    ensures d * k >= d
  {
  }

  lemma QuotientIsUnique(x: int, q: int, d: nat, r: int)
    requires x == q * d + r && 0 <= r < d
    ensures x % d == r && x / d == q
  {
    var q' := x / d;
    assert d * (q - q') == x % d - r;
    if q > q' {
      AtLeastOnce(d, q - q');
    } else if q < q' {
      AtLeastOnce(d, q' - q);
    }
  }

  /** Reducing first by a multiple of the modulus changes nothing. */
  lemma ModMod(x: nat, k: nat, d: nat)
    requires k > 0 && d > 0
    ensures k * d > 0 && (x % (k * d)) % d == x % d
  {
    var m := k * d;
    var y := x % m;
    assert x == m * (x / m) + y;
    var q := y / d;
    assert y == d * q + y % d;
    assert x == (k * (x / m) + q) * d + y % d;
    QuotientIsUnique(x, k * (x / m) + q, d, y % d);
  }

  // ---------------------------------------------------------------------------
  // Bit strings and numbers
  // ---------------------------------------------------------------------------

  lemma {:induction false} ValueBound(b: bits)
    ensures ValueOf(b) < Pow2(|b|)
  {
    if b != [] {
      ValueBound(b[..|b| - 1]);
    }
  }

  lemma {:induction false} ValueOfBits(v: nat, k: nat)
    requires v < Pow2(k)
    ensures ValueOf(BitsOf(v, k)) == v
    decreases k
  {
    if k != 0 {
      ValueOfBits(v / 2, k - 1);
      assert BitsOf(v, k)[..k - 1] == BitsOf(v / 2, k - 1);
    }
  }

  lemma {:induction false} BitsOfValue(b: bits)
    ensures BitsOf(ValueOf(b), |b|) == b
  {
    if b != [] {
      BitsOfValue(b[..|b| - 1]);
      assert b == b[..|b| - 1] + [b[|b| - 1]];
    }
  }

  lemma {:induction false} ValueOfConcat(a: bits, b: bits)
    ensures ValueOf(a + b) == ValueOf(a) * Pow2(|b|) + ValueOf(b)
  {
    if b == [] {
      assert a + b == a;
    } else {
      var n := |b| - 1;
      ValueOfConcat(a, b[..n]);
      assert (a + b)[..|a| + n] == a + b[..n];
      assert ValueOf(a) * (2 * Pow2(n)) == 2 * (ValueOf(a) * Pow2(n));
    }
  }

  lemma {:induction false} ValueOfZeros(k: nat)
    ensures ValueOf(Zeros(k)) == 0
  {
    if k != 0 {
      ValueOfZeros(k - 1);
      assert Zeros(k)[..k - 1] == Zeros(k - 1);
    }
  }

  // ---------------------------------------------------------------------------
  // One step of the accumulator
  // ---------------------------------------------------------------------------

  /** `((acc << width) | value) & 0xFFFFFFFF`. */
  function ShiftIn(acc: nat, value: nat, width: nat): nat {
    (acc * Pow2(width) + value) % Pow2(32)
  }

  /** `(acc >> shift) & maxv`. */
  function Group(acc: nat, shift: nat, width: nat): nat {
    (acc / Pow2(shift)) % Pow2(width)
  }

  /** `(acc << fill) & maxv`. */
  function LastGroup(acc: nat, fill: nat, width: nat): nat {
    (acc * Pow2(fill)) % Pow2(width)
  }

  /** The low bits of the accumulator are the bits not yet written out. */
  ghost predicate Holds(acc: nat, live: bits) {
    acc % Pow2(|live|) == ValueOf(live)
  }

  lemma ProductAndRest(acc: nat, l: nat, f: nat, v: nat)
    requires l > 0 && v < f
    ensures l * f > 0 && (acc * f + v) % (l * f) == acc % l * f + v
  {
    var q, w := acc / l, acc % l;
    assert acc * f + v == q * (l * f) + (w * f + v) by {
      assert acc == l * q + w;
      assert acc * f == (l * q) * f + w * f;
      assert (l * q) * f == q * (l * f);
    }
    assert w * f + v < l * f by {
      assert w * f <= (l - 1) * f;
      assert (l - 1) * f == l * f - f;
    }
    QuotientIsUnique(acc * f + v, q, l * f, w * f + v);
  }

  lemma QuotientAndRest(acc: nat, w: nat, d: nat, hi: nat, lo: nat)
    requires hi < w && lo < d && w * d > 0 && acc % (w * d) == hi * d + lo
    ensures acc % d == lo && (acc / d) % w == hi
  {
    var q := acc / (w * d);
    assert acc == (w * q + hi) * d + lo by {
      assert acc == (w * d) * q + (hi * d + lo);
      assert (w * d) * q == (w * q) * d;
    }
    QuotientIsUnique(acc, w * q + hi, d, lo);
    QuotientIsUnique(w * q + hi, q, w, hi);
  }

  /** Shifting a group in and masking to 32 bits loses no live bit. */
  lemma PushHolds(acc: nat, live: bits, value: nat, width: nat)
    requires Holds(acc, live) && value < Pow2(width) && |live| + width <= 32
    ensures Holds(ShiftIn(acc, value, width), live + BitsOf(value, width))
  {
    hide Pow2, ValueOf, BitsOf;
    var n := |live| + width;
    PowAdd(32 - n, n);
    ModMod(acc * Pow2(width) + value, Pow2(32 - n), Pow2(n));
    PowAdd(|live|, width);
    ProductAndRest(acc, Pow2(|live|), Pow2(width), value);
    ValueOfConcat(live, BitsOf(value, width));
    ValueOfBits(value, width);
  }

  /** Writing out the top group leaves the others live. */
  lemma PopHolds(acc: nat, live: bits, width: nat)
    requires Holds(acc, live) && width <= |live|
    ensures Group(acc, |live| - width, width) == ValueOf(live[..width])
    ensures Holds(acc, live[width..])
  {
    var hi, lo := live[..width], live[width..];
    assert live == hi + lo;
    ValueOfConcat(hi, lo);
    ValueBound(hi);
    ValueBound(lo);
    PowAdd(width, |lo|);
    QuotientAndRest(acc, Pow2(width), Pow2(|lo|), ValueOf(hi), ValueOf(lo));
  }

  /** The padded last group. */
  lemma PadHolds(acc: nat, live: bits, width: nat)
    requires Holds(acc, live) && |live| <= width
    ensures LastGroup(acc, width - |live|, width) == ValueOf(live + Zeros(width - |live|))
  {
    hide Pow2, ValueOf;
    PowAdd(|live|, width - |live|);
    ProductAndRest(acc, Pow2(|live|), Pow2(width - |live|), 0);
    ValueOfConcat(live, Zeros(width - |live|));
    ValueOfZeros(width - |live|);
  }

  lemma InitiallyHolds()
    ensures Holds(0, [])
  {
  }

  /** Taking the next group of the input. */
  lemma FlattenStep(live: bits, data: seq<nat>, i: nat, width: nat)
    requires i < |data|
    ensures live + Flatten(data[i..], width) == live + BitsOf(data[i], width) + Flatten(data[i + 1..], width)
  {
    assert data[i..][1..] == data[i + 1..];
  }

  /** Writing the next group of the output. */
  lemma RegroupStep(live: bits, rest: bits, width: nat, pad: bool)
    requires 0 < width <= |live|
    ensures Regroup(live + rest, width, pad) == [ValueOf(live[..width])] + Regroup(live[width..] + rest, width, pad)
  {
    assert (live + rest)[..width] == live[..width];
    assert (live + rest)[width..] == live[width..] + rest;
  }

  method ConvertBits(data: seq<nat>, fromBits: nat, toBits: nat, pad: bool) returns (ret: seq<nat>)
    requires 0 < fromBits && 0 < toBits && fromBits + toBits <= 33
    requires Below(data, Pow2(fromBits))
    ensures ret == Regroup(Flatten(data, fromBits), toBits, pad)
  {
    hide Pow2, Holds, ValueOf, BitsOf, ShiftIn, Group, LastGroup;
    InitiallyHolds();
    var acc: nat, count: nat := 0, 0;
    ret := [];
    ghost var live: bits := [];
    ghost var whole := Regroup(Flatten(data, fromBits), toBits, pad);
    assert live + Flatten(data[0..], fromBits) == Flatten(data, fromBits);
    for i := 0 to |data|
      invariant |live| == count < toBits && Holds(acc, live)
      invariant whole == ret + Regroup(live + Flatten(data[i..], fromBits), toBits, pad)
    {
      hide Regroup, Flatten;
      var value := data[i];
      ghost var rest := Flatten(data[i + 1..], fromBits);
      FlattenStep(live, data, i, fromBits);
      PushHolds(acc, live, value, fromBits);
      live := live + BitsOf(value, fromBits);
      acc := ShiftIn(acc, value, fromBits);
      count := count + fromBits;
      while count >= toBits
        invariant |live| == count && Holds(acc, live)
        invariant whole == ret + Regroup(live + rest, toBits, pad)
      {
        PopHolds(acc, live, toBits);
        RegroupStep(live, rest, toBits, pad);
        count := count - toBits;
        ret := ret + [Group(acc, count, toBits)];
        live := live[toBits..];
      }
    }
    assert live + Flatten(data[|data|..], fromBits) == live;
    if pad && count != 0 {
      PadHolds(acc, live, toBits);
      ret := ret + [LastGroup(acc, toBits - count, toBits)];
    }
  }

  // ---------------------------------------------------------------------------
  // Regrouping back
  // ---------------------------------------------------------------------------

  lemma {:induction false} RegroupBelow(b: bits, width: nat, pad: bool)
    requires width > 0
    ensures Below(Regroup(b, width, pad), Pow2(width))
    decreases |b|
  {
    hide Pow2, ValueOf;
    if |b| >= width {
      ValueBound(b[..width]);
      RegroupBelow(b[width..], width, pad);
    } else if b != [] {
      ValueBound(b + Zeros(width - |b|));
    }
  }

  /** The number of padded groups: the quotient rounded up. */
  lemma {:induction false} RegroupLength(b: bits, width: nat)
    requires width > 0
    ensures |Regroup(b, width, true)| == (|b| + width - 1) / width
    decreases |b|
  {
    hide ValueOf;
    var n := |b| + width - 1;
    if |b| >= width {
      RegroupLength(b[width..], width);
      var m := n - width;
      assert n == (m / width + 1) * width + m % width by { assert m == width * (m / width) + m % width; }
      QuotientIsUnique(n, m / width + 1, width, m % width);
    } else if b != [] {
      QuotientIsUnique(n, 1, width, |b| - 1);
    } else {
      QuotientIsUnique(n, 0, width, n);
    }
  }

  lemma {:induction false} FlattenLength(data: seq<nat>, width: nat)
    ensures |Flatten(data, width)| == width * |data|
  {
    if data != [] {
      FlattenLength(data[1..], width);
      assert width * |data| == width + width * |data[1..]|;
    }
  }

  /** Padded groups spell the bit string again, plus less than one group of zeros. */
  lemma {:induction false} FlattenRegroup(b: bits, width: nat)
    requires width > 0
    ensures
      var f := Flatten(Regroup(b, width, true), width);
      |b| <= |f| < |b| + width && f == b + Zeros(|f| - |b|)
    decreases |b|
  {
    hide Flatten, Regroup, Zeros;
    if |b| >= width {
      FlattenRegroup(b[width..], width);
      FirstGroup(b, width);
      ZerosBehind(b, width, Flatten(Regroup(b[width..], width, true), width));
    } else {
      ShortGroup(b, width);
    }
  }

  lemma FirstGroup(b: bits, width: nat)
    requires 0 < width <= |b|
    ensures Flatten(Regroup(b, width, true), width) == b[..width] + Flatten(Regroup(b[width..], width, true), width)
  {
    hide ValueOf, BitsOf;
    BitsOfValue(b[..width]);
  }

  lemma ShortGroup(b: bits, width: nat)
    requires |b| < width
    ensures Flatten(Regroup(b, width, true), width) == b + Zeros(if b == [] then 0 else width - |b|)
  {
    hide ValueOf, BitsOf;
    if b != [] {
      BitsOfValue(b + Zeros(width - |b|));
    }
  }

  lemma ZerosBehind(b: bits, n: nat, f: bits)
    requires n <= |b| && |b| - n <= |f| && f == b[n..] + Zeros(|f| - (|b| - n))
    ensures b[..n] + f == b + Zeros(|b[..n] + f| - |b|)
  {
  }

  lemma {:induction false} RegroupFlatten(data: seq<nat>, width: nat, extra: bits)
    requires Below(data, Pow2(width)) && |extra| < width
    ensures Regroup(Flatten(data, width) + extra, width, false) == data
  {
    if data == [] {
      assert Flatten(data, width) + extra == extra;
    } else {
      var head, tail := BitsOf(data[0], width), Flatten(data[1..], width) + extra;
      RegroupFlatten(data[1..], width, extra);
      ValueOfBits(data[0], width);
      assert Flatten(data, width) + extra == head + tail;
      assert (head + tail)[..width] == head && (head + tail)[width..] == tail;
    }
  }

  /** Regrouping to smaller groups with padding and back without it returns the data, and what is left over
      is less than one small group of zeros. */
  lemma ConversionInverts(data: seq<nat>, wide: nat, narrow: nat)
    requires 0 < narrow <= wide && Below(data, Pow2(wide))
    ensures
      var groups := Regroup(Flatten(data, wide), narrow, true);
      && Below(groups, Pow2(narrow))
      && |groups| == (wide * |data| + narrow - 1) / narrow
      && Regroup(Flatten(groups, narrow), wide, false) == data
      && |Leftover(Flatten(groups, narrow), wide)| < narrow
      && Leftover(Flatten(groups, narrow), wide) == Zeros(|Leftover(Flatten(groups, narrow), wide)|)
  {
    hide Regroup, Flatten, Pow2;
    var b := Flatten(data, wide);
    FlattenLength(data, wide);
    RegroupLength(b, narrow);
    RegroupBelow(b, narrow, true);
    FlattenRegroup(b, narrow);
    var f := Flatten(Regroup(b, narrow, true), narrow);
    var k := |f| - |b|;
    RegroupFlatten(data, wide, Zeros(k));
    QuotientIsUnique(|f|, |data|, wide, k);
    assert Leftover(f, wide) == Zeros(k);
  }
}
