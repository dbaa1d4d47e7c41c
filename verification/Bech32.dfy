/** The Bech32 checksum of BIP173, section "Bech32": the polynomial remainder, its linearity
    over bitwise exclusive or, and what follows for checksums and for errors.

    A state of the remainder has 30 bits and every symbol is far smaller, so `bv30` holds what
    the program keeps in unbounded integers. `Xor` names `^` so that proofs can treat it as a
    black box where only its algebra matters. */
module Bech32 {

  type word = bv30
  type symbols = seq<word>

  const GENERATOR: seq<word> := [0x3B6A57B2, 0x26508E6D, 0x1EA119FA, 0x3D4233DD, 0x2A1462B3]

  function Xor(a: word, b: word): word {
    a ^ b
  }

  predicate Bit(b: word, i: nat)
    requires i < 5
  {
    (b >> i) & 1 == 1
  }

  /** The generators selected by the first `n` bits. */
  function Feedback(b: word, n: nat): word
    requires n <= 5
  {
    if n == 0 then 0
    else Xor(Feedback(b, n - 1), if Bit(b, n - 1) then GENERATOR[n - 1] else 0)
  }

  function Top(chk: word): word {
    chk >> 25
  }

  function Shift5(chk: word): word {
    (chk & 0x1FFFFFF) << 5
  }

  /** The remainder after one more symbol. */
  function Step(chk: word, v: word): word {
    Xor(Xor(Shift5(chk), v), Feedback(Top(chk), 5))
  }

  function Fold(chk: word, values: symbols): word
    decreases |values|
  {
    if values == [] then chk else Fold(Step(chk, values[0]), values[1..])
  }

  method Polymod(values: symbols) returns (chk: word)
    ensures chk == Fold(1, values)
  {
    hide Xor, Bit, Top, Shift5;
    chk := 1;
    for j := 0 to |values|
      invariant Fold(chk, values[j..]) == Fold(1, values)
    {
      var b := Top(chk);
      ghost var start := chk;
      chk := Xor(Shift5(chk), values[j]);
      ghost var shifted := chk;
      XorZero(chk);
      for i := 0 to 5
        invariant chk == Xor(shifted, Feedback(b, i))
      {
        ghost var before := Feedback(b, i);
        ghost var tap := if Bit(b, i) then GENERATOR[i] else 0;
        chk := Xor(chk, if Bit(b, i) then GENERATOR[i] else 0);
        XorAssoc(shifted, before, tap);
      }
      assert chk == Step(start, values[j]);
      assert values[j..][1..] == values[j + 1..];
    }
  }

  // ---------------------------------------------------------------------------
  // Linearity
  // ---------------------------------------------------------------------------

  lemma XorZero(a: word)
    ensures Xor(a, 0) == a && Xor(0, a) == a && Xor(a, a) == 0
  {
  }

  lemma XorAssoc(a: word, b: word, c: word)
    ensures Xor(Xor(a, b), c) == Xor(a, Xor(b, c))
  {
  }

  lemma XorSwap(a: word, b: word, c: word, d: word)
    ensures Xor(Xor(a, b), Xor(c, d)) == Xor(Xor(a, c), Xor(b, d))
  {
    hide Xor;
    XorAssoc(a, b, Xor(c, d));
    XorAssoc(b, c, d);
    XorCommutes(b, c);
    XorAssoc(c, b, d);
    XorAssoc(a, c, Xor(b, d));
  }

  lemma XorCommutes(a: word, b: word)
    ensures Xor(a, b) == Xor(b, a)
  {
  }

  lemma BitLinear(a: word, b: word, i: nat)
    requires i < 5
    ensures Bit(Xor(a, b), i) <==> Bit(a, i) != Bit(b, i)
  {
    assert i == 0 || i == 1 || i == 2 || i == 3 || i == 4;
  }

  lemma {:induction false} FeedbackLinear(a: word, b: word, n: nat)
    requires n <= 5
    ensures Feedback(Xor(a, b), n) == Xor(Feedback(a, n), Feedback(b, n))
  {
    hide Xor, Bit;
    if n == 0 {
      XorZero(0);
    } else {
      var g := GENERATOR[n - 1];
      var ta, tb := if Bit(a, n - 1) then g else 0, if Bit(b, n - 1) then g else 0;
      FeedbackLinear(a, b, n - 1);
      BitLinear(a, b, n - 1);
      XorZero(g); XorZero(0);
      XorSwap(Feedback(a, n - 1), Feedback(b, n - 1), ta, tb);
    }
  }

  lemma ShiftLinear(a: word, b: word)
    ensures Top(Xor(a, b)) == Xor(Top(a), Top(b))
    ensures Shift5(Xor(a, b)) == Xor(Shift5(a), Shift5(b))
  {
  }

  lemma StepLinear(a: word, b: word, u: word, v: word)
    ensures Step(Xor(a, b), Xor(u, v)) == Xor(Step(a, u), Step(b, v))
  {
    hide Xor, Feedback, Shift5, Top;
    FeedbackLinear(Top(a), Top(b), 5);
    ShiftLinear(a, b);
    XorSwap(Shift5(a), Shift5(b), u, v);
    XorSwap(Xor(Shift5(a), u), Xor(Shift5(b), v), Feedback(Top(a), 5), Feedback(Top(b), 5));
  }

  function XorEach(u: symbols, v: symbols): (w: symbols)
    requires |u| == |v|
    ensures |w| == |u|
  {
    seq(|u|, i requires 0 <= i < |u| => Xor(u[i], v[i]))
  }

  /** The remainder is linear in the state and in the symbols together. */
  lemma {:induction false} FoldLinear(a: word, b: word, u: symbols, v: symbols)
    requires |u| == |v|
    ensures Fold(Xor(a, b), XorEach(u, v)) == Xor(Fold(a, u), Fold(b, v))
    decreases |u|
  {
    if u != [] {
      hide Xor, Step;
      StepLinear(a, b, u[0], v[0]);
      FoldLinear(Step(a, u[0]), Step(b, v[0]), u[1..], v[1..]);
      assert XorEach(u, v)[1..] == XorEach(u[1..], v[1..]);
    }
  }

  lemma {:induction false} FoldConcat(chk: word, u: symbols, v: symbols)
    ensures Fold(chk, u + v) == Fold(Fold(chk, u), v)
    decreases |u|
  {
    if u == [] {
      assert u + v == v;
    } else {
      FoldConcat(Step(chk, u[0]), u[1..], v);
      assert (u + v)[1..] == u[1..] + v;
    }
  }

  // ---------------------------------------------------------------------------
  // The step loses nothing
  // ---------------------------------------------------------------------------

  lemma FeedbackUnfolds(b: word)
    ensures Feedback(b, 5) ==
      (if Bit(b, 0) then 0x3B6A57B2 else 0) ^ (if Bit(b, 1) then 0x26508E6D else 0)
      ^ (if Bit(b, 2) then 0x1EA119FA else 0) ^ (if Bit(b, 3) then 0x3D4233DD else 0)
      ^ (if Bit(b, 4) then 0x2A1462B3 else 0)
  {
    hide Bit;
    assert Feedback(b, 1) == if Bit(b, 0) then 0x3B6A57B2 else 0;
    assert Feedback(b, 3) == Feedback(b, 1)
              ^ (if Bit(b, 1) then 0x26508E6D else 0) ^ (if Bit(b, 2) then 0x1EA119FA else 0);
  }

  /** The low five bits of the feedback tell which generators were taken. */
  lemma FeedbackFaithful(b: word)
    requires b < 32 && Feedback(b, 5) & 31 == 0
    ensures b == 0
  {
    FeedbackUnfolds(b);
    hide Feedback;
  }

  lemma StepKernel(d: word)
    requires Step(d, 0) == 0
    ensures d == 0
  {
    var f := Feedback(Top(d), 5);
    hide Feedback;
    assert ((d & 0x1FFFFFF) << 5) ^ f == 0;
    assert f & 31 == 0;
    FeedbackFaithful(Top(d));
    FeedbackOfZero();
    assert (d & 0x1FFFFFF) << 5 == 0;
  }

  lemma FeedbackOfZero()
    ensures Feedback(0, 5) == 0
  {
    FeedbackUnfolds(0);
  }

  lemma StepInjective(a: word, b: word, v: word)
    requires Step(a, v) == Step(b, v)
    ensures a == b
  {
    StepLinear(a, b, v, v);
    XorZero(v); XorZero(Step(a, v));
    StepKernel(Xor(a, b));
    assert a ^ b == 0 ==> a == b;
  }

  /** Whatever follows, different states stay different. */
  lemma {:induction false} FoldInjective(a: word, b: word, tail: symbols)
    requires Fold(a, tail) == Fold(b, tail)
    ensures a == b
    decreases |tail|
  {
    if tail != [] {
      FoldInjective(Step(a, tail[0]), Step(b, tail[0]), tail[1..]);
      StepInjective(a, b, tail[0]);
    }
  }

  // ---------------------------------------------------------------------------
  // Six symbols fill the state
  // ---------------------------------------------------------------------------

  predicate FiveBit(s: symbols) {
    forall i :: 0 <= i < |s| ==> s[i] < 32
  }

  /** `x` has come from at most `n` five-bit symbols and no overflow. */
  predicate Fits(x: word, n: nat) {
    if n == 0 then x == 0
    else if n == 1 then x < 0x20
    else if n == 2 then x < 0x400
    else if n == 3 then x < 0x8000
    else if n == 4 then x < 0x10_0000
    else if n == 5 then x < 0x200_0000
    else true
  }

  lemma SmallStep(x: word, v: word, n: nat)
    requires Fits(x, n) && n <= 5 && v < 32
    ensures Step(x, v) == Append(x, v) && Fits(Step(x, v), n + 1)
    ensures Step(x, v) == 0 <==> x == 0 && v == 0
  {
    hide Step, Append;
    assert x < 0x200_0000;
    StepAppends(x, v);
    AppendFits(x, v, n);
    AppendIsZero(x, v);
  }

  /** Five bits appended on the right. */
  function Append(x: word, v: word): word {
    (x << 5) ^ v
  }

  lemma NoOverflow(x: word)
    requires x < 0x200_0000
    ensures Top(x) == 0 && Shift5(x) == x << 5
  {
  }

  lemma StepAppends(x: word, v: word)
    requires x < 0x200_0000
    ensures Step(x, v) == Append(x, v)
  {
    hide Feedback, Top, Shift5, Append, Xor;
    NoOverflow(x);
    FeedbackOfZero();
    ShiftedIsAppended(x, v);
    XorZero(Xor(Shift5(x), v));
  }

  lemma ShiftedIsAppended(x: word, v: word)
    requires x < 0x200_0000
    ensures Append(x, v) == Xor(Shift5(x), v)
  {
    NoOverflow(x);
    hide Shift5;
  }

  lemma AppendFits(x: word, v: word, n: nat)
    requires Fits(x, n) && n <= 5 && v < 32
    ensures Fits(Append(x, v), n + 1)
  {
    if n == 0 {
      assert x == 0 && v < 32 ==> (x << 5) ^ v < 0x20;
    } else if n == 1 {
      assert x < 0x20 && v < 32 ==> (x << 5) ^ v < 0x400;
    } else if n == 2 {
      assert x < 0x400 && v < 32 ==> (x << 5) ^ v < 0x8000;
    } else if n == 3 {
      assert x < 0x8000 && v < 32 ==> (x << 5) ^ v < 0x10_0000;
    } else if n == 4 {
      assert x < 0x10_0000 && v < 32 ==> (x << 5) ^ v < 0x200_0000;
    }
  }

  lemma AppendIsZero(x: word, v: word)
    requires x < 0x200_0000 && v < 32
    ensures Append(x, v) == 0 <==> x == 0 && v == 0
  {
  }

  /** A window of at most six symbols cannot cancel out. */
  lemma {:induction false} ShortFoldIsZero(x: word, n: nat, s: symbols)
    requires Fits(x, n) && FiveBit(s) && n + |s| <= 6
    requires Fold(x, s) == 0
    ensures x == 0 && forall i :: 0 <= i < |s| ==> s[i] == 0
    decreases |s|
  {
    if s != [] {
      hide Step, Fits;
      SmallStep(x, s[0], n);
      ShortFoldIsZero(Step(x, s[0]), n + 1, s[1..]);
      assert forall i :: 0 < i < |s| ==> s[i] == s[1..][i - 1];
    }
  }

  /** Any change within at most six consecutive symbols changes the remainder, whatever comes
      before and after: in particular every substitution of one symbol, at any position. */
  lemma BurstDetected(before: symbols, u: symbols, v: symbols, after: symbols)
    requires |u| == |v| <= 6 && FiveBit(u) && FiveBit(v) && u != v
    ensures Fold(1, before + u + after) != Fold(1, before + v + after)
  {
    var s := Fold(1, before);
    FoldConcat(1, before + u, after); FoldConcat(1, before, u);
    FoldConcat(1, before + v, after); FoldConcat(1, before, v);
    if Fold(1, before + u + after) == Fold(1, before + v + after) {
      FoldInjective(Fold(s, u), Fold(s, v), after);
      FoldLinear(s, s, u, v);
      XorZero(s); XorZero(Fold(s, u));
      DifferenceFits(u, v);
      ShortFoldIsZero(0, 0, XorEach(u, v));
      NoDifference(u, v);
      assert false;
    }
  }

  lemma DifferenceFits(u: symbols, v: symbols)
    requires |u| == |v| && FiveBit(u) && FiveBit(v)
    ensures FiveBit(XorEach(u, v))
  {
    forall i | 0 <= i < |u| ensures XorEach(u, v)[i] < 32 {
      assert u[i] < 32 && v[i] < 32;
    }
  }

  lemma NoDifference(u: symbols, v: symbols)
    requires |u| == |v| && forall i :: 0 <= i < |u| ==> XorEach(u, v)[i] == 0
    ensures u == v
  {
    forall i | 0 <= i < |u| ensures u[i] == v[i] {
      assert u[i] ^ v[i] == XorEach(u, v)[i] == 0;
    }
  }

  // ---------------------------------------------------------------------------
  // The checksum
  // ---------------------------------------------------------------------------

  const SIX_ZEROS: symbols := [0, 0, 0, 0, 0, 0]

  /** The six five-bit groups of a state, most significant first. */
  function Groups(x: word): (s: symbols)
    ensures |s| == 6
  {
    [(x >> 25) & 31, (x >> 20) & 31, (x >> 15) & 31, (x >> 10) & 31, (x >> 5) & 31, x & 31]
  }

  function Checksum(values: symbols): symbols {
    Groups(Xor(Fold(1, values + SIX_ZEROS), 1))
  }

  method CreateChecksum(values: symbols) returns (checksum: symbols)
    ensures checksum == Checksum(values)
  {
    var polymod := Polymod(values + SIX_ZEROS);
    polymod := Xor(polymod, 1);
    checksum := Groups(polymod);
  }

  lemma GroupFits(x: word)
    ensures x & 31 < 32
  {
  }

  lemma GroupsFit(x: word)
    ensures FiveBit(Groups(x))
  {
    GroupFits(x >> 25); GroupFits(x >> 20); GroupFits(x >> 15);
    GroupFits(x >> 10); GroupFits(x >> 5); GroupFits(x);
  }

  lemma GroupsAppended(x: word)
    ensures
      var s := Groups(x);
      Append(Append(Append(Append(Append(Append(0, s[0]), s[1]), s[2]), s[3]), s[4]), s[5]) == x
  {
  }

  /** Reading a state's own groups from zero rebuilds it. */
  lemma FoldGroups(x: word)
    ensures Fold(0, Groups(x)) == x
  {
    var s := Groups(x);
    GroupsFit(x);
    GroupsAppended(x);
    FoldSix(0, s);
    hide Step, Append, Groups;
    var x1 := Append(0, s[0]);
    var x2 := Append(x1, s[1]);
    var x3 := Append(x2, s[2]);
    var x4 := Append(x3, s[3]);
    var x5 := Append(x4, s[4]);
    SmallStep(0, s[0], 0); SmallStep(x1, s[1], 1); SmallStep(x2, s[2], 2);
    SmallStep(x3, s[3], 3); SmallStep(x4, s[4], 4); SmallStep(x5, s[5], 5);
  }

  lemma FoldTwo(x: word, a: word, b: word)
    ensures Fold(x, [a, b]) == Step(Step(x, a), b)
  {
    hide Step;
    assert [a, b][1..] == [b] && [b][1..] == [];
    assert Fold(Step(x, a), [b]) == Fold(Step(Step(x, a), b), []);
  }

  lemma FoldSix(x: word, s: symbols)
    requires |s| == 6
    ensures Fold(x, s) == Step(Step(Step(Step(Step(Step(x, s[0]), s[1]), s[2]), s[3]), s[4]), s[5])
  {
    hide Step, Fold;
    assert s == [s[0], s[1]] + [s[2], s[3]] + [s[4], s[5]];
    FoldConcat(x, [s[0], s[1]] + [s[2], s[3]], [s[4], s[5]]);
    FoldConcat(x, [s[0], s[1]], [s[2], s[3]]);
    FoldTwo(x, s[0], s[1]);
    FoldTwo(Step(Step(x, s[0]), s[1]), s[2], s[3]);
    FoldTwo(Step(Step(Step(Step(x, s[0]), s[1]), s[2]), s[3]), s[4], s[5]);
  }

  /** BIP173, section "Checksum": appending the checksum makes the remainder equal to one. */
  lemma ChecksumVerifies(values: symbols)
    ensures Fold(1, values + Checksum(values)) == 1
  {
    hide Xor, Groups;
    var s := Fold(1, values);
    var z := Fold(s, SIX_ZEROS);
    var pm := Xor(z, 1);
    FoldConcat(1, values, SIX_ZEROS);
    FoldConcat(1, values, Groups(pm));
    FoldLinear(s, 0, SIX_ZEROS, Groups(pm));
    XorZero(s);
    assert XorEach(SIX_ZEROS, Groups(pm)) == Groups(pm) by {
      forall i | 0 <= i < 6 ensures Xor(SIX_ZEROS[i], Groups(pm)[i]) == Groups(pm)[i] {
        XorZero(Groups(pm)[i]);
      }
    }
    FoldGroups(pm);
    XorAssoc(z, z, 1);
    XorZero(z); XorZero(1);
  }

  /** A checksummed sequence with any change within six consecutive symbols does not verify. */
  lemma CorruptionDetected(values: symbols, before: symbols, u: symbols, v: symbols, after: symbols)
    requires values + Checksum(values) == before + u + after
    requires |u| == |v| <= 6 && FiveBit(u) && FiveBit(v) && u != v
    ensures Fold(1, before + v + after) != 1
  {
    ChecksumVerifies(values);
    BurstDetected(before, u, v, after);
  }
}
