/** Addresses that others have published, and what the characters of an address tell about its network and
    its script: the laws of this file do not mention how the strings are made. */
module AddressVectors {
  import opened ByteStrings
  import opened TxDecoder
  import opened BitGroups
  import opened Bech32
  import opened Addresses

  // ---------------------------------------------------------------------------
  // The expanded prefix
  // ---------------------------------------------------------------------------

  /** Three high bits and five low bits make up the character. */
  predicate SpelledAt(hrp: string, e: symbols, i: nat)
    requires i < |hrp| && |e| == 2 * |hrp| + 1
  {
    e[|hrp| + 1 + i] < 32 && 32 * (e[i] as int) + e[|hrp| + 1 + i] as int == hrp[i] as int
  }

  /** The high bits of each character, a zero, the low bits of each character, in the order of the prefix. */
  lemma HrpSpells(hrp: string)
    requires ReadablePrefix(hrp)
    ensures
      var e := HrpExpand(hrp);
      && |e| == 2 * |hrp| + 1 && e[|hrp|] == 0
      && forall i :: 0 <= i < |hrp| ==> SpelledAt(hrp, e, i)
  {
    HrpLength(hrp);
    hide HrpExpand, SpelledAt;
    forall i | 0 <= i < |hrp| ensures SpelledAt(hrp, HrpExpand(hrp), i) {
      HrpAt(hrp, i);
    }
  }

  lemma HrpLength(hrp: string)
    requires ReadablePrefix(hrp)
    ensures |HrpExpand(hrp)| == 2 * |hrp| + 1 && HrpExpand(hrp)[|hrp|] == 0
  {
  }

  lemma HrpAt(hrp: string, i: nat)
    requires ReadablePrefix(hrp) && i < |hrp| && |HrpExpand(hrp)| == 2 * |hrp| + 1
    ensures SpelledAt(hrp, HrpExpand(hrp), i)
  {
    var x := hrp[i] as int;
    assert HrpExpand(hrp)[i] == (x / 32) as word && HrpExpand(hrp)[|hrp| + 1 + i] == (x % 32) as word;
    hide HrpExpand;
    SmallWord(x / 32);
    SmallWord(x % 32);
  }

  lemma SmallWord(x: nat)
    requires x < 32
    ensures (x as word) < 32 && (x as word) as int == x
  {
  }

  lemma PrefixAt(hrp: string, i: nat)
    requires i < |hrp| && hrp[i] as int < 128
    ensures
      var e := HrpExpand(hrp);
      && |e| == 2 * |hrp| + 1 && e[|hrp|] == 0
      && e[i] == (hrp[i] as int / 32) as word && e[|hrp| + 1 + i] == (hrp[i] as int % 32) as word
  {
  }

  lemma TwoCharacters(hrp: string)
    requires |hrp| == 2 && hrp[0] as int < 128 && hrp[1] as int < 128
    ensures HrpExpand(hrp)
            == [(hrp[0] as int / 32) as word, (hrp[1] as int / 32) as word, 0,
                (hrp[0] as int % 32) as word, (hrp[1] as int % 32) as word]
  {
    hide HrpExpand;
    PrefixAt(hrp, 0);
    PrefixAt(hrp, 1);
  }

  // ---------------------------------------------------------------------------
  // Remainders step by step
  // ---------------------------------------------------------------------------

  lemma FoldOne(x: word, a: word)
    ensures Fold(x, [a]) == Step(x, a)
  {
    hide Step;
    assert [a][1..] == [];
    assert Fold(Step(x, a), []) == Step(x, a);
  }

  lemma FoldFive(x: word, s: symbols)
    requires |s| == 5
    ensures Fold(x, s) == Step(Step(Step(Step(Step(x, s[0]), s[1]), s[2]), s[3]), s[4])
  {
    hide Step, Fold;
    assert s == [s[0], s[1]] + [s[2], s[3]] + [s[4]];
    FoldConcat(x, [s[0], s[1]] + [s[2], s[3]], [s[4]]);
    FoldConcat(x, [s[0], s[1]], [s[2], s[3]]);
    FoldTwo(x, s[0], s[1]);
    FoldTwo(Step(Step(x, s[0]), s[1]), s[2], s[3]);
    FoldOne(Step(Step(Step(Step(x, s[0]), s[1]), s[2]), s[3]), s[4]);
  }

  lemma FoldEight(x: word, s: symbols)
    requires |s| == 8
    ensures Fold(x, s)
            == Step(Step(Step(Step(Step(Step(Step(Step(x, s[0]), s[1]), s[2]), s[3]), s[4]), s[5]), s[6]), s[7])
  {
    hide Step, Fold;
    assert s == s[..6] + [s[6], s[7]];
    FoldConcat(x, s[..6], [s[6], s[7]]);
    FoldSix(x, s[..6]);
    FoldTwo(Step(Step(Step(Step(Step(Step(x, s[0]), s[1]), s[2]), s[3]), s[4]), s[5]), s[6], s[7]);
  }

  // ---------------------------------------------------------------------------
  // The witness program of BIP173, section "Examples"
  // ---------------------------------------------------------------------------


  const BYTES0: bytes := [0x75, 0x1e, 0x76, 0xe8, 0x19]
  const BYTES1: bytes := [0x91, 0x96, 0xd4, 0x54, 0x94]
  const BYTES2: bytes := [0x1c, 0x45, 0xd1, 0xb3, 0xa3]
  const BYTES3: bytes := [0x23, 0xf1, 0x43, 0x3b, 0xd6]
  const PROGRAM: bytes := BYTES0 + (BYTES1 + (BYTES2 + BYTES3))

  const GROUPS0: seq<nat> := [14, 20, 15, 7, 13, 26, 0, 25]
  const GROUPS1: seq<nat> := [18, 6, 11, 13, 8, 21, 4, 20]
  const GROUPS2: seq<nat> := [3, 17, 2, 29, 3, 12, 29, 3]
  const GROUPS3: seq<nat> := [4, 15, 24, 20, 6, 14, 30, 22]
  const GROUPS: seq<nat> := GROUPS0 + (GROUPS1 + (GROUPS2 + GROUPS3))

  const WORDS0: symbols := [14, 20, 15, 7, 13, 26, 0, 25]
  const WORDS1: symbols := [18, 6, 11, 13, 8, 21, 4, 20]
  const WORDS2: symbols := [3, 17, 2, 29, 3, 12, 29, 3]
  const WORDS3: symbols := [4, 15, 24, 20, 6, 14, 30, 22]

  lemma {:induction false} FlattenConcat(a: seq<nat>, b: seq<nat>, width: nat)
    ensures Flatten(a + b, width) == Flatten(a, width) + Flatten(b, width)
  {
    hide BitsOf;
    if a == [] {
      assert a + b == b;
    } else {
      var head, tail := BitsOf(a[0], width), Flatten(a[1..], width);
      FlattenConcat(a[1..], b, width);
      assert (a + b)[1..] == a[1..] + b;
      BitsAssoc(head, tail, Flatten(b, width));
    }
  }

  lemma BitsAssoc(a: bits, b: bits, c: bits)
    ensures a + (b + c) == a + b + c
  {
  }

  /** Whole groups are cut as they were put together. */
  lemma {:induction false} RegroupWhole(data: seq<nat>, width: nat)
    requires width > 0 && Below(data, Pow2(width))
    ensures Regroup(Flatten(data, width), width, true) == data
  {
    if data != [] {
      var f := Flatten(data[1..], width);
      RegroupWhole(data[1..], width);
      ValueOfBits(data[0], width);
      assert (BitsOf(data[0], width) + f)[..width] == BitsOf(data[0], width);
      assert (BitsOf(data[0], width) + f)[width..] == f;
    }
  }

  lemma FlattenTwo(a: nat, b: nat, width: nat)
    ensures Flatten([a, b], width) == BitsOf(a, width) + BitsOf(b, width)
  {
    hide BitsOf;
    assert [a, b][1..] == [b] && [b][1..] == [];
    assert Flatten([b], width) == BitsOf(b, width) + Flatten([], width);
  }

  lemma FlattenOne(a: nat, width: nat)
    ensures Flatten([a], width) == BitsOf(a, width)
  {
    hide BitsOf;
    assert [a][1..] == [];
  }

  /** The bits of five bytes and of eight groups. */
  lemma FlattenBytes(s: bytes)
    requires |s| == 5
    ensures Flatten(s, 8) == BitsOf(s[0], 8) + BitsOf(s[1], 8) + BitsOf(s[2], 8) + BitsOf(s[3], 8) + BitsOf(s[4], 8)
  {
    hide BitsOf, Flatten;
    assert s == [s[0], s[1]] + [s[2], s[3]] + [s[4]];
    FlattenConcat([s[0], s[1]] + [s[2], s[3]], [s[4]], 8);
    FlattenConcat([s[0], s[1]], [s[2], s[3]], 8);
    FlattenTwo(s[0], s[1], 8);
    FlattenTwo(s[2], s[3], 8);
    FlattenOne(s[4], 8);
  }

  lemma FlattenGroups(s: seq<nat>)
    requires |s| == 8
    ensures Flatten(s, 5) == BitsOf(s[0], 5) + BitsOf(s[1], 5) + BitsOf(s[2], 5) + BitsOf(s[3], 5)
                             + (BitsOf(s[4], 5) + BitsOf(s[5], 5) + BitsOf(s[6], 5) + BitsOf(s[7], 5))
  {
    hide BitsOf, Flatten;
    assert s == [s[0], s[1]] + [s[2], s[3]] + ([s[4], s[5]] + [s[6], s[7]]);
    FlattenConcat([s[0], s[1]] + [s[2], s[3]], [s[4], s[5]] + [s[6], s[7]], 5);
    FlattenConcat([s[0], s[1]], [s[2], s[3]], 5);
    FlattenConcat([s[4], s[5]], [s[6], s[7]], 5);
    FlattenTwo(s[0], s[1], 5); FlattenTwo(s[2], s[3], 5);
    FlattenTwo(s[4], s[5], 5); FlattenTwo(s[6], s[7], 5);
  }

  lemma LastBit(v: nat, k: nat)
    ensures BitsOf(v, k + 1) == BitsOf(v / 2, k) + [v % 2 == 1]
  {
  }

  lemma EightBits(v: nat)
    ensures BitsOf(v, 8) == BitsOf(v / 16, 4) + [v / 8 % 2 == 1, v / 4 % 2 == 1, v / 2 % 2 == 1, v % 2 == 1]
  {
    hide BitsOf;
    LastBit(v, 7);
    LastBit(v / 2, 6);
    LastBit(v / 4, 5);
    LastBit(v / 8, 4);
    assert v / 2 / 2 == v / 4 && v / 4 / 2 == v / 8 && v / 8 / 2 == v / 16;
  }

  lemma FourBits(v: nat)
    ensures BitsOf(v, 4) == [v / 8 % 2 == 1, v / 4 % 2 == 1, v / 2 % 2 == 1, v % 2 == 1]
  {
    assert BitsOf(v / 2 / 2 / 2, 1) == BitsOf(v / 2 / 2 / 2 / 2, 0) + [v / 2 / 2 / 2 % 2 == 1];
  }

  lemma FiveBits(v: nat)
    ensures BitsOf(v, 5) == BitsOf(v / 2, 4) + [v % 2 == 1]
  {
  }

  lemma ByteBits0()
    ensures BitsOf(0x75, 8) == [false, true, true, true, false, true, false, true]
    ensures BitsOf(0x1e, 8) == [false, false, false, true, true, true, true, false]
    ensures BitsOf(0x76, 8) == [false, true, true, true, false, true, true, false]
    ensures BitsOf(0xe8, 8) == [true, true, true, false, true, false, false, false]
    ensures BitsOf(0x19, 8) == [false, false, false, true, true, false, false, true]
  {
    hide BitsOf;
    EightBits(0x75); FourBits(7);
    EightBits(0x1e); FourBits(1);
    EightBits(0x76); FourBits(7);
    EightBits(0xe8); FourBits(14);
    EightBits(0x19); FourBits(1);
  }

  lemma GroupBits0()
    ensures BitsOf(14, 5) == [false, true, true, true, false]
    ensures BitsOf(20, 5) == [true, false, true, false, false]
    ensures BitsOf(15, 5) == [false, true, true, true, true]
    ensures BitsOf(7, 5) == [false, false, true, true, true]
    ensures BitsOf(13, 5) == [false, true, true, false, true]
    ensures BitsOf(26, 5) == [true, true, false, true, false]
    ensures BitsOf(0, 5) == [false, false, false, false, false]
    ensures BitsOf(25, 5) == [true, true, false, false, true]
  {
    hide BitsOf;
    FiveBits(14); FourBits(7);
    FiveBits(20); FourBits(10);
    FiveBits(15); FourBits(7);
    FiveBits(7); FourBits(3);
    FiveBits(13); FourBits(6);
    FiveBits(26); FourBits(13);
    FiveBits(0); FourBits(0);
    FiveBits(25); FourBits(12);
  }

  lemma SameBits0()
    ensures Flatten(BYTES0, 8) == Flatten(GROUPS0, 5)
  {
    hide BitsOf, Flatten;
    FlattenBytes(BYTES0);
    FlattenGroups(GROUPS0);
    ByteBits0();
    GroupBits0();
  }

  lemma ByteBits1()
    ensures BitsOf(0x91, 8) == [true, false, false, true, false, false, false, true]
    ensures BitsOf(0x96, 8) == [true, false, false, true, false, true, true, false]
    ensures BitsOf(0xd4, 8) == [true, true, false, true, false, true, false, false]
    ensures BitsOf(0x54, 8) == [false, true, false, true, false, true, false, false]
    ensures BitsOf(0x94, 8) == [true, false, false, true, false, true, false, false]
  {
    hide BitsOf;
    EightBits(0x91); FourBits(9);
    EightBits(0x96); FourBits(9);
    EightBits(0xd4); FourBits(13);
    EightBits(0x54); FourBits(5);
    EightBits(0x94); FourBits(9);
  }

  lemma GroupBits1()
    ensures BitsOf(18, 5) == [true, false, false, true, false]
    ensures BitsOf(6, 5) == [false, false, true, true, false]
    ensures BitsOf(11, 5) == [false, true, false, true, true]
    ensures BitsOf(13, 5) == [false, true, true, false, true]
    ensures BitsOf(8, 5) == [false, true, false, false, false]
    ensures BitsOf(21, 5) == [true, false, true, false, true]
    ensures BitsOf(4, 5) == [false, false, true, false, false]
    ensures BitsOf(20, 5) == [true, false, true, false, false]
  {
    hide BitsOf;
    FiveBits(18); FourBits(9);
    FiveBits(6); FourBits(3);
    FiveBits(11); FourBits(5);
    FiveBits(13); FourBits(6);
    FiveBits(8); FourBits(4);
    FiveBits(21); FourBits(10);
    FiveBits(4); FourBits(2);
    FiveBits(20); FourBits(10);
  }

  lemma SameBits1()
    ensures Flatten(BYTES1, 8) == Flatten(GROUPS1, 5)
  {
    hide BitsOf, Flatten;
    FlattenBytes(BYTES1);
    FlattenGroups(GROUPS1);
    ByteBits1();
    GroupBits1();
  }

  lemma ByteBits2()
    ensures BitsOf(0x1c, 8) == [false, false, false, true, true, true, false, false]
    ensures BitsOf(0x45, 8) == [false, true, false, false, false, true, false, true]
    ensures BitsOf(0xd1, 8) == [true, true, false, true, false, false, false, true]
    ensures BitsOf(0xb3, 8) == [true, false, true, true, false, false, true, true]
    ensures BitsOf(0xa3, 8) == [true, false, true, false, false, false, true, true]
  {
    hide BitsOf;
    EightBits(0x1c); FourBits(1);
    EightBits(0x45); FourBits(4);
    EightBits(0xd1); FourBits(13);
    EightBits(0xb3); FourBits(11);
    EightBits(0xa3); FourBits(10);
  }

  lemma GroupBits2()
    ensures BitsOf(3, 5) == [false, false, false, true, true]
    ensures BitsOf(17, 5) == [true, false, false, false, true]
    ensures BitsOf(2, 5) == [false, false, false, true, false]
    ensures BitsOf(29, 5) == [true, true, true, false, true]
    ensures BitsOf(12, 5) == [false, true, true, false, false]
  {
    hide BitsOf;
    FiveBits(3); FourBits(1);
    FiveBits(17); FourBits(8);
    FiveBits(2); FourBits(1);
    FiveBits(29); FourBits(14);
    FiveBits(12); FourBits(6);
  }

  lemma SameBits2()
    ensures Flatten(BYTES2, 8) == Flatten(GROUPS2, 5)
  {
    hide BitsOf, Flatten;
    FlattenBytes(BYTES2);
    FlattenGroups(GROUPS2);
    ByteBits2();
    GroupBits2();
  }

  lemma ByteBits3()
    ensures BitsOf(0x23, 8) == [false, false, true, false, false, false, true, true]
    ensures BitsOf(0xf1, 8) == [true, true, true, true, false, false, false, true]
    ensures BitsOf(0x43, 8) == [false, true, false, false, false, false, true, true]
    ensures BitsOf(0x3b, 8) == [false, false, true, true, true, false, true, true]
    ensures BitsOf(0xd6, 8) == [true, true, false, true, false, true, true, false]
  {
    hide BitsOf;
    EightBits(0x23); FourBits(2);
    EightBits(0xf1); FourBits(15);
    EightBits(0x43); FourBits(4);
    EightBits(0x3b); FourBits(3);
    EightBits(0xd6); FourBits(13);
  }

  lemma GroupBits3()
    ensures BitsOf(4, 5) == [false, false, true, false, false]
    ensures BitsOf(15, 5) == [false, true, true, true, true]
    ensures BitsOf(24, 5) == [true, true, false, false, false]
    ensures BitsOf(20, 5) == [true, false, true, false, false]
    ensures BitsOf(6, 5) == [false, false, true, true, false]
    ensures BitsOf(14, 5) == [false, true, true, true, false]
    ensures BitsOf(30, 5) == [true, true, true, true, false]
    ensures BitsOf(22, 5) == [true, false, true, true, false]
  {
    hide BitsOf;
    FiveBits(4); FourBits(2);
    FiveBits(15); FourBits(7);
    FiveBits(24); FourBits(12);
    FiveBits(20); FourBits(10);
    FiveBits(6); FourBits(3);
    FiveBits(14); FourBits(7);
    FiveBits(30); FourBits(15);
    FiveBits(22); FourBits(11);
  }

  lemma SameBits3()
    ensures Flatten(BYTES3, 8) == Flatten(GROUPS3, 5)
  {
    hide BitsOf, Flatten;
    FlattenBytes(BYTES3);
    FlattenGroups(GROUPS3);
    ByteBits3();
    GroupBits3();
  }

  lemma ProgramGroups()
    ensures Regroup(Flatten(PROGRAM, 8), 5, true) == GROUPS && |PROGRAM| == 20
  {
    hide Flatten, Regroup, BitsOf;
    SameBits0(); SameBits1(); SameBits2(); SameBits3();
    FlattenConcat(BYTES0, BYTES1 + (BYTES2 + (BYTES3)), 8);
    FlattenConcat(BYTES1, BYTES2 + (BYTES3), 8);
    FlattenConcat(BYTES2, BYTES3, 8);
    FlattenConcat(GROUPS0, GROUPS1 + (GROUPS2 + (GROUPS3)), 5);
    FlattenConcat(GROUPS1, GROUPS2 + (GROUPS3), 5);
    FlattenConcat(GROUPS2, GROUPS3, 5);
    PowersOfInterest();
    RegroupWhole(GROUPS, 5);
  }

  lemma Words0()
    ensures Below(GROUPS0, 32) && Words(GROUPS0) == WORDS0
  {
  }

  lemma Words1()
    ensures Below(GROUPS1, 32) && Words(GROUPS1) == WORDS1
  {
  }

  lemma Words2()
    ensures Below(GROUPS2, 32) && Words(GROUPS2) == WORDS2
  {
  }

  lemma Words3()
    ensures Below(GROUPS3, 32) && Words(GROUPS3) == WORDS3
  {
  }

  lemma PayloadWords()
    ensures Below([0] + GROUPS, 32)
    ensures Words([0] + GROUPS) == [0] + (WORDS0 + (WORDS1 + (WORDS2 + WORDS3)))
  {
    hide Words;
    Words0(); Words1(); Words2(); Words3();
    assert Words([0]) == [0] by { ZeroWord(); }
    WordsConcat(GROUPS2, GROUPS3);
    WordsConcat(GROUPS1, GROUPS2 + (GROUPS3));
    WordsConcat(GROUPS0, GROUPS1 + (GROUPS2 + (GROUPS3)));
    WordsConcat([0], GROUPS);
  }

  lemma ZeroWord()
    ensures Words([0]) == [0]
  {
  }

  // The remainder for "bc".

  lemma MainFold0()
    ensures Fold(0x1, [3, 3, 0, 2, 3]) == 0x2318043
  {
    assert Step(0x1, 3) == 0x23;
    assert Step(0x23, 3) == 0x463;
    assert Step(0x463, 0) == 0x8C60;
    assert Step(0x8C60, 2) == 0x118C02;
    assert Step(0x118C02, 3) == 0x2318043;
    hide Step, Fold;
    FoldFive(0x1, [3, 3, 0, 2, 3]);
  }

  lemma MainFold1()
    ensures Fold(0x2318043, [0]) == 0x3D5A5FD2
  {
    assert Step(0x2318043, 0) == 0x3D5A5FD2;
    hide Step, Fold;
    FoldOne(0x2318043, 0);
  }

  lemma MainFold2()
    ensures Fold(0x3D5A5FD2, WORDS0) == 0x2B1BCBCE
  {
    assert Step(0x3D5A5FD2, 14) == 0x4EC3CB7;
    assert Step(0x4EC3CB7, 20) == 0x3BD71899;
    assert Step(0x3BD71899, 15) == 0x87E0C09;
    assert Step(0x87E0C09, 7) == 0x116098DD;
    assert Step(0x116098DD, 13) == 0x11512870;
    assert Step(0x11512870, 26) == 0x17673DC7;
    assert Step(0x17673DC7, 0) == 0xC9F52E2;
    assert Step(0xC9F52E2, 25) == 0x2B1BCBCE;
    hide Step, Fold;
    FoldEight(0x3D5A5FD2, WORDS0);
  }

  lemma MainFold3()
    ensures Fold(0x2B1BCBCE, WORDS1) == 0x23A1FF4B
  {
    assert Step(0x2B1BCBCE, 18) == 0x2CA65529;
    assert Step(0x2CA65529, 6) == 0x62F5002;
    assert Step(0x62F5002, 11) == 0x18D0D994;
    assert Step(0x18D0D994, 13) == 0x39F818AA;
    assert Step(0x39F818AA, 8) == 0x36F45DDC;
    assert Step(0x36F45DDC, 21) == 0x14E73324;
    assert Step(0x14E73324, 4) == 0x7F4D934;
    assert Step(0x7F4D934, 20) == 0x23A1FF4B;
    hide Step, Fold;
    FoldEight(0x2B1BCBCE, WORDS1);
  }

  lemma MainFold4()
    ensures Fold(0x23A1FF4B, WORDS2) == 0x2A387174
  {
    assert Step(0x23A1FF4B, 3) == 0x2541DC62;
    assert Step(0x2541DC62, 17) == 0x247F608F;
    assert Step(0x247F608F, 2) == 0x3A8FD3C;
    assert Step(0x3A8FD3C, 29) == 0xE75F02F;
    assert Step(0xE75F02F, 3) == 0xD25C5C6;
    assert Step(0xD25C5C6, 12) == 0x1C492F5B;
    assert Step(0x1C492F5B, 29) == 0xC964F37;
    assert Step(0xC964F37, 3) == 0x2A387174;
    hide Step, Fold;
    FoldEight(0x23A1FF4B, WORDS2);
  }

  lemma MainFold5()
    ensures Fold(0x2A387174, WORDS3) == 0x979C4ED
  {
    assert Step(0x2A387174, 4) == 0x8D1027F;
    assert Step(0x8D1027F, 15) == 0x4815615;
    assert Step(0x4815615, 24) == 0x367A4CD5;
    assert Step(0x367A4CD5, 20) == 0x5251205;
    assert Step(0x5251205, 6) == 0x2F2CECB;
    assert Step(0x2F2CECB, 14) == 0x25338EDC;
    assert Step(0x25338EDC, 30) == 0x2A353740;
    assert Step(0x2A353740, 22) == 0x979C4ED;
    hide Step, Fold;
    FoldEight(0x2A387174, WORDS3);
  }

  lemma MainFold6()
    ensures Fold(0x979C4ED, SIX_ZEROS) == 0x1874C574
  {
    assert Step(0x979C4ED, 0) == 0x3199845A;
    assert Step(0x3199845A, 0) == 0x2466DA2E;
    assert Step(0x2466DA2E, 0) == 0x9FA91E;
    assert Step(0x9FA91E, 0) == 0x13F523C0;
    assert Step(0x13F523C0, 0) == 0x388C1C6F;
    assert Step(0x388C1C6F, 0) == 0x1874C574;
    hide Step, Fold;
    FoldSix(0x979C4ED, SIX_ZEROS);
  }

  lemma MainHrp()
    ensures HrpExpand("bc") == [3, 3, 0, 2, 3]
  {
    hide HrpExpand;
    TwoCharacters("bc");
    assert 'b' as int == 98 && 'c' as int == 99;
  }

  lemma MainChecksum()
    requires Below([0] + GROUPS, 32)
    ensures ChecksumOf("bc", [0] + GROUPS) == [12, 7, 9, 17, 11, 21]
  {
    MainRemainder();
    hide Fold, HrpExpand, Words;
    assert Xor(0x1874C574, 1) == 0x1874C575;
    assert Groups(0x1874C575) == [12, 7, 9, 17, 11, 21];
  }

  lemma MainRemainder()
    requires Below([0] + GROUPS, 32)
    ensures Fold(1, HrpExpand("bc") + Words([0] + GROUPS) + SIX_ZEROS) == 0x1874C574
  {
    hide Fold, HrpExpand, Words;
    MainHrp(); PayloadWords();
    assert HrpExpand("bc") + Words([0] + GROUPS) + SIX_ZEROS
           == [3, 3, 0, 2, 3] + ([0] + (WORDS0 + (WORDS1 + (WORDS2 + (WORDS3 + (SIX_ZEROS))))));
    MainFold0();
    MainFold1();
    MainFold2();
    MainFold3();
    MainFold4();
    MainFold5();
    MainFold6();
    FoldConcat(0x1, [3, 3, 0, 2, 3], [0] + (WORDS0 + (WORDS1 + (WORDS2 + (WORDS3 + (SIX_ZEROS))))));
    FoldConcat(0x2318043, [0], WORDS0 + (WORDS1 + (WORDS2 + (WORDS3 + (SIX_ZEROS)))));
    FoldConcat(0x3D5A5FD2, WORDS0, WORDS1 + (WORDS2 + (WORDS3 + (SIX_ZEROS))));
    FoldConcat(0x2B1BCBCE, WORDS1, WORDS2 + (WORDS3 + (SIX_ZEROS)));
    FoldConcat(0x23A1FF4B, WORDS2, WORDS3 + (SIX_ZEROS));
    FoldConcat(0x2A387174, WORDS3, SIX_ZEROS);
  }

  // The remainder for "tb".

  lemma TestFold0()
    ensures Fold(0x1, [3, 3, 0, 20, 2]) == 0x2318282
  {
    assert Step(0x1, 3) == 0x23;
    assert Step(0x23, 3) == 0x463;
    assert Step(0x463, 0) == 0x8C60;
    assert Step(0x8C60, 20) == 0x118C14;
    assert Step(0x118C14, 2) == 0x2318282;
    hide Step, Fold;
    FoldFive(0x1, [3, 3, 0, 20, 2]);
  }

  lemma TestFold1()
    ensures Fold(0x2318282, [0]) == 0x3D5A07F2
  {
    assert Step(0x2318282, 0) == 0x3D5A07F2;
    hide Step, Fold;
    FoldOne(0x2318282, 0);
  }

  lemma TestFold2()
    ensures Fold(0x3D5A07F2, WORDS0) == 0x1CB71D35
  {
    assert Step(0x3D5A07F2, 14) == 0x4E738B7;
    assert Step(0x4E738B7, 20) == 0x3AB79899;
    assert Step(0x3AB79899, 15) == 0x246E0C09;
    assert Step(0x246E0C09, 7) == 0x1856DF9;
    assert Step(0x1856DF9, 13) == 0x30ADBF2D;
    assert Step(0x30ADBF2D, 26) == 0x2E1B4D4;
    assert Step(0x2E1B4D4, 0) == 0x275CCD32;
    assert Step(0x275CCD32, 25) == 0x1CB71D35;
    hide Step, Fold;
    FoldEight(0x3D5A07F2, WORDS0);
  }

  lemma TestFold3()
    ensures Fold(0x1CB71D35, WORDS1) == 0x33573A53
  {
    assert Step(0x1CB71D35, 18) == 0x135002F8;
    assert Step(0x135002F8, 6) == 0x2C283B69;
    assert Step(0x2C283B69, 11) == 0x17E2980F;
    assert Step(0x17E2980F, 13) == 0x1C2BEBEF;
    assert Step(0x1C2BEBEF, 8) == 0xCED9A2;
    assert Step(0xCED9A2, 21) == 0x19DB3455;
    assert Step(0x19DB3455, 4) == 0x1885A083;
    assert Step(0x1885A083, 20) == 0x33573A53;
    hide Step, Fold;
    FoldEight(0x1CB71D35, WORDS1);
  }

  lemma TestFold4()
    ensures Fold(0x33573A53, WORDS2) == 0x3B1B56A7
  {
    assert Step(0x33573A53, 3) == 0x6DB4CBF;
    assert Step(0x6DB4CBF, 17) == 0x6534E2E;
    assert Step(0x6534E2E, 2) == 0x17531C1D;
    assert Step(0x17531C1D, 29) == 0xA1B69BF;
    assert Step(0xA1B69BF, 3) == 0x26A679AB;
    assert Step(0x26A679AB, 12) == 0x23E18E00;
    assert Step(0x23E18E00, 29) == 0x2D4FF51C;
    assert Step(0x2D4FF51C, 3) == 0x3B1B56A7;
    hide Step, Fold;
    FoldEight(0x33573A53, WORDS2);
  }

  lemma TestFold5()
    ensures Fold(0x3B1B56A7, WORDS3) == 0x1B096B55
  {
    assert Step(0x3B1B56A7, 4) == 0x11F7CBC2;
    assert Step(0x11F7CBC2, 15) == 0x3BB4B92;
    assert Step(0x3BB4B92, 24) == 0xC0325EA;
    assert Step(0xC0325EA, 20) == 0x38952AC3;
    assert Step(0x38952AC3, 6) == 0x1B5210F2;
    assert Step(0x1B5210F2, 14) == 0x32CB63DB;
    assert Step(0x32CB63DB, 30) == 0x35507DA2;
    assert Step(0x35507DA2, 22) == 0x1B096B55;
    hide Step, Fold;
    FoldEight(0x3B1B56A7, WORDS3);
  }

  lemma TestFold6()
    ensures Fold(0x1B096B55, SIX_ZEROS) == 0xC190A07
  {
    assert Step(0x1B096B55, 0) == 0x39A41735;
    assert Step(0x39A41735, 0) == 0x3D75AE34;
    assert Step(0x3D75AE34, 0) == 0x1120079;
    assert Step(0x1120079, 0) == 0x22400F20;
    assert Step(0x22400F20, 0) == 0x197FD101;
    assert Step(0x197FD101, 0) == 0xC190A07;
    hide Step, Fold;
    FoldSix(0x1B096B55, SIX_ZEROS);
  }

  lemma TestHrp()
    ensures HrpExpand("tb") == [3, 3, 0, 20, 2]
  {
    hide HrpExpand;
    TwoCharacters("tb");
    assert 't' as int == 116 && 'b' as int == 98;
  }

  lemma TestChecksum()
    requires Below([0] + GROUPS, 32)
    ensures ChecksumOf("tb", [0] + GROUPS) == [6, 1, 18, 2, 16, 6]
  {
    TestRemainder();
    hide Fold, HrpExpand, Words;
    assert Xor(0xC190A07, 1) == 0xC190A06;
    assert Groups(0xC190A06) == [6, 1, 18, 2, 16, 6];
  }

  lemma TestRemainder()
    requires Below([0] + GROUPS, 32)
    ensures Fold(1, HrpExpand("tb") + Words([0] + GROUPS) + SIX_ZEROS) == 0xC190A07
  {
    hide Fold, HrpExpand, Words;
    TestHrp(); PayloadWords();
    assert HrpExpand("tb") + Words([0] + GROUPS) + SIX_ZEROS
           == [3, 3, 0, 20, 2] + ([0] + (WORDS0 + (WORDS1 + (WORDS2 + (WORDS3 + (SIX_ZEROS))))));
    TestFold0();
    TestFold1();
    TestFold2();
    TestFold3();
    TestFold4();
    TestFold5();
    TestFold6();
    FoldConcat(0x1, [3, 3, 0, 20, 2], [0] + (WORDS0 + (WORDS1 + (WORDS2 + (WORDS3 + (SIX_ZEROS))))));
    FoldConcat(0x2318282, [0], WORDS0 + (WORDS1 + (WORDS2 + (WORDS3 + (SIX_ZEROS)))));
    FoldConcat(0x3D5A07F2, WORDS0, WORDS1 + (WORDS2 + (WORDS3 + (SIX_ZEROS))));
    FoldConcat(0x1CB71D35, WORDS1, WORDS2 + (WORDS3 + (SIX_ZEROS)));
    FoldConcat(0x33573A53, WORDS2, WORDS3 + (SIX_ZEROS));
    FoldConcat(0x3B1B56A7, WORDS3, SIX_ZEROS);
  }

  // ---------------------------------------------------------------------------
  // The strings of BIP173
  // ---------------------------------------------------------------------------

  lemma CharsConcat(a: seq<nat>, b: seq<nat>)
    requires Below(a, 32) && Below(b, 32)
    ensures Below(a + b, 32) && Chars(a + b) == Chars(a) + Chars(b)
  {
  }

  lemma Chars0()
    ensures Below(GROUPS0, 32) && Chars(GROUPS0) == "w508d6qe"
  {
  }

  lemma Chars1()
    ensures Below(GROUPS1, 32) && Chars(GROUPS1) == "jxtdg4y5"
  {
  }

  lemma Chars2()
    ensures Below(GROUPS2, 32) && Chars(GROUPS2) == "r3zarvar"
  {
  }

  lemma Chars3()
    ensures Below(GROUPS3, 32) && Chars(GROUPS3) == "y0c5xw7k"
  {
  }

  lemma GroupChars()
    ensures Below([0] + GROUPS, 32) && Chars([0] + GROUPS) == "qw508d6qejxtdg4y5r3zarvary0c5xw7k"
  {
    hide Chars;
    Chars0(); Chars1(); Chars2(); Chars3(); FirstChar();
    CharsConcat(GROUPS2, GROUPS3);
    CharsConcat(GROUPS1, GROUPS2 + (GROUPS3));
    CharsConcat(GROUPS0, GROUPS1 + (GROUPS2 + (GROUPS3)));
    CharsConcat([0], GROUPS);
    JoinedChars();
  }

  lemma JoinedChars()
    ensures "q" + ("w508d6qe" + ("jxtdg4y5" + ("r3zarvar" + "y0c5xw7k"))) == "qw508d6qejxtdg4y5r3zarvary0c5xw7k"
  {
    JoinedSixteen();
    JoinedTwentyFour();
    JoinedThirtyTwo();
    JoinedThirtyThree();
  }

  lemma JoinedThirtyThree()
    ensures "q" + "w508d6qejxtdg4y5r3zarvary0c5xw7k" == "qw508d6qejxtdg4y5r3zarvary0c5xw7k"
  {
  }

  lemma JoinedSixteen()
    ensures "r3zarvar" + "y0c5xw7k" == "r3zarvary0c5xw7k"
  {
  }

  lemma JoinedTwentyFour()
    ensures "jxtdg4y5" + "r3zarvary0c5xw7k" == "jxtdg4y5r3zarvary0c5xw7k"
  {
  }

  lemma JoinedThirtyTwo()
    ensures "w508d6qe" + "jxtdg4y5r3zarvary0c5xw7k" == "w508d6qejxtdg4y5r3zarvary0c5xw7k"
  {
  }

  lemma FirstChar()
    ensures Chars([0]) == "q"
  {
  }

  lemma MainChecksumChars()
    ensures Below([12, 7, 9, 17, 11, 21], 32) && Chars([12, 7, 9, 17, 11, 21]) == "v8f3t4"
  {
  }

  lemma MainString()
    ensures Bech32String("bc", 0, PROGRAM) == "bc1qw508d6qejxtdg4y5r3zarvary0c5xw7kv8f3t4"
  {
    ProgramGroups(); GroupChars(); MainChecksum(); MainChecksumChars();
    assert Payload(0, PROGRAM) == [0] + GROUPS;
    MainJoined();
    hide Chars, ChecksumOf, Payload, GROUPS;
    CharsConcat([0] + GROUPS, [12, 7, 9, 17, 11, 21]);
  }

  lemma MainJoined()
    ensures "bc" + "1" + ("qw508d6qejxtdg4y5r3zarvary0c5xw7k" + "v8f3t4")
            == "bc1qw508d6qejxtdg4y5r3zarvary0c5xw7kv8f3t4"
  {
    MainData();
    hide *;
    assert "bc" + "1" == "bc1";
  }

  lemma MainData()
    ensures "qw508d6qejxtdg4y5r3zarvary0c5xw7k" + "v8f3t4" == "qw508d6qejxtdg4y5r3zarvary0c5xw7kv8f3t4"
  {
  }

  lemma TestChecksumChars()
    ensures Below([6, 1, 18, 2, 16, 6], 32) && Chars([6, 1, 18, 2, 16, 6]) == "xpjzsx"
  {
  }

  lemma TestString()
    ensures Bech32String("tb", 0, PROGRAM) == "tb1qw508d6qejxtdg4y5r3zarvary0c5xw7kxpjzsx"
  {
    ProgramGroups(); GroupChars(); TestChecksum(); TestChecksumChars();
    assert Payload(0, PROGRAM) == [0] + GROUPS;
    TestJoined();
    hide Chars, ChecksumOf, Payload, GROUPS;
    CharsConcat([0] + GROUPS, [6, 1, 18, 2, 16, 6]);
  }

  lemma TestJoined()
    ensures "tb" + "1" + ("qw508d6qejxtdg4y5r3zarvary0c5xw7k" + "xpjzsx")
            == "tb1qw508d6qejxtdg4y5r3zarvary0c5xw7kxpjzsx"
  {
    TestData();
    hide *;
    assert "tb" + "1" == "tb1";
  }

  lemma TestData()
    ensures "qw508d6qejxtdg4y5r3zarvary0c5xw7k" + "xpjzsx" == "qw508d6qejxtdg4y5r3zarvary0c5xw7kxpjzsx"
  {
  }

  /** BIP173, section "Examples": the P2WPKH addresses of one key on both networks. */
  lemma PublishedAddresses(sha256: hash256)
    ensures AddressOf([0x00, 0x14] + PROGRAM, false, sha256) == Some("bc1qw508d6qejxtdg4y5r3zarvary0c5xw7kv8f3t4")
    ensures AddressOf([0x00, 0x14] + PROGRAM, true, sha256) == Some("tb1qw508d6qejxtdg4y5r3zarvary0c5xw7kxpjzsx")
  {
    ProgramGroups();
    MainString();
    TestString();
    hide Bech32String;
    var script := [0x00, 0x14] + PROGRAM;
    assert script[0..2] == [0x00, 0x14] && script[2..] == PROGRAM;
  }

  // ---------------------------------------------------------------------------
  // The whole charset
  // ---------------------------------------------------------------------------

  const VALUES0: seq<nat> := [0, 1, 2, 3, 4, 5, 6, 7]
  const VALUES1: seq<nat> := [8, 9, 10, 11, 12, 13, 14, 15]
  const VALUES2: seq<nat> := [16, 17, 18, 19, 20, 21, 22, 23]
  const VALUES3: seq<nat> := [24, 25, 26, 27, 28, 29, 30, 31]
  const CHARSET0: symbols := [0, 1, 2, 3, 4, 5, 6, 7]
  const CHARSET1: symbols := [8, 9, 10, 11, 12, 13, 14, 15]
  const CHARSET2: symbols := [16, 17, 18, 19, 20, 21, 22, 23]
  const CHARSET3: symbols := [24, 25, 26, 27, 28, 29, 30, 31]

  lemma CharsetFold0()
    ensures Fold(0x1, [3, 3, 3, 3, 3, 3, 0, 1]) == 0x3DC7154C
  {
    assert Step(0x1, 3) == 0x23;
    assert Step(0x23, 3) == 0x463;
    assert Step(0x463, 3) == 0x8C63;
    assert Step(0x8C63, 3) == 0x118C63;
    assert Step(0x118C63, 3) == 0x2318C63;
    assert Step(0x2318C63, 3) == 0x3D5BDBD1;
    assert Step(0x3D5BDBD1, 0) == 0x4DCBCD9;
    assert Step(0x4DCBCD9, 1) == 0x3DC7154C;
    hide Step, Fold;
    FoldEight(0x1, [3, 3, 3, 3, 3, 3, 0, 1]);
  }

  lemma CharsetFold1()
    ensures Fold(0x3DC7154C, [2, 3, 4, 5, 6]) == 0x3BE80E6A
  {
    assert Step(0x3DC7154C, 2) == 0x17456F7B;
    assert Step(0x17456F7B, 3) == 0x8D50561;
    assert Step(0x8D50561, 4) == 0x401B5DE;
    assert Step(0x401B5DE, 5) == 0x266635A8;
    assert Step(0x266635A8, 6) == 0x3BE80E6A;
    hide Step, Fold;
    FoldFive(0x3DC7154C, [2, 3, 4, 5, 6]);
  }

  lemma CharsetFold2()
    ensures Fold(0x3BE80E6A, CHARSET0) == 0x11E88668
  {
    assert Step(0x3BE80E6A, 0) == 0xF9CD266;
    assert Step(0xF9CD266, 1) == 0x30018CE4;
    assert Step(0x30018CE4, 2) == 0x1767CDEC;
    assert Step(0x1767CDEC, 3) == 0xC815781;
    assert Step(0xC815781, 4) == 0x28DB67B3;
    assert Step(0x28DB67B3, 5) == 0x2FD98D2C;
    assert Step(0x2FD98D2C, 6) == 0x12BE0710;
    assert Step(0x12BE0710, 7) == 0x11E88668;
    hide Step, Fold;
    FoldEight(0x3BE80E6A, CHARSET0);
  }

  lemma CharsetFold3()
    ensures Fold(0x11E88668, CHARSET1) == 0x31223F8A
  {
    assert Step(0x11E88668, 8) == 0x52FED5;
    assert Step(0x52FED5, 9) == 0xA5FDAA9;
    assert Step(0xA5FDAA9, 10) == 0x2E301B62;
    assert Step(0x2E301B62, 11) == 0x2F8CCEDD;
    assert Step(0x2F8CCEDD, 12) == 0x1816793A;
    assert Step(0x1816793A, 13) == 0x212C0D6A;
    assert Step(0x212C0D6A, 14) == 0xF95CFFD;
    assert Step(0xF95CFFD, 15) == 0x31223F8A;
    hide Step, Fold;
    FoldEight(0x11E88668, CHARSET1);
  }

  lemma CharsetFold4()
    ensures Fold(0x31223F8A, CHARSET2) == 0x297C48E0
  {
    assert Step(0x31223F8A, 16) == 0x3311A03E;
    assert Step(0x3311A03E, 17) == 0xE08010D;
    assert Step(0xE08010D, 18) == 0x29BE197;
    assert Step(0x29BE197, 19) == 0x28166541;
    assert Step(0x28166541, 20) == 0x3679D37D;
    assert Step(0x3679D37D, 21) == 0x556E704;
    assert Step(0x556E704, 22) == 0xC8C6EFB;
    assert Step(0xC8C6EFB, 23) == 0x297C48E0;
    hide Step, Fold;
    FoldEight(0x31223F8A, CHARSET2);
  }

  lemma CharsetFold5()
    ensures Fold(0x297C48E0, CHARSET3) == 0x1A0D3656
  {
    assert Step(0x297C48E0, 24) == 0x1B3C6751;
    assert Step(0x1B3C6751, 25) == 0x3F0597AC;
    assert Step(0x3F0597AC, 26) == 0x347F64D1;
    assert Step(0x347F64D1, 27) == 0x3EEA4538;
    assert Step(0x3EEA4538, 28) == 0x9853657;
    assert Step(0x9853657, 29) == 0x2E07D307;
    assert Step(0x2E07D307, 30) == 0x2975C268;
    assert Step(0x2975C268, 31) == 0x1A0D3656;
    hide Step, Fold;
    FoldEight(0x297C48E0, CHARSET3);
  }

  lemma CharsetFold6()
    ensures Fold(0x1A0D3656, [27, 0, 0, 0, 6, 14]) == 0x1
  {
    assert Step(0x1A0D3656, 27) == 0x192FB74E;
    assert Step(0x192FB74E, 0) == 0x615C3E7;
    assert Step(0x615C3E7, 0) == 0x1F82A53F;
    assert Step(0x1F82A53F, 0) == 0xE8D5418;
    assert Step(0xE8D5418, 6) == 0x12314323;
    assert Step(0x12314323, 14) == 0x1;
    hide Step, Fold;
    FoldSix(0x1A0D3656, [27, 0, 0, 0, 6, 14]);
  }

  lemma CharsetHrp()
    ensures HrpExpand("abcdef") == [3, 3, 3, 3, 3, 3, 0, 1, 2, 3, 4, 5, 6]
  {
    hide HrpExpand;
    PrefixAt("abcdef", 0); PrefixAt("abcdef", 1); PrefixAt("abcdef", 2);
    PrefixAt("abcdef", 3); PrefixAt("abcdef", 4); PrefixAt("abcdef", 5);
  }

  lemma CharsetValues0()
    ensures CharValues("qpzry9x8") == VALUES0
  {
  }

  lemma CharsetValues1()
    ensures CharValues("gf2tvdw0") == VALUES1
  {
  }

  lemma CharsetValues2()
    ensures CharValues("s3jn54kh") == VALUES2
  {
  }

  lemma CharsetValues3()
    ensures CharValues("ce6mua7l") == VALUES3
  {
  }

  lemma ValuesConcat(a: string, b: string)
    ensures CharValues(a + b) == CharValues(a) + CharValues(b)
  {
  }

  lemma CharsetValues()
    ensures CharValues("qpzry9x8gf2tvdw0s3jn54khce6mua7l") == VALUES0 + (VALUES1 + (VALUES2 + (VALUES3)))
  {
    CharsetValues0(); CharsetValues1(); CharsetValues2(); CharsetValues3();
    hide CharValues;
    ValuesConcat("qpzry9x8", "gf2tvdw0" + ("s3jn54kh" + ("ce6mua7l")));
    ValuesConcat("gf2tvdw0", "s3jn54kh" + ("ce6mua7l"));
    ValuesConcat("s3jn54kh", "ce6mua7l");
    assert "qpzry9x8" + ("gf2tvdw0" + ("s3jn54kh" + ("ce6mua7l"))) == "qpzry9x8gf2tvdw0s3jn54khce6mua7l";
  }

  /** BIP173, section "Test vectors": "abcdef1qpzry9x8gf2tvdw0s3jn54khce6mua7lmqqqxw" is valid, and its data
      are the 32 characters in the order of their values. */
  lemma ValidCharset()
    ensures CharValues("qpzry9x8gf2tvdw0s3jn54khce6mua7l") == VALUES0 + (VALUES1 + (VALUES2 + VALUES3))
    ensures CharValues("mqqqxw") == [27, 0, 0, 0, 6, 14]
    ensures Fold(1, HrpExpand("abcdef") + (CHARSET0 + (CHARSET1 + (CHARSET2 + (CHARSET3 + [27, 0, 0, 0, 6, 14]))))) == 1
  {
    CharsetValues();
    assert CharValues("mqqqxw") == [27, 0, 0, 0, 6, 14];
    CharsetHrp();
    hide Fold, HrpExpand, CharValues;
    var data := CHARSET0 + (CHARSET1 + (CHARSET2 + (CHARSET3 + [27, 0, 0, 0, 6, 14])));
    assert HrpExpand("abcdef") + data == [3, 3, 3, 3, 3, 3, 0, 1] + ([2, 3, 4, 5, 6] + data);
    CharsetFold0();
    CharsetFold1();
    CharsetFold2();
    CharsetFold3();
    CharsetFold4();
    CharsetFold5();
    CharsetFold6();
    FoldConcat(0x1, [3, 3, 3, 3, 3, 3, 0, 1],
               [2, 3, 4, 5, 6] + (CHARSET0 + (CHARSET1 + (CHARSET2 + (CHARSET3 + ([27, 0, 0, 0, 6, 14]))))));
    FoldConcat(0x3DC7154C, [2, 3, 4, 5, 6], CHARSET0 + (CHARSET1 + (CHARSET2 + (CHARSET3 + ([27, 0, 0, 0, 6, 14])))));
    FoldConcat(0x3BE80E6A, CHARSET0, CHARSET1 + (CHARSET2 + (CHARSET3 + ([27, 0, 0, 0, 6, 14]))));
    FoldConcat(0x11E88668, CHARSET1, CHARSET2 + (CHARSET3 + ([27, 0, 0, 0, 6, 14])));
    FoldConcat(0x31223F8A, CHARSET2, CHARSET3 + ([27, 0, 0, 0, 6, 14]));
    FoldConcat(0x297C48E0, CHARSET3, [27, 0, 0, 0, 6, 14]);
  }

}
