/**
 * The digest of "abc" (sdk/ts/test/sha256.test.ts:9-15), worked out word by word: constants, rotation amounts, sums and
 * the order of the rounds are all as they must be.
 */
module KnownDigest {
  import opened Bytes
  import opened Fips180

  const ABC: Bytes := [97, 98, 99]

  // The message schedule of the one block, and the words the variables a and e take in its rounds, eight to a row.
  function W0(): Row {
    Row(0x61626380, 0x00000000, 0x00000000, 0x00000000, 0x00000000, 0x00000000, 0x00000000, 0x00000000)
  }

  function W1(): Row {
    Row(0x00000000, 0x00000000, 0x00000000, 0x00000000, 0x00000000, 0x00000000, 0x00000000, 0x00000018)
  }

  function W2(): Row {
    Row(0x61626380, 0x000f0000, 0x7da86405, 0x600003c6, 0x3e9d7b78, 0x0183fc00, 0x12dcbfdb, 0xe2e2c38e)
  }

  function W3(): Row {
    Row(0xc8215c1a, 0xb73679a2, 0xe5bc3909, 0x32663c5b, 0x9d209d67, 0xec8726cb, 0x702138a4, 0xd3b7973b)
  }

  function W4(): Row {
    Row(0x93f5997f, 0x3b68ba73, 0xaff4ffc1, 0xf10a5c62, 0x0a8b3996, 0x72af830a, 0x9409e33e, 0x24641522)
  }

  function W5(): Row {
    Row(0x9f47bf94, 0xf0a64f5a, 0x3e246a79, 0x27333ba3, 0x0c4763f2, 0x840abf27, 0x7a290d5d, 0x065c43da)
  }

  function W6(): Row {
    Row(0xfb3e89cb, 0xcc7617db, 0xb9e66c34, 0xa9993667, 0x84badedd, 0xc21462bc, 0x1487472c, 0xb20f7a99)
  }

  function W7(): Row {
    Row(0xef57b9cd, 0xebe6b238, 0x9fe3095e, 0x78bc8d4b, 0xa43fcf15, 0x668b2ff8, 0xeeaba2cc, 0x12b1edeb)
  }

  function A0(): Row {
    Row(0x5d6aebcd, 0x5a6ad9ad, 0xc8c347a7, 0xd550f666, 0x04409a6a, 0x2b4209f5, 0xe5030380, 0x85a07b5f)
  }

  function A1(): Row {
    Row(0x8e04ecb9, 0x8c87346b, 0x4798a3f4, 0xf71fc5a9, 0x87912990, 0xd932eb16, 0xc0645fde, 0xb0fa238e)
  }

  function A2(): Row {
    Row(0x21da9a9b, 0xc2fbd9d1, 0xfe777bbf, 0xe1f20c33, 0x9dc68b63, 0xc2606d6d, 0xa7a3623f, 0xc5d53d8d)
  }

  function A3(): Row {
    Row(0x1c2c2838, 0xcde8037d, 0xb62ec4bc, 0x77d37528, 0x363482c9, 0xa0060b30, 0xea992a22, 0x73b33bf5)
  }

  function A4(): Row {
    Row(0x98e12507, 0xfe604df5, 0xa9a7738c, 0x65a0cfe4, 0x41a65cb1, 0x34df1604, 0x6dc57a8a, 0x79ea687a)
  }

  function A5(): Row {
    Row(0xd6670766, 0xdf46652f, 0x17aa0dfe, 0x9d4baf93, 0x26628815, 0x72ab4b91, 0xa14c14b0, 0x4172328d)
  }

  function A6(): Row {
    Row(0x05757ceb, 0xf11bfaa8, 0x7a0508a1, 0x886e7a22, 0x101fd28f, 0xf5702fdb, 0x3ec45cdb, 0x38cc9913)
  }

  function A7(): Row {
    Row(0xfcd1887b, 0xc062d46f, 0xffb70472, 0xb6ae8fff, 0xb85e2ce9, 0x04d24d6c, 0xd39a2165, 0x506e3058)
  }

  function E0(): Row {
    Row(0xfa2a4622, 0x78ce7989, 0xf92939eb, 0x24e00850, 0x43ada245, 0x714260ad, 0x9b27a401, 0x0c657a79)
  }

  function E1(): Row {
    Row(0x32ca2d8c, 0x1cc92596, 0x436b23e8, 0x816fd6e9, 0x1e578218, 0x745a48de, 0x0b92f20c, 0x07590dcd)
  }

  function E2(): Row {
    Row(0x8034229c, 0x846ee454, 0xcc899961, 0xb0638179, 0x8ada8930, 0xe1257970, 0x49f5114a, 0xaa47c347)
  }

  function E3(): Row {
    Row(0x2823ef91, 0x14383d8e, 0xc74c6516, 0xedffbff8, 0x6112a3b7, 0xade79437, 0x0109ab3a, 0xba591112)
  }

  function E4(): Row {
    Row(0x9cd9f5f6, 0x59249dd3, 0x085f3833, 0xf4b002d6, 0x0772a26b, 0xa507a53d, 0xf0781bc8, 0x1efbc0a0)
  }

  function E5(): Row {
    Row(0x26352d63, 0x838b2711, 0xdecd4715, 0xfda24c2e, 0xa80f11f0, 0xb7755da1, 0xd57b94a9, 0xfecf0bc6)
  }

  function E6(): Row {
    Row(0xbd714038, 0x6e5c390c, 0x52f1ccf7, 0x49231c1e, 0x529e7d00, 0x9f4787c3, 0xe50e1b4f, 0x54cb266b)
  }

  function E7(): Row {
    Row(0x9b5e906c, 0x7e44008e, 0x6d83bfc6, 0xb21bad3d, 0x961f4894, 0x948d25b6, 0xfb121210, 0x5ef50f24)
  }

  // --- Eight steps at a time ------------------------------------------------------------------------------

  /** `n` is the row of a schedule after rows `u` and `v`: its first half, and its second. */
  predicate NextFirst(u: Row, v: Row, n: Row) {
    && n.w0 == Next(u.w0, u.w1, v.w1, v.w6) && n.w1 == Next(u.w1, u.w2, v.w2, v.w7)
    && n.w2 == Next(u.w2, u.w3, v.w3, n.w0) && n.w3 == Next(u.w3, u.w4, v.w4, n.w1)
  }

  predicate NextLast(u: Row, v: Row, n: Row) {
    && n.w4 == Next(u.w4, u.w5, v.w5, n.w2) && n.w5 == Next(u.w5, u.w6, v.w6, n.w3)
    && n.w6 == Next(u.w6, u.w7, v.w7, n.w4) && n.w7 == Next(u.w7, v.w0, n.w0, n.w5)
  }

  /** One round on the variables `s` makes `a` and `e`, and moves the others along. */
  predicate Step(s: Eight, k: Word, w: Word, a: Word, e: Word) {
    Round(s, k, w) == Moved(s, a, e)
  }

  function Moved(s: Eight, a: Word, e: Word): Eight {
    Eight(a, s.a, s.b, s.c, e, s.e, s.f, s.g)
  }

  /** The variables half-way through a row, and after it. */
  function Middle(a: Row, e: Row): Eight {
    Eight(a.w3, a.w2, a.w1, a.w0, e.w3, e.w2, e.w1, e.w0)
  }

  function End(a: Row, e: Row): Eight {
    Eight(a.w7, a.w6, a.w5, a.w4, e.w7, e.w6, e.w5, e.w4)
  }

  predicate FirstFour(s: Eight, k: Row, w: Row, a: Row, e: Row) {
    && Step(s, k.w0, w.w0, a.w0, e.w0)
    && Step(Eight(a.w0, s.a, s.b, s.c, e.w0, s.e, s.f, s.g), k.w1, w.w1, a.w1, e.w1)
    && Step(Eight(a.w1, a.w0, s.a, s.b, e.w1, e.w0, s.e, s.f), k.w2, w.w2, a.w2, e.w2)
    && Step(Eight(a.w2, a.w1, a.w0, s.a, e.w2, e.w1, e.w0, s.e), k.w3, w.w3, a.w3, e.w3)
  }

  predicate LastFour(k: Row, w: Row, a: Row, e: Row) {
    && Step(Middle(a, e), k.w4, w.w4, a.w4, e.w4)
    && Step(Eight(a.w4, a.w3, a.w2, a.w1, e.w4, e.w3, e.w2, e.w1), k.w5, w.w5, a.w5, e.w5)
    && Step(Eight(a.w5, a.w4, a.w3, a.w2, e.w5, e.w4, e.w3, e.w2), k.w6, w.w6, a.w6, e.w6)
    && Step(Eight(a.w6, a.w5, a.w4, a.w3, e.w6, e.w5, e.w4, e.w3), k.w7, w.w7, a.w7, e.w7)
  }

  ghost predicate IsScheduleRow(p: Bytes, r: nat, w: Row)
    requires |p| == 64 && r < 8
  {
    && Schedule(p, 0, 8 * r) == w.w0 && Schedule(p, 0, 8 * r + 1) == w.w1
    && Schedule(p, 0, 8 * r + 2) == w.w2 && Schedule(p, 0, 8 * r + 3) == w.w3
    && Schedule(p, 0, 8 * r + 4) == w.w4 && Schedule(p, 0, 8 * r + 5) == w.w5
    && Schedule(p, 0, 8 * r + 6) == w.w6 && Schedule(p, 0, 8 * r + 7) == w.w7
  }

  lemma RowFollows(p: Bytes, r: nat, u: Row, v: Row, n: Row)
    requires |p| == 64 && r < 6 && IsScheduleRow(p, r, u) && IsScheduleRow(p, r + 1, v)
    requires NextFirst(u, v, n) && NextLast(u, v, n)
    ensures IsScheduleRow(p, r + 2, n)
  {
    hide Next, WordAt, Schedule;
    var t := 8 * r + 16;
    ScheduleStep(p, 0, t);
    ScheduleStep(p, 0, t + 1);
    ScheduleStep(p, 0, t + 2);
    ScheduleStep(p, 0, t + 3);
    ScheduleStep(p, 0, t + 4);
    ScheduleStep(p, 0, t + 5);
    ScheduleStep(p, 0, t + 6);
    ScheduleStep(p, 0, t + 7);
  }

  lemma RowsFollow(p: Bytes, w0: Row, w1: Row, w2: Row, w3: Row, w4: Row, w5: Row, w6: Row, w7: Row)
    requires |p| == 64 && IsScheduleRow(p, 0, w0) && IsScheduleRow(p, 1, w1)
    requires NextFirst(w0, w1, w2) && NextLast(w0, w1, w2) && NextFirst(w1, w2, w3) && NextLast(w1, w2, w3)
    requires NextFirst(w2, w3, w4) && NextLast(w2, w3, w4) && NextFirst(w3, w4, w5) && NextLast(w3, w4, w5)
    requires NextFirst(w4, w5, w6) && NextLast(w4, w5, w6) && NextFirst(w5, w6, w7) && NextLast(w5, w6, w7)
    ensures IsScheduleRow(p, 2, w2) && IsScheduleRow(p, 3, w3) && IsScheduleRow(p, 4, w4)
    ensures IsScheduleRow(p, 5, w5) && IsScheduleRow(p, 6, w6) && IsScheduleRow(p, 7, w7)
  {
    hide IsScheduleRow, NextFirst, NextLast;
    RowFollows(p, 0, w0, w1, w2);
    RowFollows(p, 1, w1, w2, w3);
    RowFollows(p, 2, w2, w3, w4);
    RowFollows(p, 3, w3, w4, w5);
    RowFollows(p, 4, w4, w5, w6);
    RowFollows(p, 5, w5, w6, w7);
  }

  lemma OneFollows(p: Bytes, h: Eight, t: nat, k: Word, a: Word, e: Word)
    requires |p| == 64 && t < 64 && RoundConstant(t) == k
    requires Step(Rounds(p, 0, h, t), k, Schedule(p, 0, t), a, e)
    ensures Rounds(p, 0, h, t + 1) == Moved(Rounds(p, 0, h, t), a, e)
  {
    hide Round, Rounds, Schedule, RoundConstant;
    RoundsStep(p, 0, h, t);
  }

  lemma ConstantAt(r: nat, i: nat)
    requires r < 8 && i < 8
    ensures RoundConstant(8 * r + i) == ConstantRow(r).At(i)
  {
    hide ConstantRow;
    assert (8 * r + i) / 8 == r && (8 * r + i) % 8 == i;
  }

  lemma ConstantsAt(r: nat)
    requires r < 8
    ensures var k := ConstantRow(r);
            && RoundConstant(8 * r) == k.w0 && RoundConstant(8 * r + 1) == k.w1
            && RoundConstant(8 * r + 2) == k.w2 && RoundConstant(8 * r + 3) == k.w3
            && RoundConstant(8 * r + 4) == k.w4 && RoundConstant(8 * r + 5) == k.w5
            && RoundConstant(8 * r + 6) == k.w6 && RoundConstant(8 * r + 7) == k.w7
  {
    hide RoundConstant, ConstantRow;
    ConstantAt(r, 0);
    ConstantAt(r, 1);
    ConstantAt(r, 2);
    ConstantAt(r, 3);
    ConstantAt(r, 4);
    ConstantAt(r, 5);
    ConstantAt(r, 6);
    ConstantAt(r, 7);
  }

  lemma FourFollow(p: Bytes, h: Eight, r: nat, w: Row, a: Row, e: Row)
    requires |p| == 64 && r < 8 && IsScheduleRow(p, r, w)
    requires FirstFour(Rounds(p, 0, h, 8 * r), ConstantRow(r), w, a, e)
    ensures Rounds(p, 0, h, 8 * r + 4) == Middle(a, e)
  {
    hide Step, Rounds, Schedule, ConstantRow, RoundConstant;
    var k := ConstantRow(r);
    ConstantsAt(r);
    OneFollows(p, h, 8 * r, k.w0, a.w0, e.w0);
    OneFollows(p, h, 8 * r + 1, k.w1, a.w1, e.w1);
    OneFollows(p, h, 8 * r + 2, k.w2, a.w2, e.w2);
    OneFollows(p, h, 8 * r + 3, k.w3, a.w3, e.w3);
  }

  lemma RestFollow(p: Bytes, h: Eight, r: nat, w: Row, a: Row, e: Row)
    requires |p| == 64 && r < 8 && IsScheduleRow(p, r, w)
    requires Rounds(p, 0, h, 8 * r + 4) == Middle(a, e) && LastFour(ConstantRow(r), w, a, e)
    ensures Rounds(p, 0, h, 8 * r + 8) == End(a, e)
  {
    hide Step, Rounds, Schedule, ConstantRow, RoundConstant;
    var k := ConstantRow(r);
    ConstantsAt(r);
    OneFollows(p, h, 8 * r + 4, k.w4, a.w4, e.w4);
    OneFollows(p, h, 8 * r + 5, k.w5, a.w5, e.w5);
    OneFollows(p, h, 8 * r + 6, k.w6, a.w6, e.w6);
    OneFollows(p, h, 8 * r + 7, k.w7, a.w7, e.w7);
  }

  lemma EightFollow(p: Bytes, h: Eight, r: nat, w: Row, a: Row, e: Row)
    requires |p| == 64 && r < 8 && IsScheduleRow(p, r, w)
    requires FirstFour(Rounds(p, 0, h, 8 * r), ConstantRow(r), w, a, e) && LastFour(ConstantRow(r), w, a, e)
    ensures Rounds(p, 0, h, 8 * r + 8) == End(a, e)
  {
    hide FirstFour, LastFour, IsScheduleRow, Rounds, ConstantRow;
    FourFollow(p, h, r, w, a, e);
    RestFollow(p, h, r, w, a, e);
  }

  // --- The words of this block ---------------------------------------------------------------------------

  lemma Words2()
    ensures Next(0x61626380, 0x00000000, 0x00000000, 0x00000000) == 0x61626380
    ensures Next(0x00000000, 0x00000000, 0x00000000, 0x00000018) == 0x000f0000
    ensures Next(0x00000000, 0x00000000, 0x00000000, 0x61626380) == 0x7da86405
    ensures Next(0x00000000, 0x00000000, 0x00000000, 0x000f0000) == 0x600003c6
    ensures Next(0x00000000, 0x00000000, 0x00000000, 0x7da86405) == 0x3e9d7b78
    ensures Next(0x00000000, 0x00000000, 0x00000000, 0x600003c6) == 0x0183fc00
    ensures Next(0x00000000, 0x00000000, 0x00000018, 0x3e9d7b78) == 0x12dcbfdb
    ensures Next(0x00000000, 0x00000000, 0x61626380, 0x0183fc00) == 0xe2e2c38e
  {
  }

  lemma Words3()
    ensures Next(0x00000000, 0x00000000, 0x000f0000, 0x12dcbfdb) == 0xc8215c1a
    ensures Next(0x00000000, 0x00000000, 0x7da86405, 0xe2e2c38e) == 0xb73679a2
    ensures Next(0x00000000, 0x00000000, 0x600003c6, 0xc8215c1a) == 0xe5bc3909
    ensures Next(0x00000000, 0x00000000, 0x3e9d7b78, 0xb73679a2) == 0x32663c5b
    ensures Next(0x00000000, 0x00000000, 0x0183fc00, 0xe5bc3909) == 0x9d209d67
    ensures Next(0x00000000, 0x00000000, 0x12dcbfdb, 0x32663c5b) == 0xec8726cb
    ensures Next(0x00000000, 0x00000018, 0xe2e2c38e, 0x9d209d67) == 0x702138a4
    ensures Next(0x00000018, 0x61626380, 0xc8215c1a, 0xec8726cb) == 0xd3b7973b
  {
  }

  lemma Words4()
    ensures NextFirst(W2(), W3(), W4()) && NextLast(W2(), W3(), W4())
  {
  }

  lemma Words5()
    ensures NextFirst(W3(), W4(), W5()) && NextLast(W3(), W4(), W5())
  {
  }

  lemma Words6()
    ensures NextFirst(W4(), W5(), W6()) && NextLast(W4(), W5(), W6())
  {
  }

  lemma Words7()
    ensures NextFirst(W5(), W6(), W7()) && NextLast(W5(), W6(), W7())
  {
  }

  lemma FirstFour0()
    ensures FirstFour(INITIAL, ConstantRow(0), W0(), A0(), E0())
  {
  }

  lemma LastFour0()
    ensures LastFour(ConstantRow(0), W0(), A0(), E0())
  {
  }

  lemma FirstFour1()
    ensures FirstFour(End(A0(), E0()), ConstantRow(1), W1(), A1(), E1())
  {
  }

  lemma LastFour1()
    ensures LastFour(ConstantRow(1), W1(), A1(), E1())
  {
  }

  lemma FirstFour2()
    ensures FirstFour(End(A1(), E1()), ConstantRow(2), W2(), A2(), E2())
  {
  }

  lemma LastFour2()
    ensures LastFour(ConstantRow(2), W2(), A2(), E2())
  {
  }

  lemma FirstFour3()
    ensures FirstFour(End(A2(), E2()), ConstantRow(3), W3(), A3(), E3())
  {
  }

  lemma LastFour3()
    ensures LastFour(ConstantRow(3), W3(), A3(), E3())
  {
  }

  lemma FirstFour4()
    ensures FirstFour(End(A3(), E3()), ConstantRow(4), W4(), A4(), E4())
  {
  }

  lemma LastFour4()
    ensures LastFour(ConstantRow(4), W4(), A4(), E4())
  {
  }

  lemma FirstFour5()
    ensures FirstFour(End(A4(), E4()), ConstantRow(5), W5(), A5(), E5())
  {
  }

  lemma LastFour5()
    ensures LastFour(ConstantRow(5), W5(), A5(), E5())
  {
  }

  lemma FirstFour6()
    ensures FirstFour(End(A5(), E5()), ConstantRow(6), W6(), A6(), E6())
  {
  }

  lemma LastFour6()
    ensures LastFour(ConstantRow(6), W6(), A6(), E6())
  {
  }

  lemma FirstFour7()
    ensures FirstFour(End(A6(), E6()), ConstantRow(7), W7(), A7(), E7())
  {
  }

  lemma LastFour7()
    ensures LastFour(ConstantRow(7), W7(), A7(), E7())
  {
  }

  lemma RowsTwoAndThree()
    ensures NextFirst(W0(), W1(), W2()) && NextLast(W0(), W1(), W2()) && NextFirst(W1(), W2(), W3())
              && NextLast(W1(), W2(), W3())
  {
    hide Next;
    Words2();
    Words3();
  }

  lemma {:induction false} ZeroOctets(width: nat)
    ensures BigEndian(0, width) == Repeat(0, width)
  {
    if width > 0 {
      ZeroOctets(width - 1);
      RepeatJoin<byte>(0, width - 1, 1);
      assert Repeat<byte>(0, 1) == [0];
    }
  }

  lemma PadOfAbc()
    ensures Pad(ABC) == ABC + [0x80] + Repeat(0, 59) + [24] && |Pad(ABC)| == 64
  {
    ZeroOctets(7);
    RepeatJoin<byte>(0, 52, 7);
    hide Repeat;
    assert ZeroBytes(3) == 52 && U64(24) == Repeat(0, 7) + [24];
  }

  lemma ValueOf(a: byte, b: byte, c: byte, d: byte)
    ensures FromBigEndian([a, b, c, d]) == ((a as nat * 256 + b as nat) * 256 + c as nat) * 256 + d as nat
  {
    assert FromBigEndian([a]) == a as nat;
    assert [a, b][..1] == [a] && FromBigEndian([a, b]) == a as nat * 256 + b as nat;
    assert [a, b, c][..2] == [a, b] && FromBigEndian([a, b, c]) == (a as nat * 256 + b as nat) * 256 + c as nat;
    assert [a, b, c, d][..3] == [a, b, c];
  }

  lemma WordIs(p: Bytes, i: nat, a: byte, b: byte, c: byte, d: byte, w: Word)
    requires i + 4 <= |p| && p[i..i + 4] == [a, b, c, d]
    requires w as nat == ((a as nat * 256 + b as nat) * 256 + c as nat) * 256 + d as nat
    ensures WordAt(p, i) == w
  {
    hide FromBigEndian;
    ValueOf(a, b, c, d);
  }

  /** The padded message is one block: its first word the message and the marker, its last the length in bits. */
  lemma BlockOfAbc()
    ensures var p := Pad(ABC); |p| == 64 && IsScheduleRow(p, 0, W0()) && IsScheduleRow(p, 1, W1())
  {
    hide Pad, WordAt, Schedule, Repeat;
    var p := Pad(ABC);
    PadOfAbc();
    ScheduleStarts(p, 0);
    WordIs(p, 0, 97, 98, 99, 0x80, W0().w0);
    forall t | 1 <= t < 15 ensures WordAt(p, 4 * t) == 0 {
      assert p[4 * t..4 * t + 4] == [0, 0, 0, 0];
      WordIs(p, 4 * t, 0, 0, 0, 0, 0);
    }
    WordIs(p, 60, 0, 0, 0, 24, W1().w7);
  }

  lemma RoundsOfAbc()
    ensures |Pad(ABC)| == 64 && Rounds(Pad(ABC), 0, INITIAL, 64) == End(A7(), E7())
  {
    hide *;
    var p := Pad(ABC);
    BlockOfAbc();
    RowsTwoAndThree();
    Words4(); Words5(); Words6(); Words7();
    RowsFollow(p, W0(), W1(), W2(), W3(), W4(), W5(), W6(), W7());
    RoundsStart(p, 0, INITIAL);
    FirstFour0();
    LastFour0();
    EightFollow(p, INITIAL, 0, W0(), A0(), E0());
    FirstFour1();
    LastFour1();
    EightFollow(p, INITIAL, 1, W1(), A1(), E1());
    FirstFour2();
    LastFour2();
    EightFollow(p, INITIAL, 2, W2(), A2(), E2());
    FirstFour3();
    LastFour3();
    EightFollow(p, INITIAL, 3, W3(), A3(), E3());
    FirstFour4();
    LastFour4();
    EightFollow(p, INITIAL, 4, W4(), A4(), E4());
    FirstFour5();
    LastFour5();
    EightFollow(p, INITIAL, 5, W5(), A5(), E5());
    FirstFour6();
    LastFour6();
    EightFollow(p, INITIAL, 6, W6(), A6(), E6());
    FirstFour7();
    LastFour7();
    EightFollow(p, INITIAL, 7, W7(), A7(), E7());
  }

  lemma OctetsOf(n: nat, a: byte, b: byte, c: byte, d: byte)
    requires n == ((a as nat * 256 + b as nat) * 256 + c as nat) * 256 + d as nat
    ensures BigEndian(n, 4) == [a, b, c, d]
  {
    assert n / 256 == (a as nat * 256 + b as nat) * 256 + c as nat && n % 256 == d as nat;
    assert n / 256 / 256 == a as nat * 256 + b as nat && n / 256 / 256 / 256 == a as nat;
    assert BigEndian(n / 256 / 256 / 256, 1) == [a];
    assert BigEndian(n / 256 / 256, 2) == [a, b];
    assert BigEndian(n / 256, 3) == [a, b, c];
  }

  lemma OctetsPush(words: seq<Word>, w: Word)
    ensures WordOctets(words + [w]) == WordOctets(words) + U32(w)
  {
    hide U32;
    assert (words + [w])[..|words|] == words;
  }

  lemma OctetsPushFour(words: seq<Word>, a: Word, b: Word, c: Word, d: Word)
    ensures WordOctets(words + [a, b, c, d]) == WordOctets(words) + U32(a) + U32(b) + U32(c) + U32(d)
  {
    hide U32, WordOctets;
    OctetsPush(words, a);
    OctetsPush(words + [a], b);
    OctetsPush(words + [a] + [b], c);
    OctetsPush(words + [a] + [b] + [c], d);
    assert words + [a, b, c, d] == words + [a] + [b] + [c] + [d];
  }

  lemma OctetsInOrder(h: Eight)
    ensures Octets(h) == U32(h.a) + U32(h.b) + U32(h.c) + U32(h.d) + U32(h.e) + U32(h.f) + U32(h.g) + U32(h.h)
  {
    hide U32, WordOctets;
    NoOctets();
    OctetsPushFour([], h.a, h.b, h.c, h.d);
    OctetsPushFour([h.a, h.b, h.c, h.d], h.e, h.f, h.g, h.h);
    assert [] + [h.a, h.b, h.c, h.d] == [h.a, h.b, h.c, h.d];
    assert [h.a, h.b, h.c, h.d] + [h.e, h.f, h.g, h.h] == [h.a, h.b, h.c, h.d, h.e, h.f, h.g, h.h];
    assert [] + U32(h.a) == U32(h.a);
  }

  lemma NoOctets()
    ensures WordOctets([]) == []
  {
  }

  /** The hash value after the one block. */
  lemma ValueOfAbc()
    ensures Plus(INITIAL, End(A7(), E7()))
         == Eight(0xba7816bf, 0x8f01cfea, 0x414140de, 0x5dae2223,
                  0xb00361a3, 0x96177a9c, 0xb410ff61, 0xf20015ad)
  {
  }

  lemma OneBlock(p: Bytes)
    requires |p| == 64
    ensures AfterBlocks(p, 1) == Plus(INITIAL, Rounds(p, 0, INITIAL, 64))
  {
    hide Rounds, Plus;
    assert AfterBlocks(p, 0) == INITIAL;
  }

  /** The digest of "abc" is the one everybody knows. */
  lemma DigestOfAbc()
    ensures Fips180.Sha256(ABC) == [
              0xba, 0x78, 0x16, 0xbf, 0x8f, 0x01, 0xcf, 0xea, 0x41, 0x41, 0x40, 0xde, 0x5d, 0xae, 0x22, 0x23,
              0xb0, 0x03, 0x61, 0xa3, 0x96, 0x17, 0x7a, 0x9c, 0xb4, 0x10, 0xff, 0x61, 0xf2, 0x00, 0x15, 0xad]
  {
    hide Pad, AfterBlocks, Rounds, Plus, Octets, BigEndian;
    RoundsOfAbc();
    OneBlock(Pad(ABC));
    ValueOfAbc();
    OctetsInOrder(Eight(0xba7816bf, 0x8f01cfea, 0x414140de, 0x5dae2223,
                        0xb00361a3, 0x96177a9c, 0xb410ff61, 0xf20015ad));
    OctetsOf(0xba7816bf, 0xba, 0x78, 0x16, 0xbf);
    OctetsOf(0x8f01cfea, 0x8f, 0x01, 0xcf, 0xea);
    OctetsOf(0x414140de, 0x41, 0x41, 0x40, 0xde);
    OctetsOf(0x5dae2223, 0x5d, 0xae, 0x22, 0x23);
    OctetsOf(0xb00361a3, 0xb0, 0x03, 0x61, 0xa3);
    OctetsOf(0x96177a9c, 0x96, 0x17, 0x7a, 0x9c);
    OctetsOf(0xb410ff61, 0xb4, 0x10, 0xff, 0x61);
    OctetsOf(0xf20015ad, 0xf2, 0x00, 0x15, 0xad);
  }
}
