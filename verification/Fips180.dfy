/** SHA-256 as FIPS 180-4 defines it: sections 4.1.2, 4.2.2, 5.1.1, 5.2.1, 5.3.3 and 6.2.2. */
module Fips180 {
  import opened Bytes

  /** A 32-bit word; the sum of two words is modulo 2^32. */
  type Word = bv32

  /** Eight words. */
  datatype Row = Row(w0: Word, w1: Word, w2: Word, w3: Word, w4: Word, w5: Word, w6: Word, w7: Word) {
    function At(i: nat): Word
      requires i < 8
    {
      match i
      case 0 => w0
      case 1 => w1
      case 2 => w2
      case 3 => w3
      case 4 => w4
      case 5 => w5
      case 6 => w6
      case _ => w7
    }
  }

  type PrimeRow = r: seq<nat> | |r| == 8 witness seq(8, _ => 0)

  /** Section 4.2.2, eight constants to a row. */
  function ConstantRow(r: nat): Row
    requires r < 8
  {
    match r
    case 0 =>
      Row(0x428a2f98, 0x71374491, 0xb5c0fbcf, 0xe9b5dba5, 0x3956c25b, 0x59f111f1, 0x923f82a4, 0xab1c5ed5)
    case 1 =>
      Row(0xd807aa98, 0x12835b01, 0x243185be, 0x550c7dc3, 0x72be5d74, 0x80deb1fe, 0x9bdc06a7, 0xc19bf174)
    case 2 =>
      Row(0xe49b69c1, 0xefbe4786, 0x0fc19dc6, 0x240ca1cc, 0x2de92c6f, 0x4a7484aa, 0x5cb0a9dc, 0x76f988da)
    case 3 =>
      Row(0x983e5152, 0xa831c66d, 0xb00327c8, 0xbf597fc7, 0xc6e00bf3, 0xd5a79147, 0x06ca6351, 0x14292967)
    case 4 =>
      Row(0x27b70a85, 0x2e1b2138, 0x4d2c6dfc, 0x53380d13, 0x650a7354, 0x766a0abb, 0x81c2c92e, 0x92722c85)
    case 5 =>
      Row(0xa2bfe8a1, 0xa81a664b, 0xc24b8b70, 0xc76c51a3, 0xd192e819, 0xd6990624, 0xf40e3585, 0x106aa070)
    case 6 =>
      Row(0x19a4c116, 0x1e376c08, 0x2748774c, 0x34b0bcb5, 0x391c0cb3, 0x4ed8aa4a, 0x5b9cca4f, 0x682e6ff3)
    case _ =>
      Row(0x748f82ee, 0x78a5636f, 0x84c87814, 0x8cc70208, 0x90befffa, 0xa4506ceb, 0xbef9a3f7, 0xc67178f2)
  }

  /** The first 64 primes, likewise. */
  const PRIMES: seq<PrimeRow> := [
    [2, 3, 5, 7, 11, 13, 17, 19],
    [23, 29, 31, 37, 41, 43, 47, 53],
    [59, 61, 67, 71, 73, 79, 83, 89],
    [97, 101, 103, 107, 109, 113, 127, 131],
    [137, 139, 149, 151, 157, 163, 167, 173],
    [179, 181, 191, 193, 197, 199, 211, 223],
    [227, 229, 233, 239, 241, 251, 257, 263],
    [269, 271, 277, 281, 283, 293, 307, 311]]

  function RoundConstant(t: nat): Word
    requires t < 64
  {
    ConstantRow(t / 8).At(t % 8)
  }

  /** The eight words of a hash value, or of the working variables. */
  datatype Eight = Eight(a: Word, b: Word, c: Word, d: Word, e: Word, f: Word, g: Word, h: Word)

  /** Section 5.3.3. */
  const INITIAL := Eight(
    0x6a09e667, 0xbb67ae85, 0x3c6ef372, 0xa54ff53a, 0x510e527f, 0x9b05688c, 0x1f83d9ab, 0x5be0cd19)

  predicate IsCubeRoot(root: nat, n: nat) {
    root * root * root <= n < (root + 1) * (root + 1) * (root + 1)
  }

  predicate IsSquareRoot(root: nat, n: nat) {
    root * root <= n < (root + 1) * (root + 1)
  }

  /** `whole` and the 32 bits of `w` after the point are the square root of `p`, cut off there. */
  predicate IsInitialWord(w: nat, p: nat, whole: nat) {
    IsSquareRoot(whole * TWO_TO_THE_32 + w, p * TWO_TO_THE_32 * TWO_TO_THE_32)
  }

  /** `whole` and the 32 bits of `k` after the point are the cube root of `p`, cut off there. */
  predicate IsRootConstant(k: nat, p: nat, whole: nat) {
    IsCubeRoot(whole * TWO_TO_THE_32 + k, p * TWO_TO_THE_32 * TWO_TO_THE_32 * TWO_TO_THE_32)
  }

  function WholeRoot(p: nat): nat {
    if p < 8 then 1 else if p < 27 then 2 else if p < 64 then 3 else if p < 125 then 4 else if p < 216 then 5 else 6
  }

  predicate IsRootAt(ks: Row, ps: PrimeRow, i: nat)
    requires i < 8
  {
    IsRootConstant(ks.At(i) as nat, ps[i], WholeRoot(ps[i]))
  }

  predicate RootRow(ks: Row, ps: PrimeRow) {
    && IsRootAt(ks, ps, 0) && IsRootAt(ks, ps, 1) && IsRootAt(ks, ps, 2) && IsRootAt(ks, ps, 3)
    && IsRootAt(ks, ps, 4) && IsRootAt(ks, ps, 5) && IsRootAt(ks, ps, 6) && IsRootAt(ks, ps, 7)
  }

  // --- Section 4.1.2: functions of words ------------------------------------------------------

  function And(x: Word, y: Word): Word {
    x & y
  }

  function Xor(x: Word, y: Word): Word {
    x ^ y
  }

  function Not(x: Word): Word {
    !x
  }

  /** A sum modulo 2^32. */
  function Add(x: Word, y: Word): Word {
    x + y
  }

  function Shr(x: Word, n: bv6): Word
    requires n <= 32
  {
    x >> n
  }

  /** Section 3.2: rotation to the right. */
  function Rotr(x: Word, n: bv6): Word
    requires n <= 32
  {
    (x >> n) | (x << (32 - n))
  }

  function Ch(x: Word, y: Word, z: Word): Word {
    Xor(And(x, y), And(Not(x), z))
  }

  function Maj(x: Word, y: Word, z: Word): Word {
    Xor(Xor(And(x, y), And(x, z)), And(y, z))
  }

  function BigSigma0(x: Word): Word {
    Xor(Xor(Rotr(x, 2), Rotr(x, 13)), Rotr(x, 22))
  }

  function BigSigma1(x: Word): Word {
    Xor(Xor(Rotr(x, 6), Rotr(x, 11)), Rotr(x, 25))
  }

  function SmallSigma0(x: Word): Word {
    Xor(Xor(Rotr(x, 7), Rotr(x, 18)), Shr(x, 3))
  }

  function SmallSigma1(x: Word): Word {
    Xor(Xor(Rotr(x, 17), Rotr(x, 19)), Shr(x, 10))
  }

  // What these do to the bits of a word, bit 0 being the last.

  function Bit(x: Word, i: bv6): Word
    requires i < 32
  {
    (x >> i) & 1
  }

  /** Rotating to the right by `n` moves bit `i + n`, counted around the word, to place `i`. */
  lemma RotationIsRotation(x: Word, n: bv6, i: bv6)
    requires n < 32 && i < 32
    ensures Bit(Rotr(x, n), i) == Bit(x, (i + n) % 32)
  {
    assert (i + n) % 32 == (i + n) & 31;
  }

  /** A shift moves the bits likewise, and fills up with zeros. */
  lemma ShiftIsShift(x: Word, n: bv6, i: bv6)
    requires n < 32 && i < 32
    ensures Bit(Shr(x, n), i) == if i + n < 32 then Bit(x, i + n) else 0
  {
  }

  /** Where `x` has a one `Ch` is `y`, elsewhere it is `z`. */
  lemma ChChooses(x: Word, y: Word, z: Word)
    ensures Ch(x, y, z) & x == y & x && Ch(x, y, z) & !x == z & !x
  {
  }

  /** Where `x` and `y` agree `Maj` is what they are, elsewhere it is `z`. */
  lemma MajVotes(x: Word, y: Word, z: Word)
    ensures Maj(x, y, z) & !(x ^ y) == x & !(x ^ y) && Maj(x, y, z) & (x ^ y) == z & (x ^ y)
  {
  }

  // --- Section 5.1.1: padding, on bits ----------------------------------------------------------

  /** The low `width` bits of `n`, most significant first. */
  function BitsOf(n: nat, width: nat): (bits: seq<bool>)
    ensures |bits| == width
  {
    if width == 0 then [] else BitsOf(n / 2, width - 1) + [n % 2 == 1]
  }

  function Bits(m: Bytes): (bits: seq<bool>)
    ensures |bits| == 8 * |m|
  {
    if m == [] then [] else BitsOf(m[0] as nat, 8) + Bits(m[1..])
  }

  function Repeat<T>(x: T, n: nat): (s: seq<T>)
    ensures |s| == n && forall i :: 0 <= i < n ==> s[i] == x
  {
    if n == 0 then [] else [x] + Repeat(x, n - 1)
  }

  /** With `k` zero bits after the marker, 64 bits are left in the last block. */
  predicate Fits(bits: nat, k: nat) {
    (bits + 1 + k) % 512 == 448
  }

  /** `k` is the smallest such number. */
  ghost predicate IsZeroCount(bits: nat, k: nat) {
    Fits(bits, k) && forall j: nat :: j < k ==> !Fits(bits, j)
  }

  /** `padded` is the padding of a message of fewer than 2^64 bits. */
  ghost predicate IsPadded(message: seq<bool>, padded: seq<bool>) {
    exists k :: IsZeroCount(|message|, k) && padded == message + [true] + Repeat(false, k) + BitsOf(|message|, 64)
  }

  /** The same padding on octets. */
  function Pad(m: Bytes): (p: Bytes)
    ensures |p| == |m| + 9 + ZeroBytes(|m|)
  {
    m + [0x80] + Repeat(0, ZeroBytes(|m|)) + U64(8 * |m|)
  }

  function ZeroBytes(len: nat): (z: nat)
    ensures z < 64 && (len + 1 + z) % 64 == 56
  {
    (119 - len % 64) % 64
  }

  // --- Sections 5.2.1 and 6.2.2: blocks and the hash computation ----------------------------------

  lemma {:induction false} FromBigEndianBound(b: Bytes)
    ensures FromBigEndian(b) < Pow256(|b|)
  {
    if b != [] {
      FromBigEndianBound(b[..|b| - 1]);
    }
  }

  lemma Pow256Of4()
    ensures Pow256(4) == TWO_TO_THE_32
  {
    assert Pow256(4) == 256 * Pow256(3) == 256 * 256 * Pow256(2);
  }

  /** The 32-bit word at octet `i`. */
  function WordAt(p: Bytes, i: nat): Word
    requires i + 4 <= |p|
  {
    FromBigEndianBound(p[i..i + 4]);
    Pow256Of4();
    FromBigEndian(p[i..i + 4]) as bv32
  }

  /** A word of the message schedule from those 16, 15, 7 and 2 before it, the sum taken from the oldest on. */
  function Next(w16: Word, w15: Word, w7: Word, w2: Word): Word {
    Add(Add(Add(w16, SmallSigma0(w15)), w7), SmallSigma1(w2))
  }

  /** Word `t` of the message schedule of the block at `off`. */
  function Schedule(p: Bytes, off: nat, t: nat): Word
    requires off + 64 <= |p| && t < 64
  {
    if t < 16 then WordAt(p, off + 4 * t)
    else
      Next(Schedule(p, off, t - 16), Schedule(p, off, t - 15), Schedule(p, off, t - 7), Schedule(p, off, t - 2))
  }

  function Round(s: Eight, k: Word, w: Word): Eight {
    var t1 := Add(Add(Add(Add(s.h, BigSigma1(s.e)), Ch(s.e, s.f, s.g)), k), w);
    var t2 := Add(BigSigma0(s.a), Maj(s.a, s.b, s.c));
    Eight(Add(t1, t2), s.a, s.b, s.c, Add(s.d, t1), s.e, s.f, s.g)
  }

  /** The working variables after `t` rounds. */
  function Rounds(p: Bytes, off: nat, h: Eight, t: nat): Eight
    requires off + 64 <= |p| && t <= 64
  {
    if t == 0 then h else Round(Rounds(p, off, h, t - 1), RoundConstant(t - 1), Schedule(p, off, t - 1))
  }

  function Plus(x: Eight, y: Eight): Eight {
    Eight(Add(x.a, y.a), Add(x.b, y.b), Add(x.c, y.c), Add(x.d, y.d),
          Add(x.e, y.e), Add(x.f, y.f), Add(x.g, y.g), Add(x.h, y.h))
  }

  /** The hash value after the first `n` blocks. */
  function AfterBlocks(p: Bytes, n: nat): Eight
    requires 64 * n <= |p|
  {
    if n == 0 then INITIAL
    else
      var h := AfterBlocks(p, n - 1);
      Plus(h, Rounds(p, 64 * (n - 1), h, 64))
  }

  function U32(w: Word): (b: Bytes)
    ensures |b| == 4
  {
    BigEndian(w as nat, 4)
  }

  function WordOctets(words: seq<Word>): (b: Bytes)
    ensures |b| == 4 * |words|
  {
    if words == [] then [] else WordOctets(words[..|words| - 1]) + U32(words[|words| - 1])
  }

  function Octets(h: Eight): (b: Bytes)
    ensures |b| == 32
  {
    WordOctets([h.a, h.b, h.c, h.d, h.e, h.f, h.g, h.h])
  }

  /** The message digest. */
  function Sha256(m: Bytes): (d: Bytes)
    ensures |d| == 32
  {
    var p := Pad(m);
    Octets(AfterBlocks(p, |p| / 64))
  }

  lemma ScheduleStep(p: Bytes, off: nat, t: nat)
    requires off + 64 <= |p| && 16 <= t < 64
    ensures Schedule(p, off, t)
         == Next(Schedule(p, off, t - 16), Schedule(p, off, t - 15), Schedule(p, off, t - 7), Schedule(p, off, t - 2))
  {
    hide Next, WordAt;
  }

  lemma ScheduleStarts(p: Bytes, off: nat)
    requires off + 64 <= |p|
    ensures forall t :: 0 <= t < 16 ==> Schedule(p, off, t) == WordAt(p, off + 4 * t)
  {
    hide WordAt;
  }

  lemma RoundsStart(p: Bytes, off: nat, h: Eight)
    requires off + 64 <= |p|
    ensures Rounds(p, off, h, 0) == h
  {
  }

  lemma RoundsStep(p: Bytes, off: nat, h: Eight, t: nat)
    requires off + 64 <= |p| && t < 64
    ensures Rounds(p, off, h, t + 1) == Round(Rounds(p, off, h, t), RoundConstant(t), Schedule(p, off, t))
  {
    hide Round, Schedule, RoundConstant;
  }

  // --- Padding facts ----------------------------------------------------------------------------

  /** The padded length is the least multiple of 64 that leaves room for the marker and the length. */
  lemma PaddedLength(m: Bytes, n: nat)
    ensures |Pad(m)| % 64 == 0 && |Pad(m)| >= |m| + 9
    ensures n % 64 == 0 && n >= |m| + 9 ==> n >= |Pad(m)|
    ensures |Pad(m)| == ((|m| + 8) / 64 + 1) * 64
  {
    LengthOf(|m|, ZeroBytes(|m|), n);
    hide ZeroBytes, Repeat, U64;
  }

  lemma LengthOf(len: nat, z: nat, n: nat)
    requires z < 64 && (len + 1 + z) % 64 == 56
    ensures (len + z + 9) % 64 == 0 && len + z + 9 == ((len + 8) / 64 + 1) * 64
    ensures n % 64 == 0 && n >= len + 9 ==> n >= len + z + 9
  {
    var q := (len + 1 + z) / 64;
    assert len + 1 + z == 64 * q + 56;
  }

  /** Two messages of fewer than 2^61 octets with the same padding are the same message. */
  lemma PadInjective(m: Bytes, n: Bytes)
    requires 8 * |m| < TWO_TO_THE_64 && 8 * |n| < TWO_TO_THE_64
    requires Pad(m) == Pad(n)
    ensures m == n
  {
    var p := Pad(m);
    assert p[|p| - 8..] == U64(8 * |m|);
    assert Pad(n)[|p| - 8..] == U64(8 * |n|);
    U64Injective(8 * |m|, 8 * |n|);
    assert m == p[..|m|] && n == Pad(n)[..|n|];
  }

  lemma {:induction false} BitsJoin(a: Bytes, b: Bytes)
    ensures Bits(a + b) == Bits(a) + Bits(b)
  {
    if a == [] {
      assert a + b == b;
    } else {
      BitsJoin(a[1..], b);
      assert (a + b)[1..] == a[1..] + b;
    }
  }

  lemma {:induction false} BitsOfZeros(z: nat)
    ensures Bits(Repeat(0, z)) == Repeat(false, 8 * z)
  {
    if z > 0 {
      BitsOfZeros(z - 1);
      assert Repeat<byte>(0, z)[1..] == Repeat<byte>(0, z - 1);
      ZeroBits(8);
      RepeatJoin(false, 8, 8 * (z - 1));
    }
  }

  lemma {:induction false} ZeroBits(width: nat)
    ensures BitsOf(0, width) == Repeat(false, width)
  {
    if width > 0 {
      ZeroBits(width - 1);
      assert Repeat(false, width) == Repeat(false, width - 1) + [false];
    }
  }

  lemma RepeatJoin<T>(x: T, m: nat, n: nat)
    ensures Repeat(x, m) + Repeat(x, n) == Repeat(x, m + n)
  {
  }

  lemma {:induction false} BitsOfByte(n: nat, width: nat)
    requires width >= 8
    ensures BitsOf(n, width) == BitsOf(n / 256, width - 8) + BitsOf(n % 256, 8)
  {
    Pow2Of8();
    BitsOfSplit(n / 256, n % 256, width, 8);
  }

  function Pow2(n: nat): (p: nat)
    ensures p >= 1
  {
    if n == 0 then 1 else 2 * Pow2(n - 1)
  }

  lemma Pow2Of8()
    ensures Pow2(8) == 256
  {
    assert Pow2(4) == 16;
    assert Pow2(8) == 16 * Pow2(4);
  }

  lemma {:induction false} BitsOfSplit(q: nat, r: nat, width: nat, low: nat)
    requires low <= width && r < Pow2(low)
    ensures BitsOf(q * Pow2(low) + r, width) == BitsOf(q, width - low) + BitsOf(r, low)
    decreases low
  {
    if low > 0 {
      var half := q * Pow2(low - 1);
      assert q * Pow2(low) == 2 * half;
      BitsOfSplit(q, r / 2, width - 1, low - 1);
      HalveBits(half, r, width);
    }
  }

  lemma HalveBits(half: nat, r: nat, width: nat)
    requires width > 0
    ensures BitsOf(2 * half + r, width) == BitsOf(half + r / 2, width - 1) + [r % 2 == 1]
  {
    assert (2 * half + r) / 2 == half + r / 2 && (2 * half + r) % 2 == r % 2;
  }

  /** The bits of a big-endian integer are its binary digits. */
  lemma {:induction false} BitsOfBigEndian(n: nat, width: nat)
    ensures Bits(BigEndian(n, width)) == BitsOf(n, 8 * width)
    decreases width
  {
    if width > 0 {
      BitsOfBigEndian(n / 256, width - 1);
      BitsJoin(BigEndian(n / 256, width - 1), [(n % 256) as byte]);
      BitsOfByte(n, 8 * width);
      assert Bits([(n % 256) as byte]) == BitsOf(n % 256, 8) + Bits([]);
    }
  }

  /** Octet padding is the bit padding of section 5.1.1, for every message whose bit length fits in 64 bits. */
  lemma PadIsThePadding(m: Bytes)
    ensures IsPadded(Bits(m), Bits(Pad(m)))
  {
    var z := ZeroBytes(|m|);
    var k := 7 + 8 * z;
    BitsJoin(m + [0x80] + Repeat(0, z), U64(8 * |m|));
    BitsJoin(m + [0x80], Repeat(0, z));
    BitsJoin(m, [0x80]);
    BitsOfZeros(z);
    BitsOfBigEndian(8 * |m|, 8);
    MarkerBits();
    RepeatJoin(false, 7, 8 * z);
    ZeroCount(|m|);
    hide Bits, BitsOf, Repeat, U64, IsZeroCount, ZeroBytes;
    assert Bits(Pad(m)) == Bits(m) + [true] + Repeat(false, k) + BitsOf(8 * |m|, 64);
  }

  lemma {:induction false} OneThenZeros(width: nat, n: nat)
    requires width >= 1 && n == Pow2(width - 1)
    ensures BitsOf(n, width) == [true] + Repeat(false, width - 1)
  {
    if width > 1 {
      OneThenZeros(width - 1, n / 2);
      RepeatJoin(false, width - 2, 1);
      assert Repeat(false, 1) == [false];
    }
  }

  lemma MarkerBits()
    ensures Bits([0x80]) == [true] + Repeat(false, 7)
  {
    Pow2Of8();
    OneThenZeros(8, 0x80);
    assert Bits([0x80]) == BitsOf(0x80, 8) + Bits([]);
  }

  lemma ZeroCount(len: nat)
    ensures IsZeroCount(8 * len, 7 + 8 * ZeroBytes(len))
  {
    var z := ZeroBytes(len);
    var q := (len + 1 + z) / 64;
    assert 8 * len + 1 + (7 + 8 * z) == 512 * q + 448;
    forall j: nat | j < 7 + 8 * z ensures !Fits(8 * len, j) {
      NoEarlierFit(8 * len, 7 + 8 * z, j, q);
    }
  }

  lemma NoEarlierFit(bits: nat, k: nat, j: nat, q: nat)
    requires bits + 1 + k == 512 * q + 448 && j < k < j + 512
    ensures !Fits(bits, j)
  {
    assert bits + 1 + j == 512 * q + 448 - (k - j);
  }

  // --- The constants ------------------------------------------------------------------------------

  lemma RowHolds(ks: Row, ps: PrimeRow, i: nat)
    requires RootRow(ks, ps) && i < 8
    ensures IsRootAt(ks, ps, i)
  {
    hide IsRootAt;
  }

  lemma Row0()
    ensures RootRow(ConstantRow(0), PRIMES[0])
  {
    assert IsRootConstant(0x428a2f98, 2, 1) && IsRootConstant(0x71374491, 3, 1)
        && IsRootConstant(0xb5c0fbcf, 5, 1) && IsRootConstant(0xe9b5dba5, 7, 1)
        && IsRootConstant(0x3956c25b, 11, 2) && IsRootConstant(0x59f111f1, 13, 2)
        && IsRootConstant(0x923f82a4, 17, 2) && IsRootConstant(0xab1c5ed5, 19, 2);
    hide IsRootConstant;
  }

  lemma Row1()
    ensures RootRow(ConstantRow(1), PRIMES[1])
  {
    assert IsRootConstant(0xd807aa98, 23, 2) && IsRootConstant(0x12835b01, 29, 3)
        && IsRootConstant(0x243185be, 31, 3) && IsRootConstant(0x550c7dc3, 37, 3)
        && IsRootConstant(0x72be5d74, 41, 3) && IsRootConstant(0x80deb1fe, 43, 3)
        && IsRootConstant(0x9bdc06a7, 47, 3) && IsRootConstant(0xc19bf174, 53, 3);
    hide IsRootConstant;
  }

  lemma Row2()
    ensures RootRow(ConstantRow(2), PRIMES[2])
  {
    assert IsRootConstant(0xe49b69c1, 59, 3) && IsRootConstant(0xefbe4786, 61, 3)
        && IsRootConstant(0x0fc19dc6, 67, 4) && IsRootConstant(0x240ca1cc, 71, 4)
        && IsRootConstant(0x2de92c6f, 73, 4) && IsRootConstant(0x4a7484aa, 79, 4)
        && IsRootConstant(0x5cb0a9dc, 83, 4) && IsRootConstant(0x76f988da, 89, 4);
    hide IsRootConstant;
  }

  lemma Row3()
    ensures RootRow(ConstantRow(3), PRIMES[3])
  {
    assert IsRootConstant(0x983e5152, 97, 4) && IsRootConstant(0xa831c66d, 101, 4)
        && IsRootConstant(0xb00327c8, 103, 4) && IsRootConstant(0xbf597fc7, 107, 4)
        && IsRootConstant(0xc6e00bf3, 109, 4) && IsRootConstant(0xd5a79147, 113, 4)
        && IsRootConstant(0x06ca6351, 127, 5) && IsRootConstant(0x14292967, 131, 5);
    hide IsRootConstant;
  }

  lemma Row4()
    ensures RootRow(ConstantRow(4), PRIMES[4])
  {
    assert IsRootConstant(0x27b70a85, 137, 5) && IsRootConstant(0x2e1b2138, 139, 5)
        && IsRootConstant(0x4d2c6dfc, 149, 5) && IsRootConstant(0x53380d13, 151, 5)
        && IsRootConstant(0x650a7354, 157, 5) && IsRootConstant(0x766a0abb, 163, 5)
        && IsRootConstant(0x81c2c92e, 167, 5) && IsRootConstant(0x92722c85, 173, 5);
    hide IsRootConstant;
  }

  lemma Row5()
    ensures RootRow(ConstantRow(5), PRIMES[5])
  {
    assert IsRootConstant(0xa2bfe8a1, 179, 5) && IsRootConstant(0xa81a664b, 181, 5)
        && IsRootConstant(0xc24b8b70, 191, 5) && IsRootConstant(0xc76c51a3, 193, 5)
        && IsRootConstant(0xd192e819, 197, 5) && IsRootConstant(0xd6990624, 199, 5)
        && IsRootConstant(0xf40e3585, 211, 5) && IsRootConstant(0x106aa070, 223, 6);
    hide IsRootConstant;
  }

  lemma Row6()
    ensures RootRow(ConstantRow(6), PRIMES[6])
  {
    assert IsRootConstant(0x19a4c116, 227, 6) && IsRootConstant(0x1e376c08, 229, 6)
        && IsRootConstant(0x2748774c, 233, 6) && IsRootConstant(0x34b0bcb5, 239, 6)
        && IsRootConstant(0x391c0cb3, 241, 6) && IsRootConstant(0x4ed8aa4a, 251, 6)
        && IsRootConstant(0x5b9cca4f, 257, 6) && IsRootConstant(0x682e6ff3, 263, 6);
    hide IsRootConstant;
  }

  lemma Row7()
    ensures RootRow(ConstantRow(7), PRIMES[7])
  {
    assert IsRootConstant(0x748f82ee, 269, 6) && IsRootConstant(0x78a5636f, 271, 6)
        && IsRootConstant(0x84c87814, 277, 6) && IsRootConstant(0x8cc70208, 281, 6)
        && IsRootConstant(0x90befffa, 283, 6) && IsRootConstant(0xa4506ceb, 293, 6)
        && IsRootConstant(0xbef9a3f7, 307, 6) && IsRootConstant(0xc67178f2, 311, 6);
    hide IsRootConstant;
  }

  /**
   * Each initial word is the first 32 bits of the fractional part of the square root of one of the first eight
   * primes.
   */
  lemma InitialWordsAreSquareRoots()
    ensures IsInitialWord(INITIAL.a as nat, PRIMES[0][0], 1) && IsInitialWord(INITIAL.b as nat, PRIMES[0][1], 1)
    ensures IsInitialWord(INITIAL.c as nat, PRIMES[0][2], 2) && IsInitialWord(INITIAL.d as nat, PRIMES[0][3], 2)
    ensures IsInitialWord(INITIAL.e as nat, PRIMES[0][4], 3) && IsInitialWord(INITIAL.f as nat, PRIMES[0][5], 3)
    ensures IsInitialWord(INITIAL.g as nat, PRIMES[0][6], 4) && IsInitialWord(INITIAL.h as nat, PRIMES[0][7], 4)
  {
    assert IsInitialWord(0x6a09e667, 2, 1) && IsInitialWord(0xbb67ae85, 3, 1) && IsInitialWord(0x3c6ef372, 5, 2)
        && IsInitialWord(0xa54ff53a, 7, 2) && IsInitialWord(0x510e527f, 11, 3) && IsInitialWord(0x9b05688c, 13, 3)
        && IsInitialWord(0x1f83d9ab, 17, 4) && IsInitialWord(0x5be0cd19, 19, 4);
    hide IsInitialWord;
  }

  /** Each round constant is the first 32 bits of the fractional part of the cube root of its prime. */
  lemma ConstantsAreCubeRoots(t: nat)
    requires t < 64
    ensures var p := PRIMES[t / 8][t % 8]; IsRootConstant(RoundConstant(t) as nat, p, WholeRoot(p))
  {
    hide RootRow, IsRootConstant, WholeRoot;
    Row0(); Row1(); Row2(); Row3(); Row4(); Row5(); Row6(); Row7();
    RowHolds(ConstantRow(t / 8), PRIMES[t / 8], t % 8);
  }
}
