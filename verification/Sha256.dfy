/** The vendored SHA-256 (sdk/ts/src/sha256.ts), shown to compute what FIPS 180-4 defines. */
module Sha256Impl {
  import opened Bytes
  import opened Fips180

  /** Lengths below this keep every number the code forms exact in a double: the bit length stays below 2^53. */
  const MAX_LEN: nat := 0x4_0000_0000_0000

  /** `DataView.setUint32`: four octets, big-endian, of the value modulo 2^32. */
  method SetUint32(buf: array<byte>, i: nat, v: nat)
    requires i + 4 <= buf.Length
    modifies buf
    ensures buf[..] == old(buf[..i]) + BigEndian(v, 4) + old(buf[i + 4..])
  {
    var octets := BigEndian(v, 4);
    buf[i], buf[i + 1], buf[i + 2], buf[i + 3] := octets[0], octets[1], octets[2], octets[3];
  }

  lemma {:induction false} BigEndianSplit(q: nat, r: nat, high: nat, low: nat)
    requires r < Pow256(low)
    ensures BigEndian(q * Pow256(low) + r, high + low) == BigEndian(q, high) + BigEndian(r, low)
    decreases low
  {
    if low == 0 {
      assert q * Pow256(0) + r == q;
    } else {
      var rest := q * Pow256(low - 1);
      assert q * Pow256(low) == 256 * rest;
      BigEndianSplit(q, r / 256, high, low - 1);
      LastOctet(rest, r, high + low);
    }
  }

  lemma LastOctet(rest: nat, r: nat, width: nat)
    requires width > 0
    ensures BigEndian(256 * rest + r, width) == BigEndian(rest + r / 256, width - 1) + [(r % 256) as byte]
  {
    assert (256 * rest + r) / 256 == rest + r / 256 && (256 * rest + r) % 256 == r % 256;
  }

  /** The two 32-bit halves of the bit length are its eight octets. */
  lemma HalvesOf(bits: nat)
    ensures U64(bits) == BigEndian(bits / TWO_TO_THE_32, 4) + BigEndian(bits % TWO_TO_THE_32, 4)
  {
    Pow256Of4();
    BigEndianSplit(bits / TWO_TO_THE_32, bits % TWO_TO_THE_32, 4, 4);
    hide BigEndian;
    assert bits == bits / TWO_TO_THE_32 * TWO_TO_THE_32 + bits % TWO_TO_THE_32;
  }

  /** A zeroed buffer with the message and the marker copied in. */
  method Marked(data: Bytes, total: nat) returns (buf: array<byte>)
    requires total >= |data| + 9
    ensures fresh(buf) && buf[..] == data + [0x80] + Repeat(0, total - |data| - 1)
  {
    var len := |data|;
    buf := new byte[total](_ => 0);
    var i := 0;
    while i < len
      invariant 0 <= i <= len
      invariant forall k :: 0 <= k < i ==> buf[k] == data[k]
      invariant forall k :: i <= k < total ==> buf[k] == 0
    {
      buf[i] := data[i];
      i := i + 1;
    }
    buf[len] := 0x80;
  }

  /** The message, the marker, zeros and the bit length, in a buffer of whole blocks. */
  method Padded(data: Bytes) returns (buf: array<byte>)
    requires |data| < MAX_LEN
    ensures fresh(buf) && buf[..] == Pad(data)
    ensures buf.Length == ((|data| + 8) / 64 + 1) * 64
  {
    hide Pad, BigEndian, U64, ZeroBytes, Repeat;
    var len := |data|;
    var total := ((len + 8) / 64 + 1) * 64;
    PaddedLength(data, 0);
    PadIs(data, total);
    buf := Marked(data, total);
    var bits := len * 8;
    ghost var marked := buf[..];
    SetUint32(buf, total - 8, bits / TWO_TO_THE_32);
    ghost var once := buf[..];
    SetUint32(buf, total - 4, bits % TWO_TO_THE_32);
    HalvesOf(bits);
    TwoWrites(marked, once, buf[..], BigEndian(bits / TWO_TO_THE_32, 4), BigEndian(bits % TWO_TO_THE_32, 4));
    MarkedPrefix(data, total, marked);
  }

  /** Two groups of four octets written over the last eight. */
  lemma TwoWrites(before: Bytes, once: Bytes, twice: Bytes, high: Bytes, low: Bytes)
    requires |before| >= 8 && |high| == |low| == 4
    requires once == before[..|before| - 8] + high + before[|before| - 4..]
    requires twice == once[..|before| - 4] + low + once[|before|..]
    ensures twice == before[..|before| - 8] + (high + low)
  {
  }

  lemma MarkedPrefix(data: Bytes, total: nat, marked: Bytes)
    requires total >= |data| + 9 && marked == data + [0x80] + Repeat(0, total - |data| - 1)
    ensures marked[..total - 8] == data + [0x80] + Repeat(0, total - |data| - 9)
  {
  }

  lemma PadIs(m: Bytes, total: nat)
    requires total == |Pad(m)|
    ensures total >= |m| + 9 && Pad(m) == m + [0x80] + Repeat(0, total - |m| - 9) + U64(8 * |m|)
  {
  }

  /** The message schedule of one block, filled in place. */
  method FillSchedule(buf: array<byte>, off: nat, w: array<Word>)
    requires off + 64 <= buf.Length && w.Length == 64 && w as object != buf
    modifies w
    ensures forall t :: 0 <= t < 64 ==> w[t] == Schedule(buf[..], off, t)
  {
    hide Schedule, Xor, Shr, Rotr, Add, WordAt;
    ghost var p := buf[..];
    ScheduleStarts(p, off);
    var i := 0;
    while i < 16
      invariant 0 <= i <= 16 && buf[..] == p
      invariant forall t :: 0 <= t < i ==> w[t] == Schedule(p, off, t)
    {
      w[i] := WordAt(buf[..], off + i * 4);
      i := i + 1;
    }
    while i < 64
      invariant 16 <= i <= 64 && buf[..] == p
      invariant forall t :: 0 <= t < i ==> w[t] == Schedule(p, off, t)
    {
      var a, b := w[i - 15], w[i - 2];
      var s0 := Xor(Xor(Rotr(a, 7), Rotr(a, 18)), Shr(a, 3));
      var s1 := Xor(Xor(Rotr(b, 17), Rotr(b, 19)), Shr(b, 10));
      ScheduleStep(p, off, i);
      w[i] := Add(Add(Add(w[i - 16], s0), w[i - 7]), s1);
      i := i + 1;
    }
  }

  /** One block: the 64 rounds over the working variables, added into the hash value in place. */
  method Compress(buf: array<byte>, off: nat, w: array<Word>, H: array<Word>)
    requires off + 64 <= buf.Length && w.Length == 64 && H.Length == 8
    requires forall t :: 0 <= t < 64 ==> w[t] == Schedule(buf[..], off, t)
    requires H != w && H as object != buf
    modifies H
    ensures Held(H) == Plus(old(Held(H)), Rounds(buf[..], off, old(Held(H)), 64))
  {
    hide Rounds, Plus, Schedule, Xor, And, Not, Add, Rotr, RoundConstant, WordAt, Pow256;
    ghost var p, start := buf[..], Held(H);
    RoundsStart(p, off, start);
    var a, b, c, d := H[0], H[1], H[2], H[3];
    var e, f, g, h := H[4], H[5], H[6], H[7];
    var i := 0;
    while i < 64
      invariant 0 <= i <= 64
      invariant Held(H) == start && buf[..] == p
      invariant Eight(a, b, c, d, e, f, g, h) == Rounds(p, off, start, i)
    {
      RoundsStep(p, off, start, i);
      var S1 := Xor(Xor(Rotr(e, 6), Rotr(e, 11)), Rotr(e, 25));
      var ch := Xor(And(e, f), And(Not(e), g));
      var t1 := Add(Add(Add(Add(h, S1), ch), RoundConstant(i)), w[i]);
      var S0 := Xor(Xor(Rotr(a, 2), Rotr(a, 13)), Rotr(a, 22));
      var maj := Xor(Xor(And(a, b), And(a, c)), And(b, c));
      var t2 := Add(S0, maj);

      h := g;
      g := f;
      f := e;
      e := Add(d, t1);
      d := c;
      c := b;
      b := a;
      a := Add(t1, t2);
      i := i + 1;
    }
    AddInto(H, a, b, c, d, e, f, g, h);
    assert buf[..] == p;
  }

  /** The working variables added into the hash value. */
  method AddInto(H: array<Word>, a: Word, b: Word, c: Word, d: Word, e: Word, f: Word, g: Word, h: Word)
    requires H.Length == 8
    modifies H
    ensures Held(H) == Plus(old(Held(H)), Eight(a, b, c, d, e, f, g, h))
  {
    hide Add;
    H[0] := Add(H[0], a);
    H[1] := Add(H[1], b);
    H[2] := Add(H[2], c);
    H[3] := Add(H[3], d);
    H[4] := Add(H[4], e);
    H[5] := Add(H[5], f);
    H[6] := Add(H[6], g);
    H[7] := Add(H[7], h);
  }

  /** The hash value an array of eight words holds. */
  ghost function Held(H: array<Word>): Eight
    requires H.Length == 8
    reads H
  {
    Eight(H[0], H[1], H[2], H[3], H[4], H[5], H[6], H[7])
  }

  /** The eight words, big-endian, into the output buffer. */
  method WriteDigest(H: array<Word>) returns (digest: Bytes)
    requires H.Length == 8
    ensures digest == Octets(Held(H))
  {
    hide BigEndian;
    var out := new byte[32](_ => 0);
    ghost var words := H[..];
    var i := 0;
    while i < 8
      invariant 0 <= i <= 8 && out.Length == 32 && H[..] == words
      invariant out[..4 * i] == WordOctets(words[..i])
    {
      ghost var before := out[..4 * i];
      SetUint32(out, i * 4, H[i] as nat);
      assert words[..i + 1][..i] == words[..i];
      assert out[..4 * (i + 1)] == before + U32(words[i]);
      i := i + 1;
    }
    digest := out[..];
    assert digest == out[..32];
    assert words[..8] == [H[0], H[1], H[2], H[3], H[4], H[5], H[6], H[7]];
  }

  /** The whole computation, for every message short enough for the code's arithmetic to be exact. */
  method Sha256(data: Bytes) returns (digest: Bytes)
    requires |data| < MAX_LEN
    ensures digest == Fips180.Sha256(data)
  {
    hide Rounds, Schedule, Pad, Octets, Plus;
    var H := new Word[8];
    H[0], H[1], H[2], H[3] := 0x6a09e667, 0xbb67ae85, 0x3c6ef372, 0xa54ff53a;
    H[4], H[5], H[6], H[7] := 0x510e527f, 0x9b05688c, 0x1f83d9ab, 0x5be0cd19;
    assert Held(H) == INITIAL;
    var buf := Padded(data);
    var total := buf.Length;
    ghost var p := buf[..];
    var w := new Word[64];
    var off := 0;
    while off < total
      invariant 0 <= off <= total && off % 64 == 0
      invariant buf[..] == p
      invariant Held(H) == AfterBlocks(p, off / 64)
    {
      FillSchedule(buf, off, w);
      Compress(buf, off, w, H);
      off := off + 64;
    }
    digest := WriteDigest(H);
  }
}
