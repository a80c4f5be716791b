/** Decoding a server-sent event stream from chunks cut anywhere (crates/tideline-sdk/src/run.rs). */
module Sse {
  import opened Bytes

  const NEWLINE: byte := 10

  predicate BlankLineAt(buf: Bytes, i: nat) {
    i + 1 < |buf| && buf[i] == NEWLINE && buf[i + 1] == NEWLINE
  }

  /** The index of the first blank line. */
  ghost predicate IsFrameEnd(buf: Bytes, end: Option<nat>) {
    match end
    case None => forall i: nat :: !BlankLineAt(buf, i)
    case Some(e) => BlankLineAt(buf, e) && forall i: nat :: i < e ==> !BlankLineAt(buf, i)
  }

  method FindFrameEnd(buf: Bytes) returns (end: Option<nat>)
    ensures IsFrameEnd(buf, end)
  {
    var i := 0;
    while i + 1 < |buf|
      invariant 0 <= i
      invariant forall j: nat :: j < i ==> !BlankLineAt(buf, j)
    {
      if BlankLineAt(buf, i) {
        return Some(i);
      }
      i := i + 1;
    }
    return None;
  }

  /** The same as a function of the buffer. */
  function FrameEnd(buf: Bytes, from: nat := 0): (end: Option<nat>)
    ensures end.Some? ==> from <= end.value && BlankLineAt(buf, end.value)
    ensures forall i: nat :: from <= i && (end.Some? ==> i < end.value) ==> !BlankLineAt(buf, i)
    decreases |buf| - from
  {
    if from + 1 >= |buf| then None
    else if BlankLineAt(buf, from) then Some(from)
    else FrameEnd(buf, from + 1)
  }

  lemma FrameEndIs(buf: Bytes, end: Option<nat>)
    requires IsFrameEnd(buf, end)
    ensures end == FrameEnd(buf)
  {
    hide BlankLineAt;
  }

  datatype Split = Split(frames: seq<Bytes>, rest: Bytes)

  /** The complete frames of a buffer, and what is left over. */
  function Frames(s: Bytes): Split
    decreases |s|
  {
    match FrameEnd(s)
    case None => Split([], s)
    case Some(e) =>
      var more := Frames(s[e + 2..]);
      Split([s[..e]] + more.frames, more.rest)
  }

  /** Frames with their blank lines, and the rest. */
  function Joined(frames: seq<Bytes>, rest: Bytes): Bytes {
    if frames == [] then rest else frames[0] + [10, 10] + Joined(frames[1..], rest)
  }

  /** Splitting loses nothing, leaves no complete frame behind, and never cuts one short. */
  lemma {:induction false} FramesAreExact(s: Bytes)
    ensures var split := Frames(s);
            && Joined(split.frames, split.rest) == s
            && FrameEnd(split.rest) == None
            && forall i :: 0 <= i < |split.frames| ==> forall j: nat :: !BlankLineAt(split.frames[i], j)
    decreases |s|
  {
    var e := FrameEnd(s);
    if e.Some? {
      FramesAreExact(s[e.value + 2..]);
      assert s == s[..e.value] + [NEWLINE, NEWLINE] + s[e.value + 2..];
      forall j: nat ensures !BlankLineAt(s[..e.value], j) {
        if BlankLineAt(s[..e.value], j) {
          assert BlankLineAt(s, j);
        }
      }
    }
  }

  lemma FrameEndLasts(a: Bytes, b: Bytes)
    requires FrameEnd(a).Some?
    ensures FrameEnd(a + b) == FrameEnd(a)
  {
    var e := FrameEnd(a).value;
    assert BlankLineAt(a + b, e);
    forall i: nat | i < e ensures !BlankLineAt(a + b, i) {
      assert !BlankLineAt(a, i);
    }
    FrameEndIs(a + b, Some(e));
  }

  lemma FramesStep(s: Bytes)
    requires FrameEnd(s).Some?
    ensures var e := FrameEnd(s).value;
            && e + 2 <= |s|
            && Frames(s).frames == [s[..e]] + Frames(s[e + 2..]).frames && Frames(s).rest == Frames(s[e + 2..]).rest
  {
  }

  lemma FramesStop(s: Bytes)
    requires FrameEnd(s).None?
    ensures Frames(s) == Split([], s)
  {
  }

  /** Splitting what has arrived, then the leftover with what arrives next, is splitting it all at once. */
  lemma {:induction false} FramesJoin(a: Bytes, b: Bytes)
    ensures Frames(a + b).frames == Frames(a).frames + Frames(Frames(a).rest + b).frames
    ensures Frames(a + b).rest == Frames(Frames(a).rest + b).rest
    decreases |a|
  {
    hide Frames, FrameEnd, BlankLineAt;
    var e := FrameEnd(a);
    if e.Some? {
      FrameEndLasts(a, b);
      FramesStep(a);
      FramesStep(a + b);
      FramesJoin(a[e.value + 2..], b);
      assert (a + b)[e.value + 2..] == a[e.value + 2..] + b;
      assert (a + b)[..e.value] == a[..e.value];
    } else {
      FramesStop(a);
    }
  }

  // --- Items ---------------------------------------------------------------------------------------

  /** What one complete frame yields, if anything: an event, or a report that it is not one. */
  type Decoder<!T> = Bytes -> Option<T>

  function Decoded<T>(decode: Decoder<T>, frames: seq<Bytes>): seq<T> {
    if frames == [] then []
    else (var item := decode(frames[0]); if item.Some? then [item.value] else []) + Decoded(decode, frames[1..])
  }

  lemma {:induction false} DecodedJoin<T>(decode: Decoder<T>, a: seq<Bytes>, b: seq<Bytes>)
    ensures Decoded(decode, a + b) == Decoded(decode, a) + Decoded(decode, b)
    decreases |a|
  {
    if a == [] {
      assert a + b == b;
    } else {
      var rest := a[1..];
      DecodedJoin(decode, rest, b);
      DecodedStep(decode, a);
      DecodedStep(decode, a + b);
      hide Decoded;
      assert (a + b)[1..] == rest + b && (a + b)[0] == a[0];
    }
  }

  lemma DecodedStep<T>(decode: Decoder<T>, frames: seq<Bytes>)
    requires frames != []
    ensures Decoded(decode, frames)
         == (var item := decode(frames[0]); if item.Some? then [item.value] else []) + Decoded(decode, frames[1..])
  {
  }

  lemma NothingDecoded<T>(decode: Decoder<T>)
    ensures Decoded(decode, []) == []
  {
  }

  lemma DecodedPush<T>(decode: Decoder<T>, frames: seq<Bytes>, frame: Bytes)
    ensures Decoded(decode, frames + [frame])
         == Decoded(decode, frames) + (var item := decode(frame); if item.Some? then [item.value] else [])
  {
    DecodedJoin(decode, frames, [frame]);
    assert Decoded(decode, [frame][1..]) == [];
  }

  /** A chunk of bytes, or a transport failure, which is passed on as an item. */
  datatype Chunk<T> = Data(bytes: Bytes) | Failure(item: T)

  /** What a reader holding `buf` yields for the chunks still to come. */
  function Items<T>(decode: Decoder<T>, buf: Bytes, chunks: seq<Chunk<T>>): seq<T>
    decreases |chunks|
  {
    if chunks == [] then []
    else
      match chunks[0]
      case Failure(item) => [item] + Items(decode, buf, chunks[1..])
      case Data(b) =>
        var split := Frames(buf + b);
        Decoded(decode, split.frames) + Items(decode, split.rest, chunks[1..])
  }

  class Reader<T> {
    var buf: Bytes
    const decode: Decoder<T>

    constructor (decode: Decoder<T>)
      ensures buf == [] && this.decode == decode
    {
      this.buf := [];
      this.decode := decode;
    }

    /** One chunk: its bytes join the buffer, and every complete frame is drained from it and decoded. */
    method Take(chunk: Chunk<T>) returns (out: seq<T>)
      requires FrameEnd(buf) == None
      modifies this`buf
      ensures FrameEnd(buf) == None
      ensures chunk.Failure? ==> out == [chunk.item] && buf == old(buf)
      ensures chunk.Data? ==>
                var split := Frames(old(buf) + chunk.bytes); out == Decoded(decode, split.frames) && buf == split.rest
    {
      hide Frames, FrameEnd, Decoded, BlankLineAt, IsFrameEnd;
      match chunk {
        case Failure(item) =>
          out := [item];
        case Data(b) =>
          buf := buf + b;
          ghost var whole := buf;
          out := [];
          var end := FindFrameEnd(buf);
          FrameEndIs(buf, end);
          ghost var done: seq<Bytes> := [];
          NothingDecoded(decode);
          assert [] + Frames(buf).frames == Frames(buf).frames;
          while end.Some?
            invariant end == FrameEnd(buf)
            invariant Frames(whole).frames == done + Frames(buf).frames && Frames(whole).rest == Frames(buf).rest
            invariant out == Decoded(decode, done)
            decreases |buf|
          {
            FramesStep(buf);
            var frame := buf[..end.value];
            buf := buf[end.value + 2..];
            var item := decode(frame);
            DecodedPush(decode, done, frame);
            if item.Some? {
              out := out + [item.value];
            }
            done := done + [frame];
            end := FindFrameEnd(buf);
            FrameEndIs(buf, end);
          }
          FramesStop(buf);
          assert done + [] == done;
      }
    }
  }

  lemma FrameEndOfNothing()
    ensures FrameEnd([]) == None
  {
  }

  lemma ItemsTake<T>(decode: Decoder<T>, buf: Bytes, chunks: seq<Chunk<T>>, i: nat)
    requires i < |chunks|
    ensures Items(decode, buf, chunks[i..])
         == if chunks[i].Failure? then [chunks[i].item] + Items(decode, buf, chunks[i + 1..])
            else var split := Frames(buf + chunks[i].bytes);
                 Decoded(decode, split.frames) + Items(decode, split.rest, chunks[i + 1..])
  {
    hide Frames, Decoded;
    assert chunks[i..][1..] == chunks[i + 1..];
  }

  lemma ItemsOfNone<T>(decode: Decoder<T>, buf: Bytes, chunks: seq<Chunk<T>>)
    requires |chunks| == 0
    ensures Items(decode, buf, chunks) == []
  {
  }

  /** A whole stream of chunks through one reader. */
  method SseEvents<T>(decode: Decoder<T>, chunks: seq<Chunk<T>>) returns (out: seq<T>)
    ensures out == Items(decode, [], chunks)
  {
    hide Frames, FrameEnd, Decoded, BlankLineAt, Items;
    var reader := new Reader<T>(decode);
    out := [];
    var i := 0;
    FrameEndOfNothing();
    while i < |chunks|
      invariant 0 <= i <= |chunks| && FrameEnd(reader.buf) == None && reader.decode == decode
      invariant Items(decode, [], chunks) == out + Items(decode, reader.buf, chunks[i..])
    {
      ghost var before := reader.buf;
      var items := reader.Take(chunks[i]);
      ItemsTake(decode, before, chunks, i);
      out := out + items;
      i := i + 1;
    }
    ItemsOfNone(decode, reader.buf, chunks[i..]);
  }

  // --- Chunking does not matter ---------------------------------------------------------------------

  /** The stream itself, one octet or failure at a time. */
  function Atoms<T>(chunks: seq<Chunk<T>>): seq<Chunk<T>>
    decreases |chunks|
  {
    if chunks == [] then []
    else
      (match chunks[0]
       case Failure(_) => [chunks[0]]
       case Data(b) => Octets(b)) + Atoms(chunks[1..])
  }

  function Octets<T>(b: Bytes): (atoms: seq<Chunk<T>>)
    ensures |atoms| == |b| && forall i :: 0 <= i < |b| ==> atoms[i] == Data([b[i]])
  {
    seq(|b|, i requires 0 <= i < |b| => Data([b[i]]))
  }

  lemma ItemsOfData<T>(decode: Decoder<T>, buf: Bytes, b: Bytes, later: seq<Chunk<T>>)
    ensures Items(decode, buf, [Data(b)] + later)
         == Decoded(decode, Frames(buf + b).frames) + Items(decode, Frames(buf + b).rest, later)
  {
    assert ([Data(b)] + later)[1..] == later;
  }

  /** Cutting a chunk in two changes nothing. */
  lemma CutInTwo<T>(decode: Decoder<T>, buf: Bytes, x: Bytes, y: Bytes, later: seq<Chunk<T>>)
    ensures Items(decode, buf, [Data(x)] + ([Data(y)] + later)) == Items(decode, buf, [Data(x + y)] + later)
  {
    hide Items, Frames, Decoded;
    var split := Frames(buf + x);
    ItemsOfData(decode, buf, x, [Data(y)] + later);
    ItemsOfData(decode, split.rest, y, later);
    ItemsOfData(decode, buf, x + y, later);
    FramesJoin(buf + x, y);
    DecodedJoin(decode, split.frames, Frames(split.rest + y).frames);
    assert buf + x + y == buf + (x + y);
  }

  lemma {:induction false} OctetByOctet<T>(decode: Decoder<T>, buf: Bytes, b: Bytes, later: seq<Chunk<T>>)
    requires FrameEnd(buf) == None
    ensures Items(decode, buf, Octets(b) + later) == Items(decode, buf, [Data(b)] + later)
    decreases |b|
  {
    hide Items, Frames, FrameEnd, Decoded, BlankLineAt;
    ItemsOfData(decode, buf, b, later);
    if b == [] {
      assert Octets<T>(b) + later == later && buf + b == buf;
      FramesStop(buf);
      NothingDecoded(decode);
    } else {
      var x, rest := [b[0]], b[1..];
      FramesAreExact(buf + x);
      OctetByOctet(decode, Frames(buf + x).rest, rest, later);
      assert Octets<T>(b) + later == [Data(x)] + (Octets<T>(rest) + later);
      ItemsOfData(decode, buf, x, Octets<T>(rest) + later);
      ItemsOfData(decode, buf, x, [Data(rest)] + later);
      CutInTwo(decode, buf, x, rest, later);
      assert x + rest == b;
    }
  }

  /** However the stream was cut into chunks, the reader yields what it would octet by octet. */
  lemma {:induction false} ItemsOfAtoms<T>(decode: Decoder<T>, buf: Bytes, chunks: seq<Chunk<T>>)
    requires FrameEnd(buf) == None
    ensures Items(decode, buf, chunks) == Items(decode, buf, Atoms(chunks))
    decreases |chunks|
  {
    if chunks != [] {
      var rest := Atoms(chunks[1..]);
      match chunks[0]
      case Failure(item) =>
        ItemsOfAtoms(decode, buf, chunks[1..]);
        assert ([chunks[0]] + rest)[1..] == rest;
      case Data(b) =>
        FramesAreExact(buf + b);
        ItemsOfAtoms(decode, Frames(buf + b).rest, chunks[1..]);
        OctetByOctet(decode, buf, b, rest);
        assert ([chunks[0]] + rest)[1..] == rest;
    }
  }

  /** Two ways of cutting the same stream, failures and all, yield the same items in the same order. */
  lemma ChunkingDoesNotMatter<T>(decode: Decoder<T>, a: seq<Chunk<T>>, b: seq<Chunk<T>>)
    requires Atoms(a) == Atoms(b)
    ensures Items(decode, [], a) == Items(decode, [], b)
  {
    ItemsOfAtoms(decode, [], a);
    ItemsOfAtoms(decode, [], b);
  }

  function Concat<T>(chunks: seq<Chunk<T>>): Bytes
    requires forall i :: 0 <= i < |chunks| ==> chunks[i].Data?
  {
    if chunks == [] then [] else chunks[0].bytes + Concat(chunks[1..])
  }

  lemma {:induction false} AtomsOfConcat<T>(chunks: seq<Chunk<T>>)
    requires forall i :: 0 <= i < |chunks| ==> chunks[i].Data?
    ensures Atoms(chunks) == Octets(Concat(chunks))
    decreases |chunks|
  {
    if chunks != [] {
      AtomsOfConcat(chunks[1..]);
    }
  }

  /** Without failures the items are those of the complete frames of the whole stream. */
  lemma ItemsAreTheFrames<T>(decode: Decoder<T>, chunks: seq<Chunk<T>>)
    requires forall i :: 0 <= i < |chunks| ==> chunks[i].Data?
    ensures Items(decode, [], chunks) == Decoded(decode, Frames(Concat(chunks)).frames)
  {
    var whole: seq<Chunk<T>> := [Data(Concat(chunks))];
    AtomsOfConcat(chunks);
    assert Atoms(whole) == Octets<T>(Concat(chunks)) + Atoms(whole[1..]);
    ChunkingDoesNotMatter(decode, chunks, whole);
    assert [] + Concat(chunks) == Concat(chunks);
    assert Items(decode, Frames(Concat(chunks)).rest, whole[1..]) == [];
  }
}
