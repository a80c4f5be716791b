/** Events and their canonical 181-octet encoding (crates/tideline-proto: canon.rs, event.rs, kind.rs, hash.rs). */
module Canon {
  import opened Bytes

  type Digest = d: Bytes | |d| == 32 witness seq(32, _ => 0)

  /** SHA-256 as a total function from octets to digests. Nothing is assumed about collisions. */
  type HashFn = Bytes -> Digest

  const ZERO: Digest := [
    0, 0, 0, 0, 0, 0, 0, 0, 0, 0, 0, 0, 0, 0, 0, 0,
    0, 0, 0, 0, 0, 0, 0, 0, 0, 0, 0, 0, 0, 0, 0, 0]

  const CANON_LEN: nat := 181

  const DOMAIN: Bytes := Ascii("tlr1\n")

  /** The only fields a redaction may erase. */
  const REDACTABLE: set<string> := {"role", "name", "content", "metadata"}

  datatype EventKind =
    | RunStarted
    | Message
    | ModelCall
    | ToolCall
    | Decision
    | Redaction
    | RunFinished

  function AsStr(kind: EventKind): string {
    match kind
    case RunStarted => "run_started"
    case Message => "message"
    case ModelCall => "model_call"
    case ToolCall => "tool_call"
    case Decision => "decision"
    case Redaction => "redaction"
    case RunFinished => "run_finished"
  }

  datatype RunEvent = RunEvent(
    seqNo: nat,
    ts: nat,
    kind: EventKind,
    role: Option<Text>,
    name: Option<Text>,
    content: Option<Text>,
    metadata: Option<Text>,
    redacted: Option<map<string, Digest>>,
    prevHash: Digest,
    hash: Digest)

  /** The current value of a redactable field. */
  function Value(e: RunEvent, field: string): Option<Text> {
    if field == "role" then e.role
    else if field == "name" then e.name
    else if field == "content" then e.content
    else if field == "metadata" then e.metadata
    else None
  }

  /** The digest a redaction retained for a field, if any. */
  function Kept(e: RunEvent, field: string): Option<Digest> {
    if e.redacted.Some? && field in e.redacted.value then Some(e.redacted.value[field]) else None
  }

  /** Present: the digest of the value. Erased: the retained digest. Never set: zero. */
  function FieldDigest(h: HashFn, e: RunEvent, field: string): Digest {
    match Value(e, field)
    case Some(v) => h(v)
    case None => if Kept(e, field).Some? then Kept(e, field).value else ZERO
  }

  function Canonical(h: HashFn, e: RunEvent): Bytes {
    DOMAIN + U64(e.seqNo) + U64(e.ts) + h(Ascii(AsStr(e.kind)))
    + FieldDigest(h, e, "role") + FieldDigest(h, e, "name")
    + FieldDigest(h, e, "content") + FieldDigest(h, e, "metadata")
  }

  function EventHash(h: HashFn, e: RunEvent, prev: Digest): Digest {
    h(Canonical(h, e) + prev)
  }

  /** Where each committed part sits in the 181 octets. */
  lemma CanonLayout(h: HashFn, e: RunEvent)
    ensures |Canonical(h, e)| == CANON_LEN
    ensures Canonical(h, e)[..5] == DOMAIN
    ensures Canonical(h, e)[5..13] == U64(e.seqNo)
    ensures Canonical(h, e)[13..21] == U64(e.ts)
    ensures Canonical(h, e)[21..53] == h(Ascii(AsStr(e.kind)))
    ensures Canonical(h, e)[53..85] == FieldDigest(h, e, "role")
    ensures Canonical(h, e)[85..117] == FieldDigest(h, e, "name")
    ensures Canonical(h, e)[117..149] == FieldDigest(h, e, "content")
    ensures Canonical(h, e)[149..181] == FieldDigest(h, e, "metadata")
  {
  }

  /**
   * What stands in them: the domain, and for each field the digest of its text, else the digest retained for it, else
   * 32 zeros.
   */
  lemma CanonHolds(h: HashFn, e: RunEvent)
    ensures Canonical(h, e)[..5] == [0x74, 0x6c, 0x72, 0x31, 0x0a]
    ensures Holds(h, Canonical(h, e)[53..85], e.role, e.redacted, "role")
    ensures Holds(h, Canonical(h, e)[85..117], e.name, e.redacted, "name")
    ensures Holds(h, Canonical(h, e)[117..149], e.content, e.redacted, "content")
    ensures Holds(h, Canonical(h, e)[149..181], e.metadata, e.redacted, "metadata")
  {
    hide Canonical, Holds, FieldDigest, Ascii;
    CanonLayout(h, e);
    DomainIs();
    FieldHolds(h, e, "role");
    FieldHolds(h, e, "name");
    FieldHolds(h, e, "content");
    FieldHolds(h, e, "metadata");
  }

  lemma DomainIs()
    ensures DOMAIN == [0x74, 0x6c, 0x72, 0x31, 0x0a]
  {
  }

  lemma FieldHolds(h: HashFn, e: RunEvent, field: string)
    ensures Holds(h, FieldDigest(h, e, field), Value(e, field), e.redacted, field)
  {
    hide Value;
  }

  ghost predicate Holds(
    h: HashFn, part: Bytes, text: Option<Text>, redacted: Option<map<string, Digest>>, field: string)
  {
    && |part| == 32
    && (text.Some? ==> part == h(text.value))
    && (text.None? && redacted.Some? && field in redacted.value ==> part == redacted.value[field])
    && (text.None? && (redacted.None? || field !in redacted.value) ==> forall i :: 0 <= i < 32 ==> part[i] == 0)
  }

  const ALL: seq<EventKind> := [RunStarted, Message, ModelCall, ToolCall, Decision, Redaction, RunFinished]

  /** The first kind of `kinds` whose wire string is `s`. */
  function FindKind(kinds: seq<EventKind>, s: string): Option<EventKind> {
    if kinds == [] then None else if AsStr(kinds[0]) == s then Some(kinds[0]) else FindKind(kinds[1..], s)
  }

  function ParseKind(s: string): Option<EventKind> {
    FindKind(ALL, s)
  }

  lemma {:induction false} FindKindFinds(kinds: seq<EventKind>, s: string)
    ensures FindKind(kinds, s).Some? ==> FindKind(kinds, s).value in kinds && AsStr(FindKind(kinds, s).value) == s
    ensures FindKind(kinds, s).None? ==> forall k :: k in kinds ==> AsStr(k) != s
    decreases |kinds|
  {
    if kinds != [] {
      FindKindFinds(kinds[1..], s);
    }
  }

  /**
   * The wire strings are part of the protocol: these seven, each parsed to its own kind, and no other parsed at all.
   */
  lemma WireStrings(kind: EventKind, s: string)
    ensures ParseKind(AsStr(kind)) == Some(kind)
    ensures ParseKind(s).Some?
       <==> s in ["run_started", "message", "model_call", "tool_call", "decision", "redaction", "run_finished"]
    ensures ParseKind("run_started") == Some(RunStarted) && ParseKind("message") == Some(Message)
    ensures ParseKind("model_call") == Some(ModelCall) && ParseKind("tool_call") == Some(ToolCall)
    ensures ParseKind("decision") == Some(Decision) && ParseKind("redaction") == Some(Redaction)
    ensures ParseKind("run_finished") == Some(RunFinished)
  {
    hide FindKind;
    FindKindFinds(ALL, s);
    ParseInvertsAsStr(kind);
    ParseInvertsAsStr(RunStarted);
    ParseInvertsAsStr(Message);
    ParseInvertsAsStr(ModelCall);
    ParseInvertsAsStr(ToolCall);
    ParseInvertsAsStr(Decision);
    ParseInvertsAsStr(Redaction);
    ParseInvertsAsStr(RunFinished);
  }

  lemma ParseInvertsAsStr(kind: EventKind)
    ensures ParseKind(AsStr(kind)) == Some(kind)
  {
    hide FindKind, AsStr;
    FindKindFinds(ALL, AsStr(kind));
    assert kind in ALL by {
      assert ALL[0] == RunStarted && ALL[1] == Message && ALL[2] == ModelCall && ALL[3] == ToolCall;
      assert ALL[4] == Decision && ALL[5] == Redaction && ALL[6] == RunFinished;
    }
    var found := ParseKind(AsStr(kind));
    if found.Some? && found.value != kind {
      KindsDiffer(found.value, kind);
    }
  }

  /** The wire strings of two different kinds are different octets. */
  lemma KindsDiffer(a: EventKind, b: EventKind)
    requires a != b
    ensures Ascii(AsStr(a)) != Ascii(AsStr(b))
  {
    if |AsStr(a)| == |AsStr(b)| {
      // The two pairs of equal length differ in their fifth letter.
      assert Ascii(AsStr(a))[4] == (AsStr(a)[4] as int % 256) as byte;
      assert Ascii(AsStr(b))[4] == (AsStr(b)[4] as int % 256) as byte;
    }
  }

  /** Two different octet strings with the same digest. */
  ghost predicate Collide(h: HashFn, x: Bytes, y: Bytes) {
    x != y && h(x) == h(y)
  }

  /**
   * Equal canonical octets commit to the same sequence number, time, kind and field digests;
   * a field present on both sides has the same text, or the two texts collide.
   */
  lemma CanonCommits(h: HashFn, a: RunEvent, b: RunEvent, field: string)
    requires Canonical(h, a) == Canonical(h, b)
    requires a.seqNo < TWO_TO_THE_64 && b.seqNo < TWO_TO_THE_64
    requires a.ts < TWO_TO_THE_64 && b.ts < TWO_TO_THE_64
    requires field in REDACTABLE
    ensures a.seqNo == b.seqNo && a.ts == b.ts
    ensures a.kind == b.kind || Collide(h, Ascii(AsStr(a.kind)), Ascii(AsStr(b.kind)))
    ensures FieldDigest(h, a, field) == FieldDigest(h, b, field)
    ensures Value(a, field).Some? && Value(b, field).Some? ==>
              Value(a, field) == Value(b, field)
              || Collide(h, Value(a, field).value, Value(b, field).value)
  {
    CanonLayout(h, a);
    CanonLayout(h, b);
    U64Injective(a.seqNo, b.seqNo);
    U64Injective(a.ts, b.ts);
    if a.kind != b.kind {
      KindsDiffer(a.kind, b.kind);
    }
  }

  /** `out[at..at + |src|].copy_from_slice(src)`. */
  method CopyFromSlice(out: array<byte>, at: nat, src: Bytes)
    requires at + |src| <= out.Length
    modifies out
    ensures out[..] == old(out[..at]) + src + old(out[at + |src|..])
  {
    for i := 0 to |src|
      invariant out[..at + i] == old(out[..at]) + src[..i] && out[at + i..] == old(out[at + i..])
    {
      ghost var done := out[..at + i];
      out[at + i] := src[i];
      assert out[..at + i + 1] == done + [src[i]];
      assert src[..i + 1] == src[..i] + [src[i]];
    }
    assert out[..] == out[..at + |src|] + out[at + |src|..] && src[..|src|] == src;
  }

  /** The canonical octets, filled slice by slice into a zeroed buffer. */
  method FillCanon(h: HashFn, e: RunEvent) returns (out: array<byte>)
    ensures fresh(out) && out[..] == Canonical(h, e)
  {
    hide U64, FieldDigest, AsStr, Ascii;
    out := new byte[CANON_LEN](_ => 0);
    CopyFromSlice(out, 0, DOMAIN);
    assert out[..5] == DOMAIN;
    CopyFromSlice(out, 5, U64(e.seqNo));
    assert out[..13] == DOMAIN + U64(e.seqNo);
    CopyFromSlice(out, 13, U64(e.ts));
    assert out[..21] == DOMAIN + U64(e.seqNo) + U64(e.ts);
    CopyFromSlice(out, 21, h(Ascii(AsStr(e.kind))));
    ghost var head := DOMAIN + U64(e.seqNo) + U64(e.ts) + h(Ascii(AsStr(e.kind)));
    assert out[..53] == head;
    CopyFromSlice(out, 53, FieldDigest(h, e, "role"));
    assert out[..85] == head + FieldDigest(h, e, "role");
    CopyFromSlice(out, 85, FieldDigest(h, e, "name"));
    assert out[..117] == head + FieldDigest(h, e, "role") + FieldDigest(h, e, "name");
    CopyFromSlice(out, 117, FieldDigest(h, e, "content"));
    assert out[..149] == head + FieldDigest(h, e, "role") + FieldDigest(h, e, "name") + FieldDigest(h, e, "content");
    CopyFromSlice(out, 149, FieldDigest(h, e, "metadata"));
    assert out[..] == out[..149] + out[149..];
  }
}
