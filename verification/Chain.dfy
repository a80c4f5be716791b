/** The independent chain checker (crates/tideline-proto/src/chain.rs) and what passing it pins down. */
module Chain {
  import opened Bytes
  import opened Canon

  datatype ChainOk = ChainOk(len: nat, headSeq: nat, headHash: Digest, sealed: bool)

  datatype ChainError =
    | Empty
    | NotRunStarted
    | SeqGap(expected: nat, found: nat)
    | PrevMismatch(at: nat, link: Digest, foundLink: Digest)
    | HashMismatch(at: nat, stored: Digest, computed: Digest)

  /** The digest event `i` must name as its predecessor's. */
  function PrevOf(events: seq<RunEvent>, i: nat): Digest
    requires i <= |events|
  {
    if i == 0 then ZERO else events[i - 1].hash
  }

  /** Event `i` sits at its own position, names its predecessor and carries its own hash. */
  ghost predicate LinkedAt(h: HashFn, events: seq<RunEvent>, i: nat)
    requires i < |events|
  {
    && events[i].seqNo == i
    && events[i].prevHash == PrevOf(events, i)
    && events[i].hash == EventHash(h, events[i], events[i].prevHash)
  }

  ghost predicate Linked(h: HashFn, events: seq<RunEvent>) {
    forall i :: 0 <= i < |events| ==> LinkedAt(h, events, i)
  }

  /** Section 5 of the protocol: what it is for a record to verify. */
  ghost predicate Chained(h: HashFn, events: seq<RunEvent>) {
    |events| > 0 && events[0].kind.RunStarted? && Linked(h, events)
  }

  function Last(events: seq<RunEvent>): RunEvent
    requires |events| > 0
  {
    events[|events| - 1]
  }

  /** The record up to but not including event `i` is linked. */
  ghost predicate SoundBefore(h: HashFn, events: seq<RunEvent>, i: nat) {
    i < |events| && events[0].kind.RunStarted? && forall j :: 0 <= j < i ==> LinkedAt(h, events, j)
  }

  /** The verdict a record deserves: soundness, or its first fault. */
  ghost predicate Deserves(h: HashFn, events: seq<RunEvent>, r: Result<ChainOk, ChainError>) {
    match r
    case Ok(ok) =>
      && Chained(h, events)
      && ok == ChainOk(|events|, |events| - 1, Last(events).hash, Last(events).kind.RunFinished?)
    case Err(e) => IsFirstFault(h, events, e)
  }

  ghost predicate IsFirstFault(h: HashFn, events: seq<RunEvent>, e: ChainError) {
    match e
    case Empty => events == []
    case NotRunStarted => events != [] && !events[0].kind.RunStarted?
    case SeqGap(i, found) =>
      SoundBefore(h, events, i) && events[i].seqNo == found && found != i
    case PrevMismatch(i, link, foundLink) =>
      && SoundBefore(h, events, i) && events[i].seqNo == i
      && link == PrevOf(events, i) && events[i].prevHash == foundLink && foundLink != link
    case HashMismatch(i, stored, computed) =>
      && SoundBefore(h, events, i) && events[i].seqNo == i
      && events[i].prevHash == PrevOf(events, i)
      && computed == EventHash(h, events[i], PrevOf(events, i))
      && events[i].hash == stored && stored != computed
  }

  method VerifyChain(h: HashFn, events: seq<RunEvent>) returns (r: Result<ChainOk, ChainError>)
    ensures Deserves(h, events, r)
    ensures r.Ok? <==> Chained(h, events)
  {
    hide EventHash;
    if |events| == 0 {
      return Err(Empty);
    }
    if events[0].kind != RunStarted {
      return Err(NotRunStarted);
    }
    var prev := ZERO;
    for i := 0 to |events|
      invariant prev == PrevOf(events, i)
      invariant forall j :: 0 <= j < i ==> LinkedAt(h, events, j)
    {
      var e := events[i];
      if e.seqNo != i {
        assert !LinkedAt(h, events, i);
        return Err(SeqGap(i, e.seqNo));
      }
      if e.prevHash != prev {
        assert !LinkedAt(h, events, i);
        return Err(PrevMismatch(i, prev, e.prevHash));
      }
      var computed := EventHash(h, e, prev);
      if computed != e.hash {
        assert !LinkedAt(h, events, i);
        return Err(HashMismatch(i, e.hash, computed));
      }
      prev := computed;
    }
    var last := events[|events| - 1];
    assert LinkedAt(h, events, |events| - 1);
    return Ok(ChainOk(|events|, last.seqNo, last.hash, last.kind == RunFinished));
  }

  /** A record deserves one verdict only, so the checker's answer is determined. */
  lemma OneVerdict(h: HashFn, events: seq<RunEvent>, r: Result<ChainOk, ChainError>, q: Result<ChainOk, ChainError>)
    requires Deserves(h, events, r) && Deserves(h, events, q)
    ensures r == q
  {
    if r.Ok? && q.Err? {
      AcceptanceExcludesFaults(h, events, q.error);
    } else if r.Err? && q.Ok? {
      AcceptanceExcludesFaults(h, events, r.error);
    } else if r.Err? {
      OneFault(h, events, r.error, q.error);
    }
  }

  function FaultAt(e: ChainError): nat {
    match e
    case SeqGap(i, _) => i
    case PrevMismatch(i, _, _) => i
    case HashMismatch(i, _, _) => i
    case _ => 0
  }

  predicate NamesEvent(e: ChainError) {
    !e.Empty? && !e.NotRunStarted?
  }

  /** The event a fault names is not linked, so no other fault comes first. */
  lemma FaultIsUnlinked(h: HashFn, events: seq<RunEvent>, e: ChainError)
    requires IsFirstFault(h, events, e) && NamesEvent(e)
    ensures SoundBefore(h, events, FaultAt(e)) && !LinkedAt(h, events, FaultAt(e))
  {
  }

  lemma AcceptanceExcludesFaults(h: HashFn, events: seq<RunEvent>, e: ChainError)
    requires IsFirstFault(h, events, e)
    ensures !Chained(h, events)
  {
    if NamesEvent(e) {
      FaultIsUnlinked(h, events, e);
    }
  }

  lemma OneFault(h: HashFn, events: seq<RunEvent>, r: ChainError, q: ChainError)
    requires IsFirstFault(h, events, r) && IsFirstFault(h, events, q)
    ensures r == q
  {
    if NamesEvent(r) {
      FaultIsUnlinked(h, events, r);
    }
    if NamesEvent(q) {
      FaultIsUnlinked(h, events, q);
    }
  }

  // --- What the chain does not see -------------------------------------------

  /** Truncation is invisible to the chain alone: every nonempty prefix of a sound record is sound. */
  lemma PrefixesVerify(h: HashFn, events: seq<RunEvent>, n: nat)
    requires Chained(h, events) && 0 < n <= |events|
    ensures Chained(h, events[..n])
  {
    forall i | 0 <= i < n ensures LinkedAt(h, events[..n], i) {
      assert LinkedAt(h, events, i);
    }
  }

  /** A sound record grows soundly by one correctly linked event. */
  lemma ChainedPush(h: HashFn, events: seq<RunEvent>, e: RunEvent)
    requires Chained(h, events)
    requires e.seqNo == |events| && e.prevHash == Last(events).hash && e.hash == EventHash(h, e, e.prevHash)
    ensures Chained(h, events + [e])
  {
    var longer := events + [e];
    forall i | 0 <= i < |longer| ensures LinkedAt(h, longer, i) {
      if i < |events| {
        assert LinkedAt(h, events, i);
        assert longer[..|events|] == events;
      }
    }
  }

  // --- Tamper evidence ---------------------------------------------------------

  /** The 213 octets hashed at position `i`: the event's canon and its predecessor's digest. */
  function Block(h: HashFn, events: seq<RunEvent>, i: nat): Bytes
    requires i < |events|
  {
    Canonical(h, events[i]) + events[i].prevHash
  }

  /** Two records hold, at the same position, different blocks with the same digest. */
  ghost predicate BlocksCollide(h: HashFn, a: seq<RunEvent>, b: seq<RunEvent>, i: nat) {
    i < |a| && i < |b| && Collide(h, Block(h, a, i), Block(h, b, i))
  }

  /** As `BlocksCollide`, for the two head blocks. */
  ghost predicate HeadsCollide(h: HashFn, a: seq<RunEvent>, b: seq<RunEvent>) {
    |a| > 0 && |b| > 0 && Collide(h, Block(h, a, |a| - 1), Block(h, b, |b| - 1))
  }

  ghost predicate SameHistory(h: HashFn, a: seq<RunEvent>, b: seq<RunEvent>, n: nat) {
    n <= |a| && n <= |b| && forall i :: 0 <= i < n ==> Canonical(h, a[i]) == Canonical(h, b[i])
  }

  /** Equal blocks split into equal canons and equal links. */
  lemma BlockSplits(h: HashFn, a: seq<RunEvent>, i: nat, b: seq<RunEvent>, j: nat)
    requires i < |a| && j < |b| && Block(h, a, i) == Block(h, b, j)
    ensures Canonical(h, a[i]) == Canonical(h, b[j]) && a[i].prevHash == b[j].prevHash
  {
    CanonLayout(h, a[i]);
    CanonLayout(h, b[j]);
    assert Canonical(h, a[i]) == Block(h, a, i)[..CANON_LEN];
    assert Canonical(h, b[j]) == Block(h, b, j)[..CANON_LEN];
    assert a[i].prevHash == Block(h, a, i)[CANON_LEN..];
    assert b[j].prevHash == Block(h, b, j)[CANON_LEN..];
  }

  /** One shared digest at position `n - 1` fixes everything before it, or a block collision is found on the way. */
  lemma {:induction false} SharedDigestPins(h: HashFn, a: seq<RunEvent>, b: seq<RunEvent>, n: nat)
    requires Linked(h, a) && Linked(h, b)
    requires 0 < n <= |a| && n <= |b|
    requires a[n - 1].hash == b[n - 1].hash
    ensures SameHistory(h, a, b, n) || exists i :: 0 <= i < n && BlocksCollide(h, a, b, i)
  {
    hide Canonical;
    assert LinkedAt(h, a, n - 1) && LinkedAt(h, b, n - 1);
    if Block(h, a, n - 1) != Block(h, b, n - 1) {
      assert BlocksCollide(h, a, b, n - 1);
    } else {
      BlockSplits(h, a, n - 1, b, n - 1);
      if n > 1 {
        SharedDigestPins(h, a, b, n - 1);
      }
    }
  }

  /**
   * Tamper evidence. Two verifying records with the same head hash are the same history, event by
   * event and in length, unless two of their own hashed blocks are different octets with one SHA-256.
   */
  lemma TamperEvidence(h: HashFn, a: seq<RunEvent>, b: seq<RunEvent>)
    requires Chained(h, a) && Chained(h, b)
    requires |a| <= TWO_TO_THE_64 && |b| <= TWO_TO_THE_64
    requires Last(a).hash == Last(b).hash
    ensures || (|a| == |b| && SameHistory(h, a, b, |a|))
            || HeadsCollide(h, a, b)
            || exists i :: 0 <= i < |a| && BlocksCollide(h, a, b, i)
  {
    hide Block, Canonical;
    assert LinkedAt(h, a, |a| - 1) && LinkedAt(h, b, |b| - 1);
    HashOfBlock(h, a, |a| - 1);
    HashOfBlock(h, b, |b| - 1);
    hide EventHash;
    if Block(h, a, |a| - 1) == Block(h, b, |b| - 1) {
      BlockSplits(h, a, |a| - 1, b, |b| - 1);
      SamePosition(h, Last(a), Last(b));
      SharedDigestPins(h, a, b, |a|);
    }
  }

  lemma HashOfBlock(h: HashFn, events: seq<RunEvent>, i: nat)
    requires i < |events| && LinkedAt(h, events, i)
    ensures events[i].hash == h(Block(h, events, i))
  {
    hide Canonical;
  }

  /** The canon holds the sequence number. */
  lemma SamePosition(h: HashFn, d: RunEvent, e: RunEvent)
    requires d.seqNo < TWO_TO_THE_64 && e.seqNo < TWO_TO_THE_64
    requires Canonical(h, d) == Canonical(h, e)
    ensures d.seqNo == e.seqNo
  {
    CanonLayout(h, d);
    CanonLayout(h, e);
    hide Canonical;
    U64Injective(d.seqNo, e.seqNo);
  }
}
