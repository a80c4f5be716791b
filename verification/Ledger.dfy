/** The record store as a state machine (crates/tideline-server/src/tlr/sqlite.rs). */
module Ledger {
  import opened Bytes
  import opened Canon
  import opened Chain
  import opened Metadata

  datatype RunKey = RunKey(ns: Text, run: Text)

  datatype NewRun = NewRun(agentName: Text, agentVersion: Text, subjectRef: Option<Text>, labels: map<Text, Text>)

  datatype NewEvent = NewEvent(
    kind: EventKind, role: Option<Text>, name: Option<Text>, content: Option<Text>, metadata: Option<Text>)

  datatype AppendResult = AppendResult(seqNo: nat, ts: nat, prevHash: Digest, hash: Digest)

  datatype Checkpoint = Checkpoint(run: Text, seqNo: nat, headHash: Digest, ts: nat, keyId: Text, sig: Text)

  datatype StoreError = NotFound | Conflict | Invalid

  /** A row of `tlr_runs`. */
  datatype RunRow = RunRow(
    startedTs: nat, endedTs: Option<nat>,
    agentName: Text, agentVersion: Text, subjectRef: Option<Text>, labels: map<Text, Text>,
    headSeq: nat, headHash: Digest)

  /** The four tables; a run's events are kept in primary-key order. */
  datatype State = State(
    runs: map<RunKey, RunRow>,
    events: map<RunKey, seq<RunEvent>>,
    idem: map<(RunKey, Text), AppendResult>,
    checkpoints: map<RunKey, map<nat, Checkpoint>>)

  const EMPTY := State(map[], map[], map[], map[])

  function Rows(st: State, k: RunKey): seq<RunEvent> {
    if k in st.events then st.events[k] else []
  }

  predicate Sealed(st: State, k: RunKey) {
    k in st.runs && st.runs[k].endedTs.Some?
  }

  // --- Operations --------------------------------------------------------------

  function HeadOf(st: State, k: RunKey): Result<(nat, Digest), StoreError> {
    if k !in st.runs then Err(NotFound)
    else if st.runs[k].endedTs.Some? then Err(Conflict)
    else Ok((st.runs[k].headSeq, st.runs[k].headHash))
  }

  /** An event as first written: nothing redacted, hashed against `prev`. */
  function MakeEvent(h: HashFn, seqNo: nat, ts: nat, ev: NewEvent, prev: Digest): RunEvent {
    var core := RunEvent(seqNo, ts, ev.kind, ev.role, ev.name, ev.content, ev.metadata, None, prev, ZERO);
    core.(hash := EventHash(h, core, prev))
  }

  function WriteEvent(st: State, k: RunKey, e: RunEvent): State {
    st.(events := st.events[k := Rows(st, k) + [e]],
        runs := if k in st.runs
                then st.runs[k := st.runs[k].(headSeq := e.seqNo, headHash := e.hash)]
                else st.runs)
  }

  function ResultOf(e: RunEvent): AppendResult {
    AppendResult(e.seqNo, e.ts, e.prevHash, e.hash)
  }

  function AppendInTx(env: Env, st: State, k: RunKey, ev: NewEvent, ts: nat)
    : Result<(State, AppendResult), StoreError>
  {
    match HeadOf(st, k)
    case Err(e) => Err(e)
    case Ok((headSeq, headHash)) =>
      var e := MakeEvent(env.hash, headSeq + 1, ts, ev, headHash);
      Ok((WriteEvent(st, k, e), ResultOf(e)))
  }

  function EnvelopeEvent(env: Env, k: RunKey, new_: NewRun): NewEvent {
    NewEvent(RunStarted, None, None, None,
             Some(env.encode(Envelope(k.run, new_.agentName, new_.agentVersion, new_.subjectRef, new_.labels))))
  }

  function CreateRun(env: Env, st: State, k: RunKey, new_: NewRun, ts: nat)
    : (State, Result<AppendResult, StoreError>)
  {
    if k in st.runs then (st, Err(Conflict))
    else
      var e := MakeEvent(env.hash, 0, ts, EnvelopeEvent(env, k, new_), ZERO);
      var row := RunRow(ts, None, new_.agentName, new_.agentVersion, new_.subjectRef, new_.labels, 0, e.hash);
      (WriteEvent(st.(runs := st.runs[k := row]), k, e), Ok(ResultOf(e)))
  }

  function Append(env: Env, st: State, k: RunKey, ev: NewEvent, key: Option<Text>, ts: nat)
    : (State, Result<AppendResult, StoreError>)
  {
    if key.Some? && (k, key.value) in st.idem then (st, Ok(st.idem[(k, key.value)]))
    else
      match AppendInTx(env, st, k, ev, ts)
      case Err(e) => (st, Err(e))
      case Ok((tx, res)) =>
        (if key.Some? then tx.(idem := tx.idem[(k, key.value) := res]) else tx, Ok(res))
  }

  /** `run_started`, `run_finished` and `redaction` are refused by the append route. */
  predicate OwnRouteOnly(kind: EventKind) {
    kind in {RunStarted, RunFinished, Redaction}
  }

  function RouteAppend(env: Env, st: State, k: RunKey, ev: NewEvent, key: Option<Text>, ts: nat)
    : (State, Result<AppendResult, StoreError>)
  {
    if OwnRouteOnly(ev.kind) then (st, Err(Invalid)) else Append(env, st, k, ev, key, ts)
  }

  function FinishEvent(env: Env, headSeq: nat): NewEvent {
    NewEvent(RunFinished, None, None, None, Some(env.encode(Finished(headSeq + 2))))
  }

  function Seal(env: Env, st: State, k: RunKey, ts: nat): (State, Result<AppendResult, StoreError>) {
    match HeadOf(st, k)
    case Err(e) => (st, Err(e))
    case Ok((headSeq, _)) =>
      match AppendInTx(env, st, k, FinishEvent(env, headSeq), ts)
      case Err(e) => (st, Err(e))
      case Ok((tx, res)) =>
        (if k in tx.runs then tx.(runs := tx.runs[k := tx.runs[k].(endedTs := Some(res.ts))]) else tx, Ok(res))
  }

  /** The digests an erasure of `fields` retains: one for each of them that has a value. */
  function Digests(h: HashFn, e: RunEvent, fields: set<string>): map<string, Digest> {
    map f | f in fields && Value(e, f).Some? :: h(Value(e, f).value)
  }

  /** A row with the given fields erased and their digests retained. */
  function Erase(h: HashFn, e: RunEvent, fields: set<string>): RunEvent {
    var kept := if e.redacted.Some? then e.redacted.value else map[];
    e.(role := if "role" in fields then None else e.role,
       name := if "name" in fields then None else e.name,
       content := if "content" in fields then None else e.content,
       metadata := if "metadata" in fields then None else e.metadata,
       redacted := Some(kept + Digests(h, e, fields)))
  }

  function RedactionEvent(env: Env, target: nat, fields: seq<string>, authority: Text): NewEvent {
    NewEvent(Redaction, None, None, None, Some(env.encode(Redacted(target, fields, authority))))
  }

  function FieldSet(fields: seq<string>): set<string> {
    set f | f in fields
  }

  function Redact(env: Env, st: State, k: RunKey, target: nat, fields: seq<string>, authority: Text, ts: nat)
    : (State, Result<AppendResult, StoreError>)
  {
    if !(FieldSet(fields) <= REDACTABLE) then (st, Err(Invalid))
    else if target >= |Rows(st, k)| then (st, Err(NotFound))
    else
      var erased := Erase(env.hash, Rows(st, k)[target], FieldSet(fields));
      var tx := st.(events := st.events[k := Rows(st, k)[target := erased]]);
      match AppendInTx(env, tx, k, RedactionEvent(env, target, fields, authority), ts)
      case Err(e) => (st, Err(e))
      case Ok((tx', res)) => (tx', Ok(res))
  }

  function CheckpointsOf(st: State, k: RunKey): map<nat, Checkpoint> {
    if k in st.checkpoints then st.checkpoints[k] else map[]
  }

  /** `INSERT OR REPLACE`, keyed by the checkpoint's sequence number. */
  function PutCheckpoint(st: State, k: RunKey, cp: Checkpoint): State {
    st.(checkpoints := st.checkpoints[k := CheckpointsOf(st, k)[cp.seqNo := cp]])
  }

  const MAX_PAGE: nat := 5000

  function Clamp(limit: nat, low: nat, high: nat): nat {
    if limit < low then low else if limit > high then high else limit
  }

  /** The first sequence number not below `from` once `from` is cast: every number is, when the cast is negative. */
  function FirstSeq(from: nat): nat {
    if AsI64(from) < 0 then 0 else AsI64(from)
  }

  /** At most `n` rows from position `at` on. */
  function Page(rows: seq<RunEvent>, at: nat, n: nat): (page: seq<RunEvent>)
    ensures |page| <= n && (|page| < n ==> at + |page| >= |rows|) && (page != [] ==> at + |page| <= |rows|)
  {
    if at >= |rows| then [] else if at + n <= |rows| then rows[at..at + n] else rows[at..]
  }

  /** `SELECT ... WHERE seq >= from ORDER BY seq LIMIT limit`, `from` cast and the limit clamped to 1..5000. */
  function EventsFrom(st: State, k: RunKey, from: nat, limit: nat): seq<RunEvent> {
    Page(Rows(st, k), FirstSeq(from), Clamp(limit, 1, MAX_PAGE))
  }

  /** The cast changes nothing exactly below 2^63; from there to 2^64 the whole record is what is not below `from`. */
  lemma FirstSeqIs(from: nat)
    requires from < TWO_TO_THE_64
    ensures FirstSeq(from) == if from < TWO_TO_THE_63 then from else 0
    ensures FirstSeq(from) == from <==> from < TWO_TO_THE_63
  {
  }

  /** One read returns, from `from` on, as many events as were asked for, but at least one and at most 5000. */
  lemma ReadExactly(st: State, k: RunKey, from: nat, limit: nat)
    requires from < TWO_TO_THE_63
    ensures var rows, page := Rows(st, k), EventsFrom(st, k, from, limit);
            var n := if limit == 0 then 1 else if limit > 5000 then 5000 else limit;
            && |page| == (if from >= |rows| then 0 else if from + n <= |rows| then n else |rows| - from)
            && forall i :: 0 <= i < |page| ==> page[i] == rows[from + i]
  {
    FirstSeqIs(from);
    hide AsI64, FirstSeq;
  }

  // --- One step of the store -----------------------------------------------------

  datatype Op =
    | OpCreate(k: RunKey, new_: NewRun, ts: nat)
    | OpAppend(k: RunKey, ev: NewEvent, key: Option<Text>, ts: nat)
    | OpSeal(k: RunKey, ts: nat)
    | OpRedact(k: RunKey, target: nat, fields: seq<string>, authority: Text, ts: nat)
    | OpCheckpoint(k: RunKey, cp: Checkpoint)

  /** Each operation is one transaction under one lock; `ts` is the clock it happened to read. */
  function Apply(env: Env, st: State, op: Op): (State, Option<Result<AppendResult, StoreError>>) {
    match op
    case OpCreate(k, new_, ts) => var (st', r) := CreateRun(env, st, k, new_, ts); (st', Some(r))
    case OpAppend(k, ev, key, ts) => var (st', r) := RouteAppend(env, st, k, ev, key, ts); (st', Some(r))
    case OpSeal(k, ts) => var (st', r) := Seal(env, st, k, ts); (st', Some(r))
    case OpRedact(k, target, fields, authority, ts) =>
      var (st', r) := Redact(env, st, k, target, fields, authority, ts); (st', Some(r))
    case OpCheckpoint(k, cp) => (PutCheckpoint(st, k, cp), None)
  }

  function Run(env: Env, st: State, ops: seq<Op>): State
    decreases |ops|
  {
    if ops == [] then st else Run(env, Apply(env, st, ops[0]).0, ops[1..])
  }

  // --- The invariant ---------------------------------------------------------------

  /** What the store promises of one run: a verifying record, a true head, and an honest seal. */
  ghost predicate RunOk(env: Env, k: RunKey, row: RunRow, rows: seq<RunEvent>) {
    && Chained(env.hash, rows)
    && row.headSeq == |rows| - 1
    && row.headHash == Last(rows).hash
    && (forall i :: 0 < i < |rows| ==> !rows[i].kind.RunStarted?)
    && (forall i :: 0 <= i < |rows| - 1 ==> !rows[i].kind.RunFinished?)
    && row.endedTs == (if Last(rows).kind.RunFinished? then Some(Last(rows).ts) else None)
    && (Last(rows).kind.RunFinished? ==> Last(rows).metadata == Some(env.encode(Finished(|rows|))))
    && row.startedTs == rows[0].ts
    && CommitsEnvelope(env, k, row, rows[0])
  }

  function EnvelopeOf(env: Env, k: RunKey, row: RunRow): Text {
    env.encode(Envelope(k.run, row.agentName, row.agentVersion, row.subjectRef, row.labels))
  }

  /** The first event commits to what the run's row says of who ran, even after its metadata is erased. */
  ghost predicate CommitsEnvelope(env: Env, k: RunKey, row: RunRow, first: RunEvent) {
    && FieldDigest(env.hash, first, "metadata") == env.hash(EnvelopeOf(env, k, row))
    && (first.metadata.Some? ==> first.metadata.value == EnvelopeOf(env, k, row))
  }

  /** An idempotency row repeats what the event at its sequence number says. */
  ghost predicate IdemOk(st: State, k: RunKey, res: AppendResult) {
    k in st.runs && res.seqNo < |Rows(st, k)| && ResultOf(Rows(st, k)[res.seqNo]) == res
  }

  ghost predicate Inv(env: Env, st: State) {
    && st.runs.Keys == st.events.Keys
    && (forall k :: k in st.runs ==> RunOk(env, k, st.runs[k], Rows(st, k)))
    && (forall ik :: ik in st.idem ==> IdemOk(st, ik.0, st.idem[ik]))
  }

  lemma RecordIsNonempty(env: Env, st: State, k: RunKey)
    requires Inv(env, st) && k in st.runs
    ensures |Rows(st, k)| > 0
  {
    assert RunOk(env, k, st.runs[k], Rows(st, k));
  }

  lemma RowsAreNumbered(env: Env, st: State, k: RunKey)
    requires Inv(env, st)
    ensures forall i :: 0 <= i < |Rows(st, k)| ==> Rows(st, k)[i].seqNo == i
  {
    hide Canonical;
    forall i | 0 <= i < |Rows(st, k)| ensures Rows(st, k)[i].seqNo == i {
      assert RunOk(env, k, st.runs[k], Rows(st, k));
      assert LinkedAt(env.hash, Rows(st, k), i);
    }
  }

  // --- How records may change --------------------------------------------------------

  /** Field `f` of `e` is as in `w`, or was erased with its digest retained. */
  ghost predicate ErasedField(h: HashFn, w: RunEvent, e: RunEvent, f: string) {
    || (Value(e, f) == Value(w, f) && Kept(e, f) == Kept(w, f))
    || (Value(w, f).Some? && Value(e, f).None? && Kept(e, f) == Some(h(Value(w, f).value)))
  }

  /** `e` is the event `w`, possibly with some fields erased since. */
  ghost predicate Erasure(h: HashFn, w: RunEvent, e: RunEvent) {
    && e.seqNo == w.seqNo && e.ts == w.ts && e.kind == w.kind
    && e.prevHash == w.prevHash && e.hash == w.hash
    && forall f: string :: ErasedField(h, w, e, f)
  }

  /** Events are only ever added at the end or erased in place, and a sealed run does not change at all. */
  ghost predicate RunGrew(h: HashFn, row: RunRow, rows: seq<RunEvent>, row': RunRow, rows': seq<RunEvent>) {
    && |rows| <= |rows'|
    && (forall i :: 0 <= i < |rows| ==> Erasure(h, rows[i], rows'[i]))
    && (row.endedTs.Some? ==> row' == row && rows' == rows)
    && row'.startedTs == row.startedTs && row'.agentName == row.agentName
    && row'.agentVersion == row.agentVersion && row'.subjectRef == row.subjectRef && row'.labels == row.labels
  }

  ghost predicate Extends(h: HashFn, st: State, st': State) {
    && st.runs.Keys <= st'.runs.Keys
    && (forall k :: k in st.runs ==> RunGrew(h, st.runs[k], Rows(st, k), st'.runs[k], Rows(st', k)))
    && (forall ik :: ik in st.idem ==> ik in st'.idem && st'.idem[ik] == st.idem[ik])
  }

  // --- Erasure -------------------------------------------------------------------------

  lemma ErasureKeepsDigest(h: HashFn, w: RunEvent, e: RunEvent, f: string)
    requires Erasure(h, w, e)
    ensures FieldDigest(h, e, f) == FieldDigest(h, w, f)
    ensures Value(e, f).Some? ==> Value(e, f) == Value(w, f)
  {
    assert ErasedField(h, w, e, f);
  }

  lemma ErasureKeepsCanon(h: HashFn, w: RunEvent, e: RunEvent)
    requires Erasure(h, w, e)
    ensures Canonical(h, e) == Canonical(h, w)
  {
    forall f: string ensures FieldDigest(h, e, f) == FieldDigest(h, w, f) {
      ErasureKeepsDigest(h, w, e, f);
    }
  }

  lemma ErasureTransitive(h: HashFn, a: RunEvent, b: RunEvent, c: RunEvent)
    requires Erasure(h, a, b) && Erasure(h, b, c)
    ensures Erasure(h, a, c)
  {
    forall f: string ensures ErasedField(h, a, c, f) {
      assert ErasedField(h, a, b, f) && ErasedField(h, b, c, f);
    }
  }

  /** Against the event as first written, the retained digests are those of exactly the erased fields. */
  lemma RetainedExactly(h: HashFn, w: RunEvent, e: RunEvent, f: string)
    requires Erasure(h, w, e) && w.redacted.None?
    ensures Value(e, f) == Value(w, f) || Value(e, f) == None
    ensures Kept(e, f) == if Value(w, f).Some? && Value(e, f).None? then Some(h(Value(w, f).value)) else None
  {
    assert ErasedField(h, w, e, f);
  }

  lemma EraseIsErasure(h: HashFn, e: RunEvent, fields: set<string>)
    requires fields <= REDACTABLE
    ensures Erasure(h, e, Erase(h, e, fields))
    ensures forall f :: f in fields ==> Value(Erase(h, e, fields), f) == None
    ensures forall f :: f !in fields ==> Value(Erase(h, e, fields), f) == Value(e, f)
  {
    var x := Erase(h, e, fields);
    forall f: string ensures ErasedField(h, e, x, f) {
      if f in fields && Value(e, f).Some? {
        assert f in x.redacted.value;
      }
    }
  }

  /** Erasing fields of one event leaves the whole chain as it was. */
  lemma ErasureKeepsRun(env: Env, k: RunKey, row: RunRow, rows: seq<RunEvent>, i: nat, e: RunEvent)
    requires RunOk(env, k, row, rows) && row.endedTs.None?
    requires i < |rows| && Erasure(env.hash, rows[i], e)
    ensures RunOk(env, k, row, rows[i := e])
  {
    hide Canonical, FieldDigest, ErasedField;
    ErasureKeepsCanon(env.hash, rows[i], e);
    ErasureKeepsDigest(env.hash, rows[i], e, "metadata");
    var rows' := rows[i := e];
    assert e.kind == rows[i].kind && CommitsEnvelope(env, k, row, rows'[0]);
    forall j | 0 <= j < |rows'| ensures LinkedAt(env.hash, rows', j) {
      assert LinkedAt(env.hash, rows, j);
    }
  }

  // --- Appending ---------------------------------------------------------------------------

  lemma MadeEventHashes(h: HashFn, seqNo: nat, ts: nat, ev: NewEvent, prev: Digest)
    ensures var e := MakeEvent(h, seqNo, ts, ev, prev);
            && e.hash == EventHash(h, e, e.prevHash)
            && e.redacted == None && e.prevHash == prev && e.seqNo == seqNo && e.ts == ts
            && NewEvent(e.kind, e.role, e.name, e.content, e.metadata) == ev
  {
    var e := MakeEvent(h, seqNo, ts, ev, prev);
    var core := e.(hash := ZERO);
    assert forall f: string :: FieldDigest(h, e, f) == FieldDigest(h, core, f);
    assert Canonical(h, e) == Canonical(h, core);
  }

  /** The row a run is left with once `e` is its head. */
  function RowAfter(row: RunRow, e: RunEvent): RunRow {
    row.(headSeq := e.seqNo, headHash := e.hash, endedTs := if e.kind.RunFinished? then Some(e.ts) else None)
  }

  lemma PushKeepsRun(env: Env, k: RunKey, row: RunRow, rows: seq<RunEvent>, ev: NewEvent, ts: nat)
    requires RunOk(env, k, row, rows) && row.endedTs.None?
    requires !ev.kind.RunStarted?
    requires ev.kind.RunFinished? ==> ev.metadata == Some(env.encode(Finished(|rows| + 1)))
    ensures var e := MakeEvent(env.hash, row.headSeq + 1, ts, ev, row.headHash);
            RunOk(env, k, RowAfter(row, e), rows + [e])
  {
    var e := MakeEvent(env.hash, row.headSeq + 1, ts, ev, row.headHash);
    MadeEventHashes(env.hash, row.headSeq + 1, ts, ev, row.headHash);
    hide MakeEvent, Canonical, EventHash;
    ChainedPush(env.hash, rows, e);
  }

  lemma GrewByPush(h: HashFn, row: RunRow, rows: seq<RunEvent>, rows1: seq<RunEvent>, e: RunEvent)
    requires |rows1| == |rows| && forall i :: 0 <= i < |rows| ==> Erasure(h, rows[i], rows1[i])
    requires row.endedTs.None?
    ensures RunGrew(h, row, rows, RowAfter(row, e), rows1 + [e])
  {
  }

  lemma GrewReflexive(h: HashFn, row: RunRow, rows: seq<RunEvent>)
    ensures RunGrew(h, row, rows, row, rows)
  {
  }

  lemma GrewTransitive(
    h: HashFn, row: RunRow, rows: seq<RunEvent>, row1: RunRow, rows1: seq<RunEvent>, row2: RunRow, rows2: seq<RunEvent>)
    requires RunGrew(h, row, rows, row1, rows1) && RunGrew(h, row1, rows1, row2, rows2)
    ensures RunGrew(h, row, rows, row2, rows2)
  {
    forall i | 0 <= i < |rows| ensures Erasure(h, rows[i], rows2[i]) {
      ErasureTransitive(h, rows[i], rows1[i], rows2[i]);
    }
  }

  lemma ExtendsReflexive(h: HashFn, st: State)
    ensures Extends(h, st, st)
  {
    forall k | k in st.runs ensures RunGrew(h, st.runs[k], Rows(st, k), st.runs[k], Rows(st, k)) {
      GrewReflexive(h, st.runs[k], Rows(st, k));
    }
  }

  lemma ExtendsTransitive(h: HashFn, a: State, b: State, c: State)
    requires Extends(h, a, b) && Extends(h, b, c)
    ensures Extends(h, a, c)
  {
    forall k | k in a.runs ensures RunGrew(h, a.runs[k], Rows(a, k), c.runs[k], Rows(c, k)) {
      GrewTransitive(h, a.runs[k], Rows(a, k), b.runs[k], Rows(b, k), c.runs[k], Rows(c, k));
    }
  }

  /** Replacing one run by something it grew into keeps the invariant, and everything else stays. */
  lemma OneRunStep(env: Env, st: State, k: RunKey, row: RunRow, rows: seq<RunEvent>)
    requires Inv(env, st) && k in st.runs
    requires RunOk(env, k, row, rows)
    requires RunGrew(env.hash, st.runs[k], Rows(st, k), row, rows)
    ensures var st' := st.(runs := st.runs[k := row], events := st.events[k := rows]);
            Inv(env, st') && Extends(env.hash, st, st')
  {
    var st' := st.(runs := st.runs[k := row], events := st.events[k := rows]);
    hide RunOk, RunGrew, Erasure;
    forall j | j in st'.runs ensures RunOk(env, j, st'.runs[j], Rows(st', j)) {
      if j != k {
        assert Rows(st', j) == Rows(st, j);
      }
    }
    forall j | j in st.runs ensures RunGrew(env.hash, st.runs[j], Rows(st, j), st'.runs[j], Rows(st', j)) {
      if j != k {
        GrewReflexive(env.hash, st.runs[j], Rows(st, j));
      }
    }
    forall ik | ik in st.idem ensures IdemOk(st', ik.0, st.idem[ik]) {
      assert IdemOk(st, ik.0, st.idem[ik]);
      IdemGrows(env.hash, st, ik.0, st.idem[ik], st');
    }
  }

  lemma IdemGrows(h: HashFn, st: State, k: RunKey, res: AppendResult, st': State)
    requires IdemOk(st, k, res)
    requires k in st'.runs
    requires RunGrew(h, st.runs[k], Rows(st, k), st'.runs[k], Rows(st', k))
    ensures IdemOk(st', k, res)
  {
    assert Erasure(h, Rows(st, k)[res.seqNo], Rows(st', k)[res.seqNo]);
  }

  // --- Every operation keeps the invariant -----------------------------------------------

  /** Run `k` holding `rows` and then `e`, with its row brought up to date. */
  function Committed(st: State, k: RunKey, rows: seq<RunEvent>, e: RunEvent): State
    requires k in st.runs
  {
    st.(runs := st.runs[k := RowAfter(st.runs[k], e)], events := st.events[k := rows + [e]])
  }

  function NextEvent(env: Env, row: RunRow, ev: NewEvent, ts: nat): RunEvent {
    MakeEvent(env.hash, row.headSeq + 1, ts, ev, row.headHash)
  }

  /** What a transaction that reaches its append leaves behind, the run's rows having first been edited to `rows`. */
  lemma CommitKeeps(env: Env, st: State, k: RunKey, rows: seq<RunEvent>, ev: NewEvent, ts: nat)
    requires Inv(env, st) && k in st.runs && st.runs[k].endedTs.None?
    requires RunOk(env, k, st.runs[k], rows)
    requires |rows| == |Rows(st, k)| && forall i :: 0 <= i < |rows| ==> Erasure(env.hash, Rows(st, k)[i], rows[i])
    requires !ev.kind.RunStarted?
    requires ev.kind.RunFinished? ==> ev.metadata == Some(env.encode(Finished(|rows| + 1)))
    ensures var st' := Committed(st, k, rows, NextEvent(env, st.runs[k], ev, ts));
            Inv(env, st') && Extends(env.hash, st, st')
  {
    var row := st.runs[k];
    var e := NextEvent(env, row, ev, ts);
    hide MakeEvent, Erasure;
    PushKeepsRun(env, k, row, rows, ev, ts);
    GrewByPush(env.hash, row, Rows(st, k), rows, e);
    OneRunStep(env, st, k, RowAfter(row, e), rows + [e]);
  }

  /** States that agree on runs and events agree on every record; new idempotency rows must be true. */
  lemma SideTablesKeep(env: Env, st: State, st': State)
    requires Inv(env, st)
    requires st'.runs == st.runs && st'.events == st.events
    requires forall ik :: ik in st.idem ==> ik in st'.idem && st'.idem[ik] == st.idem[ik]
    requires forall ik :: ik in st'.idem && ik !in st.idem ==> IdemOk(st', ik.0, st'.idem[ik])
    ensures Inv(env, st') && Extends(env.hash, st, st')
  {
    hide RunOk, RunGrew;
    forall k ensures Rows(st', k) == Rows(st, k) {
    }
    forall k | k in st.runs ensures RunGrew(env.hash, st.runs[k], Rows(st, k), st'.runs[k], Rows(st', k)) {
      GrewReflexive(env.hash, st.runs[k], Rows(st, k));
    }
    forall ik | ik in st.idem ensures IdemOk(st', ik.0, st'.idem[ik]) {
      assert IdemOk(st, ik.0, st.idem[ik]);
    }
  }

  /** The state a successful append leaves, idempotency aside. */
  lemma AppendInTxShape(env: Env, st: State, k: RunKey, ev: NewEvent, ts: nat)
    requires HeadOf(st, k).Ok? && !ev.kind.RunFinished?
    ensures var e := NextEvent(env, st.runs[k], ev, ts);
            AppendInTx(env, st, k, ev, ts) == Ok((Committed(st, k, Rows(st, k), e), ResultOf(e)))
  {
    MadeEventHashes(env.hash, st.runs[k].headSeq + 1, ts, ev, st.runs[k].headHash);
    hide MakeEvent;
  }

  lemma SealShape(env: Env, st: State, k: RunKey, ts: nat)
    requires HeadOf(st, k).Ok?
    ensures var e := NextEvent(env, st.runs[k], FinishEvent(env, st.runs[k].headSeq), ts);
            Seal(env, st, k, ts) == (Committed(st, k, Rows(st, k), e), Ok(ResultOf(e)))
  {
    MadeEventHashes(env.hash, st.runs[k].headSeq + 1, ts, FinishEvent(env, st.runs[k].headSeq), st.runs[k].headHash);
    hide MakeEvent;
    var e := NextEvent(env, st.runs[k], FinishEvent(env, st.runs[k].headSeq), ts);
    var runs := WriteEvent(st, k, e).runs;
    assert runs[k := runs[k].(endedTs := Some(e.ts))] == st.runs[k := RowAfter(st.runs[k], e)];
  }

  function ErasedRows(h: HashFn, rows: seq<RunEvent>, target: nat, fields: set<string>): seq<RunEvent>
    requires target < |rows|
  {
    rows[target := Erase(h, rows[target], fields)]
  }

  lemma RedactShape(env: Env, st: State, k: RunKey, target: nat, fields: seq<string>, authority: Text, ts: nat)
    requires FieldSet(fields) <= REDACTABLE && target < |Rows(st, k)| && HeadOf(st, k).Ok?
    ensures var e := NextEvent(env, st.runs[k], RedactionEvent(env, target, fields, authority), ts);
            Redact(env, st, k, target, fields, authority, ts)
            == (Committed(st, k, ErasedRows(env.hash, Rows(st, k), target, FieldSet(fields)), e), Ok(ResultOf(e)))
  {
    hide MakeEvent, Erase;
    var rows := ErasedRows(env.hash, Rows(st, k), target, FieldSet(fields));
    var tx := st.(events := st.events[k := rows]);
    AppendInTxShape(env, tx, k, RedactionEvent(env, target, fields, authority), ts);
    assert Rows(tx, k) == rows;
    var e := NextEvent(env, st.runs[k], RedactionEvent(env, target, fields, authority), ts);
    assert Committed(tx, k, rows, e) == Committed(st, k, rows, e);
  }

  lemma CreateKeeps(env: Env, st: State, k: RunKey, new_: NewRun, ts: nat)
    requires Inv(env, st)
    ensures var st' := CreateRun(env, st, k, new_, ts).0;
            Inv(env, st') && Extends(env.hash, st, st')
  {
    hide MakeEvent, Canonical, EventHash, Extends;
    ExtendsReflexive(env.hash, st);
    if k !in st.runs {
      var ev := EnvelopeEvent(env, k, new_);
      var e := MakeEvent(env.hash, 0, ts, ev, ZERO);
      MadeEventHashes(env.hash, 0, ts, ev, ZERO);
      var row := RunRow(ts, None, new_.agentName, new_.agentVersion, new_.subjectRef, new_.labels, 0, e.hash);
      assert LinkedAt(env.hash, [e], 0);
      assert RunOk(env, k, row, [e]);
      var st' := CreateRun(env, st, k, new_, ts).0;
      assert Rows(st, k) == [] && [] + [e] == [e];
      assert st'.runs == st.runs[k := row] && st'.events == st.events[k := [e]] && st'.idem == st.idem;
      NewRunKeeps(env, st, k, row, [e], st');
    }
  }

  lemma NewRunKeeps(env: Env, st: State, k: RunKey, row: RunRow, rows: seq<RunEvent>, st': State)
    requires Inv(env, st) && k !in st.runs && RunOk(env, k, row, rows)
    requires st'.runs == st.runs[k := row] && st'.events == st.events[k := rows] && st'.idem == st.idem
    ensures Inv(env, st') && Extends(env.hash, st, st')
  {
    hide RunOk, RunGrew;
    forall j | j != k ensures Rows(st', j) == Rows(st, j) {
    }
    forall j | j in st.runs ensures RunGrew(env.hash, st.runs[j], Rows(st, j), st'.runs[j], Rows(st', j)) {
      GrewReflexive(env.hash, st.runs[j], Rows(st, j));
    }
    forall ik | ik in st'.idem ensures IdemOk(st', ik.0, st'.idem[ik]) {
      assert IdemOk(st, ik.0, st.idem[ik]);
    }
  }

  function Remember(tx: State, k: RunKey, key: Option<Text>, res: AppendResult): State {
    if key.Some? then tx.(idem := tx.idem[(k, key.value) := res]) else tx
  }

  predicate Repeats(st: State, k: RunKey, key: Option<Text>) {
    key.Some? && (k, key.value) in st.idem
  }

  lemma AppendShape(env: Env, st: State, k: RunKey, ev: NewEvent, key: Option<Text>, ts: nat)
    requires HeadOf(st, k).Ok? && !Repeats(st, k, key) && !ev.kind.RunFinished?
    ensures var e := NextEvent(env, st.runs[k], ev, ts);
            Append(env, st, k, ev, key, ts)
            == (Remember(Committed(st, k, Rows(st, k), e), k, key, ResultOf(e)), Ok(ResultOf(e)))
  {
    AppendInTxShape(env, st, k, ev, ts);
    hide AppendInTx;
  }

  lemma AppendKeeps(env: Env, st: State, k: RunKey, ev: NewEvent, key: Option<Text>, ts: nat)
    requires Inv(env, st) && !OwnRouteOnly(ev.kind)
    ensures var st' := Append(env, st, k, ev, key, ts).0;
            Inv(env, st') && Extends(env.hash, st, st')
  {
    ExtendsReflexive(env.hash, st);
    if HeadOf(st, k).Ok? && !Repeats(st, k, key) {
      var rows, e := Rows(st, k), NextEvent(env, st.runs[k], ev, ts);
      var tx := Committed(st, k, rows, e);
      AppendShape(env, st, k, ev, key, ts);
      ErasuresReflexive(env.hash, rows);
      CommitKeeps(env, st, k, rows, ev, ts);
      CommittedHead(env, st, k, ev, ts);
      RememberKeeps(env, tx, k, key, e);
      hide Inv, Extends, Append, Committed, Remember, NextEvent;
      ExtendsTransitive(env.hash, st, tx, Remember(tx, k, key, ResultOf(e)));
    }
  }

  /** The idempotency row an append inserts repeats the event it has just written. */
  lemma RememberKeeps(env: Env, tx: State, k: RunKey, key: Option<Text>, e: RunEvent)
    requires Inv(env, tx) && k in tx.runs && !Repeats(tx, k, key)
    requires e.seqNo < |Rows(tx, k)| && Rows(tx, k)[e.seqNo] == e
    ensures var st' := Remember(tx, k, key, ResultOf(e));
            Inv(env, st') && Extends(env.hash, tx, st')
  {
    hide Inv, Extends;
    SideTablesKeep(env, tx, Remember(tx, k, key, ResultOf(e)));
  }

  lemma CommittedHead(env: Env, st: State, k: RunKey, ev: NewEvent, ts: nat)
    requires k in st.runs && RunOk(env, k, st.runs[k], Rows(st, k))
    ensures var e := NextEvent(env, st.runs[k], ev, ts);
            e.seqNo == |Rows(st, k)| && Rows(Committed(st, k, Rows(st, k), e), k)[e.seqNo] == e
  {
    MadeEventHashes(env.hash, st.runs[k].headSeq + 1, ts, ev, st.runs[k].headHash);
    hide MakeEvent, Chained;
  }

  lemma ErasuresReflexive(h: HashFn, rows: seq<RunEvent>)
    ensures forall i :: 0 <= i < |rows| ==> Erasure(h, rows[i], rows[i])
  {
  }

  lemma SealKeeps(env: Env, st: State, k: RunKey, ts: nat)
    requires Inv(env, st)
    ensures var st' := Seal(env, st, k, ts).0;
            Inv(env, st') && Extends(env.hash, st, st')
  {
    ExtendsReflexive(env.hash, st);
    if HeadOf(st, k).Ok? {
      SealShape(env, st, k, ts);
      ErasuresReflexive(env.hash, Rows(st, k));
      CommitKeeps(env, st, k, Rows(st, k), FinishEvent(env, st.runs[k].headSeq), ts);
    }
  }

  lemma RedactKeeps(env: Env, st: State, k: RunKey, target: nat, fields: seq<string>, authority: Text, ts: nat)
    requires Inv(env, st)
    ensures var st' := Redact(env, st, k, target, fields, authority, ts).0;
            Inv(env, st') && Extends(env.hash, st, st')
  {
    hide Erase, Extends, MakeEvent;
    ExtendsReflexive(env.hash, st);
    if FieldSet(fields) <= REDACTABLE && target < |Rows(st, k)| && HeadOf(st, k).Ok? {
      hide Redact;
      RedactShape(env, st, k, target, fields, authority, ts);
      var rows := ErasedRows(env.hash, Rows(st, k), target, FieldSet(fields));
      EraseIsErasure(env.hash, Rows(st, k)[target], FieldSet(fields));
      ErasureKeepsRun(env, k, st.runs[k], Rows(st, k), target, rows[target]);
      ErasuresReflexive(env.hash, Rows(st, k));
      CommitKeeps(env, st, k, rows, RedactionEvent(env, target, fields, authority), ts);
    }
  }

  lemma CheckpointKeeps(env: Env, st: State, k: RunKey, cp: Checkpoint)
    requires Inv(env, st)
    ensures var st' := PutCheckpoint(st, k, cp); Inv(env, st') && Extends(env.hash, st, st')
  {
    SideTablesKeep(env, st, PutCheckpoint(st, k, cp));
  }

  /** No operation adds more than one event to a run. */
  lemma ApplyAddsOneAtMost(env: Env, st: State, op: Op, k: RunKey)
    ensures |Rows(Apply(env, st, op).0, k)| <= |Rows(st, k)| + 1
  {
    hide MakeEvent, Erase;
  }

  lemma {:induction false} RunAddsAtMost(env: Env, st: State, ops: seq<Op>, k: RunKey)
    ensures |Rows(Run(env, st, ops), k)| <= |Rows(st, k)| + |ops|
    decreases |ops|
  {
    hide Apply, Rows;
    if ops != [] {
      ApplyAddsOneAtMost(env, st, ops[0], k);
      RunAddsAtMost(env, Apply(env, st, ops[0]).0, ops[1..], k);
    }
  }

  lemma {:induction false} RunJoin(env: Env, st: State, a: seq<Op>, b: seq<Op>)
    ensures Run(env, st, a + b) == Run(env, Run(env, st, a), b)
    decreases |a|
  {
    hide Apply;
    if a == [] {
      assert a + b == b;
    } else {
      RunJoin(env, Apply(env, st, a[0]).0, a[1..], b);
      assert (a + b)[1..] == a[1..] + b;
    }
  }

  /** One operation keeps the invariant, only extends history, and changes nothing when it fails. */
  lemma ApplyKeeps(env: Env, st: State, op: Op)
    requires Inv(env, st)
    ensures var (st', r) := Apply(env, st, op);
            && Inv(env, st') && Extends(env.hash, st, st')
            && (r.Some? && r.value.Err? ==> st' == st)
  {
    hide Inv, Extends;
    match op
    case OpCreate(k, new_, ts) => CreateKeeps(env, st, k, new_, ts);
    case OpAppend(k, ev, key, ts) =>
      if OwnRouteOnly(ev.kind) {
        ExtendsReflexive(env.hash, st);
      } else {
        AppendKeeps(env, st, k, ev, key, ts);
      }
    case OpSeal(k, ts) => SealKeeps(env, st, k, ts);
    case OpRedact(k, target, fields, authority, ts) => RedactKeeps(env, st, k, target, fields, authority, ts);
    case OpCheckpoint(k, cp) => CheckpointKeeps(env, st, k, cp);
  }

  lemma {:induction false} RunKeeps(env: Env, st: State, ops: seq<Op>)
    requires Inv(env, st)
    ensures Inv(env, Run(env, st, ops)) && Extends(env.hash, st, Run(env, st, ops))
    decreases |ops|
  {
    hide Inv, Extends, Apply;
    ExtendsReflexive(env.hash, st);
    if ops != [] {
      var st1 := Apply(env, st, ops[0]).0;
      ApplyKeeps(env, st, ops[0]);
      RunKeeps(env, st1, ops[1..]);
      ExtendsTransitive(env.hash, st, st1, Run(env, st1, ops[1..]));
    }
  }
}
