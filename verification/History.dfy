/** What the record store guarantees of every run of operations (sqlite.rs, spec/tlr-1.md sections 5, 6 and 9.2). */
module History {
  import opened Bytes
  import opened Canon
  import opened Chain
  import opened Metadata
  import opened Ledger

  /**
   * Whatever was asked of the store, in whatever order and with whatever clock: every run verifies, its row
   * names its true head, and it is sealed exactly when its last event is the one `run_finished`.
   */
  lemma EveryReachableLedgerIsSound(env: Env, ops: seq<Op>, k: RunKey)
    requires k in Run(env, EMPTY, ops).runs
    ensures RunOk(env, k, Run(env, EMPTY, ops).runs[k], Rows(Run(env, EMPTY, ops), k))
  {
    RunKeeps(env, EMPTY, ops);
  }

  // --- What each call does, and when it is refused ---------------------------------

  ghost predicate OthersUntouched(st: State, st': State, k: RunKey) {
    forall j: RunKey :: j != k ==>
      && Rows(st', j) == Rows(st, j)
      && (j in st'.runs <==> j in st.runs)
      && (j in st.runs ==> st'.runs[j] == st.runs[j])
  }

  /** Run `k` now holds `rows` and one more event, written as submitted and linked to the old head. */
  ghost predicate AddsOne(
    env: Env, st': State, k: RunKey, rows: seq<RunEvent>, ev: NewEvent, ts: nat, res: AppendResult)
  {
    && |rows| > 0
    && |Rows(st', k)| == |rows| + 1 && Rows(st', k)[..|rows|] == rows
    && var e := Last(Rows(st', k));
       && NewEvent(e.kind, e.role, e.name, e.content, e.metadata) == ev
       && e.redacted == None && e.ts == ts && e.seqNo == |rows|
       && e.prevHash == Last(rows).hash && e.hash == EventHash(env.hash, e, Last(rows).hash)
       && res == ResultOf(e)
  }

  /** The error a call on run `k` meets before it can append. */
  function Refusal(st: State, k: RunKey): StoreError {
    if k !in st.runs then NotFound else Conflict
  }

  predicate Open(st: State, k: RunKey) {
    k in st.runs && !Sealed(st, k)
  }

  lemma CommittedAddsOne(env: Env, st: State, k: RunKey, rows: seq<RunEvent>, ev: NewEvent, ts: nat)
    requires k in st.runs && RunOk(env, k, st.runs[k], Rows(st, k))
    requires |rows| == |Rows(st, k)| && Last(rows).hash == Last(Rows(st, k)).hash
    ensures var e := NextEvent(env, st.runs[k], ev, ts);
            var st' := Committed(st, k, rows, e);
            && AddsOne(env, st', k, rows, ev, ts, ResultOf(e)) && OthersUntouched(st, st', k)
            && (Open(st', k) <==> !ev.kind.RunFinished?)
  {
    MadeEventHashes(env.hash, st.runs[k].headSeq + 1, ts, ev, st.runs[k].headHash);
    hide MakeEvent, Chained, Canonical, EventHash;
    var e := NextEvent(env, st.runs[k], ev, ts);
    assert Rows(Committed(st, k, rows, e), k) == rows + [e];
  }

  lemma AppendAdds(env: Env, st: State, k: RunKey, ev: NewEvent, key: Option<Text>, ts: nat)
    requires Inv(env, st) && !OwnRouteOnly(ev.kind) && !Repeats(st, k, key) && Open(st, k)
    ensures var (st', r) := Append(env, st, k, ev, key, ts);
            && r.Ok? && AddsOne(env, st', k, Rows(st, k), ev, ts, r.value)
            && OthersUntouched(st, st', k) && Open(st', k)
            && (key.Some? ==> (k, key.value) in st'.idem && st'.idem[(k, key.value)] == r.value)
  {
    AppendShape(env, st, k, ev, key, ts);
    hide Append, Inv, NextEvent, RunOk;
    CommittedAddsOne(env, st, k, Rows(st, k), ev, ts);
    var e := NextEvent(env, st.runs[k], ev, ts);
    var tx := Committed(st, k, Rows(st, k), e);
    hide Committed, AddsOne, OthersUntouched;
    RememberAddsOne(env, st, tx, k, key, Rows(st, k), ev, ts, ResultOf(e));
  }

  lemma RememberAddsOne(
    env: Env, st: State, tx: State, k: RunKey, key: Option<Text>, rows: seq<RunEvent>, ev: NewEvent, ts: nat,
    res: AppendResult)
    requires AddsOne(env, tx, k, rows, ev, ts, res) && OthersUntouched(st, tx, k)
    ensures var st' := Remember(tx, k, key, res);
            && AddsOne(env, st', k, rows, ev, ts, res) && OthersUntouched(st, st', k)
            && (Open(tx, k) ==> Open(st', k))
            && (key.Some? ==> (k, key.value) in st'.idem && st'.idem[(k, key.value)] == res)
  {
    hide EventHash;
    assert forall j :: Rows(Remember(tx, k, key, res), j) == Rows(tx, j);
  }

  /** Appending: refused exactly on a missing or sealed run, unless the key repeats, which changes nothing. */
  lemma AppendExactly(env: Env, st: State, k: RunKey, ev: NewEvent, key: Option<Text>, ts: nat)
    requires Inv(env, st)
    ensures var (st', r) := RouteAppend(env, st, k, ev, key, ts);
            if ev.kind.RunStarted? || ev.kind.RunFinished? || ev.kind.Redaction? then st' == st && r == Err(Invalid)
            else if Repeats(st, k, key) then st' == st && r == Ok(st.idem[(k, key.value)])
            else if !Open(st, k) then st' == st && r == Err(Refusal(st, k))
            else && r.Ok? && AddsOne(env, st', k, Rows(st, k), ev, ts, r.value)
                 && OthersUntouched(st, st', k) && Open(st', k)
                 && (key.Some? ==> (k, key.value) in st'.idem && st'.idem[(k, key.value)] == r.value)
  {
    if !OwnRouteOnly(ev.kind) && !Repeats(st, k, key) && Open(st, k) {
      AppendAdds(env, st, k, ev, key, ts);
      hide Append, AddsOne, OthersUntouched, Inv;
    }
  }

  /** Sealing: refused exactly on a missing or sealed run; otherwise the run ends in its event count and is closed. */
  lemma SealExactly(env: Env, st: State, k: RunKey, ts: nat)
    requires Inv(env, st)
    ensures var (st', r) := Seal(env, st, k, ts);
            if !Open(st, k) then st' == st && r == Err(Refusal(st, k))
            else && r.Ok? && Sealed(st', k) && OthersUntouched(st, st', k)
                 && AddsOne(env, st', k, Rows(st, k),
                            NewEvent(RunFinished, None, None, None, Some(env.encode(Finished(|Rows(st', k)|)))), ts,
                                r.value)
                 && st'.runs[k].endedTs == Some(ts)
  {
    if Open(st, k) {
      SealShape(env, st, k, ts);
      var ev := FinishEvent(env, st.runs[k].headSeq);
      MadeEventHashes(env.hash, st.runs[k].headSeq + 1, ts, ev, st.runs[k].headHash);
      hide Seal, MakeEvent, Chained;
      CommittedAddsOne(env, st, k, Rows(st, k), ev, ts);
    }
  }

  /** What a redaction that is accepted leaves in run `k`. */
  ghost predicate Redacts(
    env: Env, st: State, st': State, k: RunKey, target: nat, fields: seq<string>, authority: Text, ts: nat,
    res: AppendResult)
  {
    && |Rows(st', k)| == |Rows(st, k)| + 1 && target < |Rows(st, k)|
    && AddsOne(env, st', k, Rows(st', k)[..|Rows(st, k)|], RedactionEvent(env, target, fields, authority), ts, res)
    && (forall i :: 0 <= i < |Rows(st, k)| && i != target ==> Rows(st', k)[i] == Rows(st, k)[i])
    && ErasesExactly(env.hash, Rows(st, k)[target], Rows(st', k)[target], fields)
  }

  lemma RedactErases(env: Env, st: State, k: RunKey, target: nat, fields: seq<string>, authority: Text, ts: nat)
    requires Inv(env, st)
    requires FieldSet(fields) <= REDACTABLE && target < |Rows(st, k)| && Open(st, k)
    ensures var (st', r) := Redact(env, st, k, target, fields, authority, ts);
            r.Ok? && OthersUntouched(st, st', k) && Redacts(env, st, st', k, target, fields, authority, ts, r.value)
  {
    hide Redact, Erase, ErasesExactly, AddsOne, OthersUntouched, NextEvent, RunOk, Committed, FieldSet, Redacts;
    hide ErasedRows, Rows, RedactionEvent, ResultOf;
    var rows := ErasedRows(env.hash, Rows(st, k), target, FieldSet(fields));
    var ev := RedactionEvent(env, target, fields, authority);
    RedactShape(env, st, k, target, fields, authority, ts);
    var e := NextEvent(env, st.runs[k], ev, ts);
    EraseErasesExactly(env.hash, Rows(st, k)[target], fields);
    OpenRunIsOk(env, st, k);
    hide Inv;
    ErasedRowsHead(env.hash, Rows(st, k), target, fields);
    IsARedaction(env, target, fields, authority);
    CommittedAddsOne(env, st, k, rows, ev, ts);
    CommittedRedacts(env, st, Committed(st, k, rows, e), k, target, fields, authority, ts, ResultOf(e));
  }

  lemma OpenRunIsOk(env: Env, st: State, k: RunKey)
    requires Inv(env, st) && Open(st, k)
    ensures RunOk(env, k, st.runs[k], Rows(st, k)) && HeadOf(st, k).Ok? && |Rows(st, k)| > 0
  {
    hide Canonical;
  }

  lemma IsARedaction(env: Env, target: nat, fields: seq<string>, authority: Text)
    ensures !RedactionEvent(env, target, fields, authority).kind.RunFinished?
  {
  }

  lemma ErasedRowsHead(h: HashFn, rows: seq<RunEvent>, target: nat, fields: seq<string>)
    requires target < |rows| && ErasesExactly(h, rows[target], Erase(h, rows[target], FieldSet(fields)), fields)
    ensures var erased := ErasedRows(h, rows, target, FieldSet(fields));
            |erased| == |rows| && Last(erased).hash == Last(rows).hash
  {
    hide Erase, FieldSet;
  }

  lemma CommittedRedacts(
    env: Env, st: State, st': State, k: RunKey, target: nat, fields: seq<string>, authority: Text, ts: nat,
    res: AppendResult)
    requires target < |Rows(st, k)|
    requires ErasesExactly(env.hash, Rows(st, k)[target], Erase(env.hash, Rows(st, k)[target], FieldSet(fields)),
              fields)
    requires var rows := ErasedRows(env.hash, Rows(st, k), target, FieldSet(fields));
             AddsOne(env, st', k, rows, RedactionEvent(env, target, fields, authority), ts, res)
    ensures Redacts(env, st, st', k, target, fields, authority, ts, res)
  {
    hide Erase, ErasesExactly, EventHash;
    var rows := ErasedRows(env.hash, Rows(st, k), target, FieldSet(fields));
    assert Rows(st', k)[..|rows|] == rows;
    forall i | 0 <= i < |rows| ensures Rows(st', k)[i] == rows[i] {
      assert Rows(st', k)[i] == Rows(st', k)[..|rows|][i];
    }
  }

  /**
   * Redaction: the named fields of one event become absent, the digests of those that had a value are retained,
   * nothing else in the record changes, and one event recording the erasure is added. A refused call, on a sealed
   * run for instance, leaves no trace although the erasure is written before the refusal is met.
   */
  lemma RedactExactly(env: Env, st: State, k: RunKey, target: nat, fields: seq<string>, authority: Text, ts: nat)
    requires Inv(env, st)
    ensures var (st', r) := Redact(env, st, k, target, fields, authority, ts);
            if exists f :: f in fields && f !in ["role", "name", "content", "metadata"]
            then st' == st && r == Err(Invalid)
            else if target >= |Rows(st, k)| then st' == st && r == Err(NotFound)
            else if !Open(st, k) then st' == st && r == Err(Conflict)
            else && r.Ok? && OthersUntouched(st, st', k)
                 && Redacts(env, st, st', k, target, fields, authority, ts, r.value)
                 && var e := Last(Rows(st', k));
                    && e.kind == Redaction && e.role == None && e.name == None && e.content == None
                    && e.metadata == Some(env.encode(Redacted(target, fields, authority)))
  {
    if FieldSet(fields) <= REDACTABLE {
      assert forall f :: f in fields ==> f in FieldSet(fields);
      if target < |Rows(st, k)| && Open(st, k) {
        RedactErases(env, st, k, target, fields, authority, ts);
        hide Redact, Redacts, OthersUntouched;
      }
    }
  }

  ghost predicate ErasesExactly(h: HashFn, w: RunEvent, e: RunEvent, fields: seq<string>) {
    && e.seqNo == w.seqNo && e.ts == w.ts && e.kind == w.kind && e.prevHash == w.prevHash && e.hash == w.hash
    && forall f: string ::
         && Value(e, f) == (if f in fields then None else Value(w, f))
         && Kept(e, f) == (if f in fields && Value(w, f).Some? then Some(h(Value(w, f).value)) else Kept(w, f))
  }

  lemma EraseErasesExactly(h: HashFn, w: RunEvent, fields: seq<string>)
    requires FieldSet(fields) <= REDACTABLE
    ensures ErasesExactly(h, w, Erase(h, w, FieldSet(fields)), fields)
    ensures Erase(h, w, FieldSet(fields)).hash == w.hash
  {
    EraseIsErasure(h, w, FieldSet(fields));
    var e := Erase(h, w, FieldSet(fields));
    forall f: string
      ensures Kept(e, f) == if f in fields && Value(w, f).Some? then Some(h(Value(w, f).value)) else Kept(w, f)
    {
      if f in fields && Value(w, f).Some? {
        assert f in FieldSet(fields);
        assert f in e.redacted.value;
      }
    }
  }

  /** Opening a run: refused exactly when it exists; otherwise its record is the one envelope event. */
  lemma CreateExactly(env: Env, st: State, k: RunKey, new_: NewRun, ts: nat)
    requires Inv(env, st)
    ensures var (st', r) := CreateRun(env, st, k, new_, ts);
            if k in st.runs then st' == st && r == Err(Conflict)
            else && r.Ok? && OthersUntouched(st, st', k) && Open(st', k)
                 && |Rows(st', k)| == 1 && r.value == ResultOf(Rows(st', k)[0])
                 && Rows(st', k)[0].kind == RunStarted && Rows(st', k)[0].ts == ts
                 && Rows(st', k)[0].role == None && Rows(st', k)[0].name == None && Rows(st', k)[0].content == None
                 && Rows(st', k)[0].metadata == Some(env.encode(
                      Envelope(k.run, new_.agentName, new_.agentVersion, new_.subjectRef, new_.labels)))
                 && LinkedAt(env.hash, Rows(st', k), 0)
  {
    hide MakeEvent, Canonical, EventHash, RunOk, IdemOk;
    if k !in st.runs {
      hide CreateRun;
      MadeEventHashes(env.hash, 0, ts, EnvelopeEvent(env, k, new_), ZERO);
      CreatedIs(env, st, k, new_, ts);
    }
  }

  function FirstRow(new_: NewRun, ts: nat, e: RunEvent): RunRow {
    RunRow(ts, None, new_.agentName, new_.agentVersion, new_.subjectRef, new_.labels, 0, e.hash)
  }

  /** What creating leaves behind. */
  lemma CreatedIs(env: Env, st: State, k: RunKey, new_: NewRun, ts: nat)
    requires k !in st.runs && k !in st.events
    ensures CreateRun(env, st, k, new_, ts)
         == (var e := MakeEvent(env.hash, 0, ts, EnvelopeEvent(env, k, new_), ZERO);
             (st.(runs := st.runs[k := FirstRow(new_, ts, e)], events := st.events[k := [e]]), Ok(ResultOf(e))))
  {
    MadeEventHashes(env.hash, 0, ts, EnvelopeEvent(env, k, new_), ZERO);
    hide MakeEvent, EnvelopeEvent, EventHash;
    var e := MakeEvent(env.hash, 0, ts, EnvelopeEvent(env, k, new_), ZERO);
    var row := FirstRow(new_, ts, e);
    assert st.runs[k := row][k := row] == st.runs[k := row];
    assert [] + [e] == [e];
  }

  // --- Redaction is invisible to the chain ------------------------------------------------

  /**
   * However a run is written to and redacted from some state on, each of that state's events keeps its position,
   * canonical octets, hash and link; and if it was unredacted then, each of its fields is now either what it was or
   * absent, with the digest of the original value retained for exactly the erased ones.
   */
  lemma RedactionIsInvisible(env: Env, st: State, ops: seq<Op>, k: RunKey, i: nat, f: string)
    requires Inv(env, st) && k in st.runs && i < |Rows(st, k)|
    ensures var later := Run(env, st, ops);
            && i < |Rows(later, k)|
            && var w, e := Rows(st, k)[i], Rows(later, k)[i];
               && Canonical(env.hash, e) == Canonical(env.hash, w)
               && e.hash == w.hash && e.prevHash == w.prevHash
               && (w.redacted.None? ==>
                     && (Value(e, f) == Value(w, f) || Value(e, f) == None)
                     && Kept(e, f) == if Value(w, f).Some? && Value(e, f).None?
                                      then Some(env.hash(Value(w, f).value)) else None)
  {
    RunKeeps(env, st, ops);
    hide Canonical, Inv;
    var later := Run(env, st, ops);
    var w, e := Rows(st, k)[i], Rows(later, k)[i];
    ErasureKeepsCanon(env.hash, w, e);
    if w.redacted.None? {
      RetainedExactly(env.hash, w, e, f);
    }
  }

  // --- Sealed and keyed histories -----------------------------------------------------------

  /** After a seal neither the record nor its row ever changes again. */
  lemma SealedIsFinal(env: Env, st: State, ops: seq<Op>, k: RunKey)
    requires Inv(env, st) && Sealed(st, k)
    ensures var later := Run(env, st, ops);
            Rows(later, k) == Rows(st, k) && k in later.runs && later.runs[k] == st.runs[k]
  {
    RunKeeps(env, st, ops);
  }

  /**
   * A keyed append answered once is answered the same for ever: any later append with that key, whatever it
   * carries and whatever has happened since, changes nothing and returns the first result, which still describes
   * the stored event.
   */
  lemma RetriesReturnTheOriginal(
    env: Env, st: State, k: RunKey, key: Text, ops: seq<Op>, first: NewEvent, ts: nat, again: NewEvent, ts': nat)
    requires Inv(env, st)
    requires !OwnRouteOnly(first.kind) && !OwnRouteOnly(again.kind)
    requires RouteAppend(env, st, k, first, Some(key), ts).1.Ok?
    ensures var (st1, r) := RouteAppend(env, st, k, first, Some(key), ts);
            var later := Run(env, st1, ops);
            && RouteAppend(env, later, k, again, Some(key), ts') == (later, r)
            && r.value.seqNo < |Rows(later, k)| && ResultOf(Rows(later, k)[r.value.seqNo]) == r.value
  {
    var (st1, r) := RouteAppend(env, st, k, first, Some(key), ts);
    AppendExactly(env, st, k, first, Some(key), ts);
    AppendKeeps(env, st, k, first, Some(key), ts);
    hide AddsOne, OthersUntouched, RunOk, RunGrew, RouteAppend;
    assert (k, key) in st1.idem && st1.idem[(k, key)] == r.value;
    RunKeeps(env, st1, ops);
    var later := Run(env, st1, ops);
    AppendExactly(env, later, k, again, Some(key), ts');
    assert IdemOk(later, k, later.idem[(k, key)]);
  }
}
