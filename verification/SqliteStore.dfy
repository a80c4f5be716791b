/**
 * The store itself: tables updated in place, one transaction at a time (crates/tideline-server/src/tlr/sqlite.rs).
 *
 * A transaction edits a working copy of the tables. Committing installs the copy; returning without committing
 * rolls back. Every operation is proved against the state machine of `Ledger`.
 */
module SqliteStore {
  import opened Bytes
  import opened Canon
  import opened Chain
  import opened Metadata
  import opened Ledger
  import opened History

  /** `UPDATE tlr_events SET {f} = NULL`. */
  function Blank(e: RunEvent, f: string): RunEvent {
    match f
    case "role" => e.(role := None)
    case "name" => e.(name := None)
    case "content" => e.(content := None)
    case "metadata" => e.(metadata := None)
    case _ => e
  }

  lemma EraseNothing(h: HashFn, row: RunEvent)
    ensures Erase(h, row, {}).(redacted := row.redacted) == row && Digests(h, row, {}) == map[]
    ensures FieldSet([]) == {}
  {
  }

  lemma EraseOneMore(h: HashFn, row: RunEvent, done: set<string>, f: string)
    requires f in REDACTABLE
    ensures Digests(h, row, done + {f})
         == if Value(row, f).Some? then Digests(h, row, done)[f := h(Value(row, f).value)] else Digests(h, row, done)
    ensures var before := Erase(h, row, done).(redacted := row.redacted);
            Erase(h, row, done + {f}).(redacted := row.redacted)
            == if Value(row, f).Some? then Blank(before, f) else before
  {
  }

  lemma EraseRedacted(h: HashFn, row: RunEvent, fields: set<string>)
    ensures Erase(h, row, fields).redacted
         == Some((if row.redacted.Some? then row.redacted.value else map[]) + Digests(h, row, fields))
  {
  }

  class Store {
    const env: Env
    var runs: map<RunKey, RunRow>
    var events: map<RunKey, seq<RunEvent>>
    var idem: map<(RunKey, Text), AppendResult>
    var checkpoints: map<RunKey, map<nat, Checkpoint>>

    function Tables(): State
      reads this
    {
      State(runs, events, idem, checkpoints)
    }

    ghost predicate Valid()
      reads this
    {
      Inv(env, Tables())
    }

    constructor (env: Env)
      ensures Valid() && this.env == env && Tables() == EMPTY
    {
      this.env := env;
      runs, events, idem, checkpoints := map[], map[], map[], map[];
    }

    method Commit(tx: State)
      modifies this
      ensures Tables() == tx
    {
      runs, events, idem, checkpoints := tx.runs, tx.events, tx.idem, tx.checkpoints;
    }

    /** The event becomes the last of its run, the run's row names it as the head, and nothing else changes. */
    method InsertEvent(tx: State, k: RunKey, e: RunEvent) returns (tx': State)
      ensures Rows(tx', k) == Rows(tx, k) + [e]
      ensures k in tx.runs ==> k in tx'.runs && tx'.runs[k].headSeq == e.seqNo && tx'.runs[k].headHash == e.hash
                               && tx'.runs[k].endedTs == tx.runs[k].endedTs
      ensures OthersUntouched(tx, tx', k) && tx'.idem == tx.idem && tx'.checkpoints == tx.checkpoints
      ensures tx' == WriteEvent(tx, k, e)
    {
      tx' := tx.(events := tx.events[k := Rows(tx, k) + [e]]);
      if k in tx'.runs {
        var row := tx'.runs[k];
        tx' := tx'.(runs := tx'.runs[k := row.(headSeq := e.seqNo, headHash := e.hash)]);
      }
    }

    /**
     * The append inside a transaction: refused exactly on a missing or sealed run; otherwise the submitted event is
     * added, numbered and linked after the head the run's row names, and the result describes it.
     */
    method AppendTo(tx: State, k: RunKey, ev: NewEvent, ts: nat) returns (r: Result<(State, AppendResult), StoreError>)
      ensures r.Ok? <==> Open(tx, k)
      ensures r.Err? ==> r.error == Refusal(tx, k)
      ensures r.Ok? ==>
                var (tx', res) := r.value;
                && |Rows(tx', k)| == |Rows(tx, k)| + 1 && Rows(tx', k)[..|Rows(tx, k)|] == Rows(tx, k)
                && OthersUntouched(tx, tx', k) && tx'.idem == tx.idem && tx'.checkpoints == tx.checkpoints
                && var e := Last(Rows(tx', k));
                   && NewEvent(e.kind, e.role, e.name, e.content, e.metadata) == ev && e.redacted == None && e.ts == ts
                   && e.seqNo == tx.runs[k].headSeq + 1 && e.prevHash == tx.runs[k].headHash
                   && e.hash == EventHash(env.hash, e, e.prevHash) && res == ResultOf(e)
      ensures r == AppendInTx(env, tx, k, ev, ts)
    {
      if k in tx.runs {
        MadeEventHashes(env.hash, tx.runs[k].headSeq + 1, ts, ev, tx.runs[k].headHash);
      }
      hide MakeEvent, EventHash;
      if k !in tx.runs {
        return Err(NotFound);
      }
      if tx.runs[k].endedTs.Some? {
        return Err(Conflict);
      }
      var e := MakeEvent(env.hash, tx.runs[k].headSeq + 1, ts, ev, tx.runs[k].headHash);
      var tx' := InsertEvent(tx, k, e);
      r := Ok((tx', ResultOf(e)));
    }

    method CreateRun(k: RunKey, new_: NewRun, ts: nat) returns (r: Result<AppendResult, StoreError>)
      requires Valid()
      modifies this
      ensures Valid() && (Tables(), r) == Ledger.CreateRun(env, old(Tables()), k, new_, ts)
    {
      CreateKeeps(env, Tables(), k, new_, ts);
      var tx := Tables();
      if k in tx.runs {
        return Err(Conflict);
      }
      var e := MakeEvent(env.hash, 0, ts, EnvelopeEvent(env, k, new_), ZERO);
      tx := tx.(runs := tx.runs[k := RunRow(ts, None, new_.agentName, new_.agentVersion, new_.subjectRef,
          new_.labels, 0, e.hash)]);
      tx := InsertEvent(tx, k, e);
      Commit(tx);
      r := Ok(ResultOf(e));
    }

    /** The handler's guard on the kind, then one keyed append. */
    method Append(k: RunKey, ev: NewEvent, key: Option<Text>, ts: nat) returns (r: Result<AppendResult, StoreError>)
      requires Valid()
      modifies this
      ensures Valid() && (Tables(), r) == RouteAppend(env, old(Tables()), k, ev, key, ts)
    {
      if ev.kind == RunStarted || ev.kind == RunFinished || ev.kind == Redaction {
        return Err(Invalid);
      }
      AppendKeeps(env, Tables(), k, ev, key, ts);
      var tx := Tables();
      if key.Some? && (k, key.value) in tx.idem {
        return Ok(tx.idem[(k, key.value)]);
      }
      var appended := AppendTo(tx, k, ev, ts);
      if appended.Err? {
        return Err(appended.error);
      }
      var res := appended.value.1;
      tx := appended.value.0;
      if key.Some? {
        tx := tx.(idem := tx.idem[(k, key.value) := res]);
      }
      Commit(tx);
      r := Ok(res);
    }

    /** The range read; `from` is cast to a signed integer on its way into the query. */
    method Events(k: RunKey, from: nat, limit: nat) returns (out: seq<RunEvent>)
      requires Valid()
      ensures out == EventsFrom(Tables(), k, from, limit)
    {
      hide Inv, Rows, EventsFrom, AsI64;
      RowsAreNumbered(env, Tables(), k);
      out := ScanFrom(Rows(Tables(), k), AsI64(from), Clamp(limit, 1, MAX_PAGE));
      ScanIsEventsFrom(Tables(), k, from, limit, out);
    }

    static lemma ScanIsEventsFrom(st: State, k: RunKey, from: nat, limit: nat, out: seq<RunEvent>)
      requires out == Page(Rows(st, k), if AsI64(from) < 0 then 0 else AsI64(from), Clamp(limit, 1, MAX_PAGE))
      ensures out == EventsFrom(st, k, from, limit)
    {
      hide Rows, AsI64;
    }

    /** The ordered range read over a run's rows. */
    static method ScanFrom(rows: seq<RunEvent>, from: int, n: nat) returns (out: seq<RunEvent>)
      requires forall i :: 0 <= i < |rows| ==> rows[i].seqNo == i
      requires n >= 1
      ensures out == Page(rows, if from < 0 then 0 else from, n)
    {
      out := [];
      ghost var first := if from < 0 then 0 else from;
      var i: nat := 0;
      while i < |rows| && |out| < n
        invariant i <= |rows|
        invariant out == if i <= first then [] else rows[first..i]
        invariant |out| <= n
      {
        if rows[i].seqNo >= from {
          out := out + [rows[i]];
        }
        i := i + 1;
      }
    }

    method Seal(k: RunKey, ts: nat) returns (r: Result<AppendResult, StoreError>)
      requires Valid()
      modifies this
      ensures Valid() && (Tables(), r) == Ledger.Seal(env, old(Tables()), k, ts)
    {
      SealKeeps(env, Tables(), k, ts);
      var tx := Tables();
      var head := HeadOf(tx, k);
      if head.Err? {
        return Err(head.error);
      }
      var appended := AppendTo(tx, k, FinishEvent(env, head.value.0), ts);
      var res := appended.value.1;
      tx := appended.value.0;
      if k in tx.runs {
        tx := tx.(runs := tx.runs[k := tx.runs[k].(endedTs := Some(res.ts))]);
      }
      Commit(tx);
      r := Ok(res);
    }

    /** The column-by-column erasure loop over the field list, repeats included. */
    method EraseFields(row: RunEvent, fields: seq<string>) returns (erased: RunEvent)
      requires FieldSet(fields) <= REDACTABLE
      ensures erased == Erase(env.hash, row, FieldSet(fields))
    {
      hide Erase, Digests, Blank;
      var kept := if row.redacted.Some? then row.redacted.value else map[];
      ghost var base := kept;
      erased := row;
      EraseNothing(env.hash, row);
      for i := 0 to |fields|
        invariant kept == base + Digests(env.hash, row, FieldSet(fields[..i]))
        invariant erased == Erase(env.hash, row, FieldSet(fields[..i])).(redacted := row.redacted)
      {
        var f := fields[i];
        assert f in FieldSet(fields);
        assert fields[..i + 1] == fields[..i] + [f];
        assert FieldSet(fields[..i + 1]) == FieldSet(fields[..i]) + {f};
        EraseOneMore(env.hash, row, FieldSet(fields[..i]), f);
        var present := Value(row, f);
        if present.Some? {
          kept := kept[f := env.hash(present.value)];
          erased := Blank(erased, f);
        }
      }
      assert fields[..|fields|] == fields;
      erased := erased.(redacted := Some(kept));
      EraseRedacted(env.hash, row, FieldSet(fields));
    }

    method Redact(k: RunKey, target: nat, fields: seq<string>, authority: Text, ts: nat)
      returns (r: Result<AppendResult, StoreError>)
      requires Valid()
      modifies this
      ensures Valid() && (Tables(), r) == Ledger.Redact(env, old(Tables()), k, target, fields, authority, ts)
    {
      RedactKeeps(env, Tables(), k, target, fields, authority, ts);
      for i := 0 to |fields|
        invariant forall j :: 0 <= j < i ==> fields[j] in REDACTABLE
      {
        if fields[i] !in REDACTABLE {
          assert fields[i] in FieldSet(fields);
          return Err(Invalid);
        }
      }
      var tx := Tables();
      if target >= |Rows(tx, k)| {
        return Err(NotFound);
      }
      var erased := EraseFields(Rows(tx, k)[target], fields);
      tx := tx.(events := tx.events[k := Rows(tx, k)[target := erased]]);
      var appended := AppendTo(tx, k, RedactionEvent(env, target, fields, authority), ts);
      if appended.Err? {
        return Err(appended.error);
      }
      Commit(appended.value.0);
      r := Ok(appended.value.1);
    }

    method PutCheckpoint(k: RunKey, cp: Checkpoint)
      requires Valid()
      modifies this
      ensures Valid() && Tables() == Ledger.PutCheckpoint(old(Tables()), k, cp)
    {
      CheckpointKeeps(env, Tables(), k, cp);
      checkpoints := checkpoints[k := CheckpointsOf(Tables(), k)[cp.seqNo := cp]];
    }

    /** `ORDER BY seq DESC LIMIT 1`. */
    method LatestCheckpoint(k: RunKey) returns (r: Option<Checkpoint>)
      ensures r == None <==> CheckpointsOf(Tables(), k) == map[]
      ensures r.Some? ==> exists s :: && s in CheckpointsOf(Tables(), k) && CheckpointsOf(Tables(), k)[s] == r.value
                                      && forall t :: t in CheckpointsOf(Tables(), k) ==> t <= s
    {
      var rest, stored := CheckpointsOf(Tables(), k).Keys, CheckpointsOf(Tables(), k);
      if rest == {} {
        assert stored == map[];
        return None;
      }
      var best :| best in rest;
      while rest != {}
        invariant rest <= stored.Keys && best in stored
        invariant forall t :: t in stored && t !in rest ==> t <= best
        decreases |rest|
      {
        var s :| s in rest;
        rest := rest - {s};
        if s > best {
          best := s;
        }
      }
      r := Some(stored[best]);
    }
  }
}
