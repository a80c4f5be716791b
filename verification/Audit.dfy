/**
 * An audit end to end: a record paged out of a serving system (crates/tideline-sdk/src/run.rs) and checked offline
 * against a checkpoint (crates/tideline-cli/src/main.rs).
 */
module Audit {
  import opened Bytes
  import opened Canon
  import opened Chain
  import opened Metadata
  import opened Ledger
  import opened Checkpoints
  import opened Interleaving
  import opened Paging
  import opened Verifier

  // --- Handlers as the store's writers ---------------------------------------------------------------

  /** What one step of the server asks of the store. */
  function OpsOfStep(env: Env, keys: Keyring, sv: Server, step: Step): seq<Op> {
    match step
    case Direct(op) => if op.OpCheckpoint? then [] else [op]
    case AppendRoute(k, ev, key, ts) => [OpAppend(k, ev, key, ts)]
    case CompleteRoute(k, ts) => [OpSeal(k, ts)]
    case Proceed(task, ts) =>
      if task in sv.tasks && task.SignAndPut?
      then [OpCheckpoint(task.k, SignHead(env.hash, keys, task.k.run, task.seqNo, task.head, ts))]
      else []
    case Abandon(_) => []
  }

  function OpsOf(env: Env, keys: Keyring, every: nat, sv: Server, steps: seq<Step>): seq<Op>
    decreases |steps|
  {
    if steps == [] then []
    else OpsOfStep(env, keys, sv, steps[0]) + OpsOf(env, keys, every, Advance(env, keys, every, sv, steps[0]),
        steps[1..])
  }

  lemma StepIsOps(env: Env, keys: Keyring, every: nat, sv: Server, step: Step)
    ensures Run(env, sv.st, OpsOfStep(env, keys, sv, step)) == Advance(env, keys, every, sv, step).st
  {
    hide RouteAppend, Seal, CreateRun, Redact, PutCheckpoint, SignHead, CheckpointsOf;
    var ops := OpsOfStep(env, keys, sv, step);
    if ops != [] {
      assert ops[1..] == [];
    }
  }

  /** To the store, a server is one more writer. */
  lemma {:induction false} ServingIsRunning(env: Env, keys: Keyring, every: nat, sv: Server, steps: seq<Step>)
    ensures Run(env, sv.st, OpsOf(env, keys, every, sv, steps)) == Serve(env, keys, every, sv, steps).st
    decreases |steps|
  {
    hide Advance, OpsOfStep, Run;
    if steps == [] {
      RunNothing(env, sv.st);
    } else {
      var next := Advance(env, keys, every, sv, steps[0]);
      StepIsOps(env, keys, every, sv, steps[0]);
      ServingIsRunning(env, keys, every, next, steps[1..]);
      RunJoin(env, sv.st, OpsOfStep(env, keys, sv, steps[0]), OpsOf(env, keys, every, next, steps[1..]));
    }
  }

  function Turn(turns: seq<seq<Step>>, n: nat): seq<Step> {
    if n < |turns| then turns[n] else []
  }

  /** The server after the first `n` batches of steps. */
  function ServerAfter(env: Env, keys: Keyring, every: nat, sv: Server, turns: seq<seq<Step>>, n: nat): Server {
    if n == 0 then sv
    else Serve(env, keys, every, ServerAfter(env, keys, every, sv, turns, n - 1), Turn(turns, n - 1))
  }

  /** The same batches as the store meets them. */
  function Writes(env: Env, keys: Keyring, every: nat, sv: Server, turns: seq<seq<Step>>): (sched: seq<seq<Op>>)
    ensures |sched| == |turns|
  {
    seq(|turns|, n requires 0 <= n < |turns| => OpsOf(env, keys, every, ServerAfter(env, keys, every, sv, turns, n),
        turns[n]))
  }

  lemma WritesAt(env: Env, keys: Keyring, every: nat, sv: Server, turns: seq<seq<Step>>, n: nat)
    ensures Batch(Writes(env, keys, every, sv, turns), n)
         == OpsOf(env, keys, every, ServerAfter(env, keys, every, sv, turns, n), Turn(turns, n))
  {
    hide Advance, OpsOfStep, ServerAfter;
  }

  /** A store whose only writer is the server goes through the server's states. */
  lemma {:induction false} ServerAfterIs(
    env: Env, keys: Keyring, every: nat, sv: Server, turns: seq<seq<Step>>, n: nat)
    requires ServerOk(env, keys, sv)
    ensures After(env, sv.st, Writes(env, keys, every, sv, turns), n) == ServerAfter(env, keys, every, sv, turns, n).st
    ensures ServerOk(env, keys, ServerAfter(env, keys, every, sv, turns, n))
    decreases n
  {
    hide ServerOk, Extends, Run, Serve, OpsOf, Writes, Batch, Turn;
    if n > 0 {
      var before := ServerAfter(env, keys, every, sv, turns, n - 1);
      ServerAfterIs(env, keys, every, sv, turns, n - 1);
      WritesAt(env, keys, every, sv, turns, n - 1);
      ServingIsRunning(env, keys, every, before, Turn(turns, n - 1));
      ServeKeeps(env, keys, every, before, Turn(turns, n - 1));
    }
  }

  // --- What the pages begin with ----------------------------------------------------------------------

  lemma {:induction false} PagesKeepWhatWasRead(
    env: Env, st0: State, k: RunKey, page: nat, sched: seq<seq<Op>>, read: seq<RunEvent>, requests: nat)
    requires page >= 1
    ensures read <= Pages(env, st0, k, page, sched, read, requests).0
    decreases if requests < |sched| then |sched| - requests else 0, Unread(env, st0, k, sched, read)
  {
    hide Run, Rows;
    AfterSettles(env, st0, sched, requests + 1);
    var batch := Page(Rows(After(env, st0, sched, requests + 1), k), |read|, Clamp(page, 1, MAX_PAGE));
    if |batch| >= page {
      PagesKeepWhatWasRead(env, st0, k, page, sched, read + batch, requests + 1);
    }
  }

  /** The first event read is the run's first event as the first request found it. */
  lemma FirstRead(env: Env, st0: State, k: RunKey, page: nat, sched: seq<seq<Op>>)
    requires page >= 1 && Rows(After(env, st0, sched, 1), k) != []
    ensures var all := Pages(env, st0, k, page, sched, [], 0).0;
            all != [] && all[0] == Rows(After(env, st0, sched, 1), k)[0]
  {
    hide Run, Rows, After;
    var batch := Page(Rows(After(env, st0, sched, 1), k), 0, Clamp(page, 1, MAX_PAGE));
    assert [] + batch == batch;
    AfterSettles(env, st0, sched, 1);
    if |batch| >= page {
      PagesKeepWhatWasRead(env, st0, k, page, sched, batch, 1);
    }
  }

  // --- The audit -------------------------------------------------------------------------------------

  /** The verdict on a record that verifies. */
  function VerdictOf(events: seq<RunEvent>): ChainOk
    requires events != []
  {
    ChainOk(|events|, |events| - 1, Last(events).hash, Last(events).kind.RunFinished?)
  }

  lemma PagedNamesRun(env: Env, keys: Keyring, sv: Server, k: RunKey, all: seq<RunEvent>, cp: Checkpoint)
    requires Faithful(env) && ServerOk(env, keys, sv) && k in sv.st.runs && cp.run == k.run
    requires all != [] && all[0] == Rows(sv.st, k)[0]
    ensures NamesRun(env, cp, all)
  {
    assert RunOk(env, k, sv.st.runs[k], Rows(sv.st, k));
    hide Chained;
  }

  /** A true checkpoint covers a reading of the run exactly when the reading goes that far. */
  lemma TrueCovers(env: Env, keys: Keyring, sv: Server, k: RunKey, all: seq<RunEvent>, s: nat)
    requires ServerOk(env, keys, sv) && s in CheckpointsOf(sv.st, k)
    requires ReadFrom(env.hash, all, Rows(sv.st, k), 0)
    ensures var cp := CheckpointsOf(sv.st, k)[s];
            && cp.run == k.run && (Covers(cp, all) <==> s < |all|)
            && cp.sig == keys.sign(CheckpointCanon(env.hash, cp))
  {
    hide Inv, CheckpointCanon, TaskTrue;
    var cp := CheckpointsOf(sv.st, k)[s];
    assert CheckpointTrue(env, keys, sv.st, k, s, cp);
    if s < |all| {
      assert Erasure(env.hash, all[s], Rows(sv.st, k)[s]);
    }
  }

  /**
   * An auditor pages a run out of a server that goes on serving: appending, redacting, sealing and signing between the
   * requests. What was read verifies, and passes the check against a checkpoint the server has stored by then or
   * stores at any later time exactly when that checkpoint is of an event that was read.
   */
  lemma PagedRecordPasses(
    env: Env, keys: Keyring, every: nat, before: seq<Step>, turns: seq<seq<Step>>, later: seq<Step>, k: RunKey,
    page: nat, s: nat, verifies: (Bytes, Text) -> bool)
    requires Faithful(env) && page >= 1
    requires forall m :: verifies(m, keys.sign(m))
    requires k in Serve(env, keys, every, START, before).st.runs
    requires var sv := Serve(env, keys, every, START, before);
             var requests := Pages(env, sv.st, k, page, Writes(env, keys, every, sv, turns), [], 0).1;
             var end := Serve(env, keys, every, ServerAfter(env, keys, every, sv, turns, requests), later);
             s in CheckpointsOf(end.st, k)
    ensures var sv := Serve(env, keys, every, START, before);
            var (all, requests) := Pages(env, sv.st, k, page, Writes(env, keys, every, sv, turns), [], 0);
            var end := Serve(env, keys, every, ServerAfter(env, keys, every, sv, turns, requests), later);
            && all != [] && Chained(env.hash, all)
            && (CheckCheckpoint(env, Some(CheckpointsOf(end.st, k)[s]), PublicKey(verifies), all, VerdictOf(all)) == OK
                <==> s < |all|)
  {
    hide Serve, Pages, Writes, ServerAfter, Chained, Extends, Inv, ServerOk, CheckCheckpoint, CheckpointCanon, After;
    hide ReadFrom;
    hide NamesRun, Covers, CheckpointsOf, Rows;
    ServerStarts(env, keys);
    ServeKeeps(env, keys, every, START, before);
    var sv := Serve(env, keys, every, START, before);
    var sched := Writes(env, keys, every, sv, turns);
    ServerIsSound(env, keys, sv);
    PagesAreTheRecord(env, sv.st, k, page, sched);
    var (all, requests) := Pages(env, sv.st, k, page, sched, [], 0);
    var last := ServerAfter(env, keys, every, sv, turns, requests);
    ServerAfterIs(env, keys, every, sv, turns, requests);
    ServeKeeps(env, keys, every, last, later);
    var end := Serve(env, keys, every, last, later);
    ServerIsSound(env, keys, last);
    ReadingLasts(env, last.st, end.st, k, all, 0);
    TrueCovers(env, keys, end, k, all, s);
    var cp := CheckpointsOf(end.st, k)[s];
    PagedFromServer(env, keys, every, sv, turns, k, page, cp);
    AcceptsExactly(env, cp, PublicKey(verifies), all, VerdictOf(all));
  }

  lemma ServerIsSound(env: Env, keys: Keyring, sv: Server)
    requires ServerOk(env, keys, sv)
    ensures Inv(env, sv.st)
  {
  }

  lemma PagedFromServer(
    env: Env, keys: Keyring, every: nat, sv: Server, turns: seq<seq<Step>>, k: RunKey, page: nat, cp: Checkpoint)
    requires Faithful(env) && ServerOk(env, keys, sv) && k in sv.st.runs && page >= 1 && cp.run == k.run
    ensures NamesRun(env, cp, Pages(env, sv.st, k, page, Writes(env, keys, every, sv, turns), [], 0).0)
  {
    hide Pages, Writes, ServerAfter, Extends, Inv, ServerOk, NamesRun, Rows, After;
    var sched := Writes(env, keys, every, sv, turns);
    ServerIsSound(env, keys, sv);
    ServerAfterIs(env, keys, every, sv, turns, 0);
    ServerAfterIs(env, keys, every, sv, turns, 1);
    AfterKeeps(env, sv.st, sched, 0, 1);
    AfterNone(env, sv.st, sched);
    RunIsStillThere(env, sv.st, After(env, sv.st, sched, 1), k);
    FirstRead(env, sv.st, k, page, sched);
    PagedNamesRun(env, keys, ServerAfter(env, keys, every, sv, turns, 1), k,
                  Pages(env, sv.st, k, page, sched, [], 0).0, cp);
  }

  lemma AfterNone(env: Env, st: State, sched: seq<seq<Op>>)
    ensures After(env, st, sched, 0) == st
  {
  }
}
