/** Writers running between the steps of a reader: a schedule gives the batch of operations before each step. */
module Interleaving {
  import opened Bytes
  import opened Canon
  import opened Chain
  import opened Metadata
  import opened Ledger

  function Batch(sched: seq<seq<Op>>, n: nat): seq<Op> {
    if n < |sched| then sched[n] else []
  }

  /** The store after the first `n` batches; once the schedule is used up nobody writes any more. */
  function After(env: Env, st: State, sched: seq<seq<Op>>, n: nat): State {
    if n == 0 then st else Run(env, After(env, st, sched, n - 1), Batch(sched, n - 1))
  }

  lemma RunNothing(env: Env, st: State)
    ensures Run(env, st, []) == st
  {
  }

  /** The operations of the first `n` batches, in order. */
  function FirstOps(sched: seq<seq<Op>>, n: nat): seq<Op> {
    if n == 0 then [] else FirstOps(sched, n - 1) + Batch(sched, n - 1)
  }

  /** How a reader's steps cut the writers' operations up makes no difference to where these lead. */
  lemma {:induction false} AfterIsRun(env: Env, st: State, sched: seq<seq<Op>>, n: nat)
    ensures After(env, st, sched, n) == Run(env, st, FirstOps(sched, n))
    decreases n
  {
    hide Run;
    if n == 0 {
      RunNothing(env, st);
    } else {
      AfterIsRun(env, st, sched, n - 1);
      RunJoin(env, st, FirstOps(sched, n - 1), Batch(sched, n - 1));
    }
  }

  lemma {:induction false} AfterKeeps(env: Env, st: State, sched: seq<seq<Op>>, m: nat, n: nat)
    requires Inv(env, st) && m <= n
    ensures Inv(env, After(env, st, sched, m)) && Inv(env, After(env, st, sched, n))
    ensures Extends(env.hash, After(env, st, sched, m), After(env, st, sched, n))
    decreases n
  {
    hide Inv, Extends, Run;
    if n == 0 {
      ExtendsReflexive(env.hash, st);
    } else if m < n {
      AfterKeeps(env, st, sched, m, n - 1);
      RunKeeps(env, After(env, st, sched, n - 1), Batch(sched, n - 1));
      ExtendsTransitive(env.hash, After(env, st, sched, m), After(env, st, sched, n - 1), After(env, st, sched, n));
    } else {
      AfterKeeps(env, st, sched, n - 1, n - 1);
      RunKeeps(env, After(env, st, sched, n - 1), Batch(sched, n - 1));
      ExtendsReflexive(env.hash, After(env, st, sched, n));
    }
  }

  /** Each event of `read` is an earlier form of the event stored at its place, counting from `from`. */
  ghost predicate ReadFrom(h: HashFn, read: seq<RunEvent>, rows: seq<RunEvent>, from: nat) {
    && (read != [] ==> from + |read| <= |rows|)
    && forall i :: 0 <= i < |read| ==> read[i].seqNo == from + i && Erasure(h, read[i], rows[from + i])
  }

  /** What was read stays a true reading however the store grows. */
  lemma ReadingLasts(env: Env, st: State, st': State, k: RunKey, read: seq<RunEvent>, from: nat)
    requires Inv(env, st) && Extends(env.hash, st, st')
    requires ReadFrom(env.hash, read, Rows(st, k), from)
    ensures ReadFrom(env.hash, read, Rows(st', k), from)
  {
    if read != [] {
      assert RunGrew(env.hash, st.runs[k], Rows(st, k), st'.runs[k], Rows(st', k));
      hide Inv, Extends, Erasure;
      forall i | 0 <= i < |read| ensures Erasure(env.hash, read[i], Rows(st', k)[from + i]) {
        ErasureTransitive(env.hash, read[i], Rows(st, k)[from + i], Rows(st', k)[from + i]);
      }
    }
  }

  lemma RowsGrow(env: Env, st: State, st': State, k: RunKey)
    requires Inv(env, st) && Extends(env.hash, st, st')
    ensures |Rows(st, k)| <= |Rows(st', k)|
  {
    if k in st.runs {
      assert RunGrew(env.hash, st.runs[k], Rows(st, k), st'.runs[k], Rows(st', k));
    }
  }

  /** One more page extends a reading. */
  lemma ReadingGrows(env: Env, st: State, k: RunKey, read: seq<RunEvent>, from: nat, n: nat)
    requires Inv(env, st) && ReadFrom(env.hash, read, Rows(st, k), from)
    ensures ReadFrom(env.hash, read + Page(Rows(st, k), from + |read|, n), Rows(st, k), from)
  {
    hide Inv, Erasure;
    RowsAreNumbered(env, st, k);
    ErasuresReflexive(env.hash, Rows(st, k));
  }

  /** What the store returns from just past a reading, as long as the record is short enough for the cast. */
  lemma NextPage(env: Env, st: State, k: RunKey, next: nat, at: nat, limit: nat)
    requires Inv(env, st) && FirstSeq(next) == at && 1 <= limit <= MAX_PAGE && |Rows(st, k)| < TWO_TO_THE_63
    ensures var batch := EventsFrom(st, k, next, limit);
            && batch == Page(Rows(st, k), at, limit)
            && (batch != [] ==> batch[|batch| - 1].seqNo + 1 == at + |batch|
                                && FirstSeq(batch[|batch| - 1].seqNo + 1) == at + |batch|)
  {
    hide Inv, AsI64;
    RowsAreNumbered(env, st, k);
    var batch := EventsFrom(st, k, next, limit);
    if batch != [] {
      assert batch[|batch| - 1] == Rows(st, k)[at + |batch| - 1];
      FirstSeqIs(at + |batch|);
    }
  }

  lemma {:induction false} AfterSettles(env: Env, st: State, sched: seq<seq<Op>>, n: nat)
    ensures n >= |sched| ==> After(env, st, sched, n) == After(env, st, sched, |sched|)
    decreases n
  {
    if n > |sched| {
      AfterSettles(env, st, sched, n - 1);
    }
  }

  /** How many operations a schedule holds. */
  function OpsIn(sched: seq<seq<Op>>): nat {
    if sched == [] then 0 else OpsIn(sched[..|sched| - 1]) + |sched[|sched| - 1]|
  }

  /** A run's record is never longer than what there was and one event for each operation. */
  lemma {:induction false} AfterAddsAtMost(env: Env, st: State, sched: seq<seq<Op>>, n: nat, k: RunKey)
    ensures |Rows(After(env, st, sched, n), k)| <= |Rows(st, k)| + OpsIn(sched[..if n <= |sched| then n else |sched|])
    ensures OpsIn(sched[..if n <= |sched| then n else |sched|]) <= OpsIn(sched)
    decreases n
  {
    hide Run, Rows;
    OpsInPrefix(sched, if n <= |sched| then n else |sched|);
    if n > 0 {
      AfterAddsAtMost(env, st, sched, n - 1, k);
      RunAddsAtMost(env, After(env, st, sched, n - 1), Batch(sched, n - 1), k);
      if n <= |sched| {
        assert sched[..n][..n - 1] == sched[..n - 1];
      }
    }
  }

  lemma {:induction false} OpsInPrefix(sched: seq<seq<Op>>, n: nat)
    requires n <= |sched|
    ensures OpsIn(sched[..n]) <= OpsIn(sched)
    decreases |sched|
  {
    if n < |sched| {
      OpsInPrefix(sched[..|sched| - 1], n);
      assert sched[..|sched| - 1][..n] == sched[..n];
    } else {
      assert sched[..n] == sched;
    }
  }

  /** A reading from the beginning of a run verifies, although its pages come from different states. */
  lemma ReadingVerifies(env: Env, st: State, k: RunKey, read: seq<RunEvent>)
    requires Inv(env, st) && k in st.runs
    requires ReadFrom(env.hash, read, Rows(st, k), 0) && read != []
    ensures Chained(env.hash, read)
  {
    hide Canonical;
    var rows := Rows(st, k);
    assert RunOk(env, k, st.runs[k], rows);
    forall i | 0 <= i < |read| ensures LinkedAt(env.hash, read, i) {
      assert LinkedAt(env.hash, rows, i);
      assert Erasure(env.hash, read[i], rows[i]);
      ErasureKeepsCanon(env.hash, read[i], rows[i]);
      assert i > 0 ==> Erasure(env.hash, read[i - 1], rows[i - 1]);
    }
  }
}
