/** The client's paging loop over a record that is being written to (crates/tideline-sdk/src/run.rs). */
module Paging {
  import opened Bytes
  import opened Canon
  import opened Chain
  import opened Metadata
  import opened Ledger
  import opened Interleaving

  /** How much of the record, as nobody writes it any more, is still to be read. */
  function Unread(env: Env, st0: State, k: RunKey, sched: seq<seq<Op>>, read: seq<RunEvent>): nat {
    var n := |Rows(After(env, st0, sched, |sched|), k)|;
    if |read| < n then n - |read| else 0
  }

  /**
   * The pages asked for after `read` has been read with `requests` requests, request `r` meeting the store
   * `After(env, st0, sched, r + 1)`: all that was read in the end, and the number of requests it took.
   */
  function Pages(env: Env, st0: State, k: RunKey, page: nat, sched: seq<seq<Op>>, read: seq<RunEvent>, requests: nat)
    : (seq<RunEvent>, nat)
    requires page >= 1
    decreases if requests < |sched| then |sched| - requests else 0, Unread(env, st0, k, sched, read)
  {
    AfterSettles(env, st0, sched, requests + 1);
    var batch := Page(Rows(After(env, st0, sched, requests + 1), k), |read|, Clamp(page, 1, MAX_PAGE));
    if |batch| < page then (read + batch, requests + 1)
    else Pages(env, st0, k, page, sched, read + batch, requests + 1)
  }

  /** The client's loop, writers running a batch of the schedule before each request. */
  method EventsPaged(env: Env, st0: State, k: RunKey, page: nat, sched: seq<seq<Op>>)
    returns (all: seq<RunEvent>, requests: nat)
    requires Inv(env, st0) && page >= 1
    requires |Rows(st0, k)| + OpsIn(sched) < TWO_TO_THE_63
    ensures (all, requests) == Pages(env, st0, k, page, sched, [], 0)
  {
    hide Inv, Extends, Run, Rows, EventsFrom, AsI64, FirstSeq, Pages, Page, Clamp;
    all, requests := [], 0;
    var from: nat := 0;
    var st := st0;
    FirstSeqIs(0);
    while true
      invariant st == After(env, st0, sched, requests)
      invariant FirstSeq(from) == |all|
      invariant Pages(env, st0, k, page, sched, [], 0) == Pages(env, st0, k, page, sched, all, requests)
      decreases if requests < |sched| then |sched| - requests else 0, Unread(env, st0, k, sched, all)
    {
      OnePage(env, st0, k, page, sched, all, requests);
      st := Run(env, st, Batch(sched, requests));
      requests := requests + 1;
      PageCast(env, st, k, from, |all|, page);
      var batch := EventsFrom(st, k, from, page);
      if |batch| > 0 {
        from := batch[|batch| - 1].seqNo + 1;
      }
      all := all + batch;
      if |batch| < page {
        return;
      }
    }
  }

  /** One request of the loop. */
  lemma OnePage(
    env: Env, st0: State, k: RunKey, page: nat, sched: seq<seq<Op>>, read: seq<RunEvent>, requests: nat)
    requires Inv(env, st0) && page >= 1 && |Rows(st0, k)| + OpsIn(sched) < TWO_TO_THE_63
    ensures var st := After(env, st0, sched, requests + 1);
            var batch := Page(Rows(st, k), |read|, Clamp(page, 1, MAX_PAGE));
            && Inv(env, st) && |Rows(st, k)| < TWO_TO_THE_63
            && Pages(env, st0, k, page, sched, read, requests)
               == (if |batch| < page then (read + batch, requests + 1)
                   else Pages(env, st0, k, page, sched, read + batch, requests + 1))
            && (|batch| >= page && requests >= |sched| ==>
                  Unread(env, st0, k, sched, read + batch) < Unread(env, st0, k, sched, read))
  {
    hide Inv, Extends, Run, Rows, After;
    AfterSettles(env, st0, sched, requests + 1);
    AfterKeeps(env, st0, sched, 0, requests + 1);
    AfterAddsAtMost(env, st0, sched, requests + 1, k);
  }

  lemma PageCast(env: Env, st: State, k: RunKey, from: nat, at: nat, page: nat)
    requires Inv(env, st) && FirstSeq(from) == at && page >= 1 && |Rows(st, k)| < TWO_TO_THE_63
    ensures var batch := EventsFrom(st, k, from, page);
            && batch == Page(Rows(st, k), at, Clamp(page, 1, MAX_PAGE))
            && (batch != [] ==> FirstSeq(batch[|batch| - 1].seqNo + 1) == at + |batch|)
  {
    hide Inv, Rows, AsI64;
    NextPage(env, st, k, from, at, Clamp(page, 1, MAX_PAGE));
  }

  /**
   * The pages read may come from different states, yet together they verify. They are the record as of the last
   * request, and as many requests were made as that takes, exactly when no page asked for is larger than the server
   * gives: otherwise the first page is taken for the last, and holds the first 5000 events at most.
   */
  lemma PagesAreTheRecord(env: Env, st0: State, k: RunKey, page: nat, sched: seq<seq<Op>>)
    requires Inv(env, st0) && k in st0.runs && page >= 1
    ensures var (all, requests) := Pages(env, st0, k, page, sched, [], 0);
            var rows := Rows(After(env, st0, sched, requests), k);
            && requests >= 1 && ReadFrom(env.hash, all, rows, 0) && all != [] && Chained(env.hash, all)
            && |all| == (if page <= MAX_PAGE || |rows| <= MAX_PAGE then |rows| else MAX_PAGE)
            && (page <= MAX_PAGE ==> (requests - 1) * page <= |all| < requests * page)
            && (page > MAX_PAGE ==> requests == 1)
  {
    hide Inv, Extends, Erasure, Run, Rows, Pages, Chained;
    AfterKeeps(env, st0, sched, 0, 0);
    PagesContinue(env, st0, k, page, sched, [], 0);
    var (all, requests) := Pages(env, st0, k, page, sched, [], 0);
    var st := After(env, st0, sched, requests);
    AfterKeeps(env, st0, sched, 0, requests);
    RunIsStillThere(env, st0, st, k);
    ReadingVerifies(env, st, k, all);
  }

  lemma {:induction false} PagesContinue(
    env: Env, st0: State, k: RunKey, page: nat, sched: seq<seq<Op>>, read: seq<RunEvent>, requests: nat)
    requires Inv(env, st0) && page >= 1
    requires ReadFrom(env.hash, read, Rows(After(env, st0, sched, requests), k), 0)
    requires page <= MAX_PAGE ==> |read| == requests * page
    requires page > MAX_PAGE ==> requests == 0 && read == []
    ensures var (all, n) := Pages(env, st0, k, page, sched, read, requests);
            var rows := Rows(After(env, st0, sched, n), k);
            && n > requests && ReadFrom(env.hash, all, rows, 0)
            && |all| == (if page <= MAX_PAGE || |rows| <= MAX_PAGE then |rows| else MAX_PAGE)
            && (page <= MAX_PAGE ==> (n - 1) * page <= |all| < n * page)
            && (page > MAX_PAGE ==> n == 1)
    decreases if requests < |sched| then |sched| - requests else 0, Unread(env, st0, k, sched, read)
  {
    hide Inv, Extends, Erasure, Run, Rows, ReadFrom;
    AfterSettles(env, st0, sched, requests + 1);
    AfterKeeps(env, st0, sched, 0, requests);
    AfterKeeps(env, st0, sched, requests, requests + 1);
    var st := After(env, st0, sched, requests + 1);
    ReadingLasts(env, After(env, st0, sched, requests), st, k, read, 0);
    ReadingGrows(env, st, k, read, 0, Clamp(page, 1, MAX_PAGE));
    ReadIsShorter(env.hash, read, Rows(st, k));
    var batch := Page(Rows(st, k), |read|, Clamp(page, 1, MAX_PAGE));
    if |batch| >= page {
      assert (requests + 1) * page == requests * page + page;
      PagesContinue(env, st0, k, page, sched, read + batch, requests + 1);
    } else {
      assert (requests + 1) * page == requests * page + page;
    }
  }

  lemma ReadIsShorter(h: HashFn, read: seq<RunEvent>, rows: seq<RunEvent>)
    requires ReadFrom(h, read, rows, 0)
    ensures |read| <= |rows|
  {
  }

  lemma RunIsStillThere(env: Env, st: State, st': State, k: RunKey)
    requires Inv(env, st) && Extends(env.hash, st, st') && k in st.runs
    ensures k in st'.runs && |Rows(st', k)| > 0
  {
    RecordIsNonempty(env, st, k);
    RowsGrow(env, st, st', k);
  }
}
