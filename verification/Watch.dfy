/** The live tail of a record: the spine wakes it and the store feeds it (tlr/routes.rs, watch). */
module Watch {
  import opened Bytes
  import opened Canon
  import opened Metadata
  import opened Ledger
  import opened Interleaving
  import opened Spine

  const WATCH_PAGE: nat := 500

  /** A spine signal, and what writers commit while the watch waits for it. */
  datatype Beat = Beat(before: seq<Op>, signal: Signal)

  /** How a watch ends; `Waiting` is a watch still blocked on a spine that has nothing more to say yet. */
  datatype End = Ended | Failed(message: Text) | Waiting

  /** The verdict the spine's signals call for: tokens and gaps only wake the reader, whatever their offsets. */
  function EndOf(beats: seq<Beat>, closes: bool): End {
    if beats == [] then (if closes then Ended else Waiting)
    else
      match beats[0].signal
      case Tok(_) => EndOf(beats[1..], closes)
      case Gap => EndOf(beats[1..], closes)
      case Error(m) => Failed(m)
      case Done => Ended
  }

  /** All that writers commit while the watch waits for signals, up to the one that ends it. */
  function Awaited(beats: seq<Beat>, closing: Option<seq<Op>>): seq<Op> {
    if beats == [] then (if closing.Some? then closing.value else [])
    else if beats[0].signal.Done? || beats[0].signal.Error? then beats[0].before
    else beats[0].before + Awaited(beats[1..], closing)
  }

  // --- The watch as a function of what happens around it ------------------------------------------

  function FirstBatch(during: seq<seq<Op>>): seq<Op> {
    if during == [] then [] else during[0]
  }

  function LaterBatches(during: seq<seq<Op>>): seq<seq<Op>> {
    if during == [] then [] else during[1..]
  }

  /** How many events of the record are still to be sent. */
  function Unsent(env: Env, st0: State, k: RunKey, base: nat, done: seq<Op>, sent: seq<RunEvent>): nat {
    var n := |Rows(Run(env, st0, done), k)|;
    if base + |sent| < n then n - (base + |sent|) else 0
  }

  /** What had been committed, and sent, when a drain was over, and the batches left for later reads. */
  datatype Drained = Drained(done: seq<Op>, sent: seq<RunEvent>, during: seq<seq<Op>>)

  /**
   * Read pages of 500 from just past what was sent, `base` being where the watch began, until a short one; before
   * each read another batch of `during` is committed, as long as there is one. `done` is all committed before.
   */
  function Draining(
    env: Env, st0: State, k: RunKey, base: nat, done: seq<Op>, sent: seq<RunEvent>, during: seq<seq<Op>>): Drained
    decreases |during|, Unsent(env, st0, k, base, done, sent)
  {
    var done' := done + FirstBatch(during);
    var batch := Page(Rows(Run(env, st0, done'), k), base + |sent|, WATCH_PAGE);
    if |batch| < WATCH_PAGE then Drained(done', sent + batch, LaterBatches(during))
    else
      assert during == [] ==> done' == done;
      Draining(env, st0, k, base, done', sent + batch, LaterBatches(during))
  }

  /** What was sent and how it ended; what had been committed `before` the signal that ended it came, and by the end. */
  datatype Outcome = Outcome(sent: seq<RunEvent>, end: End, before: seq<Op>, done: seq<Op>)

  /** Drain, wait for a signal, and so on; after a terminal, or when the spine closes, drain once more. */
  function Watching(
    env: Env, st0: State, k: RunKey, base: nat, done: seq<Op>, sent: seq<RunEvent>, during: seq<seq<Op>>,
    beats: seq<Beat>, closing: Option<seq<Op>>): Outcome
    decreases |beats|
  {
    var d := Draining(env, st0, k, base, done, sent, during);
    if beats == [] then
      match closing
      case None => Outcome(d.sent, Waiting, d.done, d.done)
      case Some(ops) => LastDrain(env, st0, k, base, d.done + ops, d.sent, d.during)
    else
      var arrived := d.done + beats[0].before;
      match beats[0].signal
      case Tok(_) => Watching(env, st0, k, base, arrived, d.sent, d.during, beats[1..], closing)
      case Gap => Watching(env, st0, k, base, arrived, d.sent, d.during, beats[1..], closing)
      case Error(m) => Outcome(d.sent, Failed(m), arrived, arrived)
      case Done => LastDrain(env, st0, k, base, arrived, d.sent, d.during)
  }

  function LastDrain(
    env: Env, st0: State, k: RunKey, base: nat, arrived: seq<Op>, sent: seq<RunEvent>, during: seq<seq<Op>>): Outcome
  {
    var last := Draining(env, st0, k, base, arrived, sent, during);
    Outcome(last.sent, Ended, arrived, last.done)
  }

  // --- The loops -------------------------------------------------------------------------------------

  /** How many operations may still be committed. */
  function OpsAhead(during: seq<seq<Op>>, beats: seq<Beat>, closing: Option<seq<Op>>): nat
    decreases |during|, |beats|
  {
    (if during == [] then 0 else |during[0]| + OpsAhead(during[1..], [], None))
    + (if beats == [] then 0 else |beats[0].before| + OpsAhead([], beats[1..], None))
    + (if closing.Some? then |closing.value| else 0)
  }

  /** The record cannot grow past what a signed 64-bit integer counts. */
  ghost predicate Fits(env: Env, st0: State, k: RunKey, done: seq<Op>, ahead: nat) {
    |Rows(st0, k)| + |done| + ahead < TWO_TO_THE_63
  }

  lemma FitsNow(env: Env, st0: State, k: RunKey, done: seq<Op>, ahead: nat)
    requires Fits(env, st0, k, done, ahead)
    ensures |Rows(Run(env, st0, done), k)| < TWO_TO_THE_63
  {
    RunAddsAtMost(env, st0, done, k);
  }

  /** The inner loop of the watch. */
  method Drain(
    env: Env, st0: State, k: RunKey, ghost base: nat, st: State, ghost done: seq<Op>, next: nat, sent: seq<RunEvent>,
    during: seq<seq<Op>>, ghost ahead: nat)
    returns (st': State, ghost done': seq<Op>, next': nat, sent': seq<RunEvent>, during': seq<seq<Op>>)
    requires Inv(env, st0) && st == Run(env, st0, done) && FirstSeq(next) == base + |sent|
    requires Fits(env, st0, k, done, OpsAhead(during, [], None) + ahead)
    ensures Drained(done', sent', during') == Draining(env, st0, k, base, done, sent, during)
    ensures st' == Run(env, st0, done') && FirstSeq(next') == base + |sent'|
    ensures Fits(env, st0, k, done', OpsAhead(during', [], None) + ahead)
  {
    hide Inv, Run, Rows, EventsFrom, AsI64, FirstSeq, Extends, Draining, OpsAhead, Fits;
    st', done', next', sent', during' := st, done, next, sent, during;
    while true
      invariant st' == Run(env, st0, done') && FirstSeq(next') == base + |sent'|
      invariant Fits(env, st0, k, done', OpsAhead(during', [], None) + ahead)
      invariant Draining(env, st0, k, base, done, sent, during) == Draining(env, st0, k, base, done', sent', during')
      decreases |during'|, Unsent(env, st0, k, base, done', sent')
    {
      RunJoin(env, st0, done', FirstBatch(during'));
      OneRead(env, st0, k, base, done', sent', during', ahead);
      st' := Run(env, st', FirstBatch(during'));
      done' := done' + FirstBatch(during');
      during' := LaterBatches(during');
      RunKeeps(env, st0, done');
      NextPage(env, st', k, next', base + |sent'|, WATCH_PAGE);
      var batch := EventsFrom(st', k, next', WATCH_PAGE);
      var drained := |batch|;
      ghost var held := sent';
      for i := 0 to |batch|
        invariant sent' == held + batch[..i]
        invariant i > 0 ==> next' == batch[i - 1].seqNo + 1
        invariant i == 0 ==> FirstSeq(next') == base + |held|
      {
        next' := batch[i].seqNo + 1;
        sent' := sent' + [batch[i]];
      }
      assert sent' == held + batch;
      if drained < WATCH_PAGE {
        return;
      }
    }
  }

  lemma AheadShrinks(during: seq<seq<Op>>)
    ensures OpsAhead(during, [], None) == |FirstBatch(during)| + OpsAhead(LaterBatches(during), [], None)
  {
  }

  /** One read of a drain. */
  lemma OneRead(
    env: Env, st0: State, k: RunKey, base: nat, done: seq<Op>, sent: seq<RunEvent>, during: seq<seq<Op>>, ahead: nat)
    requires Inv(env, st0) && Fits(env, st0, k, done, OpsAhead(during, [], None) + ahead)
    ensures var done', rest := done + FirstBatch(during), LaterBatches(during);
            var batch := Page(Rows(Run(env, st0, done'), k), base + |sent|, 500);
            && Draining(env, st0, k, base, done, sent, during)
               == (if |batch| < 500 then Drained(done', sent + batch, rest)
                   else Draining(env, st0, k, base, done', sent + batch, rest))
            && Fits(env, st0, k, done', OpsAhead(rest, [], None) + ahead)
            && |Rows(Run(env, st0, done'), k)| < TWO_TO_THE_63
            && (during == [] ==> done' == done)
            && (|batch| >= 500 ==>
                  |rest| < |during| || Unsent(env, st0, k, base, done', sent + batch) < Unsent(env, st0, k, base,
                      done, sent))
  {
    hide Inv, Run, Rows, OpsAhead;
    var done' := done + FirstBatch(during);
    assert during == [] ==> done' == done;
    AheadShrinks(during);
    FitsNow(env, st0, k, done', OpsAhead(LaterBatches(during), [], None) + ahead);
  }

  /** The watch, over a spine and writers that do as `beats`, `closing` and `during` say. */
  method Watch(
    env: Env, st0: State, k: RunKey, from: nat, during: seq<seq<Op>>, beats: seq<Beat>, closing: Option<seq<Op>>)
    returns (sent: seq<RunEvent>, end: End)
    requires Inv(env, st0) && |Rows(st0, k)| + OpsAhead(during, beats, closing) < TWO_TO_THE_63
    ensures var o := Watching(env, st0, k, FirstSeq(from), [], [], during, beats, closing);
            sent == o.sent && end == o.end
  {
    hide Inv, Run, Rows, AsI64, Draining, FirstSeq;
    ghost var base := FirstSeq(from);
    var st, next, left := st0, from, during;
    ghost var done: seq<Op> := [];
    sent := [];
    var heard, finished := 0, false;
    AheadSplits(during, beats, closing);
    NothingRun(env, st0);
    while true
      invariant 0 <= heard <= |beats| && st == Run(env, st0, done) && FirstSeq(next) == base + |sent|
      invariant Fits(env, st0, k, done,
                     OpsAhead(left, [], None) + if finished then 0 else OpsAhead([], beats[heard..], closing))
      invariant Watching(env, st0, k, base, [], [], during, beats, closing)
             == if finished then LastDrain(env, st0, k, base, done, sent, left)
                else Watching(env, st0, k, base, done, sent, left, beats[heard..], closing)
      decreases |beats| - heard, !finished
    {
      ghost var ahead := if finished then 0 else OpsAhead([], beats[heard..], closing);
      st, done, next, sent, left := Drain(env, st0, k, base, st, done, next, sent, left, ahead);
      if finished {
        end := Ended;
        return;
      }
      if heard == |beats| {
        if closing.None? {
          end := Waiting;
          return;
        }
        RunJoin(env, st0, done, closing.value);
        st, done := Run(env, st, closing.value), done + closing.value;
        finished := true;
        continue;
      }
      var beat := beats[heard];
      assert beats[heard..][0] == beat && beats[heard..][1..] == beats[heard + 1..];
      RunJoin(env, st0, done, beat.before);
      st, done := Run(env, st, beat.before), done + beat.before;
      heard := heard + 1;
      match beat.signal
      case Tok(_) =>
      case Gap =>
      case Error(m) =>
        end := Failed(m);
        return;
      case Done =>
        finished := true;
    }
  }

  lemma AheadSplits(during: seq<seq<Op>>, beats: seq<Beat>, closing: Option<seq<Op>>)
    ensures OpsAhead(during, beats, closing) == OpsAhead(during, [], None) + OpsAhead([], beats, closing)
  {
  }

  lemma NothingRun(env: Env, st: State)
    ensures Run(env, st, []) == st
  {
  }

  // --- What is delivered -------------------------------------------------------------------------------

  /** Draining sends the next events in order and leaves none that its last read could see. */
  lemma {:induction false} DrainDelivers(
    env: Env, st0: State, k: RunKey, base: nat, done: seq<Op>, sent: seq<RunEvent>, during: seq<seq<Op>>)
    requires Inv(env, st0) && ReadFrom(env.hash, sent, Rows(Run(env, st0, done), k), base)
    ensures var d := Draining(env, st0, k, base, done, sent, during);
            && done <= d.done && sent <= d.sent
            && ReadFrom(env.hash, d.sent, Rows(Run(env, st0, d.done), k), base)
            && |Rows(Run(env, st0, d.done), k)| <= base + |d.sent|
    decreases |during|, Unsent(env, st0, k, base, done, sent)
  {
    hide Inv, Run, Rows, Extends, Erasure, ReadFrom;
    var done' := done + FirstBatch(during);
    assert during == [] ==> done' == done;
    GoesOn(env, st0, k, base, done, FirstBatch(during), sent);
    ReadingGrows(env, Run(env, st0, done'), k, sent, base, WATCH_PAGE);
    var batch := Page(Rows(Run(env, st0, done'), k), base + |sent|, WATCH_PAGE);
    if |batch| >= WATCH_PAGE {
      DrainDelivers(env, st0, k, base, done', sent + batch, LaterBatches(during));
    }
  }

  /** More commits leave what was sent a true reading. */
  lemma GoesOn(env: Env, st0: State, k: RunKey, base: nat, done: seq<Op>, ops: seq<Op>, sent: seq<RunEvent>)
    requires Inv(env, st0) && ReadFrom(env.hash, sent, Rows(Run(env, st0, done), k), base)
    ensures Inv(env, Run(env, st0, done + ops))
    ensures ReadFrom(env.hash, sent, Rows(Run(env, st0, done + ops), k), base)
    ensures |Rows(Run(env, st0, done), k)| <= |Rows(Run(env, st0, done + ops), k)|
  {
    hide Inv, Extends, Erasure, Rows, ReadFrom;
    RunJoin(env, st0, done, ops);
    RunKeeps(env, st0, done);
    RunKeeps(env, Run(env, st0, done), ops);
    ReadingLasts(env, Run(env, st0, done), Run(env, st0, done + ops), k, sent, base);
    RowsGrow(env, Run(env, st0, done), Run(env, st0, done + ops), k);
  }

  /** Every operation of `part` is among those of `whole`. */
  ghost predicate Within(part: seq<Op>, whole: seq<Op>) {
    multiset(part) <= multiset(whole)
  }

  /** What a watch in mid-course still promises. */
  ghost predicate Delivers(
    env: Env, st0: State, k: RunKey, base: nat, done: seq<Op>, awaited: seq<Op>, end: End, o: Outcome)
  {
    && o.end == end && done <= o.before <= o.done && Within(awaited, o.before[|done|..])
    && ReadFrom(env.hash, o.sent, Rows(Run(env, st0, o.done), k), base)
    && (!o.end.Failed? ==> |Rows(Run(env, st0, o.before), k)| <= base + |o.sent|)
  }

  lemma WithinGrows(done: seq<Op>, ops: seq<Op>, more: seq<Op>, rest: seq<Op>, whole: seq<Op>)
    requires done + ops + more <= whole && Within(rest, whole[|done + ops + more|..])
    ensures done <= whole && Within(more + rest, whole[|done|..])
  {
    var tail := whole[|done + ops + more|..];
    assert whole == done + ops + more + tail;
    assert whole[|done|..] == ops + more + tail;
  }

  lemma WithinEnds(done: seq<Op>, ops: seq<Op>, more: seq<Op>)
    ensures Within(more, (done + ops + more)[|done|..])
  {
    WithinGrows(done, ops, more, [], done + ops + more);
    assert more + [] == more;
  }

  lemma {:induction false} WatchContinues(
    env: Env, st0: State, k: RunKey, base: nat, done: seq<Op>, sent: seq<RunEvent>, during: seq<seq<Op>>,
    beats: seq<Beat>, closing: Option<seq<Op>>)
    requires Inv(env, st0) && ReadFrom(env.hash, sent, Rows(Run(env, st0, done), k), base)
    ensures Delivers(env, st0, k, base, done, Awaited(beats, closing), EndOf(beats, closing.Some?),
                     Watching(env, st0, k, base, done, sent, during, beats, closing))
    decreases |beats|
  {
    hide Inv, Run, Rows, ReadFrom, Draining, Within;
    var d := Draining(env, st0, k, base, done, sent, during);
    DrainDelivers(env, st0, k, base, done, sent, during);
    var ops := d.done[|done|..];
    assert d.done == done + ops;
    if beats == [] {
      if closing.None? {
        WithinEnds(done, ops, []);
        assert done + ops + [] == d.done;
      } else {
        WithinEnds(done, ops, closing.value);
        LastDelivers(env, st0, k, base, d.done, closing.value, d.sent, d.during);
      }
    } else {
      var more := beats[0].before;
      GoesOn(env, st0, k, base, d.done, more, d.sent);
      match beats[0].signal
      case Error(m) => WithinEnds(done, ops, more);
      case Done =>
        WithinEnds(done, ops, more);
        LastDelivers(env, st0, k, base, d.done, more, d.sent, d.during);
      case _ =>
        WatchContinues(env, st0, k, base, d.done + more, d.sent, d.during, beats[1..], closing);
        var o := Watching(env, st0, k, base, d.done + more, d.sent, d.during, beats[1..], closing);
        WithinGrows(done, ops, more, Awaited(beats[1..], closing), o.before);
    }
  }

  lemma LastDelivers(
    env: Env, st0: State, k: RunKey, base: nat, done: seq<Op>, ops: seq<Op>, sent: seq<RunEvent>, during: seq<seq<Op>>)
    requires Inv(env, st0) && ReadFrom(env.hash, sent, Rows(Run(env, st0, done), k), base)
    ensures var o := LastDrain(env, st0, k, base, done + ops, sent, during);
            && o.end == Ended && o.before == done + ops && o.before <= o.done
            && ReadFrom(env.hash, o.sent, Rows(Run(env, st0, o.done), k), base)
            && |Rows(Run(env, st0, o.before), k)| <= base + |o.sent|
  {
    hide Inv, Run, Rows, ReadFrom, Draining;
    GoesOn(env, st0, k, base, done, ops, sent);
    DrainDelivers(env, st0, k, base, done + ops, sent, during);
    var last := Draining(env, st0, k, base, done + ops, sent, during);
    var after := last.done[|done + ops|..];
    assert last.done == done + ops + after;
    GoesOn(env, st0, k, base, done + ops, after, sent);
  }

  /**
   * The watch delivers the record. Whatever tokens and gaps the spine produces and whatever is written meanwhile, the
   * events sent are those from `base` on, each once, in record order, each as the record held it. It ends as the first
   * terminal signal says. Unless that was an error, everything committed by the time that signal came has been sent,
   * and that includes all that was committed while the watch waited for it and for every signal before it; a watch
   * still waiting has sent everything its last read could see. `base` is `from`, exactly below 2^63.
   */
  lemma WatchDelivers(
    env: Env, st0: State, k: RunKey, from: nat, during: seq<seq<Op>>, beats: seq<Beat>, closing: Option<seq<Op>>)
    requires Inv(env, st0) && from < TWO_TO_THE_64
    ensures var base := if from < TWO_TO_THE_63 then from else 0;
            var o := Watching(env, st0, k, FirstSeq(from), [], [], during, beats, closing);
            && ReadFrom(env.hash, o.sent, Rows(Run(env, st0, o.done), k), base)
            && o.end == EndOf(beats, closing.Some?) && o.before <= o.done
            && Within(Awaited(beats, closing), o.before)
            && (!o.end.Failed? ==> |Rows(Run(env, st0, o.before), k)| <= base + |o.sent|)
  {
    hide Inv, Run, Rows, Watching, Awaited;
    FirstSeqIs(from);
    var o := Watching(env, st0, k, FirstSeq(from), [], [], during, beats, closing);
    WatchContinues(env, st0, k, FirstSeq(from), [], [], during, beats, closing);
    assert o.before[0..] == o.before;
  }
}
