/** The in-memory resumable stream and its readers (crates/tideline-server/src/stream.rs). */
module Stream {
  import opened Bytes
  import opened Spine

  /** Capacity of the broadcast channel: a receiver further behind than this has lagged. */
  const CHANNEL: nat := 1024

  /**
   * The locked state, and `sent`, everything ever put on the broadcast channel. Sending happens under the lock, so
   * `sent` is in the order of the operations.
   */
  datatype Inner = Inner(
    tokens: seq<Token>, nextOffset: nat, complete: bool, error: Option<Text>, maxBuffer: nat, sent: seq<Signal>)

  function New(maxBuffer: nat): Inner {
    Inner([], 0, false, None, if maxBuffer < 1 then 1 else maxBuffer, [])
  }

  function LastN<T>(s: seq<T>, n: nat): seq<T> {
    if |s| <= n then s else s[|s| - n..]
  }

  function Publish(s: Inner, data: Text): Inner {
    var token := Token(s.nextOffset, data);
    s.(nextOffset := s.nextOffset + 1, tokens := LastN(s.tokens + [token], s.maxBuffer), sent := s.sent + [Tok(token)])
  }

  predicate Terminal(s: Inner) {
    s.complete || s.error.Some?
  }

  function Finish(s: Inner): Inner {
    if Terminal(s) then s else s.(complete := true, sent := s.sent + [Done])
  }

  function Fail(s: Inner, message: Text): Inner {
    if Terminal(s) then s else s.(error := Some(message), sent := s.sent + [Error(message)])
  }

  datatype PubOp = OpPublish(data: Text) | OpComplete | OpFail(message: Text)

  function ApplyPub(s: Inner, op: PubOp): Inner {
    match op
    case OpPublish(data) => Publish(s, data)
    case OpComplete => Finish(s)
    case OpFail(message) => Fail(s, message)
  }

  function RunPub(s: Inner, ops: seq<PubOp>): Inner
    decreases |ops|
  {
    if ops == [] then s else RunPub(ApplyPub(s, ops[0]), ops[1..])
  }

  function Batch(sched: seq<seq<PubOp>>, n: nat): seq<PubOp> {
    if n < |sched| then sched[n] else []
  }

  /** The stream after the first `n` batches of its publishers. */
  function After(s: Inner, sched: seq<seq<PubOp>>, n: nat): Inner {
    if n == 0 then s else RunPub(After(s, sched, n - 1), Batch(sched, n - 1))
  }

  // --- The published log ------------------------------------------------------------------

  /** Every token ever published, in order. */
  function Log(sent: seq<Signal>): seq<Token> {
    if sent == [] then []
    else
      var before, last := Log(sent[..|sent| - 1]), sent[|sent| - 1];
      if last.Tok? then before + [last.token] else before
  }

  predicate IsTerminal(sig: Signal) {
    sig.Done? || sig.Error?
  }

  /** The position of the first terminal signal, or `|sent|`. */
  function TermPos(sent: seq<Signal>): (p: nat)
    ensures p <= |sent|
    ensures p < |sent| ==> IsTerminal(sent[p])
    ensures forall i :: 0 <= i < p ==> !IsTerminal(sent[i])
  {
    if sent == [] then 0
    else if IsTerminal(sent[0]) then 0
    else 1 + TermPos(sent[1..])
  }

  /** The signals a reader of this terminal ends with. */
  function Tail(term: Signal): seq<Signal> {
    if term.Error? then [term, Done] else [Done]
  }

  function Toks(tokens: seq<Token>): seq<Signal> {
    seq(|tokens|, i requires 0 <= i < |tokens| => Tok(tokens[i]))
  }

  /** The deque is the last `maxBuffer` tokens of the log, offsets are positions, and the flags say what was sent. */
  ghost predicate StreamOk(s: Inner) {
    && s.maxBuffer >= 1
    && s.nextOffset == |Log(s.sent)|
    && s.tokens == LastN(Log(s.sent), s.maxBuffer)
    && (forall i :: 0 <= i < |Log(s.sent)| ==> Log(s.sent)[i].offset == i)
    && (forall i :: 0 <= i < |s.sent| ==> s.sent[i] != Gap)
    && (forall i :: TermPos(s.sent) < i < |s.sent| ==> !IsTerminal(s.sent[i]))
    && (Terminal(s) <==> TermPos(s.sent) < |s.sent|)
    && (TermPos(s.sent) < |s.sent| ==>
          var t := s.sent[TermPos(s.sent)];
          s.complete == t.Done? && s.error == if t.Error? then Some(t.message) else None)
  }

  lemma LogPush(sent: seq<Signal>, sig: Signal)
    ensures Log(sent + [sig]) == if sig.Tok? then Log(sent) + [sig.token] else Log(sent)
  {
    assert (sent + [sig])[..|sent|] == sent;
  }

  lemma {:induction false} TermPosPush(sent: seq<Signal>, sig: Signal)
    ensures TermPos(sent + [sig])
         == if TermPos(sent) < |sent| then TermPos(sent) else if IsTerminal(sig) then |sent| else |sent| + 1
  {
    var longer := sent + [sig];
    var p, q := TermPos(sent), TermPos(longer);
    assert longer[|sent|] == sig;
    assert forall i :: 0 <= i < |sent| ==> IsTerminal(longer[i]) == IsTerminal(sent[i]);
    if p < |sent| {
      assert IsTerminal(sent[p]) == IsTerminal(longer[p]);
    }
  }

  /** `part` is the last `n` elements of `whole`, or all of them if there are no more. */
  ghost predicate AreLast<T>(part: seq<T>, whole: seq<T>, n: nat) {
    |part| == (if |whole| <= n then |whole| else n) && part == whole[|whole| - |part|..]
  }

  /** The last `n` of a sequence: at most `n`, all of them if there are no more, and none but the last. */
  lemma LastNIs<T>(s: seq<T>, n: nat)
    ensures AreLast(LastN(s, n), s, n)
  {
  }

  lemma LastNPush<T>(s: seq<T>, x: T, n: nat)
    requires n >= 1
    ensures LastN(LastN(s, n) + [x], n) == LastN(s + [x], n)
  {
  }

  lemma ApplyPubKeeps(s: Inner, op: PubOp)
    requires StreamOk(s)
    ensures StreamOk(ApplyPub(s, op)) && s.sent <= ApplyPub(s, op).sent
  {
    match op
    case OpPublish(data) =>
      PublishKeeps(s, data);
    case OpComplete =>
      TerminalKeeps(s, Finish(s), Done);
    case OpFail(message) =>
      TerminalKeeps(s, Fail(s, message), Error(message));
  }

  lemma PublishKeeps(s: Inner, data: Text)
    requires StreamOk(s)
    ensures StreamOk(Publish(s, data))
  {
    hide Log, TermPos, LastN;
    var token := Token(s.nextOffset, data);
    LogPush(s.sent, Tok(token));
    TermPosPush(s.sent, Tok(token));
    LastNPush(Log(s.sent), token, s.maxBuffer);
    NoNewTerminal(s.sent, Tok(token));
    hide IsTerminal;
  }

  lemma NoNewTerminal(sent: seq<Signal>, sig: Signal)
    requires !IsTerminal(sig) && forall i :: TermPos(sent) < i < |sent| ==> !IsTerminal(sent[i])
    ensures forall i :: TermPos(sent) < i < |sent + [sig]| ==> !IsTerminal((sent + [sig])[i])
    ensures forall i :: 0 <= i < |sent| ==> (sent + [sig])[i] == sent[i]
  {
  }

  lemma TerminalKeeps(s: Inner, s': Inner, sig: Signal)
    requires StreamOk(s) && (sig.Done? || sig.Error?)
    requires s' == (if Terminal(s) then s
                    else if sig.Done? then s.(complete := true, sent := s.sent + [sig])
                    else s.(error := Some(sig.message), sent := s.sent + [sig]))
    ensures StreamOk(s')
  {
    LogPush(s.sent, sig);
    TermPosPush(s.sent, sig);
    hide Log, TermPos;
    assert forall i :: 0 <= i < |s.sent| ==> (s.sent + [sig])[i] == s.sent[i];
  }

  lemma {:induction false} RunPubKeeps(s: Inner, ops: seq<PubOp>)
    requires StreamOk(s)
    ensures StreamOk(RunPub(s, ops)) && s.sent <= RunPub(s, ops).sent
    decreases |ops|
  {
    hide StreamOk, ApplyPub;
    if ops != [] {
      ApplyPubKeeps(s, ops[0]);
      RunPubKeeps(ApplyPub(s, ops[0]), ops[1..]);
    }
  }

  /** All the operations of a schedule, in order. */
  function Flat<T>(sched: seq<seq<T>>): seq<T> {
    if sched == [] then [] else Flat(sched[..|sched| - 1]) + sched[|sched| - 1]
  }

  lemma {:induction false} RunPubJoin(s: Inner, a: seq<PubOp>, b: seq<PubOp>)
    ensures RunPub(s, a + b) == RunPub(RunPub(s, a), b)
    decreases |a|
  {
    hide ApplyPub;
    if a == [] {
      assert a + b == b;
    } else {
      RunPubJoin(ApplyPub(s, a[0]), a[1..], b);
      assert (a + b)[1..] == a[1..] + b;
    }
  }

  /** How the operations are batched makes no difference to where they lead. */
  lemma {:induction false} AfterIsRun(s: Inner, sched: seq<seq<PubOp>>, n: nat)
    requires n <= |sched|
    ensures After(s, sched, n) == RunPub(s, Flat(sched[..n]))
    decreases n
  {
    hide RunPub;
    if n == 0 {
      RunPubNone(s);
    } else {
      AfterIsRun(s, sched, n - 1);
      assert sched[..n][..n - 1] == sched[..n - 1];
      RunPubJoin(s, Flat(sched[..n - 1]), sched[n - 1]);
    }
  }

  lemma RunPubNone(s: Inner)
    ensures RunPub(s, []) == s
  {
  }

  lemma {:induction false} AfterKeeps(s: Inner, sched: seq<seq<PubOp>>, m: nat, n: nat)
    requires StreamOk(s) && m <= n
    ensures StreamOk(After(s, sched, m)) && StreamOk(After(s, sched, n))
    ensures After(s, sched, m).sent <= After(s, sched, n).sent
    decreases n
  {
    hide StreamOk, RunPub;
    if m < n {
      AfterKeeps(s, sched, m, n - 1);
      RunPubKeeps(After(s, sched, n - 1), Batch(sched, n - 1));
    } else if n > 0 {
      AfterKeeps(s, sched, n - 1, n - 1);
      RunPubKeeps(After(s, sched, n - 1), Batch(sched, n - 1));
    }
  }

  lemma {:induction false} LogPrefix(a: seq<Signal>, b: seq<Signal>)
    requires a <= b
    ensures Log(a) <= Log(b)
    decreases |b|
  {
    if a != b {
      var shorter := b[..|b| - 1];
      assert a <= shorter;
      LogPrefix(a, shorter);
    }
  }

  lemma {:induction false} NoTokensAdded(a: seq<Signal>, b: seq<Signal>)
    requires forall i :: 0 <= i < |b| ==> !b[i].Tok?
    ensures Log(a + b) == Log(a)
    decreases |b|
  {
    if b == [] {
      assert a + b == a;
    } else {
      NoTokensAdded(a, b[..|b| - 1]);
      assert (a + b)[..|a + b| - 1] == a + b[..|b| - 1];
    }
  }

  // --- Snapshots ----------------------------------------------------------------------------

  function Earliest(s: Inner): nat {
    if s.tokens == [] then s.nextOffset else s.tokens[0].offset
  }

  datatype Snapshot = Snapshot(tokens: seq<Token>, complete: bool, error: Option<Text>, total: nat, gap: bool)

  function KeepFrom(tokens: seq<Token>, from: nat): seq<Token> {
    if tokens == [] then []
    else (if tokens[0].offset >= from then [tokens[0]] else []) + KeepFrom(tokens[1..], from)
  }

  function Max(a: nat, b: nat): nat {
    if a >= b then a else b
  }

  function Min(a: nat, b: nat): nat {
    if a <= b then a else b
  }

  function SnapshotFrom(s: Inner, from: nat): Snapshot {
    Snapshot(KeepFrom(s.tokens, Max(from, Earliest(s))), s.complete, s.error, s.nextOffset, from < Earliest(s))
  }

  /** Where a reader that asked for `from` starts. */
  function StartOf(s: Inner, from: nat): nat {
    Min(Max(from, Earliest(s)), s.nextOffset)
  }

  lemma {:induction false} KeepFromIsSuffix(tokens: seq<Token>, first: nat, from: nat)
    requires forall i :: 0 <= i < |tokens| ==> tokens[i].offset == first + i
    ensures KeepFrom(tokens, from)
         == if from <= first then tokens else if from - first <= |tokens| then tokens[from - first..] else []
  {
    if tokens != [] {
      KeepFromIsSuffix(tokens[1..], first + 1, from);
    }
  }

  lemma LastNIsSuffix(log: seq<Token>, n: nat)
    requires n >= 1
    ensures |LastN(log, n)| <= |log| && LastN(log, n) == log[|log| - |LastN(log, n)|..]
    ensures LastN(log, n) == [] <==> log == []
  {
  }

  lemma DropDrop(log: seq<Token>, first: nat, k: nat)
    requires first + k <= |log|
    ensures log[first..][k..] == log[first + k..]
  {
  }

  lemma KeptIsSuffix(log: seq<Token>, first: nat, from: nat)
    requires first <= |log| && first <= from
    requires forall i :: 0 <= i < |log| ==> log[i].offset == i
    ensures KeepFrom(log[first..], from) == log[Min(from, |log|)..]
  {
    hide KeepFrom;
    var tokens := log[first..];
    KeepFromIsSuffix(tokens, first, from);
    if from <= |log| {
      DropDrop(log, first, from - first);
    } else {
      assert log[|log|..] == [];
    }
  }

  lemma EarliestIs(s: Inner)
    requires StreamOk(s)
    ensures s.nextOffset == |Log(s.sent)| && Earliest(s) <= |Log(s.sent)| && s.tokens == Log(s.sent)[Earliest(s)..]
  {
    hide Log, TermPos, LastN;
    LastNIsSuffix(Log(s.sent), s.maxBuffer);
  }

  /**
   * A stream retains the last `maxBuffer` tokens of its log and no more, so a reader is told of a gap exactly when it
   * asks for an offset more than `maxBuffer` before the end.
   */
  lemma RetainsTheLast(s: Inner, from: nat)
    requires StreamOk(s)
    ensures |s.tokens| == (if |Log(s.sent)| <= s.maxBuffer then |Log(s.sent)| else s.maxBuffer)
    ensures Earliest(s) == |Log(s.sent)| - |s.tokens| && s.tokens == Log(s.sent)[Earliest(s)..]
    ensures SnapshotFrom(s, from).gap <==> from + s.maxBuffer < |Log(s.sent)|
  {
    hide Log, TermPos, LastN, KeepFrom;
    LastNIs(Log(s.sent), s.maxBuffer);
  }

  /** Publishing: the token is the next of the log, and the deque the last `maxBuffer` of the log with it. */
  lemma PublishExactly(s: Inner, data: Text)
    requires StreamOk(s)
    ensures var s' := Publish(s, data);
            && Log(s'.sent) == Log(s.sent) + [Token(|Log(s.sent)|, data)] && s.nextOffset == |Log(s.sent)|
            && AreLast(s'.tokens, Log(s'.sent), s.maxBuffer)
  {
    hide Log, TermPos, LastN;
    PublishKeeps(s, data);
    LogPush(s.sent, Tok(Token(s.nextOffset, data)));
    RetainsTheLast(Publish(s, data), 0);
  }

  /** Whatever is published, the capacity stays the one the stream was made with, which is at least one. */
  lemma {:induction false} CapacityStays(s: Inner, ops: seq<PubOp>)
    ensures RunPub(s, ops).maxBuffer == s.maxBuffer
    decreases |ops|
  {
    if ops != [] {
      CapacityStays(ApplyPub(s, ops[0]), ops[1..]);
    }
  }

  /** So from a new stream on, whatever its publishers do. */
  lemma GapExactlyWhen(capacity: nat, ops: seq<PubOp>, from: nat)
    ensures var s := RunPub(New(capacity), ops);
            var n, m := |Log(s.sent)|, if capacity == 0 then 1 else capacity;
            && SnapshotFrom(s, from).tokens == Log(s.sent)[Min(Max(from, if n <= m then 0 else n - m), n)..]
            && (SnapshotFrom(s, from).gap <==> from + m < n)
  {
    hide RunPub, SnapshotFrom, Log;
    NewIsOk(capacity);
    RunPubKeeps(New(capacity), ops);
    CapacityStays(New(capacity), ops);
    var s := RunPub(New(capacity), ops);
    RetainsTheLast(s, from);
    SnapshotIsSuffix(s, from);
    hide StreamOk;
  }

  lemma NewIsOk(capacity: nat)
    ensures StreamOk(New(capacity)) && New(capacity).maxBuffer == if capacity == 0 then 1 else capacity
  {
  }

  /** A snapshot is the retained part of the log from the starting offset on. */
  lemma SnapshotIsSuffix(s: Inner, from: nat)
    requires StreamOk(s)
    ensures Earliest(s) <= s.nextOffset == |Log(s.sent)|
    ensures SnapshotFrom(s, from).tokens == Log(s.sent)[StartOf(s, from)..]
  {
    hide Log, KeepFrom, TermPos, Earliest, LastN;
    EarliestIs(s);
    KeptIsSuffix(Log(s.sent), Earliest(s), Max(from, Earliest(s)));
  }

  // --- One reader -----------------------------------------------------------------------------

  datatype ReadEnd = Ended | Lagged | Waiting

  /**
   * What a reader that started at `start` and got as far as `upto` has emitted, `term` being the terminal it ended
   * on, if any.
   */
  function Emitted(log: seq<Token>, gap: bool, start: nat, upto: nat, term: Option<Signal>): seq<Signal>
    requires start <= upto <= |log|
  {
    (if gap then [Gap] else []) + Toks(log[start..upto]) + (if term.Some? then Tail(term.value) else [])
  }

  /** The number of tokens that were published before the terminal, or at all. */
  function TokensBeforeTerm(sent: seq<Signal>): nat {
    |Log(sent[..TermPos(sent)])|
  }

  lemma EmittedPush(log: seq<Token>, longer: seq<Token>, gap: bool, start: nat, upto: nat, out: seq<Signal>)
    requires start <= upto <= |log| && log <= longer
    requires out == Emitted(log, gap, start, upto, None)
    ensures out == Emitted(longer, gap, start, upto, None)
    ensures upto < |longer| ==> out + [Tok(longer[upto])] == Emitted(longer, gap, start, upto + 1, None)
    ensures forall t :: out + Tail(t) == Emitted(longer, gap, start, upto, Some(t))
  {
    assert longer[start..upto] == log[start..upto];
    if upto < |longer| {
      assert longer[start..upto + 1] == longer[start..upto] + [longer[upto]];
      assert Toks(longer[start..upto + 1]) == Toks(longer[start..upto]) + [Tok(longer[upto])];
    }
  }

  // --- The reader as a function of the schedule ---------------------------------------------------

  /** What a reader emitted, how it ended, and how many batches of publishers had run by then. */
  datatype Reading = Reading(out: seq<Signal>, end: ReadEnd, steps: nat)

  lemma {:induction false} AfterSettles(s: Inner, sched: seq<seq<PubOp>>, n: nat)
    ensures n >= |sched| ==> After(s, sched, n) == After(s, sched, |sched|)
    decreases n
  {
    if n > |sched| {
      AfterSettles(s, sched, n - 1);
    }
  }

  /**
   * Receiving from position `pos` of the channel, one attempt after each batch from `steps` on: `total` is where the
   * snapshot ended, and a receiver with nothing left to wait for is left waiting.
   */
  function Live(s0: Inner, sched: seq<seq<PubOp>>, steps: nat, pos: nat, total: nat): Reading
    decreases if steps < |sched| then |sched| - steps else 0,
              if pos < |After(s0, sched, |sched|).sent| then |After(s0, sched, |sched|).sent| - pos else 0
  {
    AfterSettles(s0, sched, steps + 1);
    var sent := After(s0, sched, steps + 1).sent;
    if pos + CHANNEL < |sent| then Reading([], Lagged, steps + 1)
    else if pos >= |sent| then
      if steps + 1 >= |sched| then Reading([], Waiting, steps + 1) else Live(s0, sched, steps + 1, pos, total)
    else
      match sent[pos]
      case Tok(token) =>
        var rest := Live(s0, sched, steps + 1, pos + 1, total);
        if token.offset >= total then rest.(out := [sent[pos]] + rest.out) else rest
      case Error(e) => Reading([Error(e), Done], Ended, steps + 1)
      case Done => Reading([Done], Ended, steps + 1)
      case Gap => Live(s0, sched, steps + 1, pos + 1, total)
  }

  /** Subscribe after batch 0, snapshot after batch 1, then receive after each further batch. */
  function Read(s0: Inner, from: nat, sched: seq<seq<PubOp>>): Reading {
    var snap := SnapshotFrom(After(s0, sched, 2), from);
    var head := (if snap.gap then [Gap] else []) + Toks(snap.tokens);
    if snap.error.Some? then Reading(head + [Error(snap.error.value), Done], Ended, 2)
    else if snap.complete then Reading(head + [Done], Ended, 2)
    else
      var live := Live(s0, sched, 2, |After(s0, sched, 1).sent|, snap.total);
      live.(out := head + live.out)
  }

  /** The reader's loop, publishers running a batch of the schedule before each of its steps. */
  method ReadStream(s0: Inner, from: nat, sched: seq<seq<PubOp>>) returns (out: seq<Signal>, end: ReadEnd, steps: nat)
    requires StreamOk(s0)
    ensures Reading(out, end, steps) == Read(s0, from, sched)
  {
    hide StreamOk, RunPub, SnapshotFrom, Toks;
    var s := After(s0, sched, 1);
    var pos: nat := |s.sent|;

    s := After(s0, sched, 2);
    var snap := SnapshotFrom(s, from);
    out := if snap.gap then [Gap] else [];
    out := out + Toks(snap.tokens);
    steps := 2;
    if snap.error.Some? {
      out := out + [Error(snap.error.value), Done];
      end := Ended;
      return;
    }
    if snap.complete {
      out := out + [Done];
      end := Ended;
      return;
    }

    while true
      invariant s == After(s0, sched, steps)
      invariant var live := Live(s0, sched, steps, pos, snap.total);
                Read(s0, from, sched) == live.(out := out + live.out)
      decreases if steps < |sched| then |sched| - steps else 0,
                if pos < |After(s0, sched, |sched|).sent| then |After(s0, sched, |sched|).sent| - pos else 0
    {
      AfterSettles(s0, sched, steps + 1);
      s := RunPub(s, Batch(sched, steps));
      steps := steps + 1;
      if pos + CHANNEL < |s.sent| {
        end := Lagged;
        return;
      }
      if pos >= |s.sent| {
        if steps >= |sched| {
          end := Waiting;
          return;
        }
        continue;
      }
      var sig := s.sent[pos];
      pos := pos + 1;
      match sig
      case Tok(token) =>
        if token.offset >= snap.total {
          ghost var rest := Live(s0, sched, steps, pos, snap.total).out;
          assert out + ([sig] + rest) == out + [sig] + rest;
          out := out + [sig];
        }
      case Error(e) =>
        out := out + [sig, Done];
        end := Ended;
        return;
      case Done =>
        out := out + [sig];
        end := Ended;
        return;
      case Gap =>
    }
  }

  // --- The reader protocol --------------------------------------------------------------------------

  /** What is promised of a reader that got as far as `upto`. */
  ghost predicate Promised(s0: Inner, from: nat, sched: seq<seq<PubOp>>, r: Reading, upto: nat) {
    var snap, s := After(s0, sched, 2), After(s0, sched, r.steps);
    && r.steps >= 2 && StartOf(snap, from) <= upto <= |Log(s.sent)|
    && upto <= Max(snap.nextOffset, TokensBeforeTerm(s.sent))
    && var t := TermPos(s.sent);
       && (r.end.Ended? ==> t < |s.sent| && upto == Max(snap.nextOffset, TokensBeforeTerm(s.sent)))
       && (r.end.Waiting? ==> t == |s.sent| && upto == |Log(s.sent)|)
       && (r.end.Lagged? ==> |After(s0, sched, 1).sent| + 1024 < |s.sent|)
       && r.out == Emitted(Log(s.sent), from < Earliest(snap), StartOf(snap, from), upto,
                           if r.end.Ended? then Some(s.sent[t]) else None)
  }

  /**
   * The reader protocol. Whatever publishers do between its steps, a reader emits a gap first exactly when `from` was
   * no longer retained at its snapshot, then consecutive tokens of the published log from the start fixed there, then
   * at most one terminal, last. It reports done only with every token published before the terminal delivered, and
   * left waiting it has delivered everything. It lags, and then stops on a contiguous run without a terminal, only
   * once more has been sent since it subscribed than the channel holds.
   */
  lemma ReaderProtocol(s0: Inner, from: nat, sched: seq<seq<PubOp>>) returns (upto: nat)
    requires StreamOk(s0)
    ensures Promised(s0, from, sched, Read(s0, from, sched), upto)
  {
    hide StreamOk, RunPub, Log, TermPos, Toks, Emitted, KeepFrom, Earliest, ReaderOk, Live;
    AfterKeeps(s0, sched, 0, 1);
    AfterKeeps(s0, sched, 1, 2);
    var s := After(s0, sched, 2);
    var snap := SnapshotFrom(s, from);
    var start, head := StartOf(s, from), (if snap.gap then [Gap] else []) + Toks(snap.tokens);
    SnapshotIsSuffix(s, from);
    SnapshotEmitted(s, from);
    FlagsTell(s);
    LogPrefix(s.sent[..TermPos(s.sent)], s.sent);
    EmittedPush(Log(s.sent), Log(s.sent), snap.gap, start, snap.total, head);
    if snap.error.Some? || snap.complete {
      upto := snap.total;
    } else {
      var pos := |After(s0, sched, 1).sent|;
      ReaderStarts(s, from, pos, head);
      upto := LiveTells(s0, sched, 2, pos, s.sent, snap.gap, start, snap.total, head);
    }
  }

  /**
   * A burst makes a reader lag: one that was not told of the end by its snapshot and finds more than 1024 signals sent
   * since it subscribed emits what its snapshot held and stops. With no more than that it is never told to lag.
   */
  lemma BurstLags(s0: Inner, from: nat, sched: seq<seq<PubOp>>)
    requires StreamOk(s0)
    ensures var snap, s := After(s0, sched, 2), After(s0, sched, 3);
            var r := Read(s0, from, sched);
            && (!Terminal(snap) && |After(s0, sched, 1).sent| + 1024 < |s.sent| ==>
                  r == Reading((if from < Earliest(snap) then [Gap] else []) + Toks(SnapshotFrom(snap, from).tokens),
                               Lagged, 3))
            && (|After(s0, sched, r.steps).sent| <= |After(s0, sched, 1).sent| + 1024 ==> !r.end.Lagged?)
  {
    hide StreamOk, RunPub, Log, Toks, KeepFrom, StartOf, Earliest, Emitted, TermPos;
    var upto := ReaderProtocol(s0, from, sched);
    var snap := After(s0, sched, 2);
    var head := (if from < Earliest(snap) then [Gap] else []) + Toks(SnapshotFrom(snap, from).tokens);
    assert head + [] == head;
  }

  /** The promise for a reader that is live at step `steps`, having emitted `out`. */
  lemma {:induction false} LiveTells(
    s0: Inner, sched: seq<seq<PubOp>>, steps: nat, pos: nat, snapSent: seq<Signal>, gap: bool, start: nat, upto: nat,
    out: seq<Signal>)
    returns (upto': nat)
    requires StreamOk(s0) && ReaderOk(After(s0, sched, steps), snapSent, gap, start, pos, upto, out)
    ensures var l := Live(s0, sched, steps, pos, |Log(snapSent)|);
            var s := After(s0, sched, l.steps);
            var t := TermPos(s.sent);
            && l.steps > steps && start <= upto' <= |Log(s.sent)|
            && upto' <= Max(|Log(snapSent)|, TokensBeforeTerm(s.sent))
            && (l.end.Ended? ==> t < |s.sent| && upto' == Max(|Log(snapSent)|, TokensBeforeTerm(s.sent)))
            && (l.end.Waiting? ==> t == |s.sent| && upto' == |Log(s.sent)|)
            && (l.end.Lagged? ==> pos + CHANNEL < |s.sent|)
            && out + l.out == Emitted(Log(s.sent), gap, start, upto', if l.end.Ended? then Some(s.sent[t]) else None)
    decreases if steps < |sched| then |sched| - steps else 0,
              if pos < |After(s0, sched, |sched|).sent| then |After(s0, sched, |sched|).sent| - pos else 0
  {
    hide StreamOk, RunPub, Log, TermPos, Emitted, ReaderOk, After;
    var total := |Log(snapSent)|;
    AfterSettles(s0, sched, steps + 1);
    AfterKeeps(s0, sched, 0, steps);
    AfterKeeps(s0, sched, steps, steps + 1);
    var s := After(s0, sched, steps + 1);
    ReaderGrows(After(s0, sched, steps), s, snapSent, gap, start, pos, upto, out);
    ReaderTells(s, snapSent, gap, start, pos, upto, out);
    upto' := upto;
    if pos + CHANNEL < |s.sent| {
      assert out + [] == out;
    } else if pos >= |s.sent| {
      ReaderDrained(s, snapSent, gap, start, pos, upto, out);
      if steps + 1 >= |sched| {
        assert out + [] == out;
      } else {
        upto' := LiveTells(s0, sched, steps + 1, pos, snapSent, gap, start, upto, out);
      }
    } else {
      var sig := s.sent[pos];
      ReaderTakes(s, snapSent, gap, start, pos, upto, out);
      if sig.Tok? && sig.token.offset >= total {
        upto' := LiveTells(s0, sched, steps + 1, pos + 1, snapSent, gap, start, upto + 1, out + [sig]);
        var rest := Live(s0, sched, steps + 1, pos + 1, total).out;
        assert out + ([sig] + rest) == out + [sig] + rest;
      } else if sig.Tok? {
        upto' := LiveTells(s0, sched, steps + 1, pos + 1, snapSent, gap, start, upto, out);
      }
    }
  }

  /** A live reader: nothing terminal heard yet, and everything up to where it has got emitted. */
  ghost predicate ReaderOk(
    s: Inner, snapSent: seq<Signal>, gap: bool, start: nat, pos: int, upto: nat, out: seq<Signal>)
  {
    && StreamOk(s) && snapSent <= s.sent && 0 <= pos <= |s.sent|
    && TermPos(snapSent) == |snapSent|
    && (forall i :: 0 <= i < pos ==> !IsTerminal(s.sent[i]))
    && start <= upto <= |Log(s.sent)|
    && upto == Max(|Log(snapSent)|, |Log(s.sent[..pos])|)
    && out == Emitted(Log(s.sent), gap, start, upto, None)
  }

  lemma ReaderStarts(s: Inner, from: nat, pos: int, out: seq<Signal>)
    requires StreamOk(s) && !Terminal(s) && 0 <= pos <= |s.sent|
    requires var snap := SnapshotFrom(s, from); out == (if snap.gap then [Gap] else []) + Toks(snap.tokens)
    ensures ReaderOk(s, s.sent, from < Earliest(s), StartOf(s, from), pos, s.nextOffset, out)
  {
    SnapshotEmitted(s, from);
    LogPrefix(s.sent[..pos], s.sent);
    hide Emitted, KeepFrom, Toks, Log;
  }

  lemma ReaderGrows(
    s: Inner, s': Inner, snapSent: seq<Signal>, gap: bool, start: nat, pos: int, upto: nat, out: seq<Signal>)
    requires ReaderOk(s, snapSent, gap, start, pos, upto, out)
    requires StreamOk(s') && s.sent <= s'.sent
    ensures ReaderOk(s', snapSent, gap, start, pos, upto, out)
  {
    hide StreamOk, Emitted;
    LogPrefix(s.sent, s'.sent);
    assert s'.sent[..pos] == s.sent[..pos];
    EmittedPush(Log(s.sent), Log(s'.sent), gap, start, upto, out);
  }

  lemma ReaderTells(s: Inner, snapSent: seq<Signal>, gap: bool, start: nat, pos: int, upto: nat, out: seq<Signal>)
    requires ReaderOk(s, snapSent, gap, start, pos, upto, out)
    ensures 0 <= pos <= |s.sent| && start <= upto <= |Log(s.sent)|
    ensures upto <= Max(|Log(snapSent)|, TokensBeforeTerm(s.sent))
    ensures out == Emitted(Log(s.sent), gap, start, upto, None)
  {
    assert pos <= TermPos(s.sent);
    assert s.sent[..pos] == s.sent[..TermPos(s.sent)][..pos];
    LogPrefix(s.sent[..pos], s.sent[..TermPos(s.sent)]);
  }

  lemma ReaderDrained(s: Inner, snapSent: seq<Signal>, gap: bool, start: nat, pos: int, upto: nat, out: seq<Signal>)
    requires ReaderOk(s, snapSent, gap, start, pos, upto, out) && pos == |s.sent|
    ensures TermPos(s.sent) == |s.sent| && upto == |Log(s.sent)|
  {
    LogPrefix(snapSent, s.sent);
    assert s.sent[..pos] == s.sent;
  }

  lemma ReaderTakes(s: Inner, snapSent: seq<Signal>, gap: bool, start: nat, pos: int, upto: nat, out: seq<Signal>)
    requires ReaderOk(s, snapSent, gap, start, pos, upto, out) && pos < |s.sent|
    ensures s.sent[pos] != Gap
    ensures s.sent[pos].Tok? ==>
              if s.sent[pos].token.offset >= |Log(snapSent)|
              then ReaderOk(s, snapSent, gap, start, pos + 1, upto + 1, out + [s.sent[pos]])
              else ReaderOk(s, snapSent, gap, start, pos + 1, upto, out)
    ensures IsTerminal(s.sent[pos]) ==>
              && TermPos(s.sent) == pos
              && upto == Max(|Log(snapSent)|, TokensBeforeTerm(s.sent))
              && out + Tail(s.sent[pos]) == Emitted(Log(s.sent), gap, start, upto, Some(s.sent[pos]))
  {
    hide StreamOk, Emitted, Log, Tail;
    TakeOne(s, pos);
    EmittedPush(Log(s.sent), Log(s.sent), gap, start, upto, out);
    if IsTerminal(s.sent[pos]) {
      FirstTerminal(s.sent, pos);
    }
  }

  lemma FirstTerminal(sent: seq<Signal>, pos: nat)
    requires pos < |sent| && IsTerminal(sent[pos]) && forall i :: 0 <= i < pos ==> !IsTerminal(sent[i])
    ensures TermPos(sent) == pos
  {
  }

  lemma SnapshotEmitted(s: Inner, from: nat)
    requires StreamOk(s)
    ensures var snap := SnapshotFrom(s, from);
            && StartOf(s, from) <= snap.total == |Log(s.sent)|
            && (if snap.gap then [Gap] else []) + Toks(snap.tokens)
               == Emitted(Log(s.sent), snap.gap, StartOf(s, from), snap.total, None)
  {
    SnapshotIsSuffix(s, from);
    hide KeepFrom;
    assert Log(s.sent)[StartOf(s, from)..|Log(s.sent)|] == Log(s.sent)[StartOf(s, from)..];
  }

  lemma FlagsTell(s: Inner)
    requires StreamOk(s)
    ensures var t := TermPos(s.sent);
            && |Log(s.sent)| == s.nextOffset
            && (t < |s.sent| <==> Terminal(s))
            && (s.error.Some? ==> s.sent[t] == Error(s.error.value))
            && (s.error.None? && s.complete ==> s.sent[t] == Done)
  {
  }

  /** The signal at `pos` is a token exactly when it is the next of the log, and carries that offset. */
  lemma TakeOne(s: Inner, pos: nat)
    requires StreamOk(s) && pos < |s.sent|
    ensures var sig, seen := s.sent[pos], Log(s.sent[..pos]);
            && |seen| <= |Log(s.sent)| && sig != Gap
            && Log(s.sent[..pos + 1]) == (if sig.Tok? then seen + [sig.token] else seen)
            && (sig.Tok? ==> |seen| < |Log(s.sent)| && sig.token == Log(s.sent)[|seen|] && sig.token.offset == |seen|)
  {
    LogPush(s.sent[..pos], s.sent[pos]);
    assert s.sent[..pos + 1] == s.sent[..pos] + [s.sent[pos]];
    LogPrefix(s.sent[..pos + 1], s.sent);
    LogPrefix(s.sent[..pos], s.sent);
  }
}
