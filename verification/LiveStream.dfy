/**
 * The stream object updated under its lock, and clients that reconnect (crates/tideline-server/src/stream.rs,
 * api.rs).
 */
module LiveStream {
  import opened Bytes
  import opened Spine
  import opened Stream

  class LockedStream {
    var tokens: seq<Token>
    var nextOffset: nat
    var complete: bool
    var error: Option<Text>
    const maxBuffer: nat
    var sent: seq<Signal>

    function State(): Inner
      reads this
    {
      Inner(tokens, nextOffset, complete, error, maxBuffer, sent)
    }

    ghost predicate Valid()
      reads this
    {
      StreamOk(State())
    }

    constructor WithCapacity(maxBuffer: nat)
      ensures Valid() && State() == New(maxBuffer) && this.maxBuffer == (if maxBuffer == 0 then 1 else maxBuffer)
    {
      tokens, nextOffset, complete, error, sent := [], 0, false, None, [];
      this.maxBuffer := if maxBuffer < 1 then 1 else maxBuffer;
    }

    method Publish(data: Text) returns (offset: nat)
      requires Valid()
      modifies this
      ensures Valid() && State() == Stream.Publish(old(State()), data)
      ensures offset == |Log(old(sent))| && Log(sent) == Log(old(sent)) + [Token(offset, data)]
      ensures AreLast(tokens, Log(sent), maxBuffer)
    {
      hide StreamOk, Log, LastN, AreLast;
      ghost var before := State();
      PublishKeeps(before, data);
      PublishExactly(before, data);
      offset := nextOffset;
      nextOffset := nextOffset + 1;
      var token := Token(offset, data);
      tokens := PopFrontOver(tokens + [token], maxBuffer);
      sent := sent + [Tok(token)];
      assert State() == Stream.Publish(before, data);
    }

    /** `while tokens.len() > max { tokens.pop_front(); }` */
    static method PopFrontOver(pushed: seq<Token>, max: nat) returns (tokens: seq<Token>)
      ensures tokens == LastN(pushed, max)
      ensures AreLast(tokens, pushed, max)
    {
      tokens := pushed;
      ghost var dropped: nat := 0;
      while |tokens| > max
        invariant dropped <= |pushed| && tokens == pushed[dropped..]
        invariant dropped > 0 ==> |tokens| >= max
      {
        assert pushed[dropped..][1..] == pushed[dropped + 1..];
        tokens := tokens[1..];
        dropped := dropped + 1;
      }
    }

    method Complete()
      requires Valid()
      modifies this
      ensures Valid() && State() == Finish(old(State()))
    {
      TerminalKeeps(State(), Finish(State()), Done);
      if !complete && error.None? {
        complete := true;
        sent := sent + [Done];
      }
    }

    method Fail(message: Text)
      requires Valid()
      modifies this
      ensures Valid() && State() == Stream.Fail(old(State()), message)
    {
      TerminalKeeps(State(), Stream.Fail(State(), message), Error(message));
      if !complete && error.None? {
        error := Some(message);
        sent := sent + [Error(message)];
      }
    }

    /** The tokens handed to a new reader are exactly the retained tail of the log from its start on. */
    method SnapshotFrom(from: nat) returns (snap: Snapshot)
      requires Valid()
      ensures snap == Stream.SnapshotFrom(State(), from)
      ensures snap.tokens == Log(sent)[StartOf(State(), from)..] && snap.total == |Log(sent)|
    {
      SnapshotIsSuffix(State(), from);
      FlagsTell(State());
      hide StreamOk, Log, StartOf, KeepFrom;
      var earliest := if tokens == [] then nextOffset else tokens[0].offset;
      var eff := if from >= earliest then from else earliest;
      var kept := RetainFrom(tokens, eff);
      snap := Snapshot(kept, complete, error, nextOffset, from < earliest);
    }

    /** `tokens.iter().filter(|t| t.offset >= eff)` */
    static method RetainFrom(tokens: seq<Token>, eff: nat) returns (kept: seq<Token>)
      ensures kept == KeepFrom(tokens, eff)
    {
      kept := [];
      for i := 0 to |tokens|
        invariant kept + KeepFrom(tokens[i..], eff) == KeepFrom(tokens, eff)
      {
        assert tokens[i..][1..] == tokens[i + 1..];
        if tokens[i].offset >= eff {
          kept := kept + [tokens[i]];
        }
      }
    }
  }

  // --- Reconnecting ------------------------------------------------------------------------

  /** One connection: what its publishers do meanwhile, and after how many signals it is cut. */
  datatype Session = Session(sched: seq<seq<PubOp>>, cut: nat)

  function SeenIn(out: seq<Signal>, cut: nat): seq<Token> {
    Log(out[..Min(cut, |out|)])
  }

  predicate BeginsWithGap(out: seq<Signal>) {
    out != [] && out[0] == Gap
  }

  lemma {:induction false} TokensOfToks(tokens: seq<Token>)
    ensures Log(Toks(tokens)) == tokens
  {
    if tokens != [] {
      var n := |tokens| - 1;
      TokensOfToks(tokens[..n]);
      assert Toks(tokens)[..n] == Toks(tokens[..n]);
    }
  }

  /** However a gapless session is cut, what was seen is a run of the log from its start. */
  lemma SeenIsRun(log: seq<Token>, start: nat, upto: nat, term: Option<Signal>, cut: nat)
    requires start <= upto <= |log|
    requires term.Some? ==> IsTerminal(term.value)
    ensures var out := Emitted(log, false, start, upto, term);
            SeenIn(out, cut) == log[start..start + Min(cut, upto - start)]
  {
    var run := log[start..upto];
    var tail := if term.Some? then Tail(term.value) else [];
    assert Emitted(log, false, start, upto, term) == Toks(run) + tail;
    SeenOfToks(run, tail, cut);
    assert run[..Min(cut, |run|)] == log[start..start + Min(cut, upto - start)];
  }

  lemma SeenOfToks(run: seq<Token>, tail: seq<Signal>, cut: nat)
    requires forall i :: 0 <= i < |tail| ==> !tail[i].Tok?
    ensures SeenIn(Toks(run) + tail, cut) == run[..Min(cut, |run|)]
  {
    var out := Toks(run) + tail;
    if cut <= |run| {
      assert out[..cut] == Toks(run[..cut]);
      TokensOfToks(run[..cut]);
    } else {
      var kept := tail[..Min(cut, |out|) - |run|];
      assert out[..Min(cut, |out|)] == Toks(run) + kept;
      NoTokensAdded(Toks(run), kept);
      TokensOfToks(run);
    }
  }

  /** What each session was sent, what the client kept of it all, and the stream afterwards. */
  datatype Client = Client(outs: seq<seq<Signal>>, seen: seq<Token>, stream: Inner)

  /** Where to resume: one past the last token of `got`, or where the last session did if it brought none. */
  function ResumeAt(from: nat, got: seq<Token>): nat {
    if got == [] then from else got[|got| - 1].offset + 1
  }

  /** A client that connects for each session in turn to the same stream, resuming where it had got to. */
  function Sessions(s: Inner, from: nat, sessions: seq<Session>): Client
    decreases |sessions|
  {
    if sessions == [] then Client([], [], s)
    else
      var r := Read(s, from, sessions[0].sched);
      var got := SeenIn(r.out, sessions[0].cut);
      var rest := Sessions(After(s, sessions[0].sched, r.steps), ResumeAt(from, got), sessions[1..]);
      Client([r.out] + rest.outs, got + rest.seen, rest.stream)
  }

  method Reconnect(s0: Inner, from0: nat, sessions: seq<Session>)
    returns (outs: seq<seq<Signal>>, seen: seq<Token>, s: Inner)
    requires StreamOk(s0)
    ensures Client(outs, seen, s) == Sessions(s0, from0, sessions)
  {
    hide StreamOk, Log, SeenIn, Read, RunPub, After, ResumeAt;
    outs, seen, s := [], [], s0;
    var from := from0;
    var i := 0;
    while i < |sessions|
      invariant 0 <= i <= |sessions| && StreamOk(s)
      invariant var rest := Sessions(s, from, sessions[i..]);
                Sessions(s0, from0, sessions) == Client(outs + rest.outs, seen + rest.seen, rest.stream)
    {
      assert sessions[i..][1..] == sessions[i + 1..];
      var out, end, steps := ReadStream(s, from, sessions[i].sched);
      AfterKeeps(s, sessions[i].sched, 0, steps);
      var got := SeenIn(out, sessions[i].cut);
      ghost var rest := Sessions(After(s, sessions[i].sched, steps), ResumeAt(from, got), sessions[i + 1..]);
      assert outs + ([out] + rest.outs) == outs + [out] + rest.outs
          && seen + (got + rest.seen) == seen + got + rest.seen;
      s := After(s, sessions[i].sched, steps);
      outs := outs + [out];
      seen := seen + got;
      from := ResumeAt(from, got);
      i := i + 1;
    }
    assert sessions[|sessions|..] == [];
  }

  /** Where the run of tokens a client has seen begins. */
  function FirstSeen(s0: Inner, from0: nat, seen: seq<Token>): nat {
    if from0 <= |Log(s0.sent)| then from0 else if seen == [] then 0 else seen[0].offset
  }

  /**
   * Sessions compose. A client that reconnects any number of times, always from one past the last token it saw, has
   * seen one consecutive run of the published log, with nothing lost or repeated at the seams, unless some session
   * began by telling it of a gap. The run begins where it first asked, unless that was past the end of the log.
   */
  lemma SessionsCompose(s0: Inner, from0: nat, sessions: seq<Session>)
    requires StreamOk(s0)
    ensures var c := Sessions(s0, from0, sessions);
            var first, log := FirstSeen(s0, from0, c.seen), Log(c.stream.sent);
            && |c.outs| == |sessions| && s0.sent <= c.stream.sent
            && (NoGaps(c.outs) ==> first + |c.seen| <= |log| && c.seen == log[first..first + |c.seen|])
  {
    hide StreamOk, Log, Sessions;
    OneRunStarts(s0, from0);
    SessionsContinue(s0, from0, s0, from0, [], sessions);
    var c := Sessions(s0, from0, sessions);
    assert [] + c.seen == c.seen;
    LogPrefix(s0.sent, c.stream.sent);
  }

  /** The same for a client in mid-course, that has seen `seen` and resumes at `from`. */
  lemma {:induction false} SessionsContinue(
    s0: Inner, from0: nat, s: Inner, from: nat, seen: seq<Token>, sessions: seq<Session>)
    requires StreamOk(s0) && StreamOk(s) && s0.sent <= s.sent
    ensures var c := Sessions(s, from, sessions);
            && |c.outs| == |sessions| && s.sent <= c.stream.sent
            && (OneRun(s0, from0, s, seen, FirstSeen(s0, from0, seen), from) && NoGaps(c.outs) ==>
                  OneRunSeen(s0, from0, c.stream, seen + c.seen))
    decreases |sessions|
  {
    hide StreamOk, Log, SeenIn, Read, RunPub, OneRun, NoGaps, After, BeginsWithGap, FirstSeen, OneRunSeen, SawRun;
    var c := Sessions(s, from, sessions);
    if sessions == [] {
      assert seen + [] == seen;
      if OneRun(s0, from0, s, seen, FirstSeen(s0, from0, seen), from) {
        OneRunIsSeen(s0, from0, s, seen, from);
      }
    } else {
      var session := sessions[0];
      var r := Read(s, from, session.sched);
      var s' := After(s, session.sched, r.steps);
      var got := SeenIn(r.out, session.cut);
      var snapLength := ConnectSees(s, from, session);
      SessionsContinue(s0, from0, s', ResumeAt(from, got), seen + got, sessions[1..]);
      var rest := Sessions(s', ResumeAt(from, got), sessions[1..]);
      NoGapsCons(r.out, rest.outs);
      assert seen + (got + rest.seen) == seen + got + rest.seen;
      if OneRun(s0, from0, s, seen, FirstSeen(s0, from0, seen), from) && NoGaps(c.outs) {
        OneRunGrows(s0, from0, s, s', seen, from, got, snapLength);
      }
    }
  }

  /** What a cut session showed, when it told of no gap, is a run of the log from where it started. */
  lemma ConnectSees(s: Inner, from: nat, session: Session) returns (snapLength: nat)
    requires StreamOk(s)
    ensures var r := Read(s, from, session.sched);
            var s' := After(s, session.sched, r.steps);
            && StreamOk(s') && s.sent <= s'.sent
            && (!BeginsWithGap(r.out) ==> SawRun(s, s', from, SeenIn(r.out, session.cut), snapLength))
  {
    hide StreamOk, RunPub, Log, TermPos, Emitted, Earliest, StartOf, SeenIn, BeginsWithGap, IsTerminal;
    hide TokensBeforeTerm;
    hide SawRun, Read;
    var r := Read(s, from, session.sched);
    var upto := ReaderProtocol(s, from, session.sched);
    AfterKeeps(s, session.sched, 0, 2);
    AfterKeeps(s, session.sched, 2, r.steps);
    var snap, s' := After(s, session.sched, 2), After(s, session.sched, r.steps);
    var term := if r.end.Ended? then Some(s'.sent[TermPos(s'.sent)]) else None;
    snapLength := |Log(snap.sent)|;
    FirstTerminalIs(s'.sent);
    SessionSeen(snap, s', from, upto, r.out, term, session.cut);
    if !BeginsWithGap(r.out) {
      LogPrefix(s.sent, snap.sent);
      SawRunIs(s, s', from, SeenIn(r.out, session.cut), snapLength, Min(session.cut, upto - StartOf(snap, from)));
    }
  }

  lemma FirstTerminalIs(sent: seq<Signal>)
    ensures TermPos(sent) < |sent| ==> IsTerminal(sent[TermPos(sent)])
  {
  }

  /** `got` is the log of `s'` from `from`, or from the end of what the snapshot had if that is earlier. */
  ghost predicate SawRun(s: Inner, s': Inner, from: nat, got: seq<Token>, snapLength: nat) {
    var start := Min(from, snapLength);
    && |Log(s.sent)| <= snapLength
    && start + |got| <= |Log(s'.sent)| && got == Log(s'.sent)[start..start + |got|]
    && (got != [] ==> got[0].offset == start && got[|got| - 1].offset == start + |got| - 1)
  }

  lemma SawRunIs(s: Inner, s': Inner, from: nat, got: seq<Token>, snapLength: nat, n: nat)
    requires |Log(s.sent)| <= snapLength
    requires var start := Min(from, snapLength);
             && start + n <= |Log(s'.sent)| && got == Log(s'.sent)[start..start + n]
             && (n > 0 ==> got[0].offset == start && got[n - 1].offset == start + n - 1)
    ensures SawRun(s, s', from, got, snapLength)
  {
    hide Log;
  }

  predicate NoGaps(outs: seq<seq<Signal>>) {
    forall i :: 0 <= i < |outs| ==> !BeginsWithGap(outs[i])
  }

  lemma NoGapsCons(out: seq<Signal>, outs: seq<seq<Signal>>)
    ensures NoGaps([out] + outs) <==> !BeginsWithGap(out) && NoGaps(outs)
  {
    assert ([out] + outs)[0] == out;
    assert forall i :: 0 <= i < |outs| ==> ([out] + outs)[i + 1] == outs[i];
  }

  /** What a client that resumes at `from` has seen so far is the log from `first` up to `from`. */
  ghost predicate OneRun(s0: Inner, from0: nat, s: Inner, seen: seq<Token>, first: nat, from: nat) {
    && (seen == [] ==> from == from0)
    && (seen != [] ==> from == first + |seen| <= |Log(s.sent)| && seen == Log(s.sent)[first..from])
    && first == FirstSeen(s0, from0, seen)
  }

  ghost predicate OneRunSeen(s0: Inner, from0: nat, s: Inner, seen: seq<Token>) {
    var first := FirstSeen(s0, from0, seen);
    seen != [] ==> first + |seen| <= |Log(s.sent)| && seen == Log(s.sent)[first..first + |seen|]
  }

  lemma OneRunStarts(s0: Inner, from0: nat)
    ensures OneRun(s0, from0, s0, [], FirstSeen(s0, from0, []), from0)
  {
  }

  lemma OneRunIsSeen(s0: Inner, from0: nat, s: Inner, seen: seq<Token>, from: nat)
    requires OneRun(s0, from0, s, seen, FirstSeen(s0, from0, seen), from)
    ensures OneRunSeen(s0, from0, s, seen)
  {
  }

  lemma OneRunGrows(
    s0: Inner, from0: nat, before: Inner, s: Inner, seen: seq<Token>, from: nat, got: seq<Token>, snapLength: nat)
    requires s0.sent <= before.sent <= s.sent
    requires OneRun(s0, from0, before, seen, FirstSeen(s0, from0, seen), from)
    requires SawRun(before, s, from, got, snapLength)
    ensures OneRun(s0, from0, s, seen + got, FirstSeen(s0, from0, seen + got), ResumeAt(from, got))
  {
    hide Log;
    LogPrefix(s0.sent, before.sent);
    LogPrefix(before.sent, s.sent);
    if seen != [] {
      RunsMeet(Log(before.sent), Log(s.sent), FirstSeen(s0, from0, seen), from, |got|);
    }
  }

  lemma RunsMeet(log: seq<Token>, longer: seq<Token>, first: nat, from: nat, n: nat)
    requires log <= longer && first <= from <= |log| && from + n <= |longer|
    ensures log[first..from] + longer[from..from + n] == longer[first..from + n]
  {
    assert log[first..from] == longer[first..from];
  }

  lemma SessionSeen(snap: Inner, s: Inner, from: nat, upto: nat, out: seq<Signal>, term: Option<Signal>, cut: nat)
    requires StreamOk(snap) && StreamOk(s) && snap.sent <= s.sent
    requires StartOf(snap, from) <= upto <= |Log(s.sent)|
    requires term.Some? ==> IsTerminal(term.value)
    requires out == Emitted(Log(s.sent), from < Earliest(snap), StartOf(snap, from), upto, term)
    ensures !BeginsWithGap(out) ==>
              && from >= Earliest(snap)
              && var start, n := Min(from, |Log(snap.sent)|), Min(cut, upto - StartOf(snap, from));
                 && start == StartOf(snap, from)
                 && SeenIn(out, cut) == Log(s.sent)[start..start + n]
                 && (n > 0 ==> SeenIn(out, cut)[0].offset == start && SeenIn(out, cut)[n - 1].offset == start + n - 1)
  {
    hide StreamOk, Emitted, Log, SeenIn, Earliest, BeginsWithGap, IsTerminal;
    SnapshotIsSuffix(snap, from);
    OffsetsArePositions(s);
    GapTells(Log(s.sent), from < Earliest(snap), StartOf(snap, from), upto, term);
    if from >= Earliest(snap) {
      SeenIsRun(Log(s.sent), StartOf(snap, from), upto, term, cut);
    }
  }

  lemma OffsetsArePositions(s: Inner)
    requires StreamOk(s)
    ensures forall i :: 0 <= i < |Log(s.sent)| ==> Log(s.sent)[i].offset == i
  {
  }

  lemma GapTells(log: seq<Token>, gap: bool, start: nat, upto: nat, term: Option<Signal>)
    requires start <= upto <= |log| && (term.Some? ==> IsTerminal(term.value))
    ensures BeginsWithGap(Emitted(log, gap, start, upto, term)) == gap
  {
    var out := Emitted(log, gap, start, upto, term);
    var toks := Toks(log[start..upto]);
    if !gap && out != [] {
      assert out[0] == if toks != [] then toks[0] else Tail(term.value)[0];
    }
  }
}
