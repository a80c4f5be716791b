/** The Redis backend's shared log and its subscriber (crates/tideline-server/src/redis_backend.rs). */
module RedisStream {
  import opened Bytes
  import opened Decimal
  import opened Spine
  import opened Stream

  /** A stream entry: field names and values. */
  type Entry = map<string, Text>

  function TokenEntry(offset: nat, data: Text): Entry {
    map["o" := Print(offset), "d" := data]
  }

  function DoneEntry(): Entry {
    map["t" := Ascii("done")]
  }

  function ErrorEntry(message: Text): Entry {
    map["t" := Ascii("error"), "m" := message]
  }

  /** `None` is an entry the subscriber ignores. */
  function ParseEntry(e: Entry): Option<Signal> {
    if "t" in e then
      if e["t"] == Ascii("done") then Some(Done)
      else if e["t"] == Ascii("error") then Some(Error(if "m" in e then e["m"] else []))
      else None
    else if "o" in e && "d" in e then
      match Parse(e["o"])
      case None => None
      case Some(o) => Some(Tok(Token(o, e["d"])))
    else None
  }

  lemma ParseInvertsWriting(offset: nat, text: Text)
    ensures ParseEntry(TokenEntry(offset, text)) == Some(Tok(Token(offset, text)))
    ensures ParseEntry(DoneEntry()) == Some(Done)
    ensures ParseEntry(ErrorEntry(text)) == Some(Error(text))
  {
    ParseInvertsPrint(offset);
    assert |Ascii("done")| != |Ascii("error")|;
  }

  /**
   * A stream and its offset counter. Entry ids increase, so an id is modelled by its position among all entries ever
   * added; the first `first` of them have been trimmed away.
   */
  datatype Redis = Redis(added: seq<Entry>, first: nat, counter: nat, maxLen: nat)

  function Fresh(maxLen: nat): Redis {
    Redis([], 0, 0, maxLen)
  }

  /**
   * The publish script. `MAXLEN ~` may trim the oldest entries as long as `maxLen` remain; how many it does trim, up
   * to position `trim`, is Redis's choice.
   */
  function PublishScript(r: Redis, data: Text, trim: nat): Redis {
    var added := r.added + [TokenEntry(r.counter, data)];
    r.(added := added,
       counter := r.counter + 1,
       first := if |added| >= r.maxLen then Max(r.first, Min(trim, |added| - r.maxLen)) else r.first)
  }

  /** A terminal marker is appended whether or not one is there already. */
  function MarkTerminal(r: Redis, e: Entry): Redis {
    r.(added := r.added + [e])
  }

  function ApplyRedis(r: Redis, op: PubOp, trim: nat): Redis {
    match op
    case OpPublish(data) => PublishScript(r, data, trim)
    case OpComplete => MarkTerminal(r, DoneEntry())
    case OpFail(message) => MarkTerminal(r, ErrorEntry(message))
  }

  function RunRedis(r: Redis, ops: seq<(PubOp, nat)>): Redis
    decreases |ops|
  {
    if ops == [] then r else RunRedis(ApplyRedis(r, ops[0].0, ops[0].1), ops[1..])
  }

  function RedisBatch(sched: seq<seq<(PubOp, nat)>>, n: nat): seq<(PubOp, nat)> {
    if n < |sched| then sched[n] else []
  }

  function RedisAfter(r: Redis, sched: seq<seq<(PubOp, nat)>>, n: nat): Redis {
    if n == 0 then r else RunRedis(RedisAfter(r, sched, n - 1), RedisBatch(sched, n - 1))
  }

  function SignalOf(e: Entry): Signal {
    var s := ParseEntry(e);
    if s.Some? then s.value else Gap
  }

  /** Everything ever added, as signals. */
  function Heard(r: Redis): seq<Signal> {
    seq(|r.added|, i requires 0 <= i < |r.added| => SignalOf(r.added[i]))
  }

  ghost predicate RedisOk(r: Redis) {
    && r.maxLen >= 1
    && r.first <= |r.added|
    && (forall i :: 0 <= i < |r.added| ==> ParseEntry(r.added[i]).Some?)
    && (forall i :: 0 <= i < |r.added| ==> Heard(r)[i] != Gap)
    && r.counter == |Log(Heard(r))|
    && (forall i :: 0 <= i < r.counter ==> Log(Heard(r))[i].offset == i)
    && (r.counter == 0 ==> r.first == 0)
    && (r.counter > 0 ==> exists i :: r.first <= i < |r.added| && Heard(r)[i].Tok?)
  }

  lemma HeardPush(r: Redis, r': Redis, e: Entry, sig: Signal)
    requires ParseEntry(e) == Some(sig) && r'.added == r.added + [e]
    ensures Heard(r') == Heard(r) + [sig]
  {
    hide ParseEntry;
  }

  lemma AddKeeps(r: Redis, r': Redis, e: Entry, sig: Signal)
    requires RedisOk(r) && ParseEntry(e) == Some(sig) && sig != Gap
    requires r'.added == r.added + [e] && r'.maxLen == r.maxLen
    requires sig.Tok? ==> sig.token.offset == r.counter && r'.counter == r.counter + 1 && r'.first <= |r.added|
    requires !sig.Tok? ==> r'.counter == r.counter && r'.first == r.first
    ensures RedisOk(r') && Heard(r') == Heard(r) + [sig]
  {
    hide Log, ParseEntry;
    HeardPush(r, r', e, sig);
    LogPush(Heard(r), sig);
    if sig.Tok? {
      assert Heard(r')[|r.added|].Tok?;
    } else if r.counter > 0 {
      var i :| r.first <= i < |r.added| && Heard(r)[i].Tok?;
      assert Heard(r')[i].Tok?;
    }
  }

  function SignalFor(offset: nat, op: PubOp): Signal {
    match op
    case OpPublish(data) => Tok(Token(offset, data))
    case OpComplete => Done
    case OpFail(message) => Error(message)
  }

  lemma ApplyRedisKeeps(r: Redis, op: PubOp, trim: nat)
    requires RedisOk(r)
    ensures RedisOk(ApplyRedis(r, op, trim)) && Heard(r) <= Heard(ApplyRedis(r, op, trim))
    ensures Heard(ApplyRedis(r, op, trim))
         == Heard(r) + [SignalFor(r.counter, op)]
  {
    var r' := ApplyRedis(r, op, trim);
    match op
    case OpPublish(data) =>
      ParseInvertsWriting(r.counter, data);
      AddKeeps(r, r', TokenEntry(r.counter, data), Tok(Token(r.counter, data)));
    case OpComplete =>
      ParseInvertsWriting(0, []);
      AddKeeps(r, r', DoneEntry(), Done);
    case OpFail(message) =>
      ParseInvertsWriting(0, message);
      AddKeeps(r, r', ErrorEntry(message), Error(message));
  }

  lemma {:induction false} RunRedisKeeps(r: Redis, ops: seq<(PubOp, nat)>)
    requires RedisOk(r)
    ensures RedisOk(RunRedis(r, ops)) && Heard(r) <= Heard(RunRedis(r, ops))
    decreases |ops|
  {
    hide RedisOk, ApplyRedis, Heard;
    if ops != [] {
      ApplyRedisKeeps(r, ops[0].0, ops[0].1);
      RunRedisKeeps(ApplyRedis(r, ops[0].0, ops[0].1), ops[1..]);
    }
  }

  lemma {:induction false} RunRedisTrims(r: Redis, ops: seq<(PubOp, nat)>)
    ensures r.first <= RunRedis(r, ops).first
    decreases |ops|
  {
    if ops != [] {
      RunRedisTrims(ApplyRedis(r, ops[0].0, ops[0].1), ops[1..]);
    }
  }

  /**
   * Trimming. However often Redis trims, at least the last `maxLen` entries stay; and a publish can trim up to any
   * position that leaves them.
   */
  lemma {:induction false} TrimmingLeavesEnough(r: Redis, ops: seq<(PubOp, nat)>)
    requires r.first == 0 || r.first + r.maxLen <= |r.added|
    ensures var r' := RunRedis(r, ops); r'.first == 0 || r'.first + r.maxLen <= |r'.added|
    ensures RunRedis(r, ops).maxLen == r.maxLen
    decreases |ops|
  {
    if ops != [] {
      TrimmingLeavesEnough(ApplyRedis(r, ops[0].0, ops[0].1), ops[1..]);
    }
  }

  lemma AnyTrimCanHappen(r: Redis, data: Text, trim: nat)
    requires r.first <= trim && trim + r.maxLen <= |r.added| + 1
    ensures PublishScript(r, data, trim).first == trim
  {
  }

  lemma {:induction false} RedisAfterKeeps(r: Redis, sched: seq<seq<(PubOp, nat)>>, m: nat, n: nat)
    requires RedisOk(r) && m <= n
    ensures RedisOk(RedisAfter(r, sched, m)) && RedisOk(RedisAfter(r, sched, n))
    ensures Heard(RedisAfter(r, sched, m)) <= Heard(RedisAfter(r, sched, n))
    decreases n
  {
    hide RedisOk, RunRedis, Heard;
    if m < n {
      RedisAfterKeeps(r, sched, m, n - 1);
      RunRedisKeeps(RedisAfter(r, sched, n - 1), RedisBatch(sched, n - 1));
    } else if n > 0 {
      RedisAfterKeeps(r, sched, n - 1, n - 1);
      RunRedisKeeps(RedisAfter(r, sched, n - 1), RedisBatch(sched, n - 1));
    }
  }

  // --- What is to be told of a stream -----------------------------------------------------------

  /** No token is published after the first terminal. */
  ghost predicate Quiet(sent: seq<Signal>) {
    forall i :: TermPos(sent) < i < |sent| ==> !sent[i].Tok?
  }

  function TermOf(sent: seq<Signal>): Option<Signal> {
    if TermPos(sent) < |sent| then Some(sent[TermPos(sent)]) else None
  }

  /** The offset of the first retained token, or the next offset when none is retained. */
  function EarliestRetained(r: Redis): nat {
    |Log(Heard(r)[..Min(r.first, |r.added|)])|
  }

  /** With no token after the terminal, the tokens before it are all there are. */
  lemma QuietTokens(sent: seq<Signal>)
    requires Quiet(sent)
    ensures TokensBeforeTerm(sent) == |Log(sent)|
  {
    var t := TermPos(sent);
    assert sent == sent[..t] + sent[t..];
    forall i | 0 <= i < |sent[t..]| ensures !sent[t..][i].Tok? {
      assert sent[t..][i] == sent[t + i];
    }
    NoTokensAdded(sent[..t], sent[t..]);
  }

  /**
   * What a subscriber that starts at `start` has told once nothing is left to tell: every token before the terminal,
   * or up to `reach` if that is further, and the terminal.
   */
  function Told(sent: seq<Signal>, gap: bool, start: nat, reach: nat): seq<Signal>
    requires start <= |Log(sent)| && reach <= |Log(sent)|
  {
    TokensBeforeIsSome(sent);
    Emitted(Log(sent), gap, start, Max(start, Max(reach, TokensBeforeTerm(sent))), TermOf(sent))
  }

  lemma TokensBeforeIsSome(sent: seq<Signal>)
    ensures TokensBeforeTerm(sent) <= |Log(sent)|
    ensures TermPos(sent) == |sent| ==> TokensBeforeTerm(sent) == |Log(sent)|
  {
    LogPrefix(sent[..TermPos(sent)], sent);
    if TermPos(sent) == |sent| {
      assert sent[..|sent|] == sent;
    }
  }

  lemma EmittedIsPrefix(log: seq<Token>, gap: bool, start: nat, upto: nat, more: nat, term: Option<Signal>)
    requires start <= upto <= more <= |log|
    ensures Emitted(log, gap, start, upto, None) <= Emitted(log, gap, start, more, term)
  {
    assert log[start..more] == log[start..upto] + log[upto..more];
    assert Toks(log[start..more]) == Toks(log[start..upto]) + Toks(log[upto..more]);
  }

  /**
   * The in-memory reader tells a prefix of what is to be told, reaching as far as its snapshot did even past the
   * terminal, and all of it unless it lagged; it lags only once more was sent than the channel holds.
   */
  lemma ReadTells(s0: Inner, from: nat, sched: seq<seq<PubOp>>)
    requires StreamOk(s0)
    ensures var r := Read(s0, from, sched);
            var snap, s := After(s0, sched, 2), After(s0, sched, r.steps);
            && r.steps >= 2 && StartOf(snap, from) <= snap.nextOffset <= |Log(s.sent)|
            && r.out <= Told(s.sent, from < Earliest(snap), StartOf(snap, from), snap.nextOffset)
            && (!r.end.Lagged? ==> r.out == Told(s.sent, from < Earliest(snap), StartOf(snap, from), snap.nextOffset))
            && (r.end.Ended? ==> TermOf(s.sent).Some?) && (r.end.Waiting? ==> TermOf(s.sent).None?)
            && (r.end.Lagged? ==> |After(s0, sched, 1).sent| + 1024 < |s.sent|)
  {
    hide StreamOk, Log, TermPos, Emitted, Earliest, Read, TokensBeforeTerm, After, SnapshotFrom;
    var r := Read(s0, from, sched);
    var upto := ReaderProtocol(s0, from, sched);
    var snap, s := After(s0, sched, 2), After(s0, sched, r.steps);
    AfterKeeps(s0, sched, 0, 2);
    AfterKeeps(s0, sched, 2, r.steps);
    SnapshotIsSuffix(snap, from);
    LogPrefix(snap.sent, s.sent);
    TokensBeforeIsSome(s.sent);
    EmittedIsPrefix(Log(s.sent), from < Earliest(snap), StartOf(snap, from), upto,
                    Max(snap.nextOffset, TokensBeforeTerm(s.sent)), TermOf(s.sent));
  }

  // --- The subscriber as a function of the schedule -------------------------------------------------

  /** How many entries one `XREAD` returns at most. */
  const READ_COUNT: nat := 512

  function Retained(r: Redis): seq<Entry> {
    if r.first <= |r.added| then r.added[r.first..] else []
  }

  /** What a run of entries tells: tokens below `lower` skipped, other entries passed over, a terminal ending it. */
  function TellEntries(entries: seq<Entry>, lower: nat): (seq<Signal>, bool) {
    if entries == [] then ([], false)
    else
      match ParseEntry(entries[0])
      case Some(Tok(token)) =>
        var (rest, ended) := TellEntries(entries[1..], lower);
        (if token.offset >= lower then [Tok(token)] + rest else rest, ended)
      case Some(Done) => ([Done], true)
      case Some(Error(m)) => ([Error(m), Done], true)
      case _ => TellEntries(entries[1..], lower)
  }

  /** What a subscriber told, whether a terminal ended it, whether entries it had not read were trimmed away. */
  datatype Heeded = Heeded(out: seq<Signal>, ended: bool, trimmed: bool, steps: nat)

  lemma {:induction false} RedisAfterSettles(r: Redis, sched: seq<seq<(PubOp, nat)>>, n: nat)
    ensures n >= |sched| ==> RedisAfter(r, sched, n) == RedisAfter(r, sched, |sched|)
    decreases n
  {
    if n > |sched| {
      RedisAfterSettles(r, sched, n - 1);
    }
  }

  /** Entries left to read from `cursor` on when nobody publishes any more. */
  function Remaining(r0: Redis, sched: seq<seq<(PubOp, nat)>>, cursor: nat): nat {
    var added := RedisAfter(r0, sched, |sched|).added;
    if cursor < |added| then |added| - cursor else 0
  }

  /** The live tail: one `XREAD` strictly after the cursor, following each batch from `steps` on. */
  function TailFrom(r0: Redis, sched: seq<seq<(PubOp, nat)>>, steps: nat, cursor: nat): Heeded
    decreases if steps < |sched| then |sched| - steps else 0, Remaining(r0, sched, cursor)
  {
    RedisAfterSettles(r0, sched, steps + 1);
    var r := RedisAfter(r0, sched, steps + 1);
    var lost, at := r.first > cursor, Max(cursor, r.first);
    var until := Min(at + READ_COUNT, |r.added|);
    if at >= until then
      if steps + 1 >= |sched| then Heeded([], false, lost, steps + 1)
      else
        var rest := TailFrom(r0, sched, steps + 1, at);
        rest.(trimmed := lost || rest.trimmed)
    else
      var (told, ended) := TellEntries(r.added[at..until], 0);
      if ended then Heeded(told, true, lost, steps + 1)
      else
        var rest := TailFrom(r0, sched, steps + 1, until);
        rest.(out := told + rest.out, trimmed := lost || rest.trimmed)
  }

  /** The replay of everything retained after batch 0, then the live tail. */
  function Subscribed(r0: Redis, from: nat, sched: seq<seq<(PubOp, nat)>>): Heeded {
    var r := RedisAfter(r0, sched, 1);
    var first := FirstOffset(Retained(r));
    var gap := if first.Some? && from < first.value then [Gap] else [];
    var (told, ended) := TellEntries(Retained(r), if first.Some? then Max(from, first.value) else from);
    if ended then Heeded(gap + told, true, false, 1)
    else
      var rest := TailFrom(r0, sched, 1, |r.added|);
      rest.(out := gap + told + rest.out)
  }

  /** `rest`, for a subscriber that had told `out` already. */
  function Resumed(out: seq<Signal>, trimmed: bool, rest: Heeded): Heeded {
    rest.(out := out + rest.out, trimmed := trimmed || rest.trimmed)
  }

  /** One `XREAD` of the tail, for a subscriber that had told `out` already. */
  lemma TailStep(r0: Redis, sched: seq<seq<(PubOp, nat)>>, steps: nat, cursor: nat, out: seq<Signal>, trimmed: bool)
    ensures var r := RedisAfter(r0, sched, steps + 1);
            var lost, at := trimmed || r.first > cursor, Max(cursor, r.first);
            var until := Min(at + 512, |r.added|);
            var all := Resumed(out, trimmed, TailFrom(r0, sched, steps, cursor));
            if at >= until then
              if steps + 1 >= |sched| then all == Heeded(out, false, lost, steps + 1)
              else all == Resumed(out, lost, TailFrom(r0, sched, steps + 1, at))
            else
              var (told, ended) := TellEntries(r.added[at..until], 0);
              if ended then all == Heeded(out + told, true, lost, steps + 1)
              else
                && all == Resumed(out + told, lost, TailFrom(r0, sched, steps + 1, until))
                && (steps >= |sched| ==> Remaining(r0, sched, until) < Remaining(r0, sched, cursor))
  {
    hide TellEntries, RedisAfter;
    RedisAfterSettles(r0, sched, steps + 1);
    var r := RedisAfter(r0, sched, steps + 1);
    var at := Max(cursor, r.first);
    var until := Min(at + READ_COUNT, |r.added|);
    assert out + [] == out;
    if at < until {
      var told := TellEntries(r.added[at..until], 0).0;
      var rest := TailFrom(r0, sched, steps + 1, until).out;
      assert out + (told + rest) == out + told + rest;
    }
  }

  lemma SubscribedIs(r0: Redis, from: nat, sched: seq<seq<(PubOp, nat)>>, out: seq<Signal>, ended: bool)
    requires var r := RedisAfter(r0, sched, 1);
             var first := FirstOffset(Retained(r));
             var (told, e) := TellEntries(Retained(r), if first.Some? then Max(from, first.value) else from);
             ended == e && out == (if first.Some? && from < first.value then [Gap] else []) + told
    ensures Subscribed(r0, from, sched)
         == if ended then Heeded(out, true, false, 1)
            else Resumed(out, false, TailFrom(r0, sched, 1, |RedisAfter(r0, sched, 1).added|))
  {
    hide TellEntries, RedisAfter, TailFrom, Retained, FirstOffset;
  }

  /** Entries handled one by one, yielding as they are read. */
  method ReadEntries(entries: seq<Entry>, lower: nat) returns (out: seq<Signal>, ended: bool)
    ensures (out, ended) == TellEntries(entries, lower)
  {
    hide ParseEntry;
    out, ended := [], false;
    var p := 0;
    assert entries[0..] == entries && forall rest: seq<Signal> :: [] + rest == rest;
    while p < |entries|
      invariant 0 <= p <= |entries|
      invariant var (rest, e) := TellEntries(entries[p..], lower); TellEntries(entries, lower) == (out + rest, e)
    {
      assert entries[p..][1..] == entries[p + 1..];
      ghost var rest := TellEntries(entries[p + 1..], lower).0;
      match ParseEntry(entries[p]) {
      case Some(Tok(token)) =>
        if token.offset >= lower {
          assert out + ([Tok(token)] + rest) == out + [Tok(token)] + rest;
          out := out + [Tok(token)];
        }
      case Some(Done) =>
        out, ended := out + [Done], true;
        return;
      case Some(Error(m)) =>
        out, ended := out + [Error(m), Done], true;
        return;
      case _ =>
      }
      p := p + 1;
    }
    assert entries[|entries|..] == [] && out + [] == out;
  }

  /** The subscriber's replay and loop, publishers on any instance running a batch before each of its reads. */
  method Subscribe(r0: Redis, from: nat, sched: seq<seq<(PubOp, nat)>>)
    returns (out: seq<Signal>, ended: bool, trimmed: bool, steps: nat)
    requires RedisOk(r0)
    ensures Heeded(out, ended, trimmed, steps) == Subscribed(r0, from, sched)
  {
    hide RedisOk, RunRedis, TellEntries, FirstOffset, Heard, Retained, EarliestRetained, Log, ParseEntry;
    hide TailFrom, Subscribed, Resumed, Remaining;
    RedisAfterKeeps(r0, sched, 0, 1);
    var r := RedisAfter(r0, sched, 1);
    var snap := Retained(r);
    var first := FirstOffset(snap);
    out := if first.Some? && from < first.value then [Gap] else [];
    var told;
    told, ended := ReadEntries(snap, if first.Some? then Max(from, first.value) else from);
    out := out + told;
    trimmed, steps := false, 1;
    SubscribedIs(r0, from, sched, out, ended);
    if ended {
      return;
    }
    var cursor: nat := |r.added|;
    while true
      invariant !ended && r == RedisAfter(r0, sched, steps)
      invariant Subscribed(r0, from, sched) == Resumed(out, trimmed, TailFrom(r0, sched, steps, cursor))
      decreases if steps < |sched| then |sched| - steps else 0, Remaining(r0, sched, cursor)
    {
      TailStep(r0, sched, steps, cursor, out, trimmed);
      r := RunRedis(r, RedisBatch(sched, steps));
      steps := steps + 1;
      trimmed := trimmed || r.first > cursor;
      cursor := Max(cursor, r.first);
      var until := Min(cursor + READ_COUNT, |r.added|);
      if cursor >= until {
        if steps >= |sched| {
          return;
        }
        continue;
      }
      told, ended := ReadEntries(r.added[cursor..until], 0);
      out := out + told;
      if ended {
        return;
      }
      cursor := until;
    }
  }

  // --- What the subscriber tells ----------------------------------------------------------------------

  /** A subscriber that has handled every entry before position `p` without meeting a terminal. */
  ghost predicate SubscriberOk(r: Redis, gap: bool, start: nat, p: int, upto: nat, out: seq<Signal>) {
    && RedisOk(r) && 0 <= p <= |r.added|
    && (forall i :: 0 <= i < p ==> !IsTerminal(Heard(r)[i]))
    && start <= upto <= |Log(Heard(r))|
    && upto == Max(start, |Log(Heard(r)[..p])|)
    && out == Emitted(Log(Heard(r)), gap, start, upto, None)
  }

  /** Nothing trimmed away was a terminal. */
  ghost predicate EndRetained(r: Redis) {
    r.first <= TermPos(Heard(r))
  }

  lemma SubscriberStarts(r: Redis, from: nat)
    requires RedisOk(r) && EndRetained(r)
    ensures EarliestRetained(r) <= r.counter
    ensures SubscriberOk(r, from < EarliestRetained(r), Min(Max(from, EarliestRetained(r)), r.counter), r.first,
                         Min(Max(from, EarliestRetained(r)), r.counter),
                         if from < EarliestRetained(r) then [Gap] else [])
  {
    hide Log, ParseEntry, Emitted;
    var sigs, first := Heard(r), r.first;
    LogPrefix(sigs[..first], sigs);
    var start := Min(Max(from, EarliestRetained(r)), r.counter);
    EmittedNothing(Log(sigs), from < EarliestRetained(r), start);
  }

  lemma EmittedNothing(log: seq<Token>, gap: bool, start: nat)
    requires start <= |log|
    ensures Emitted(log, gap, start, start, None) == if gap then [Gap] else []
  {
    assert Toks(log[start..start]) == [];
  }

  /** On a quiet stream a retained token stands after everything trimmed, so no terminal was trimmed. */
  lemma QuietRetainsItsEnd(r: Redis)
    requires RedisOk(r) && Quiet(Heard(r))
    ensures EndRetained(r)
  {
    hide Log, ParseEntry;
    if r.counter > 0 {
      var i :| r.first <= i < |r.added| && Heard(r)[i].Tok?;
      assert i < TermPos(Heard(r)) || TermPos(Heard(r)) < i;
    }
  }

  lemma SubscriberGrows(r: Redis, r': Redis, gap: bool, start: nat, p: int, upto: nat, out: seq<Signal>)
    requires SubscriberOk(r, gap, start, p, upto, out)
    requires RedisOk(r') && Heard(r) <= Heard(r')
    ensures SubscriberOk(r', gap, start, p, upto, out)
  {
    hide RedisOk, Emitted, Log;
    LogPrefix(Heard(r), Heard(r'));
    assert Heard(r')[..p] == Heard(r)[..p];
    EmittedPush(Log(Heard(r)), Log(Heard(r')), gap, start, upto, out);
  }

  /** The entry at `p` parses; a token there is the next of the log and carries that offset. */
  lemma TakeEntry(r: Redis, p: int)
    requires RedisOk(r) && 0 <= p < |r.added|
    ensures var sig, seen := Heard(r)[p], Log(Heard(r)[..p]);
            && ParseEntry(r.added[p]) == Some(sig) && sig != Gap
            && Log(Heard(r)[..p + 1]) == (if sig.Tok? then seen + [sig.token] else seen)
            && |seen| <= |Log(Heard(r))|
            && (sig.Tok? ==>
                  |seen| < |Log(Heard(r))| && sig.token == Log(Heard(r))[|seen|] && sig.token.offset == |seen|)
  {
    var sigs := Heard(r);
    LogPush(sigs[..p], sigs[p]);
    assert sigs[..p + 1] == sigs[..p] + [sigs[p]];
    LogPrefix(sigs[..p + 1], sigs);
    LogPrefix(sigs[..p], sigs);
    hide Log, ParseEntry;
  }

  /** Handling one entry: a token at or past the start is emitted, an earlier one skipped, a terminal ends it. */
  lemma SubscriberTakes(r: Redis, gap: bool, start: nat, p: int, upto: nat, out: seq<Signal>)
    requires SubscriberOk(r, gap, start, p, upto, out) && p < |r.added|
    ensures var sig := Heard(r)[p];
            && ParseEntry(r.added[p]) == Some(sig) && sig != Gap
            && (sig.Tok? ==>
                  && sig.token.offset == |Log(Heard(r)[..p])|
                  && if sig.token.offset >= start then SubscriberOk(r, gap, start, p + 1, upto + 1, out + [sig])
                     else SubscriberOk(r, gap, start, p + 1, upto, out))
  {
    hide Log, Emitted, RedisOk, ParseEntry;
    TakeEntry(r, p);
    EmittedPush(Log(Heard(r)), Log(Heard(r)), gap, start, upto, out);
  }

  lemma SubscriberEnds(r: Redis, gap: bool, start: nat, p: int, upto: nat, out: seq<Signal>)
    requires SubscriberOk(r, gap, start, p, upto, out) && p < |r.added| && IsTerminal(Heard(r)[p])
    ensures TermOf(Heard(r)) == Some(Heard(r)[p]) && start <= |Log(Heard(r))|
    ensures out + Tail(Heard(r)[p]) == Told(Heard(r), gap, start, 0)
  {
    hide Log, Emitted, RedisOk, Tail;
    FirstTerminal(Heard(r), p);
    EmittedPush(Log(Heard(r)), Log(Heard(r)), gap, start, upto, out);
  }

  lemma SubscriberDrained(r: Redis, gap: bool, start: nat, p: int, upto: nat, out: seq<Signal>)
    requires SubscriberOk(r, gap, start, p, upto, out) && p == |r.added|
    ensures start <= |Log(Heard(r))| && TermOf(Heard(r)) == None
    ensures out == Told(Heard(r), gap, start, 0)
  {
    hide Log, Emitted, RedisOk;
    assert Heard(r)[..p] == Heard(r);
    TokensBeforeIsSome(Heard(r));
  }

  /** Where a subscriber stands before position `p`: ended with all told, or with no terminal met so far. */
  ghost predicate Standing(r: Redis, gap: bool, start: nat, p: int, upto: nat, out: seq<Signal>, ended: bool) {
    if ended then start <= |Log(Heard(r))| && TermOf(Heard(r)).Some? && out == Told(Heard(r), gap, start, 0)
    else SubscriberOk(r, gap, start, p, upto, out)
  }

  /** The entries from `p` to `until` tell what the log holds there from the start on, and then its terminal. */
  lemma {:induction false} EntriesTold(
    r: Redis, p: nat, until: nat, lower: nat, gap: bool, start: nat, upto: nat, out: seq<Signal>)
    returns (upto': nat)
    requires SubscriberOk(r, gap, start, p, upto, out) && p <= until <= |r.added|
    requires forall i :: p <= i < until && Heard(r)[i].Tok? ==>
               (Heard(r)[i].token.offset >= lower <==> Heard(r)[i].token.offset >= start)
    ensures var (told, ended) := TellEntries(r.added[p..until], lower);
            Standing(r, gap, start, until, upto', out + told, ended)
    decreases until - p
  {
    hide RedisOk, Log, TermPos, TermOf, Heard, SubscriberOk, ParseEntry, Told, IsTerminal;
    upto' := upto;
    if p == until {
      assert r.added[p..until] == [] && out + [] == out;
    } else {
      SubscriberTakes(r, gap, start, p, upto, out);
      var entries := r.added[p..until];
      assert entries[1..] == r.added[p + 1..until] && entries[0] == r.added[p];
      match ParseEntry(entries[0])
      case Some(Tok(token)) =>
        if token.offset >= lower {
          upto' := EntriesTold(r, p + 1, until, lower, gap, start, upto + 1, out + [Tok(token)]);
          var rest := TellEntries(entries[1..], lower).0;
          assert out + ([Tok(token)] + rest) == out + [Tok(token)] + rest;
        } else {
          upto' := EntriesTold(r, p + 1, until, lower, gap, start, upto, out);
        }
      case Some(term) =>
        HeardIs(r, p, term);
        SubscriberEnds(r, gap, start, p, upto, out);
    }
  }

  lemma HeardIs(r: Redis, p: nat, term: Signal)
    requires p < |r.added| && ParseEntry(r.added[p]) == Some(term) && term != Gap && !term.Tok?
    ensures Heard(r)[p] == term && IsTerminal(term)
    ensures Tail(term) == if term.Error? then [term, Done] else [term]
  {
    hide ParseEntry;
  }

  function FirstOffset(entries: seq<Entry>): Option<nat> {
    if entries == [] then None
    else
      match ParseEntry(entries[0])
      case Some(Tok(token)) => Some(token.offset)
      case _ => FirstOffset(entries[1..])
  }

  lemma BasicFacts(r: Redis)
    requires RedisOk(r)
    ensures r.first <= |r.added| == |Heard(r)| && r.counter == |Log(Heard(r))|
    ensures EarliestRetained(r) <= r.counter
  {
    LogPrefix(Heard(r)[..r.first], Heard(r));
  }

  lemma {:induction false} FirstOffsetFrom(r: Redis, p: nat)
    requires RedisOk(r) && p <= |r.added|
    ensures FirstOffset(r.added[p..])
         == if |Log(Heard(r)[..p])| < r.counter then Some(|Log(Heard(r)[..p])|) else None
    ensures |Log(Heard(r)[..p])| <= r.counter
    decreases |r.added| - p
  {
    hide Log, ParseEntry;
    LogPrefix(Heard(r)[..p], Heard(r));
    if p < |r.added| {
      TakeEntry(r, p);
      FirstOffsetFrom(r, p + 1);
      assert r.added[p..][1..] == r.added[p + 1..];
    } else {
      assert Heard(r)[..p] == Heard(r);
    }
  }

  /** The first token the replay finds is at the earliest retained offset. */
  lemma FirstOffsetIsEarliest(r: Redis)
    requires RedisOk(r)
    ensures EarliestRetained(r) <= r.counter
    ensures FirstOffset(Retained(r)) == if EarliestRetained(r) < r.counter then Some(EarliestRetained(r)) else None
    ensures EarliestRetained(r) == r.counter ==> r.counter == 0
  {
    FirstOffsetFrom(r, r.first);
    if r.counter > 0 {
      var i :| r.first <= i < |r.added| && Heard(r)[i].Tok?;
      TakeEntry(r, i);
      LogPrefix(Heard(r)[..r.first], Heard(r)[..i]);
    }
  }

  lemma HeardBefore(r: Redis, p: int)
    requires RedisOk(r) && 0 <= p < |r.added|
    ensures Heard(r)[p].Tok? ==> Heard(r)[p].token.offset < r.counter
  {
    TakeEntry(r, p);
  }

  /** A token added after a snapshot has an offset the snapshot had not assigned yet. */
  lemma HeardSince(snap: Redis, r: Redis, p: int)
    requires RedisOk(snap) && RedisOk(r) && Heard(snap) <= Heard(r) && |snap.added| <= p < |r.added|
    ensures Heard(r)[p].Tok? ==> Heard(r)[p].token.offset >= snap.counter
  {
    TakeEntry(r, p);
    LogPrefix(Heard(snap), Heard(r)[..p]);
  }

  lemma HeardLengths(r: Redis, r': Redis)
    requires Heard(r) <= Heard(r')
    ensures |r.added| <= |r'.added|
  {
  }

  lemma LogPrefixHeard(snap: Redis, r: Redis)
    requires RedisOk(snap) && Heard(snap) <= Heard(r)
    ensures snap.counter <= |Log(Heard(r))|
  {
    LogPrefix(Heard(snap), Heard(r));
  }

  lemma QuietPrefix(a: seq<Signal>, b: seq<Signal>)
    requires a <= b && Quiet(b)
    ensures Quiet(a)
  {
    forall i | TermPos(a) < i < |a| ensures !a[i].Tok? {
      assert IsTerminal(b[TermPos(a)]);
      assert b[i] == a[i];
    }
  }

  /** Only what was trimmed past the cursor, and so past the snapshot, is ever reported as lost. */
  lemma {:induction false} TrimmedMeans(r0: Redis, sched: seq<seq<(PubOp, nat)>>, steps: nat, cursor: nat)
    ensures var d := TailFrom(r0, sched, steps, cursor);
            d.steps > steps && (d.trimmed ==> RedisAfter(r0, sched, d.steps).first > cursor)
            && RedisAfter(r0, sched, steps + 1).first <= RedisAfter(r0, sched, d.steps).first
    decreases if steps < |sched| then |sched| - steps else 0, Remaining(r0, sched, cursor)
  {
    hide RunRedis, TellEntries;
    RedisAfterSettles(r0, sched, steps + 1);
    var r := RedisAfter(r0, sched, steps + 1);
    var at := Max(cursor, r.first);
    var until := Min(at + READ_COUNT, |r.added|);
    RunRedisTrims(r, RedisBatch(sched, steps + 1));
    if at >= until {
      if steps + 1 < |sched| {
        TrimmedMeans(r0, sched, steps + 1, at);
      }
    } else if !TellEntries(r.added[at..until], 0).1 {
      TrimmedMeans(r0, sched, steps + 1, until);
    }
  }

  /** The live tail, resumed where all is told so far. */
  lemma {:induction false} TailTells(
    r0: Redis, sched: seq<seq<(PubOp, nat)>>, steps: nat, cursor: nat, snap: Redis, gap: bool, start: nat, upto: nat,
    out: seq<Signal>)
    requires RedisOk(r0) && RedisOk(snap) && start <= snap.counter && |snap.added| <= cursor
    requires Heard(snap) <= Heard(RedisAfter(r0, sched, steps))
    requires SubscriberOk(RedisAfter(r0, sched, steps), gap, start, cursor, upto, out)
    requires !TailFrom(r0, sched, steps, cursor).trimmed
    ensures var d := TailFrom(r0, sched, steps, cursor);
            var sigs := Heard(RedisAfter(r0, sched, d.steps));
            && start <= |Log(sigs)| && out + d.out == Told(sigs, gap, start, 0)
            && (d.ended <==> TermOf(sigs).Some?) && Heard(snap) <= sigs
    decreases if steps < |sched| then |sched| - steps else 0, Remaining(r0, sched, cursor)
  {
    hide RedisOk, RunRedis, TellEntries, Log, TermOf, Told, SubscriberOk, Heard, RedisAfter;
    RedisAfterSettles(r0, sched, steps + 1);
    RedisAfterKeeps(r0, sched, steps, steps + 1);
    var r := RedisAfter(r0, sched, steps + 1);
    HeardLengths(RedisAfter(r0, sched, steps), r);
    SubscriberGrows(RedisAfter(r0, sched, steps), r, gap, start, cursor, upto, out);
    SubscriberBounds(r, gap, start, cursor, upto, out);
    var until := Min(cursor + READ_COUNT, |r.added|);
    if cursor >= until {
      if steps + 1 >= |sched| {
        SubscriberDrained(r, gap, start, cursor, upto, out);
        assert out + [] == out;
      } else {
        TailTells(r0, sched, steps + 1, cursor, snap, gap, start, upto, out);
      }
    } else {
      LiveOffsets(snap, r, cursor, until, start);
      var upto' := EntriesTold(r, cursor, until, 0, gap, start, upto, out);
      var (told, ended) := TellEntries(r.added[cursor..until], 0);
      if !ended {
        TailTells(r0, sched, steps + 1, until, snap, gap, start, upto', out + told);
        var rest := TailFrom(r0, sched, steps + 1, until).out;
        assert out + (told + rest) == out + told + rest;
      }
    }
  }

  lemma SubscriberBounds(r: Redis, gap: bool, start: nat, p: int, upto: nat, out: seq<Signal>)
    requires SubscriberOk(r, gap, start, p, upto, out)
    ensures 0 <= p <= |r.added|
  {
  }

  /** In the live tail every token is at or past the start. */
  lemma LiveOffsets(snap: Redis, r: Redis, cursor: nat, until: nat, start: nat)
    requires RedisOk(snap) && RedisOk(r) && Heard(snap) <= Heard(r) && |snap.added| <= cursor <= until <= |r.added|
    requires start <= snap.counter
    ensures forall p :: cursor <= p < until && Heard(r)[p].Tok? ==>
              (Heard(r)[p].token.offset >= 0 <==> Heard(r)[p].token.offset >= start)
  {
    hide RedisOk;
    forall p | cursor <= p < until && Heard(r)[p].Tok? ensures Heard(r)[p].token.offset >= start {
      HeardSince(snap, r, p);
    }
  }

  /**
   * The subscriber tells exactly what is to be told: a gap first exactly when the place asked for was no longer
   * retained, every token from its start up to the first terminal, and that terminal, which is what ends it; left
   * waiting it has told everything. This fails only if a terminal was trimmed before its snapshot, or entries were
   * trimmed that it had not read, all of them added after its snapshot.
   */
  lemma SubscriberTells(r0: Redis, from: nat, sched: seq<seq<(PubOp, nat)>>)
    requires RedisOk(r0)
    ensures var d := Subscribed(r0, from, sched);
            var snap, r := RedisAfter(r0, sched, 1), RedisAfter(r0, sched, d.steps);
            var start := Min(Max(from, EarliestRetained(snap)), snap.counter);
            && d.steps >= 1 && Heard(snap) <= Heard(r) && start <= snap.counter <= |Log(Heard(r))|
            && (d.trimmed ==> r.first > |snap.added|)
            && (!d.trimmed && EndRetained(snap) ==>
                  && d.out == Told(Heard(r), from < EarliestRetained(snap), start, 0)
                  && (d.ended <==> TermOf(Heard(r)).Some?))
  {
    hide RedisOk, RunRedis, Log, Heard, EarliestRetained, Told, TermOf, SubscriberOk, TellEntries, FirstOffset, TermPos;
    hide RedisAfter, TailFrom, EndRetained;
    RedisAfterKeeps(r0, sched, 0, 1);
    var d, snap := Subscribed(r0, from, sched), RedisAfter(r0, sched, 1);
    BasicFacts(snap);
    FirstOffsetIsEarliest(snap);
    TrimmedMeans(r0, sched, 1, |snap.added|);
    RedisAfterKeeps(r0, sched, 1, d.steps);
    LogPrefixHeard(snap, RedisAfter(r0, sched, d.steps));
    if !d.trimmed && EndRetained(snap) {
      ReplayTells(r0, from, sched);
    }
  }

  lemma ReplayTells(r0: Redis, from: nat, sched: seq<seq<(PubOp, nat)>>)
    requires RedisOk(r0)
    requires !Subscribed(r0, from, sched).trimmed && EndRetained(RedisAfter(r0, sched, 1))
    ensures var d := Subscribed(r0, from, sched);
            var snap, r := RedisAfter(r0, sched, 1), RedisAfter(r0, sched, d.steps);
            var start := Min(Max(from, EarliestRetained(snap)), snap.counter);
            && start <= |Log(Heard(r))| && d.out == Told(Heard(r), from < EarliestRetained(snap), start, 0)
            && (d.ended <==> TermOf(Heard(r)).Some?)
  {
    hide RedisOk, RunRedis, Log, Heard, EarliestRetained, Told, TermOf, SubscriberOk, TellEntries, FirstOffset, TermPos;
    hide RedisAfter, TailFrom, EndRetained, ParseEntry;
    RedisAfterKeeps(r0, sched, 0, 1);
    var snap := RedisAfter(r0, sched, 1);
    BasicFacts(snap);
    FirstOffsetIsEarliest(snap);
    var earliest := EarliestRetained(snap);
    var start := Min(Max(from, earliest), snap.counter);
    var first := FirstOffset(Retained(snap));
    var lower := if first.Some? then Max(from, first.value) else from;
    var gap := if from < earliest then [Gap] else [];
    SubscriberStarts(snap, from);
    forall p | snap.first <= p < |snap.added| && Heard(snap)[p].Tok?
      ensures Heard(snap)[p].token.offset >= lower <==> Heard(snap)[p].token.offset >= start
    {
      HeardBefore(snap, p);
    }
    var upto := EntriesTold(snap, snap.first, |snap.added|, lower, from < earliest, start, start, gap);
    assert snap.added[snap.first..|snap.added|] == Retained(snap);
    var (told, ended) := TellEntries(Retained(snap), lower);
    if !ended {
      TailTells(r0, sched, 1, |snap.added|, snap, from < earliest, start, upto, gap + told);
    }
  }

  // --- Both backends at once ---------------------------------------------------------------------

  function PubOps(ops: seq<(PubOp, nat)>): (p: seq<PubOp>)
    ensures |p| == |ops|
  {
    if ops == [] then [] else [ops[0].0] + PubOps(ops[1..])
  }

  /** The two backends hold the same tokens and the same first terminal. */
  ghost predicate Agree(s: Inner, r: Redis) {
    && StreamOk(s) && RedisOk(r)
    && Log(s.sent) == Log(Heard(r))
    && TermOf(s.sent) == TermOf(Heard(r))
    && TokensBeforeTerm(s.sent) == TokensBeforeTerm(Heard(r))
    && (Quiet(s.sent) <==> Quiet(Heard(r)))
  }

  lemma PushTold(sent: seq<Signal>, sig: Signal)
    ensures Log(sent + [sig]) == if sig.Tok? then Log(sent) + [sig.token] else Log(sent)
    ensures TermOf(sent + [sig])
         == if TermOf(sent).Some? then TermOf(sent) else if IsTerminal(sig) then Some(sig) else None
    ensures TokensBeforeTerm(sent + [sig])
         == if TermOf(sent).Some? then TokensBeforeTerm(sent) else |Log(sent + [sig])|
    ensures Quiet(sent + [sig]) <==> Quiet(sent) && !(TermOf(sent).Some? && sig.Tok?)
  {
    hide Log, TermPos;
    LogPush(sent, sig);
    TermPosPush(sent, sig);
    var longer := sent + [sig];
    assert longer[|sent|] == sig;
    assert forall i :: 0 <= i < |sent| ==> longer[i] == sent[i];
    assert forall n :: 0 <= n <= |sent| ==> longer[..n] == sent[..n];
    assert longer[..|longer|] == longer && sent[..|sent|] == sent;
    if Quiet(longer) && TermPos(sent) < |sent| {
      forall i | TermPos(sent) < i < |sent| ensures !sent[i].Tok? {
        assert !longer[i].Tok?;
      }
    }
  }

  /** A second terminal is dropped by one backend and stored by the other; either way it changes nothing told. */
  lemma ApplyAgrees(s: Inner, r: Redis, op: PubOp, trim: nat)
    requires Agree(s, r)
    ensures Agree(ApplyPub(s, op), ApplyRedis(r, op, trim))
  {
    ApplyPubKeeps(s, op);
    ApplyRedisKeeps(r, op, trim);
    CountersAgree(s, r);
    hide StreamOk, RedisOk, Log, TermPos, TermOf, Heard, ApplyRedis, Quiet, LastN, TokensBeforeTerm;
    var sig := SignalFor(r.counter, op);
    PushTold(s.sent, sig);
    PushTold(Heard(r), sig);
    ApplySends(s, op);
  }

  lemma CountersAgree(s: Inner, r: Redis)
    requires Agree(s, r)
    ensures s.nextOffset == r.counter && (Terminal(s) <==> TermOf(s.sent).Some?)
  {
    hide Log, TermPos, Heard;
  }

  lemma ApplySends(s: Inner, op: PubOp)
    ensures ApplyPub(s, op).sent
         == match op
            case OpPublish(d) => s.sent + [Tok(Token(s.nextOffset, d))]
            case OpComplete => if Terminal(s) then s.sent else s.sent + [Done]
            case OpFail(m) => if Terminal(s) then s.sent else s.sent + [Error(m)]
  {
  }

  lemma {:induction false} RunAgrees(s: Inner, r: Redis, ops: seq<(PubOp, nat)>)
    requires Agree(s, r)
    ensures Agree(RunPub(s, PubOps(ops)), RunRedis(r, ops))
    decreases |ops|
  {
    hide Agree, ApplyPub, ApplyRedis;
    if ops != [] {
      ApplyAgrees(s, r, ops[0].0, ops[0].1);
      RunAgrees(ApplyPub(s, ops[0].0), ApplyRedis(r, ops[0].0, ops[0].1), ops[1..]);
      assert PubOps(ops)[1..] == PubOps(ops[1..]);
    }
  }

  lemma {:induction false} RunRedisJoin(r: Redis, a: seq<(PubOp, nat)>, b: seq<(PubOp, nat)>)
    ensures RunRedis(r, a + b) == RunRedis(RunRedis(r, a), b)
    decreases |a|
  {
    hide ApplyRedis;
    if a == [] {
      assert a + b == b;
    } else {
      RunRedisJoin(ApplyRedis(r, a[0].0, a[0].1), a[1..], b);
      assert (a + b)[1..] == a[1..] + b;
    }
  }

  lemma {:induction false} RedisAfterIsRun(r: Redis, sched: seq<seq<(PubOp, nat)>>, n: nat)
    requires n <= |sched|
    ensures RedisAfter(r, sched, n) == RunRedis(r, Flat(sched[..n]))
    decreases n
  {
    hide RunRedis;
    if n == 0 {
      RunRedisNone(r);
    } else {
      RedisAfterIsRun(r, sched, n - 1);
      assert sched[..n][..n - 1] == sched[..n - 1];
      RunRedisJoin(r, Flat(sched[..n - 1]), sched[n - 1]);
    }
  }

  lemma RunRedisNone(r: Redis)
    ensures RunRedis(r, []) == r
  {
  }

  lemma FreshAgrees(maxLen: nat)
    requires maxLen >= 1
    ensures Agree(New(maxLen), Fresh(maxLen))
  {
    assert Heard(Fresh(maxLen)) == [];
  }

  /** As a stream grows, what is to be told of it grows; once a terminal is in, it is fixed. */
  lemma ToldGrows(a: seq<Signal>, b: seq<Signal>, gap: bool, start: nat, reach: nat)
    requires a <= b && start <= |Log(a)| && reach <= |Log(a)|
    ensures |Log(a)| <= |Log(b)|
    ensures Told(a, gap, start, reach) <= Told(b, gap, start, reach)
    ensures TermOf(a).Some? ==> Told(a, gap, start, reach) == Told(b, gap, start, reach)
  {
    hide Log, Emitted, TermPos;
    LogPrefix(a, b);
    TokensBeforeIsSome(a);
    TokensBeforeIsSome(b);
    TermStays(a, b);
    var upto, more := Max(start, Max(reach, TokensBeforeTerm(a))), Max(start, Max(reach, TokensBeforeTerm(b)));
    if TermOf(a).Some? {
      assert b[..TermPos(b)] == a[..TermPos(a)];
      SameEmitted(Log(a), Log(b), gap, start, upto, TermOf(a));
    } else {
      LogPrefix(a, b[..TermPos(b)]);
      SameEmitted(Log(a), Log(b), gap, start, upto, None);
      EmittedIsPrefix(Log(b), gap, start, upto, more, TermOf(b));
    }
  }

  lemma {:induction false} TermStays(a: seq<Signal>, b: seq<Signal>)
    requires a <= b
    ensures if TermPos(a) < |a| then TermPos(b) == TermPos(a) && b[TermPos(a)] == a[TermPos(a)] else TermPos(b) >= |a|
    ensures TermPos(b) >= |a| ==> a <= b[..TermPos(b)]
  {
    var p, q := TermPos(a), TermPos(b);
    assert forall i :: 0 <= i < |a| ==> b[i] == a[i];
    if p < |a| {
      assert IsTerminal(b[p]);
    }
    if q < |a| {
      assert IsTerminal(a[q]);
    } else {
      assert b[..q][..|a|] == b[..|a|] == a;
    }
  }

  lemma SameEmitted(log: seq<Token>, longer: seq<Token>, gap: bool, start: nat, upto: nat, term: Option<Signal>)
    requires start <= upto <= |log| && log <= longer
    ensures Emitted(log, gap, start, upto, term) == Emitted(longer, gap, start, upto, term)
  {
    assert longer[start..upto] == log[start..upto];
  }

  /** Reaching past the terminal shows exactly when tokens were published there. */
  lemma ReachShows(sent: seq<Signal>, gap: bool, start: nat, reach: nat)
    requires start <= reach <= |Log(sent)|
    ensures Told(sent, gap, start, reach) == Told(sent, gap, start, 0)
            <==> reach <= Max(start, TokensBeforeTerm(sent))
  {
    hide Log, TermPos, Tail;
    TokensBeforeIsSome(sent);
    var b := TokensBeforeTerm(sent);
    assert |Told(sent, gap, start, reach)| - |Told(sent, gap, start, 0)| == Max(reach, b) - Max(start, b);
  }

  /** Where the replay of a subscriber that asked for `from` starts. */
  function ReplayStart(r: Redis, from: nat): nat {
    Min(Max(from, EarliestRetained(r)), r.counter)
  }

  /**
   * A reader on each backend, each with its own steps among the same operations: both were told of a gap or neither,
   * both start at the same offset, and nothing the second had not read was trimmed.
   */
  ghost predicate Comparable(maxLen: nat, from: nat, sched: seq<seq<PubOp>>, rsched: seq<seq<(PubOp, nat)>>) {
    var snap, rsnap := After(New(maxLen), sched, 2), RedisAfter(Fresh(maxLen), rsched, 1);
    && Flat(sched) == PubOps(Flat(rsched))
    && (from < Earliest(snap) <==> from < EarliestRetained(rsnap))
    && StartOf(snap, from) == ReplayStart(rsnap, from)
    && !Subscribed(Fresh(maxLen), from, rsched).trimmed
  }

  /** The stream once every operation has run. */
  function Final(maxLen: nat, sched: seq<seq<PubOp>>): Inner {
    RunPub(New(maxLen), Flat(sched))
  }

  /** Whatever a reader saw is part of the final stream. */
  lemma LeadsToFinal(s: Inner, sched: seq<seq<PubOp>>, n: nat)
    requires StreamOk(s)
    ensures After(s, sched, n).sent <= RunPub(s, Flat(sched)).sent && StreamOk(RunPub(s, Flat(sched)))
  {
    hide StreamOk, RunPub, After;
    AfterIsRun(s, sched, |sched|);
    assert sched[..|sched|] == sched;
    AfterSettles(s, sched, n);
    AfterKeeps(s, sched, Min(n, |sched|), |sched|);
  }

  lemma RedisLeadsToFinal(r: Redis, sched: seq<seq<(PubOp, nat)>>, n: nat)
    requires RedisOk(r)
    ensures Heard(RedisAfter(r, sched, n)) <= Heard(RunRedis(r, Flat(sched))) && RedisOk(RedisAfter(r, sched, n))
  {
    hide RedisOk, RunRedis, RedisAfter, Heard;
    RedisAfterIsRun(r, sched, |sched|);
    assert sched[..|sched|] == sched;
    RedisAfterSettles(r, sched, n);
    RedisAfterKeeps(r, sched, Min(n, |sched|), |sched|);
  }

  /** The two backends end up telling the same. */
  lemma FinalsAgree(maxLen: nat, sched: seq<seq<PubOp>>, rsched: seq<seq<(PubOp, nat)>>)
    requires maxLen >= 1 && Flat(sched) == PubOps(Flat(rsched))
    ensures Agree(Final(maxLen, sched), RunRedis(Fresh(maxLen), Flat(rsched)))
    ensures StreamOk(New(maxLen)) && RedisOk(Fresh(maxLen))
  {
    hide Agree, RunPub, RunRedis, New, Fresh;
    FreshAgrees(maxLen);
    AgreeMeans(New(maxLen), Fresh(maxLen));
    RunAgrees(New(maxLen), Fresh(maxLen), Flat(rsched));
  }

  /** The in-memory reader has told a part of what is to be told of the final stream, and all of it once it ended. */
  lemma MemoryTells(maxLen: nat, from: nat, sched: seq<seq<PubOp>>)
    requires maxLen >= 1 && StreamOk(New(maxLen))
    ensures var m, sent := Read(New(maxLen), from, sched), Final(maxLen, sched).sent;
            var snap := After(New(maxLen), sched, 2);
            && StartOf(snap, from) <= snap.nextOffset <= |Log(sent)|
            && var told := Told(sent, from < Earliest(snap), StartOf(snap, from), snap.nextOffset);
               m.out <= told && (m.end.Ended? ==> m.out == told)
  {
    hide StreamOk, Log, TermOf, Told, Read, After, RunPub, New, Earliest;
    var m, snap := Read(New(maxLen), from, sched), After(New(maxLen), sched, 2);
    ReadTells(New(maxLen), from, sched);
    LeadsToFinal(New(maxLen), sched, m.steps);
    ToldGrows(After(New(maxLen), sched, m.steps).sent, Final(maxLen, sched).sent,
              from < Earliest(snap), StartOf(snap, from), snap.nextOffset);
  }

  /** So has the subscriber on the other backend. */
  lemma RedisTells(maxLen: nat, from: nat, rsched: seq<seq<(PubOp, nat)>>)
    requires RedisOk(Fresh(maxLen))
    requires !Subscribed(Fresh(maxLen), from, rsched).trimmed && EndRetained(RedisAfter(Fresh(maxLen), rsched, 1))
    ensures var d, sent := Subscribed(Fresh(maxLen), from, rsched), Heard(RunRedis(Fresh(maxLen), Flat(rsched)));
            var rsnap := RedisAfter(Fresh(maxLen), rsched, 1);
            && ReplayStart(rsnap, from) <= |Log(sent)|
            && var told := Told(sent, from < EarliestRetained(rsnap), ReplayStart(rsnap, from), 0);
               d.out <= told && (d.ended ==> d.out == told)
  {
    hide RedisOk, Log, TermOf, Told, Subscribed, RedisAfter, RunRedis, Fresh, Heard, EarliestRetained, EndRetained;
    var d, rsnap := Subscribed(Fresh(maxLen), from, rsched), RedisAfter(Fresh(maxLen), rsched, 1);
    SubscriberTells(Fresh(maxLen), from, rsched);
    RedisLeadsToFinal(Fresh(maxLen), rsched, d.steps);
    ToldGrows(Heard(RedisAfter(Fresh(maxLen), rsched, d.steps)), Heard(RunRedis(Fresh(maxLen), Flat(rsched))),
              from < EarliestRetained(rsnap), ReplayStart(rsnap, from), 0);
  }

  lemma ToldAgrees(s: Inner, r: Redis, gap: bool, start: nat, reach: nat)
    requires Agree(s, r) && start <= |Log(s.sent)| && reach <= |Log(s.sent)|
    ensures |Log(Heard(r))| == |Log(s.sent)|
    ensures Told(s.sent, gap, start, reach) == Told(Heard(r), gap, start, reach)
  {
    hide StreamOk, RedisOk, Log, TermOf, Heard, Emitted;
  }

  /**
   * Two backends, one contract, and exactly where it stops. Two subscribers, one on each backend, see the same
   * operations but take their own steps among them; both were told of a gap or neither, and both start at the same
   * offset. When both end they have told the same signals if and only if the in-memory snapshot held no token from the
   * start on that was published after the first terminal. And then, at any time before, one's signals are a prefix of
   * the other's.
   */
  lemma BothBackends(maxLen: nat, from: nat, sched: seq<seq<PubOp>>, rsched: seq<seq<(PubOp, nat)>>)
    requires maxLen >= 1 && Comparable(maxLen, from, sched, rsched)
    requires EndRetained(RedisAfter(Fresh(maxLen), rsched, 1))
    ensures var m, d := Read(New(maxLen), from, sched), Subscribed(Fresh(maxLen), from, rsched);
            var snap := After(New(maxLen), sched, 2);
            var same := snap.nextOffset <= Max(StartOf(snap, from), TokensBeforeTerm(Final(maxLen, sched).sent));
            && (m.end.Ended? && d.ended ==> (m.out == d.out <==> same))
            && (same ==> m.out <= d.out || d.out <= m.out)
  {
    hide Read, Subscribed, After, RedisAfter, TokensBeforeTerm, Told, Final, Log, StreamOk, RedisOk, Agree, RunRedis;
    hide Earliest, EarliestRetained, StartOf, ReplayStart, New, Fresh, EndRetained, Heard;
    var snap, final := After(New(maxLen), sched, 2), Final(maxLen, sched);
    var gap, start := from < Earliest(snap), StartOf(snap, from);
    FinalsAgree(maxLen, sched, rsched);
    MemoryTells(maxLen, from, sched);
    RedisTells(maxLen, from, rsched);
    ToldAgrees(final, RunRedis(Fresh(maxLen), Flat(rsched)), gap, start, 0);
    ReachShows(final.sent, gap, start, snap.nextOffset);
  }

  /** With no token published after the first terminal the two always tell the same. */
  lemma QuietBackendsAgree(maxLen: nat, from: nat, sched: seq<seq<PubOp>>, rsched: seq<seq<(PubOp, nat)>>)
    requires maxLen >= 1 && Comparable(maxLen, from, sched, rsched) && Quiet(Final(maxLen, sched).sent)
    ensures var m, d := Read(New(maxLen), from, sched), Subscribed(Fresh(maxLen), from, rsched);
            (m.out <= d.out || d.out <= m.out) && (m.end.Ended? && d.ended ==> m.out == d.out)
  {
    hide Read, Subscribed, After, RedisAfter, TokensBeforeTerm, Final, Log, Quiet, Told, StreamOk, RedisOk, Agree;
    hide Earliest, EarliestRetained, StartOf, ReplayStart, New, Fresh, EndRetained, Heard, RunRedis;
    FinalsAgree(maxLen, sched, rsched);
    AgreeMeans(Final(maxLen, sched), RunRedis(Fresh(maxLen), Flat(rsched)));
    RedisLeadsToFinal(Fresh(maxLen), rsched, 1);
    QuietPrefix(Heard(RedisAfter(Fresh(maxLen), rsched, 1)), Heard(RunRedis(Fresh(maxLen), Flat(rsched))));
    QuietRetainsItsEnd(RedisAfter(Fresh(maxLen), rsched, 1));
    MemoryTells(maxLen, from, sched);
    BothBackends(maxLen, from, sched, rsched);
    QuietTokens(Final(maxLen, sched).sent);
  }

  /** Completing a stream and then publishing to it: one backend replays the token, the other never tells it. */
  lemma PublishingPastTheEnd(maxLen: nat, data: Text)
    requires maxLen >= 1
    ensures Read(New(maxLen), 0, [[OpComplete, OpPublish(data)]]) == Reading([Tok(Token(0, data)), Done], Ended, 2)
    ensures Subscribed(Fresh(maxLen), 0, [[(OpComplete, 0), (OpPublish(data), 0)]]) == Heeded([Done], true, false, 1)
  {
    var ops: seq<(PubOp, nat)> := [(OpComplete, 0), (OpPublish(data), 0)];
    var sched := [ops];
    hide TellEntries, ParseEntry, Print;
    var r1, r2 := MarkTerminal(Fresh(maxLen), DoneEntry()), RunRedis(Fresh(maxLen), ops);
    assert ops[1..] == [(OpPublish(data), 0)] && |ops[1..][1..]| == 0;
    assert r2 == RunRedis(r1, ops[1..]) == RunRedis(PublishScript(r1, data, 0), ops[1..][1..]);
    assert RedisAfter(Fresh(maxLen), sched, 1) == RunRedis(RedisAfter(Fresh(maxLen), sched, 0), RedisBatch(sched, 0));
    OneDone(r2, data);
    var s2 := Publish(Finish(New(maxLen)), data);
    var pubs: seq<PubOp> := [OpComplete, OpPublish(data)];
    assert pubs[1..] == [OpPublish(data)] && |pubs[1..][1..]| == 0;
    assert RunPub(New(maxLen), pubs) == RunPub(Finish(New(maxLen)), pubs[1..]) == RunPub(s2, pubs[1..][1..]);
    assert After(New(maxLen), [pubs], 1) == RunPub(After(New(maxLen), [pubs], 0), pubs);
    assert After(New(maxLen), [pubs], 2) == s2;
    assert KeepFrom(s2.tokens, 0) == [Token(0, data)];
  }

  lemma OneDone(r: Redis, data: Text)
    requires r.first == 0 && r.added == [DoneEntry(), TokenEntry(0, data)]
    ensures forall lower :: TellEntries(Retained(r), lower) == ([Done], true)
    ensures FirstOffset(Retained(r)) == Some(0)
  {
    ParseInvertsWriting(0, data);
    hide ParseEntry;
    assert Retained(r) == r.added && r.added[1..] == [TokenEntry(0, data)];
  }

  lemma AgreeMeans(s: Inner, r: Redis)
    requires Agree(s, r)
    ensures StreamOk(s) && RedisOk(r)
    ensures Log(s.sent) == Log(Heard(r)) && TermOf(s.sent) == TermOf(Heard(r)) && (Quiet(s.sent) <==> Quiet(Heard(r)))
  {
  }
}
