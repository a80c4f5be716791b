/** Expiring lapsed gates, and the gate operations over the store (crates/tideline-server/src/tlr/approvals.rs). */
module Expiry {
  import opened Bytes
  import opened Canon
  import opened Chain
  import opened Metadata
  import opened Ledger
  import opened History
  import opened Approvals
  import SqliteStore

  predicate IsLapsed(g: Gate, now: nat) {
    g.state.Pending? && g.expiresAt <= now
  }

  function Lapsed(gates: seq<Gate>, now: nat): seq<nat> {
    if gates == [] then []
    else (if IsLapsed(gates[0], now) then [gates[0].seqNo] else []) + Lapsed(gates[1..], now)
  }

  /** Resolve each of `lapsed` in turn; `clock(n)` is the time the `n`th append reads. */
  function ExpireAll(env: Env, st: State, k: RunKey, lapsed: seq<nat>, clock: nat -> nat, n: nat)
    : (State, Result<nat, StoreError>)
    decreases |lapsed|
  {
    if lapsed == [] then (st, Ok(n))
    else
      var (st', r) := Resolve(env, st, k, lapsed[0], LAPSE, clock(n));
      if r.Err? then (st', Err(r.error)) else ExpireAll(env, st', k, lapsed[1..], clock, n + 1)
  }

  /** Expire what lapsed among the gates of `events`, which the caller has read. */
  function ExpireSeen(env: Env, st: State, k: RunKey, events: seq<RunEvent>, now: nat, clock: nat -> nat)
    : (State, Result<nat, StoreError>)
  {
    ExpireAll(env, st, k, Lapsed(Project(env, events), now), clock, 0)
  }

  function ExpireLapsed(env: Env, st: State, k: RunKey, now: nat, clock: nat -> nat): (State, Result<nat, StoreError>) {
    ExpireSeen(env, st, k, Window(st, k), now, clock)
  }

  // --- The operations over the store ----------------------------------------------------------

  /** Opening a gate: one append; on an open run the gate it opens is the last of those the record then shows. */
  method Request(store: SqliteStore.Store, k: RunKey, action: Text, expiresAt: nat, ts: nat)
    returns (r: Result<nat, StoreError>)
    requires store.Valid()
    modifies store
    ensures store.Valid()
    ensures store.Tables() == Append(store.env, old(store.Tables()), k, RequestEvent(store.env, action, expiresAt),
              None, ts).0
    ensures !Open(old(store.Tables()), k) ==>
              store.Tables() == old(store.Tables()) && r == Err(Refusal(old(store.Tables()), k))
    ensures Open(old(store.Tables()), k) && Faithful(store.env) ==>
              var before, after := Rows(old(store.Tables()), k), Rows(store.Tables(), k);
              && r == Ok(|before|) && |after| == |before| + 1
              && Last(after).kind == Decision && Last(after).name == Some(Ascii("approval_requested"))
              && Last(after).metadata == Some(store.env.encode(Requested(action, expiresAt)))
              && Project(store.env, after)
                 == Project(store.env, before) + [Gate(|before|, action, expiresAt, Pending, None, None, false, None)]
  {
    hide Inv, Project;
    if Faithful(store.env) && Open(store.Tables(), k) {
      RequestExactly(store.env, store.Tables(), k, action, expiresAt, ts);
    }
    AppendExactly(store.env, store.Tables(), k, RequestEvent(store.env, action, expiresAt), None, ts);
    hide AddsOne, OthersUntouched;
    var res := store.Append(k, RequestEvent(store.env, action, expiresAt), None, ts);
    r := if res.Ok? then Ok(res.value.seqNo) else Err(res.error);
  }

  /** A request as written shows up as one more gate, pending, with the action and expiry asked for. */
  lemma RequestShows(env: Env, rows: seq<RunEvent>, e: RunEvent, action: Text, expiresAt: nat)
    requires Faithful(env) && e.seqNo == |rows|
    requires NewEvent(e.kind, e.role, e.name, e.content, e.metadata) == RequestEvent(env, action, expiresAt)
    ensures Project(env, rows + [e])
         == Project(env, rows) + [Gate(|rows|, action, expiresAt, Pending, None, None, false, None)]
  {
    assert (rows + [e])[..|rows|] == rows;
    assert env.decode(env.encode(Requested(action, expiresAt))) == ViewOf(Requested(action, expiresAt));
  }

  /** Requesting a gate on an open run opens that gate and no other, and returns its number. */
  lemma RequestExactly(env: Env, st: State, k: RunKey, action: Text, expiresAt: nat, ts: nat)
    requires Inv(env, st) && Faithful(env) && Open(st, k)
    ensures var rows := Rows(st, k);
            var (st', r) := Append(env, st, k, RequestEvent(env, action, expiresAt), None, ts);
            && r.Ok? && r.value.seqNo == |rows| && Open(st', k) && |Rows(st', k)| == |rows| + 1
            && Project(env, Rows(st', k))
               == Project(env, rows) + [Gate(|rows|, action, expiresAt, Pending, None, None, false, None)]
  {
    hide Inv, Append, OthersUntouched, EventHash, Project, Rows;
    AppendExactly(env, st, k, RequestEvent(env, action, expiresAt), None, ts);
    var st' := Append(env, st, k, RequestEvent(env, action, expiresAt), None, ts).0;
    var rows, e := Rows(st, k), Last(Rows(st', k));
    assert Rows(st', k) == rows + [e];
    RequestShows(env, rows, e, action, expiresAt);
  }

  method ResolveGate(store: SqliteStore.Store, k: RunKey, target: nat, a: Answer, ts: nat)
    returns (r: Result<AppendResult, StoreError>)
    requires store.Valid()
    modifies store
    ensures store.Valid() && (store.Tables(), r) == Resolve(store.env, old(store.Tables()), k, target, a, ts)
  {
    hide Inv;
    var events := store.Events(k, 0, MAX_PAGE);
    var gates := ProjectGates(store.env, events);
    var gate := FindGate(gates, target);
    if gate.None? {
      return Err(NotFound);
    }
    if gate.value.state != Pending {
      return Err(Conflict);
    }
    r := store.Append(k, ResolutionEvent(store.env, target, a), None, ts);
  }

  /** The loop over the gates that lapsed, up to the first that cannot be resolved. */
  method ExpireLapsedIn(
    store: SqliteStore.Store, k: RunKey, events: seq<RunEvent>, now: nat, clock: nat -> nat)
    returns (r: Result<nat, StoreError>)
    requires store.Valid()
    modifies store
    ensures store.Valid()
    ensures (store.Tables(), r) == ExpireSeen(store.env, old(store.Tables()), k, events, now, clock)
  {
    hide Inv, Resolve, Project;
    var gates := ProjectGates(store.env, events);
    var lapsed := Lapsed(gates, now);
    var n := 0;
    while n < |lapsed|
      invariant n <= |lapsed| && store.Valid()
      invariant ExpireAll(store.env, store.Tables(), k, lapsed[n..], clock, n)
             == ExpireSeen(store.env, old(store.Tables()), k, events, now, clock)
    {
      var res := ResolveGate(store, k, lapsed[n], LAPSE, clock(n));
      if res.Err? {
        return Err(res.error);
      }
      assert lapsed[n..][1..] == lapsed[n + 1..];
      n := n + 1;
    }
    r := Ok(n);
  }

  // --- Exact expiry -------------------------------------------------------------------------------

  /** Gates that are pending, distinct and within the window. */
  ghost predicate Expirable(env: Env, rows: seq<RunEvent>, lapsed: seq<nat>) {
    && (forall m :: 0 <= m < |lapsed| ==> PendingAt(env, rows, lapsed[m]))
    && (forall m, j :: 0 <= m < j < |lapsed| ==> lapsed[m] != lapsed[j])
  }

  ghost predicate PendingAt(env: Env, rows: seq<RunEvent>, s: nat) {
    s < |rows| && s < MAX_PAGE && IsRequest(rows[s]) && GateAt(env, rows, s).state.Pending?
  }

  lemma ExpiredNone(env: Env, rows: seq<RunEvent>)
    ensures AllExpired(env, rows, rows, [])
  {
    hide GateAt, Requests;
  }

  /** The gates of `rows'` are those of `rows`, gate `s` having lapsed. */
  ghost predicate OnlyLapses(env: Env, rows: seq<RunEvent>, rows': seq<RunEvent>, s: nat) {
    && |rows| <= |rows'| && Requests(rows') == Requests(rows)
    && forall i :: 0 <= i < |rows| ==>
         GateAt(env, rows', i) == if i == s then ExpiredGate(GateAt(env, rows, i)) else GateAt(env, rows, i)
  }

  lemma IsLapseEvent(env: Env, e: RunEvent, target: nat)
    ensures IsAnswer(env, e, target)
       <==> NewEvent(e.kind, e.role, e.name, e.content, e.metadata) == ResolutionEvent(env, target, LAPSE)
  {
  }

  lemma OneCloses(env: Env, rows: seq<RunEvent>, e: RunEvent, s: nat, lapsed: seq<nat>)
    requires Faithful(env) && Numbered(rows) && IsAnswer(env, e, s)
    requires lapsed != [] && lapsed[0] == s && Expirable(env, rows, lapsed)
    ensures OnlyLapses(env, rows, rows + [e], s)
    ensures Expirable(env, rows + [e], lapsed[1..])
  {
    hide GateAt, Requests, ResolutionEvent;
    assert PendingAt(env, rows, s);
    forall i | 0 <= i < |rows|
      ensures GateAt(env, rows + [e], i) == if i == s then ExpiredGate(GateAt(env, rows, i)) else GateAt(env, rows, i)
      ensures Requests(rows + [e]) == Requests(rows)
    {
      IsLapseEvent(env, e, s);
      AppendedRuling(env, rows, e, s, LAPSE, i);
      LapseExpires(GateAt(env, rows, i));
    }
    assert GateAt(env, rows + [e], s) == ExpiredGate(GateAt(env, rows, s));
    forall m | 0 <= m < |lapsed[1..]| ensures PendingAt(env, rows + [e], lapsed[1..][m]) {
      assert PendingAt(env, rows, lapsed[m + 1]);
    }
  }

  /** `rows'` is `rows` and one expiry per entry of `lapsed`, in order; those gates are expired and no other changed. */
  ghost predicate AllExpired(env: Env, rows: seq<RunEvent>, rows': seq<RunEvent>, lapsed: seq<nat>) {
    && |rows'| == |rows| + |lapsed| && rows'[..|rows|] == rows
    && (forall m :: 0 <= m < |lapsed| ==> IsAnswer(env, rows'[|rows| + m], lapsed[m]))
    && (forall i :: 0 <= i < |rows| ==>
          GateAt(env, rows', i) == if i in lapsed then ExpiredGate(GateAt(env, rows, i)) else GateAt(env, rows, i))
    && Requests(rows') == Requests(rows)
  }

  /** `e` records that nobody answered gate `target` in time. */
  ghost predicate IsAnswer(env: Env, e: RunEvent, target: nat) {
    && e.kind.Decision? && e.role == None && e.name == Some(Ascii("approval_resolved")) && e.content == None
    && e.metadata == Some(env.encode(Resolved(target, Ascii("expired"), None, None, false,
                                              Some(Ascii("no decision before expiry")))))
  }

  /** A gate once it has expired, whoever had been asked: decided so by nobody. */
  function ExpiredGate(g: Gate): Gate {
    Gate(g.seqNo, g.action, g.expiresAt, Decided(Expired), None, None, false,
         Some(Ascii("no decision before expiry")))
  }

  lemma LapseExpires(g: Gate)
    ensures Answered(g, LAPSE) == ExpiredGate(g)
  {
  }

  lemma ExpiredCons(env: Env, rows: seq<RunEvent>, e: RunEvent, rows': seq<RunEvent>, lapsed: seq<nat>)
    requires lapsed != [] && IsAnswer(env, e, lapsed[0]) && Expirable(env, rows, lapsed)
    requires OnlyLapses(env, rows, rows + [e], lapsed[0])
    requires AllExpired(env, rows + [e], rows', lapsed[1..])
    ensures AllExpired(env, rows, rows', lapsed)
  {
    hide GateAt, Requests, ResolutionEvent, PendingAt;
    assert rows'[..|rows|] == rows'[..|rows| + 1][..|rows|] == rows;
    assert rows'[|rows|] == rows'[..|rows| + 1][|rows|] == e;
    forall m | 0 <= m < |lapsed| ensures IsAnswer(env, rows'[|rows| + m], lapsed[m]) {
      if m > 0 {
        assert IsAnswer(env, rows'[|rows + [e]| + (m - 1)], lapsed[1..][m - 1]);
      }
    }
  }

  lemma VisiblePendingLands(env: Env, st: State, k: RunKey, s: nat, ts: nat)
    requires Inv(env, st) && Open(st, k)
    requires PendingAt(env, Window(st, k), s)
    ensures var (st', r) := Resolve(env, st, k, s, LAPSE, ts);
            && r.Ok? && Inv(env, st') && Open(st', k) && Rows(st', k) != []
            && Rows(st', k) == Rows(st, k) + [Last(Rows(st', k))] && IsAnswer(env, Last(Rows(st', k)), s)
  {
    hide Inv, Append, ResolutionEvent, Rows, Open, ResolveCheck, Window;
    PendingPasses(env, st, k, s);
    ResolutionLands(env, st, k, s, LAPSE, ts);
    IsLapseEvent(env, Last(Rows(Resolve(env, st, k, s, LAPSE, ts).0, k)), s);
  }

  lemma PendingPasses(env: Env, st: State, k: RunKey, s: nat)
    requires Inv(env, st) && PendingAt(env, Window(st, k), s)
    ensures ResolveCheck(env, st, k, s) == Ok(())
  {
    hide Inv, Rules, ResolveCheck, Window;
    WindowIsNumbered(env, st, k);
    ResolveCheckExactly(env, st, k, s);
  }

  lemma WindowIsNumbered(env: Env, st: State, k: RunKey)
    requires Inv(env, st)
    ensures Numbered(Window(st, k)) && |Window(st, k)| <= MAX_PAGE
  {
    RowsAreNumbered(env, st, k);
    WindowIsPrefix(st, k);
    hide Inv, Window;
  }

  lemma {:induction false} InLapsed(gates: seq<Gate>, now: nat, s: nat)
    ensures s in Lapsed(gates, now) <==> exists m :: 0 <= m < |gates| && gates[m].seqNo == s && IsLapsed(gates[m], now)
    decreases |gates|
  {
    hide IsLapsed;
    if gates != [] {
      var rest := gates[1..];
      InLapsed(rest, now, s);
      if s in Lapsed(rest, now) {
        var m :| 0 <= m < |rest| && rest[m].seqNo == s && IsLapsed(rest[m], now);
        assert gates[m + 1] == rest[m];
      }
      assert forall m :: 0 < m < |gates| ==> gates[m] == rest[m - 1];
    }
  }

  predicate Increasing(at: seq<nat>) {
    forall m, n :: 0 <= m < n < |at| ==> at[m] < at[n]
  }

  lemma {:induction false} LapsedIncreases(gates: seq<Gate>, now: nat)
    requires forall m, n :: 0 <= m < n < |gates| ==> gates[m].seqNo < gates[n].seqNo
    ensures Increasing(Lapsed(gates, now))
    decreases |gates|
  {
    hide IsLapsed;
    if gates != [] {
      var first, others := gates[0], gates[1..];
      var rest := Lapsed(others, now);
      LapsedIncreases(others, now);
      forall n | 0 <= n < |rest| ensures first.seqNo < rest[n] {
        InLapsed(others, now, rest[n]);
        var m :| 0 <= m < |others| && others[m].seqNo == rest[n] && IsLapsed(others[m], now);
        assert others[m] == gates[m + 1];
      }
    }
  }

  /** Which requests of a record are lapsed, by position. */
  lemma LapsedRequests(env: Env, rows: seq<RunEvent>, now: nat)
    requires Numbered(rows)
    ensures var lapsed := Lapsed(Project(env, rows), now);
            && Increasing(lapsed)
            && forall i: nat :: i in lapsed <==> i < |rows| && IsRequest(rows[i]) && IsLapsed(GateAt(env, rows, i), now)
  {
    ProjectionMeansFirstRuling(env, rows);
    var gates, at := Project(env, rows), Requests(rows);
    forall m | 0 <= m < |gates| ensures gates[m] == GateAt(env, rows, at[m]) && gates[m].seqNo == at[m] {
    }
    hide Project, GateAt, Lapsed, IsLapsed, IsRequest;
    LapsedIncreases(gates, now);
    forall i: nat
      ensures i in Lapsed(gates, now) <==> i < |rows| && IsRequest(rows[i]) && IsLapsed(GateAt(env, rows, i), now)
    {
      InLapsed(gates, now, i);
      if i < |rows| && IsRequest(rows[i]) {
        var m :| 0 <= m < |at| && at[m] == i;
        assert gates[m].seqNo == i;
      }
    }
  }

  // --- Records of any length ------------------------------------------------------------------------

  /** `rows'` is `rows` and one expiry per entry of `lapsed`, in order. */
  ghost predicate Answers(env: Env, rows: seq<RunEvent>, rows': seq<RunEvent>, lapsed: seq<nat>) {
    && |rows'| == |rows| + |lapsed| && rows <= rows'
    && forall m :: 0 <= m < |lapsed| ==> IsAnswer(env, rows'[|rows| + m], lapsed[m])
  }

  /** The gates a handler can see to be pending are all answered, whether or not it can see the answers. */
  lemma {:induction false} ExpireAllAnswers(
    env: Env, st: State, k: RunKey, lapsed: seq<nat>, clock: nat -> nat, n: nat)
    requires Inv(env, st) && Faithful(env) && Open(st, k)
    requires Expirable(env, Window(st, k), lapsed)
    ensures var (st', r) := ExpireAll(env, st, k, lapsed, clock, n);
            && r == Ok(n + |lapsed|) && Inv(env, st') && Open(st', k) && Answers(env, Rows(st, k), Rows(st', k), lapsed)
    decreases |lapsed|
  {
    hide Inv, Resolve, GateAt, Requests, IsAnswer, Rows, Open, PendingAt, Window, Answers;
    if lapsed == [] {
      AnswersNone(env, Rows(st, k));
    } else {
      var s := lapsed[0];
      assert PendingAt(env, Window(st, k), s);
      VisiblePendingLands(env, st, k, s, clock(n));
      var st1 := Resolve(env, st, k, s, LAPSE, clock(n)).0;
      var e := Last(Rows(st1, k));
      StillExpirable(env, st, st1, k, e, s, lapsed);
      ExpireAllAnswers(env, st1, k, lapsed[1..], clock, n + 1);
      AnswersCons(env, Rows(st, k), e, Rows(ExpireAll(env, st1, k, lapsed[1..], clock, n + 1).0, k), lapsed);
    }
  }

  lemma AnswersNone(env: Env, rows: seq<RunEvent>)
    ensures Answers(env, rows, rows, [])
  {
  }

  lemma AnswersCons(env: Env, rows: seq<RunEvent>, e: RunEvent, rows': seq<RunEvent>, lapsed: seq<nat>)
    requires lapsed != [] && IsAnswer(env, e, lapsed[0]) && Answers(env, rows + [e], rows', lapsed[1..])
    ensures Answers(env, rows, rows', lapsed)
  {
    hide IsAnswer;
    assert rows'[|rows|] == (rows + [e])[|rows|];
    forall m | 0 <= m < |lapsed| ensures IsAnswer(env, rows'[|rows| + m], lapsed[m]) {
      if m > 0 {
        assert IsAnswer(env, rows'[|rows + [e]| + (m - 1)], lapsed[1..][m - 1]);
      }
    }
  }

  /** After one answer, seen or out of sight, the gates still to be expired are still seen to be pending. */
  lemma StillExpirable(env: Env, st: State, st1: State, k: RunKey, e: RunEvent, s: nat, lapsed: seq<nat>)
    requires Inv(env, st) && Faithful(env) && Rows(st1, k) == Rows(st, k) + [e] && IsAnswer(env, e, s)
    requires lapsed != [] && lapsed[0] == s && Expirable(env, Window(st, k), lapsed)
    ensures Expirable(env, Window(st1, k), lapsed[1..])
  {
    hide Inv, GateAt, IsAnswer, Rows, PendingAt, Window;
    WindowIsNumbered(env, st, k);
    WindowIsPrefix(st, k);
    WindowIsPrefix(st1, k);
    if |Rows(st, k)| < MAX_PAGE {
      assert Window(st1, k) == Window(st, k) + [e];
      OneCloses(env, Window(st, k), e, s, lapsed);
    } else {
      assert Window(st1, k) == Window(st, k);
      assert forall m :: 0 <= m < |lapsed[1..]| ==> lapsed[1..][m] == lapsed[m + 1];
    }
  }

  /** The gates that lapse are those a handler can see to be pending past their time. */
  lemma VisibleLapsed(env: Env, st: State, k: RunKey, now: nat)
    requires Inv(env, st)
    ensures Expirable(env, Window(st, k), Lapsed(Project(env, Window(st, k)), now))
  {
    hide Inv, Project, Window, Lapsed, IsLapsed, GateAt;
    WindowIsNumbered(env, st, k);
    LapsedRequests(env, Window(st, k), now);
    LapsedAreExpirable(env, Window(st, k), Lapsed(Project(env, Window(st, k)), now), now);
  }

  /** Answers to pending gates close those and no others. */
  lemma {:induction false} AnswersExpire(env: Env, rows: seq<RunEvent>, rows': seq<RunEvent>, lapsed: seq<nat>)
    requires Faithful(env) && Numbered(rows') && Answers(env, rows, rows', lapsed) && Expirable(env, rows, lapsed)
    ensures AllExpired(env, rows, rows', lapsed)
    decreases |lapsed|
  {
    hide GateAt, Requests, IsAnswer, AllExpired, PendingAt, Expirable;
    if lapsed == [] {
      assert rows' == rows;
      ExpiredNone(env, rows);
    } else {
      var e := rows'[|rows|];
      assert e == rows'[|rows| + 0] && IsAnswer(env, e, lapsed[0]);
      assert rows + [e] <= rows';
      assert forall i :: 0 <= i < |rows| ==> rows[i] == rows'[i];
      OneCloses(env, rows, e, lapsed[0], lapsed);
      AnswersTail(env, rows, rows', lapsed);
      AnswersExpire(env, rows + [e], rows', lapsed[1..]);
      ExpiredCons(env, rows, e, rows', lapsed);
    }
  }

  lemma AnswersTail(env: Env, rows: seq<RunEvent>, rows': seq<RunEvent>, lapsed: seq<nat>)
    requires Answers(env, rows, rows', lapsed) && lapsed != []
    ensures Answers(env, rows + [rows'[|rows|]], rows', lapsed[1..])
  {
    hide IsAnswer;
    var e := rows'[|rows|];
    assert rows + [e] <= rows';
    forall m | 0 <= m < |lapsed[1..]| ensures IsAnswer(env, rows'[|rows + [e]| + m], lapsed[1..][m]) {
      assert IsAnswer(env, rows'[|rows| + (m + 1)], lapsed[m + 1]);
    }
  }

  /** How many of `n` rulings appended to a record of `length` events land where a handler can see them. */
  function InSight(length: nat, n: nat): (v: nat)
    ensures v <= n && (v == n <==> n == 0 || length + n <= MAX_PAGE)
  {
    if length >= MAX_PAGE then 0 else if length + n <= MAX_PAGE then n else MAX_PAGE - length
  }

  /** The window after expiring is the window before and the rulings that land in sight. */
  lemma WindowAnswers(env: Env, st: State, st': State, k: RunKey, lapsed: seq<nat>)
    requires Answers(env, Rows(st, k), Rows(st', k), lapsed)
    ensures Answers(env, Window(st, k), Window(st', k), lapsed[..InSight(|Rows(st, k)|, |lapsed|)])
  {
    hide IsAnswer, Rows, Window;
    WindowIsPrefix(st, k);
    WindowIsPrefix(st', k);
  }

  lemma ExpirablePrefix(env: Env, rows: seq<RunEvent>, lapsed: seq<nat>, v: nat)
    requires Expirable(env, rows, lapsed) && v <= |lapsed|
    ensures Expirable(env, rows, lapsed[..v])
  {
    hide PendingAt;
  }

  lemma HasMember(s: seq<nat>)
    ensures s != [] ==> exists x :: x in s
  {
    if s != [] {
      assert s[0] in s;
    }
  }

  lemma {:induction false} SameIncreasing(a: seq<nat>, b: seq<nat>)
    requires Increasing(a) && Increasing(b) && forall x :: x in a <==> x in b
    ensures a == b
    decreases |a|
  {
    HasMember(a);
    HasMember(b);
    if a != [] {
      assert a[0] in b && b[0] in a;
      forall x ensures x in a[1..] <==> x in b[1..] {
        assert x in a <==> x == a[0] || x in a[1..];
        assert x in b <==> x == b[0] || x in b[1..];
      }
      SameIncreasing(a[1..], b[1..]);
    }
  }

  /** Of the gates that had lapsed, those whose rulings are in sight have gone, and the others are as they were. */
  lemma LapsedAfter(env: Env, seen: seq<RunEvent>, seen': seq<RunEvent>, v: nat, now: nat)
    requires Numbered(seen) && Numbered(seen') && v <= |Lapsed(Project(env, seen), now)|
    requires AllExpired(env, seen, seen', Lapsed(Project(env, seen), now)[..v])
    ensures Lapsed(Project(env, seen'), now) == Lapsed(Project(env, seen), now)[v..]
  {
    hide GateAt, Project, Lapsed, IsLapsed, IsAnswer, Numbered;
    var lapsed, left := Lapsed(Project(env, seen), now), Lapsed(Project(env, seen'), now);
    LapsedRequests(env, seen, now);
    LapsedRequests(env, seen', now);
    forall i: nat ensures i in left <==> i in lapsed[v..] {
      LeftLapsed(env, seen, seen', lapsed, v, now, i);
      InLater(lapsed, v, i);
    }
    SameIncreasing(left, lapsed[v..]);
  }

  lemma InLater(lapsed: seq<nat>, v: nat, i: nat)
    requires Increasing(lapsed) && v <= |lapsed|
    ensures i in lapsed[v..] <==> i in lapsed && i !in lapsed[..v]
  {
    assert lapsed == lapsed[..v] + lapsed[v..];
  }

  lemma LeftLapsed(
    env: Env, seen: seq<RunEvent>, seen': seq<RunEvent>, lapsed: seq<nat>, v: nat, now: nat, i: nat)
    requires v <= |lapsed| && AllExpired(env, seen, seen', lapsed[..v])
    requires i in lapsed <==> i < |seen| && IsRequest(seen[i]) && IsLapsed(GateAt(env, seen, i), now)
    ensures i < |seen'| && IsRequest(seen'[i]) && IsLapsed(GateAt(env, seen', i), now)
            <==> i in lapsed && i !in lapsed[..v]
  {
    hide GateAt, IsAnswer, IsRequest;
    assert i < |seen'| && IsRequest(seen'[i]) <==> i in Requests(seen');
    assert i < |seen| && IsRequest(seen[i]) <==> i in Requests(seen);
  }

  /**
   * What expiring achieves, on an open run of any length that nobody else is writing to: one ruling is added for each
   * gate seen to have lapsed, in order, and afterwards exactly those of them whose rulings fell past the 5000th event
   * are still seen to have lapsed. So none is, exactly when there was none or the rulings fit.
   */
  lemma ExpiryLeavesExactly(env: Env, st: State, k: RunKey, now: nat, clock: nat -> nat)
    requires Inv(env, st) && Faithful(env) && Open(st, k)
    ensures var lapsed := Lapsed(Project(env, Window(st, k)), now);
            var (st', r) := ExpireLapsed(env, st, k, now, clock);
            var left := Lapsed(Project(env, Window(st', k)), now);
            && r == Ok(|lapsed|) && Inv(env, st') && Open(st', k)
            && Answers(env, Rows(st, k), Rows(st', k), lapsed)
            && left == lapsed[InSight(|Rows(st, k)|, |lapsed|)..]
            && (left == [] <==> lapsed == [] || |Rows(st, k)| + |lapsed| <= MAX_PAGE)
  {
    hide Inv, Project, Lapsed, Window, Rows, Open, Expirable, Answers, AllExpired, Numbered;
    var lapsed := Lapsed(Project(env, Window(st, k)), now);
    VisibleLapsed(env, st, k, now);
    ExpireAllAnswers(env, st, k, lapsed, clock, 0);
    var st' := ExpireAll(env, st, k, lapsed, clock, 0).0;
    var v := InSight(|Rows(st, k)|, |lapsed|);
    WindowAnswers(env, st, st', k, lapsed);
    ExpirablePrefix(env, Window(st, k), lapsed, v);
    WindowIsNumbered(env, st, k);
    WindowIsNumbered(env, st', k);
    AnswersExpire(env, Window(st, k), Window(st', k), lapsed[..v]);
    LapsedAfter(env, Window(st, k), Window(st', k), v, now);
  }

  lemma ShortWindow(st: State, k: RunKey)
    requires |Rows(st, k)| <= MAX_PAGE
    ensures Window(st, k) == Rows(st, k)
  {
    hide Window, Rows;
    WindowIsPrefix(st, k);
  }

  /**
   * What time does to a gate: pending at or past its expiry it is expired, by nobody, unattested, with the standing
   * note; any other gate stays exactly as it was.
   */
  ghost predicate WithTime(g: Gate, g': Gate, now: nat) {
    if g.state == Pending && g.expiresAt <= now then
      && g'.seqNo == g.seqNo && g'.action == g.action && g'.expiresAt == g.expiresAt
      && g'.state == Decided(Expired) && g'.reviewer == None && g'.principal == None && !g'.attested
      && g'.note == Some(Ascii("no decision before expiry"))
    else g' == g
  }

  lemma LapsedWithTime(env: Env, rows: seq<RunEvent>, rows': seq<RunEvent>, lapsed: seq<nat>, now: nat)
    requires AllExpired(env, rows, rows', lapsed)
    requires forall i: nat :: i in lapsed <==> i < |rows| && IsRequest(rows[i]) && IsLapsed(GateAt(env, rows, i), now)
    ensures forall i :: 0 <= i < |rows| && IsRequest(rows[i]) ==> WithTime(GateAt(env, rows, i), GateAt(env, rows', i),
                                                                           now)
  {
    hide GateAt, IsRequest, IsAnswer;
  }

  /**
   * Exact expiry. On an open run of at most 5000 events that nobody else is writing to, expiring adds exactly one
   * expired resolution for each gate pending past its time, in order, returns their number, leaves every other gate
   * as it was and no lapsed gate pending in the record as a whole, and that still verifies.
   */
  lemma ExpiresExactly(env: Env, st: State, k: RunKey, now: nat, clock: nat -> nat)
    requires Inv(env, st) && Faithful(env) && Open(st, k) && |Rows(st, k)| <= MAX_PAGE
    ensures var rows := Rows(st, k);
            var lapsed := Lapsed(Project(env, rows), now);
            var (st', r) := ExpireLapsed(env, st, k, now, clock);
            var rows' := Rows(st', k);
            && r == Ok(|lapsed|) && AllExpired(env, rows, rows', lapsed)
            && (forall i: nat ::
                  i in lapsed <==> i < |rows| && IsRequest(rows[i]) && IsLapsed(GateAt(env, rows, i), now))
            && (forall i :: i in Requests(rows') ==> !IsLapsed(GateAt(env, rows', i), now))
            && (forall i :: 0 <= i < |rows| && IsRequest(rows[i]) ==>
                  WithTime(GateAt(env, rows, i), GateAt(env, rows', i), now))
            && Inv(env, st') && Chained(env.hash, rows')
  {
    hide Inv, GateAt, Project, ExpireAll, ExpireLapsed, Lapsed, IsLapsed, Window, Rows, Requests, AllExpired, Open;
    hide Chained, WithTime, IsRequest;
    var rows := Rows(st, k);
    var lapsed := Lapsed(Project(env, rows), now);
    ShortWindow(st, k);
    RowsAreNumbered(env, st, k);
    LapsedRequests(env, rows, now);
    VisibleLapsed(env, st, k, now);
    ExpiryLeavesExactly(env, st, k, now, clock);
    var st' := ExpireLapsed(env, st, k, now, clock).0;
    RowsAreNumbered(env, st', k);
    AnswersExpire(env, rows, Rows(st', k), lapsed);
    OpenRunVerifies(env, st', k);
    NoneLeft(env, rows, Rows(st', k), lapsed, now);
    LapsedWithTime(env, rows, Rows(st', k), lapsed, now);
  }

  lemma LapsedAreExpirable(env: Env, rows: seq<RunEvent>, lapsed: seq<nat>, now: nat)
    requires |rows| <= MAX_PAGE
    requires forall i: nat :: i in lapsed <==> i < |rows| && IsRequest(rows[i]) && IsLapsed(GateAt(env, rows, i), now)
    requires Increasing(lapsed)
    ensures Expirable(env, rows, lapsed)
  {
    hide GateAt;
    assert forall m :: 0 <= m < |lapsed| ==> lapsed[m] in lapsed;
  }

  lemma OpenRunVerifies(env: Env, st: State, k: RunKey)
    requires Inv(env, st) && Open(st, k)
    ensures Chained(env.hash, Rows(st, k))
  {
    assert RunOk(env, k, st.runs[k], Rows(st, k));
  }

  lemma NoneLeft(env: Env, rows: seq<RunEvent>, rows': seq<RunEvent>, lapsed: seq<nat>, now: nat)
    requires AllExpired(env, rows, rows', lapsed)
    requires forall i: nat :: i in lapsed <==> i < |rows| && IsRequest(rows[i]) && IsLapsed(GateAt(env, rows, i), now)
    ensures forall i :: i in Requests(rows') ==> !IsLapsed(GateAt(env, rows', i), now)
  {
    hide GateAt, IsAnswer;
    forall i | i in Requests(rows') ensures !IsLapsed(GateAt(env, rows', i), now) {
      assert i in Requests(rows);
    }
  }

  /**
   * Expiring fails exactly on a sealed run that still shows a lapsed gate, and then writes nothing; otherwise it
   * returns how many lapsed.
   */
  lemma ExpiryRefusedExactly(env: Env, st: State, k: RunKey, now: nat, clock: nat -> nat)
    requires Inv(env, st) && Faithful(env)
    ensures var lapsed := Lapsed(Project(env, Window(st, k)), now);
            var (st', r) := ExpireLapsed(env, st, k, now, clock);
            && (r.Err? <==> Sealed(st, k) && lapsed != [])
            && (r.Err? ==> r == Err(Conflict) && st' == st)
            && (r.Ok? ==> r == Ok(|lapsed|))
  {
    hide Inv, Project, Lapsed, ResolveCheck, Window, Rows, Append, PendingAt;
    var lapsed := Lapsed(Project(env, Window(st, k)), now);
    VisibleLapsed(env, st, k, now);
    if Open(st, k) {
      ExpireAllAnswers(env, st, k, lapsed, clock, 0);
    } else if lapsed != [] {
      assert PendingAt(env, Window(st, k), lapsed[0]);
      PendingPasses(env, st, k, lapsed[0]);
      SeenRunExists(env, st, k, lapsed[0]);
      AppendRefused(env, st, k, ResolutionEvent(env, lapsed[0], LAPSE), clock(0));
    } else {
      NothingSeenUnlessSealed(env, st, k);
    }
  }

  lemma SeenRunExists(env: Env, st: State, k: RunKey, s: nat)
    requires Inv(env, st) && PendingAt(env, Window(st, k), s)
    ensures k in st.runs
  {
  }

  lemma NothingSeenUnlessSealed(env: Env, st: State, k: RunKey)
    ensures !Open(st, k) ==> Sealed(st, k) || k !in st.runs
  {
  }

  lemma AppendRefused(env: Env, st: State, k: RunKey, ev: NewEvent, ts: nat)
    requires k in st.runs && Sealed(st, k)
    ensures Append(env, st, k, ev, None, ts) == (st, Err(Conflict))
  {
  }

  /** Reading the gates of a run: whatever has lapsed is expired first, and a failure of that is a failure to read. */
  function ReadGates(env: Env, st: State, k: RunKey, now: nat, clock: nat -> nat)
    : (State, Result<seq<Gate>, StoreError>)
  {
    match ExpireLapsed(env, st, k, now, clock)
    case (st', Err(e)) => (st', Err(e))
    case (st', Ok(n)) => (st', Ok(Project(env, if n == 0 then Window(st, k) else Window(st', k))))
  }

  /** The same over the store: read, expire, and read again if anything lapsed. */
  method ExpireThenRead(store: SqliteStore.Store, k: RunKey, now: nat, clock: nat -> nat)
    returns (r: Result<seq<Gate>, StoreError>)
    requires store.Valid()
    modifies store
    ensures store.Valid() && (store.Tables(), r) == ReadGates(store.env, old(store.Tables()), k, now, clock)
  {
    hide Inv, Project, ExpireSeen;
    var events := store.Events(k, 0, MAX_PAGE);
    var lapsed := ExpireLapsedIn(store, k, events, now, clock);
    if lapsed.Err? {
      return Err(lapsed.error);
    }
    if lapsed.value > 0 {
      events := store.Events(k, 0, MAX_PAGE);
    }
    var gates := ProjectGates(store.env, events);
    r := Ok(gates);
  }

  /**
   * What a read of the gates shows on an open run, as long as the rulings fit: the gates the record had, in order, each
   * as time has made it. What was pending and out of time is shown expired, and nothing else has changed.
   */
  lemma ReadShowsTime(env: Env, st: State, k: RunKey, now: nat, clock: nat -> nat)
    requires Inv(env, st) && Faithful(env) && Open(st, k)
    requires |Rows(st, k)| + |Lapsed(Project(env, Rows(st, k)), now)| <= MAX_PAGE
    ensures var before, r := Project(env, Rows(st, k)), ReadGates(env, st, k, now, clock).1;
            && r.Ok? && |r.value| == |before|
            && forall m :: 0 <= m < |before| ==> WithTime(before[m], r.value[m], now)
  {
    hide Inv, GateAt, Project, ExpireLapsed, Lapsed, IsLapsed, Window, Rows, AllExpired, Open, Chained, WithTime;
    hide IsRequest;
    var st' := ExpireLapsed(env, st, k, now, clock).0;
    var rows, rows' := Rows(st, k), Rows(st', k);
    var lapsed := Lapsed(Project(env, rows), now);
    ExpiresExactly(env, st, k, now, clock);
    AllExpiredMeans(env, rows, rows', lapsed);
    ShortWindow(st, k);
    ShortWindow(st', k);
    RowsAreNumbered(env, st, k);
    RowsAreNumbered(env, st', k);
    ProjectionMeansFirstRuling(env, rows);
    ProjectionMeansFirstRuling(env, rows');
  }

  lemma AllExpiredMeans(env: Env, rows: seq<RunEvent>, rows': seq<RunEvent>, lapsed: seq<nat>)
    requires AllExpired(env, rows, rows', lapsed)
    ensures |rows'| == |rows| + |lapsed| && Requests(rows') == Requests(rows) && (lapsed == [] ==> rows' == rows)
  {
    assert rows'[..|rows|] == rows;
  }

  /** A gate left to lapse on a run that is sealed meanwhile: from its expiry on every read of the gates is refused. */
  lemma LapsedGateBlocksReads(
    env: Env, k: RunKey, new_: NewRun, action: Text, expiresAt: nat, t0: nat, t1: nat, t2: nat, now: nat,
    clock: nat -> nat)
    requires Faithful(env) && expiresAt <= now
    ensures var st := Run(env, EMPTY, [OpCreate(k, new_, t0),
                                       OpAppend(k, RequestEvent(env, action, expiresAt), None, t1), OpSeal(k, t2)]);
            Sealed(st, k) && ReadGates(env, st, k, now, clock) == (st, Err(Conflict))
  {
    hide Inv, MakeEvent, CreateRun, Append, RouteAppend, Seal, Project, OthersUntouched, EventHash, Window, Rows;
    hide AddsOne;
    hide ExpireLapsed, Canonical, Lapsed;
    EmptyIsSound(env);
    var st1 := CreateRun(env, EMPTY, k, new_, t0).0;
    CreateExactly(env, EMPTY, k, new_, t0);
    CreateKeeps(env, EMPTY, k, new_, t0);
    var st2 := Append(env, st1, k, RequestEvent(env, action, expiresAt), None, t1).0;
    RequestExactly(env, st1, k, action, expiresAt, t1);
    AppendKeeps(env, st1, k, RequestEvent(env, action, expiresAt), None, t1);
    AppendExactly(env, st1, k, RequestEvent(env, action, expiresAt), None, t1);
    var st := Seal(env, st2, k, t2).0;
    SealExactly(env, st2, k, t2);
    SealKeeps(env, st2, k, t2);
    RunOfThree(env, k, new_, RequestEvent(env, action, expiresAt), t0, t1, t2);
    var gate := Gate(1, action, expiresAt, Pending, None, None, false, None);
    SealShowsGates(env, st2, st, k, t2);
    ShortWindow(st, k);
    assert Project(env, Window(st, k)) == Project(env, Rows(st1, k)) + [gate];
    LastLapses(Project(env, Rows(st1, k)), gate, now);
    ExpiryRefusedExactly(env, st, k, now, clock);
  }

  lemma EmptyIsSound(env: Env)
    ensures Inv(env, EMPTY)
  {
  }

  lemma RunOfThree(env: Env, k: RunKey, new_: NewRun, ev: NewEvent, t0: nat, t1: nat, t2: nat)
    requires !OwnRouteOnly(ev.kind)
    ensures Run(env, EMPTY, [OpCreate(k, new_, t0), OpAppend(k, ev, None, t1), OpSeal(k, t2)])
         == Seal(env, Append(env, CreateRun(env, EMPTY, k, new_, t0).0, k, ev, None, t1).0, k, t2).0
  {
    hide CreateRun, Append, Seal, RouteAppend;
    var ops := [OpCreate(k, new_, t0), OpAppend(k, ev, None, t1), OpSeal(k, t2)];
    var st1 := CreateRun(env, EMPTY, k, new_, t0).0;
    var st2 := Append(env, st1, k, ev, None, t1).0;
    assert ops[1..] == [OpAppend(k, ev, None, t1), OpSeal(k, t2)] && ops[1..][1..] == [OpSeal(k, t2)];
    RunStep(env, EMPTY, ops);
    RunStep(env, st1, ops[1..]);
    GuardPasses(env, st1, k, ev, None, t1);
    RunStep(env, st2, [OpSeal(k, t2)]);
    RunNone(env, Seal(env, st2, k, t2).0, [OpSeal(k, t2)][1..]);
  }

  lemma RunStep(env: Env, st: State, ops: seq<Op>)
    requires ops != []
    ensures Run(env, st, ops) == Run(env, Apply(env, st, ops[0]).0, ops[1..])
  {
    hide Apply;
  }

  lemma RunNone(env: Env, st: State, ops: seq<Op>)
    requires |ops| == 0
    ensures Run(env, st, ops) == st
  {
  }

  lemma GuardPasses(env: Env, st: State, k: RunKey, ev: NewEvent, key: Option<Text>, ts: nat)
    requires !OwnRouteOnly(ev.kind)
    ensures RouteAppend(env, st, k, ev, key, ts) == Append(env, st, k, ev, key, ts)
  {
    hide Append;
  }

  /** The event that seals a run shows no gate and rules on none. */
  lemma SealShowsGates(env: Env, st: State, st': State, k: RunKey, ts: nat)
    requires Inv(env, st) && Open(st, k) && st' == Seal(env, st, k, ts).0
    ensures |Rows(st', k)| == |Rows(st, k)| + 1 && Project(env, Rows(st', k)) == Project(env, Rows(st, k))
  {
    hide Inv, Seal, OthersUntouched, EventHash;
    SealExactly(env, st, k, ts);
    var e := Last(Rows(st', k));
    assert Rows(st', k) == Rows(st, k) + [e];
    assert Rows(st', k)[..|Rows(st, k)|] == Rows(st, k);
  }

  /** A gate past its time that is added last is the last to lapse. */
  lemma {:induction false} LastLapses(gates: seq<Gate>, gate: Gate, now: nat)
    requires IsLapsed(gate, now)
    ensures Lapsed(gates + [gate], now) == Lapsed(gates, now) + [gate.seqNo]
    decreases |gates|
  {
    hide IsLapsed;
    if gates != [] {
      LastLapses(gates[1..], gate, now);
      assert (gates + [gate])[1..] == gates[1..] + [gate];
    }
  }

  /**
   * Past 5000 events all rulings land out of sight. On an open run that long, expiring writes one for each gate seen to
   * have lapsed, and the very same gates are seen to have lapsed afterwards: every read adds them all again.
   */
  lemma ExpiryOutOfSight(env: Env, st: State, k: RunKey, now: nat, clock: nat -> nat)
    requires Inv(env, st) && Faithful(env) && Open(st, k) && |Rows(st, k)| >= MAX_PAGE
    ensures var lapsed := Lapsed(Project(env, Window(st, k)), now);
            var (st', r) := ExpireLapsed(env, st, k, now, clock);
            && r == Ok(|lapsed|) && Answers(env, Rows(st, k), Rows(st', k), lapsed) && Open(st', k)
            && Window(st', k) == Window(st, k)
            && Lapsed(Project(env, Window(st', k)), now) == lapsed
            && ReadGates(env, st, k, now, clock) == (st', Ok(Project(env, Window(st, k))))
  {
    hide Inv, Project, Lapsed, Window, Rows, Open, Expirable, IsAnswer;
    ExpiryLeavesExactly(env, st, k, now, clock);
    WindowIsPrefix(st, k);
    WindowIsPrefix(ExpireLapsed(env, st, k, now, clock).0, k);
  }

  // --- A run whose rulings do not fit ---------------------------------------------------------------

  function Repeat(op: Op, n: nat): seq<Op> {
    if n == 0 then [] else [op] + Repeat(op, n - 1)
  }

  lemma RunRepeat(env: Env, st: State, op: Op, n: nat)
    requires n > 0
    ensures Run(env, st, Repeat(op, n)) == Run(env, Apply(env, st, op).0, Repeat(op, n - 1))
  {
    hide Apply, Run;
    RunStep(env, st, Repeat(op, n));
  }

  /** Each request that is out of time when written is one more gate to lapse. */
  lemma {:induction false} RequestsLapse(
    env: Env, st: State, k: RunKey, action: Text, expiresAt: nat, ts: nat, now: nat, m: nat)
    requires Inv(env, st) && Faithful(env) && Open(st, k) && expiresAt <= now
    ensures var st' := Run(env, st, Repeat(OpAppend(k, RequestEvent(env, action, expiresAt), None, ts), m));
            && Inv(env, st') && Open(st', k) && |Rows(st', k)| == |Rows(st, k)| + m
            && |Lapsed(Project(env, Rows(st', k)), now)| == |Lapsed(Project(env, Rows(st, k)), now)| + m
    decreases m
  {
    hide Inv, Run, Append, RouteAppend, Project, Lapsed, Rows, Open;
    var ev := RequestEvent(env, action, expiresAt);
    var op := OpAppend(k, ev, None, ts);
    if m == 0 {
      RunNone(env, st, Repeat(op, 0));
    } else {
      var st1 := Append(env, st, k, ev, None, ts).0;
      RunRepeat(env, st, op, m);
      GuardPasses(env, st, k, ev, None, ts);
      RequestExactly(env, st, k, action, expiresAt, ts);
      AppendKeeps(env, st, k, ev, None, ts);
      LastLapses(Project(env, Rows(st, k)), Gate(|Rows(st, k)|, action, expiresAt, Pending, None, None, false, None),
                 now);
      RequestsLapse(env, st1, k, action, expiresAt, ts, now, m - 1);
    }
  }

  /** Any number of events that are no decisions. */
  lemma {:induction false} OthersAppend(env: Env, st: State, k: RunKey, ev: NewEvent, ts: nat, n: nat)
    requires Inv(env, st) && Open(st, k) && !OwnRouteOnly(ev.kind) && !ev.kind.Decision?
    ensures var rows, rows' := Rows(st, k), Rows(Run(env, st, Repeat(OpAppend(k, ev, None, ts), n)), k);
            && Inv(env, Run(env, st, Repeat(OpAppend(k, ev, None, ts), n)))
            && Open(Run(env, st, Repeat(OpAppend(k, ev, None, ts), n)), k)
            && |rows'| == |rows| + n && rows <= rows'
            && forall i :: |rows| <= i < |rows'| ==> !rows'[i].kind.Decision?
    decreases n
  {
    hide Inv, Run, Append, RouteAppend, Rows, Open, OthersUntouched, EventHash;
    var op := OpAppend(k, ev, None, ts);
    if n == 0 {
      RunNone(env, st, Repeat(op, 0));
    } else {
      var st1 := RouteAppend(env, st, k, ev, None, ts).0;
      RunRepeat(env, st, op, n);
      AppendExactly(env, st, k, ev, None, ts);
      GuardPasses(env, st, k, ev, None, ts);
      AppendKeeps(env, st, k, ev, None, ts);
      assert Rows(st1, k)[|Rows(st, k)|] == Last(Rows(st1, k));
      OthersAppend(env, st1, k, ev, ts, n - 1);
      var rows' := Rows(Run(env, st, Repeat(op, n)), k);
      assert rows'[|Rows(st, k)|] == Rows(st1, k)[|Rows(st, k)|];
    }
  }

  /** Events that are no decisions show no gate and rule on none. */
  lemma {:induction false} OthersShowNothing(env: Env, rows: seq<RunEvent>, p: nat)
    requires p <= |rows| && forall i :: p <= i < |rows| ==> !rows[i].kind.Decision?
    ensures Project(env, rows) == Project(env, rows[..p])
    decreases |rows|
  {
    if p < |rows| {
      var before := rows[..|rows| - 1];
      OthersShowNothing(env, before, p);
      assert before[..p] == rows[..p];
    } else {
      assert rows[..p] == rows;
    }
  }

  /**
   * A run anyone can reach: `m` requests already out of time and `n` other events. A read of its gates expires all
   * `m`, and shows the caller as pending those whose rulings fell past the 5000th event: none of them exactly when
   * `m` is 0 or all `1 + 2 * m + n` events fit.
   */
  lemma ExpiryFallsBehind(
    env: Env, k: RunKey, new_: NewRun, action: Text, expiresAt: nat, ev: NewEvent, t0: nat, t1: nat, t2: nat, m: nat,
    n: nat, now: nat, clock: nat -> nat)
    requires Faithful(env) && expiresAt <= now && !OwnRouteOnly(ev.kind) && !ev.kind.Decision? && m < MAX_PAGE
    ensures var asks := Repeat(OpAppend(k, RequestEvent(env, action, expiresAt), None, t1), m);
            var st := Run(env, EMPTY, [OpCreate(k, new_, t0)] + asks + Repeat(OpAppend(k, ev, None, t2), n));
            var (st', r) := ReadGates(env, st, k, now, clock);
            && Open(st, k) && |Rows(st, k)| == 1 + m + n && |Lapsed(Project(env, Window(st, k)), now)| == m
            && |Rows(st', k)| == 1 + 2 * m + n && r.Ok?
            && |Lapsed(r.value, now)| == m - InSight(1 + m + n, m)
            && (Lapsed(r.value, now) == [] <==> m == 0 || 1 + 2 * m + n <= MAX_PAGE)
  {
    hide Inv, Run, CreateRun, Project, Lapsed, Window, Rows, Open, Repeat, Answers, ExpireLapsed, RequestEvent;
    hide OwnRouteOnly, InSight, Faithful;
    var asks := Repeat(OpAppend(k, RequestEvent(env, action, expiresAt), None, t1), m);
    var others := Repeat(OpAppend(k, ev, None, t2), n);
    var st1 := CreateRun(env, EMPTY, k, new_, t0).0;
    CreatedShowsNothing(env, k, new_, t0, now);
    var st2 := Run(env, st1, asks);
    RequestsLapse(env, st1, k, action, expiresAt, t1, now, m);
    var st := Run(env, st2, others);
    OthersAppend(env, st2, k, ev, t2, n);
    RunJoin(env, EMPTY, [OpCreate(k, new_, t0)] + asks, others);
    RunJoin(env, EMPTY, [OpCreate(k, new_, t0)], asks);
    RunOne(env, k, new_, t0);
    WindowShows(env, st, k, 1 + m);
    assert Rows(st, k)[..1 + m] == Rows(st2, k);
    ExpiryLeavesExactly(env, st, k, now, clock);
    AnswersCount(env, Rows(st, k), Rows(ExpireLapsed(env, st, k, now, clock).0, k),
                 Lapsed(Project(env, Window(st, k)), now));
  }

  lemma AnswersCount(env: Env, rows: seq<RunEvent>, rows': seq<RunEvent>, lapsed: seq<nat>)
    requires Answers(env, rows, rows', lapsed)
    ensures |rows'| == |rows| + |lapsed|
  {
  }

  /** Past the `p` first events of a run there being no decision, a handler sees the gates of those `p`. */
  lemma WindowShows(env: Env, st: State, k: RunKey, p: nat)
    requires p <= |Rows(st, k)| && p <= MAX_PAGE
    requires forall i :: p <= i < |Rows(st, k)| ==> !Rows(st, k)[i].kind.Decision?
    ensures Project(env, Window(st, k)) == Project(env, Rows(st, k)[..p])
  {
    hide Rows, Window, Project;
    WindowIsPrefix(st, k);
    OthersShowNothing(env, Window(st, k), p);
    assert Window(st, k)[..p] == Rows(st, k)[..p];
  }

  lemma RunOne(env: Env, k: RunKey, new_: NewRun, ts: nat)
    ensures Run(env, EMPTY, [OpCreate(k, new_, ts)]) == CreateRun(env, EMPTY, k, new_, ts).0
  {
    hide CreateRun, Run;
    RunStep(env, EMPTY, [OpCreate(k, new_, ts)]);
    RunNone(env, CreateRun(env, EMPTY, k, new_, ts).0, [OpCreate(k, new_, ts)][1..]);
  }

  lemma CreatedShowsNothing(env: Env, k: RunKey, new_: NewRun, ts: nat, now: nat)
    ensures var st := CreateRun(env, EMPTY, k, new_, ts).0;
            && Inv(env, st) && Open(st, k) && |Rows(st, k)| == 1
            && Lapsed(Project(env, Rows(st, k)), now) == []
  {
    hide Inv, CreateRun, OthersUntouched, Canonical, EventHash, Rows, Open;
    EmptyIsSound(env);
    CreateExactly(env, EMPTY, k, new_, ts);
    CreateKeeps(env, EMPTY, k, new_, ts);
    var rows := Rows(CreateRun(env, EMPTY, k, new_, ts).0, k);
    OthersShowNothing(env, rows, 0);
  }
}
