/** Human-approval gates as a fold over the record (crates/tideline-server/src/tlr/approvals.rs). */
module Approvals {
  import opened Bytes
  import opened Canon
  import opened Chain
  import opened Metadata
  import opened Ledger
  import opened History

  const REQUESTED: Text := Ascii("approval_requested")
  const RESOLVED: Text := Ascii("approval_resolved")
  const LAPSED_NOTE: Text := Ascii("no decision before expiry")

  datatype GateDecision = Approved | Rejected | Expired

  function DecisionText(d: GateDecision): Text {
    match d
    case Approved => Ascii("approved")
    case Rejected => Ascii("rejected")
    case Expired => Ascii("expired")
  }

  function ParseDecision(s: Text): Option<GateDecision> {
    if s == Ascii("approved") || s == Ascii("approve") then Some(Approved)
    else if s == Ascii("rejected") || s == Ascii("reject") then Some(Rejected)
    else if s == Ascii("expired") then Some(Expired)
    else None
  }

  lemma DecisionRoundTrip(d: GateDecision)
    ensures ParseDecision(DecisionText(d)) == Some(d)
  {
    assert Ascii("approved")[0] != Ascii("rejected")[0];
    assert Ascii("approve")[0] != Ascii("expired")[0];
  }

  /** The words a ruling may carry, and no others. */
  lemma DecisionWords(s: Text)
    ensures ParseDecision(Ascii("approved")) == Some(Approved) == ParseDecision(Ascii("approve"))
    ensures ParseDecision(Ascii("rejected")) == Some(Rejected) == ParseDecision(Ascii("reject"))
    ensures ParseDecision(Ascii("expired")) == Some(Expired)
    ensures ParseDecision(s).Some? ==>
              s in [Ascii("approved"), Ascii("approve"), Ascii("rejected"), Ascii("reject"), Ascii("expired")]
  {
    assert Ascii("approved")[0] == 97 && Ascii("approve")[0] == 97 && Ascii("rejected")[0] == 114;
    assert Ascii("reject")[0] == 114 && Ascii("expired")[0] == 101;
  }

  datatype GateState = Pending | Decided(decision: GateDecision)

  datatype Gate = Gate(
    seqNo: nat, action: Text, expiresAt: nat, state: GateState,
    reviewer: Option<Text>, principal: Option<Text>, attested: bool, note: Option<Text>)

  function ViewMeta(env: Env, e: RunEvent): MetaView {
    if e.metadata.Some? then env.decode(e.metadata.value) else NULL_VIEW
  }

  function Or<T>(o: Option<T>, default: T): T {
    if o.Some? then o.value else default
  }

  predicate IsRequest(e: RunEvent) {
    e.kind.Decision? && e.name == Some(REQUESTED)
  }

  predicate IsResolution(e: RunEvent) {
    e.kind.Decision? && e.name == Some(RESOLVED)
  }

  lemma RequestsAreNotResolutions(e: RunEvent)
    ensures !(IsRequest(e) && IsResolution(e))
  {
    assert |REQUESTED| != |RESOLVED|;
  }

  /** The ruling an event carries, when it is a well-formed resolution. */
  function RulingOf(env: Env, e: RunEvent): Option<(nat, GateDecision)> {
    if IsResolution(e) && ViewMeta(env, e).targetSeq.Some? && ViewMeta(env, e).decision.Some? then
      var d := ParseDecision(ViewMeta(env, e).decision.value);
      if d.Some? then Some((ViewMeta(env, e).targetSeq.value, d.value)) else None
    else None
  }

  function Opened(env: Env, e: RunEvent): Gate {
    Gate(e.seqNo, Or(ViewMeta(env, e).action, []), Or(ViewMeta(env, e).expiresAt, 0), Pending, None, None, false, None)
  }

  function Close(g: Gate, d: GateDecision, m: MetaView): Gate {
    g.(state := Decided(d), reviewer := m.reviewer, principal := m.principal, attested := Or(m.attested, false),
        note := m.note)
  }

  // --- The fold ------------------------------------------------------------------------

  /** The position of the first pending gate with sequence number `s`, or `|gates|`. */
  function FindPending(gates: seq<Gate>, s: nat): (i: nat)
    ensures i <= |gates|
    ensures i < |gates| ==> gates[i].seqNo == s && gates[i].state.Pending?
    ensures forall j :: 0 <= j < i ==> !(gates[j].seqNo == s && gates[j].state.Pending?)
  {
    if gates == [] then 0
    else if gates[0].seqNo == s && gates[0].state.Pending? then 0
    else 1 + FindPending(gates[1..], s)
  }

  function Absorb(env: Env, gates: seq<Gate>, e: RunEvent): seq<Gate> {
    if IsRequest(e) then gates + [Opened(env, e)]
    else
      match RulingOf(env, e)
      case None => gates
      case Some((s, d)) =>
        var i := FindPending(gates, s);
        if i < |gates| then gates[i := Close(gates[i], d, ViewMeta(env, e))] else gates
  }

  function Project(env: Env, events: seq<RunEvent>): seq<Gate> {
    if events == [] then []
    else Absorb(env, Project(env, events[..|events| - 1]), events[|events| - 1])
  }

  /** The projection loop: gates are pushed as they are requested and updated in place as they are ruled on. */
  method ProjectGates(env: Env, events: seq<RunEvent>) returns (gates: seq<Gate>)
    ensures gates == Project(env, events)
  {
    gates := [];
    for n := 0 to |events|
      invariant gates == Project(env, events[..n])
    {
      var e := events[n];
      assert events[..n + 1][..n] == events[..n];
      RequestsAreNotResolutions(e);
      if e.kind != Decision {
        continue;
      }
      if e.name == Some(REQUESTED) {
        gates := gates + [Opened(env, e)];
      } else if e.name == Some(RESOLVED) {
        var m := ViewMeta(env, e);
        if m.targetSeq.None? || m.decision.None? {
          continue;
        }
        var decision := ParseDecision(m.decision.value);
        if decision.None? {
          continue;
        }
        var i := FindPending(gates, m.targetSeq.value);
        if i < |gates| {
          gates := gates[i := Close(gates[i], decision.value, m)];
        }
      }
    }
    assert events[..|events|] == events;
  }

  /** A resolution that names no gate, no decision, or a decision nobody knows leaves every gate as it was. */
  lemma MalformedRulingIsIgnored(env: Env, rows: seq<RunEvent>, e: RunEvent)
    requires e.kind.Decision? && e.name == Some(Ascii("approval_resolved"))
    requires var m := ViewMeta(env, e);
             || m.targetSeq.None? || m.decision.None?
             || m.decision.value !in [Ascii("approved"), Ascii("approve"), Ascii("rejected"), Ascii("reject"),
                                      Ascii("expired")]
    ensures Project(env, rows + [e]) == Project(env, rows)
  {
    RequestsAreNotResolutions(e);
    if ViewMeta(env, e).decision.Some? {
      DecisionWords(ViewMeta(env, e).decision.value);
    }
    hide ParseDecision;
    assert (rows + [e])[..|rows|] == rows;
  }

  // --- What the fold means ---------------------------------------------------------------

  ghost predicate Numbered(events: seq<RunEvent>) {
    forall i :: 0 <= i < |events| ==> events[i].seqNo == i
  }

  predicate Rules(env: Env, e: RunEvent, s: nat) {
    RulingOf(env, e).Some? && RulingOf(env, e).value.0 == s
  }

  /** The first event at or after `i` that rules on gate `s`, or `|events|`. */
  function FirstRuling(env: Env, events: seq<RunEvent>, i: nat, s: nat): (r: nat)
    requires i <= |events|
    ensures i <= r <= |events|
    ensures r < |events| ==> Rules(env, events[r], s)
    ensures forall j :: i <= j < r ==> !Rules(env, events[j], s)
    decreases |events| - i
  {
    if i == |events| then i
    else if Rules(env, events[i], s) then i
    else FirstRuling(env, events, i + 1, s)
  }

  /** The gate opened by the request at `i`: closed by the first later ruling that names it, else pending. */
  function GateAt(env: Env, events: seq<RunEvent>, i: nat): Gate
    requires i < |events|
  {
    var r := FirstRuling(env, events, i + 1, events[i].seqNo);
    if r == |events| then Opened(env, events[i])
    else Close(Opened(env, events[i]), RulingOf(env, events[r]).value.1, ViewMeta(env, events[r]))
  }

  /** The positions of the requests, in order. */
  function Requests(events: seq<RunEvent>): (at: seq<nat>)
    ensures forall m :: 0 <= m < |at| ==> at[m] < |events| && IsRequest(events[at[m]])
    ensures forall m, n :: 0 <= m < n < |at| ==> at[m] < at[n]
    ensures forall i :: 0 <= i < |events| && IsRequest(events[i]) ==> i in at
  {
    if events == [] then []
    else
      var n := |events| - 1;
      var before := Requests(events[..n]);
      assert forall i :: 0 <= i < n ==> events[..n][i] == events[i];
      if IsRequest(events[n]) then before + [n] else before
  }

  /** A ruling once found is found again however the record is extended; a later one is found only if none was. */
  lemma {:induction false} FirstRulingExtends(env: Env, events: seq<RunEvent>, e: RunEvent, i: nat, s: nat)
    requires i <= |events|
    ensures var r := FirstRuling(env, events, i, s);
            FirstRuling(env, events + [e], i, s)
            == if r < |events| then r else if Rules(env, e, s) then |events| else |events| + 1
    decreases |events| - i
  {
    var longer := events + [e];
    if i < |events| {
      assert longer[i] == events[i];
      if !Rules(env, events[i], s) {
        FirstRulingExtends(env, events, e, i + 1, s);
      }
    } else {
      assert longer[i] == e;
    }
  }

  /**
   * The fold is the declared meaning: one gate per request, in record order, each decided by the first valid ruling
   * after it that names it.
   */
  lemma {:induction false} ProjectionMeansFirstRuling(env: Env, events: seq<RunEvent>)
    requires Numbered(events)
    ensures |Project(env, events)| == |Requests(events)|
    ensures forall m :: 0 <= m < |Requests(events)| ==> Project(env, events)[m] == GateAt(env, events,
              Requests(events)[m])
    decreases |events|
  {
    if events != [] {
      var before, e := events[..|events| - 1], events[|events| - 1];
      assert before + [e] == events;
      ProjectionMeansFirstRuling(env, before);
      ProjectionPush(env, before, e);
    }
  }

  lemma ProjectPush(env: Env, before: seq<RunEvent>, e: RunEvent)
    ensures Project(env, before + [e]) == Absorb(env, Project(env, before), e)
  {
    hide Absorb;
    assert (before + [e])[..|before|] == before;
  }

  lemma RequestsPush(before: seq<RunEvent>, e: RunEvent)
    ensures Requests(before + [e]) == Requests(before) + if IsRequest(e) then [|before|] else []
  {
    hide IsRequest;
    assert (before + [e])[..|before|] == before;
  }

  lemma ProjectionPush(env: Env, before: seq<RunEvent>, e: RunEvent)
    requires Numbered(before + [e])
    requires |Project(env, before)| == |Requests(before)|
    requires forall m :: 0 <= m < |Requests(before)| ==> Project(env, before)[m] == GateAt(env, before,
              Requests(before)[m])
    ensures |Project(env, before + [e])| == |Requests(before + [e])|
    ensures forall m :: 0 <= m < |Requests(before + [e])| ==>
              Project(env, before + [e])[m] == GateAt(env, before + [e], Requests(before + [e])[m])
  {
    hide GateAt, Ruled, Opened, IsRequest, Absorb, Project, Requests;
    var events, n := before + [e], |before|;
    assert events[n] == e;
    ProjectPush(env, before, e);
    RequestsPush(before, e);
    var gates, at := Project(env, before), Requests(before);
    forall m | 0 <= m < |at| ensures gates[m].seqNo == at[m] && GateAt(env, events, at[m]) == Ruled(env, gates[m], e) {
      assert before[at[m]] == events[at[m]];
      GateAfterOne(env, before, e, at[m]);
    }
    AbsorbRules(env, gates, e, at);
    FreshGate(env, events, n);
    if IsRequest(e) {
      StillPending(env, gates, e);
    }
  }

  /** A request rules on no gate. */
  lemma StillPending(env: Env, gates: seq<Gate>, e: RunEvent)
    requires IsRequest(e)
    ensures forall m :: 0 <= m < |gates| ==> Ruled(env, gates[m], e) == gates[m]
  {
    RequestsAreNotResolutions(e);
  }

  /** A gate after event `e`: closed if it was pending and `e` rules on it. */
  function Ruled(env: Env, g: Gate, e: RunEvent): Gate {
    if g.state.Pending? && Rules(env, e, g.seqNo) then Close(g, RulingOf(env, e).value.1, ViewMeta(env, e)) else g
  }

  lemma FreshGate(env: Env, events: seq<RunEvent>, n: nat)
    requires |events| == n + 1
    ensures GateAt(env, events, n) == Opened(env, events[n])
  {
  }

  /** With one gate per sequence number, absorbing an event rules on each gate independently. */
  lemma AbsorbRules(env: Env, gates: seq<Gate>, e: RunEvent, at: seq<nat>)
    requires |at| == |gates| && forall m :: 0 <= m < |at| ==> gates[m].seqNo == at[m]
    requires forall m, n :: 0 <= m < n < |at| ==> at[m] < at[n]
    ensures Absorb(env, gates, e)
         == if IsRequest(e) then gates + [Opened(env, e)] else seq(|gates|, m requires 0 <= m < |gates| => Ruled(env,
             gates[m], e))
  {
    RequestsAreNotResolutions(e);
    if !IsRequest(e) && RulingOf(env, e).Some? {
      var s := RulingOf(env, e).value.0;
      var i := FindPending(gates, s);
      forall m | 0 <= m < |gates| && m != i ensures Ruled(env, gates[m], e) == gates[m] {
        if m > i {
          assert at[i] < at[m];
        }
      }
    }
  }

  lemma GateAfterOne(env: Env, events: seq<RunEvent>, e: RunEvent, i: nat)
    requires i < |events| && events[i].seqNo == i
    ensures var g := GateAt(env, events, i);
            g.seqNo == i && GateAt(env, events + [e], i) == Ruled(env, g, e)
  {
    assert (events + [e])[i] == events[i];
    FirstRulingExtends(env, events, e, i + 1, i);
  }

  /**
   * What a gate reads: action and expiry are what its request says, empty and 0 if it says nothing; a ruling's word
   * decides it, and reviewer, principal and note are the ruling's; it is attested only if the ruling says so.
   */
  lemma GateReads(env: Env, rows: seq<RunEvent>, i: nat)
    requires i < |rows|
    ensures var g, asked := GateAt(env, rows, i), ViewMeta(env, rows[i]);
            var r := FirstRuling(env, rows, i + 1, rows[i].seqNo);
            && g.seqNo == rows[i].seqNo
            && g.action == (if asked.action.Some? then asked.action.value else [])
            && g.expiresAt == (if asked.expiresAt.Some? then asked.expiresAt.value else 0)
            && (if r == |rows| then
                  g.state == Pending && g.reviewer == None && g.principal == None && !g.attested && g.note == None
                else
                  var m := ViewMeta(env, rows[r]);
                  && m.decision.Some? && g.state.Decided? && ParseDecision(m.decision.value) == Some(g.state.decision)
                  && g.reviewer == m.reviewer && g.principal == m.principal && g.note == m.note
                  && (g.attested <==> m.attested == Some(true)))
  {
    hide ParseDecision, ViewMeta;
  }

  // --- Rulings stand -------------------------------------------------------------------------

  /** The event that decides the gate opened at `i`, or `|rows|` while it is pending. */
  function DecidedBy(env: Env, rows: seq<RunEvent>, i: nat): (r: nat)
    requires i < |rows|
    ensures i < r <= |rows|
  {
    FirstRuling(env, rows, i + 1, rows[i].seqNo)
  }

  /** `e` is readable as a gate event wherever `w` is: it kept its name and metadata. */
  predicate Readable(w: RunEvent, e: RunEvent) {
    e.name == w.name && e.metadata == w.metadata
  }

  /** Erasure never makes a ruling: an event that still rules is one that always ruled, and says the same. */
  lemma ErasureMakesNoRuling(env: Env, w: RunEvent, e: RunEvent)
    requires Erasure(env.hash, w, e)
    ensures RulingOf(env, e).Some? ==> RulingOf(env, e) == RulingOf(env, w) && ViewMeta(env, e) == ViewMeta(env, w)
    ensures Readable(w, e) ==> RulingOf(env, e) == RulingOf(env, w) && ViewMeta(env, e) == ViewMeta(env, w)
  {
    assert ErasedField(env.hash, w, e, "name") && ErasedField(env.hash, w, e, "metadata");
  }

  /** A decided gate reads the same as long as its own request and the ruling that decided it can be read. */
  lemma DecidedGateStands(env: Env, rows: seq<RunEvent>, rows': seq<RunEvent>, i: nat)
    requires i < |rows| <= |rows'|
    requires forall j :: 0 <= j < |rows| ==> Erasure(env.hash, rows[j], rows'[j])
    requires DecidedBy(env, rows, i) < |rows|
    requires Readable(rows[i], rows'[i]) && Readable(rows[DecidedBy(env, rows, i)], rows'[DecidedBy(env, rows, i)])
    ensures DecidedBy(env, rows', i) == DecidedBy(env, rows, i)
    ensures GateAt(env, rows', i) == GateAt(env, rows, i)
  {
    hide Erasure, RulingOf, ViewMeta;
    forall j | 0 <= j < |rows|
      ensures rows'[j].seqNo == rows[j].seqNo
      ensures RulingOf(env, rows'[j]).Some? ==> RulingOf(env, rows'[j]) == RulingOf(env, rows[j])
      ensures Readable(rows[j], rows'[j]) ==>
                RulingOf(env, rows'[j]) == RulingOf(env, rows[j]) && ViewMeta(env, rows'[j]) == ViewMeta(env, rows[j])
    {
      ErasureMakesNoRuling(env, rows[j], rows'[j]);
      ErasureKeepsPlace(env.hash, rows[j], rows'[j]);
    }
    var r, r' := DecidedBy(env, rows, i), DecidedBy(env, rows', i);
    assert Rules(env, rows'[r], rows[i].seqNo);
    assert r' <= r;
    assert Rules(env, rows[r'], rows[i].seqNo);
  }

  lemma ErasureKeepsPlace(h: HashFn, w: RunEvent, e: RunEvent)
    requires Erasure(h, w, e)
    ensures e.seqNo == w.seqNo && e.kind == w.kind
  {
  }

  /**
   * Gate stability: whatever is appended to or erased from a run, racing resolutions included, a gate once decided
   * keeps its state, reviewer, attestation and note, as long as the name and metadata of its own request and of the
   * one ruling that decided it are not erased. What becomes of other gates' events does not matter.
   */
  lemma GateStability(env: Env, st: State, ops: seq<Op>, k: RunKey, i: nat)
    requires Inv(env, st) && i < |Rows(st, k)| && DecidedBy(env, Rows(st, k), i) < |Rows(st, k)|
    requires var rows, rows', r := Rows(st, k), Rows(Run(env, st, ops), k), DecidedBy(env, Rows(st, k), i);
             r < |rows'| && Readable(rows[i], rows'[i]) && Readable(rows[r], rows'[r])
    ensures |Rows(st, k)| <= |Rows(Run(env, st, ops), k)|
    ensures GateAt(env, Rows(Run(env, st, ops), k), i) == GateAt(env, Rows(st, k), i)
  {
    hide Inv, Extends, Erasure, Run, Rows, GateAt, Readable;
    RunKeeps(env, st, ops);
    RowsExtend(env, st, Run(env, st, ops), k);
    DecidedGateStands(env, Rows(st, k), Rows(Run(env, st, ops), k), i);
  }

  lemma RowsExtend(env: Env, st: State, st': State, k: RunKey)
    requires Inv(env, st) && Extends(env.hash, st, st')
    ensures |Rows(st, k)| <= |Rows(st', k)|
    ensures forall j :: 0 <= j < |Rows(st, k)| ==> Erasure(env.hash, Rows(st, k)[j], Rows(st', k)[j])
  {
    hide Erasure;
    if k in st.runs {
      assert RunGrew(env.hash, st.runs[k], Rows(st, k), st'.runs[k], Rows(st', k));
    }
  }

  // --- What one redaction does to a gate -----------------------------------------------------------

  /** The gate with sequence number `i` that a record shows, if it shows one. */
  function GateShown(env: Env, rows: seq<RunEvent>, i: nat): Option<Gate> {
    if i < |rows| && IsRequest(rows[i]) then Some(GateAt(env, rows, i)) else None
  }

  /** The gate opened at `i` as the event at `r` decides it, or pending when there is none there. */
  function ClosedBy(env: Env, rows: seq<RunEvent>, i: nat, r: nat): Gate
    requires i < |rows|
  {
    if r < |rows| && RulingOf(env, rows[r]).Some?
    then Close(Opened(env, rows[i]), RulingOf(env, rows[r]).value.1, ViewMeta(env, rows[r]))
    else Opened(env, rows[i])
  }

  /** The ruling next in line on the gate opened at `i`. */
  function NextRuling(env: Env, rows: seq<RunEvent>, i: nat): (r: nat)
    requires i < |rows|
    ensures r <= |rows|
  {
    var r := DecidedBy(env, rows, i);
    if r < |rows| then FirstRuling(env, rows, r + 1, rows[i].seqNo) else r
  }

  predicate Unreadable(fields: seq<string>) {
    "name" in fields || "metadata" in fields
  }

  /** The gate opened at `i` once `fields` of the event at `target` are erased. */
  function ShownAfter(env: Env, rows: seq<RunEvent>, i: nat, target: nat, fields: seq<string>): Option<Gate>
    requires i < |rows|
  {
    if target == i && "name" in fields then None
    else if target == i && "metadata" in fields then Some(GateAt(env, rows, i).(action := [], expiresAt := 0))
    else if target == DecidedBy(env, rows, i) && Unreadable(fields)
    then Some(ClosedBy(env, rows, i, NextRuling(env, rows, i)))
    else Some(GateAt(env, rows, i))
  }

  /** A ruling erased is passed over; any other erasure leaves the search where it was. */
  lemma RulingPassedOver(env: Env, rows: seq<RunEvent>, target: nat, e: RunEvent, red: RunEvent, i: nat)
    requires i < |rows| && target < |rows| && Numbered(rows) && e.seqNo == target
    requires RulingOf(env, red).None?
    requires RulingOf(env, e).None? || (RulingOf(env, e) == RulingOf(env, rows[target]) && target != i)
    requires target == i ==> RulingOf(env, rows[i]).None?
    ensures var rows', r := rows[target := e] + [red], DecidedBy(env, rows, i);
            DecidedBy(env, rows', i)
            == var r' := if target == r && RulingOf(env, e).None? then NextRuling(env, rows, i) else r;
               if r' == |rows| then |rows| + 1 else r'
  {
    hide RulingOf;
    var rows', r := rows[target := e] + [red], DecidedBy(env, rows, i);
    var r' := if target == r && RulingOf(env, e).None? then NextRuling(env, rows, i) else r;
    assert forall j :: 0 <= j < |rows| && j != target ==> rows'[j] == rows[j];
    assert rows'[target] == e && rows'[|rows|] == red && rows'[i].seqNo == i;
    forall j | i < j < r' ensures !Rules(env, rows'[j], i) {
      if j != target {
        assert rows'[j] == rows[j];
        assert j != r ==> !Rules(env, rows[j], i);
      }
    }
    if r' < |rows| {
      assert Rules(env, rows'[r'], i);
    } else {
      assert !Rules(env, rows'[|rows|], i);
    }
    FirstRulingIs(env, rows', i + 1, i, if r' == |rows| then |rows| + 1 else r');
  }

  lemma FirstRulingIs(env: Env, rows: seq<RunEvent>, from: nat, s: nat, r: nat)
    requires from <= r <= |rows| && (r < |rows| ==> Rules(env, rows[r], s))
    requires forall j :: from <= j < r ==> !Rules(env, rows[j], s)
    ensures FirstRuling(env, rows, from, s) == r
  {
    hide Rules;
  }

  /** What is left of an event of which `fields` were erased, for the projection. */
  lemma ErasedReads(env: Env, w: RunEvent, fields: seq<string>, e: RunEvent)
    requires ErasesExactly(env.hash, w, e, fields)
    ensures e.seqNo == w.seqNo && e.kind == w.kind
    ensures "name" !in fields ==> e.name == w.name
    ensures "metadata" !in fields ==> e.metadata == w.metadata
    ensures "name" in fields ==> e.name == None
    ensures "metadata" in fields ==> e.metadata == None
    ensures RulingOf(env, e) == if Unreadable(fields) then None else RulingOf(env, w)
    ensures IsRequest(e) <==> IsRequest(w) && "name" !in fields
    ensures Opened(env, e) == if "metadata" in fields then Opened(env, w).(action := [], expiresAt := 0)
              else Opened(env, w)
    ensures !Unreadable(fields) ==> ViewMeta(env, e) == ViewMeta(env, w)
  {
    assert Value(e, "name") == if "name" in fields then None else Value(w, "name");
    assert Value(e, "metadata") == if "metadata" in fields then None else Value(w, "metadata");
  }

  lemma RequestRulesNothing(env: Env, e: RunEvent)
    requires IsRequest(e)
    ensures RulingOf(env, e).None?
  {
    RequestsAreNotResolutions(e);
  }

  lemma ShownByEdit(
    env: Env, rows: seq<RunEvent>, i: nat, target: nat, fields: seq<string>, e: RunEvent, red: RunEvent)
    requires i < |rows| && IsRequest(rows[i]) && target < |rows| && Numbered(rows) && red.kind.Redaction?
    requires ErasesExactly(env.hash, rows[target], e, fields)
    ensures GateShown(env, rows[target := e] + [red], i) == ShownAfter(env, rows, i, target, fields)
  {
    hide ErasesExactly, RulingOf, ViewMeta, IsRequest, FirstRuling;
    var rows' := rows[target := e] + [red];
    ErasedReads(env, rows[target], fields, e);
    RequestRulesNothing(env, rows[i]);
    RedactionRulesNothing(env, red);
    RulingPassedOver(env, rows, target, e, red, i);
    assert forall j :: 0 <= j < |rows| && j != target ==> rows'[j] == rows[j];
    assert rows'[target] == e && rows'[|rows|] == red;
    GateAtIs(env, rows, i);
    GateAtIs(env, rows', i);
  }

  lemma RedactionRulesNothing(env: Env, e: RunEvent)
    requires e.kind.Redaction?
    ensures RulingOf(env, e).None? && !IsRequest(e)
  {
  }

  lemma GateAtIs(env: Env, rows: seq<RunEvent>, i: nat)
    requires i < |rows|
    ensures GateAt(env, rows, i) == ClosedBy(env, rows, i, DecidedBy(env, rows, i))
    ensures DecidedBy(env, rows, i) < |rows| ==> Rules(env, rows[DecidedBy(env, rows, i)], rows[i].seqNo)
    ensures NextRuling(env, rows, i) < |rows| ==> Rules(env, rows[NextRuling(env, rows, i)], rows[i].seqNo)
  {
  }

  /**
   * What one accepted redaction does to a gate, in terms of the record before it. Erasing the name of its request
   * takes the gate away; erasing the request's metadata blanks its action and expiry; erasing either of the ruling
   * that decided it hands the gate to the next ruling in line, or makes it pending again; nothing else touches it.
   */
  lemma RedactionAndGates(
    env: Env, st: State, k: RunKey, target: nat, fields: seq<string>, authority: Text, ts: nat, i: nat)
    requires Inv(env, st) && Open(st, k) && target < |Rows(st, k)|
    requires forall f :: f in fields ==> f in REDACTABLE
    requires i < |Rows(st, k)| && IsRequest(Rows(st, k)[i])
    ensures var st' := Redact(env, st, k, target, fields, authority, ts).0;
            GateShown(env, Rows(st', k), i) == ShownAfter(env, Rows(st, k), i, target, fields)
  {
    hide Inv, Redact, Rows, GateShown, ShownAfter, OthersUntouched, EventHash, IsRequest;
    RedactExactly(env, st, k, target, fields, authority, ts);
    RowsAreNumbered(env, st, k);
    var rows := Rows(st, k);
    var rows' := Rows(Redact(env, st, k, target, fields, authority, ts).0, k);
    assert rows' == rows[target := rows'[target]] + [rows'[|rows|]];
    ShownByEdit(env, rows, i, target, fields, rows'[target], rows'[|rows|]);
  }

  /** So a redaction leaves a gate as it was exactly when, by the record before it, it does none of those things. */
  lemma RedactionSparesTheGateExactlyWhen(
    env: Env, st: State, k: RunKey, target: nat, fields: seq<string>, authority: Text, ts: nat, i: nat)
    requires Inv(env, st) && Open(st, k) && target < |Rows(st, k)|
    requires forall f :: f in fields ==> f in REDACTABLE
    requires i < |Rows(st, k)| && IsRequest(Rows(st, k)[i])
    ensures var rows := Rows(st, k);
            var g, r := GateAt(env, rows, i), DecidedBy(env, rows, i);
            GateShown(env, Rows(Redact(env, st, k, target, fields, authority, ts).0, k), i) == GateShown(env, rows, i)
            <==> && (target == i ==> "name" !in fields && ("metadata" in fields ==> g.action == [] && g.expiresAt == 0))
                 && (target == r && Unreadable(fields) ==> ClosedBy(env, rows, i, NextRuling(env, rows, i)) == g)
  {
    hide Inv, Redact, Rows, DecidedBy, GateAt, ClosedBy, NextRuling, IsRequest;
    RedactionAndGates(env, st, k, target, fields, authority, ts, i);
    DecidedLater(env, Rows(st, k), i);
  }

  lemma DecidedLater(env: Env, rows: seq<RunEvent>, i: nat)
    requires i < |rows|
    ensures DecidedBy(env, rows, i) > i
  {
  }

  // --- Requesting and resolving ------------------------------------------------------------------

  datatype Answer = Answer(
    decision: GateDecision, reviewer: Option<Text>, principal: Option<Text>, attested: bool, note: Option<Text>)

  const LAPSE := Answer(Expired, None, None, false, Some(LAPSED_NOTE))

  function RequestEvent(env: Env, action: Text, expiresAt: nat): NewEvent {
    NewEvent(Decision, None, Some(REQUESTED), None, Some(env.encode(Requested(action, expiresAt))))
  }

  function ResolutionEvent(env: Env, target: nat, a: Answer): NewEvent {
    NewEvent(Decision, None, Some(RESOLVED), None,
             Some(env.encode(Resolved(target, DecisionText(a.decision), a.reviewer, a.principal, a.attested, a.note))))
  }

  function Answered(g: Gate, a: Answer): Gate {
    g.(state := Decided(a.decision), reviewer := a.reviewer, principal := a.principal, attested := a.attested,
        note := a.note)
  }

  function FindGate(gates: seq<Gate>, s: nat): Option<Gate> {
    if gates == [] then None
    else if gates[0].seqNo == s then Some(gates[0])
    else FindGate(gates[1..], s)
  }

  /** What a handler can see of a run: at most its first 5000 events. */
  function Window(st: State, k: RunKey): seq<RunEvent> {
    EventsFrom(st, k, 0, MAX_PAGE)
  }

  /** The first of a resolve's two steps: read, project, and refuse unless the gate is pending. */
  function ResolveCheck(env: Env, st: State, k: RunKey, target: nat): Result<(), StoreError> {
    match FindGate(Project(env, Window(st, k)), target)
    case None => Err(NotFound)
    case Some(g) => if g.state.Pending? then Ok(()) else Err(Conflict)
  }

  /** Both steps with nobody in between. */
  function Resolve(env: Env, st: State, k: RunKey, target: nat, a: Answer, ts: nat)
    : (State, Result<AppendResult, StoreError>)
  {
    match ResolveCheck(env, st, k, target)
    case Err(e) => (st, Err(e))
    case Ok(_) => Append(env, st, k, ResolutionEvent(env, target, a), None, ts)
  }

  /** A resolution the server wrote rules on its target, and closes it with exactly the answer given. */
  lemma WrittenResolutionRules(env: Env, e: RunEvent, target: nat, a: Answer, g: Gate)
    requires Faithful(env)
    requires NewEvent(e.kind, e.role, e.name, e.content, e.metadata) == ResolutionEvent(env, target, a)
    ensures RulingOf(env, e) == Some((target, a.decision)) && !IsRequest(e)
    ensures Close(g, a.decision, ViewMeta(env, e)) == Answered(g, a)
  {
    DecisionRoundTrip(a.decision);
    RequestsAreNotResolutions(e);
  }

  lemma {:induction false} FoundGate(gates: seq<Gate>, m: nat)
    requires m < |gates| && forall n :: 0 <= n < m ==> gates[n].seqNo != gates[m].seqNo
    ensures FindGate(gates, gates[m].seqNo) == Some(gates[m])
  {
    if m > 0 {
      FoundGate(gates[1..], m - 1);
    }
  }

  lemma {:induction false} MissingGate(gates: seq<Gate>, s: nat)
    requires forall n :: 0 <= n < |gates| ==> gates[n].seqNo != s
    ensures FindGate(gates, s) == None
  {
    if gates != [] {
      MissingGate(gates[1..], s);
    }
  }

  lemma GatesAreNumbered(env: Env, events: seq<RunEvent>)
    requires Numbered(events)
    ensures var gates, at := Project(env, events), Requests(events);
            && |gates| == |at|
            && forall m :: 0 <= m < |at| ==> gates[m] == GateAt(env, events, at[m]) && gates[m].seqNo == at[m]
  {
    hide Project, Requests;
    ProjectionMeansFirstRuling(env, events);
  }

  lemma FindGateIsGateAt(env: Env, events: seq<RunEvent>, s: nat)
    requires Numbered(events)
    ensures FindGate(Project(env, events), s)
         == if s < |events| && IsRequest(events[s]) then Some(GateAt(env, events, s)) else None
  {
    hide Project, GateAt, IsRequest, Requests;
    GatesAreNumbered(env, events);
    var gates, at := Project(env, events), Requests(events);
    if s < |events| && IsRequest(events[s]) {
      var m :| 0 <= m < |at| && at[m] == s;
      FoundGate(gates, m);
    } else {
      MissingGate(gates, s);
    }
  }

  lemma WindowIsPrefix(st: State, k: RunKey)
    ensures Window(st, k) == Rows(st, k)[..if |Rows(st, k)| <= MAX_PAGE then |Rows(st, k)| else MAX_PAGE]
  {
  }

  /** A resolve is refused exactly when the first 5000 events hold no such gate, or already hold a ruling on it. */
  lemma ResolveCheckExactly(env: Env, st: State, k: RunKey, target: nat)
    requires Inv(env, st)
    ensures var seen := Window(st, k);
            ResolveCheck(env, st, k, target)
            == if target >= |seen| || !IsRequest(seen[target]) then Err(NotFound)
               else if exists r :: target < r < |seen| && Rules(env, seen[r], target) then Err(Conflict)
               else Ok(())
  {
    RowsAreNumbered(env, st, k);
    hide Inv;
    WindowIsPrefix(st, k);
    var seen := Window(st, k);
    FindGateIsGateAt(env, seen, target);
    if target < |seen| && IsRequest(seen[target]) {
      assert seen[target].seqNo == target;
      var r := FirstRuling(env, seen, target + 1, target);
    }
  }

  /** What one written resolution does to each gate of a record. */
  lemma AppendedRuling(env: Env, rows: seq<RunEvent>, e: RunEvent, target: nat, a: Answer, i: nat)
    requires Faithful(env) && Numbered(rows) && i < |rows|
    requires NewEvent(e.kind, e.role, e.name, e.content, e.metadata) == ResolutionEvent(env, target, a)
    ensures var g := GateAt(env, rows, i);
            GateAt(env, rows + [e], i) == if g.state.Pending? && i == target then Answered(g, a) else g
    ensures Requests(rows + [e]) == Requests(rows)
  {
    WrittenResolutionRules(env, e, target, a, GateAt(env, rows, i));
    GateAfterOne(env, rows, e, i);
    assert (rows + [e])[..|rows|] == rows;
  }

  /** The second step of a resolve, on an open run: the resolution is the new last event and the run stays open. */
  lemma ResolutionLands(env: Env, st: State, k: RunKey, target: nat, a: Answer, ts: nat)
    requires Inv(env, st) && Open(st, k)
    ensures var ev := ResolutionEvent(env, target, a);
            var (st', r) := Append(env, st, k, ev, None, ts);
            && RouteAppend(env, st, k, ev, None, ts) == (st', r)
            && r.Ok? && Inv(env, st') && Open(st', k) && |Rows(st', k)| == |Rows(st, k)| + 1
            && var e := Last(Rows(st', k));
               && Rows(st', k) == Rows(st, k) + [e]
               && NewEvent(e.kind, e.role, e.name, e.content, e.metadata) == ev
               && e.seqNo == |Rows(st, k)| && e.kind == Decision && e.name == Some(Ascii("approval_resolved"))
               && e.metadata == Some(env.encode(Resolved(target, DecisionText(a.decision), a.reviewer, a.principal,
                                                         a.attested, a.note)))
  {
    var ev := ResolutionEvent(env, target, a);
    AppendExactly(env, st, k, ev, None, ts);
    AppendKeeps(env, st, k, ev, None, ts);
    hide Inv, Append, OthersUntouched, Extends, EventHash;
    var st' := Append(env, st, k, ev, None, ts).0;
    assert Rows(st', k) == Rows(st', k)[..|Rows(st, k)|] + [Last(Rows(st', k))];
  }

  /** Two resolutions of one pending gate, written one after the other. */
  lemma BothLand(env: Env, st: State, k: RunKey, target: nat, a: Answer, b: Answer, ts: nat, ts': nat)
    requires Inv(env, st) && Faithful(env) && Open(st, k)
    requires target < |Rows(st, k)| && IsRequest(Rows(st, k)[target])
    requires GateAt(env, Rows(st, k), target).state.Pending?
    ensures var rows, g := Rows(st, k), GateAt(env, Rows(st, k), target);
            var (st1, r1) := RouteAppend(env, st, k, ResolutionEvent(env, target, a), None, ts);
            var (st2, r2) := RouteAppend(env, st1, k, ResolutionEvent(env, target, b), None, ts');
            && r1.Ok? && r2.Ok? && Inv(env, st1) && Inv(env, st2) && Open(st2, k) && |Rows(st1, k)| == |rows| + 1
            && Rows(st2, k) == Rows(st1, k) + [Last(Rows(st2, k))] && Rows(st1, k) == rows + [Last(Rows(st1, k))]
            && DecidedBy(env, Rows(st1, k), target) == DecidedBy(env, Rows(st2, k), target) == |rows|
            && NextRuling(env, Rows(st2, k), target) == |rows| + 1
            && GateAt(env, Rows(st1, k), target) == Answered(g, a)
            && ClosedBy(env, Rows(st2, k), target, |rows| + 1) == Answered(g, b)
  {
    hide Inv, RouteAppend, Append, ResolutionEvent, Rows, Open, IsRequest;
    var st1 := RouteAppend(env, st, k, ResolutionEvent(env, target, a), None, ts).0;
    var st2 := RouteAppend(env, st1, k, ResolutionEvent(env, target, b), None, ts').0;
    ResolutionLands(env, st, k, target, a, ts);
    ResolutionLands(env, st1, k, target, b, ts');
    RowsAreNumbered(env, st, k);
    TwoRulings(env, Rows(st, k), Last(Rows(st1, k)), Last(Rows(st2, k)), target, a, b);
  }

  lemma TwoRulings(
    env: Env, rows: seq<RunEvent>, e: RunEvent, f: RunEvent, target: nat, a: Answer, b: Answer)
    requires Faithful(env) && Numbered(rows) && target < |rows| && IsRequest(rows[target])
    requires GateAt(env, rows, target).state.Pending?
    requires NewEvent(e.kind, e.role, e.name, e.content, e.metadata) == ResolutionEvent(env, target, a)
    requires NewEvent(f.kind, f.role, f.name, f.content, f.metadata) == ResolutionEvent(env, target, b)
    ensures var one, two, g := rows + [e], rows + [e] + [f], GateAt(env, rows, target);
            && DecidedBy(env, one, target) == DecidedBy(env, two, target) == |rows|
            && NextRuling(env, two, target) == |rows| + 1
            && GateAt(env, one, target) == Answered(g, a) && ClosedBy(env, two, target, |rows| + 1) == Answered(g, b)
  {
    hide ResolutionEvent, ViewMeta, RulingOf;
    var one, two, g := rows + [e], rows + [e] + [f], GateAt(env, rows, target);
    WrittenResolutionRules(env, e, target, a, g);
    WrittenResolutionRules(env, f, target, b, g);
    GateAtIs(env, rows, target);
    assert DecidedBy(env, rows, target) == |rows|;
    forall j | target < j < |rows| ensures !Rules(env, one[j], target) && !Rules(env, two[j], target) {
      assert one[j] == rows[j] && two[j] == rows[j];
      assert !Rules(env, rows[j], target);
    }
    assert one[|rows|] == e && two[|rows|] == e && two[|rows| + 1] == f;
    assert one[target] == rows[target] && two[target] == rows[target];
    FirstRulingIs(env, one, target + 1, target, |rows|);
    FirstRulingIs(env, two, target + 1, target, |rows|);
    FirstRulingIs(env, two, |rows| + 1, target, |rows| + 1);
  }

  /**
   * Two resolvers that both read before either wrote both succeed, and both rulings are on the record; the one that
   * landed first is the gate's decision whatever happens to the run afterwards, as long as that ruling and the request
   * stay readable.
   */
  lemma RacingResolvers(
    env: Env, st: State, k: RunKey, target: nat, a: Answer, b: Answer, ts: nat, ts': nat, ops: seq<Op>)
    requires Inv(env, st) && Faithful(env) && Open(st, k)
    requires target < |Rows(st, k)| && IsRequest(Rows(st, k)[target])
    requires GateAt(env, Rows(st, k), target).state.Pending?
    requires var st1 := RouteAppend(env, st, k, ResolutionEvent(env, target, a), None, ts).0;
             var st2 := RouteAppend(env, st1, k, ResolutionEvent(env, target, b), None, ts').0;
             var rows1, later, n := Rows(st1, k), Rows(Run(env, st2, ops), k), |Rows(st, k)|;
             && n < |rows1| && n < |later|
             && Readable(rows1[target], later[target]) && Readable(rows1[n], later[n])
    ensures var (st1, r1) := RouteAppend(env, st, k, ResolutionEvent(env, target, a), None, ts);
            var (st2, r2) := RouteAppend(env, st1, k, ResolutionEvent(env, target, b), None, ts');
            && r1.Ok? && r2.Ok? && |Rows(st2, k)| == |Rows(st, k)| + 2
            && |Rows(st2, k)| <= |Rows(Run(env, st2, ops), k)|
            && GateAt(env, Rows(Run(env, st2, ops), k), target) == Answered(GateAt(env, Rows(st, k), target), a)
  {
    hide Inv, RouteAppend, Append, Run, GateAt, Requests, ResolutionEvent, DecidedBy, Readable, NextRuling, ClosedBy;
    hide Rows;
    var op := OpAppend(k, ResolutionEvent(env, target, b), None, ts');
    var st1 := RouteAppend(env, st, k, ResolutionEvent(env, target, a), None, ts).0;
    var st2 := RouteAppend(env, st1, k, ResolutionEvent(env, target, b), None, ts').0;
    BothLand(env, st, k, target, a, b, ts, ts');
    RunAfterAppend(env, st1, op, ops);
    RunKeeps(env, st2, ops);
    RowsExtend(env, st2, Run(env, st2, ops), k);
    GateStability(env, st1, [op] + ops, k, target);
  }

  /** Why the deciding ruling must stay readable: erase its metadata after a race, and the loser's ruling stands. */
  lemma RedactionLetsTheLoserWin(
    env: Env, st: State, k: RunKey, target: nat, a: Answer, b: Answer, ts: nat, ts': nat, authority: Text, ts'': nat)
    requires Inv(env, st) && Faithful(env) && Open(st, k)
    requires target < |Rows(st, k)| && IsRequest(Rows(st, k)[target])
    requires GateAt(env, Rows(st, k), target).state.Pending?
    ensures var st1 := RouteAppend(env, st, k, ResolutionEvent(env, target, a), None, ts).0;
            var st2 := RouteAppend(env, st1, k, ResolutionEvent(env, target, b), None, ts').0;
            var (st3, r) := Redact(env, st2, k, |Rows(st, k)|, ["metadata"], authority, ts'');
            && r.Ok? && GateShown(env, Rows(st2, k), target) == Some(Answered(GateAt(env, Rows(st, k), target), a))
            && GateShown(env, Rows(st3, k), target) == Some(Answered(GateAt(env, Rows(st, k), target), b))
  {
    hide Inv, RouteAppend, Append, GateAt, ResolutionEvent, DecidedBy, NextRuling, ClosedBy, Rows, Redact, Open;
    hide IsRequest;
    hide OthersUntouched, Redacts;
    var st1 := RouteAppend(env, st, k, ResolutionEvent(env, target, a), None, ts).0;
    var st2 := RouteAppend(env, st1, k, ResolutionEvent(env, target, b), None, ts').0;
    BothLand(env, st, k, target, a, b, ts, ts');
    var rows2 := Rows(st2, k);
    assert rows2[target] == Rows(st1, k)[target] == Rows(st, k)[target];
    FirstDecides(env, Rows(st1, k), Last(rows2), target);
    RedactExactly(env, st2, k, |Rows(st, k)|, ["metadata"], authority, ts'');
    RedactionAndGates(env, st2, k, |Rows(st, k)|, ["metadata"], authority, ts'', target);
  }

  /** One more event changes nothing about a gate already decided. */
  lemma FirstDecides(env: Env, rows: seq<RunEvent>, e: RunEvent, i: nat)
    requires i < |rows| && DecidedBy(env, rows, i) < |rows|
    ensures GateAt(env, rows + [e], i) == GateAt(env, rows, i)
  {
    hide RulingOf;
    FirstRulingExtends(env, rows, e, i + 1, rows[i].seqNo);
  }

  lemma RunAfterAppend(env: Env, st: State, op: Op, ops: seq<Op>)
    requires op.OpAppend?
    ensures Run(env, st, [op] + ops) == Run(env, RouteAppend(env, st, op.k, op.ev, op.key, op.ts).0, ops)
  {
    assert ([op] + ops)[1..] == ops;
  }
}
