/**
 * `tideline verify`: the offline decision procedure over a record and a checkpoint (crates/tideline-cli/src/main.rs).
 */
module Verifier {
  import opened Bytes
  import opened Canon
  import opened Chain
  import opened Metadata
  import opened Ledger
  import opened Checkpoints

  const OK := 0
  const UNSOUND := 1
  const UNREADABLE := 2

  /** The `--public-key` argument: absent, unusable, or a key's verification function. */
  datatype KeyArg = NoKey | BadKey | PublicKey(verifies: (Bytes, Text) -> bool)

  /** The run id a record declares in its first event's metadata, if that is still readable. */
  function RunIdOf(env: Env, events: seq<RunEvent>): Option<Text> {
    if events == [] || events[0].metadata.None? then None
    else env.decode(events[0].metadata.value).run
  }

  /** The first event carrying sequence number `s`. */
  function FindSeq(events: seq<RunEvent>, s: nat): Option<RunEvent>
    decreases |events|
  {
    if events == [] then None
    else if events[0].seqNo == s then Some(events[0])
    else FindSeq(events[1..], s)
  }

  /** `file` is `None` when the checkpoint cannot be read or parsed. */
  function CheckCheckpoint(env: Env, file: Option<Checkpoint>, key: KeyArg, events: seq<RunEvent>, ok: ChainOk): nat {
    if file.None? then UNREADABLE
    else
      var cp := file.value;
      var declared := RunIdOf(env, events);
      if declared.Some? && cp.run != declared.value then UNSOUND
      else if cp.seqNo > ok.headSeq then UNSOUND
      else
        match FindSeq(events, cp.seqNo)
        case None => UNSOUND
        case Some(covered) =>
          if covered.hash != cp.headHash then UNSOUND
          else
            match key
            case NoKey => OK
            case BadKey => UNREADABLE
            case PublicKey(verifies) => if verifies(CheckpointCanon(env.hash, cp), cp.sig) then OK else UNSOUND
  }

  /** The checkpoint names this record's run, as far as the record says which run it is. */
  predicate NamesRun(env: Env, cp: Checkpoint, events: seq<RunEvent>) {
    RunIdOf(env, events).None? || RunIdOf(env, events).value == cp.run
  }

  /** The checkpoint covers an event of this record and attests its hash. */
  predicate Covers(cp: Checkpoint, events: seq<RunEvent>) {
    cp.seqNo < |events| && events[cp.seqNo].hash == cp.headHash
  }

  predicate SignedFor(h: HashFn, cp: Checkpoint, key: KeyArg) {
    key.NoKey? || (key.PublicKey? && key.verifies(CheckpointCanon(h, cp), cp.sig))
  }

  lemma {:induction false} FindInNumbered(events: seq<RunEvent>, first: nat, s: nat)
    requires forall i :: 0 <= i < |events| ==> events[i].seqNo == first + i
    ensures FindSeq(events, s) == if first <= s < first + |events| then Some(events[s - first]) else None
    decreases |events|
  {
    if events != [] {
      FindInNumbered(events[1..], first + 1, s);
    }
  }

  /** On a verified record the check accepts exactly the checkpoints that name, cover and are signed for it. */
  lemma AcceptsExactly(env: Env, cp: Checkpoint, key: KeyArg, events: seq<RunEvent>, ok: ChainOk)
    requires Deserves(env.hash, events, Ok(ok))
    ensures var code := CheckCheckpoint(env, Some(cp), key, events, ok);
            && (code == OK <==> NamesRun(env, cp, events) && Covers(cp, events) && SignedFor(env.hash, cp, key))
            && (code == UNREADABLE <==> NamesRun(env, cp, events) && Covers(cp, events) && key.BadKey?)
  {
    hide Canonical, EventHash;
    forall i | 0 <= i < |events| ensures events[i].seqNo == i {
      assert LinkedAt(env.hash, events, i);
    }
    FindInNumbered(events, 0, cp.seqNo);
  }

  /** The exit code of the whole command. */
  method Verify(env: Env, record: Option<seq<RunEvent>>, checkpoint: Option<Option<Checkpoint>>, key: KeyArg)
    returns (code: nat)
    ensures code <= 2
    ensures code == 0 <==>
              && record.Some? && Chained(env.hash, record.value)
              && (checkpoint.Some? ==>
                    && checkpoint.value.Some?
                    && NamesRun(env, checkpoint.value.value, record.value)
                    && Covers(checkpoint.value.value, record.value)
                    && SignedFor(env.hash, checkpoint.value.value, key))
    ensures record.None? ==> code == 2
    ensures record.Some? && !Chained(env.hash, record.value) ==> code == 1
    ensures record.Some? && Chained(env.hash, record.value) && checkpoint.Some? ==>
              var events := record.value;
              code == CheckCheckpoint(env, checkpoint.value, key, events,
                                      ChainOk(|events|, |events| - 1, Last(events).hash,
                                          Last(events).kind.RunFinished?))
    ensures record.Some? && Chained(env.hash, record.value) && checkpoint.Some? && checkpoint.value.Some? ==>
              var cp, events := checkpoint.value.value, record.value;
              code == if !NamesRun(env, cp, events) || !Covers(cp, events) then 1
                      else if key.BadKey? then 2
                      else if SignedFor(env.hash, cp, key) then 0 else 1
    ensures record.Some? && Chained(env.hash, record.value) && checkpoint.Some? && checkpoint.value.Some? ==>
              var cp, first := checkpoint.value.value, record.value[0];
              first.metadata.Some? ==>
                var declared := env.decode(first.metadata.value).run;
                declared.Some? && declared.value != cp.run ==> code == 1
  {
    if record.None? {
      return UNREADABLE;
    }
    var verdict := VerifyChain(env.hash, record.value);
    if verdict.Err? {
      return UNSOUND;
    }
    code := OK;
    if checkpoint.Some? {
      if checkpoint.value.Some? {
        AcceptsExactly(env, checkpoint.value.value, key, record.value, verdict.value);
      }
      var checked := CheckCheckpoint(env, checkpoint.value, key, record.value, verdict.value);
      code := if code >= checked then code else checked;
    }
  }

  /**
   * A signature vouches for one checkpoint. If the key accepts no signature for two different messages, then whatever
   * passes the check under the signature of a checkpoint that was signed is that checkpoint, in number, head hash and
   * time, and in run and key unless those texts collide.
   */
  lemma AlteredCheckpointFails(
    env: Env, cp: Checkpoint, forged: Checkpoint, verifies: (Bytes, Text) -> bool, events: seq<RunEvent>, ok: ChainOk)
    requires forall m, n, sig :: verifies(m, sig) && verifies(n, sig) ==> m == n
    requires verifies(CheckpointCanon(env.hash, cp), cp.sig) && forged.sig == cp.sig
    requires cp.seqNo < TWO_TO_THE_64 && forged.seqNo < TWO_TO_THE_64
    requires cp.ts < TWO_TO_THE_64 && forged.ts < TWO_TO_THE_64
    requires CheckCheckpoint(env, Some(forged), PublicKey(verifies), events, ok) == OK
    ensures forged.seqNo == cp.seqNo && forged.headHash == cp.headHash && forged.ts == cp.ts
    ensures forged.run == cp.run || Collide(env.hash, forged.run, cp.run)
    ensures forged.keyId == cp.keyId || Collide(env.hash, forged.keyId, cp.keyId)
  {
    hide CheckpointCanon, FindSeq;
    assert verifies(CheckpointCanon(env.hash, forged), cp.sig);
    CheckpointCommits(env.hash, forged, cp);
  }

  /** A checkpoint of another run is rejected by every record the server holds whose envelope can still be read. */
  lemma ForeignCheckpointFails(
    env: Env, keys: Keyring, every: nat, steps: seq<Step>, k: RunKey, cp: Checkpoint, key: KeyArg, ok: ChainOk)
    requires Faithful(env) && k in Serve(env, keys, every, START, steps).st.runs && cp.run != k.run
    ensures var rows := Rows(Serve(env, keys, every, START, steps).st, k);
            rows != [] && (rows[0].metadata.Some? ==> CheckCheckpoint(env, Some(cp), key, rows, ok) == UNSOUND)
  {
    ServerStarts(env, keys);
    ServeKeeps(env, keys, every, START, steps);
    hide Serve, Canonical, EventHash, FindSeq;
    var st := Serve(env, keys, every, START, steps).st;
    assert RunOk(env, k, st.runs[k], Rows(st, k));
  }

  /** The chain alone cannot see a truncated tail; a checkpoint beyond the end of a record always can. */
  lemma TruncationIsDetected(env: Env, cp: Checkpoint, key: KeyArg, events: seq<RunEvent>, n: nat)
    requires Chained(env.hash, events) && 0 < n <= cp.seqNo && n <= |events|
    ensures Chained(env.hash, events[..n])
    ensures CheckCheckpoint(env, Some(cp), key, events[..n],
                            ChainOk(n, n - 1, events[n - 1].hash, events[n - 1].kind.RunFinished?)) == UNSOUND
  {
    hide Canonical, EventHash;
    PrefixesVerify(env.hash, events, n);
    AcceptsExactly(env, cp, key, events[..n], ChainOk(n, n - 1, events[n - 1].hash, events[n - 1].kind.RunFinished?));
  }

  /**
   * Checkpoints pin history. Take any checkpoint the server ever stored and any record whatever that verifies and
   * passes the check against it. Up to the covered event the record is, canon by canon, what the server holds then
   * and at any later time, unless two of their own hashed blocks collide.
   */
  lemma CheckpointPinsHistory(
    env: Env, keys: Keyring, every: nat, steps: seq<Step>, k: RunKey, s: nat, later: seq<Step>,
    key: KeyArg, events: seq<RunEvent>, ok: ChainOk)
    requires s in CheckpointsOf(Serve(env, keys, every, START, steps).st, k)
    requires Deserves(env.hash, events, Ok(ok))
    requires CheckCheckpoint(env, Some(CheckpointsOf(Serve(env, keys, every, START, steps).st, k)[s]), key, events,
              ok) == OK
    ensures var held := Rows(Serve(env, keys, every, Serve(env, keys, every, START, steps), later).st, k);
            && s < |events| && s < |held|
            && (SameHistory(env.hash, events, held, s + 1)
                || exists i :: 0 <= i <= s && BlocksCollide(env.hash, events, held, i))
  {
    hide Serve, CheckCheckpoint, SignHead, SameHistory, BlocksCollide, Extends, Inv, CheckpointsOf, Deserves;
    hide NamesRun, Rows;
    ServerStarts(env, keys);
    var sv := Serve(env, keys, every, START, steps);
    var cp := CheckpointsOf(sv.st, k)[s];
    EveryCheckpointIsTrue(env, keys, every, steps, k, s);
    ServeKeeps(env, keys, every, START, steps);
    ServeKeeps(env, keys, every, sv, later);
    var sv' := Serve(env, keys, every, sv, later);
    AcceptsExactly(env, cp, key, events, ok);
    NamesEventLasts(env.hash, sv.st, sv'.st, k, s, cp.headHash);
    hide ServerOk;
    HeldVerifies(env, keys, sv', k);
    AcceptedVerifies(env.hash, events, ok);
    hide Chained;
    PinnedBy(env.hash, events, Rows(sv'.st, k), s);
  }

  lemma ServerStarts(env: Env, keys: Keyring)
    ensures ServerOk(env, keys, START)
  {
  }

  lemma HeldVerifies(env: Env, keys: Keyring, sv: Server, k: RunKey)
    requires ServerOk(env, keys, sv) && k in sv.st.runs
    ensures Chained(env.hash, Rows(sv.st, k))
  {
    hide Chained;
    assert RunOk(env, k, sv.st.runs[k], Rows(sv.st, k));
  }

  lemma AcceptedVerifies(h: HashFn, events: seq<RunEvent>, ok: ChainOk)
    requires Deserves(h, events, Ok(ok))
    ensures Chained(h, events)
  {
  }

  lemma PinnedBy(h: HashFn, events: seq<RunEvent>, held: seq<RunEvent>, s: nat)
    requires Chained(h, events) && Chained(h, held)
    requires s < |events| && s < |held| && events[s].hash == held[s].hash
    ensures SameHistory(h, events, held, s + 1) || exists i :: 0 <= i <= s && BlocksCollide(h, events, held, i)
  {
    hide Linked, SameHistory, BlocksCollide;
    SharedDigestPins(h, events, held, s + 1);
  }

  /** The other direction: the server's own record, at any later time, passes with any checkpoint it stored. */
  lemma HonestRecordPasses(
    env: Env, keys: Keyring, every: nat, steps: seq<Step>, k: RunKey, s: nat, later: seq<Step>,
    verifies: (Bytes, Text) -> bool, ok: ChainOk)
    requires Faithful(env)
    requires forall m :: verifies(m, keys.sign(m))
    requires s in CheckpointsOf(Serve(env, keys, every, START, steps).st, k)
    requires Deserves(env.hash, Rows(Serve(env, keys, every, Serve(env, keys, every, START, steps), later).st, k),
              Ok(ok))
    ensures var held := Rows(Serve(env, keys, every, Serve(env, keys, every, START, steps), later).st, k);
            CheckCheckpoint(env, Some(CheckpointsOf(Serve(env, keys, every, START, steps).st, k)[s]),
                            PublicKey(verifies), held, ok) == OK
  {
    var sv := Serve(env, keys, every, START, steps);
    var cp := CheckpointsOf(sv.st, k)[s];
    EveryCheckpointIsTrue(env, keys, every, steps, k, s);
    ServeKeeps(env, keys, every, START, steps);
    ServeKeeps(env, keys, every, sv, later);
    var sv' := Serve(env, keys, every, sv, later);
    var held := Rows(sv'.st, k);
    hide Serve, Canonical, EventHash, CheckCheckpoint, CheckpointCanon;
    assert SignedFor(env.hash, cp, PublicKey(verifies));
    NamesEventLasts(env.hash, sv.st, sv'.st, k, s, cp.headHash);
    assert RunOk(env, k, sv'.st.runs[k], held);
    OwnRecordNamesRun(env, k, sv'.st.runs[k], held, cp);
    hide Inv, ServerOk, Extends, RunOk, NamesRun, CheckpointTrue;
    AcceptsExactly(env, cp, PublicKey(verifies), held, ok);
  }

  lemma OwnRecordNamesRun(env: Env, k: RunKey, row: RunRow, rows: seq<RunEvent>, cp: Checkpoint)
    requires Faithful(env) && RunOk(env, k, row, rows) && cp.run == k.run
    ensures NamesRun(env, cp, rows)
  {
    hide Chained;
  }
}
