/**
 * Signed checkpoints: the handlers that write them some time after the commit they cover
 * (crates/tideline-server/src/tlr/routes.rs) and the offline check against a record (crates/tideline-cli/src/main.rs).
 */
module Checkpoints {
  import opened Bytes
  import opened Canon
  import Chain
  import opened Metadata
  import opened Ledger
  import opened History
  import SqliteStore

  const CHECKPOINT_DOMAIN: Bytes := Ascii("tlrcp1\n")

  /** The 119 octets a checkpoint's signature covers. */
  function CheckpointCanon(h: HashFn, cp: Checkpoint): Bytes {
    CHECKPOINT_DOMAIN + h(cp.run) + U64(cp.seqNo) + cp.headHash + U64(cp.ts) + h(cp.keyId)
  }

  /** The server's signing key: its id and its signing function. */
  datatype Keyring = Keyring(keyId: Text, sign: Bytes -> Text)

  function SignHead(h: HashFn, keys: Keyring, run: Text, seqNo: nat, head: Digest, ts: nat): Checkpoint {
    var unsigned := Checkpoint(run, seqNo, head, ts, keys.keyId, []);
    unsigned.(sig := keys.sign(CheckpointCanon(h, unsigned)))
  }

  /** Where each part sits in the 119 octets. */
  lemma CheckpointLayout(h: HashFn, cp: Checkpoint)
    ensures var c := CheckpointCanon(h, cp);
            && |c| == 119
            && c[..7] == [0x74, 0x6c, 0x72, 0x63, 0x70, 0x31, 0x0a] && c[7..39] == h(cp.run)
            && c[39..47] == U64(cp.seqNo) && c[47..79] == cp.headHash && c[79..87] == U64(cp.ts)
            && c[87..119] == h(cp.keyId)
  {
    assert CHECKPOINT_DOMAIN == [0x74, 0x6c, 0x72, 0x63, 0x70, 0x31, 0x0a];
    hide U64;
  }

  /**
   * The octets signed commit to everything a checkpoint says: equal octets mean equal number, head hash and time, and
   * the same run and key unless two of those texts collide.
   */
  lemma CheckpointCommits(h: HashFn, a: Checkpoint, b: Checkpoint)
    requires CheckpointCanon(h, a) == CheckpointCanon(h, b)
    requires a.seqNo < TWO_TO_THE_64 && b.seqNo < TWO_TO_THE_64 && a.ts < TWO_TO_THE_64 && b.ts < TWO_TO_THE_64
    ensures a.seqNo == b.seqNo && a.headHash == b.headHash && a.ts == b.ts
    ensures (a.run == b.run || Collide(h, a.run, b.run)) && (a.keyId == b.keyId || Collide(h, a.keyId, b.keyId))
  {
    CheckpointLayout(h, a);
    CheckpointLayout(h, b);
    hide CheckpointCanon, U64;
    U64Injective(a.seqNo, b.seqNo);
    U64Injective(a.ts, b.ts);
  }

  /** What the server signs, and with what. */
  lemma SignedFields(h: HashFn, keys: Keyring, run: Text, seqNo: nat, head: Digest, ts: nat)
    ensures var cp := SignHead(h, keys, run, seqNo, head, ts);
            && cp.headHash == head && cp.run == run && cp.seqNo == seqNo && cp.ts == ts && cp.keyId == keys.keyId
            && cp.sig == keys.sign(CheckpointCanon(h, cp))
  {
  }

  // --- Handlers as interleaved steps ---------------------------------------------------

  /** Work a handler still has to do after its transaction committed. */
  datatype Task =
    | SignAndPut(k: RunKey, seqNo: nat, head: Digest, closing: bool)
    | LookForCheckpoint(k: RunKey)
    | ReadHead(k: RunKey)

  datatype Server = Server(st: State, tasks: multiset<Task>)

  datatype Step =
    | Direct(op: Op)
    | AppendRoute(k: RunKey, ev: NewEvent, key: Option<Text>, ts: nat)
    | CompleteRoute(k: RunKey, ts: nat)
    | Proceed(task: Task, ts: nat)
    | Abandon(task: Task)

  /** What a handler does next, given the store as it finds it then. */
  function Continue(env: Env, keys: Keyring, st: State, task: Task, ts: nat): (State, multiset<Task>) {
    match task
    case SignAndPut(k, seqNo, head, _) =>
      (PutCheckpoint(st, k, SignHead(env.hash, keys, k.run, seqNo, head, ts)), multiset{})
    case LookForCheckpoint(k) =>
      (st, if CheckpointsOf(st, k) == map[] then multiset{ReadHead(k)} else multiset{})
    case ReadHead(k) =>
      (st, if k in st.runs then multiset{SignAndPut(k, st.runs[k].headSeq, st.runs[k].headHash, true)} else multiset{})
  }

  function Advance(env: Env, keys: Keyring, every: nat, sv: Server, step: Step): Server {
    match step
    case Direct(op) =>
      if op.OpCheckpoint? then sv else sv.(st := Apply(env, sv.st, op).0)
    case AppendRoute(k, ev, key, ts) =>
      var (st', r) := RouteAppend(env, sv.st, k, ev, key, ts);
      if r.Ok? && every > 0 && r.value.seqNo % every == 0
      then Server(st', sv.tasks + multiset{SignAndPut(k, r.value.seqNo, r.value.hash, false)})
      else sv.(st := st')
    case CompleteRoute(k, ts) =>
      var (st', r) := Seal(env, sv.st, k, ts);
      (match r
       case Ok(res) => Server(st', sv.tasks + multiset{SignAndPut(k, res.seqNo, res.hash, true)})
       case Err(Conflict) => Server(st', sv.tasks + multiset{LookForCheckpoint(k)})
       case Err(_) => sv.(st := st'))
    case Proceed(task, ts) =>
      if task in sv.tasks then
        var (st', more) := Continue(env, keys, sv.st, task, ts);
        Server(st', sv.tasks - multiset{task} + more)
      else sv
    case Abandon(task) => sv.(tasks := sv.tasks - multiset{task})
  }

  function Serve(env: Env, keys: Keyring, every: nat, sv: Server, steps: seq<Step>): Server
    decreases |steps|
  {
    if steps == [] then sv else Serve(env, keys, every, Advance(env, keys, every, sv, steps[0]), steps[1..])
  }

  const START := Server(EMPTY, multiset{})

  // --- Every stored checkpoint tells the truth -------------------------------------------

  /** `head` is the hash of the event at `seqNo` in run `k`. */
  ghost predicate NamesEvent(st: State, k: RunKey, seqNo: nat, head: Digest) {
    k in st.runs && seqNo < |Rows(st, k)| && Rows(st, k)[seqNo].hash == head
  }

  ghost predicate TaskTrue(st: State, task: Task) {
    match task
    case SignAndPut(k, seqNo, head, closing) =>
      NamesEvent(st, k, seqNo, head) && (closing ==> Sealed(st, k) && seqNo == |Rows(st, k)| - 1)
    case LookForCheckpoint(k) => Sealed(st, k)
    case ReadHead(k) => Sealed(st, k)
  }

  ghost predicate CheckpointTrue(env: Env, keys: Keyring, st: State, k: RunKey, seqNo: nat, cp: Checkpoint) {
    && cp.seqNo == seqNo && cp.run == k.run
    && NamesEvent(st, k, seqNo, cp.headHash)
    && cp.keyId == keys.keyId && cp.sig == keys.sign(CheckpointCanon(env.hash, cp))
  }

  ghost predicate ServerOk(env: Env, keys: Keyring, sv: Server) {
    && Inv(env, sv.st)
    && (forall t :: t in sv.tasks ==> TaskTrue(sv.st, t))
    && (forall k, s :: k in sv.st.checkpoints && s in sv.st.checkpoints[k] ==>
          CheckpointTrue(env, keys, sv.st, k, s, sv.st.checkpoints[k][s]))
  }

  lemma NamesEventLasts(h: HashFn, st: State, st': State, k: RunKey, seqNo: nat, head: Digest)
    requires Extends(h, st, st') && NamesEvent(st, k, seqNo, head)
    ensures NamesEvent(st', k, seqNo, head)
  {
    assert RunGrew(h, st.runs[k], Rows(st, k), st'.runs[k], Rows(st', k));
    assert Erasure(h, Rows(st, k)[seqNo], Rows(st', k)[seqNo]);
  }

  lemma SealLasts(h: HashFn, st: State, st': State, k: RunKey)
    requires Extends(h, st, st') && Sealed(st, k)
    ensures Sealed(st', k) && Rows(st', k) == Rows(st, k)
  {
    assert RunGrew(h, st.runs[k], Rows(st, k), st'.runs[k], Rows(st', k));
  }

  lemma TaskTrueLasts(h: HashFn, st: State, st': State, task: Task)
    requires Extends(h, st, st') && TaskTrue(st, task)
    ensures TaskTrue(st', task)
  {
    hide Extends, Rows;
    if task.SignAndPut? {
      NamesEventLasts(h, st, st', task.k, task.seqNo, task.head);
    }
    if Sealed(st, task.k) {
      SealLasts(h, st, st', task.k);
    }
  }

  /** Server truth survives any extension of the store that keeps the checkpoint table. */
  lemma TruthLasts(env: Env, keys: Keyring, sv: Server, st': State)
    requires ServerOk(env, keys, sv) && Inv(env, st') && Extends(env.hash, sv.st, st')
    requires st'.checkpoints == sv.st.checkpoints
    ensures ServerOk(env, keys, Server(st', sv.tasks))
  {
    hide Inv, Extends, NamesEvent, TaskTrue, SignHead;
    forall t | t in sv.tasks ensures TaskTrue(st', t) {
      TaskTrueLasts(env.hash, sv.st, st', t);
    }
    forall k, s | k in st'.checkpoints && s in st'.checkpoints[k]
      ensures CheckpointTrue(env, keys, st', k, s, st'.checkpoints[k][s])
    {
      assert CheckpointTrue(env, keys, sv.st, k, s, sv.st.checkpoints[k][s]);
      NamesEventLasts(env.hash, sv.st, st', k, s, st'.checkpoints[k][s].headHash);
    }
  }

  lemma AppendedNamesEvent(env: Env, st: State, k: RunKey, ev: NewEvent, key: Option<Text>, ts: nat)
    requires Inv(env, st)
    ensures var (st', r) := RouteAppend(env, st, k, ev, key, ts);
            r.Ok? ==> NamesEvent(st', k, r.value.seqNo, r.value.hash)
  {
    AppendExactly(env, st, k, ev, key, ts);
    hide RouteAppend, OthersUntouched, RunOk, EventHash;
    if !OwnRouteOnly(ev.kind) && Repeats(st, k, key) {
      assert IdemOk(st, k, st.idem[(k, key.value)]);
    }
  }

  lemma SealedNamesHead(env: Env, st: State, k: RunKey, ts: nat)
    requires Inv(env, st)
    ensures var (st', r) := Seal(env, st, k, ts);
            && (r.Ok? ==> TaskTrue(st', SignAndPut(k, r.value.seqNo, r.value.hash, true)))
            && (r == Err(Conflict) ==> Sealed(st', k))
  {
    SealExactly(env, st, k, ts);
    hide Seal, OthersUntouched, EventHash;
  }

  lemma StoreKeepsCheckpoints(env: Env, st: State, op: Op)
    requires !op.OpCheckpoint?
    ensures Apply(env, st, op).0.checkpoints == st.checkpoints
  {
    hide MakeEvent, Erase;
  }

  lemma HeadIsNamed(env: Env, st: State, k: RunKey)
    requires Inv(env, st) && k in st.runs
    ensures NamesEvent(st, k, st.runs[k].headSeq, st.runs[k].headHash) && st.runs[k].headSeq == |Rows(st, k)| - 1
  {
    assert RunOk(env, k, st.runs[k], Rows(st, k));
  }

  lemma ProceedKeeps(env: Env, keys: Keyring, sv: Server, task: Task, ts: nat)
    requires ServerOk(env, keys, sv) && task in sv.tasks
    ensures var (st', more) := Continue(env, keys, sv.st, task, ts);
            && ServerOk(env, keys, Server(st', sv.tasks - multiset{task} + more))
            && Extends(env.hash, sv.st, st')
  {
    hide Inv, Extends, SignHead, CheckpointTrue, NamesEvent, PutCheckpoint, CheckpointsOf, Rows;
    assert TaskTrue(sv.st, task);
    match task
    case SignAndPut(k, seqNo, head, _) =>
      PutKeeps(env, keys, sv, k, seqNo, head, ts);
      var cp := SignHead(env.hash, keys, k.run, seqNo, head, ts);
      FewerTasks(env, keys, PutCheckpoint(sv.st, k, cp), sv.tasks, task, multiset{});
    case LookForCheckpoint(k) =>
      ExtendsReflexive(env.hash, sv.st);
      FewerTasks(env, keys, sv.st, sv.tasks, task, Continue(env, keys, sv.st, task, ts).1);
    case ReadHead(k) =>
      ExtendsReflexive(env.hash, sv.st);
      HeadIsNamed(env, sv.st, k);
      FewerTasks(env, keys, sv.st, sv.tasks, task, Continue(env, keys, sv.st, task, ts).1);
  }

  lemma FewerTasks(env: Env, keys: Keyring, st: State, tasks: multiset<Task>, task: Task, more: multiset<Task>)
    requires ServerOk(env, keys, Server(st, tasks)) && forall t :: t in more ==> TaskTrue(st, t)
    ensures ServerOk(env, keys, Server(st, tasks - multiset{task} + more))
  {
    hide Inv, TaskTrue, CheckpointTrue;
  }

  lemma PutKeeps(env: Env, keys: Keyring, sv: Server, k: RunKey, seqNo: nat, head: Digest, ts: nat)
    requires ServerOk(env, keys, sv) && NamesEvent(sv.st, k, seqNo, head)
    ensures var st' := PutCheckpoint(sv.st, k, SignHead(env.hash, keys, k.run, seqNo, head, ts));
            ServerOk(env, keys, Server(st', sv.tasks)) && Extends(env.hash, sv.st, st')
  {
    hide Inv, Extends, SignHead, NamesEvent, Rows, TaskTrue;
    var cp := SignHead(env.hash, keys, k.run, seqNo, head, ts);
    var st' := PutCheckpoint(sv.st, k, cp);
    CheckpointKeeps(env, sv.st, k, cp);
    SignedFields(env.hash, keys, k.run, seqNo, head, ts);
    NamesEventLasts(env.hash, sv.st, st', k, seqNo, head);
    forall t | t in sv.tasks ensures TaskTrue(st', t) {
      TaskTrueLasts(env.hash, sv.st, st', t);
    }
    forall j, s | j in st'.checkpoints && s in st'.checkpoints[j]
      ensures CheckpointTrue(env, keys, st', j, s, st'.checkpoints[j][s])
    {
      if j != k || s != seqNo {
        assert CheckpointTrue(env, keys, sv.st, j, s, sv.st.checkpoints[j][s]);
        NamesEventLasts(env.hash, sv.st, st', j, s, sv.st.checkpoints[j][s].headHash);
      }
    }
  }

  lemma AdvanceKeeps(env: Env, keys: Keyring, every: nat, sv: Server, step: Step)
    requires ServerOk(env, keys, sv)
    ensures var sv' := Advance(env, keys, every, sv, step);
            ServerOk(env, keys, sv') && Extends(env.hash, sv.st, sv'.st)
  {
    hide Apply, RouteAppend, Seal, Inv, Extends, TaskTrue, CheckpointTrue, Continue;
    ExtendsReflexive(env.hash, sv.st);
    match step
    case Direct(op) =>
      if !op.OpCheckpoint? {
        ApplyKeeps(env, sv.st, op);
        StoreKeepsCheckpoints(env, sv.st, op);
        TruthLasts(env, keys, sv, Apply(env, sv.st, op).0);
      }
    case AppendRoute(k, ev, key, ts) =>
      var op := OpAppend(k, ev, key, ts);
      AppliedAppend(env, sv.st, k, ev, key, ts);
      ApplyKeeps(env, sv.st, op);
      StoreKeepsCheckpoints(env, sv.st, op);
      TruthLasts(env, keys, sv, Apply(env, sv.st, op).0);
      AppendedIsTrue(env, sv.st, k, ev, key, ts);
    case CompleteRoute(k, ts) =>
      var op := OpSeal(k, ts);
      AppliedSeal(env, sv.st, k, ts);
      ApplyKeeps(env, sv.st, op);
      StoreKeepsCheckpoints(env, sv.st, op);
      TruthLasts(env, keys, sv, Apply(env, sv.st, op).0);
      SealedNamesHead(env, sv.st, k, ts);
      LookIsTrue(Seal(env, sv.st, k, ts).0, k);
    case Proceed(task, ts) =>
      if task in sv.tasks {
        ProceedKeeps(env, keys, sv, task, ts);
      }
    case Abandon(task) =>
  }

  lemma AppliedAppend(env: Env, st: State, k: RunKey, ev: NewEvent, key: Option<Text>, ts: nat)
    ensures Apply(env, st, OpAppend(k, ev, key, ts)).0 == RouteAppend(env, st, k, ev, key, ts).0
  {
  }

  lemma AppliedSeal(env: Env, st: State, k: RunKey, ts: nat)
    ensures Apply(env, st, OpSeal(k, ts)).0 == Seal(env, st, k, ts).0
  {
  }

  lemma AppendedIsTrue(env: Env, st: State, k: RunKey, ev: NewEvent, key: Option<Text>, ts: nat)
    requires Inv(env, st)
    ensures var (st', r) := RouteAppend(env, st, k, ev, key, ts);
            r.Ok? ==> TaskTrue(st', SignAndPut(k, r.value.seqNo, r.value.hash, false))
  {
    AppendedNamesEvent(env, st, k, ev, key, ts);
  }

  lemma LookIsTrue(st: State, k: RunKey)
    ensures Sealed(st, k) ==> TaskTrue(st, LookForCheckpoint(k))
  {
  }

  lemma {:induction false} ServeKeeps(env: Env, keys: Keyring, every: nat, sv: Server, steps: seq<Step>)
    requires ServerOk(env, keys, sv)
    ensures var sv' := Serve(env, keys, every, sv, steps);
            ServerOk(env, keys, sv') && Extends(env.hash, sv.st, sv'.st)
    decreases |steps|
  {
    hide Advance, ServerOk, Extends;
    ExtendsReflexive(env.hash, sv.st);
    if steps != [] {
      AdvanceKeeps(env, keys, every, sv, steps[0]);
      var sv1 := Advance(env, keys, every, sv, steps[0]);
      ServeKeeps(env, keys, every, sv1, steps[1..]);
      ExtendsTransitive(env.hash, sv.st, sv1.st, Serve(env, keys, every, sv1, steps[1..]).st);
    }
  }

  /**
   * Under every interleaving of commits, signings, retries, repairs and lost handlers, each stored checkpoint is
   * signed and names the hash of the event at its sequence number.
   */
  lemma EveryCheckpointIsTrue(env: Env, keys: Keyring, every: nat, steps: seq<Step>, k: RunKey, s: nat)
    requires s in CheckpointsOf(Serve(env, keys, every, START, steps).st, k)
    ensures var st := Serve(env, keys, every, START, steps).st;
            CheckpointTrue(env, keys, st, k, s, CheckpointsOf(st, k)[s])
  {
    ServeKeeps(env, keys, every, START, steps);
  }

  // --- Completing a run ------------------------------------------------------------------

  /** Run `k` is sealed and a checkpoint covers its last event. */
  ghost predicate HeadProtected(st: State, k: RunKey) {
    Sealed(st, k) && |Rows(st, k)| > 0 && |Rows(st, k)| - 1 in CheckpointsOf(st, k)
  }

  lemma PutKeepsOthers(st: State, k: RunKey, cp: Checkpoint, j: RunKey, s: nat)
    ensures s in CheckpointsOf(PutCheckpoint(st, k, cp), j) <==> s in CheckpointsOf(st, j) || (j == k && s == cp.seqNo)
    ensures Rows(PutCheckpoint(st, k, cp), j) == Rows(st, j) && Sealed(PutCheckpoint(st, k, cp), j) == Sealed(st, j)
  {
  }

  /** No step ever drops a checkpoint. */
  lemma CheckpointsStay(env: Env, keys: Keyring, every: nat, sv: Server, step: Step, j: RunKey, s: nat)
    requires s in CheckpointsOf(sv.st, j)
    ensures s in CheckpointsOf(Advance(env, keys, every, sv, step).st, j)
  {
    hide Apply, RouteAppend, Seal, SignHead, PutCheckpoint;
    match step
    case Direct(op) =>
      if !op.OpCheckpoint? {
        StoreKeepsCheckpoints(env, sv.st, op);
      }
    case AppendRoute(k, ev, key, ts) =>
      AppliedAppend(env, sv.st, k, ev, key, ts);
      StoreKeepsCheckpoints(env, sv.st, OpAppend(k, ev, key, ts));
    case CompleteRoute(k, ts) =>
      AppliedSeal(env, sv.st, k, ts);
      StoreKeepsCheckpoints(env, sv.st, OpSeal(k, ts));
    case Proceed(task, ts) =>
      if task.SignAndPut? {
        PutKeepsOthers(sv.st, task.k, SignHead(env.hash, keys, task.k.run, task.seqNo, task.head, ts), j, s);
      }
    case Abandon(task) =>
  }

  lemma {:induction false} ProtectionLasts(env: Env, keys: Keyring, every: nat, sv: Server, steps: seq<Step>, k: RunKey)
    requires ServerOk(env, keys, sv) && HeadProtected(sv.st, k)
    ensures HeadProtected(Serve(env, keys, every, sv, steps).st, k)
    decreases |steps|
  {
    hide Advance, ServerOk, Extends;
    if steps != [] {
      var sv1 := Advance(env, keys, every, sv, steps[0]);
      AdvanceKeeps(env, keys, every, sv, steps[0]);
      SealLasts(env.hash, sv.st, sv1.st, k);
      CheckpointsStay(env, keys, every, sv, steps[0], k, |Rows(sv.st, k)| - 1);
      ProtectionLasts(env, keys, every, sv1, steps[1..], k);
    }
  }

  /**
   * Completing an open run seals it and queues the one checkpoint that will cover its last event; completing a sealed
   * one queues the look for a checkpoint; completing a run that does not exist does nothing.
   */
  lemma CompletionQueues(env: Env, keys: Keyring, every: nat, sv: Server, k: RunKey, ts: nat)
    requires Inv(env, sv.st)
    ensures var sv' := Advance(env, keys, every, sv, CompleteRoute(k, ts));
            if Open(sv.st, k) then
              && Sealed(sv'.st, k) && |Rows(sv'.st, k)| == |Rows(sv.st, k)| + 1
              && sv'.tasks == sv.tasks
                              + multiset{SignAndPut(k, |Rows(sv.st, k)|, Chain.Last(Rows(sv'.st, k)).hash, true)}
            else sv' == Server(sv.st, sv.tasks + if Sealed(sv.st, k) then multiset{LookForCheckpoint(k)}
                else multiset{})
  {
    SealExactly(env, sv.st, k, ts);
    hide Inv, Seal, OthersUntouched, EventHash;
    assert sv.tasks + multiset{} == sv.tasks;
  }

  /**
   * An append queues a checkpoint of its event exactly when it succeeds and `every` divides the number it returns. On
   * an open run, with no key to repeat, that is the number of events there were.
   */
  lemma AppendQueues(
    env: Env, keys: Keyring, every: nat, sv: Server, k: RunKey, ev: NewEvent, key: Option<Text>, ts: nat)
    requires Inv(env, sv.st)
    ensures var sv' := Advance(env, keys, every, sv, AppendRoute(k, ev, key, ts));
            var r := RouteAppend(env, sv.st, k, ev, key, ts).1;
            && sv'.st == RouteAppend(env, sv.st, k, ev, key, ts).0
            && (sv'.tasks != sv.tasks <==> r.Ok? && every > 0 && r.value.seqNo % every == 0)
            && (sv'.tasks != sv.tasks ==>
                  && NamesEvent(sv'.st, k, r.value.seqNo, r.value.hash)
                  && sv'.tasks == sv.tasks + multiset{SignAndPut(k, r.value.seqNo, r.value.hash, false)})
            && (Open(sv.st, k) && key.None? && !OwnRouteOnly(ev.kind) ==> r.Ok? && r.value.seqNo == |Rows(sv.st, k)|)
  {
    AppendExactly(env, sv.st, k, ev, key, ts);
    AppendedNamesEvent(env, sv.st, k, ev, key, ts);
    hide Inv, RouteAppend, OthersUntouched, EventHash, NamesEvent;
    var r := RouteAppend(env, sv.st, k, ev, key, ts).1;
    if r.Ok? {
      var put := SignAndPut(k, r.value.seqNo, r.value.hash, false);
      assert (sv.tasks + multiset{put})[put] == sv.tasks[put] + 1;
    }
  }

  lemma PutProtects(env: Env, keys: Keyring, every: nat, sv: Server, k: RunKey, seqNo: nat, head: Digest, ts: nat)
    requires ServerOk(env, keys, sv) && SignAndPut(k, seqNo, head, true) in sv.tasks
    ensures HeadProtected(Advance(env, keys, every, sv, Proceed(SignAndPut(k, seqNo, head, true), ts)).st, k)
  {
    hide Inv, CheckpointTrue, PutCheckpoint, SignHead, Rows, CheckpointsOf;
    assert TaskTrue(sv.st, SignAndPut(k, seqNo, head, true));
    SignedFields(env.hash, keys, k.run, seqNo, head, ts);
    PutKeepsOthers(sv.st, k, SignHead(env.hash, keys, k.run, seqNo, head, ts), k, seqNo);
  }

  /**
   * A complete that gets as far as storing its checkpoint, at the first attempt or through the repair, leaves one
   * at the sealed head, for good.
   */
  lemma CompletionProtectsTheHead(
    env: Env, keys: Keyring, every: nat, before: seq<Step>, k: RunKey, seqNo: nat, head: Digest, ts: nat,
        after: seq<Step>)
    requires SignAndPut(k, seqNo, head, true) in Serve(env, keys, every, START, before).tasks
    ensures var sv := Serve(env, keys, every, START, before);
            var done := Advance(env, keys, every, sv, Proceed(SignAndPut(k, seqNo, head, true), ts));
            HeadProtected(Serve(env, keys, every, done, after).st, k)
  {
    ServeKeeps(env, keys, every, START, before);
    hide Serve, Advance, ServerOk, HeadProtected, Extends;
    var sv := Serve(env, keys, every, START, before);
    var task := SignAndPut(k, seqNo, head, true);
    PutProtects(env, keys, every, sv, k, seqNo, head, ts);
    AdvanceKeeps(env, keys, every, sv, Proceed(task, ts));
    ProtectionLasts(env, keys, every, Advance(env, keys, every, sv, Proceed(task, ts)), after, k);
  }

  /** One undisturbed, unfailing call of the complete handler. */
  function Complete(env: Env, keys: Keyring, st: State, k: RunKey, ts: nat, signedTs: nat)
    : (State, Result<nat, StoreError>)
  {
    var (sealed, r) := Seal(env, st, k, ts);
    match r
    case Ok(res) =>
      (PutCheckpoint(sealed, k, SignHead(env.hash, keys, k.run, res.seqNo, res.hash, signedTs)), Ok(res.seqNo))
    case Err(Conflict) =>
      if CheckpointsOf(st, k) != map[] then (st, Err(Conflict))
      else if k !in st.runs then (st, Err(NotFound))
      else
        var row := st.runs[k];
        (PutCheckpoint(st, k, SignHead(env.hash, keys, k.run, row.headSeq, row.headHash, signedTs)), Ok(row.headSeq))
    case Err(e) => (st, Err(e))
  }

  /** The steps of one complete handler that nobody interferes with, each of its tasks run as soon as it is queued. */
  function OwnSteps(env: Env, st: State, k: RunKey, ts: nat, signedTs: nat): seq<Step> {
    [CompleteRoute(k, ts)] +
    match Seal(env, st, k, ts).1
    case Ok(res) => [Proceed(SignAndPut(k, res.seqNo, res.hash, true), signedTs)]
    case Err(Conflict) =>
      if CheckpointsOf(st, k) != map[] || k !in st.runs then [Proceed(LookForCheckpoint(k), signedTs)]
      else
        [Proceed(LookForCheckpoint(k), signedTs), Proceed(ReadHead(k), signedTs),
         Proceed(SignAndPut(k, st.runs[k].headSeq, st.runs[k].headHash, true), signedTs)]
    case Err(_) => []
  }

  /**
   * The handler among others and the handler by itself are one: its steps, undisturbed, take the store where `Complete`
   * does, the repair included, and leave nothing of it to be done.
   */
  lemma UndisturbedIsComplete(
    env: Env, keys: Keyring, every: nat, sv: Server, k: RunKey, ts: nat, signedTs: nat)
    requires Inv(env, sv.st)
    ensures Serve(env, keys, every, sv, OwnSteps(env, sv.st, k, ts, signedTs))
         == Server(Complete(env, keys, sv.st, k, ts, signedTs).0, sv.tasks)
  {
    hide Inv, Seal, Rows, OwnSteps, Complete, Serve;
    if Open(sv.st, k) {
      UndisturbedOpen(env, keys, every, sv, k, ts, signedTs);
    } else if Sealed(sv.st, k) {
      UndisturbedSealed(env, keys, every, sv, k, ts, signedTs);
    } else {
      UndisturbedMissing(env, keys, every, sv, k, ts, signedTs);
    }
  }

  lemma UndisturbedOpen(env: Env, keys: Keyring, every: nat, sv: Server, k: RunKey, ts: nat, signedTs: nat)
    requires Inv(env, sv.st) && Open(sv.st, k)
    ensures Serve(env, keys, every, sv, OwnSteps(env, sv.st, k, ts, signedTs))
         == Server(Complete(env, keys, sv.st, k, ts, signedTs).0, sv.tasks)
  {
    hide Inv, Seal, AddsOne, OthersUntouched, SignHead, PutCheckpoint, CheckpointsOf, Serve;
    SealExactly(env, sv.st, k, ts);
    var res := Seal(env, sv.st, k, ts).1.value;
    var put := SignAndPut(k, res.seqNo, res.hash, true);
    var steps := OwnSteps(env, sv.st, k, ts, signedTs);
    assert steps == [CompleteRoute(k, ts), Proceed(put, signedTs)];
    var sv1 := Server(Seal(env, sv.st, k, ts).0, sv.tasks + multiset{put});
    ServeOne(env, keys, every, sv, steps);
    assert Advance(env, keys, every, sv, steps[0]) == sv1;
    ServeOne(env, keys, every, sv1, steps[1..]);
    ServeNone(env, keys, every, Advance(env, keys, every, sv1, steps[1]), steps[1..][1..]);
    assert sv1.tasks - multiset{put} + multiset{} == sv.tasks;
  }

  lemma UndisturbedMissing(env: Env, keys: Keyring, every: nat, sv: Server, k: RunKey, ts: nat, signedTs: nat)
    requires k !in sv.st.runs
    ensures Serve(env, keys, every, sv, OwnSteps(env, sv.st, k, ts, signedTs))
         == Server(Complete(env, keys, sv.st, k, ts, signedTs).0, sv.tasks)
  {
    hide Serve;
    var steps := OwnSteps(env, sv.st, k, ts, signedTs);
    assert Seal(env, sv.st, k, ts) == (sv.st, Err(NotFound));
    ServeOne(env, keys, every, sv, steps);
    ServeNone(env, keys, every, sv, steps[1..]);
  }

  lemma UndisturbedSealed(env: Env, keys: Keyring, every: nat, sv: Server, k: RunKey, ts: nat, signedTs: nat)
    requires Sealed(sv.st, k)
    ensures Serve(env, keys, every, sv, OwnSteps(env, sv.st, k, ts, signedTs))
         == Server(Complete(env, keys, sv.st, k, ts, signedTs).0, sv.tasks)
  {
    hide Seal, SignHead, PutCheckpoint, CheckpointsOf, Serve;
    SealRefused(env, sv.st, k, ts);
    var steps, look := OwnSteps(env, sv.st, k, ts, signedTs), LookForCheckpoint(k);
    var sv1 := Server(sv.st, sv.tasks + multiset{look});
    ServeOne(env, keys, every, sv, steps);
    assert Advance(env, keys, every, sv, steps[0]) == sv1;
    ServeOne(env, keys, every, sv1, steps[1..]);
    var sv2 := Advance(env, keys, every, sv1, steps[1]);
    if CheckpointsOf(sv.st, k) != map[] {
      assert sv1.tasks - multiset{look} + multiset{} == sv.tasks;
      ServeNone(env, keys, every, sv2, steps[1..][1..]);
    } else {
      assert sv1.tasks - multiset{look} + multiset{ReadHead(k)} == sv.tasks + multiset{ReadHead(k)};
      assert steps[1..][1..] == steps[2..];
      RepairSteps(env, keys, every, sv, sv2, k, signedTs, steps[2..]);
    }
  }

  lemma RepairSteps(
    env: Env, keys: Keyring, every: nat, sv: Server, sv2: Server, k: RunKey, signedTs: nat, rest: seq<Step>)
    requires k in sv.st.runs && sv2 == Server(sv.st, sv.tasks + multiset{ReadHead(k)})
    requires rest == [Proceed(ReadHead(k), signedTs),
                      Proceed(SignAndPut(k, sv.st.runs[k].headSeq, sv.st.runs[k].headHash, true), signedTs)]
    ensures var row := sv.st.runs[k];
            Serve(env, keys, every, sv2, rest)
            == Server(PutCheckpoint(sv.st, k, SignHead(env.hash, keys, k.run, row.headSeq, row.headHash, signedTs)),
                      sv.tasks)
  {
    hide SignHead, PutCheckpoint, Serve;
    var row := sv.st.runs[k];
    var put := SignAndPut(k, row.headSeq, row.headHash, true);
    var sv3 := Advance(env, keys, every, sv2, rest[0]);
    assert sv3 == Server(sv.st, sv.tasks + multiset{put});
    var sv4 := Advance(env, keys, every, sv3, rest[1]);
    assert sv4.tasks == sv.tasks;
    ServeOne(env, keys, every, sv2, rest);
    assert rest[1..] == [rest[1]] && rest[1..][1..] == [];
    ServeOne(env, keys, every, sv3, rest[1..]);
    ServeNone(env, keys, every, sv4, rest[1..][1..]);
  }

  lemma ServeOne(env: Env, keys: Keyring, every: nat, sv: Server, steps: seq<Step>)
    requires steps != []
    ensures Serve(env, keys, every, sv, steps) == Serve(env, keys, every, Advance(env, keys, every, sv, steps[0]),
              steps[1..])
  {
    hide Advance;
  }

  lemma ServeNone(env: Env, keys: Keyring, every: nat, sv: Server, steps: seq<Step>)
    requires |steps| == 0
    ensures Serve(env, keys, every, sv, steps) == sv
  {
  }

  /**
   * The repair is partial. Completing an open run always protects its head; completing a sealed one does so exactly
   * when no checkpoint exists at all, or the head already has one. A run with a periodic checkpoint whose closing
   * checkpoint was lost is refused, and stays unprotected, however often it is retried.
   */
  lemma CompleteProtectsExactlyWhen(env: Env, keys: Keyring, st: State, k: RunKey, ts: nat, signedTs: nat)
    requires Inv(env, st) && k in st.runs
    ensures var (st', r) := Complete(env, keys, st, k, ts, signedTs);
            && (HeadProtected(st', k) <==>
                  !Sealed(st, k) || CheckpointsOf(st, k) == map[] || |Rows(st, k)| - 1 in CheckpointsOf(st, k))
            && (r.Ok? ==> HeadProtected(st', k) && r.value == |Rows(st', k)| - 1)
            && (r.Err? ==> st' == st)
  {
    hide Complete, HeadProtected, Inv, Rows, CheckpointsOf;
    if Sealed(st, k) {
      CompleteSealed(env, keys, st, k, ts, signedTs);
    } else {
      CompleteOpen(env, keys, st, k, ts, signedTs);
    }
  }

  lemma CompleteOpen(env: Env, keys: Keyring, st: State, k: RunKey, ts: nat, signedTs: nat)
    requires Inv(env, st) && k in st.runs && !Sealed(st, k)
    ensures var (st', r) := Complete(env, keys, st, k, ts, signedTs);
            r.Ok? && HeadProtected(st', k) && r.value == |Rows(st', k)| - 1
  {
    SealExactly(env, st, k, ts);
    hide Seal, OthersUntouched, EventHash, Inv, SignHead, Rows, PutCheckpoint, CheckpointsOf;
    var (sealed, r) := Seal(env, st, k, ts);
    var cp := SignHead(env.hash, keys, k.run, r.value.seqNo, r.value.hash, signedTs);
    SignedFields(env.hash, keys, k.run, r.value.seqNo, r.value.hash, signedTs);
    PutKeepsOthers(sealed, k, cp, k, r.value.seqNo);
  }

  lemma CompleteSealed(env: Env, keys: Keyring, st: State, k: RunKey, ts: nat, signedTs: nat)
    requires Inv(env, st) && k in st.runs && Sealed(st, k)
    ensures var (st', r) := Complete(env, keys, st, k, ts, signedTs);
            && (HeadProtected(st', k) <==> CheckpointsOf(st, k) == map[] || |Rows(st, k)| - 1 in CheckpointsOf(st, k))
            && (r.Ok? ==> HeadProtected(st', k) && r.value == |Rows(st', k)| - 1)
            && (r.Err? ==> st' == st)
  {
    hide Seal, Inv, SignHead, Rows, PutCheckpoint, CheckpointsOf, NamesEvent;
    SealRefused(env, st, k, ts);
    HeadIsNamed(env, st, k);
    RecordIsNonempty(env, st, k);
    var row := st.runs[k];
    SignedFields(env.hash, keys, k.run, row.headSeq, row.headHash, signedTs);
    PutKeepsOthers(st, k, SignHead(env.hash, keys, k.run, row.headSeq, row.headHash, signedTs), k, row.headSeq);
  }

  lemma SealRefused(env: Env, st: State, k: RunKey, ts: nat)
    requires Sealed(st, k)
    ensures Seal(env, st, k, ts) == (st, Err(Conflict))
  {
  }

  /**
   * Five steps of a server that checkpoints every event: a run is created, one event appended and its periodic
   * checkpoint stored, the run completed, and the handler lost before it stores the closing checkpoint.
   */
  function LosingSteps(env: Env, k: RunKey, new_: NewRun, ev: NewEvent, t0: nat, t1: nat, t2: nat, p: nat): seq<Step> {
    var st1 := CreateRun(env, EMPTY, k, new_, t0).0;
    var (st2, r1) := RouteAppend(env, st1, k, ev, None, t1);
    var r2 := Seal(env, st2, k, t2).1;
    if r1.Err? || r2.Err? then []
    else
      [Direct(OpCreate(k, new_, t0)), AppendRoute(k, ev, None, t1),
       Proceed(SignAndPut(k, r1.value.seqNo, r1.value.hash, false), p),
       CompleteRoute(k, t2), Abandon(SignAndPut(k, r2.value.seqNo, r2.value.hash, true))]
  }

  /** The run is then sealed, its last event covered by no checkpoint, and completing it is refused for ever after. */
  lemma RepairCanFail(
    env: Env, keys: Keyring, k: RunKey, new_: NewRun, ev: NewEvent, t0: nat, t1: nat, t2: nat, p: nat, ts: nat,
    signedTs: nat)
    requires !OwnRouteOnly(ev.kind)
    ensures var st := Serve(env, keys, 1, START, LosingSteps(env, k, new_, ev, t0, t1, t2, p)).st;
            && Sealed(st, k) && |Rows(st, k)| == 3 && !HeadProtected(st, k)
            && Complete(env, keys, st, k, ts, signedTs) == (st, Err(Conflict))
  {
    hide CreateRun, RouteAppend, Seal, Rows, PutCheckpoint, SignHead, CheckpointsOf, Serve, LosingSteps, Complete;
    var st1 := CreateRun(env, EMPTY, k, new_, t0).0;
    var (st2, r1) := RouteAppend(env, st1, k, ev, None, t1);
    OneAppended(env, k, new_, ev, t0, t1);
    var cp := SignHead(env.hash, keys, k.run, r1.value.seqNo, r1.value.hash, p);
    SignedFields(env.hash, keys, k.run, r1.value.seqNo, r1.value.hash, p);
    SealedBesideOne(env, st2, k, cp, t2);
    OnlyOneCheckpoint(env, k, new_, ev, cp, t0, t1, t2);
    StepByStep(env, keys, k, new_, ev, t0, t1, t2, p);
    RefusedWithAny(env, keys, Seal(env, PutCheckpoint(st2, k, cp), k, t2).0, k, 1, ts, signedTs);
  }

  /** A run created and appended to once. */
  lemma OneAppended(env: Env, k: RunKey, new_: NewRun, ev: NewEvent, t0: nat, t1: nat)
    requires !OwnRouteOnly(ev.kind)
    ensures var (st, r) := RouteAppend(env, CreateRun(env, EMPTY, k, new_, t0).0, k, ev, None, t1);
            Inv(env, st) && r.Ok? && r.value.seqNo == 1 && Open(st, k) && |Rows(st, k)| == 2
  {
    hide Inv, CreateRun, RouteAppend, Apply, OthersUntouched, EventHash, Rows;
    NothingIsSound(env);
    CreateExactly(env, EMPTY, k, new_, t0);
    CreateKeeps(env, EMPTY, k, new_, t0);
    var st1 := CreateRun(env, EMPTY, k, new_, t0).0;
    AppendExactly(env, st1, k, ev, None, t1);
    AppliedAppend(env, st1, k, ev, None, t1);
    ApplyKeeps(env, st1, OpAppend(k, ev, None, t1));
  }

  lemma SealedBesideOne(env: Env, st: State, k: RunKey, cp: Checkpoint, ts: nat)
    requires Inv(env, st) && Open(st, k)
    ensures var (st', r) := Seal(env, PutCheckpoint(st, k, cp), k, ts);
            && r.Ok? && r == Seal(env, st, k, ts).1 && Sealed(st', k) && |Rows(st', k)| == |Rows(st, k)| + 1
  {
    hide Inv, Seal, OthersUntouched, EventHash, Rows, PutCheckpoint;
    CheckpointKeeps(env, st, k, cp);
    SealBesideCheckpoints(env, st, k, cp, ts);
    SealExactly(env, PutCheckpoint(st, k, cp), k, ts);
  }

  lemma RefusedWithAny(env: Env, keys: Keyring, st: State, k: RunKey, s: nat, ts: nat, signedTs: nat)
    requires Sealed(st, k) && s in CheckpointsOf(st, k)
    ensures Complete(env, keys, st, k, ts, signedTs) == (st, Err(Conflict))
  {
    SealRefused(env, st, k, ts);
    hide Seal;
  }

  lemma NothingIsSound(env: Env)
    ensures Inv(env, EMPTY)
  {
  }

  /** Sealing answers the same whether or not a checkpoint was stored before. */
  lemma SealBesideCheckpoints(env: Env, st: State, k: RunKey, cp: Checkpoint, ts: nat)
    ensures Seal(env, PutCheckpoint(st, k, cp), k, ts).1 == Seal(env, st, k, ts).1
    ensures Rows(PutCheckpoint(st, k, cp), k) == Rows(st, k) && (Open(st, k) ==> Open(PutCheckpoint(st, k, cp), k))
  {
    hide MakeEvent;
  }

  lemma OnlyOneCheckpoint(
    env: Env, k: RunKey, new_: NewRun, ev: NewEvent, cp: Checkpoint, t0: nat, t1: nat, t2: nat)
    ensures var st2 := RouteAppend(env, CreateRun(env, EMPTY, k, new_, t0).0, k, ev, None, t1).0;
            CheckpointsOf(Seal(env, PutCheckpoint(st2, k, cp), k, t2).0, k) == map[cp.seqNo := cp]
  {
    hide CreateRun, RouteAppend, Seal, Apply;
    var st1 := CreateRun(env, EMPTY, k, new_, t0).0;
    StoreKeepsCheckpoints(env, EMPTY, OpCreate(k, new_, t0));
    AppliedCreate(env, EMPTY, k, new_, t0);
    StoreKeepsCheckpoints(env, st1, OpAppend(k, ev, None, t1));
    AppliedAppend(env, st1, k, ev, None, t1);
    var st3 := PutCheckpoint(RouteAppend(env, st1, k, ev, None, t1).0, k, cp);
    StoreKeepsCheckpoints(env, st3, OpSeal(k, t2));
    AppliedSeal(env, st3, k, t2);
  }

  lemma AppliedCreate(env: Env, st: State, k: RunKey, new_: NewRun, ts: nat)
    ensures Apply(env, st, OpCreate(k, new_, ts)).0 == CreateRun(env, st, k, new_, ts).0
  {
  }

  lemma StepByStep(
    env: Env, keys: Keyring, k: RunKey, new_: NewRun, ev: NewEvent, t0: nat, t1: nat, t2: nat, p: nat)
    requires var st1 := CreateRun(env, EMPTY, k, new_, t0).0;
             var (st2, r1) := RouteAppend(env, st1, k, ev, None, t1);
             && r1.Ok? && Seal(env, st2, k, t2).1.Ok?
             && var st3 := PutCheckpoint(st2, k, SignHead(env.hash, keys, k.run, r1.value.seqNo, r1.value.hash, p));
                Seal(env, st3, k, t2).1 == Seal(env, st2, k, t2).1
    ensures var st1 := CreateRun(env, EMPTY, k, new_, t0).0;
            var (st2, r1) := RouteAppend(env, st1, k, ev, None, t1);
            var st3 := PutCheckpoint(st2, k, SignHead(env.hash, keys, k.run, r1.value.seqNo, r1.value.hash, p));
            Serve(env, keys, 1, START, LosingSteps(env, k, new_, ev, t0, t1, t2, p))
            == Server(Seal(env, st3, k, t2).0, multiset{})
  {
    hide CreateRun, RouteAppend, Seal, PutCheckpoint, SignHead;
    var steps := LosingSteps(env, k, new_, ev, t0, t1, t2, p);
    var st1 := CreateRun(env, EMPTY, k, new_, t0).0;
    var (st2, r1) := RouteAppend(env, st1, k, ev, None, t1);
    var put := SignAndPut(k, r1.value.seqNo, r1.value.hash, false);
    var st3 := PutCheckpoint(st2, k, SignHead(env.hash, keys, k.run, r1.value.seqNo, r1.value.hash, p));
    var (st4, r2) := Seal(env, st3, k, t2);
    var closing := SignAndPut(k, r2.value.seqNo, r2.value.hash, true);
    var sv1, sv2 := Server(st1, multiset{}), Server(st2, multiset{put});
    var sv3, sv4, sv5 := Server(st3, multiset{}), Server(st4, multiset{closing}), Server(st4, multiset{});
    AppliedCreate(env, EMPTY, k, new_, t0);
    assert Advance(env, keys, 1, START, steps[0]) == sv1 by {
      hide Apply;
    }
    assert Advance(env, keys, 1, sv1, steps[1]) == sv2;
    assert Advance(env, keys, 1, sv2, steps[2]) == sv3;
    assert Advance(env, keys, 1, sv3, steps[3]) == sv4;
    assert Advance(env, keys, 1, sv4, steps[4]) == sv5;
    ServeFive(env, keys, 1, START, sv1, sv2, sv3, sv4, sv5, steps);
  }

  lemma ServeFive(
    env: Env, keys: Keyring, every: nat, sv0: Server, sv1: Server, sv2: Server, sv3: Server, sv4: Server, sv5: Server,
    steps: seq<Step>)
    requires |steps| == 5
    requires Advance(env, keys, every, sv0, steps[0]) == sv1 && Advance(env, keys, every, sv1, steps[1]) == sv2
    requires Advance(env, keys, every, sv2, steps[2]) == sv3 && Advance(env, keys, every, sv3, steps[3]) == sv4
    requires Advance(env, keys, every, sv4, steps[4]) == sv5
    ensures Serve(env, keys, every, sv0, steps) == sv5
  {
    hide Advance;
    assert Serve(env, keys, every, sv5, steps[5..]) == sv5;
    assert steps[4..][1..] == steps[5..] && steps[3..][1..] == steps[4..] && steps[2..][1..] == steps[3..];
    assert steps[1..][1..] == steps[2..];
    assert Serve(env, keys, every, sv4, steps[4..]) == sv5;
    assert Serve(env, keys, every, sv3, steps[3..]) == sv5;
    assert Serve(env, keys, every, sv2, steps[2..]) == sv5;
    assert Serve(env, keys, every, sv1, steps[1..]) == sv5;
  }

  /** The complete handler over the store, call by call. */
  method CompleteRun(store: SqliteStore.Store, keys: Keyring, k: RunKey, ts: nat, signedTs: nat)
    returns (r: Result<nat, StoreError>)
    requires store.Valid()
    modifies store
    ensures store.Valid() && (store.Tables(), r) == Complete(store.env, keys, old(store.Tables()), k, ts, signedTs)
  {
    hide Inv;
    var sealed := store.Seal(k, ts);
    if sealed.Ok? {
      store.PutCheckpoint(k, SignHead(store.env.hash, keys, k.run, sealed.value.seqNo, sealed.value.hash, signedTs));
      return Ok(sealed.value.seqNo);
    }
    if sealed.error != Conflict {
      return Err(sealed.error);
    }
    var latest := store.LatestCheckpoint(k);
    if latest.Some? {
      return Err(Conflict);
    }
    if k !in store.runs {
      return Err(NotFound);
    }
    var row := store.runs[k];
    store.PutCheckpoint(k, SignHead(store.env.hash, keys, k.run, row.headSeq, row.headHash, signedTs));
    r := Ok(row.headSeq);
  }
}
