# Tideline: the record, its checkers and its streams

Tideline keeps tamper-evident records of agent runs. A run is a chain of events, each hashed together with the digest
of the one before; the server appends, redacts, seals and signs checkpoints, and clients in several languages page the
record out, watch it live and verify it offline. Beside the record stands a resumable token stream with an in-memory
and a Redis backend. This project models that behaviour and proves what the repository is for: every record the server
can produce verifies, verifying pins history down, redaction is invisible to the chain, checkpoints tell the truth,
readers get what was published, and the clients' hand-written scanner and hash do what their standards say.

## How it is modelled

- **The ledger** (`Bytes`, `Canon`, `Chain`, `Metadata`, `Ledger`, `History`, `SqliteStore`). The store is a state
  machine; each call is one transaction behind one lock, so one atomic step. `SqliteStore.Store` is the imperative
  form: a class whose tables are fields that the methods reassign, every method proved against the function in
  `Ledger` that says what the step is, and the theorems of `History` are about those functions and about every
  sequence of them. The refusal of reserved event kinds stands in the append route, so it is part of the step.
- **Interleaving** (`Interleaving`, `Paging`, `Watch`, `Stream`, `RedisStream`, `LiveStream`, `RunList`). A client
  that takes several steps is given a finite schedule of batches of other writers' operations, one batch run before
  each of its own steps, or while it waits for a signal. What it reads and emits is a function of the start and the
  schedule; the loop is a method proved equal to that function, and the theorems are lemmas about it for every
  schedule, so for every interleaving. When the schedule is used up nobody writes any more, which is what makes the
  readers' loops terminate.
- **Handlers with several steps** (`Checkpoints`, `Verifier`, `Audit`). What a handler still has to do after its commit
  is a `Task`; any such task may run at any later time, be delayed past anything, or be lost. `Audit` puts such a server
  under a paging client and the offline check at its end.
- **Gates** (`Approvals`, `Expiry`). The approval gates are a fold over the record; what the handlers see of it is its
  first 5000 events, and the theorems say so.
- **The hash** is a parameter, a total function from octets to 32 octets. Nothing is assumed about collisions.
  Since every such function has collisions, "or there is a collision" would say nothing; the theorems say which two
  blocks of the two records collide.
- **The JSON codec** of the server is a parameter too; `Metadata.Faithful` is the one thing ever assumed of it, that
  what the server itself serialised decodes to its own members.
- **The scanner** (`JsonGrammar`, `JsonScan`). Texts of RFC 8259 are derivation trees with all their whitespace and
  escapes; the loops are proved against recursive readings of the text, and those against the printer.
- **SHA-256** (`Fips180`, `Sha256`, `KnownDigest`). The standard is written out on its own, padding on bits included, and
  the in-place code is proved to compute it. What the definition itself computes is pinned by what its functions do to
  the bits of a word, by its constants being roots of primes, and by the published digest of "abc".
- **Where the code falls short of its own intent** the code is kept, the exact condition proved, and where it takes
  several steps to get there a reachable case given: `Checkpoints.CompleteProtectsExactlyWhen` with `RepairCanFail`,
  `Expiry.ExpiryRefusedExactly` with `LapsedGateBlocksReads`, `Expiry.ExpiryLeavesExactly` with `ExpiryFallsBehind`,
  `Approvals.RedactionSparesTheGateExactlyWhen` with `RedactionLetsTheLoserWin`, `RedisStream.BothBackends` with
  `PublishingPastTheEnd`, `JsonScan.ShownIsHashedExactlyWhen` with `RepeatedMemberSplits`, `Paging.PagesAreTheRecord`
  for pages over 5000, `Ledger.FirstSeqIs` and `RunList.CursorDecodes` for numbers from 2^63 on.

## Model

| member | source | states |
|---|---|---|
| `Bytes.U64Injective` | crates/tideline-proto/src/canon.rs:49-61 | two 64-bit values with the same eight octets are equal |
| `Bytes.BigEndianAt` | crates/tideline-proto/src/canon.rs:49-61 | octet i of a big-endian integer is its i-th digit in base 256, the most significant first |
| `Bytes.CastIs` | crates/tideline-server/src/tlr/sqlite.rs:511-536 | the cast to a signed integer keeps the value modulo 2^64 and lands between -2^63 and 2^63 - 1 |
| `Canon.CanonLayout` | crates/tideline-proto/src/canon.rs:49-61 | the canon is 181 octets, with domain, sequence number, time, kind digest and the four field digests each in its place |
| `Canon.CanonHolds` | crates/tideline-proto/src/canon.rs:37-61 | in each field's place stands the digest of its text, else the digest retained for it, else 32 zeros; the first five octets are "tlr1" and a newline |
| `Canon.KindsDiffer` | crates/tideline-proto/src/kind.rs:32-44 | distinct kinds have distinct wire strings, so a kind digest pins the kind up to a collision |
| `Canon.WireStrings` | crates/tideline-proto/src/kind.rs:32-51 | the seven wire strings, each parsed to its own kind, and no other string parsed |
| `Canon.CanonCommits` | crates/tideline-proto/src/canon.rs:37-68 | equal canons mean equal sequence number and time, and equal kind and field values up to a located collision of the hashed texts |
| `Canon.FillCanon` | crates/tideline-proto/src/canon.rs:49-61 | filling the buffer slice by slice yields the canon |
| `Chain.VerifyChain` | crates/tideline-proto/src/chain.rs:40-80 | the checker's verdict is the one deserved: the four facts of a sound record, or its first fault with what was expected and found; it accepts exactly the chained records |
| `Chain.OneVerdict` | crates/tideline-proto/src/chain.rs:40-80 | no record deserves two verdicts, so the checker's answer is determined |
| `Chain.PrefixesVerify` | crates/tideline-proto/src/chain.rs:213-221 | every nonempty prefix of a sound record is sound: truncation alone is invisible |
| `Chain.ChainedPush` | crates/tideline-proto/src/chain.rs:40-80 | a sound record stays sound when one correctly linked event is added |
| `Chain.SharedDigestPins` | crates/tideline-proto/src/chain.rs:40-80 | one shared digest at a position makes two linked records agree, canon by canon, up to there, or two of their blocks at one position collide |
| `Chain.TamperEvidence` | crates/tideline-proto/src/chain.rs:40-80 | two verifying records with one head hash have one length and one history, or two of their own hashed blocks are different octets with one digest |
| `Ledger.EraseIsErasure` | crates/tideline-server/src/tlr/sqlite.rs:566-658 | erasing redactable fields leaves an event that differs only by absent values with their digests retained |
| `Ledger.ErasureKeepsCanon` | crates/tideline-proto/src/canon.rs:37-61 | an erasure has the canon of the event as it was written |
| `Ledger.ApplyKeeps` | crates/tideline-server/src/tlr/sqlite.rs:177-269 | every operation keeps the invariant of every run and only extends records |
| `Ledger.RunKeeps` | crates/tideline-server/src/tlr/sqlite.rs:177-269 | so does every sequence of operations |
| `History.EveryReachableLedgerIsSound` | crates/tideline-server/src/tlr/sqlite.rs:177-269 | in every reachable state each run verifies, its row names its true head, and it is sealed exactly when its last event is the one run_finished, which carries the event count |
| `History.CreateExactly` | crates/tideline-server/src/tlr/sqlite.rs:273-355 | opening a run is refused exactly when it exists, changing nothing; otherwise its record is the one envelope event |
| `History.AppendExactly` | crates/tideline-server/src/tlr/sqlite.rs:444-509 | a repeated key changes nothing and returns the first result; otherwise the append is refused exactly on a reserved kind, a missing run or a sealed one, changing nothing, and else adds one linked event and touches no other run |
| `History.SealExactly` | crates/tideline-server/src/tlr/sqlite.rs:538-564 | sealing is refused exactly on a missing or sealed run, changing nothing; otherwise it adds run_finished with the record's length and closes the run |
| `History.RedactExactly` | crates/tideline-server/src/tlr/sqlite.rs:566-658 | a redaction is refused, leaving no trace, exactly on an unknown field, a missing event or a sealed run; otherwise it erases just the named fields of just one event, retains their digests and adds one event |
| `History.RedactionIsInvisible` | crates/tideline-server/src/tlr/sqlite.rs:566-658 | after any operations each earlier event keeps canon, hash and link, each of its fields is as written or absent, and the digest of the original is retained for exactly the erased ones |
| `History.SealedIsFinal` | crates/tideline-server/src/tlr/sqlite.rs:177-192 | after a seal neither record nor row ever changes, whatever is asked |
| `History.RetriesReturnTheOriginal` | crates/tideline-server/src/tlr/sqlite.rs:444-509 | a key once answered is answered the same for ever, without changing state, and the answer still describes the stored event |
| `SqliteStore.Store.InsertEvent` | crates/tideline-server/src/tlr/sqlite.rs:194-234 | the event becomes the last of its run, the run's row names it as the head, and no other run, key or checkpoint is touched |
| `SqliteStore.Store.AppendTo` | crates/tideline-server/src/tlr/sqlite.rs:236-269 | refused exactly on a missing or sealed run; otherwise the submitted event is added, numbered, linked and hashed after the head the row names, and nothing else changes |
| `SqliteStore.Store.CreateRun` | crates/tideline-server/src/tlr/sqlite.rs:273-355 | the tables become what the model says, and the result is the model's |
| `SqliteStore.Store.Append` | crates/tideline-server/src/tlr/sqlite.rs:444-509 | likewise, with the idempotency row looked up first and written last |
| `SqliteStore.Store.Events` | crates/tideline-server/src/tlr/sqlite.rs:511-536 | the ordered range read, `from` cast to a signed integer and the limit clamped to 1..5000 |
| `Ledger.FirstSeqIs` | crates/tideline-server/src/tlr/sqlite.rs:511-536 | the cast leaves `from` as it is exactly below 2^63; from there on the read starts at the beginning of the record |
| `Ledger.ReadExactly` | crates/tideline-server/src/tlr/sqlite.rs:511-536 | below 2^63 a read returns the events from `from` on, as many as were asked for, but at least one and at most 5000 |
| `SqliteStore.Store.Seal` | crates/tideline-server/src/tlr/sqlite.rs:538-564 | likewise |
| `SqliteStore.Store.EraseFields` | crates/tideline-server/src/tlr/sqlite.rs:603-637 | the loop over field names, repeats and absent values included, equals erasing the set of them at once |
| `SqliteStore.Store.Redact` | crates/tideline-server/src/tlr/sqlite.rs:566-658 | likewise, the erasure rolled back when the append is refused |
| `SqliteStore.Store.LatestCheckpoint` | crates/tideline-server/src/tlr/sqlite.rs:660-695 | the checkpoint with the greatest sequence number, and nothing exactly when there is none |
| `SqliteStore.Store.PutCheckpoint` | crates/tideline-server/src/tlr/sqlite.rs:697-719 | insert or replace by sequence number |
| `Checkpoints.ServeKeeps` | crates/tideline-server/src/tlr/routes.rs:403-455 | every interleaving of commits, signings, repairs and lost handlers keeps the store sound and every pending and stored checkpoint true |
| `Checkpoints.CheckpointLayout` | crates/tideline-proto/src/checkpoint.rs:37-46 | the octets signed are 119, with domain, run digest, number, head hash, time and key digest each in its place |
| `Checkpoints.CheckpointCommits` | crates/tideline-proto/src/checkpoint.rs:37-46 | equal signed octets mean equal number, head hash and time, and the same run and key unless those texts collide |
| `Checkpoints.SignedFields` | crates/tideline-proto/src/checkpoint.rs:49-68 | the server signs the run, number, head and time it was given, under its own key id, over those octets |
| `Checkpoints.EveryCheckpointIsTrue` | crates/tideline-server/src/tlr/routes.rs:735-763 | every stored checkpoint names its run, its number and the hash of the event there, and carries the server's signature over all it says |
| `Checkpoints.CompletionQueues` | crates/tideline-server/src/tlr/routes.rs:403-455 | completing an open run seals it and queues the checkpoint of its last event; completing a sealed one queues the look for a checkpoint, and a missing one nothing |
| `Checkpoints.AppendQueues` | crates/tideline-server/src/tlr/routes.rs:739-751 | an append queues the checkpoint of its event exactly when it succeeds and `every` divides the number it returns, which on an open run is the length of the record |
| `Checkpoints.UndisturbedIsComplete` | crates/tideline-server/src/tlr/routes.rs:403-455 | the handler's own steps with nobody in between, repair included, reach exactly the state of the handler as one call, and leave none of its tasks |
| `Checkpoints.CompletionProtectsTheHead` | crates/tideline-server/src/tlr/routes.rs:403-455 | a complete that reaches its put, first time or through the repair, leaves a checkpoint at the sealed head for good |
| `Checkpoints.CompleteProtectsExactlyWhen` | crates/tideline-server/src/tlr/routes.rs:403-455 | an undisturbed complete leaves the head covered exactly when the run was open, had no checkpoint at all, or had one at the head already |
| `Checkpoints.RepairCanFail` | crates/tideline-server/src/tlr/routes.rs:403-455 | a reachable case: create, append with its periodic checkpoint, complete, and the handler lost before its put leave a sealed run whose head no checkpoint covers and whose completion is refused for ever |
| `Checkpoints.CompleteRun` | crates/tideline-server/src/tlr/routes.rs:403-455 | the handler, call by call over the store, is that function |
| `Verifier.AcceptsExactly` | crates/tideline-cli/src/main.rs:161-288 | on a verified record the check accepts exactly the checkpoints that name its run, cover one of its events by hash and are signed for the key given |
| `Verifier.Verify` | crates/tideline-cli/src/main.rs:112-159 | the exit code in every case: unreadable, unsound, 0 for a sound record alone, and with a checkpoint the code of its check, which is spelled out |
| `Verifier.TruncationIsDetected` | crates/tideline-cli/src/main.rs:189-229 | every prefix shorter than a checkpoint covers verifies as a chain and is rejected by the check |
| `Verifier.CheckpointPinsHistory` | crates/tideline-cli/src/main.rs:161-229 | any record accepted with any checkpoint the server ever stored agrees with what the server holds, then and later, up to the covered event, or two of their blocks collide |
| `Verifier.HonestRecordPasses` | crates/tideline-cli/src/main.rs:161-288 | the server's own record, at any later time, passes with every checkpoint it stored |
| `Verifier.AlteredCheckpointFails` | crates/tideline-proto/src/checkpoint.rs:71-82 | with a key that accepts no signature for two messages, what passes under the signature of a signed checkpoint is that checkpoint in number, head hash and time, and in run and key unless those texts collide |
| `Verifier.ForeignCheckpointFails` | crates/tideline-cli/src/main.rs:182-195 | a checkpoint of another run is rejected by every record the server holds whose envelope can be read |
| `Audit.ServingIsRunning` | crates/tideline-server/src/tlr/routes.rs:403-455 | to the store any steps of the handlers are a sequence of its operations |
| `Audit.PagedRecordPasses` | crates/tideline-cli/src/main.rs:112-288 | a record paged out, with any page size, of a server that goes on appending, redacting, sealing and signing between the requests verifies, and passes the check against a checkpoint stored then or ever after if and only if it holds the event that one covers |
| `Interleaving.AfterIsRun` | crates/tideline-server/src/tlr/sqlite.rs:177-192 | how a reader's steps cut the writers' transactions up makes no difference to where these lead |
| `Interleaving.ReadingLasts` | crates/tideline-server/src/tlr/sqlite.rs:511-536 | what was read stays a true earlier form of the record however it grows and is redacted |
| `Interleaving.ReadingVerifies` | crates/tideline-proto/src/chain.rs:40-80 | a whole reading verifies although its parts come from different states |
| `Paging.EventsPaged` | crates/tideline-sdk/src/run.rs:237-251 | the client's loop against any writers reads the pages and makes the requests that the schedule determines |
| `Paging.PagesAreTheRecord` | crates/tideline-sdk/src/run.rs:237-251 | those pages, though of different states, are events 0..n-1, chained, with n the record's length at the last request and the number of requests the one that takes, exactly for pages of at most 5000; a larger page stops after one request |
| `Watch.Drain` | crates/tideline-server/src/tlr/routes.rs:352-378 | the inner loop, against any writers between its reads, is the drain the schedule determines |
| `Watch.DrainDelivers` | crates/tideline-server/src/tlr/routes.rs:352-378 | a drain sends the next events in order and leaves none that its last read could see |
| `Watch.Watch` | crates/tideline-server/src/tlr/routes.rs:324-401 | the watch, against any signals and any writers while it reads and waits, sends and ends as those determine |
| `Watch.WatchDelivers` | crates/tideline-server/src/tlr/routes.rs:324-401 | whatever tokens and gaps the spine produces, the events from `from` on (below 2^63) are sent once each in order; unless it ended on an error, all that was committed by the time the ending signal came has been sent, which includes all committed while it waited for that signal and every one before |
| `Approvals.DecisionRoundTrip` | crates/tideline-server/src/tlr/approvals.rs:27-42 | what as_str writes parse reads back |
| `Approvals.DecisionWords` | crates/tideline-server/src/tlr/approvals.rs:27-43 | the five words a ruling may carry, what each means, and that no other is a decision |
| `Approvals.MalformedRulingIsIgnored` | crates/tideline-server/src/tlr/approvals.rs:103-122 | a resolution without target or decision, or with an unknown decision, leaves every gate as it was |
| `Approvals.ProjectGates` | crates/tideline-server/src/tlr/approvals.rs:82-126 | the loop over events is the fold |
| `Approvals.ProjectionMeansFirstRuling` | crates/tideline-server/src/tlr/approvals.rs:82-126 | the fold yields one gate per request in record order, each decided by the first valid ruling after it that names it |
| `Approvals.GateReads` | crates/tideline-server/src/tlr/approvals.rs:82-126 | what such a gate reads: action and expiry from its request, or empty and 0; decision, reviewer, principal and note from its ruling, and attested only if the ruling says so; all blank while pending |
| `Approvals.DecidedGateStands` | crates/tideline-server/src/tlr/approvals.rs:82-126 | a decided gate reads the same in every continuation in which its request and the ruling that decided it can be read |
| `Approvals.GateStability` | crates/tideline-server/src/tlr/approvals.rs:82-126 | after any operations a decided gate keeps state, reviewer, attestation and note, as long as name and metadata of its own request and its deciding ruling are not erased, whatever becomes of other gates |
| `Approvals.RedactionAndGates` | crates/tideline-server/src/tlr/approvals.rs:82-126 | what one redaction makes of a gate, from the record before it: gone, blanked, handed to the next ruling in line, pending again, or untouched |
| `Approvals.RedactionSparesTheGateExactlyWhen` | crates/tideline-server/src/tlr/approvals.rs:82-126 | the gate is shown as before if and only if the redaction does none of those things |
| `Approvals.RedactionLetsTheLoserWin` | crates/tideline-server/src/tlr/approvals.rs:159-193 | a reachable case: after a race, erasing the metadata of the ruling that won makes the losing ruling the gate's decision |
| `Approvals.ResolveCheckExactly` | crates/tideline-server/src/tlr/approvals.rs:159-179 | a resolve is refused exactly when the first 5000 events hold no such gate or already a ruling on it |
| `Approvals.ResolutionLands` | crates/tideline-server/src/tlr/approvals.rs:181-193 | the second step of a resolve adds exactly its ruling to an open run |
| `Approvals.RacingResolvers` | crates/tideline-server/src/tlr/approvals.rs:159-193 | two resolvers that both read first both succeed, and the one that landed first is the gate's decision whatever follows, as long as it and the request stay readable |
| `Expiry.Request` | crates/tideline-server/src/tlr/approvals.rs:139-151 | refused on a missing or sealed run; on an open one it returns the record's length and the projection gains exactly that gate, pending, with the action and expiry given |
| `Expiry.RequestShows` | crates/tideline-server/src/tlr/approvals.rs:82-102 | a request as the server writes it shows as one more gate and changes no other |
| `Expiry.ResolveGate` | crates/tideline-server/src/tlr/approvals.rs:159-193 | read, project, check, append over the store is the model's resolve |
| `Expiry.ExpireLapsedIn` | crates/tideline-server/src/tlr/approvals.rs:211-244 | over the events its caller has read, the counting loop of resolves over the store is the model's expiry |
| `Expiry.LapsedRequests` | crates/tideline-server/src/tlr/approvals.rs:211-244 | the gates picked are exactly the requests pending past their time, in order |
| `Expiry.ExpiresExactly` | crates/tideline-server/src/tlr/approvals.rs:211-244 | on an open run of at most 5000 events one ruling is added per lapsed gate and their number returned; a gate pending at or past its expiry is then expired, by nobody, unattested, with the standing note, every other gate is exactly as it was, and the record verifies |
| `Expiry.ReadShowsTime` | crates/tideline-server/src/tlr/routes.rs:552-562 | so a read of the gates, as long as the rulings fit, shows the gates the record had, in order, the overdue ones expired and the others unchanged |
| `Expiry.ExpiryLeavesExactly` | crates/tideline-server/src/tlr/approvals.rs:196-244 | on an open run of any length one ruling is added per gate seen to have lapsed, and exactly those whose rulings fell past the 5000th event are seen to have lapsed afterwards: none if and only if none had lapsed or the record and the rulings are at most 5000 events |
| `Expiry.ExpireAllAnswers` | crates/tideline-server/src/tlr/approvals.rs:211-244 | on an open run of any length every gate seen to be pending is answered, whether or not the answers can be seen |
| `Expiry.ExpiryRefusedExactly` | crates/tideline-server/src/tlr/approvals.rs:211-244 | on a run of any length it fails exactly when the run is sealed and still shows a lapsed gate, and writes nothing; otherwise it returns how many lapsed |
| `Expiry.ExpireThenRead` | crates/tideline-server/src/tlr/routes.rs:552-562 | reading the gates over the store: expire first, read again if any lapsed, fail if that fails |
| `Expiry.LapsedGateBlocksReads` | crates/tideline-server/src/tlr/routes.rs:552-562 | a reachable case: create, request, seal; from the gate's expiry on every read of the gates is refused |
| `Expiry.ExpiryFallsBehind` | crates/tideline-server/src/tlr/routes.rs:552-562 | a reachable case for every m below 5000 and every n: create, m requests out of time, n other events; a read of the gates adds m rulings and still shows as pending those past the 5000th event, none if and only if m is 0 or 1 + 2m + n is at most 5000 |
| `Expiry.ExpiryOutOfSight` | crates/tideline-server/src/tlr/routes.rs:552-562 | once a run has 5000 events nothing changes what is seen: every read adds a ruling for each gate seen to have lapsed, and the same gates are seen to have lapsed after it |
| `LiveStream.LockedStream.Publish` | crates/tideline-server/src/stream.rs:77-90 | the token becomes the next of the log, at the offset returned, and the deque is the last max_buffer tokens of the log, or all of them |
| `LiveStream.LockedStream.PopFrontOver` | crates/tideline-server/src/stream.rs:84-87 | popping the front while too long leaves the last max |
| `LiveStream.LockedStream.Complete` | crates/tideline-server/src/stream.rs:93-101 | finishing is once only, and nothing if already failed |
| `LiveStream.LockedStream.Fail` | crates/tideline-server/src/stream.rs:104-112 | failing is once only, and nothing if already finished |
| `LiveStream.LockedStream.SnapshotFrom` | crates/tideline-server/src/stream.rs:129-147 | a snapshot is the retained log from min(max(from, earliest), next) on |
| `Stream.AfterKeeps` | crates/tideline-server/src/stream.rs:77-112 | whatever publishers do, the deque is the last max_buffer tokens of the log, offsets are positions, and what was sent is only extended |
| `Stream.SnapshotIsSuffix` | crates/tideline-server/src/stream.rs:129-147 | the tokens a snapshot keeps are that suffix of the log |
| `Stream.RetainsTheLast` | crates/tideline-server/src/stream.rs:118-147 | the deque holds as many of the last tokens as the capacity allows, so a gap is told exactly when `from` plus the capacity is less than the length of the log |
| `Stream.GapExactlyWhen` | crates/tideline-server/src/stream.rs:55-147 | so from a new stream of capacity m on, counted as max(1, m), whatever its publishers do |
| `Stream.ReadStream` | crates/tideline-server/src/stream.rs:184-228 | subscribe, snapshot and the receive loop, against any publishers between the steps, emit and end as the schedule determines |
| `Stream.ReaderProtocol` | crates/tideline-server/src/stream.rs:184-228 | a reader emits a gap first exactly when from was evicted, then consecutive log tokens from its start, then at most one terminal, last, with every token published before it delivered; it lags, and then stops on a contiguous run without one, only once more was sent since it subscribed than the channel holds |
| `Stream.BurstLags` | crates/tideline-server/src/stream.rs:184-228 | more than 1024 signals between subscribing and the first receive make the reader stop after its snapshot; with at most 1024 it never lags |
| `LiveStream.ConnectSees` | crates/tideline-server/src/api.rs:434-441 | what a cut session showed, if it began with no gap, is a run of the log from where it resumed |
| `LiveStream.Reconnect` | crates/tideline-server/src/api.rs:434-441 | a client that reads one session after another from the same stream, resuming one past the last token seen, gets what the sessions determine |
| `LiveStream.SessionsCompose` | crates/tideline-server/src/api.rs:434-441 | over any number of sessions it has seen one consecutive run of the log, from where it first asked, unless some session began with a gap |
| `RedisStream.ParseInvertsWriting` | crates/tideline-server/src/redis_backend.rs:179-191 | the entries the backend writes parse back to the signals they stand for |
| `RedisStream.RedisAfterKeeps` | crates/tideline-server/src/redis_backend.rs:40-47 | whatever publishers do and Redis trims, offsets are positions in the log and the counter is its length |
| `RedisStream.TrimmingLeavesEnough` | crates/tideline-server/src/redis_backend.rs:40-47 | however often Redis trims, at least the last max_len entries stay |
| `RedisStream.AnyTrimCanHappen` | crates/tideline-server/src/redis_backend.rs:40-47 | a publish may trim up to any position that leaves them, so nothing proved rests on Redis trimming little |
| `RedisStream.FirstOffsetIsEarliest` | crates/tideline-server/src/redis_backend.rs:263-276 | the first token the replay finds is the earliest retained one |
| `RedisStream.ReadEntries` | crates/tideline-server/src/redis_backend.rs:277-309 | the loop over a run of entries tells what they determine, up to the first terminal |
| `RedisStream.EntriesTold` | crates/tideline-server/src/redis_backend.rs:277-309 | that is the part of the log they hold from the start on, and on a terminal exactly the tokens before it and the terminal, whatever is published after |
| `RedisStream.Subscribe` | crates/tideline-server/src/redis_backend.rs:239-313 | replay and cursor tail, against any publishers between the reads, tell and end as the schedule determines |
| `RedisStream.SubscriberTells` | crates/tideline-server/src/redis_backend.rs:239-313 | a gap first exactly when the place asked for is gone, every token from the start up to the first terminal, and that terminal, which alone ends it; this fails only if a terminal was trimmed before the replay or unread entries added after it were trimmed |
| `RedisStream.ReadTells` | crates/tideline-server/src/stream.rs:184-228 | the in-memory reader tells the same, except that it also tells what its snapshot held past the terminal; a part of it when it lagged, which takes more than 1024 signals since it subscribed |
| `RedisStream.RunAgrees` | crates/tideline-server/src/redis_backend.rs:155-168 | the same operations leave both backends with the same log and the same first terminal, later terminals making no difference |
| `RedisStream.BothBackends` | crates/tideline-server/src/redis_backend.rs:239-313 | two subscribers, one on each backend and each with its own steps among the same operations, told of a gap both or neither and starting at the same offset, with no terminal and nothing unread trimmed: when both end they have told the same if and only if the in-memory snapshot held no token from there on that was published after the first terminal, and then one's signals are always a prefix of the other's |
| `RedisStream.QuietBackendsAgree` | crates/tideline-server/src/redis_backend.rs:239-313 | which is always so when nothing is published after the first terminal |
| `RedisStream.PublishingPastTheEnd` | crates/tideline-server/src/stream.rs:77-90 | a reachable case where they differ: complete, then publish |
| `JsonScan.SkipWs` | sdk/ts/src/parse.ts:26-29 | the loop ends where the whitespace does |
| `JsonScan.SkippedExactly` | sdk/ts/src/parse.ts:26-29 | what is skipped is spaces, tabs and line ends, all of those and nothing else |
| `JsonScan.ScanString` | sdk/ts/src/parse.ts:32-46 | the loop finds the first unescaped quote, or the fault and its offset |
| `JsonScan.ScanValue` | sdk/ts/src/parse.ts:48-78 | the depth-counting loop finds the end of the value, or the fault and its offset |
| `JsonScan.RawMember` | sdk/ts/src/parse.ts:85-113 | the member loop returns the text the search over members defines, or its fault |
| `JsonScan.SplitArray` | sdk/ts/src/parse.ts:116-136 | the element loop returns the texts the search over elements defines, or its fault |
| `JsonScan.Unquoted` | sdk/ts/src/parse.ts:34-45 | a string scan that succeeds moved forward and stayed within the text |
| `JsonScan.Unnested` | sdk/ts/src/parse.ts:53-71 | so did a bracket scan |
| `JsonScan.StringIsScanned` | sdk/ts/src/parse.ts:32-46 | every string literal of the grammar ends at its own closing quote |
| `JsonScan.ValuePasses` | sdk/ts/src/parse.ts:53-71 | inside brackets, scanning past any printed value leaves the depth as it was |
| `JsonScan.ValueIsScanned` | sdk/ts/src/parse.ts:48-78 | every printed value is scanned to just past its end |
| `JsonScan.SampleIsJson` | sdk/ts/src/parse.ts:26-78 | a text with a `\u` escape, an escaped quote, a number in all its parts, nesting and every kind of space is among those the theorems are about |
| `JsonScan.SplitInvertsPrinting` | sdk/ts/src/parse.ts:116-136 | for every array text of the grammar, with any whitespace, exactly the element texts come back |
| `JsonScan.RawMemberInvertsPrinting` | sdk/ts/src/parse.ts:85-113 | for every object text of the grammar, the text of the first top-level member whose decoded key matches comes back, never a nested one; nothing when none does, and a key that cannot be decoded is an error at the place where it stands |
| `JsonScan.EmptyObjectHasNoMember` | sdk/ts/src/parse.ts:86-89 | an empty object has no member |
| `JsonScan.MemberBytesAreKept` | sdk/ts/src/event.ts:46-78 | splitting an array of objects and reading a member of one gives its value's bytes exactly as they stood |
| `JsonScan.ShownIsHashedExactlyWhen` | sdk/ts/src/event.ts:46-68 | the bytes hashed as an event's metadata are the text of the metadata shown if and only if the first and the last top-level member of that name have one text, as when there are no two |
| `JsonScan.RepeatedMemberSplits` | sdk/ts/src/event.ts:46-68 | an input: of two members of one name the second is shown and the first is hashed |
| `JsonScan.NothingIsDropped` | sdk/ts/src/parse.ts:123-135 | of any text accepted, well-formed or not, nothing but whitespace and one comma between elements is left out |
| `Fips180.PaddedLength` | sdk/ts/src/sha256.ts:35-36 | the padded length is the least multiple of 64 that is at least len + 9, and is what the code computes |
| `Fips180.PadInjective` | sdk/ts/src/sha256.ts:35-44 | two messages with one padding are one message |
| `Fips180.PadIsThePadding` | sdk/ts/src/sha256.ts:35-44 | octet padding is the bit padding of section 5.1.1 of FIPS 180-4 |
| `Fips180.ConstantsAreCubeRoots` | sdk/ts/src/sha256.ts:14-23 | each round constant is the first 32 bits of the fractional part of the cube root of its prime |
| `Fips180.InitialWordsAreSquareRoots` | sdk/ts/src/sha256.ts:28-30 | each initial word is the first 32 bits of the fractional part of the square root of its prime |
| `Fips180.RotationIsRotation` | sdk/ts/src/sha256.ts:25 | bit i of a word rotated by n is bit i + n, counted around the word |
| `Fips180.ShiftIsShift` | sdk/ts/src/sha256.ts:52-53 | bit i of a word shifted by n is bit i + n, or zero past the end |
| `Fips180.ChChooses` | sdk/ts/src/sha256.ts:61-68 | the choice is its second word where the first has ones and its third elsewhere |
| `Fips180.MajVotes` | sdk/ts/src/sha256.ts:61-68 | the majority is what the first two words agree on, and the third where they differ |
| `KnownDigest.DigestOfAbc` | sdk/ts/test/sha256.test.ts:9-15 | the digest of "abc" under the definition is the published one, which pins constants, amounts, sums and the order of the rounds |
| `Sha256Impl.Padded` | sdk/ts/src/sha256.ts:35-44 | the buffer filled in place, its length written in two halves, is the padding |
| `Sha256Impl.FillSchedule` | sdk/ts/src/sha256.ts:48-55 | the array filled in place is the message schedule |
| `Sha256Impl.Compress` | sdk/ts/src/sha256.ts:57-82 | the 64 rounds over eight variables, added into the hash words in place, are one block of section 6.2.2 |
| `Sha256Impl.Sha256` | sdk/ts/src/sha256.ts:27-88 | for every message shorter than 2^50 octets the result is the digest FIPS 180-4 defines |
| `Decimal.ParseInvertsPrint` | crates/tideline-server/src/tlr/sqlite.rs:405-437 | a number written in decimal reads back as itself |
| `Decimal.ParseAccepts` | crates/tideline-server/src/tlr/sqlite.rs:402-410 | a text is a number exactly when it is a nonempty string of the ten digits |
| `Decimal.PrintIs` | crates/tideline-server/src/tlr/sqlite.rs:430-437 | the last digit printed is the number modulo ten, before it the rest |
| `RunList.Sorted` | crates/tideline-server/src/tlr/sqlite.rs:420-424 | the positions of a set in listing order, each once |
| `RunList.PageIsExact` | crates/tideline-server/src/tlr/sqlite.rs:372-442 | one request returns in order the first limit of the matching runs past the cursor, a next cursor exactly when another follows, and is refused exactly on a malformed label filter or cursor |
| `RunList.PageMeans` | crates/tideline-server/src/tlr/sqlite.rs:372-442 | a page holds only runs of the tenant that match agent, label and since, newest first and by run id within one time, 50 or as many as asked for from 1 to 500, and without cursors every such run |
| `RunList.TextLessMeans` | crates/tideline-server/src/tlr/sqlite.rs:420-424 | the order of run ids is by bytes: a proper prefix, or smaller at the first difference |
| `RunList.SplitOnceIs` | crates/tideline-server/src/tlr/sqlite.rs:385-406 | splitting is at the first mark and fails exactly without one |
| `RunList.SignedTimes` | crates/tideline-server/src/tlr/sqlite.rs:407-409 | a cursor's time is read with or without a sign, from -2^63 to 2^63 - 1 |
| `RunList.CursorDecodes` | crates/tideline-server/src/tlr/sqlite.rs:402-437 | a cursor decodes to the pair it was made from, colons in the run id and all, exactly when the time is below 2^63 |
| `RunList.FollowCursor` | crates/tideline-server/src/tlr/sqlite.rs:372-442 | following the cursor to the end, with any writes between pages, gives matching runs in order, none twice, and every one that matched at the first request |
| `Sse.FindFrameEnd` | crates/tideline-sdk/src/run.rs:388-390 | the first blank line, or that there is none |
| `Sse.Reader.Take` | crates/tideline-sdk/src/run.rs:345-384 | a chunk's bytes join the buffer, every complete frame is drained and decoded in order, and none is left in the buffer |
| `Sse.SseEvents` | crates/tideline-sdk/src/run.rs:341-385 | the items of a stream of chunks |
| `Sse.FramesAreExact` | crates/tideline-sdk/src/run.rs:351-352 | splitting loses no byte, leaves no complete frame and never cuts one short |
| `Sse.FramesJoin` | crates/tideline-sdk/src/run.rs:350-352 | splitting what has come, then the leftover with what comes next, is splitting it all at once |
| `Sse.ChunkingDoesNotMatter` | crates/tideline-sdk/src/run.rs:341-385 | two ways of cutting one stream, transport failures and all, give the same items in the same order |
| `Sse.ItemsAreTheFrames` | crates/tideline-sdk/src/run.rs:341-385 | without failures they are those of the complete frames of the whole stream |

## Left out

- Paging.PagesAreTheRecord: a page of 0 is excluded, because the server reads it as 1 and the loop then never sees a short page.
- Paging.EventsPaged: asks that the record stay shorter than 2^63 events, past which the store casts sequence numbers to negative ones.
- Watch.Watch: asks the same.
- Watch.WatchDelivers: does not claim that done means sealed, because a spine reader that lagged ends without a terminal and the watch takes that as an end.
- Checkpoints.CompleteProtectsExactlyWhen: does not claim that a retried complete repairs a lost closing checkpoint, because the code looks for any checkpoint at all.
- RedisStream.SubscriberTells: says nothing of what is told once a terminal was trimmed before the replay or unread entries were trimmed; expiry, deletion and failed reads are not modelled.
- RedisStream.BothBackends: asks, as SubscriberTells does, that no terminal was trimmed before the replay and nothing unread after it.
- RunList.FollowCursor: the path language of SQLite's json_extract is a parameter, and an ill-formed label path is not modelled.
- JsonScan.RawMember: decoding a key literal is a parameter, as the code calls the platform's parser; strings are sequences of characters, not of UTF-16 code units, which only moves offsets.
- Sse.SseEvents: what one complete frame yields (UTF-8 check, data and event lines, JSON) is a parameter of one frame's bytes.
- Sha256Impl.Sha256: lengths are exact integers, as doubles are below 2^53; a sum of at most five words cut to 32 bits is the sum of 32-bit words; DataView reads and writes are their documented big-endian octets.
- SQL: primary keys and ordered range reads are the order of a sequence and the keys of a map; a failing database is not modelled.
- Sequence numbers and times are natural numbers, encoded modulo 2^64 where the code encodes them.
- Ed25519 and base64: a signature is whatever a key's signing function returns and its verification function accepts.
- The broadcast channel's closed case: a reader holds its own stream alive, so the sender is never dropped.
- Times: the clock a call reads is an arbitrary input, and no order between times is assumed or proved.
- HTTP, WebSocket and SSE encoding, status codes, authentication, tenants, tickets and key files: plumbing around the handlers.
- Stream reaping, the least-recently-used map, metrics and event counters: easy invariants.
- The Go, Python and other TypeScript ports of the chain checker and canon: the same algorithm as the Rust one.
- Conformance vectors and fixtures, but for the digest of "abc": finite examples, not properties.
