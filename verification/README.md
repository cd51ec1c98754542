# X-Sync dialogue kernel: verified model

This Dafny project models the durable core of X-Sync and proves what it is built to guarantee. It has no dependencies
and verifies with `dafny verify dfyconfig.toml`.

- **Dialogue log** (`EventLog`, `LogProperties`, `CommitPlan`, `StoredLog`, `ReplayChecks`, `EventStore`). A dialogue is
  a list of transactions; on disk it is event files, marker files and a quarantine. `EventStore` is the imperative
  store: every file step may be the last one before a crash (`life` counts the steps a process survives), orphan events
  may lie above the tip, and recovery, incremental replay, historical reads and retries are all proved against the one
  abstract list. The payload rules of the reducer are an arbitrary function (`Setup.rules`); digests are free
  constructors, so hashing is injective.
- **Observers** (`ObserverHub`, `Dispatcher`). The hub with its tables, seen sets and cursors, and the after-commit
  dispatcher with its reordering buffers and retry map. Which callbacks raise, and whether the hub itself raises, are
  inputs. A ghost log records what each observer was given by callbacks that returned. Properties that need all batches
  to agree with one log are stated for a ghost `truth`; the code itself is modelled for conflicting input too.
- **Handoff** (`Registry`, `HandoffProperties`, `Coordinator`). The registry's decisions and events, the dialogue logs in
  outline, and the coordinator's create, resume, hand off, execute and recover operations as sequences of durable writes
  with a crash allowed before each. A commit to a log is one write here; `EventStore` is what justifies that.
- **Leased work** (`JournalSpec`, `JournalProperties`, `Journal`). The probe's journal as a state machine on values, the
  class that updates its records in place, keeps the ledger and remembers the tokens handed out, and what holds over every
  run. Time, claim ids and handles are inputs; the latter are fresh.
- **Quiz planner** (`PrerequisiteGraph`, `Planner`, `Selection`). The cycle check of a question bank, the stale and
  blocked fixpoints, the greedy order and the covering selection.
- **Quiz session** (`SessionChain`, `SessionProperties`, `SessionProgress`, `SessionStore`, `Mastery`). The transition
  validator, what every accepted chain satisfies, what is accepted, crash recovery of a session directory, and the
  spaced-repetition record.
- **Codec and host context** (`Codec`, `CodecProperties`, `HostContext`). The typed JSON codec and the size-bounded
  capsule builder.

Some properties one might expect hold only under a condition, and the condition is proved to be exact.

- `AfterCommitDispatcher.PublishAll`: "publish valid facts without propagating post-commit failures" (`dispatch.py` line
  458) holds unless a batch is torn or a stream is jammed. Replaying the accepted part of a torn batch raises before the
  batches behind it are looked at (`LaterBatchIsLost`); a repeated id above the next sequence raises on every later call.
- `AnswerRepeatsIff`: repeating an answer returns the same work only if the question was recorded since the last reload;
  after a reload the current question is a copy (`probe.py` lines 158-163 and 356-357) and the repeated call is refused.
- `UnionRoundTripsIff` and `UnionReversesIff`: a union type gives values back only when no two of its members read a
  common text, and gives trees back only when it reads no list.
- `Coordinator.Resolve`: a process that dies after the new configuration is written but before the begin is committed
  recovers to the source session, not to the requested one; `WritesBefore` counts the writes.

## Model

| member | source | states |
|---|---|---|
| EventLog.FoldCounts | skills/x-sync/scripts/xsync_v2/state_machine.py:2252-2273 | Replay accepts exactly consecutive sequences: after n accepted events the state counts n more, keeps its session and generation, and the i-th event carries the (i+1)-th next sequence |
| EventLog.FoldAppend | skills/x-sync/scripts/xsync_v2/state_machine.py:2252-2273 | Replaying a history in two parts is replaying it whole |
| EventLog.FoldAccepts | skills/x-sync/scripts/xsync_v2/state_machine.py:2252-2273 | Events replay only if each carries the next sequence and version and moves the version by one, or by none for four facts; all such events replay unless the payload rules object |
| EventLog.PrefixWellFormed | skills/x-sync/scripts/xsync_v2/event_store.py:820-876 | Every prefix of a log that replays and chains is one, and each transaction extends the prefix before it |
| EventLog.Replays | skills/x-sync/scripts/xsync_v2/event_store.py:885-910 | A well-formed log always replays; its state counts its events and its history is numbered 1 to n |
| EventLog.TipStep | skills/x-sync/scripts/xsync_v2/event_store.py:820-876 | The tip after one more marker is the replay of just its events on the tip before it: incremental replay equals full replay |
| LogProperties.ReceiptsTile | skills/x-sync/scripts/xsync_v2/event_codec.py:1147-1203 | In every well-formed log the command receipts tile the sequences 1 to n without gap or overlap |
| LogProperties.IdentitiesDistinct | skills/x-sync/scripts/xsync_v2/event_codec.py:1179-1203 | No two receipts share a command, a transaction, a marker hash or an event id |
| LogProperties.FenceIsTerminal | skills/x-sync/scripts/xsync_v2/event_store.py:613-650 | Only the last marker of a log can carry base generation + 1, and then its events are all quiesce facts of that generation; markers of the base generation hold none |
| LogProperties.FailureIsSettledAtOnce | skills/x-sync/scripts/xsync_v2/event_store.py:128-173 | A WorkFailed is the first of exactly two events of its transaction, and the next event of the history is the requeue or dead letter of the same work, trigger, attempt and failure, under the same command |
| LogProperties.IntentsAreOwn | skills/x-sync/scripts/xsync_v2/event_codec.py:870-892 | Every committed effect intent belongs to the session, is about a sequence its transaction has reached, and is one of at most 16 |
| LogProperties.MarkerHashPinsHistory | skills/x-sync/scripts/xsync_v2/event_codec.py:899-986 | With an injective hash, equal last marker hashes force equal logs: every event and every marker of the whole history |
| CommitPlan.AppendedIsRecoverable | skills/x-sync/scripts/xsync_v2/event_store.py:652-717 | Whatever the store decides to append is a transaction that every later recovery accepts, under the command and digest of the request |
| CommitPlan.AppendsExactlyExtensions | skills/x-sync/scripts/xsync_v2/event_store.py:406-475 | A well-addressed request is appended if and only if its events replay from the tip, the drafted transaction may follow the log, and its effect intents are new |
| CommitPlan.FailureBatchShape | skills/x-sync/scripts/xsync_v2/event_store.py:128-173 | A batch that holds a failure fact passes if and only if it is a failure followed by the requeue or the dead letter of the same command, work, trigger, attempt and failure, in chained envelopes |
| CommitPlan.PlainBatchShape | skills/x-sync/scripts/xsync_v2/event_store.py:128-157 | A batch without failure facts passes if and only if sequences and versions chain and every event but an export moves the version by one |
| CommitPlan.LegalRequestIsAppended | skills/x-sync/scripts/xsync_v2/event_store.py:406-475 | Every request of the session and of one command, well shaped, with the facts its generation allows, under new names and intents, and replaying from the tip of an open log, is appended |
| CommitPlan.RunKeepsIntentsDistinct | skills/x-sync/scripts/xsync_v2/event_store.py:581-611 | Over every run of commits, crashes and retries no effect intent is committed twice |
| CommitPlan.RunCommitsOnce | skills/x-sync/scripts/xsync_v2/event_store.py:427-475 | Over every run from the empty log: at most one marker per command, distinct transaction, marker and event ids, receipts tiling 1 to n |
| CommitPlan.RetryReplaysForever | skills/x-sync/scripts/xsync_v2/event_store.py:427-469 | A committed command is answered, after any further run, by its own receipt under the same digest and refused as a conflict under any other |
| CommitPlan.FencedLogOnlyReplays | skills/x-sync/scripts/xsync_v2/event_store.py:427-475 | Once the last marker is fenced, no run of commits, crashes and retries adds a transaction: a request is replayed if and only if it is well formed and its command was committed under its digest, and one that nothing else is wrong with is refused because the session is deactivated |
| StoredLog.StoredLogsAgree | skills/x-sync/scripts/xsync_v2/event_store.py:885-910 | Two logs held by the same event and marker files agree as far as both go |
| StoredLog.ExactIsLongest | skills/x-sync/scripts/xsync_v2/event_store.py:885-919 | A log whose markers are exactly those on disk is the only such log, and every other log on disk is a prefix of it |
| ReplayChecks.ChecksDecide | skills/x-sync/scripts/xsync_v2/event_store.py:820-876 | Once the records of a marker link up, the remaining checks hold if and only if the marker extends the log |
| ReplayChecks.StuckMeansCorrupt | skills/x-sync/scripts/xsync_v2/event_store.py:885-919 | A marker right above the tip that cannot be applied means that no log at all is stored |
| ReplayChecks.GapMeansCorrupt | skills/x-sync/scripts/xsync_v2/event_store.py:912-919 | A marker that replay never reaches means that no log at all is stored |
| ReplayChecks.MarkerCommits | skills/x-sync/scripts/xsync_v2/event_store.py:477-519 | Writing the marker over published events is what commits: the directories then hold exactly one transaction more |
| ReplayChecks.CompletedStaysSettled | skills/x-sync/scripts/xsync_v2/event_store.py:386-394 | An effect once reported as completed is owed by no later log |
| EventStore.ValidateReceipts | skills/x-sync/scripts/xsync_v2/event_codec.py:1147-1203 | The loop over receipts with its sets of seen identities accepts exactly the receipts that tile the sequence under distinct identities |
| EventStore.ValidateBatchShape | skills/x-sync/scripts/xsync_v2/event_store.py:128-173 | The batch loop reports the first broken rule of a batch, and none exactly for well-shaped batches |
| EventStore.TransactionLog.ApplyMarker | skills/x-sync/scripts/xsync_v2/event_store.py:820-876 | A marker is applied if and only if some transaction with that marker and the records on disk may follow the log; the new tip is the tip of the longer log |
| EventStore.TransactionLog.FullRecover | skills/x-sync/scripts/xsync_v2/event_store.py:885-935 | Recovery from arbitrary files returns the one log whose markers are exactly those on disk, or reports corruption only when no such log exists; with maintenance only committed event files remain, and a crash in between changes neither |
| EventStore.TransactionLog.QuarantineOrphans | skills/x-sync/scripts/xsync_v2/event_store.py:921-935 | Moving orphans, cut short anywhere, keeps the committed log and loses no record |
| EventStore.TransactionLog.Recover | skills/x-sync/scripts/xsync_v2/event_store.py:338-352 | On every state the protocol produces recovery is never refused, gives the whole committed log, keeps every record in a file or the quarantine, and finishes whenever the process lives long enough |
| EventStore.TransactionLog.Synchronize | skills/x-sync/scripts/xsync_v2/event_store.py:878-883 | Incremental replay from any earlier tip reaches the same tip as full recovery |
| EventStore.TransactionLog.TipAtSequence | skills/x-sync/scripts/xsync_v2/event_store.py:788-803 | The tip of a past sequence exists if and only if the sequence is a marker boundary, and is the tip of that prefix |
| EventStore.TransactionLog.StateAtSequence | skills/x-sync/scripts/xsync_v2/event_store.py:396-404 | The state of a past sequence is the replay of exactly that many events, at marker boundaries and nowhere else |
| EventStore.TransactionLog.ReadCommitted | skills/x-sync/scripts/xsync_v2/event_store.py:354-372 | The events read after a sequence are the exact suffix of the committed history |
| EventStore.TransactionLog.ReadEffectIntents | skills/x-sync/scripts/xsync_v2/event_store.py:374-384 | The promised effects of every committed marker, in marker order |
| EventStore.TransactionLog.ReadPendingEffectIntents | skills/x-sync/scripts/xsync_v2/event_store.py:386-394 | Exactly the promised effects that no committed event reports as completed, in order |
| EventStore.TransactionLog.PublishEvent | skills/x-sync/scripts/xsync_v2/event_store.py:719-742 | Publishing an event touches no other file, keeps a different orphan of the same name, and never alters a committed event |
| EventStore.TransactionLog.RejectIdentityReuse | skills/x-sync/scripts/xsync_v2/event_store.py:581-611 | The audit finds a reused event id, intent or transaction id exactly when one is reused, with the error of the first check that fails |
| EventStore.TransactionLog.PrepareTransaction | skills/x-sync/scripts/xsync_v2/event_store.py:652-717 | The loop that replays, hashes and seals a batch computes the drafted transaction or the first error |
| EventStore.TransactionLog.AnswerReplay | skills/x-sync/scripts/xsync_v2/event_store.py:427-469 | A retry is answered with the original receipt, the original events and the state as of then |
| EventStore.TransactionLog.Decide | skills/x-sync/scripts/xsync_v2/event_store.py:406-475 | Every decision before the first write changes no file and equals the verdict on the committed log |
| EventStore.TransactionLog.PublishTransaction | skills/x-sync/scripts/xsync_v2/event_store.py:477-527 | For every crash point the log afterwards is the old one, or the old one and the whole batch, decided only by whether the marker file exists |
| EventStore.TransactionLog.Commit | skills/x-sync/scripts/xsync_v2/event_store.py:406-527 | Commit is atomic and exactly-once: refusal and replay touch no file; an append leaves the old log or the whole batch by the marker alone; an acknowledged commit is durable; it succeeds when the guard passes and the process lives |
| EventStore.CommitCrashRecover | skills/x-sync/scripts/xsync_v2/event_store.py:406-527 | Commit, die at any step, recover, recover again: the log is the old one or that and the whole batch by the marker alone, both recoveries give its one tip, only committed event files remain, and no record is lost |
| EventStore.ServeCalls | skills/x-sync/scripts/xsync_v2/event_store.py:338-527 | Any sequence of processes that commit, die anywhere and are followed by a recovery makes of the log exactly what one run of attempts makes of it; from an empty directory no command, transaction, event or effect intent is committed twice, receipts tile, and only committed event files remain |
| ObserverHub.MakeBatch | skills/x-sync/scripts/xsync_v2/observer.py:73-99 | A committed batch is built from views with positive sequences exactly when it is non-empty, with distinct ids and consecutive sequences; a duplicate id is reported before a gap |
| ObserverHub.LogsArePrefixComparable | skills/x-sync/scripts/xsync_v2/observer.py:255-304 | Any two logs of one stream drawn from the accepted facts are comparable: one is a prefix of the other |
| ObserverHub.SequenceConflictNeverFires | skills/x-sync/scripts/xsync_v2/observer.py:271-281 | Of a recorded batch the unseen events all lie above the cursor, so the test for a sequence at or below it can never be the one that fires |
| ObserverHub.UnseenDecides | skills/x-sync/scripts/xsync_v2/observer.py:259-286 | The unseen events are none exactly when the batch ends at or below the cursor, start after a gap exactly when the batch does, and otherwise continue the log without gap or duplicate |
| ObserverHub.Hub.FindConflict | skills/x-sync/scripts/xsync_v2/observer.py:229-253 | The two table look-ups find a conflict exactly when the batch contradicts an accepted fact by id or by sequence |
| ObserverHub.Hub.Record | skills/x-sync/scripts/xsync_v2/observer.py:253-254 | Both tables take in exactly the batch; nothing an observer has seen changes |
| ObserverHub.Hub.Offer | skills/x-sync/scripts/xsync_v2/observer.py:255-304 | An observer whose callback raises, that has a gap or that lacks nothing keeps seen set, cursor and log; any other gains exactly the events of the batch above its cursor; nobody else is touched |
| ObserverHub.Hub.Publish | skills/x-sync/scripts/xsync_v2/observer.py:201-307 | A contradicting batch reaches nobody and changes nothing. Any other is recorded; every accepting observer that has no gap and whose callback returns gains exactly the events above its cursor, in order, whoever else fails; one that raises or has a gap keeps log, cursor and seen set; attempts and failures are named exactly, with their codes |
| ObserverHub.Hub.ObservedInOrderExactlyOnce | skills/x-sync/scripts/xsync_v2/observer.py:201-307 | In every reachable hub each log is exactly the sequences 1 to its cursor, logs of a stream are prefix-comparable, and ids and sequences are in bijection |
| Dispatcher.AfterCommitDispatcher.Send | skills/x-sync/scripts/xsync_v2/dispatch.py:616-635 | The hub is skipped only when it raises itself. A batch that contradicts nothing is then recorded, and every accepting observer without a gap whose callback returns has all of it, whoever else fails; the publish fails exactly when some accepting observer lacks events and has a gap or a raising callback |
| Dispatcher.AfterCommitDispatcher.RetryFailed | skills/x-sync/scripts/xsync_v2/dispatch.py:646-658 | Every remembered batch is sent again, ascending within a stream; an observer whose callback returns throughout, while the hub does not raise, then has all that its streams have passed, whoever else fails; a calm pass empties the retry map |
| Dispatcher.AfterCommitDispatcher.Take | skills/x-sync/scripts/xsync_v2/dispatch.py:474-508 | An event is rejected exactly when another holds its slot, replayed when its stream has passed it, buffered otherwise; the second integrity test cannot fire |
| Dispatcher.AfterCommitDispatcher.TakeBatch | skills/x-sync/scripts/xsync_v2/dispatch.py:471-508 | Exactly the slots of the batch become taken, the passed events come back in order, every rejected event is reported, and a batch that follows the truth comes back as a prefix |
| Dispatcher.AfterCommitDispatcher.TakeAll | skills/x-sync/scripts/xsync_v2/dispatch.py:467-516 | Raises exactly when some batch is torn against the events accepted before the call: between two accepted events that its stream has passed it has one that is not accepted; then exactly the batches up to and including the first torn one are taken. Otherwise all are taken and every accepted event that its stream has passed is replayed in a well-formed batch |
| Dispatcher.TornDecides | skills/x-sync/scripts/xsync_v2/dispatch.py:471-516 | The accepted events of a batch that its stream has passed make a batch exactly when the batch is not torn; otherwise building it fails for a sequence gap |
| Dispatcher.TornSettled | skills/x-sync/scripts/xsync_v2/dispatch.py:471-516 | Whether a batch is torn is settled before the call: accepting more events changes no verdict on slots the stream has passed |
| Dispatcher.LaterBatchIsLost | skills/x-sync/scripts/xsync_v2/dispatch.py:467-516 | A stream has passed events 1 to 3; a call with 1, another event for 2, and 3, followed by a batch of a second stream, takes only the first batch and never the second |
| Dispatcher.FirstArrivalHolds | skills/x-sync/scripts/xsync_v2/dispatch.py:475-495 | A free slot goes to the first event handed in for it, whatever the batches behind it say |
| Dispatcher.AfterCommitDispatcher.Drain | skills/x-sync/scripts/xsync_v2/dispatch.py:588-614 | Raises exactly when one id occurs twice in the run of accepted events the stream waits to hand on, and then changes no sequence, attempt or retry; otherwise the sequence the stream waits for is not buffered afterwards; other streams are untouched |
| Dispatcher.RunDecides | skills/x-sync/scripts/xsync_v2/dispatch.py:588-603 | A run of accepted events from the next sequence on is a batch unless one id occurs in it twice |
| Dispatcher.JamStays | skills/x-sync/scripts/xsync_v2/dispatch.py:588-603 | No further event frees a stream that waits behind a repeated id |
| Dispatcher.AfterCommitDispatcher.PublishAll | skills/x-sync/scripts/xsync_v2/dispatch.py:454-539 | Raises if and only if a batch is torn or, with the batches taken, a stream is jammed by a repeated id; a torn batch drops the batches behind it, a jam makes every later call raise. Of the batches taken nothing is lost: a slot belongs to the first event that arrived for it, and each accepted event is buffered, or passed and delivered to or still due for every accepting observer; a call that returns reports every other event. Batches of one truth never raise; an observer whose own callback returns throughout, while the hub does not raise, then holds exactly the truth below the next sequence, whoever else fails, and a call in which nothing raises leaves nothing to retry |
| Dispatcher.AfterCommitDispatcher.NothingDueMeansCaughtUp | skills/x-sync/scripts/xsync_v2/dispatch.py:464-535 | With an empty retry map every accepting observer holds exactly the truth below the next sequence |
| Dispatcher.AfterCommitDispatcher.WaitsForFirstGap | skills/x-sync/scripts/xsync_v2/dispatch.py:588-614 | Between calls a stream waits for the first sequence that has not been handed in |
| Dispatcher.ArrivalOrderDoesNotMatter | skills/x-sync/scripts/xsync_v2/dispatch.py:427-436 | Two dispatchers handed the same events in any order, overlap or duplication, once caught up, have delivered the same log to every observer |
| Dispatcher.SameLogsInAnyOrder | skills/x-sync/scripts/xsync_v2/dispatch.py:427-539 | Two new dispatchers are handed the same events of one truth by any two sequences of calls, cut into batches and ordered differently, with failures anywhere; once nothing is left to retry, every observer that both serve holds the same log |
| HandoffProperties.CreateKeepsSound | skills/x-sync/scripts/xsync_v2/registry.py:515-554 | Creating the first session is accepted and keeps registry, configurations and logs consistent |
| HandoffProperties.BeginIsAccepted | skills/x-sync/scripts/xsync_v2/registry.py:556-597 | Beginning a handoff from the active session to an unregistered one is always accepted |
| HandoffProperties.BeginKeepsSound | skills/x-sync/scripts/xsync_v2/registry.py:841-939 | Committing the begin makes the source deactivating, the target created and pending, one generation up, and keeps the whole disk consistent |
| HandoffProperties.QuiesceKeepsSound | skills/x-sync/scripts/xsync_v2/state_machine.py:1737-1794 | The fenced event that the quiesce decision names makes the source open, quiet and without topic, ends its log, and keeps the disk consistent |
| HandoffProperties.CompleteIsAccepted | skills/x-sync/scripts/xsync_v2/registry.py:598-623 | A proof for the pending handoff always completes it |
| HandoffProperties.CompleteKeepsSound | skills/x-sync/scripts/xsync_v2/registry.py:841-939 | Completing deactivates the source under a proof that names its whole log, activates the target, and keeps the disk consistent |
| HandoffProperties.CommandKeepsSound | skills/x-sync/scripts/xsync_v2/coordinator.py:1490-1574 | A start of, or a normal command on, the active session keeps the disk consistent |
| Coordinator.SoundIsAudited | skills/x-sync/scripts/xsync_v2/coordinator.py:795-937 | Every registered session of every state the protocol produces passes the audit before recovery |
| Coordinator.SoundProofsAreUnique | skills/x-sync/scripts/xsync_v2/coordinator.py:516-528 | No protocol state holds two deactivation proofs for one source |
| Coordinator.Coordinator.PrepareEmptyTarget | skills/x-sync/scripts/xsync_v2/coordinator.py:1072-1109 | Refused exactly for another stored configuration or a non-empty log, and cut short exactly when the process survives fewer writes than are missing; the registry is unchanged and the disk stays consistent |
| Coordinator.Coordinator.QuiesceSource | skills/x-sync/scripts/xsync_v2/coordinator.py:1353-1488 | In every protocol state the source ends quiet and the proof read off is that of its whole log; only a quiesce event is ever added, and it fails only by dying |
| Coordinator.Coordinator.Bootstrap | skills/x-sync/scripts/xsync_v2/coordinator.py:1490-1574 | The called session is opened when its log is not empty, otherwise started in one write, unless its evidence does not verify or the process dies; it then serves |
| Coordinator.Coordinator.ContinueHandoff | skills/x-sync/scripts/xsync_v2/coordinator.py:1276-1351 | A pending handoff is carried to its end from any crash point; where recovery leads never changes; no normal command is written |
| Coordinator.Coordinator.Preflight | skills/x-sync/scripts/xsync_v2/coordinator.py:795-855 | The audit loop never refuses a state the protocol itself produced, and passes only audited sessions |
| Coordinator.Coordinator.Recover | skills/x-sync/scripts/xsync_v2/coordinator.py:738-793 | From every crash point the session the registry leads to becomes the only active one and serves. A started session is opened without a write whatever its evidence says; one still to be started is started in one write exactly if its evidence verifies; a pending handoff ends at its target unless that evidence fails or the process dies within three writes |
| Coordinator.Coordinator.CreateFirst | skills/x-sync/scripts/xsync_v2/coordinator.py:616-645 | The first session is created unless its evidence is not publishable or another configuration has its name; it is registered exactly when the process survives more writes than prepare it, and recovery then leads to it |
| Coordinator.Coordinator.HandOff | skills/x-sync/scripts/xsync_v2/coordinator.py:672-716 | Succeeds unless the target has unpublishable evidence, another configuration or a history, the source cannot be started, or the process dies within seven writes; the target is registered exactly when the process survives more writes than come before the begin, and recovery leads to the source before and to the target after |
| Coordinator.Coordinator.PrepareHandOff | skills/x-sync/scripts/xsync_v2/coordinator.py:672-696 | Everything before the begin leaves the registry as it was; the target is ready if and only if the request is not refused and the process survives the writes it takes |
| Coordinator.Coordinator.ResumeCurrent | skills/x-sync/scripts/xsync_v2/coordinator.py:646-671 | The current session is resumed exactly with the configuration it was made with, unless it is still to be started and its evidence does not verify or the process dies |
| Coordinator.Coordinator.Resolve | skills/x-sync/scripts/xsync_v2/coordinator.py:592-728 | The outcome is the one decided by the disk and the evidence before the call, or death within seven writes; success makes exactly the requested session serve; a new session is registered if and only if the request is not refused and the process survives more writes than come before the registering one, and recovery leads to it exactly then |
| Coordinator.Coordinator.Execute | skills/x-sync/scripts/xsync_v2/coordinator.py:959-1029 | The outcome is the one decided before the call by where recovery leads, the evidence, the generation and the dialogue, or death within four writes; a committed command is the last entry of its session and the only command added to any log, never to a source whose handoff has begun or to a deactivated session |
| Coordinator.DeactivatedForever | skills/x-sync/scripts/xsync_v2/coordinator.py:554-570 | The log of a deactivated session never changes again and is the one its proof in the registry names, over all later states |
| Coordinator.RequestCrashRecover | skills/x-sync/scripts/xsync_v2/coordinator.py:592-793 | Request a session, die at any write, recover: exactly one session is active and serves, the requested one if and only if the request was not refused and the process survived more writes than come before the registration, the former destination otherwise |
| Coordinator.ServeVisits | skills/x-sync/scripts/xsync_v2/coordinator.py:592-1029 | From the empty disk any sequence of processes that are asked for sessions or commands, die anywhere and are followed by a recovery: every disk on the way is consistent, with no handoff pending and at most one active session, which serves, and every later disk keeps what an earlier one has fixed |
| JournalProperties.PassEffect | spikes/phase0_host_feasibility/probe.py:256-270 | A pass over all works changes exactly the works it hits and numbers its events without gap |
| JournalProperties.ClaimNextKeeps | spikes/phase0_host_feasibility/probe.py:445-489 | Claiming under fresh ids keeps the journal sound, finished work final, and revives no token handed out before |
| JournalProperties.RenewKeeps | spikes/phase0_host_feasibility/probe.py:528-568 | Renewing keeps all that and revives no earlier version of a token |
| JournalProperties.SubmitDecides | spikes/phase0_host_feasibility/probe.py:570-642 | A submission completes a work if and only if its key is unused and it repeats handle, owner, claim, version, epoch and generation of a current unexpired lease; it replays exactly its own receipt; otherwise nothing but expiry happens |
| JournalProperties.RenewDecides | spikes/phase0_host_feasibility/probe.py:528-568 | A renewal succeeds if and only if owner, claim and latest version are those of a current unexpired lease |
| JournalProperties.SubmitKeeps | spikes/phase0_host_feasibility/probe.py:570-642 | A submission keeps completed works and receipts in bijection and revives no token |
| JournalProperties.ControlKeeps | spikes/phase0_host_feasibility/probe.py:644-671 | Pause and switch leave no work queued or leased and keep every receipt, result and event |
| JournalProperties.ReloadKeeps | spikes/phase0_host_feasibility/probe.py:146-187 | A reload under another epoch drops every lease and keeps the ledger |
| JournalProperties.EnqueueKeeps | spikes/phase0_host_feasibility/probe.py:272-301 | Enqueueing gives one work per request and keeps the ledger |
| JournalProperties.PublishKeeps | spikes/phase0_host_feasibility/probe.py:322-362 | Publishing keeps rounds and requests of questions distinct and the rest of the journal as it was |
| JournalProperties.PublishDecides | spikes/phase0_host_feasibility/probe.py:322-362 | A question is recorded exactly when its round and request are new and none is open; a repeated request gets its question if it says the same, is a conflict otherwise, and a used round is stale |
| JournalProperties.AnswerKeeps | spikes/phase0_host_feasibility/probe.py:364-416 | Answering keeps the journal sound and issues no token |
| JournalProperties.AnswerDecides | spikes/phase0_host_feasibility/probe.py:364-416 | A recorded answer is repeated exactly for the same round and text; a new one is accepted exactly when its round is the open one and its request is new to an active journal or already made the same work |
| JournalProperties.RunKeeps | spikes/phase0_host_feasibility/probe.py:143-722 | Over every run: works and events numbered without gap, leased exactly when a lease of the right generation and epoch is present, receipts and completed works in bijection, finished works, receipts and events final, no token revived |
| JournalProperties.FencedForever | spikes/phase0_host_feasibility/probe.py:528-642 | A token that was handed out and is no longer current completes nothing after any further run; at most it replays its own recorded receipt |
| JournalProperties.StoppedStaysStopped | spikes/phase0_host_feasibility/probe.py:644-671 | After pause or switch, over every run, no work is queued or leased again and no work changes |
| JournalProperties.AnswerRepeats | spikes/phase0_host_feasibility/probe.py:364-416 | Repeating an answer gives the same work if and only if the current question was still the list entry itself; after a reload it is a copy and the repeated call is refused as stale |
| JournalProperties.AnswerRepeatsIff | spikes/phase0_host_feasibility/probe.py:146-187 | After any run from the start, repeating an answer that was just accepted gives the same work if and only if a question was recorded since the last reload, and is refused as stale otherwise |
| JournalProperties.SharedIff | spikes/phase0_host_feasibility/probe.py:146-187 | Over every run the current question is the list entry itself exactly when a call recorded it since the last reload |
| JournalProperties.ReloadedAnswerIsRefused | spikes/phase0_host_feasibility/probe.py:364-416 | A question is published, the journal reloaded and the question answered twice: the first answer makes work 1, the second is refused as stale |
| JournalProperties.AnswersAreFinal | spikes/phase0_host_feasibility/probe.py:364-416 | An answer on record answers the same request with the same work after any run |
| Journal.Journal.Walk | spikes/phase0_host_feasibility/probe.py:256-270 | The loop over the works computes the pass |
| Journal.Journal.EnqueueWork | spikes/phase0_host_feasibility/probe.py:272-301 | The answer is the one work of the request; a request is refused exactly when it is known with another text or round, or is new to a stopped journal; nothing else changes |
| Journal.Journal.PublishOne | spikes/phase0_host_feasibility/probe.py:322-362 | The loop over recorded questions finds the first one with the round or request; rounds and requests stay distinct, and works and receipts stay as they are |
| Journal.Journal.Answer | spikes/phase0_host_feasibility/probe.py:364-416 | An accepted answer closes the current question with the one work made for the request, and while the question is the list entry itself the same call again changes nothing and gives the same work; a refused one changes nothing |
| Journal.Journal.ClaimQueued | spikes/phase0_host_feasibility/probe.py:445-489 | The first work that is queued or whose lease has run out is leased under the new claim, handle and next generation, nothing exactly when there is none or the journal is stopped; whoever holds a running lease goes on holding it |
| Journal.Journal.RenewLease | spikes/phase0_host_feasibility/probe.py:528-568 | Renews exactly the latest version of the running lease of owner and claim; the version before is void at once, every other running lease is undisturbed |
| Journal.Journal.SubmitResult | spikes/phase0_host_feasibility/probe.py:570-642 | A work is completed exactly when the key is new and handle and fence are those of a running lease; then one receipt is added, the work has the result and the token is void; a known key replays exactly its own receipt; no other running lease is disturbed |
| Journal.Journal.ControlAll | spikes/phase0_host_feasibility/probe.py:644-671 | After pause or switch no work is queued or leased, no token is current and no question open; receipts stay |
| Journal.Journal.ReleaseAll | spikes/phase0_host_feasibility/probe.py:673-692 | Exactly the tokens of the owner cease to be current; every work they did not hold stays as it is |
| Journal.Journal.Reopen | spikes/phase0_host_feasibility/probe.py:146-187 | Under another epoch exactly the leased works are queued again and no token is current; under the same epoch no work changes; receipts and questions stay |
| PrerequisiteGraph.StuckMeansCycle | skills/x-sync/scripts/xsync.py:1539-1544 | A non-empty set of questions each of which requires another of them holds a cycle |
| PrerequisiteGraph.Validate | skills/x-sync/scripts/xsync.py:1525-1544 | The layer-by-layer loop accepts a bank if and only if every prerequisite exists and there is no cycle, and names which of the two fails |
| Planner.DropStale | skills/x-sync/scripts/xsync.py:1761-1772 | The loop keeps the greatest prerequisite-closed set of fresh questions, in their order, and drops all the rest |
| Planner.Block | skills/x-sync/scripts/xsync.py:1606-1619 | The loop computes the least set that holds the disputed questions and all dependents of its members |
| Planner.Order | skills/x-sync/scripts/xsync.py:1641-1654 | The greedy loop raises if and only if the questions have a cycle among themselves, and otherwise gives the greedy order |
| Planner.GreedyOrderIsTopological | skills/x-sync/scripts/xsync.py:1641-1654 | The order holds every question once, each after the prerequisites that are in it |
| Planner.GreedyOrderIsUnique | skills/x-sync/scripts/xsync.py:1641-1654 | Least group, depth and index first determines the order completely |
| Planner.Prioritize | skills/x-sync/scripts/xsync.py:1589-1654 | Exactly the least blocked set is set aside and the rest is in greedy order: of two questions that could both come next a due one comes first, then one being learned, an unseen one, one under review and the rest, then the shallower and the earlier; it raises if and only if the rest has a cycle, which an acyclic list never has |
| Planner.UrgentFirst | skills/x-sync/scripts/xsync.py:1621-1654 | Of two questions that could both come next, the greedy order takes the more urgent, shallower, earlier one |
| Selection.Closure | skills/x-sync/scripts/xsync.py:1679-1694 | The memoised recursion returns exactly what the question reaches, whatever was cached, and fails only on a cycle or a missing prerequisite |
| Selection.Consider | skills/x-sync/scripts/xsync.py:1700-1709 | After a pair is considered, neither it nor any pair considered before fits and scores lower than the base, which is the joint closure of some fitting pair |
| Selection.FindBase | skills/x-sync/scripts/xsync.py:1696-1714 | The double loop finds a fitting pair that no fitting pair scores lower than, if any pair fits |
| Selection.FillIsNeverStuck | skills/x-sync/scripts/xsync.py:1715-1721 | In an acyclic closed list a closed selection that is not everything can always be extended |
| Selection.Fill | skills/x-sync/scripts/xsync.py:1715-1722 | Filling with the first usable question keeps the base, stays prerequisite-closed and reaches the wanted size, or the list is cyclic or not closed |
| Selection.SelectMixed | skills/x-sync/scripts/xsync.py:1675-1723 | A selection is prerequisite-closed, of the wanted size, covers both domains and keeps the order; it grows from the joint closure of a fitting pair whose later question is earliest, then smallest, then holding the earliest questions, by the first question that can join each time; on an acyclic closed list one is found if and only if one exists |
| Selection.BestIsBest | skills/x-sync/scripts/xsync.py:1696-1722 | The least score is the pair that is no worse than any other by position, size and first differing question, and filling joins one question at a time, always the first possible one |
| Selection.Select | skills/x-sync/scripts/xsync.py:1657-1723 | The whole selection with its errors: no count, count below one, too few questions, one domain, missing domains, mixed |
| Selection.PrefixOfOrderIsClosed | skills/x-sync/scripts/xsync.py:1668-1669 | The plain prefix of a greedy order never requires a question it leaves out |
| SessionProperties.StepSettles | skills/x-sync/scripts/xsync.py:2371-2591 | Every accepted transition keeps unreviewed attempts and continuation keys as they must be, moves the position by exactly one for a presented question or the end, adds no attempt while teaching, and never leaves a completed session |
| SessionProperties.StepKeeps | skills/x-sync/scripts/xsync.py:2371-2591 | Every accepted transition appends attempts, keeps what the learner said, and leaves reviews and finished lessons untouched |
| SessionProperties.LessonEndKeeps | skills/x-sync/scripts/xsync.py:2461-2483 | Ending a lesson can only end the active one, although the transition looks the lesson up by id alone |
| SessionProperties.ChainKeeps | skills/x-sync/scripts/xsync.py:2594-2643 | Between any two points of an accepted chain attempts are only appended, reviews and finished lessons are final, and the total is constant |
| SessionProperties.IndexCounts | skills/x-sync/scripts/xsync.py:2571-2591 | The position equals the number of presented questions and endings, and never passes the total |
| SessionProperties.UnreviewedIsLast | skills/x-sync/scripts/xsync.py:2506-2570 | An unreviewed attempt exists if and only if the session waits for an answer or a review to be completed, and is then unique and last |
| SessionProperties.ContinuedAtMostOnce | skills/x-sync/scripts/xsync.py:2399-2413 | The k-th continuation key used is that of the k-th attempt, so every attempt is continued from at most once |
| SessionProperties.CompletedIsLast | skills/x-sync/scripts/xsync.py:2582-2588 | Nothing follows the end of a session in an accepted chain |
| SessionProgress.StatusTable | skills/x-sync/scripts/xsync.py:2419-2591 | The status before and after every type of event |
| SessionProgress.TeachingIs | skills/x-sync/scripts/xsync.py:2421-2505 | An accepted teaching event concerns the active lesson, with the base, number and key that belong to it, and changes nothing else of the lessons |
| SessionProgress.AnsweringIs | skills/x-sync/scripts/xsync.py:2506-2591 | An accepted grading, review or continuation concerns the last attempt, under exactly its key; an accepted answer is at the current question and within its bounds |
| SessionProgress.TeachingStartAccepted | skills/x-sync/scripts/xsync.py:2421-2428 | From an open question any new one-revision lesson at it is accepted |
| SessionProgress.FeedbackAccepted | skills/x-sync/scripts/xsync.py:2429-2439 | Feedback on the latest revision of the active lesson is accepted |
| SessionProgress.RevisionAccepted | skills/x-sync/scripts/xsync.py:2440-2460 | A revision numbered next is accepted for the feedback that waits |
| SessionProgress.LessonEndAccepted | skills/x-sync/scripts/xsync.py:2461-2483 | The active lesson can be completed when no feedback waits and invalidated at any time |
| SessionProgress.TeachingRequestAccepted | skills/x-sync/scripts/xsync.py:2484-2505 | A first teaching request for the current question under its key is accepted |
| SessionProgress.AnswerAccepted | skills/x-sync/scripts/xsync.py:2506-2529 | A new answer to the open question is accepted |
| SessionProgress.GradingAccepted | skills/x-sync/scripts/xsync.py:2530-2542 | From a saved answer grading of the waiting attempt under its key is accepted |
| SessionProgress.ReviewAccepted | skills/x-sync/scripts/xsync.py:2543-2570 | Graded or not, the waiting attempt takes any review of its confidence; a stale one may drop the automatic result |
| SessionProgress.TurnAccepted | skills/x-sync/scripts/xsync.py:2571-2574 | From a review another turn on the question is accepted under the key of the last attempt |
| SessionProgress.NextQuestionAccepted | skills/x-sync/scripts/xsync.py:2575-2581 | From a review the next question is accepted while there is one |
| SessionProgress.EndAccepted | skills/x-sync/scripts/xsync.py:2582-2588 | From the last review the end is accepted |
| SessionProgress.CanEnd | skills/x-sync/scripts/xsync.py:2594-2643 | No session is ever stuck: from every point of every accepted chain there is an accepted way to the end |
| SessionProgress.WholeSession | skills/x-sync/scripts/xsync.py:2371-2643 | One accepted session of two questions with every type of event but the invalidation of a lesson, in order |
| SessionStore.ExtendChain | skills/x-sync/scripts/xsync.py:903-935 | A validated change appended to an accepted chain gives an accepted chain |
| SessionStore.SessionDirectory.LoadChain | skills/x-sync/scripts/xsync.py:2594-2643 | The loop over the event files accepts exactly the contiguous, valid chains |
| SessionStore.SessionDirectory.Recover | skills/x-sync/scripts/xsync.py:2646-2669 | Recovery gives the last state of the chain and repairs the state file; it fails exactly for a broken chain, an empty chain or a state file that claims to be newer |
| SessionStore.SessionDirectory.Mutate | skills/x-sync/scripts/xsync.py:903-935 | A change is made exactly when the chain allows it and the process lives to write its event, and refused as invalid exactly when the chain does not allow it; cut short at any write, the directory holds the old chain or the chain with the one new event, loadable, with a state file that is not newer |
| Mastery.Rebuild | skills/x-sync/scripts/xsync.py:4093-4144 | One walk over all observations gives every question the record of its own observations |
| Mastery.NextIs | skills/x-sync/scripts/xsync.py:4096-4125 | A correct answer counts if unaided and due and moves the due date by 1, 3, 7, 14 or 30 days by the count, any other scored answer brings the question back in a day, disputed and stale questions never fall due |
| Mastery.SuccessesNeverFall | skills/x-sync/scripts/xsync.py:4098-4125 | Delayed successes rise by at most one per observation, only for an unaided correct answer that was due, and stable means at least three |
| Mastery.SuccessesGrow | skills/x-sync/scripts/xsync.py:4098-4125 | Over any further observations the delayed successes do not fall |
| Mastery.EachSuccessTakesADay | skills/x-sync/scripts/xsync.py:4098-4125 | With ordered times n delayed successes take at least n days |
| Mastery.SuccessesTakeTheirIntervals | skills/x-sync/scripts/xsync.py:4096-4125 | Without an incorrect answer after the first, the successes take the sum of their intervals |
| Mastery.StableTakesTime | skills/x-sync/scripts/xsync.py:4096-4125 | A question is stable at least 3 days after its first observation, at least 11 without an incorrect answer in between |
| Mastery.BoundsAreReached | skills/x-sync/scripts/xsync.py:4096-4125 | Both bounds are attained by concrete observations |
| CodecProperties.EncodedDecodes | skills/x-sync/scripts/xsync_v2/event_codec.py:431-490 | For every well-formed schema, decoding an encoded value gives the value back |
| CodecProperties.EncodesTyped | skills/x-sync/scripts/xsync_v2/event_codec.py:431-490 | Exactly the values of the type are encoded; of a union those are null, if it has it, and the values whose own type is a member |
| CodecProperties.DecodedEncodes | skills/x-sync/scripts/xsync_v2/event_codec.py:596-669 | For every schema whose unions read no list, every tree that decodes is what its value encodes to |
| CodecProperties.EncodingIsInjective | skills/x-sync/scripts/xsync_v2/event_codec.py:672-683 | Two values with the same tree are the same value |
| CodecProperties.UnionRoundTripsIff | skills/x-sync/scripts/xsync_v2/event_codec.py:596-620 | A union of well-formed members round-trips if and only if no two members read a common text: text beside an enum, or enums sharing a member, encode values that decoding then refuses |
| CodecProperties.UnionReversesIff | skills/x-sync/scripts/xsync_v2/event_codec.py:431-451 | For a union of such members, whatever is decoded can be encoded back if and only if the union reads no list |
| CodecProperties.ListIsNotWritten | skills/x-sync/scripts/xsync_v2/event_codec.py:431-451 | Every list a union decodes becomes a tuple that the same union refuses to encode |
| CodecProperties.TupleMembersReadLists | skills/x-sync/scripts/xsync_v2/event_codec.py:596-620 | A union without tuple members reads no list; one with a single tuple member reads every list that member reads |
| CodecProperties.OptionalTupleIsNotWritten | skills/x-sync/scripts/xsync_v2/event_codec.py:431-451 | An optional tuple of texts decodes the empty list to the empty tuple, which it then refuses to encode |
| HostContext.FitsShrinks | skills/x-sync/scripts/xsync_v2/host_context.py:391-447 | If a capsule with a longer cut text fits, so does one with a shorter |
| HostContext.WholeDoesNotFitCut | skills/x-sync/scripts/xsync_v2/host_context.py:416-447 | Marking the whole text as cut costs more than sending it whole, so a cut is always a strict prefix |
| HostContext.Build | skills/x-sync/scripts/xsync_v2/host_context.py:391-447 | The binary search returns the longest prefix of the learner text whose capsule fits, a strict one, and fails only without text, without a read path, or when not even the empty prefix fits |
| HostContext.BuildAndEncode | skills/x-sync/scripts/xsync_v2/host_context.py:450-503 | Every capsule that is built is accepted by the encoder, is at most 16384 bytes, holds the first six model entries and three claims, and the whole learner text or a strict prefix with the digest of the whole and the path to it |

## Left out

- Reduce: the payload rules of the dialogue reducer are an arbitrary partial function, because the guarantees of the log do not depend on them; only the envelope checks, the fence events and the failure pairing are modelled.
- Commit: identifier grammars, timestamps, record size limits, canonical JSON bytes and the state.json projection are not modelled; temporary files and file descriptors below the atomic create and move are taken as given.
- Publish: registering and freezing observers, the lock tracker and the reentrancy guard of the hub are not modelled; the registry is given, with distinct names.
- PublishAll: the hub reports and the buffered-events count of its result are not modelled, and streams are retried and drained in an unspecified order, because no property depends on the order between streams.
- MakeBatch: blank identifiers are not distinguished from others.
- Resolve: the durable catch-up of observers, the captured commit facts and the locks around the operation are not modelled; `Dispatcher` models what delivery does with them.
- Execute: evidence is verified once a call and configuration, so evidence that changes between two checks of one call is not modelled; the retry of an already committed command through the coordinator is not modelled here, since `EventStore.TransactionLog.Commit` proves it of the log; what the dialogue decides on a command is an input.
- Preflight: receipts of the registry mirror its transactions one to one and are not modelled separately; neither are the checks of identifier syntax in `registry.py`.
- SubmitResult: result hashes are the results themselves, and validation of text fields is not modelled.
- ClaimQueued: the waiting loop of `next_for_supervisor`, which only sweeps, looks for a status event and claims, is not modelled; its cursor can skip status events, so no delivery guarantee is claimed for it.
- Answer: timestamps kept beside works and questions are not modelled.
- Prioritize: reviews are looked up by question id; the question version is part of that id here.
- SessionStore.SessionDirectory.Mutate: field shapes of lessons, attempts and reviews that no transition compares are strings.
- Rebuild: grading of attempts, priority reasons and the Brier score are not modelled; the times of the observations are taken as ordered, which holds for timestamps of one format.
- Encode: the bound on integer digits, the parser of JSON text and the domain checks on identifiers are not modelled; trees are what the JSON library gives.
- Build: the capsule fields other than the learner turn, the learner model and the evidence enter only by their encoded size, and the checks of work and contract are not modelled.
- HTTP servers, streaming, browser code, command lines, installers and Git scanning are not modelled.
- The mapping from committed payloads to observer views is not modelled: it has one branch per payload.
