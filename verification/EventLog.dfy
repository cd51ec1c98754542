/**
 The dialogue log of one Session, as its records say it is: events, transaction markers, the
 replayed tip, and what a well-formed sequence of transactions is.  A digest is a free
 constructor over the hashed record, so hashing is injective and otherwise uninterpreted.
 */
module EventLog {
  import opened Wrappers

  // ---------------------------------------------------------------- events and replay

  datatype Payload =
    | WorkFailed(workId: string, trigger: string, attempt: nat, failure: string)
    | WorkRequeued(failedWorkId: string, failedTrigger: string, failedAttempt: nat, failure: string)
    | WorkDeadLettered(failedWorkId: string, failedTrigger: string, failedAttempt: nat, failure: string)
    | TopicPaused(deactivation: bool, handoffId: Option<string>, fence: Option<int>)
    | DeactivationPrepared(handoff: string, fenceGeneration: int)
    | ExportRequested(content: string)
    | ExportCompleted(intentId: string)
    | OtherFact(content: string)

  /** How far a fact moves the conversation version. */
  function VersionDelta(payload: Payload): int {
    if payload.WorkFailed? || payload.WorkRequeued? || payload.ExportRequested? || payload.ExportCompleted?
    then 0 else 1
  }

  datatype Event = Event(
    eventId: string, sequence: int, fromVersion: int, toVersion: int, commandId: string, payload: Payload)

  datatype State = State(sessionId: string, generation: int, sequence: nat, version: int, content: string)

  /** The initial state of a Session and the payload rules of its reducer, which stay arbitrary. */
  datatype Setup = Setup(base: State, rules: (State, Event) -> Option<string>)

  predicate Configured(setup: Setup) {
    setup.base.sequence == 0
  }

  /** One replay step: the envelope checks, then the payload rules; both counters move together. */
  function Reduce(setup: Setup, state: State, event: Event): Result<State, Error> {
    if event.sequence != state.sequence + 1 then Err(EventSequenceGap)
    else if event.fromVersion != state.version then Err(EventVersionConflict)
    else if event.toVersion != event.fromVersion + VersionDelta(event.payload) then Err(EventVersionConflict)
    else match setup.rules(state, event)
      case None => Err(IllegalTransition)
      case Some(content) =>
        Ok(state.(sequence := event.sequence, version := event.toVersion, content := content))
  }

  function Fold(setup: Setup, state: State, events: seq<Event>): Result<State, Error>
    decreases events
  {
    if events == [] then Ok(state)
    else match Reduce(setup, state, events[0])
      case Err(e) => Err(e)
      case Ok(next) => Fold(setup, next, events[1..])
  }

  lemma {:induction false} FoldAppend(setup: Setup, state: State, first: seq<Event>, second: seq<Event>)
    requires Fold(setup, state, first).Ok?
    ensures Fold(setup, state, first + second) == Fold(setup, Fold(setup, state, first).value, second)
    decreases first
  {
    if first == [] {
      assert first + second == second;
    } else {
      var next := Reduce(setup, state, first[0]).value;
      FoldAppend(setup, next, first[1..], second);
      assert (first + second)[1..] == first[1..] + second;
    }
  }

  /** Replay numbers the events: each one carries the next sequence, and the state counts them. */
  lemma {:induction false} FoldCounts(setup: Setup, state: State, events: seq<Event>)
    requires Fold(setup, state, events).Ok?
    ensures Fold(setup, state, events).value.sequence == state.sequence + |events|
    ensures Fold(setup, state, events).value.sessionId == state.sessionId
    ensures Fold(setup, state, events).value.generation == state.generation
    ensures forall i :: 0 <= i < |events| ==> events[i].sequence == state.sequence + 1 + i
    decreases events
  {
    if events != [] {
      var next := Reduce(setup, state, events[0]).value;
      FoldCounts(setup, next, events[1..]);
      forall i | 0 <= i < |events| ensures events[i].sequence == state.sequence + 1 + i {
        if i > 0 { assert events[i] == events[1..][i - 1]; }
      }
    }
  }

  /** The i-th event has the next sequence and version, and moves the version by one unless it is one of four facts. */
  predicate ContinuesAt(state: State, events: seq<Event>, i: nat)
    requires i < |events|
  {
    && events[i].sequence == state.sequence + 1 + i
    && events[i].fromVersion == (if i == 0 then state.version else events[i - 1].toVersion)
    && events[i].toVersion == events[i].fromVersion
                              + (match events[i].payload
                                 case WorkFailed(_, _, _, _) => 0
                                 case WorkRequeued(_, _, _, _) => 0
                                 case ExportRequested(_) => 0
                                 case ExportCompleted(_) => 0
                                 case _ => 1)
  }

  predicate Continue(state: State, events: seq<Event>) {
    forall i :: 0 <= i < |events| ==> ContinuesAt(state, events, i)
  }

  /** Whatever continues the state replays, unless the payload rules object; whatever replays continues the state. */
  lemma {:induction false} FoldAccepts(setup: Setup, state: State, events: seq<Event>)
    ensures Fold(setup, state, events).Ok? ==> Continue(state, events)
    ensures Continue(state, events) && (forall s, e :: setup.rules(s, e).Some?) ==> Fold(setup, state, events).Ok?
    decreases events
  {
    if events != [] {
      assert Continue(state, events) ==> ContinuesAt(state, events, 0);
      if Reduce(setup, state, events[0]).Ok? {
        var next := Reduce(setup, state, events[0]).value;
        FoldAccepts(setup, next, events[1..]);
        assert ContinuesAt(state, events, 0);
        forall i | 0 < i < |events|
          ensures ContinuesAt(state, events, i) <==> ContinuesAt(next, events[1..], i - 1)
        {
          assert events[1..][i - 1] == events[i];
        }
        assert forall i :: 0 <= i < |events[1..]| ==>
                             (ContinuesAt(next, events[1..], i) <==> ContinuesAt(state, events, i + 1));
      }
    }
  }

  // ---------------------------------------------------------------- durable records

  datatype Digest = EventDigest(event: EventBody) | MarkerDigest(marker: MarkerBody) | StateDigest(state: State)

  datatype EventBody = EventBody(
    sessionId: string, generation: int, metadata: Metadata, previous: Option<Digest>, event: Event)

  datatype Metadata = Metadata(occurredAt: string, actor: string, causationId: Option<string>)

  datatype StoredEvent = StoredEvent(body: EventBody, hash: Digest)

  datatype EventRef = EventRef(sequence: int, eventId: string, hash: Digest)

  datatype Intent = Intent(intentId: string, sessionId: string, asOfSequence: int)

  datatype MarkerBody = MarkerBody(
    sessionId: string, transactionId: string, commandId: string, requestDigest: string, generation: int,
    fromSequence: int, toSequence: int, previous: Option<Digest>, stateDigest: Digest,
    intents: seq<Intent>, refs: seq<EventRef>)

  datatype Marker = Marker(body: MarkerBody, hash: Digest)

  datatype Receipt = Receipt(
    commandId: string, requestDigest: string, transactionId: string, markerHash: Digest,
    fromSequence: int, toSequence: int, eventIds: seq<string>, stateDigest: Digest)

  datatype Tip = Tip(
    state: State, lastEventHash: Option<Digest>, lastMarkerHash: Option<Digest>,
    receipts: seq<Receipt>, lastGeneration: int)

  datatype Error =
    | FileNotFound | ImmutableExists | InvalidStoredEvent | InvalidTransactionMarker | InvalidStateSnapshot
    | InvalidCommitRequest | EventVersionConflict | EventSequenceGap | InvalidWorkFailureBatch
    | IllegalTransition | TransactionSequenceGap | TransactionEventMismatch | EventChainMismatch
    | TransactionChainMismatch | TransactionStateMismatch | RegistryGenerationMismatch
    | IdempotencyConflict | DuplicateEventId | DuplicateEffectIntentId | DuplicateTransactionId
    | SessionDeactivated | LockAuthorityRequired | PublicationGuardRefused

  function SealEvent(body: EventBody): StoredEvent { StoredEvent(body, EventDigest(body)) }

  function SealMarker(body: MarkerBody): Marker { Marker(body, MarkerDigest(body)) }

  function EventsOf(records: seq<StoredEvent>): seq<Event> {
    seq(|records|, i requires 0 <= i < |records| => records[i].body.event)
  }

  function RefOf(record: StoredEvent): EventRef {
    EventRef(record.body.event.sequence, record.body.event.eventId, record.hash)
  }

  function RefsOf(records: seq<StoredEvent>): seq<EventRef> {
    seq(|records|, i requires 0 <= i < |records| => RefOf(records[i]))
  }

  function EventIds(refs: seq<EventRef>): seq<string> {
    seq(|refs|, i requires 0 <= i < |refs| => refs[i].eventId)
  }

  function ReceiptOf(marker: Marker): Receipt {
    Receipt(marker.body.commandId, marker.body.requestDigest, marker.body.transactionId, marker.hash,
            marker.body.fromSequence, marker.body.toSequence, EventIds(marker.body.refs),
            marker.body.stateDigest)
  }

  predicate ValidIntents(intents: seq<Intent>, sessionId: string, maximum: int) {
    && |intents| <= 16
    && (forall i, j :: 0 <= i < j < |intents| ==> intents[i].intentId != intents[j].intentId)
    && (forall i :: 0 <= i < |intents| ==>
          intents[i].sessionId == sessionId && 0 <= intents[i].asOfSequence <= maximum)
  }

  /** What decoding demands of one stored event on its own. */
  predicate ValidEvent(record: StoredEvent) {
    var event := record.body.event;
    && record.hash == EventDigest(record.body)
    && record.body.generation >= 1 && event.sequence >= 1 && event.fromVersion >= 0
    && event.toVersion == event.fromVersion + VersionDelta(event.payload)
  }

  /** What decoding demands of one marker on its own. */
  predicate ValidMarker(marker: Marker) {
    var body := marker.body;
    && marker.hash == MarkerDigest(body)
    && body.generation >= 1 && body.refs != []
    && ValidIntents(body.intents, body.sessionId, body.toSequence)
    && body.fromSequence >= 1 && body.toSequence == body.fromSequence + |body.refs| - 1
    && (forall i :: 0 <= i < |body.refs| ==> body.refs[i].sequence == body.fromSequence + i)
    && (forall i, j :: 0 <= i < j < |body.refs| ==> body.refs[i].eventId != body.refs[j].eventId)
  }

  // ---------------------------------------------------------------- batch shape and generation fence

  /** The first rule the i-th event of a batch breaks, if any. */
  function ShapeFault(events: seq<Event>, i: nat): Option<Error>
    requires i < |events|
  {
    if events[i].sequence < 1 || events[i].fromVersion < 0 then Some(InvalidCommitRequest)
    else if events[i].toVersion != events[i].fromVersion + VersionDelta(events[i].payload)
    then Some(EventVersionConflict)
    else if i > 0 && events[i].sequence != events[i - 1].sequence + 1 then Some(EventSequenceGap)
    else if i > 0 && events[i].fromVersion != events[i - 1].toVersion then Some(EventVersionConflict)
    else None
  }

  predicate IsFailureFact(payload: Payload) {
    payload.WorkFailed? || payload.WorkRequeued? || payload.WorkDeadLettered?
  }

  /** The second fact settles exactly the failure the first one reports. */
  predicate Resolves(failed: Payload, resolution: Payload) {
    && failed.WorkFailed? && (resolution.WorkRequeued? || resolution.WorkDeadLettered?)
    && resolution.failedWorkId == failed.workId && resolution.failedTrigger == failed.trigger
    && resolution.failedAttempt == failed.attempt && resolution.failure == failed.failure
  }

  predicate FailurePaired(events: seq<Event>) {
    (exists i :: 0 <= i < |events| && IsFailureFact(events[i].payload)) ==>
      |events| == 2 && events[0].commandId == events[1].commandId && Resolves(events[0].payload, events[1].payload)
  }

  predicate WellShaped(events: seq<Event>) {
    && (forall i :: 0 <= i < |events| ==> ShapeFault(events, i).None?)
    && FailurePaired(events)
  }

  predicate DeactivationFact(payload: Payload) {
    payload.DeactivationPrepared? || (payload.TopicPaused? && payload.deactivation)
  }

  predicate Fences(payload: Payload, generation: int) {
    || (payload.TopicPaused? && payload.deactivation && payload.fence == Some(generation) && payload.handoffId.Some?)
    || (payload.DeactivationPrepared? && payload.fenceGeneration == generation)
  }

  /** Ordinary batches carry the base generation; a quiesce batch carries the next one. */
  predicate GenerationFits(base: int, generation: int, events: seq<Event>) {
    if generation == base
    then forall i :: 0 <= i < |events| ==> !DeactivationFact(events[i].payload)
    else generation == base + 1 && forall i :: 0 <= i < |events| ==> Fences(events[i].payload, generation)
  }

  // ---------------------------------------------------------------- transactions and logs

  datatype Transaction = Transaction(marker: Marker, records: seq<StoredEvent>)

  type Log = seq<Transaction>

  function Last(log: Log): Transaction
    requires log != []
  {
    log[|log| - 1]
  }

  function Init(log: Log): Log
    requires log != []
  {
    log[..|log| - 1]
  }

  /** Every stored event of the log, in order. */
  function Records(log: Log): seq<StoredEvent> {
    if log == [] then [] else Records(Init(log)) + Last(log).records
  }

  function History(log: Log): seq<Event> { EventsOf(Records(log)) }

  function LastEventHash(log: Log): Option<Digest> {
    if Records(log) == [] then None else Some(Records(log)[|Records(log)| - 1].hash)
  }

  function LastMarkerHash(log: Log): Option<Digest> {
    if log == [] then None else Some(Last(log).marker.hash)
  }

  function LastGeneration(setup: Setup, log: Log): int {
    if log == [] then setup.base.generation else Last(log).marker.body.generation
  }

  function Receipts(log: Log): seq<Receipt> {
    seq(|log|, i requires 0 <= i < |log| => ReceiptOf(log[i].marker))
  }

  function StateAfter(setup: Setup, log: Log): Result<State, Error> {
    Fold(setup, setup.base, History(log))
  }

  /** The tip a log stands for: the fold of its whole history and its command index. */
  function TipOf(setup: Setup, log: Log): Tip
    requires StateAfter(setup, log).Ok?
  {
    Tip(StateAfter(setup, log).value, LastEventHash(log), LastMarkerHash(log), Receipts(log),
        LastGeneration(setup, log))
  }

  predicate RecordFits(setup: Setup, log: Log, tx: Transaction, k: nat)
    requires k < |tx.records|
  {
    var body := tx.records[k].body;
    && ValidEvent(tx.records[k])
    && body.sessionId == setup.base.sessionId
    && body.generation == tx.marker.body.generation
    && body.event.commandId == tx.marker.body.commandId
    && body.previous == (if k == 0 then LastEventHash(log) else Some(tx.records[k - 1].hash))
  }

  predicate FreshIdentities(log: Log, tx: Transaction) {
    && (forall i :: 0 <= i < |log| ==>
          && log[i].marker.body.commandId != tx.marker.body.commandId
          && log[i].marker.body.transactionId != tx.marker.body.transactionId)
    && (forall i, k :: 0 <= i < |Records(log)| && 0 <= k < |tx.records| ==>
          Records(log)[i].body.event.eventId != tx.records[k].body.event.eventId)
  }

  predicate Reaches(setup: Setup, log: Log, tx: Transaction) {
    var before := StateAfter(setup, log);
    && before.Ok?
    && var after := Fold(setup, before.value, EventsOf(tx.records));
       after.Ok? && tx.marker.body.stateDigest == StateDigest(after.value)
  }

  /** The transaction may follow the log: it chains on, replays, tells the state it reaches, and is unfenced. */
  predicate Extends(setup: Setup, log: Log, tx: Transaction) {
    var body := tx.marker.body;
    && ValidMarker(tx.marker)
    && body.refs == RefsOf(tx.records)
    && body.sessionId == setup.base.sessionId
    && body.fromSequence == |Records(log)| + 1
    && body.previous == LastMarkerHash(log)
    && LastGeneration(setup, log) == setup.base.generation
    && GenerationFits(setup.base.generation, body.generation, EventsOf(tx.records))
    && (forall k :: 0 <= k < |tx.records| ==> RecordFits(setup, log, tx, k))
    && WellShaped(EventsOf(tx.records))
    && Reaches(setup, log, tx)
    && FreshIdentities(log, tx)
  }

  predicate WellFormed(setup: Setup, log: Log)
    decreases |log|
  {
    log == [] || (WellFormed(setup, Init(log)) && Extends(setup, Init(log), Last(log)))
  }

  // ---------------------------------------------------------------- what a well-formed log keeps

  lemma RecordsAppend(log: Log, tx: Transaction)
    ensures Records(log + [tx]) == Records(log) + tx.records
    ensures History(log + [tx]) == History(log) + EventsOf(tx.records)
    ensures Receipts(log + [tx]) == Receipts(log) + [ReceiptOf(tx.marker)]
  {
    assert Init(log + [tx]) == log && Last(log + [tx]) == tx;
  }

  lemma ExtendWellFormed(setup: Setup, log: Log, tx: Transaction)
    requires WellFormed(setup, log) && Extends(setup, log, tx)
    ensures WellFormed(setup, log + [tx])
  {
    assert Init(log + [tx]) == log && Last(log + [tx]) == tx;
  }

  /** Every prefix of a well-formed log is one, and each transaction extends the prefix before it. */
  lemma {:induction false} PrefixWellFormed(setup: Setup, log: Log, k: nat)
    requires WellFormed(setup, log) && k <= |log|
    ensures WellFormed(setup, log[..k])
    ensures k < |log| ==> Extends(setup, log[..k], log[k])
    decreases |log|
  {
    hide Extends;
    if k == |log| {
      assert log[..k] == log;
    } else if k == |log| - 1 {
      assert log[..k] == Init(log);
    } else {
      PrefixWellFormed(setup, Init(log), k);
      assert Init(log)[..k] == log[..k] && Init(log)[k] == log[k];
    }
  }

  lemma ExtensionReaches(setup: Setup, log: Log, tx: Transaction)
    requires Extends(setup, log, tx)
    ensures Reaches(setup, log, tx) && tx.records != []
  {
    hide Fold, Reaches, WellShaped, GenerationFits, FreshIdentities;
    assert tx.marker.body.refs == RefsOf(tx.records);
  }

  /** A well-formed log always replays, and its state counts its events. */
  lemma {:induction false} Replays(setup: Setup, log: Log)
    requires Configured(setup) && WellFormed(setup, log)
    ensures StateAfter(setup, log).Ok?
    ensures StateAfter(setup, log).value.sequence == |Records(log)|
    ensures StateAfter(setup, log).value.sessionId == setup.base.sessionId
    ensures forall i :: 0 <= i < |Records(log)| ==> History(log)[i].sequence == i + 1
  {
    hide Extends;
    if log == [] {
      assert History(log) == [];
    } else {
      Replays(setup, Init(log));
      ExtensionReaches(setup, Init(log), Last(log));
      assert Init(log) + [Last(log)] == log;
      RecordsAppend(Init(log), Last(log));
      FoldAppend(setup, setup.base, History(Init(log)), EventsOf(Last(log).records));
    }
    FoldCounts(setup, setup.base, History(log));
  }

  /** The tip after one more transaction is the fold of just its events on top of the tip before it. */
  lemma TipStep(setup: Setup, log: Log, tx: Transaction)
    requires Configured(setup) && WellFormed(setup, log) && Extends(setup, log, tx)
    ensures StateAfter(setup, log).Ok? && StateAfter(setup, log + [tx]).Ok?
    ensures WellFormed(setup, log + [tx])
    ensures Fold(setup, StateAfter(setup, log).value, EventsOf(tx.records)) == StateAfter(setup, log + [tx])
    ensures LastEventHash(log + [tx]) == Some(tx.records[|tx.records| - 1].hash)
    ensures TipOf(setup, log + [tx]) ==
            Tip(StateAfter(setup, log + [tx]).value, Some(tx.records[|tx.records| - 1].hash), Some(tx.marker.hash),
                TipOf(setup, log).receipts + [ReceiptOf(tx.marker)], tx.marker.body.generation)
  {
    hide Fold, Extends, WellFormed;
    ExtendWellFormed(setup, log, tx);
    ExtensionReaches(setup, log, tx);
    Replays(setup, log);
    Replays(setup, log + [tx]);
    RecordsAppend(log, tx);
    FoldAppend(setup, setup.base, History(log), EventsOf(tx.records));
  }
}
