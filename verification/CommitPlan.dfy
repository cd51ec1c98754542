/**
 What one commit request amounts to against a given log - refused, a replay of an earlier commit, or a
 new transaction - and what that makes of every run of commits, crashes and retries.
 */
module CommitPlan {
  import opened Wrappers
  import opened EventLog
  import opened LogProperties

  datatype Request = Request(
    sessionId: string, transactionId: string, requestDigest: string, generation: int,
    events: seq<Event>, metadata: seq<Metadata>, intents: seq<Intent>)

  datatype Verdict = Refuse(error: Error) | Replay(index: nat) | Append(tx: Transaction)

  // ---------------------------------------------------------------- the checks of one request

  function FirstShapeFault(events: seq<Event>, from: nat): (fault: Option<Error>)
    requires from <= |events|
    ensures fault.None? <==> forall i :: from <= i < |events| ==> ShapeFault(events, i).None?
    decreases |events| - from
  {
    if from == |events| then None
    else if ShapeFault(events, from).Some? then ShapeFault(events, from)
    else FirstShapeFault(events, from + 1)
  }

  function BatchFault(events: seq<Event>): (fault: Option<Error>)
    ensures fault.None? <==> WellShaped(events)
  {
    if FirstShapeFault(events, 0).Some? then FirstShapeFault(events, 0)
    else if !FailurePaired(events) then Some(InvalidWorkFailureBatch)
    else None
  }

  /**
    A batch that reports or settles a failure passes exactly when it is that pair: a failure, and the requeue or the dead
    letter of the same work, trigger, attempt and failure, under one command, in consecutive envelopes.
    */
  lemma FailureBatchShape(events: seq<Event>)
    requires exists i :: 0 <= i < |events| && (events[i].payload.WorkFailed? || events[i].payload.WorkRequeued?
                                               || events[i].payload.WorkDeadLettered?)
    ensures BatchFault(events).None? <==>
              && |events| == 2 && events[0].payload.WorkFailed?
              && (events[1].payload.WorkRequeued? || events[1].payload.WorkDeadLettered?)
              && events[1].commandId == events[0].commandId
              && events[1].payload.failedWorkId == events[0].payload.workId
              && events[1].payload.failedTrigger == events[0].payload.trigger
              && events[1].payload.failedAttempt == events[0].payload.attempt
              && events[1].payload.failure == events[0].payload.failure
              && events[0].sequence >= 1 && events[1].sequence == events[0].sequence + 1
              && 0 <= events[0].fromVersion == events[0].toVersion == events[1].fromVersion
              && events[1].toVersion == events[1].fromVersion + (if events[1].payload.WorkDeadLettered? then 1 else 0)
  {
    var i :| 0 <= i < |events| && IsFailureFact(events[i].payload);
    if |events| == 2 {
      assert ShapeFault(events, 0).None? && ShapeFault(events, 1).None? ==>
               forall k :: 0 <= k < |events| ==> ShapeFault(events, k).None?;
    }
  }

  /** The i-th event moves the version by one, or not at all for an export, and continues the event before it. */
  predicate Continues(events: seq<Event>, i: nat)
    requires i < |events|
  {
    var event := events[i];
    && event.sequence >= 1 && event.fromVersion >= 0
    && event.toVersion == event.fromVersion
                          + (if event.payload.ExportRequested? || event.payload.ExportCompleted? then 0 else 1)
    && (i > 0 ==> event.sequence == events[i - 1].sequence + 1 && event.fromVersion == events[i - 1].toVersion)
  }

  /** A batch without failures passes exactly when its envelopes chain. */
  lemma PlainBatchShape(events: seq<Event>)
    requires forall i :: 0 <= i < |events| ==>
               !events[i].payload.WorkFailed? && !events[i].payload.WorkRequeued? && !events[i].payload.WorkDeadLettered?
    ensures BatchFault(events).None? <==> forall i :: 0 <= i < |events| ==> Continues(events, i)
  {
    assert forall i :: 0 <= i < |events| ==> !IsFailureFact(events[i].payload);
    assert FailurePaired(events);
    forall i | 0 <= i < |events|
      ensures ShapeFault(events, i).None? <==> Continues(events, i)
    {
    }
  }

  predicate Addressed(setup: Setup, request: Request) {
    && request.sessionId == setup.base.sessionId && request.generation >= 1
    && request.events != [] && |request.metadata| == |request.events|
  }

  predicate OneCommand(events: seq<Event>) {
    forall i, j :: 0 <= i < |events| && 0 <= j < |events| ==> events[i].commandId == events[j].commandId
  }

  function RequestFault(setup: Setup, request: Request): Option<Error> {
    if !Addressed(setup, request) then Some(InvalidCommitRequest)
    else if BatchFault(request.events).Some? then BatchFault(request.events)
    else if !OneCommand(request.events) then Some(InvalidCommitRequest)
    else None
  }

  /** The position of the first receipt of a command, or the number of receipts. */
  function FindCommand(receipts: seq<Receipt>, commandId: string): (at: nat)
    ensures at <= |receipts|
    ensures at < |receipts| ==> receipts[at].commandId == commandId
    ensures forall i :: 0 <= i < at ==> receipts[i].commandId != commandId
  {
    if receipts == [] || receipts[0].commandId == commandId then 0
    else 1 + FindCommand(receipts[1..], commandId)
  }

  function RequestIds(events: seq<Event>): seq<string> {
    seq(|events|, i requires 0 <= i < |events| => events[i].eventId)
  }

  predicate EventIdTaken(log: Log, eventId: string) {
    exists i :: 0 <= i < |Records(log)| && Records(log)[i].body.event.eventId == eventId
  }

  predicate NamesIntent(tx: Transaction, intentId: string) {
    exists j :: 0 <= j < |tx.marker.body.intents| && tx.marker.body.intents[j].intentId == intentId
  }

  predicate IntentTaken(log: Log, intentId: string) {
    exists i :: 0 <= i < |log| && NamesIntent(log[i], intentId)
  }

  predicate IntentsFresh(log: Log, intents: seq<Intent>) {
    && (forall i, j :: 0 <= i < j < |intents| ==> intents[i].intentId != intents[j].intentId)
    && (forall i :: 0 <= i < |intents| ==> !IntentTaken(log, intents[i].intentId))
  }

  function IdentityFault(log: Log, request: Request): Option<Error> {
    if !DistinctStrings(RequestIds(request.events)) then Some(DuplicateEventId)
    else if exists i :: 0 <= i < |request.events| && EventIdTaken(log, request.events[i].eventId)
    then Some(DuplicateEventId)
    else if !IntentsFresh(log, request.intents) then Some(DuplicateEffectIntentId)
    else if exists i :: 0 <= i < |log| && log[i].marker.body.transactionId == request.transactionId
    then Some(DuplicateTransactionId)
    else None
  }

  // ---------------------------------------------------------------- the transaction a request stands for

  /** The stored events of a batch, each hashed over the one before it. */
  function DraftRecords(
    sessionId: string, generation: int, events: seq<Event>, metadata: seq<Metadata>, previous: Option<Digest>)
    : (records: seq<StoredEvent>)
    requires |events| == |metadata|
    ensures |records| == |events|
    decreases events
  {
    if events == [] then []
    else
      var record := SealEvent(EventBody(sessionId, generation, metadata[0], previous, events[0]));
      [record] + DraftRecords(sessionId, generation, events[1..], metadata[1..], Some(record.hash))
  }

  function Draft(tip: Tip, request: Request, state: State): Transaction
    requires request.events != [] && |request.metadata| == |request.events|
  {
    var records := DraftRecords(
                     request.sessionId, request.generation, request.events, request.metadata, tip.lastEventHash);
    Transaction(
      SealMarker(MarkerBody(
                   request.sessionId, request.transactionId, request.events[0].commandId, request.requestDigest,
                   request.generation, request.events[0].sequence, request.events[|request.events| - 1].sequence,
                   tip.lastMarkerHash, StateDigest(state), request.intents, RefsOf(records))),
      records)
  }

  /** Everything the store decides about a request before it writes anything, in the order it decides it. */
  function Judge(setup: Setup, log: Log, request: Request): Verdict
    requires Configured(setup) && WellFormed(setup, log)
  {
    Replays(setup, log);
    var tip := TipOf(setup, log);
    if RequestFault(setup, request).Some? then Refuse(RequestFault(setup, request).value)
    else
      var at := FindCommand(tip.receipts, request.events[0].commandId);
      if at < |tip.receipts| then
        if tip.receipts[at].requestDigest == request.requestDigest then Replay(at) else Refuse(IdempotencyConflict)
      else if IdentityFault(log, request).Some? then Refuse(IdentityFault(log, request).value)
      else if tip.lastGeneration != setup.base.generation then Refuse(SessionDeactivated)
      else if !GenerationFits(setup.base.generation, request.generation, request.events)
      then Refuse(RegistryGenerationMismatch)
      else match Fold(setup, tip.state, request.events)
        case Err(error) => Refuse(error)
        case Ok(state) =>
          if ValidIntents(request.intents, request.sessionId, state.sequence)
          then Append(Draft(tip, request, state)) else Refuse(InvalidTransactionMarker)
  }

  // ---------------------------------------------------------------- an appended transaction is recoverable

  lemma {:induction false} DraftRecordAt(
    sessionId: string, generation: int, events: seq<Event>, metadata: seq<Metadata>, previous: Option<Digest>, k: nat)
    requires |events| == |metadata| && k < |events|
    ensures var records := DraftRecords(sessionId, generation, events, metadata, previous);
            && records[k].hash == EventDigest(records[k].body)
            && records[k].body.sessionId == sessionId && records[k].body.generation == generation
            && records[k].body.metadata == metadata[k] && records[k].body.event == events[k]
            && records[k].body.previous == (if k == 0 then previous else Some(records[k - 1].hash))
    decreases events
  {
    var record := SealEvent(EventBody(sessionId, generation, metadata[0], previous, events[0]));
    if k > 0 {
      DraftRecordAt(sessionId, generation, events[1..], metadata[1..], Some(record.hash), k - 1);
    }
  }

  lemma DraftEvents(tip: Tip, request: Request, state: State)
    requires request.events != [] && |request.metadata| == |request.events|
    ensures EventsOf(Draft(tip, request, state).records) == request.events
  {
    var records := Draft(tip, request, state).records;
    forall k | 0 <= k < |records| ensures records[k].body.event == request.events[k] {
      DraftRecordAt(request.sessionId, request.generation, request.events, request.metadata, tip.lastEventHash, k);
    }
  }

  lemma DraftFits(setup: Setup, log: Log, request: Request, tx: Transaction)
    requires Configured(setup) && WellFormed(setup, log) && Judge(setup, log, request) == Append(tx)
    ensures Addressed(setup, request)
    ensures |tx.records| == |request.events| && EventsOf(tx.records) == request.events
    ensures forall k :: 0 <= k < |tx.records| ==> RecordFits(setup, log, tx, k)
  {
    hide WellFormed, Fold, IdentityFault;
    Replays(setup, log);
    var tip := TipOf(setup, log);
    var state := Fold(setup, tip.state, request.events).value;
    DraftEvents(tip, request, state);
    forall k | 0 <= k < |tx.records| ensures RecordFits(setup, log, tx, k) {
      DraftRecordAt(request.sessionId, request.generation, request.events, request.metadata, tip.lastEventHash, k);
      assert ShapeFault(request.events, k).None?;
    }
  }

  lemma DraftMarkerValid(setup: Setup, log: Log, request: Request, tx: Transaction)
    requires Configured(setup) && WellFormed(setup, log) && Judge(setup, log, request) == Append(tx)
    ensures ValidMarker(tx.marker) && tx.marker.body.refs == RefsOf(tx.records)
    ensures tx.marker.body.fromSequence == |Records(log)| + 1
    ensures Reaches(setup, log, tx)
  {
    hide WellFormed, Fold, ShapeFault;
    Replays(setup, log);
    var tip := TipOf(setup, log);
    var state := Fold(setup, tip.state, request.events).value;
    DraftFits(setup, log, request, tx);
    FoldCounts(setup, tip.state, request.events);
    forall i | 0 <= i < |tx.records| ensures tx.marker.body.refs[i] == RefOf(tx.records[i]) {}
    forall i, j | 0 <= i < j < |tx.records|
      ensures tx.marker.body.refs[i].eventId != tx.marker.body.refs[j].eventId
    {
      assert RequestIds(request.events)[i] != RequestIds(request.events)[j];
      assert EventsOf(tx.records)[i] == tx.records[i].body.event;
      assert EventsOf(tx.records)[j] == tx.records[j].body.event;
    }
    forall i | 0 <= i < |tx.records|
      ensures tx.marker.body.refs[i].sequence == tx.marker.body.fromSequence + i
    {
      assert EventsOf(tx.records)[i] == tx.records[i].body.event;
    }
  }

  lemma DraftFresh(setup: Setup, log: Log, request: Request, tx: Transaction)
    requires Configured(setup) && WellFormed(setup, log) && Judge(setup, log, request) == Append(tx)
    ensures FreshIdentities(log, tx) && IntentsFresh(log, tx.marker.body.intents)
  {
    hide WellFormed, Fold, ShapeFault, GenerationFits;
    DraftFits(setup, log, request, tx);
    forall i | 0 <= i < |log| ensures log[i].marker.body.commandId != tx.marker.body.commandId {
      assert Receipts(log)[i].commandId == log[i].marker.body.commandId;
    }
    forall i, k | 0 <= i < |Records(log)| && 0 <= k < |tx.records|
      ensures Records(log)[i].body.event.eventId != tx.records[k].body.event.eventId
    {
      assert EventsOf(tx.records)[k] == tx.records[k].body.event;
      assert !EventIdTaken(log, request.events[k].eventId);
    }
  }

  /** Whatever the store decides to append, every later recovery accepts: it never writes itself into a corner. */
  lemma AppendedIsRecoverable(setup: Setup, log: Log, request: Request, tx: Transaction)
    requires Configured(setup) && WellFormed(setup, log) && Judge(setup, log, request) == Append(tx)
    ensures Extends(setup, log, tx) && IntentsFresh(log, tx.marker.body.intents)
    ensures tx.marker.body.commandId == request.events[0].commandId
    ensures tx.marker.body.requestDigest == request.requestDigest
  {
    hide WellFormed, Fold, ShapeFault, Reaches, RecordFits, ValidMarker, FreshIdentities, IntentsFresh;
    DraftFits(setup, log, request, tx);
    DraftMarkerValid(setup, log, request, tx);
    DraftFresh(setup, log, request, tx);
  }

  lemma ExtensionPassesChecks(setup: Setup, log: Log, request: Request, state: State)
    requires Configured(setup) && WellFormed(setup, log) && Addressed(setup, request)
    requires StateAfter(setup, log).Ok? && Fold(setup, StateAfter(setup, log).value, request.events) == Ok(state)
    requires Extends(setup, log, Draft(TipOf(setup, log), request, state))
    requires IntentsFresh(log, request.intents)
    ensures RequestFault(setup, request).None? && IdentityFault(log, request).None?
    ensures FindCommand(Receipts(log), request.events[0].commandId) == |log|
  {
    hide WellFormed, Fold, ShapeFault, GenerationFits, IntentsFresh, Reaches;
    var tx := Draft(TipOf(setup, log), request, state);
    DraftEvents(TipOf(setup, log), request, state);
    forall k | 0 <= k < |tx.records|
      ensures tx.records[k].body.event == request.events[k]
      ensures request.events[k].commandId == request.events[0].commandId
      ensures tx.marker.body.refs[k].eventId == RequestIds(request.events)[k]
      ensures !EventIdTaken(log, request.events[k].eventId)
    {
      assert EventsOf(tx.records)[k] == tx.records[k].body.event;
      assert RecordFits(setup, log, tx, k);
    }
    forall i | 0 <= i < |log| ensures Receipts(log)[i].commandId != request.events[0].commandId {
      assert log[i].marker.body.commandId != tx.marker.body.commandId;
    }
  }

  /** A request is appended exactly when the transaction it describes may follow the log and its intents are new. */
  lemma AppendsExactlyExtensions(setup: Setup, log: Log, request: Request)
    requires Configured(setup) && WellFormed(setup, log) && Addressed(setup, request)
    ensures StateAfter(setup, log).Ok?
    ensures var replayed := Fold(setup, StateAfter(setup, log).value, request.events);
            (exists tx :: Judge(setup, log, request) == Append(tx)) <==>
              && replayed.Ok?
              && Extends(setup, log, Draft(TipOf(setup, log), request, replayed.value))
              && IntentsFresh(log, request.intents)
  {
    hide WellFormed, Fold, ShapeFault, Extends, IntentsFresh, IdentityFault, RequestFault;
    Replays(setup, log);
    var replayed := Fold(setup, StateAfter(setup, log).value, request.events);
    if Judge(setup, log, request).Append? {
      AppendedIsRecoverable(setup, log, request, Judge(setup, log, request).tx);
    } else if replayed.Ok? && Extends(setup, log, Draft(TipOf(setup, log), request, replayed.value)) &&
       IntentsFresh(log, request.intents) {
      var tx := Draft(TipOf(setup, log), request, replayed.value);
      ExtensionPassesChecks(setup, log, request, replayed.value);
      GenerationRule(setup, log, tx);
      DraftEvents(TipOf(setup, log), request, replayed.value);
      DraftIntentsValid(setup, log, request, replayed.value);
    }
  }

  lemma DraftIntentsValid(setup: Setup, log: Log, request: Request, state: State)
    requires Configured(setup) && WellFormed(setup, log) && Addressed(setup, request)
    requires StateAfter(setup, log).Ok? && Fold(setup, StateAfter(setup, log).value, request.events) == Ok(state)
    requires Extends(setup, log, Draft(TipOf(setup, log), request, state))
    ensures ValidIntents(request.intents, request.sessionId, state.sequence)
  {
    FoldCounts(setup, StateAfter(setup, log).value, request.events);
    assert ValidMarker(Draft(TipOf(setup, log), request, state).marker);
  }

  /** An ordinary fact, or, one generation up, one that quiesces the session for a handoff. */
  predicate FactFits(payload: Payload, base: int, generation: int) {
    if generation == base then
      !payload.DeactivationPrepared? && !(payload.TopicPaused? && payload.deactivation)
    else
      && generation == base + 1
      && ((payload.TopicPaused? && payload.deactivation && payload.handoffId.Some? && payload.fence == Some(generation))
          || (payload.DeactivationPrepared? && payload.fenceGeneration == generation))
  }

  /** The intents are few, of this session, not of a later sequence, and each under a name of its own. */
  predicate NewIntents(log: Log, intents: seq<Intent>, sessionId: string, sequence: int) {
    && |intents| <= 16
    && (forall i :: 0 <= i < |intents| ==> intents[i].sessionId == sessionId && 0 <= intents[i].asOfSequence <= sequence)
    && (forall i, j :: 0 <= i < j < |intents| ==> intents[i].intentId != intents[j].intentId)
    && (forall i, k, j :: 0 <= i < |intents| && 0 <= k < |log| && 0 <= j < |log[k].marker.body.intents| ==>
          log[k].marker.body.intents[j].intentId != intents[i].intentId)
  }

  /** Command, transaction and event ids that the log does not know yet. */
  predicate NewNames(log: Log, request: Request) {
    && (forall i :: 0 <= i < |log| ==>
          && request.events != [] && log[i].marker.body.commandId != request.events[0].commandId
          && log[i].marker.body.transactionId != request.transactionId)
    && (forall i, k :: 0 <= i < |Records(log)| && 0 <= k < |request.events| ==>
          Records(log)[i].body.event.eventId != request.events[k].eventId)
    && (forall j, k :: 0 <= j < k < |request.events| ==> request.events[j].eventId != request.events[k].eventId)
  }

  /**
    Every legal request on an open log is appended: of the session, of one command, well shaped, of the right generation
    for its facts, under new names, and with events that replay from the tip.
    */
  lemma LegalRequestIsAppended(setup: Setup, log: Log, request: Request)
    requires Configured(setup) && WellFormed(setup, log)
    requires log != [] ==> log[|log| - 1].marker.body.generation == setup.base.generation
    requires request.sessionId == setup.base.sessionId && request.generation >= 1
    requires request.events != [] && |request.metadata| == |request.events| && BatchFault(request.events).None?
    requires forall i :: 0 <= i < |request.events| ==>
               && request.events[i].commandId == request.events[0].commandId
               && FactFits(request.events[i].payload, setup.base.generation, request.generation)
    requires NewNames(log, request)
    requires NewIntents(log, request.intents, request.sessionId, |Records(log)| + |request.events|)
    requires StateAfter(setup, log).Ok? && Fold(setup, StateAfter(setup, log).value, request.events).Ok?
    ensures Judge(setup, log, request).Append?
  {
    hide WellFormed, Fold, BatchFault, NewIntents, Records, FindCommand, Reduce;
    Replays(setup, log);
    var before := StateAfter(setup, log).value;
    FoldCounts(setup, before, request.events);
    NewCommandNotFound(log, request);
    NewNamesPass(log, request);
    NewIntentsPass(log, request.intents, request.sessionId, |Records(log)| + |request.events|);
    FactsFit(setup, request);
  }

  lemma FactsFit(setup: Setup, request: Request)
    requires request.events != []
    requires forall i :: 0 <= i < |request.events| ==>
               FactFits(request.events[i].payload, setup.base.generation, request.generation)
    ensures GenerationFits(setup.base.generation, request.generation, request.events)
  {
    assert FactFits(request.events[0].payload, setup.base.generation, request.generation);
  }

  lemma NewCommandNotFound(log: Log, request: Request)
    requires NewNames(log, request) && request.events != []
    ensures FindCommand(Receipts(log), request.events[0].commandId) == |log|
  {
    hide Records;
    forall i | 0 <= i < |log|
      ensures Receipts(log)[i].commandId != request.events[0].commandId
    {
      assert Receipts(log)[i] == ReceiptOf(log[i].marker);
    }
  }

  lemma NewNamesPass(log: Log, request: Request)
    requires NewNames(log, request)
    ensures DistinctStrings(RequestIds(request.events))
    ensures forall i :: 0 <= i < |request.events| ==> !EventIdTaken(log, request.events[i].eventId)
    ensures forall i :: 0 <= i < |log| ==> log[i].marker.body.transactionId != request.transactionId
  {
  }

  lemma NewIntentsPass(log: Log, intents: seq<Intent>, sessionId: string, sequence: int)
    requires NewIntents(log, intents, sessionId, sequence)
    ensures IntentsFresh(log, intents) && ValidIntents(intents, sessionId, sequence)
  {
  }

  // ---------------------------------------------------------------- every run of commits, crashes and retries

  /** One attempt to commit; `published` tells whether it lived long enough to publish its marker. */
  datatype Attempt = Attempt(request: Request, published: bool)

  function AfterAttempt(setup: Setup, log: Log, attempt: Attempt): Log
    requires Configured(setup) && WellFormed(setup, log)
  {
    var verdict := Judge(setup, log, attempt.request);
    if verdict.Append? && attempt.published then log + [verdict.tx] else log
  }

  lemma AttemptKeepsWellFormed(setup: Setup, log: Log, attempt: Attempt)
    requires Configured(setup) && WellFormed(setup, log)
    ensures WellFormed(setup, AfterAttempt(setup, log, attempt))
    ensures log <= AfterAttempt(setup, log, attempt)
  {
    hide Extends, WellFormed;
    var verdict := Judge(setup, log, attempt.request);
    if verdict.Append? {
      AppendedIsRecoverable(setup, log, attempt.request, verdict.tx);
      ExtendWellFormed(setup, log, verdict.tx);
    }
  }

  function AfterRun(setup: Setup, log: Log, run: seq<Attempt>): (after: Log)
    requires Configured(setup) && WellFormed(setup, log)
    ensures WellFormed(setup, after) && log <= after
    decreases run
  {
    if run == [] then log
    else
      AttemptKeepsWellFormed(setup, log, run[0]);
      AfterRun(setup, AfterAttempt(setup, log, run[0]), run[1..])
  }

  lemma RunNothing(setup: Setup, log: Log)
    requires Configured(setup) && WellFormed(setup, log)
    ensures AfterRun(setup, log, []) == log
  {
  }

  lemma {:induction false} RunOneMore(setup: Setup, log: Log, run: seq<Attempt>, attempt: Attempt)
    requires Configured(setup) && WellFormed(setup, log)
    ensures AfterRun(setup, log, run + [attempt]) == AfterAttempt(setup, AfterRun(setup, log, run), attempt)
    decreases run
  {
    hide WellFormed, Extends, Judge;
    if run == [] {
      var next := AfterAttempt(setup, log, attempt);
      AttemptKeepsWellFormed(setup, log, attempt);
      assert ([] + [attempt])[1..] == [];
      assert AfterRun(setup, next, []) == next;
    } else {
      AttemptKeepsWellFormed(setup, log, run[0]);
      assert (run + [attempt])[1..] == run[1..] + [attempt];
      RunOneMore(setup, AfterAttempt(setup, log, run[0]), run[1..], attempt);
    }
  }

  predicate IntentsDistinct(log: Log) {
    forall i, j, k, l ::
      && 0 <= i <= k < |log| && 0 <= j < |log[i].marker.body.intents| && 0 <= l < |log[k].marker.body.intents|
      && (i < k || j < l) ==>
        log[i].marker.body.intents[j].intentId != log[k].marker.body.intents[l].intentId
  }

  /** In every run no effect intent is ever committed twice, within a transaction or across them. */
  lemma {:induction false} RunKeepsIntentsDistinct(setup: Setup, log: Log, run: seq<Attempt>)
    requires Configured(setup) && WellFormed(setup, log) && IntentsDistinct(log)
    ensures IntentsDistinct(AfterRun(setup, log, run))
    decreases run
  {
    hide Extends, WellFormed;
    if run != [] {
      var next := AfterAttempt(setup, log, run[0]);
      AttemptKeepsWellFormed(setup, log, run[0]);
      var verdict := Judge(setup, log, run[0].request);
      if verdict.Append? { AppendedIsRecoverable(setup, log, run[0].request, verdict.tx); }
      RunKeepsIntentsDistinct(setup, next, run[1..]);
    }
  }

  /** In every run a command is committed at most once, and no two commits share any identity. */
  lemma RunCommitsOnce(setup: Setup, run: seq<Attempt>)
    requires Configured(setup)
    ensures DistinctIdentities(Receipts(AfterRun(setup, [], run)))
    ensures Tiles(Receipts(AfterRun(setup, [], run)), |Records(AfterRun(setup, [], run))|)
    ensures IntentsDistinct(AfterRun(setup, [], run))
  {
    hide Extends, WellFormed, AfterRun;
    assert WellFormed(setup, []) by { EmptyIsWellFormed(setup); }
    IdentitiesDistinct(setup, AfterRun(setup, [], run));
    ReceiptsTile(setup, AfterRun(setup, [], run));
    RunKeepsIntentsDistinct(setup, [], run);
  }

  lemma EmptyIsWellFormed(setup: Setup)
    ensures WellFormed(setup, [])
  {
  }

  lemma ReplayInRange(setup: Setup, log: Log, request: Request, i: nat)
    requires Configured(setup) && WellFormed(setup, log) && Judge(setup, log, request) == Replay(i)
    ensures i < |log| && log[i].marker.body.commandId == request.events[0].commandId
    ensures log[i].marker.body.requestDigest == request.requestDigest
  {
    hide WellFormed, Fold, IdentityFault, GenerationFits;
    assert i < |log| ==> Receipts(log)[i] == ReceiptOf(log[i].marker);
  }

  lemma FoundWhereCommitted(setup: Setup, log: Log, i: nat)
    requires WellFormed(setup, log) && i < |log|
    ensures FindCommand(Receipts(log), log[i].marker.body.commandId) == i
  {
    hide WellFormed, Records;
    assert Receipts(log)[i].commandId == log[i].marker.body.commandId;
    var at := FindCommand(Receipts(log), log[i].marker.body.commandId);
    if at < i { TwoReceiptsDiffer(setup, log, at, i); }
  }

  lemma CommittedCommandReplays(setup: Setup, log: Log, i: nat, request: Request)
    requires Configured(setup) && WellFormed(setup, log) && i < |log|
    requires RequestFault(setup, request).None? && request.events[0].commandId == log[i].marker.body.commandId
    ensures Judge(setup, log, request) ==
            if request.requestDigest == log[i].marker.body.requestDigest then Replay(i) else Refuse(IdempotencyConflict)
  {
    hide WellFormed, Fold, IdentityFault, Records, GenerationFits, FindCommand;
    FoundWhereCommitted(setup, log, i);
    assert Receipts(log)[i] == ReceiptOf(log[i].marker);
  }

  /** Once committed, a command is answered by its own receipt for ever, and by nothing under another body. */
  lemma RetryReplaysForever(setup: Setup, log: Log, run: seq<Attempt>, i: nat, request: Request)
    requires Configured(setup) && WellFormed(setup, log) && i < |log|
    requires RequestFault(setup, request).None? && request.events[0].commandId == log[i].marker.body.commandId
    ensures var later := AfterRun(setup, log, run);
            && i < |later| && later[i] == log[i]
            && Judge(setup, later, request) ==
               if request.requestDigest == log[i].marker.body.requestDigest then Replay(i) else Refuse(IdempotencyConflict)
  {
    hide WellFormed, Judge, AfterRun, RequestFault;
    var later := AfterRun(setup, log, run);
    assert later[i] == log[..|log|][i];
    CommittedCommandReplays(setup, later, i, request);
  }

  /**
    Once a log is fenced no run of commits, crashes and retries adds anything to it: a request is answered by an earlier
    receipt or refused, and a request that nothing else is wrong with is refused because the session is deactivated.
    */
  lemma {:induction false} FencedLogOnlyReplays(setup: Setup, log: Log, run: seq<Attempt>, request: Request)
    requires Configured(setup) && WellFormed(setup, log)
    requires log != [] && Last(log).marker.body.generation != setup.base.generation
    ensures AfterRun(setup, log, run) == log
    ensures !Judge(setup, log, request).Append?
    ensures Judge(setup, log, request).Replay? <==>
              && RequestFault(setup, request).None?
              && exists i :: 0 <= i < |log| && log[i].marker.body.commandId == request.events[0].commandId
                             && log[i].marker.body.requestDigest == request.requestDigest
    ensures RequestFault(setup, request).None? && IdentityFault(log, request).None?
            && (forall i :: 0 <= i < |log| ==> log[i].marker.body.commandId != request.events[0].commandId) ==>
              Judge(setup, log, request) == Refuse(SessionDeactivated)
    decreases run
  {
    hide Extends, WellFormed, RequestFault, IdentityFault, Fold, GenerationFits, FindCommand;
    NothingAppended(setup, log, request);
    FencedAnswer(setup, log, request);
    if run != [] {
      NothingAppended(setup, log, run[0].request);
      FencedLogOnlyReplays(setup, log, run[1..], request);
    }
  }

  lemma NothingAppended(setup: Setup, log: Log, request: Request)
    requires Configured(setup) && WellFormed(setup, log)
    requires log != [] && Last(log).marker.body.generation != setup.base.generation
    ensures !Judge(setup, log, request).Append?
  {
    hide WellFormed, Judge;
    var verdict := Judge(setup, log, request);
    if verdict.Append? {
      AppendedIsRecoverable(setup, log, request, verdict.tx);
      FencedLogIsFinal(setup, log, verdict.tx);
    }
  }

  lemma FencedAnswer(setup: Setup, log: Log, request: Request)
    requires Configured(setup) && WellFormed(setup, log)
    requires log != [] && Last(log).marker.body.generation != setup.base.generation
    ensures Judge(setup, log, request).Replay? <==>
              && RequestFault(setup, request).None?
              && exists i :: 0 <= i < |log| && log[i].marker.body.commandId == request.events[0].commandId
                             && log[i].marker.body.requestDigest == request.requestDigest
    ensures RequestFault(setup, request).None? && IdentityFault(log, request).None?
            && (forall i :: 0 <= i < |log| ==> log[i].marker.body.commandId != request.events[0].commandId) ==>
              Judge(setup, log, request) == Refuse(SessionDeactivated)
  {
    hide WellFormed, RequestFault, IdentityFault, Fold, GenerationFits;
    Replays(setup, log);
    if RequestFault(setup, request).None? {
      Requested(setup, request);
      var at := FindCommand(Receipts(log), request.events[0].commandId);
      assert at < |log| ==> Receipts(log)[at] == ReceiptOf(log[at].marker);
      forall i | 0 <= i < |log| && log[i].marker.body.commandId == request.events[0].commandId
        ensures at == i
      {
        FoundWhereCommitted(setup, log, i);
      }
    }
  }

  lemma Requested(setup: Setup, request: Request)
    requires RequestFault(setup, request).None?
    ensures request.events != []
  {
  }
}
