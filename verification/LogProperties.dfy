/** What every well-formed dialogue log guarantees, whichever run of commits and crashes wrote it. */
module LogProperties {
  import opened Wrappers
  import opened EventLog

  predicate DistinctStrings(items: seq<string>) {
    forall i, j :: 0 <= i < j < |items| ==> items[i] != items[j]
  }

  /** A receipt starts right after the one before it and names one event per sequence it covers. */
  predicate TileAt(receipts: seq<Receipt>, i: nat)
    requires i < |receipts|
  {
    && receipts[i].fromSequence == (if i == 0 then 1 else receipts[i - 1].toSequence + 1)
    && receipts[i].fromSequence <= receipts[i].toSequence
    && |receipts[i].eventIds| == receipts[i].toSequence - receipts[i].fromSequence + 1
    && DistinctStrings(receipts[i].eventIds)
  }

  /** Receipts cover the sequences 1..total without gap or overlap. */
  predicate Tiles(receipts: seq<Receipt>, total: nat) {
    && (forall i :: 0 <= i < |receipts| ==> TileAt(receipts, i))
    && total == (if receipts == [] then 0 else receipts[|receipts| - 1].toSequence)
  }

  /** Two receipts that share a command, a transaction, a marker or an event. */
  predicate Clash(first: Receipt, second: Receipt) {
    || first.commandId == second.commandId
    || first.transactionId == second.transactionId
    || first.markerHash == second.markerHash
    || exists id :: id in first.eventIds && id in second.eventIds
  }

  predicate DistinctIdentities(receipts: seq<Receipt>) {
    forall i, j :: 0 <= i < j < |receipts| ==> !Clash(receipts[i], receipts[j])
  }

  /** The records of a prefix are a prefix of the records. */
  lemma {:induction false} RecordsPrefix(log: Log, k: nat)
    requires k <= |log|
    ensures |Records(log[..k])| <= |Records(log)|
    ensures Records(log)[..|Records(log[..k])|] == Records(log[..k])
    decreases |log|
  {
    if k == |log| {
      assert log[..k] == log;
    } else {
      RecordsPrefix(Init(log), k);
      assert Init(log)[..k] == log[..k];
    }
  }

  /** The k-th transaction's records sit right after those of the prefix before it. */
  lemma {:induction false} RecordsAt(log: Log, k: nat)
    requires k < |log|
    ensures |Records(log[..k])| + |log[k].records| <= |Records(log)|
    ensures Records(log)[|Records(log[..k])|..|Records(log[..k])| + |log[k].records|] == log[k].records
  {
    RecordsPrefix(log, k + 1);
    RecordsAppend(log[..k], log[k]);
    assert log[..k] + [log[k]] == log[..k + 1];
  }

  /** A transaction's receipt names its events, in order, at the sequences right after the log. */
  lemma ReceiptNames(setup: Setup, log: Log, tx: Transaction)
    requires Extends(setup, log, tx)
    ensures tx.records != []
    ensures ReceiptOf(tx.marker).fromSequence == |Records(log)| + 1
    ensures ReceiptOf(tx.marker).toSequence == |Records(log)| + |tx.records|
    ensures |ReceiptOf(tx.marker).eventIds| == |tx.records|
    ensures forall k :: 0 <= k < |tx.records| ==>
              ReceiptOf(tx.marker).eventIds[k] == tx.records[k].body.event.eventId
    ensures DistinctStrings(ReceiptOf(tx.marker).eventIds)
  {
    assert tx.marker.body.refs == RefsOf(tx.records);
  }

  /** Where the i-th transaction of a log lies. */
  lemma ReceiptAt(setup: Setup, log: Log, i: nat)
    requires WellFormed(setup, log) && i < |log|
    ensures log[i].records != []
    ensures |Records(log[..i + 1])| == |Records(log[..i])| + |log[i].records|
    ensures Receipts(log)[i].fromSequence == |Records(log[..i])| + 1
    ensures Receipts(log)[i].toSequence == |Records(log[..i + 1])|
    ensures |Receipts(log)[i].eventIds| == |log[i].records|
    ensures forall k :: 0 <= k < |log[i].records| ==>
              Receipts(log)[i].eventIds[k] == log[i].records[k].body.event.eventId
    ensures DistinctStrings(Receipts(log)[i].eventIds)
  {
    hide Fold, Extends, WellFormed;
    PrefixWellFormed(setup, log, i);
    ReceiptNames(setup, log[..i], log[i]);
    RecordsAppend(log[..i], log[i]);
    assert log[..i] + [log[i]] == log[..i + 1];
  }

  /** The receipts of a well-formed log account for its whole history, each event by exactly one of them. */
  lemma {:induction false} ReceiptsTile(setup: Setup, log: Log)
    requires WellFormed(setup, log)
    ensures Tiles(Receipts(log), |Records(log)|)
  {
    hide WellFormed, Records;
    forall i | 0 <= i < |log| ensures TileAt(Receipts(log), i) {
      ReceiptAt(setup, log, i);
      if i == 0 { EmptyRecords(log); } else { ReceiptAt(setup, log, i - 1); }
    }
    if log == [] {
      EmptyRecords(log);
    } else {
      ReceiptAt(setup, log, |log| - 1);
      assert log[..|log|] == log;
    }
  }

  lemma EmptyRecords(log: Log)
    ensures Records(log[..0]) == []
    ensures log == [] ==> Records(log) == []
  {
  }

  /** No command, transaction, marker or event of a well-formed log occurs in two receipts. */
  lemma {:induction false} IdentitiesDistinct(setup: Setup, log: Log)
    requires WellFormed(setup, log)
    ensures DistinctIdentities(Receipts(log))
  {
    hide WellFormed, Records, Clash;
    forall i, j | 0 <= i < j < |log| ensures !Clash(Receipts(log)[i], Receipts(log)[j]) {
      TwoReceiptsDiffer(setup, log, i, j);
    }
  }

  lemma TwoReceiptsDiffer(setup: Setup, log: Log, i: nat, j: nat)
    requires WellFormed(setup, log) && i < j < |log|
    ensures !Clash(Receipts(log)[i], Receipts(log)[j])
  {
    hide Fold, Extends, WellFormed, Records;
    PrefixWellFormed(setup, log, i);
    PrefixWellFormed(setup, log, j);
    ReceiptAt(setup, log, i);
    ReceiptAt(setup, log, j);
    Freshness(setup, log[..i], log[i]);
    Freshness(setup, log[..j], log[j]);
    assert log[..j][i] == log[i];
    EarlierRecords(log, i, j);
    forall k, l | 0 <= k < |log[i].records| && 0 <= l < |log[j].records|
      ensures log[i].records[k].body.event.eventId != log[j].records[l].body.event.eventId
    {
      var at := |Records(log[..i])|;
      assert Records(log[..j])[at..at + |log[i].records|][k] == log[i].records[k];
    }
  }

  lemma Freshness(setup: Setup, log: Log, tx: Transaction)
    requires Extends(setup, log, tx)
    ensures FreshIdentities(log, tx)
    ensures tx.marker.hash == MarkerDigest(tx.marker.body)
    ensures tx.marker.body.fromSequence == |Records(log)| + 1
  {
    hide Fold;
  }

  lemma EarlierRecords(log: Log, i: nat, j: nat)
    requires i < j <= |log|
    ensures |Records(log[..i])| + |log[i].records| <= |Records(log[..j])|
    ensures Records(log[..j])[|Records(log[..i])|..|Records(log[..i])| + |log[i].records|] == log[i].records
  {
    RecordsAt(log[..j], i);
    assert log[..j][..i] == log[..i];
  }

  /** The generation fence is terminal: only the last transaction can carry base + 1, and it only quiesces. */
  lemma {:induction false} FenceIsTerminal(setup: Setup, log: Log, k: nat)
    requires WellFormed(setup, log) && k < |log|
    ensures k < |log| - 1 ==> log[k].marker.body.generation == setup.base.generation
    ensures log[k].marker.body.generation == setup.base.generation ==>
              forall i :: 0 <= i < |log[k].records| ==>
                var payload := log[k].records[i].body.event.payload;
                !payload.DeactivationPrepared? && !(payload.TopicPaused? && payload.deactivation)
    ensures log[k].marker.body.generation != setup.base.generation ==>
              && log[k].marker.body.generation == setup.base.generation + 1
              && forall i :: 0 <= i < |log[k].records| ==>
                   var payload := log[k].records[i].body.event.payload;
                   || (payload.DeactivationPrepared? && payload.fenceGeneration == setup.base.generation + 1)
                   || (payload.TopicPaused? && payload.deactivation && payload.handoffId.Some?
                       && payload.fence == Some(setup.base.generation + 1))
  {
    hide Extends, WellFormed;
    PrefixWellFormed(setup, log, k);
    GenerationRule(setup, log[..k], log[k]);
    forall i | 0 <= i < |log[k].records| ensures EventsOf(log[k].records)[i] == log[k].records[i].body.event {}
    if k < |log| - 1 {
      PrefixWellFormed(setup, log, k + 1);
      GenerationRule(setup, log[..k + 1], log[k + 1]);
      assert Last(log[..k + 1]) == log[k];
    }
  }

  /** Every committed effect intent is the session's own and about what has happened by the end of its transaction. */
  lemma IntentsAreOwn(setup: Setup, log: Log, k: nat, i: nat)
    requires WellFormed(setup, log) && k < |log| && i < |log[k].marker.body.intents|
    ensures var intent := log[k].marker.body.intents[i];
            && intent.sessionId == setup.base.sessionId && |log[k].marker.body.intents| <= 16
            && 0 <= intent.asOfSequence <= log[k].marker.body.fromSequence + |log[k].marker.body.refs| - 1
  {
    hide Fold, WellShaped, GenerationFits, FreshIdentities, WellFormed, RecordFits;
    PrefixWellFormed(setup, log, k);
  }

  lemma GenerationRule(setup: Setup, log: Log, tx: Transaction)
    requires Extends(setup, log, tx)
    ensures LastGeneration(setup, log) == setup.base.generation
    ensures GenerationFits(setup.base.generation, tx.marker.body.generation, EventsOf(tx.records))
    ensures WellShaped(EventsOf(tx.records))
  {
    hide Fold, WellShaped, GenerationFits;
  }

  /** After the fence nothing extends the log, whatever it is. */
  lemma FencedLogIsFinal(setup: Setup, log: Log, tx: Transaction)
    requires log != [] && Last(log).marker.body.generation != setup.base.generation
    ensures !Extends(setup, log, tx)
  {
  }

  /** A reported failure is the first of exactly two facts, and the second settles it under the same command. */
  lemma {:induction false} FailureIsSettledAtOnce(setup: Setup, log: Log, k: nat, i: nat)
    requires WellFormed(setup, log) && k < |log| && i < |log[k].records|
    requires log[k].records[i].body.event.payload.WorkFailed?
    ensures i == 0 && |log[k].records| == 2
    ensures var failed, settled := log[k].records[0].body.event.payload, log[k].records[1].body.event.payload;
            && (settled.WorkRequeued? || settled.WorkDeadLettered?)
            && settled.failedWorkId == failed.workId && settled.failedTrigger == failed.trigger
            && settled.failedAttempt == failed.attempt && settled.failure == failed.failure
    ensures log[k].records[0].body.event.commandId == log[k].records[1].body.event.commandId
    ensures var at := |Records(log[..k])|;
            at + 1 < |History(log)| && History(log)[at] == log[k].records[0].body.event &&
            History(log)[at + 1] == log[k].records[1].body.event
  {
    hide Extends, WellFormed, Records, ShapeFault;
    PrefixWellFormed(setup, log, k);
    GenerationRule(setup, log[..k], log[k]);
    var events := EventsOf(log[k].records);
    assert IsFailureFact(events[i].payload);
    RecordsAt(log, k);
    var at := |Records(log[..k])|;
    assert Records(log)[at..at + 2][0] == log[k].records[0];
    assert Records(log)[at..at + 2][1] == log[k].records[1];
  }

  /** Equal last marker hashes force equal histories: the chain binds every earlier event and marker. */
  lemma {:induction false} MarkerHashPinsHistory(setup: Setup, log: Log, other: Setup, twin: Log)
    requires WellFormed(setup, log) && WellFormed(other, twin)
    requires LastMarkerHash(log) == LastMarkerHash(twin)
    ensures log == twin
    decreases |log|
  {
    hide Extends;
    if log == [] || twin == [] {
      assert log == [] && twin == [];
    } else {
      HashesBind(setup, Init(log), Last(log));
      HashesBind(other, Init(twin), Last(twin));
      SameReferences(Last(log).records, Last(twin).records);
      MarkerHashPinsHistory(setup, Init(log), other, Init(twin));
      assert log == Init(log) + [Last(log)] && twin == Init(twin) + [Last(twin)];
    }
  }

  lemma HashesBind(setup: Setup, log: Log, tx: Transaction)
    requires Extends(setup, log, tx)
    ensures tx.marker.hash == MarkerDigest(tx.marker.body)
    ensures tx.marker.body.refs == RefsOf(tx.records) && tx.marker.body.previous == LastMarkerHash(log)
    ensures forall k :: 0 <= k < |tx.records| ==> tx.records[k].hash == EventDigest(tx.records[k].body)
  {
    hide Fold, WellShaped, GenerationFits, FreshIdentities;
    forall k | 0 <= k < |tx.records| ensures tx.records[k].hash == EventDigest(tx.records[k].body) {
      assert RecordFits(setup, log, tx, k);
    }
  }

  lemma SameReferences(mine: seq<StoredEvent>, theirs: seq<StoredEvent>)
    requires RefsOf(mine) == RefsOf(theirs)
    requires forall k :: 0 <= k < |mine| ==> mine[k].hash == EventDigest(mine[k].body)
    requires forall k :: 0 <= k < |theirs| ==> theirs[k].hash == EventDigest(theirs[k].body)
    ensures mine == theirs
  {
    assert |RefsOf(mine)| == |RefsOf(theirs)|;
    forall k | 0 <= k < |mine| ensures mine[k] == theirs[k] {
      assert RefsOf(mine)[k] == RefOf(mine[k]) && RefsOf(theirs)[k] == RefOf(theirs[k]);
    }
  }
}
