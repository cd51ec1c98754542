/**
 The durable event store of one Session: events are published first, one marker commits them, and
 recovery trusts markers alone.  Every durable step may be the last one a process takes.
 */
module EventStore {
  import opened Wrappers
  import opened EventLog
  import opened LogProperties
  import opened CommitPlan
  import opened StoredLog
  import opened ReplayChecks

  /** A receipt clashes with an earlier one exactly when one of its identities has been seen. */
  lemma SeenMeansClash(
    receipts: seq<Receipt>, i: nat, commands: set<string>, transactions: set<string>, markers: set<Digest>,
    ids: set<string>)
    requires i < |receipts|
    requires commands == set j | 0 <= j < i :: receipts[j].commandId
    requires transactions == set j | 0 <= j < i :: receipts[j].transactionId
    requires markers == set j | 0 <= j < i :: receipts[j].markerHash
    requires forall id :: id in ids <==> exists j :: 0 <= j < i && id in receipts[j].eventIds
    ensures (exists j :: 0 <= j < i && Clash(receipts[j], receipts[i])) <==>
              || receipts[i].commandId in commands || receipts[i].transactionId in transactions
              || receipts[i].markerHash in markers || exists id :: id in receipts[i].eventIds && id in ids
  {
    if id :| id in receipts[i].eventIds && id in ids {
      var j :| 0 <= j < i && id in receipts[j].eventIds;
      assert Clash(receipts[j], receipts[i]);
    }
  }

  /** The receipt-by-receipt audit of a snapshot, with its four sets of identities already seen. */
  method ValidateReceipts(receipts: seq<Receipt>, through: nat) returns (valid: bool)
    ensures valid <==> SnapshotValid(receipts, through)
  {
    var expected := 1;
    var commands, transactions, markers, ids := {}, {}, {}, {};
    for i := 0 to |receipts|
      invariant commands == set j | 0 <= j < i :: receipts[j].commandId
      invariant transactions == set j | 0 <= j < i :: receipts[j].transactionId
      invariant markers == set j | 0 <= j < i :: receipts[j].markerHash
      invariant forall id :: id in ids <==> exists j :: 0 <= j < i && id in receipts[j].eventIds
      invariant expected == if i == 0 then 1 else receipts[i - 1].toSequence + 1
      invariant forall j :: 0 <= j < i ==> TileAt(receipts, j)
      invariant forall j, k :: 0 <= j < k < i ==> !Clash(receipts[j], receipts[k])
    {
      var receipt := receipts[i];
      if receipt.fromSequence != expected || receipt.toSequence < receipt.fromSequence
         || |receipt.eventIds| != receipt.toSequence - receipt.fromSequence + 1
         || !DistinctStrings(receipt.eventIds)
      {
        assert !TileAt(receipts, i);
        return false;
      }
      SeenMeansClash(receipts, i, commands, transactions, markers, ids);
      if receipt.commandId in commands || receipt.transactionId in transactions
         || receipt.markerHash in markers || exists id :: id in receipt.eventIds && id in ids
      {
        return false;
      }
      expected := receipt.toSequence + 1;
      commands, transactions := commands + {receipt.commandId}, transactions + {receipt.transactionId};
      markers, ids := markers + {receipt.markerHash}, ids + set id | id in receipt.eventIds;
    }
    valid := expected - 1 == through;
  }

  /** The batch audit, event by event and then as a whole. */
  method ValidateBatchShape(events: seq<Event>) returns (fault: Option<Error>)
    ensures fault == BatchFault(events)
    ensures fault.None? <==> WellShaped(events)
  {
    for i := 0 to |events|
      invariant FirstShapeFault(events, 0) == FirstShapeFault(events, i)
    {
      if ShapeFault(events, i).Some? { return ShapeFault(events, i); }
    }
    fault := if FailurePaired(events) then None else Some(InvalidWorkFailureBatch);
  }

  datatype Progress = Done | Died

  datatype Recovery = Recovered(tip: Tip) | Corrupt(error: Error) | Interrupted

  datatype Outcome =
    | Committed(receipt: Receipt, state: State, events: seq<Event>, replayed: bool)
    | Refused(error: Error)
    | Crashed

  /** The three directories of one Session: immutable events and markers, and the quarantine. */
  class SessionDirectory {
    var events: EventFiles
    var markers: MarkerFiles
    var quarantine: set<StoredEvent>
    /** The committed log these files hold. */
    ghost var committed: Log

    constructor ()
      ensures events == map[] && markers == map[] && quarantine == {} && committed == []
    {
      events, markers, quarantine, committed := map[], map[], {}, [];
    }

    ghost predicate Holds(setup: Setup)
      reads this
    {
      Configured(setup) && WellFormed(setup, committed) && StoresExactly(events, markers, committed)
    }

    /** Every stored record the directories still hold, committed or not. */
    ghost function Kept(): set<StoredEvent>
      reads this
    {
      events.Values + quarantine
    }

    method ReadEvent(sequence: int) returns (r: Result<StoredEvent, Error>)
      ensures r.Ok? <==> sequence in events && ValidEvent(events[sequence])
      ensures r.Ok? ==> r.value == events[sequence]
    {
      if sequence !in events { return Err(FileNotFound); }
      r := if ValidEvent(events[sequence]) then Ok(events[sequence]) else Err(InvalidStoredEvent);
    }

    method ReadMarker(first: int) returns (r: Result<Marker, Error>)
      ensures r.Ok? <==> first in markers && ValidMarker(markers[first])
      ensures r.Ok? ==> r.value == markers[first]
      ensures r == Err(FileNotFound) <==> first !in markers
    {
      if first !in markers { return Err(FileNotFound); }
      r := if ValidMarker(markers[first]) then Ok(markers[first]) else Err(InvalidTransactionMarker);
    }
  }

  /** One process's handle on a Session's directories, with the tip it has replayed so far. */
  class TransactionLog {
    const setup: Setup
    const dir: SessionDirectory
    var tip: Tip
    /** How many more durable steps this process takes before it dies. */
    var life: nat
    /** The committed prefix the tip stands for. */
    ghost var seen: Log

    ghost predicate Valid()
      reads this, dir
    {
      && dir.Holds(setup) && WellFormed(setup, seen) && seen <= dir.committed
      && StateAfter(setup, seen).Ok? && tip == TipOf(setup, seen)
    }

    constructor (setup: Setup, dir: SessionDirectory, life: nat)
      requires dir.Holds(setup)
      ensures this.setup == setup && this.dir == dir && this.life == life
      ensures Valid() && seen == []
    {
      this.setup, this.dir, this.life, this.seen := setup, dir, life, [];
      tip := Tip(setup.base, None, None, [], setup.base.generation);
      new;
      EmptyIsStored(setup, dir.events, dir.markers);
    }

    /** One durable step, unless the process dies first. */
    method Step() returns (progress: Progress)
      modifies this`life
      ensures progress.Done? <==> old(life) > 0
      ensures life == if old(life) > 0 then old(life) - 1 else 0
    {
      if life == 0 { return Died; }
      life := life - 1;
      progress := Done;
    }

    /** Reads the records of a marker, checking each against its reference and the hash chain. */
    method ReadRecords(at: Tip, marker: Marker, ghost log: Log) returns (r: Result<seq<StoredEvent>, Error>)
      requires at.lastEventHash == LastEventHash(log)
      ensures r.Ok? ==>
                && |r.value| == |marker.body.refs|
                && forall k :: 0 <= k < |r.value| ==> Links(setup, dir.events, log, marker, r.value, k)
      ensures r.Ok? ==> Forced(setup, dir.events, log, marker, r.value)
      ensures r.Err? ==> forall tx :: !Applicable(setup, dir.events, log, marker, tx)
    {
      var refs := marker.body.refs;
      var records: seq<StoredEvent> := [];
      var previous := at.lastEventHash;
      for i := 0 to |refs|
        invariant |records| == i && previous == PreviousHash(log, records)
        invariant forall k :: 0 <= k < i ==> Links(setup, dir.events, log, marker, records, k)
        invariant Forced(setup, dir.events, log, marker, records)
      {
        hide Extends, WellFormed, Applicable, Forced;
        NextRecordForced(setup, dir.events, log, marker, records);
        var read := dir.ReadEvent(refs[i].sequence);
        if read.Err? { return Err(read.error); }
        var record := read.value;
        if RefOf(record) != refs[i] { return Err(TransactionEventMismatch); }
        if record.body.sessionId != setup.base.sessionId || record.body.previous != previous
           || record.body.generation != marker.body.generation
           || record.body.event.commandId != marker.body.commandId
        {
          return Err(EventChainMismatch);
        }
        forall k | 0 <= k < i ensures Links(setup, dir.events, log, marker, records + [record], k) {
          LinksPrefix(setup, dir.events, log, marker, records, record, k);
        }
        records := records + [record];
        previous := Some(record.hash);
      }
      r := Ok(records);
    }

    /** Replays one marker on a tip: the only way a tip ever advances. */
    method ApplyMarker(at: Tip, marker: Marker, ghost log: Log)
      returns (r: Result<Tip, Error>, ghost tx: Transaction)
      requires Configured(setup) && WellFormed(setup, log) && ValidMarker(marker)
      requires StateAfter(setup, log).Ok? && at == TipOf(setup, log)
      ensures r.Ok? ==> Applicable(setup, dir.events, log, marker, tx)
      ensures r.Ok? ==> StateAfter(setup, log + [tx]).Ok? && r.value == TipOf(setup, log + [tx])
      ensures r.Err? ==> forall other :: !Applicable(setup, dir.events, log, marker, other)
    {
      hide Extends, WellFormed, Records, Forced, Links, GenerationFits, WellShaped, Reaches;
      tx := Transaction(marker, []);
      Replays(setup, log);
      if marker.body.sessionId != setup.base.sessionId || marker.body.fromSequence != at.state.sequence + 1
         || marker.body.previous != at.lastMarkerHash || at.lastGeneration != setup.base.generation
      {
        ChainNeeded(setup, dir.events, log, marker);
        return Err(TransactionChainMismatch), tx;
      }
      var read := ReadRecords(at, marker, log);
      if read.Err? { return Err(read.error), tx; }
      var records := read.value;
      tx := Transaction(marker, records);
      OnlyCandidate(setup, dir.events, log, tx);
      ChecksDecide(setup, dir.events, log, tx);
      var shape := ValidateBatchShape(EventsOf(records));
      if shape.Some? { return Err(shape.value), tx; }
      var state := at.state;
      var events := EventsOf(records);
      for i := 0 to |events|
        invariant Fold(setup, at.state, events) == Fold(setup, state, events[i..])
      {
        var next := Reduce(setup, state, events[i]);
        assert events[i..][1..] == events[i + 1..];
        if next.Err? { return Err(next.error), tx; }
        state := next.value;
      }
      assert events[|events|..] == [];
      if !GenerationFits(setup.base.generation, marker.body.generation, events) {
        return Err(RegistryGenerationMismatch), tx;
      }
      var receipts := at.receipts + [ReceiptOf(marker)];
      var valid := ValidateReceipts(receipts, state.sequence);
      if !valid { return Err(InvalidStateSnapshot), tx; }
      if marker.body.stateDigest != StateDigest(state) { return Err(TransactionStateMismatch), tx; }
      AppliedTip(setup, log, tx);
      TipStep(setup, log, tx);
      r := Ok(Tip(state, Some(records[|records| - 1].hash), Some(marker.hash), receipts, marker.body.generation));
    }

    /** Replays markers from the first sequence on until one is missing. */
    method ReplayMarkers()
      returns (r: Result<Tip, Error>, usedMarkers: set<int>, usedEvents: set<int>, ghost log: Log)
      requires Configured(setup)
      ensures r.Ok? ==>
                && WellFormed(setup, log) && Stores(dir.events, dir.markers, log)
                && StateAfter(setup, log).Ok? && r.value == TipOf(setup, log)
                && usedMarkers == MarkerNames(log)
                && (forall name :: name in usedEvents <==> CommittedName(log, name))
                && usedEvents <= dir.events.Keys
                && |Records(log)| + 1 !in dir.markers
      ensures r.Err? ==> forall other :: WellFormed(setup, other) ==> !StoresExactly(dir.events, dir.markers, other)
    {
      hide Extends, WellFormed, Records, Stores;
      log := [];
      EmptyIsStored(setup, dir.events, dir.markers);
      Replays(setup, log);
      var current := Tip(setup.base, None, None, [], setup.base.generation);
      usedMarkers, usedEvents := {}, {};
      while true
        invariant WellFormed(setup, log) && Stores(dir.events, dir.markers, log)
        invariant StateAfter(setup, log).Ok? && current == TipOf(setup, log)
        invariant usedMarkers == MarkerNames(log)
        invariant forall name :: name in usedEvents <==> CommittedName(log, name)
        invariant usedMarkers <= dir.markers.Keys && usedEvents <= dir.events.Keys
        decreases dir.markers.Keys - usedMarkers
      {
        Replays(setup, log);
        NothingAboveTip(setup, log);
        var first := current.state.sequence + 1;
        var read := dir.ReadMarker(first);
        if read == Err(FileNotFound) { break; }
        if read.Err? {
          StuckMeansCorrupt(setup, dir.events, dir.markers, log);
          return Err(read.error), usedMarkers, usedEvents, log;
        }
        var applied, tx := ApplyMarker(current, read.value, log);
        if applied.Err? {
          StuckMeansCorrupt(setup, dir.events, dir.markers, log);
          return Err(applied.error), usedMarkers, usedEvents, log;
        }
        Advance(setup, dir.events, dir.markers, log, tx);
        NamesAdvance(setup, log, tx);
        usedMarkers := usedMarkers + {first};
        usedEvents := usedEvents + set k | 0 <= k < |read.value.body.refs| :: read.value.body.refs[k].sequence;
        log, current := log + [tx], applied.value;
      }
      r := Ok(current);
    }

    /** The full audit: replays every marker from the start and, when asked, quarantines orphan events. */
    method FullRecover(maintain: bool) returns (r: Recovery, ghost log: Log)
      requires Configured(setup)
      modifies this`tip, this`seen, this`life, dir`events, dir`quarantine
      ensures r.Recovered? ==>
                StateAfter(setup, log).Ok? && r.tip == tip == TipOf(setup, log) && seen == log
      ensures r.Corrupt? ==> forall other :: WellFormed(setup, other) ==>
                !StoresExactly(old(dir.events), dir.markers, other)
      ensures !r.Recovered? ==> tip == old(tip) && seen == old(seen)
      ensures r.Corrupt? || !maintain ==> dir.events == old(dir.events) && dir.quarantine == old(dir.quarantine)
      ensures !maintain ==> !r.Interrupted? && life == old(life)
      ensures !r.Corrupt? ==>
                && WellFormed(setup, log) && StoresExactly(old(dir.events), dir.markers, log)
                && StoresExactly(dir.events, dir.markers, log)
      ensures r.Recovered? && maintain ==> forall name :: name in dir.events <==> CommittedName(log, name)
      ensures old(dir.Kept()) == dir.Kept()
      ensures old(life) >= |old(dir.events)| ==> !r.Interrupted?
    {
      hide Extends, WellFormed, Records, Stores, StoresExactly, StateAfter, TipOf, MarkerNames;
      var walked, usedMarkers, usedEvents;
      walked, usedMarkers, usedEvents, log := ReplayMarkers();
      if walked.Err? { return Corrupt(walked.error), log; }
      if dir.markers.Keys - usedMarkers != {} {
        GapMeansCorrupt(setup, dir.events, dir.markers, log);
        return Corrupt(TransactionSequenceGap), log;
      }
      AllMarkersUsed(dir.events, dir.markers, log);
      if maintain {
        var progress := QuarantineOrphans(usedEvents, log);
        if progress.Died? { return Interrupted, log; }
      }
      tip, seen := walked.value, log;
      r := Recovered(tip);
    }

    /** Moves every event file that no marker uses into the quarantine, one at a time. */
    method QuarantineOrphans(used: set<int>, ghost log: Log) returns (progress: Progress)
      requires forall name :: name in used <==> CommittedName(log, name)
      requires used <= dir.events.Keys
      requires StoresExactly(dir.events, dir.markers, log)
      modifies this`life, dir`events, dir`quarantine
      ensures StoresExactly(dir.events, dir.markers, log)
      ensures old(dir.Kept()) == dir.Kept()
      ensures progress.Done? ==> dir.events.Keys == used
      ensures old(life) >= |old(dir.events)| ==> progress.Done?
    {
      hide Records, Extends, WellFormed;
      while dir.events.Keys - used != {}
        invariant used <= dir.events.Keys
        invariant StoresExactly(dir.events, dir.markers, log)
        invariant old(dir.Kept()) == dir.Kept()
        invariant old(life) >= |old(dir.events)| ==> life >= |dir.events|
        decreases dir.events.Keys - used
      {
        var name := Pick(dir.events.Keys - used);
        var alive := Step();
        if alive.Died? { return Died; }
        OrphanMoves(dir.events, dir.markers, log, name);
        KeptMoves(dir.events, dir.quarantine, name);
        var data := dir.events[name];
        dir.quarantine := dir.quarantine + {data};
        dir.events := dir.events - {name};
      }
      forall name | name in dir.events ensures name in used {
        assert name !in dir.events.Keys - used;
      }
      progress := Done;
    }

    /** The audit a log in good order always passes, with the whole committed log as its result. */
    method Recover(maintain: bool) returns (r: Recovery)
      requires Valid()
      modifies this`tip, this`seen, this`life, dir`events, dir`quarantine
      ensures Valid() && !r.Corrupt?
      ensures r.Recovered? ==> seen == dir.committed && r.tip == tip
      ensures r.Interrupted? ==> tip == old(tip)
      ensures !maintain ==> r.Recovered? && dir.events == old(dir.events) && dir.quarantine == old(dir.quarantine)
      ensures !maintain ==> life == old(life)
      ensures r.Recovered? && maintain ==> forall name :: name in dir.events <==> CommittedName(dir.committed, name)
      ensures old(dir.Kept()) == dir.Kept()
      ensures old(life) >= |old(dir.events)| ==> r.Recovered?
    {
      hide Extends, WellFormed, Records, Stores, StoresExactly, StateAfter, TipOf;
      ghost var before := dir.events;
      ghost var log;
      r, log := FullRecover(maintain);
      ExactIsUnique(setup, before, dir.markers, dir.committed, log);
    }

    /** Replays whatever markers appeared above this handle's own tip. */
    method Synchronize()
      requires Valid()
      modifies this`tip, this`seen
      ensures Valid() && seen == dir.committed
    {
      hide Extends, WellFormed, Records, Stores, StoresExactly;
      while true
        invariant Valid()
        decreases |dir.committed| - |seen|
      {
        Replays(setup, seen);
        var read := dir.ReadMarker(tip.state.sequence + 1);
        if read == Err(FileNotFound) {
          NothingCommittedBeyond(setup, dir.events, dir.markers, dir.committed, seen);
          return;
        }
        NextCommitted(setup, dir.events, dir.markers, dir.committed, seen);
        var applied, tx := ApplyMarker(tip, read.value, seen);
        AdvanceWithin(setup, dir.events, dir.markers, dir.committed, seen, tx);
        tip, seen := applied.value, seen + [tx];
      }
    }

    /** Replays the markers up to one sequence; it exists exactly at transaction boundaries. */
    method TipAtSequence(target: nat) returns (r: Result<Tip, Error>, ghost k: nat)
      requires dir.Holds(setup)
      ensures r.Ok? <==> IsBoundary(dir.committed, target)
      ensures r.Ok? ==>
                && k <= |dir.committed| && Boundary(dir.committed, k) == target
                && WellFormed(setup, dir.committed[..k]) && StateAfter(setup, dir.committed[..k]).Ok?
                && r.value == TipOf(setup, dir.committed[..k])
    {
      hide Extends, WellFormed, Records, Stores, StoresExactly;
      var current := Tip(setup.base, None, None, [], setup.base.generation);
      k := 0;
      EmptyIsStored(setup, dir.events, dir.markers);
      assert dir.committed[..0] == [];
      Replays(setup, []);
      while current.state.sequence < target
        invariant k <= |dir.committed| && WellFormed(setup, dir.committed[..k])
        invariant StateAfter(setup, dir.committed[..k]).Ok? && current == TipOf(setup, dir.committed[..k])
        invariant current.state.sequence == Boundary(dir.committed, k) <= target
        decreases |dir.committed| - k
      {
        ghost var log := dir.committed[..k];
        var read := dir.ReadMarker(current.state.sequence + 1);
        if read == Err(FileNotFound) {
          NothingCommittedBeyond(setup, dir.events, dir.markers, dir.committed, log);
          BetweenBoundaries(setup, dir.committed, k, target);
          return Err(FileNotFound), k;
        }
        NextCommitted(setup, dir.events, dir.markers, dir.committed, log);
        BoundaryStep(setup, dir.committed, k);
        if read.value.body.toSequence > target {
          BetweenBoundaries(setup, dir.committed, k, target);
          return Err(TransactionSequenceGap), k;
        }
        var applied, tx := ApplyMarker(current, read.value, log);
        AdvanceWithin(setup, dir.events, dir.markers, dir.committed, log, tx);
        assert log + [tx] == dir.committed[..k + 1];
        Replays(setup, log + [tx]);
        current, k := applied.value, k + 1;
      }
      r := Ok(current);
    }

    /** The state of one past sequence: the fold of the committed history up to it, at boundaries only. */
    method StateAtSequence(sequence: nat) returns (r: Result<State, Error>)
      requires Valid()
      modifies this`tip, this`seen
      ensures Valid() && seen == dir.committed
      ensures r.Ok? <==> IsBoundary(dir.committed, sequence)
      ensures r.Ok? ==>
                && sequence <= |History(dir.committed)|
                && Fold(setup, setup.base, History(dir.committed)[..sequence]) == Ok(r.value)
    {
      hide Extends, WellFormed, Records, Stores, StoresExactly;
      Synchronize();
      Replays(setup, seen);
      if sequence > tip.state.sequence {
        BeyondHistory(setup, dir.committed, sequence);
        return Err(TransactionSequenceGap);
      }
      var at, k := TipAtSequence(sequence);
      if at.Err? { return Err(at.error); }
      RecordsPrefix(dir.committed, k);
      HistoryPrefix(dir.committed, k);
      r := Ok(at.value.state);
    }

    /** The events one marker refers to, added to those read before it. */
    method ReadReferences(refs: seq<EventRef>, read: seq<Event>, after: nat, ghost k: nat) returns (result: seq<Event>)
      requires dir.Holds(setup) && k < |dir.committed| && refs == dir.committed[k].marker.body.refs
      requires Boundary(dir.committed, k) + |refs| <= |History(dir.committed)|
      requires read == Beyond(History(dir.committed)[..Boundary(dir.committed, k)], after)
      ensures result == Beyond(History(dir.committed)[..Boundary(dir.committed, k) + |refs|], after)
    {
      hide Extends, WellFormed, Records, Stores, Beyond, History, Boundary;
      result := read;
      for i := 0 to |refs|
        invariant result == Beyond(History(dir.committed)[..Boundary(dir.committed, k) + i], after)
      {
        EventOnDisk(setup, dir.events, dir.markers, dir.committed, k, i);
        var record := dir.ReadEvent(refs[i].sequence);
        BeyondGrows(History(dir.committed), Boundary(dir.committed, k) + i, after);
        if refs[i].sequence > after { result := result + [record.value.body.event]; }
      }
    }

    /** The committed events after one sequence, in order: an exact suffix of the history. */
    method ReadCommitted(after: nat) returns (result: seq<Event>)
      requires Valid()
      modifies this`tip, this`seen
      ensures Valid() && seen == dir.committed
      ensures result == Beyond(History(dir.committed), after)
    {
      hide Extends, WellFormed, Records, Stores;
      Synchronize();
      Replays(setup, dir.committed);
      result := [];
      var first := 1;
      ghost var k := 0;
      BoundaryTop(dir.committed);
      while first <= tip.state.sequence
        invariant k <= |dir.committed| && first == Boundary(dir.committed, k) + 1
        invariant first - 1 <= |History(dir.committed)|
        invariant result == Beyond(History(dir.committed)[..first - 1], after)
        decreases |dir.committed| - k
        modifies {}
      {
        BoundaryStep(setup, dir.committed, k);
        StoredRecords(setup, dir.events, dir.markers, dir.committed, k);
        HistoryPrefix(dir.committed, k + 1);
        var read := dir.ReadMarker(first);
        result := ReadReferences(read.value.body.refs, result, after, k);
        first, k := read.value.body.toSequence + 1, k + 1;
      }
      assert History(dir.committed)[..|History(dir.committed)|] == History(dir.committed);
    }

    /** The effects every marker promised, in marker order. */
    method ReadEffectIntents() returns (result: seq<Intent>)
      requires Valid()
      modifies this`tip, this`seen
      ensures Valid() && seen == dir.committed
      ensures result == Intents(dir.committed)
    {
      hide Extends, WellFormed, Records, Stores;
      Synchronize();
      Replays(setup, dir.committed);
      result := [];
      var first := 1;
      ghost var k := 0;
      BoundaryTop(dir.committed);
      while first <= tip.state.sequence
        invariant k <= |dir.committed| && first == Boundary(dir.committed, k) + 1
        invariant result == Intents(dir.committed[..k])
        decreases |dir.committed| - k
        modifies {}
      {
        BoundaryStep(setup, dir.committed, k);
        StoredRecords(setup, dir.events, dir.markers, dir.committed, k);
        IntentsStep(dir.committed, k);
        var read := dir.ReadMarker(first);
        result := result + read.value.body.intents;
        first, k := read.value.body.toSequence + 1, k + 1;
      }
      if k < |dir.committed| { BoundariesAscend(setup, dir.committed, k, |dir.committed|); }
      assert dir.committed[..|dir.committed|] == dir.committed;
    }

    /** The promised effects that no committed event has reported as completed, in marker order. */
    method ReadPendingEffectIntents() returns (result: seq<Intent>)
      requires Valid()
      modifies this`tip, this`seen
      ensures Valid() && seen == dir.committed
      ensures result == PendingIntents(dir.committed)
    {
      hide Extends, WellFormed, Records, Stores;
      var intents := ReadEffectIntents();
      var events := ReadCommitted(0);
      assert Beyond(History(dir.committed), 0) == History(dir.committed);
      result := Outstanding(intents, CompletedIn(events));
    }

    /** Writes one event file, moving a different orphan of the same name out of the way first. */
    method PublishEvent(record: StoredEvent) returns (progress: Progress)
      requires dir.Holds(setup) && record.body.event.sequence > |Records(dir.committed)|
      modifies this`life, dir`events, dir`quarantine
      ensures dir.Holds(setup)
      ensures forall name :: name != record.body.event.sequence ==>
                && (name in dir.events <==> name in old(dir.events))
                && (name in dir.events ==> dir.events[name] == old(dir.events)[name])
      ensures progress.Done? ==>
                && record.body.event.sequence in dir.events && dir.events[record.body.event.sequence] == record
      ensures old(dir.Kept()) <= dir.Kept() <= old(dir.Kept()) + {record}
      ensures life <= old(life)
      ensures old(life) >= 2 ==> progress.Done? && life >= old(life) - 2
    {
      hide Extends, WellFormed, Records, Stores;
      var name := record.body.event.sequence;
      if name in dir.events {
        if dir.events[name] == record { return Done; }
        var alive := Step();
        if alive.Died? { return Died; }
        OrphanMoves(dir.events, dir.markers, dir.committed, name);
        KeptMoves(dir.events, dir.quarantine, name);
        var data := dir.events[name];
        dir.quarantine := dir.quarantine + {data};
        dir.events := dir.events - {name};
      }
      var alive := Step();
      if alive.Died? { return Died; }
      OrphanAppears(dir.events, dir.markers, dir.committed, record);
      dir.events := dir.events[name := record];
      progress := Done;
    }

    /** The audit against identities already committed; the intents are reread from every marker. */
    method RejectIdentityReuse(request: Request) returns (fault: Option<Error>)
      requires Valid() && seen == dir.committed
      ensures fault == IdentityFault(dir.committed, request)
    {
      hide Extends, WellFormed, Records, Stores;
      Replays(setup, dir.committed);
      if !DistinctStrings(RequestIds(request.events)) { return Some(DuplicateEventId); }
      var ids := set i, k | 0 <= i < |tip.receipts| && 0 <= k < |tip.receipts[i].eventIds| :: tip.receipts[i].eventIds[k];
      ReceiptsNameEvents(setup, dir.committed, ids);
      if exists i :: 0 <= i < |request.events| && request.events[i].eventId in ids { return Some(DuplicateEventId); }
      var requested := seq(|request.intents|, i requires 0 <= i < |request.intents| => request.intents[i].intentId);
      if !DistinctStrings(requested) { return Some(DuplicateEffectIntentId); }
      var intents: set<string> := {};
      var first := 1;
      ghost var k := 0;
      BoundaryTop(dir.committed);
      while first <= tip.state.sequence
        invariant k <= |dir.committed| && first == Boundary(dir.committed, k) + 1
        invariant forall id :: id in intents <==> IntentTaken(dir.committed[..k], id)
        decreases |dir.committed| - k
      {
        BoundaryStep(setup, dir.committed, k);
        StoredRecords(setup, dir.events, dir.markers, dir.committed, k);
        var read := dir.ReadMarker(first);
        var own := read.value.body.intents;
        IntentsTakenStep(dir.committed, k);
        intents := intents + set i | 0 <= i < |own| :: own[i].intentId;
        assert own == dir.committed[k].marker.body.intents;
        first, k := read.value.body.toSequence + 1, k + 1;
      }
      if k < |dir.committed| { BoundariesAscend(setup, dir.committed, k, |dir.committed|); }
      assert dir.committed[..|dir.committed|] == dir.committed;
      if exists i :: 0 <= i < |request.intents| && request.intents[i].intentId in intents {
        return Some(DuplicateEffectIntentId);
      }
      assert IntentsFresh(dir.committed, request.intents) by {
        forall i, j | 0 <= i < j < |request.intents|
          ensures request.intents[i].intentId != request.intents[j].intentId
        {
          assert requested[i] != requested[j];
        }
      }
      assert forall i :: 0 <= i < |dir.committed| ==>
               tip.receipts[i].transactionId == dir.committed[i].marker.body.transactionId;
      if exists i :: 0 <= i < |tip.receipts| && tip.receipts[i].transactionId == request.transactionId {
        ghost var i :| 0 <= i < |tip.receipts| && tip.receipts[i].transactionId == request.transactionId;
        assert dir.committed[i].marker.body.transactionId == request.transactionId;
        return Some(DuplicateTransactionId);
      }
      fault := None;
    }

    /** Replays, hashes and seals a whole batch in memory before anything is written. */
    method PrepareTransaction(request: Request) returns (r: Result<(State, Transaction), Error>)
      requires request.events != [] && |request.metadata| == |request.events|
      ensures r == if !GenerationFits(setup.base.generation, request.generation, request.events)
                   then Err(RegistryGenerationMismatch)
                   else match Fold(setup, tip.state, request.events)
                     case Err(error) => Err(error)
                     case Ok(state) =>
                       if ValidIntents(request.intents, request.sessionId, state.sequence)
                       then Ok((state, Draft(tip, request, state))) else Err(InvalidTransactionMarker)
    {
      if !GenerationFits(setup.base.generation, request.generation, request.events) {
        return Err(RegistryGenerationMismatch);
      }
      var state, previous := tip.state, tip.lastEventHash;
      var records: seq<StoredEvent> := [];
      var events, metadata := request.events, request.metadata;
      for i := 0 to |events|
        invariant Fold(setup, tip.state, events) == Fold(setup, state, events[i..])
        invariant DraftRecords(request.sessionId, request.generation, events, metadata, tip.lastEventHash) ==
                  records + DraftRecords(request.sessionId, request.generation, events[i..], metadata[i..], previous)
      {
        assert events[i..][1..] == events[i + 1..] && metadata[i..][1..] == metadata[i + 1..];
        var next := Reduce(setup, state, events[i]);
        if next.Err? { return Err(next.error); }
        state := next.value;
        var record := SealEvent(EventBody(request.sessionId, request.generation, metadata[i], previous, events[i]));
        records, previous := records + [record], Some(record.hash);
      }
      assert events[|events|..] == [] && metadata[|events|..] == [];
      if !ValidIntents(request.intents, request.sessionId, state.sequence) { return Err(InvalidTransactionMarker); }
      var marker := SealMarker(MarkerBody(
                                 request.sessionId, request.transactionId, events[0].commandId, request.requestDigest,
                                 request.generation, events[0].sequence, events[|events| - 1].sequence,
                                 tip.lastMarkerHash, StateDigest(state), request.intents, RefsOf(records)));
      assert Fold(setup, tip.state, events) == Ok(state);
      assert DraftRecords(request.sessionId, request.generation, events, metadata, tip.lastEventHash) == records;
      assert Transaction(marker, records) == Draft(tip, request, state);
      r := Ok((state, Transaction(marker, records)));
    }

    /** The committed events of one closed range of sequences. */
    method EventsBetween(first: int, last: int) returns (result: seq<Event>)
      requires dir.Holds(setup) && 1 <= first <= last + 1 && last <= |History(dir.committed)|
      ensures result == History(dir.committed)[first - 1..last]
    {
      hide Extends, WellFormed, Records, Stores;
      result := [];
      for sequence := first to last + 1
        invariant result == History(dir.committed)[first - 1..sequence - 1]
      {
        HistoryOnDisk(setup, dir.events, dir.markers, dir.committed, sequence - 1);
        var record := dir.ReadEvent(sequence);
        result := result + [record.value.body.event];
      }
    }

    /** Every check of a request that needs no log. */
    method ValidateRequest(request: Request) returns (fault: Option<Error>)
      ensures fault == RequestFault(setup, request)
    {
      if request.sessionId != setup.base.sessionId || request.generation < 1 || request.events == []
         || |request.metadata| != |request.events|
      {
        return Some(InvalidCommitRequest);
      }
      fault := ValidateBatchShape(request.events);
      if fault.None? && exists i :: 0 <= i < |request.events| && request.events[i].commandId != request.events[0].commandId
      {
        fault := Some(InvalidCommitRequest);
      }
    }

    /** Answers a command that is already committed, from the log as it was when it was committed. */
    method AnswerReplay(at: nat) returns (outcome: Outcome)
      requires Valid() && seen == dir.committed && at < |tip.receipts|
      ensures Answers(setup, dir.committed, at, outcome)
    {
      hide Extends, WellFormed, Records, Stores;
      var existing := tip.receipts[at];
      BoundaryStep(setup, dir.committed, at);
      assert existing == ReceiptOf(dir.committed[at].marker);
      assert IsBoundary(dir.committed, existing.toSequence);
      var original, k := TipAtSequence(existing.toSequence);
      if k < at + 1 { BoundariesAscend(setup, dir.committed, k, at + 1); }
      if at + 1 < k { BoundariesAscend(setup, dir.committed, at + 1, k); }
      HistoryPrefix(dir.committed, at + 1);
      var events := EventsBetween(existing.fromSequence, existing.toSequence);
      TransactionEvents(setup, dir.committed, at);
      outcome := Committed(existing, original.value.state, events, true);
    }

    /** Publishes the events of a prepared transaction, in order, up to wherever the process dies. */
    method PublishEvents(tx: Transaction) returns (progress: Progress)
      requires dir.Holds(setup) && Extends(setup, dir.committed, tx)
      modifies this`life, dir`events, dir`quarantine
      ensures dir.Holds(setup)
      ensures progress.Done? ==> RecordsOnDisk(dir.events, tx)
      ensures old(dir.Kept()) <= dir.Kept()
      ensures old(life) >= 2 * |tx.records| ==> progress.Done? && life >= old(life) - 2 * |tx.records|
    {
      hide Extends, WellFormed, Records, Stores, StoresExactly;
      ExtensionSequences(setup, dir.committed, tx);
      for i := 0 to |tx.records|
        invariant dir.Holds(setup)
        invariant forall k :: 0 <= k < i ==>
                    && tx.marker.body.refs[k].sequence in dir.events
                    && dir.events[tx.marker.body.refs[k].sequence] == tx.records[k]
        invariant old(dir.Kept()) <= dir.Kept()
        invariant old(life) >= 2 * |tx.records| ==> life >= old(life) - 2 * i
      {
        var published := PublishEvent(tx.records[i]);
        if published.Died? { return Died; }
      }
      progress := Done;
    }

    /** Everything that is decided about a request before anything is written. */
    method Decide(request: Request) returns (verdict: Verdict, state: State)
      requires Valid()
      modifies this`tip, this`seen, this`life, dir`events, dir`quarantine
      ensures Valid() && life == old(life)
      ensures dir.events == old(dir.events) && dir.quarantine == old(dir.quarantine)
      ensures verdict == Judge(setup, dir.committed, request)
      ensures !verdict.Refuse? ==> seen == dir.committed
      ensures verdict.Append? ==> Fold(setup, tip.state, request.events) == Ok(state)
    {
      hide Extends, WellFormed, Records, Stores, StoresExactly, RequestFault, IdentityFault, Fold;
      Replays(setup, dir.committed);
      state := tip.state;
      var fault := ValidateRequest(request);
      if fault.Some? { return Refuse(fault.value), state; }
      var recovered := Recover(false);
      RequestAddressed(setup, request);
      var at := FindCommand(tip.receipts, request.events[0].commandId);
      if at < |tip.receipts| {
        verdict := if tip.receipts[at].requestDigest == request.requestDigest then Replay(at) else Refuse(IdempotencyConflict);
        return;
      }
      fault := RejectIdentityReuse(request);
      if fault.Some? { return Refuse(fault.value), state; }
      if tip.lastGeneration != setup.base.generation { return Refuse(SessionDeactivated), state; }
      var prepared := PrepareTransaction(request);
      if prepared.Err? { return Refuse(prepared.error), state; }
      verdict, state := Append(prepared.value.1), prepared.value.0;
    }

    /** The durable steps of one new transaction: every event, then the guarded marker, which alone commits. */
    method PublishTransaction(tx: Transaction, state: State, guardPasses: bool) returns (r: Result<Progress, Error>)
      requires Valid() && seen == dir.committed && Extends(setup, dir.committed, tx)
      requires Fold(setup, tip.state, EventsOf(tx.records)) == Ok(state)
      modifies this`tip, this`seen, this`life, dir
      ensures Valid()
      ensures From(tx) !in old(dir.markers)
      ensures dir.committed == if From(tx) in dir.markers then old(dir.committed) + [tx] else old(dir.committed)
      ensures r == Ok(Done) ==> From(tx) in dir.markers && seen == dir.committed
      ensures r.Err? ==> r.error == PublicationGuardRefused && !guardPasses
      ensures !guardPasses ==> From(tx) !in dir.markers && r != Ok(Done)
      ensures guardPasses && old(life) >= 2 * |tx.records| + 2 ==> r == Ok(Done)
      ensures old(dir.Kept()) <= dir.Kept()
    {
      hide Extends, WellFormed, Records, Stores, StoresExactly;
      ghost var log := dir.committed;
      NoMarkerYet(setup, dir.events, dir.markers, log, tx);
      var published := PublishEvents(tx);
      if published.Died? { return Ok(Died); }
      if !guardPasses { return Err(PublicationGuardRefused); }
      var alive := Step();
      if alive.Died? { return Ok(Died); }
      MarkerCommits(setup, dir.events, dir.markers, log, tx);
      dir.markers := dir.markers[tx.marker.body.fromSequence := tx.marker];
      dir.committed := log + [tx];
      alive := Step();
      if alive.Died? { return Ok(Died); }
      TipStep(setup, log, tx);
      ExtensionReaches(setup, log, tx);
      tip := Tip(state, Some(tx.records[|tx.records| - 1].hash), Some(tx.marker.hash),
                 tip.receipts + [ReceiptOf(tx.marker)], tx.marker.body.generation);
      seen := dir.committed;
      r := Ok(Done);
    }

    /** Commits one batch behind the Session authority and an optional guard on the marker. */
    method Commit(request: Request, authorized: bool, guardPasses: bool) returns (outcome: Outcome)
      requires Valid()
      modifies this`tip, this`seen, this`life, dir
      ensures Valid() && old(dir.Kept()) <= dir.Kept()
      ensures !authorized ==> outcome == Refused(LockAuthorityRequired) && unchanged(dir)
      ensures authorized ==>
                var log := old(dir.committed);
                match Judge(setup, log, request)
                case Refuse(error) => outcome == Refused(error) && unchanged(dir)
                case Replay(i) => unchanged(dir) && Answers(setup, log, i, outcome)
                case Append(tx) =>
                  && From(tx) !in old(dir.markers)
                  && dir.committed == (if From(tx) in dir.markers then log + [tx] else log)
                  && (outcome.Committed? ==> From(tx) in dir.markers && Acknowledges(setup, log, tx, outcome))
                  && (outcome.Refused? ==> outcome.error == PublicationGuardRefused && !guardPasses)
                  && (!guardPasses ==> From(tx) !in dir.markers)
                  && (guardPasses && old(life) >= 2 * |request.events| + 2 ==> outcome.Committed?)
    {
      hide Extends, WellFormed, Records, Stores, StoresExactly, Judge, Fold;
      if !authorized { return Refused(LockAuthorityRequired); }
      var verdict, state := Decide(request);
      match verdict {
        case Refuse(error) => outcome := Refused(error);
        case Replay(i) =>
          ReplayInRange(setup, dir.committed, request, i);
          outcome := AnswerReplay(i);
        case Append(tx) =>
          ghost var log := dir.committed;
          AppendedIsRecoverable(setup, log, request, tx);
          DraftFits(setup, log, request, tx);
          TipStep(setup, log, tx);
          var published := PublishTransaction(tx, state, guardPasses);
          outcome := match published
            case Err(error) => Refused(error)
            case Ok(Died) => Crashed
            case Ok(Done) => Outcome.Committed(ReceiptOf(tx.marker), state, request.events, false);
      }
    }
  }

  /** The stored answer to a command that is already committed. */
  ghost predicate Answers(setup: Setup, log: Log, i: nat, outcome: Outcome) {
    && i < |log| && StateAfter(setup, log[..i + 1]).Ok?
    && outcome == Outcome.Committed(ReceiptOf(log[i].marker), StateAfter(setup, log[..i + 1]).value,
                                    EventsOf(log[i].records), true)
  }

  /** The answer to a command whose transaction has just been committed. */
  ghost predicate Acknowledges(setup: Setup, log: Log, tx: Transaction, outcome: Outcome) {
    && StateAfter(setup, log + [tx]).Ok?
    && outcome == Outcome.Committed(ReceiptOf(tx.marker), StateAfter(setup, log + [tx]).value,
                                    EventsOf(tx.records), false)
  }

  /**
    A process commits and dies at any step; another recovers, and then a third. The log is the one before, or that one and
    the whole batch, exactly as the marker file says; recovering again changes nothing; no record is lost.
    */
  method CommitCrashRecover(setup: Setup, dir: SessionDirectory, request: Request, life: nat)
    returns (once: Tip, twice: Tip)
    requires dir.Holds(setup)
    modifies dir
    ensures dir.Holds(setup) && old(dir.Kept()) <= dir.Kept()
    ensures StateAfter(setup, dir.committed).Ok? && once == TipOf(setup, dir.committed) && twice == once
    ensures match Judge(setup, old(dir.committed), request)
            case Append(tx) =>
              dir.committed == if From(tx) in dir.markers then old(dir.committed) + [tx] else old(dir.committed)
            case _ => dir.committed == old(dir.committed)
    ensures forall name :: name in dir.events <==> CommittedName(dir.committed, name)
  {
    hide Extends, WellFormed, Records, Stores, StoresExactly, Judge, TipOf, StateAfter;
    var dying := new TransactionLog(setup, dir, life);
    var _ := dying.Commit(request, true, true);
    var recovering := new TransactionLog(setup, dir, |dir.events|);
    var first := recovering.Recover(true);
    once := first.tip;
    var again := new TransactionLog(setup, dir, |dir.events|);
    var second := again.Recover(true);
    twice := second.tip;
  }

  /** One process's life: a commit request, whether it is authorised and guarded, and how many steps it survives. */
  datatype Call = Call(request: Request, authorized: bool, guardPasses: bool, life: nat)

  /**
    Processes come one after another, each commits and dies anywhere, and each is followed by a recovery. The log is
    always what some run of attempts makes of it, one attempt for each call; so from an empty directory no command, intent
    or event is ever committed twice.
    */
  method ServeCalls(setup: Setup, dir: SessionDirectory, calls: seq<Call>) returns (ghost run: seq<Attempt>)
    requires dir.Holds(setup)
    modifies dir
    ensures dir.Holds(setup) && old(dir.Kept()) <= dir.Kept() && Configured(setup) && WellFormed(setup, old(dir.committed))
    ensures |run| == |calls| && forall i :: 0 <= i < |run| ==> run[i].request == calls[i].request
    ensures dir.committed == AfterRun(setup, old(dir.committed), run)
    ensures old(dir.committed) == [] ==>
              && DistinctIdentities(Receipts(dir.committed)) && IntentsDistinct(dir.committed)
              && Tiles(Receipts(dir.committed), |Records(dir.committed)|)
    ensures forall name :: calls != [] && name in dir.events ==> CommittedName(dir.committed, name)
  {
    hide Extends, WellFormed, Records, Stores, StoresExactly, Judge, AfterRun, IntentsDistinct, DistinctIdentities, Tiles;
    run := [];
    assert AfterRun(setup, dir.committed, []) == dir.committed by {
      RunNothing(setup, dir.committed);
    }
    for i := 0 to |calls|
      invariant dir.Holds(setup) && old(dir.Kept()) <= dir.Kept()
      invariant |run| == i && forall j :: 0 <= j < i ==> run[j].request == calls[j].request
      invariant dir.committed == AfterRun(setup, old(dir.committed), run)
      invariant forall name :: 0 < i && name in dir.events ==> CommittedName(dir.committed, name)
    {
      var attempt := ServeCall(setup, dir, calls[i]);
      RunOneMore(setup, old(dir.committed), run, attempt);
      run := run + [attempt];
    }
    if old(dir.committed) == [] {
      RunCommitsOnce(setup, run);
    }
  }

  /** One process's attempt and the recovery after it. */
  method ServeCall(setup: Setup, dir: SessionDirectory, call: Call) returns (ghost attempt: Attempt)
    requires dir.Holds(setup)
    modifies dir
    ensures dir.Holds(setup) && old(dir.Kept()) <= dir.Kept() && Configured(setup) && WellFormed(setup, old(dir.committed))
    ensures attempt.request == call.request
    ensures dir.committed == AfterAttempt(setup, old(dir.committed), attempt)
    ensures forall name :: name in dir.events <==> CommittedName(dir.committed, name)
  {
    hide Extends, WellFormed, Records, Stores, StoresExactly, Judge;
    var process := new TransactionLog(setup, dir, call.life);
    var _ := process.Commit(call.request, call.authorized, call.guardPasses);
    attempt := Attempt(call.request, dir.committed != old(dir.committed));
    var recovering := new TransactionLog(setup, dir, |dir.events|);
    var _ := recovering.Recover(true);
  }
}
