/**
 When one marker may be replayed on a tip, what is forced about its records, and what a stored log
 makes of a marker that cannot be replayed.
 */
module ReplayChecks {
  import opened Wrappers
  import opened EventLog
  import opened LogProperties
  import opened StoredLog
  import opened CommitPlan

  /** A snapshot is accepted when its receipts tile its history under distinct identities. */
  ghost predicate SnapshotValid(receipts: seq<Receipt>, through: nat) {
    Tiles(receipts, through) && DistinctIdentities(receipts)
  }

  /** A transaction that carries this marker, whose records are on disk, and that may follow the log. */
  ghost predicate Applicable(setup: Setup, events: EventFiles, log: Log, marker: Marker, tx: Transaction) {
    tx.marker == marker && RecordsOnDisk(events, tx) && Extends(setup, log, tx)
  }

  /** What the tip after one more transaction has to be; its receipts stay auditable. */
  lemma AppliedTip(setup: Setup, log: Log, tx: Transaction)
    requires Configured(setup) && WellFormed(setup, log) && Extends(setup, log, tx)
    ensures StateAfter(setup, log).Ok? && StateAfter(setup, log + [tx]).Ok?
    ensures Fold(setup, StateAfter(setup, log).value, EventsOf(tx.records)) == StateAfter(setup, log + [tx])
    ensures StateAfter(setup, log + [tx]).value.sequence == |Records(log)| + |tx.records|
    ensures SnapshotValid(Receipts(log) + [ReceiptOf(tx.marker)], |Records(log)| + |tx.records|)
    ensures tx.marker.body.stateDigest == StateDigest(StateAfter(setup, log + [tx]).value)
  {
    hide Fold, Extends, WellFormed, Records, Tiles, DistinctIdentities;
    TipStep(setup, log, tx);
    ExtensionReaches(setup, log, tx);
    Replays(setup, log + [tx]);
    RecordsAppend(log, tx);
    ReceiptsTile(setup, log + [tx]);
    IdentitiesDistinct(setup, log + [tx]);
  }

  /** Receipts that stay distinct keep a new transaction's identities fresh in the whole log. */
  lemma DistinctMeansFresh(setup: Setup, log: Log, tx: Transaction)
    requires WellFormed(setup, log)
    requires |tx.marker.body.refs| == |tx.records|
    requires forall k :: 0 <= k < |tx.records| ==> tx.marker.body.refs[k] == RefOf(tx.records[k])
    requires DistinctIdentities(Receipts(log) + [ReceiptOf(tx.marker)])
    ensures FreshIdentities(log, tx)
  {
    hide WellFormed, Records;
    var all := Receipts(log) + [ReceiptOf(tx.marker)];
    forall i | 0 <= i < |log|
      ensures !Clash(Receipts(log)[i], ReceiptOf(tx.marker))
    {
      assert all[i] == Receipts(log)[i] && all[|log|] == ReceiptOf(tx.marker);
    }
    forall i, k | 0 <= i < |Records(log)| && 0 <= k < |tx.records|
      ensures Records(log)[i].body.event.eventId != tx.records[k].body.event.eventId
    {
      var j, l := RecordOwner(setup, log, i);
      assert !Clash(Receipts(log)[j], ReceiptOf(tx.marker));
      assert Receipts(log)[j].eventIds[l] in Receipts(log)[j].eventIds;
      assert ReceiptOf(tx.marker).eventIds[k] == tx.records[k].body.event.eventId;
      assert ReceiptOf(tx.marker).eventIds[k] in ReceiptOf(tx.marker).eventIds;
    }
    forall i | 0 <= i < |log|
      ensures log[i].marker.body.commandId != tx.marker.body.commandId
      ensures log[i].marker.body.transactionId != tx.marker.body.transactionId
    {
      assert !Clash(Receipts(log)[i], ReceiptOf(tx.marker));
    }
  }

  ghost function PreviousHash(log: Log, records: seq<StoredEvent>): Option<Digest> {
    if records == [] then LastEventHash(log) else Some(records[|records| - 1].hash)
  }

  /** The k-th record is the stored one its reference names, and it continues the hash chain. */
  ghost predicate Links(
    setup: Setup, events: EventFiles, log: Log, marker: Marker, records: seq<StoredEvent>, k: nat)
    requires k < |records|
  {
    && k < |marker.body.refs|
    && marker.body.refs[k].sequence in events && events[marker.body.refs[k].sequence] == records[k]
    && ValidEvent(records[k]) && marker.body.refs[k] == RefOf(records[k])
    && records[k].body.sessionId == setup.base.sessionId
    && records[k].body.generation == marker.body.generation
    && records[k].body.event.commandId == marker.body.commandId
    && records[k].body.previous == PreviousHash(log, records[..k])
  }

  lemma LinksPrefix(
    setup: Setup, events: EventFiles, log: Log, marker: Marker, records: seq<StoredEvent>, record: StoredEvent, k: nat)
    requires k < |records| && Links(setup, events, log, marker, records, k)
    ensures Links(setup, events, log, marker, records + [record], k)
  {
    assert (records + [record])[..k] == records[..k];
  }

  /** Any applicable transaction has to start with these records. */
  ghost predicate Forced(
    setup: Setup, events: EventFiles, log: Log, marker: Marker, records: seq<StoredEvent>)
  {
    forall tx :: Applicable(setup, events, log, marker, tx) ==>
      |tx.records| == |marker.body.refs| && records <= tx.records
  }

  lemma NextRecordForced(
    setup: Setup, events: EventFiles, log: Log, marker: Marker, records: seq<StoredEvent>)
    requires Forced(setup, events, log, marker, records) && |records| < |marker.body.refs|
    ensures var name := marker.body.refs[|records|].sequence;
            if name in events && Links(setup, events, log, marker, records + [events[name]], |records|)
            then Forced(setup, events, log, marker, records + [events[name]])
            else forall tx :: !Applicable(setup, events, log, marker, tx)
  {
    hide Extends;
    var i := |records|;
    var name := marker.body.refs[i].sequence;
    forall tx | Applicable(setup, events, log, marker, tx)
      ensures |tx.records| == |marker.body.refs| && records <= tx.records && name in events
      ensures records + [events[name]] <= tx.records
      ensures Links(setup, events, log, marker, records + [events[name]], i)
    {
      ApplicableRecord(setup, events, log, marker, tx, i);
      assert (records + [events[name]])[..i] == records;
    }
  }

  lemma ApplicableRecord(
    setup: Setup, events: EventFiles, log: Log, marker: Marker, tx: Transaction, i: nat)
    requires Applicable(setup, events, log, marker, tx) && i < |marker.body.refs|
    ensures |tx.records| == |marker.body.refs| && marker.body.refs[i] == RefOf(tx.records[i])
    ensures marker.body.refs[i].sequence in events && events[marker.body.refs[i].sequence] == tx.records[i]
    ensures RecordFits(setup, log, tx, i)
  {
    hide Fold, WellShaped, GenerationFits, FreshIdentities, Reaches;
    ExtensionSequences(setup, log, tx);
  }

  lemma ChainNeeded(setup: Setup, events: EventFiles, log: Log, marker: Marker)
    ensures (exists tx :: Applicable(setup, events, log, marker, tx)) ==>
              && marker.body.sessionId == setup.base.sessionId && marker.body.fromSequence == |Records(log)| + 1
              && marker.body.previous == LastMarkerHash(log)
              && LastGeneration(setup, log) == setup.base.generation
  {
    hide Fold, Records, WellShaped, GenerationFits, FreshIdentities, Reaches;
  }

  lemma OnlyCandidate(setup: Setup, events: EventFiles, log: Log, tx: Transaction)
    requires |tx.records| == |tx.marker.body.refs| && Forced(setup, events, log, tx.marker, tx.records)
    ensures forall other :: Applicable(setup, events, log, tx.marker, other) ==> other == tx
  {
    hide Extends;
    forall other | Applicable(setup, events, log, tx.marker, other) ensures other == tx {
      assert other.records == tx.records;
    }
  }

  /** What is left to check once a marker chains on and its records link up. */
  ghost predicate Checked(setup: Setup, log: Log, tx: Transaction)
    requires StateAfter(setup, log).Ok?
  {
    && WellShaped(EventsOf(tx.records))
    && GenerationFits(setup.base.generation, tx.marker.body.generation, EventsOf(tx.records))
    && var after := Fold(setup, StateAfter(setup, log).value, EventsOf(tx.records));
       after.Ok? && tx.marker.body.stateDigest == StateDigest(after.value)
       && SnapshotValid(Receipts(log) + [ReceiptOf(tx.marker)], after.value.sequence)
  }

  /** Once the records link up, the remaining checks of one marker decide exactly whether it extends the log. */
  lemma ChecksDecide(setup: Setup, events: EventFiles, log: Log, tx: Transaction)
    requires Configured(setup) && WellFormed(setup, log) && ValidMarker(tx.marker)
    requires StateAfter(setup, log).Ok?
    requires tx.marker.body.sessionId == setup.base.sessionId
    requires tx.marker.body.fromSequence == |Records(log)| + 1
    requires tx.marker.body.previous == LastMarkerHash(log)
    requires LastGeneration(setup, log) == setup.base.generation
    requires |tx.records| == |tx.marker.body.refs|
    requires forall k :: 0 <= k < |tx.records| ==> Links(setup, events, log, tx.marker, tx.records, k)
    ensures tx.records != []
    ensures Applicable(setup, events, log, tx.marker, tx) <==> Checked(setup, log, tx)
  {
    hide Extends, Fold, WellFormed, Records, GenerationFits, WellShaped, Links, SnapshotValid;
    LinkedRecordsFit(setup, events, log, tx);
    if Extends(setup, log, tx) {
      ExtensionPasses(setup, log, tx);
    }
    if Checked(setup, log, tx) {
      CheckedExtends(setup, log, tx);
    }
  }

  lemma ExtensionPasses(setup: Setup, log: Log, tx: Transaction)
    requires Configured(setup) && WellFormed(setup, log) && Extends(setup, log, tx)
    ensures StateAfter(setup, log).Ok? && Checked(setup, log, tx)
  {
    hide Extends, Fold, WellFormed, Records, GenerationFits, WellShaped, SnapshotValid;
    GenerationRule(setup, log, tx);
    AppliedTip(setup, log, tx);
  }

  lemma CheckedExtends(setup: Setup, log: Log, tx: Transaction)
    requires WellFormed(setup, log) && ValidMarker(tx.marker) && StateAfter(setup, log).Ok?
    requires tx.marker.body.sessionId == setup.base.sessionId
    requires tx.marker.body.fromSequence == |Records(log)| + 1
    requires tx.marker.body.previous == LastMarkerHash(log)
    requires LastGeneration(setup, log) == setup.base.generation
    requires |tx.marker.body.refs| == |tx.records| && tx.marker.body.refs == RefsOf(tx.records)
    requires forall k :: 0 <= k < |tx.records| ==> RecordFits(setup, log, tx, k)
    requires Checked(setup, log, tx)
    ensures Extends(setup, log, tx)
  {
    assert forall k :: 0 <= k < |tx.records| ==> tx.marker.body.refs[k] == RefOf(tx.records[k]);
    SnapshotDistinct(Receipts(log) + [ReceiptOf(tx.marker)],
                     Fold(setup, StateAfter(setup, log).value, EventsOf(tx.records)).value.sequence);
    hide Fold, WellFormed, Records, ValidMarker, GenerationFits, WellShaped, SnapshotValid, RecordFits, FreshIdentities;
    DistinctMeansFresh(setup, log, tx);
  }

  lemma LinkedRecordsFit(setup: Setup, events: EventFiles, log: Log, tx: Transaction)
    requires |tx.records| == |tx.marker.body.refs|
    requires forall k :: 0 <= k < |tx.records| ==> Links(setup, events, log, tx.marker, tx.records, k)
    ensures RecordsOnDisk(events, tx) && tx.marker.body.refs == RefsOf(tx.records)
    ensures forall k :: 0 <= k < |tx.records| ==> tx.marker.body.refs[k] == RefOf(tx.records[k])
    ensures forall k :: 0 <= k < |tx.records| ==> RecordFits(setup, log, tx, k)
  {
    hide Records, ValidEvent;
    forall k | 0 <= k < |tx.records|
      ensures tx.marker.body.refs[k] == RefOf(tx.records[k]) && RecordFits(setup, log, tx, k)
      ensures tx.marker.body.refs[k].sequence in events
      ensures events[tx.marker.body.refs[k].sequence] == tx.records[k]
    {
      assert Links(setup, events, log, tx.marker, tx.records, k);
      if k > 0 { assert tx.records[..k][|tx.records[..k]| - 1] == tx.records[k - 1]; }
    }
  }

  lemma SnapshotDistinct(receipts: seq<Receipt>, through: nat)
    requires SnapshotValid(receipts, through)
    ensures DistinctIdentities(receipts)
  {
  }

  /** The names of the committed event files: the sequences 1..n. */
  predicate CommittedName(log: Log, name: int) { 1 <= name <= |Records(log)| }

  function MarkerNames(log: Log): set<int> { set i | 0 <= i < |log| :: From(log[i]) }

  lemma NamesOwned(log: Log)
    ensures forall name :: name in MarkerNames(log) <==> Owned(log, name)
  {
  }

  lemma AllMarkersUsed(events: EventFiles, markers: MarkerFiles, log: Log)
    requires Stores(events, markers, log) && markers.Keys - MarkerNames(log) == {}
    ensures StoresExactly(events, markers, log)
  {
    hide Stores, Records;
    NamesOwned(log);
    forall name | name in markers ensures Owned(log, name) {
      assert name !in markers.Keys - MarkerNames(log);
    }
  }

  lemma EmptyIsStored(setup: Setup, events: EventFiles, markers: MarkerFiles)
    ensures WellFormed(setup, []) && Stores(events, markers, [])
    ensures MarkerNames([]) == {} && forall name :: !CommittedName([], name)
    ensures StateAfter(setup, []).Ok?
    ensures TipOf(setup, []) == Tip(setup.base, None, None, [], setup.base.generation)
  {
    assert Records([]) == [];
  }

  /** One applied marker moves the stored, well-formed log one transaction further. */
  lemma Advance(setup: Setup, events: EventFiles, markers: MarkerFiles, log: Log, tx: Transaction)
    requires WellFormed(setup, log) && Stores(events, markers, log)
    requires Applicable(setup, events, log, tx.marker, tx)
    requires |Records(log)| + 1 in markers && markers[|Records(log)| + 1] == tx.marker
    ensures WellFormed(setup, log + [tx]) && Stores(events, markers, log + [tx])
    ensures From(tx) == |Records(log)| + 1
  {
    hide Fold, Extends, WellFormed, Records, Stores;
    ExtendWellFormed(setup, log, tx);
    Freshness(setup, log, tx);
    StoresAppend(setup, events, markers, log, tx);
  }

  lemma NamesAdvance(setup: Setup, log: Log, tx: Transaction)
    requires Extends(setup, log, tx)
    ensures MarkerNames(log + [tx]) == MarkerNames(log) + {|Records(log)| + 1}
    ensures forall name :: CommittedName(log + [tx], name) <==>
              CommittedName(log, name)
              || name in set k | 0 <= k < |tx.marker.body.refs| :: tx.marker.body.refs[k].sequence
  {
    hide Fold, Extends, Records;
    ExtensionSequences(setup, log, tx);
    Freshness(setup, log, tx);
    RecordsAppend(log, tx);
    var refs := tx.marker.body.refs;
    forall i | CommittedName(log + [tx], i) && !CommittedName(log, i)
      ensures i in set k | 0 <= k < |refs| :: refs[k].sequence
    {
      assert refs[i - 1 - |Records(log)|].sequence == i;
    }
    forall i | i in MarkerNames(log + [tx]) ensures i in MarkerNames(log) + {|Records(log)| + 1} {
      var j :| 0 <= j < |log + [tx]| && From((log + [tx])[j]) == i;
      if j < |log| { assert (log + [tx])[j] == log[j]; }
    }
    forall i | i in MarkerNames(log) + {|Records(log)| + 1} ensures i in MarkerNames(log + [tx]) {
      if i in MarkerNames(log) {
        var j :| 0 <= j < |log| && From(log[j]) == i;
        assert (log + [tx])[j] == log[j];
      } else {
        assert (log + [tx])[|log|] == tx;
      }
    }
  }

  /** A marker right above the tip that cannot be applied means that no log at all is stored. */
  lemma StuckMeansCorrupt(setup: Setup, events: EventFiles, markers: MarkerFiles, log: Log)
    requires WellFormed(setup, log) && Stores(events, markers, log)
    requires |Records(log)| + 1 in markers
    requires var marker := markers[|Records(log)| + 1];
             ValidMarker(marker) ==> forall tx :: !Applicable(setup, events, log, marker, tx)
    ensures forall other :: WellFormed(setup, other) ==> !StoresExactly(events, markers, other)
  {
    hide Fold, Extends, WellFormed, Records, Stores;
    forall other | WellFormed(setup, other) ensures !StoresExactly(events, markers, other) {
      if StoresExactly(events, markers, other) {
        ExactIsLongest(setup, events, markers, other, log);
        if |log| < |other| {
          NextIsApplicable(setup, events, markers, log, other);
        } else {
          assert other[..|log|] == other;
          NothingAboveTip(setup, other);
        }
      }
    }
  }

  lemma NextIsApplicable(setup: Setup, events: EventFiles, markers: MarkerFiles, log: Log, longer: Log)
    requires WellFormed(setup, longer) && Stores(events, markers, longer)
    requires |log| < |longer| && log == longer[..|log|]
    ensures |Records(log)| + 1 in markers && ValidMarker(markers[|Records(log)| + 1])
    ensures Applicable(setup, events, log, markers[|Records(log)| + 1], longer[|log|])
  {
    hide Fold, Extends, WellFormed, Records, Stores;
    FromAt(setup, longer, |log|);
    StoredRecords(setup, events, markers, longer, |log|);
    PrefixWellFormed(setup, longer, |log|);
  }

  lemma GapMeansCorrupt(setup: Setup, events: EventFiles, markers: MarkerFiles, log: Log)
    requires WellFormed(setup, log) && Stores(events, markers, log)
    requires |Records(log)| + 1 !in markers && markers.Keys - MarkerNames(log) != {}
    ensures forall other :: WellFormed(setup, other) ==> !StoresExactly(events, markers, other)
  {
    hide Fold, Extends, WellFormed, Records, Stores;
    var name := Member(markers.Keys - MarkerNames(log));
    NamesOwned(log);
    forall other | WellFormed(setup, other) ensures !StoresExactly(events, markers, other) {
      if StoresExactly(events, markers, other) {
        ExactIsLongest(setup, events, markers, other, log);
      }
    }
  }

  lemma OrphanMoves(events: EventFiles, markers: MarkerFiles, log: Log, name: int)
    requires StoresExactly(events, markers, log) && !CommittedName(log, name)
    ensures StoresExactly(events - {name}, markers, log)
  {
    forall i | 0 <= i < |Records(log)| ensures HoldsRecord(events - {name}, Records(log), i) {
      assert HoldsRecord(events, Records(log), i);
      assert CommittedName(log, i + 1);
    }
  }

  lemma KeptMoves(events: EventFiles, quarantine: set<StoredEvent>, name: int)
    requires name in events
    ensures events.Values + quarantine == (events - {name}).Values + (quarantine + {events[name]})
    ensures |events - {name}| == |events| - 1
  {
    var rest := events - {name};
    forall data | data in events.Values && data != events[name] ensures data in rest.Values {
      ValueElsewhere(events, name, data);
    }
    assert rest.Keys == events.Keys - {name};
    assert |rest| == |rest.Keys| && |events| == |events.Keys|;
  }

  lemma ValueElsewhere(events: EventFiles, name: int, data: StoredEvent)
    requires name in events && data in events.Values && data != events[name]
    ensures data in (events - {name}).Values
  {
    var other := KeyOf(events, data);
    assert other in events - {name} && (events - {name})[other] == data;
  }

  lemma ExactIsUnique(setup: Setup, events: EventFiles, markers: MarkerFiles, exact: Log, log: Log)
    requires WellFormed(setup, exact) && StoresExactly(events, markers, exact)
    ensures WellFormed(setup, log) && StoresExactly(events, markers, log) ==> log == exact
  {
    hide Fold, Extends, WellFormed, Records, Stores;
    if WellFormed(setup, log) && StoresExactly(events, markers, log) {
      ExactIsLongest(setup, events, markers, exact, log);
      ExactIsLongest(setup, events, markers, log, exact);
      assert exact[..|log|] == exact;
    }
  }

  lemma NothingCommittedBeyond(setup: Setup, events: EventFiles, markers: MarkerFiles, committed: Log, seen: Log)
    requires WellFormed(setup, committed) && StoresExactly(events, markers, committed)
    requires WellFormed(setup, seen) && seen <= committed && |Records(seen)| + 1 !in markers
    ensures seen == committed
  {
    hide Fold, Extends, WellFormed, Records, Stores;
    assert committed[..|seen|] == seen;
    StoresPrefix(events, markers, committed, |seen|);
    ExactIsLongest(setup, events, markers, committed, seen);
  }

  /** A marker above a committed prefix is the next committed one, and it can be applied. */
  lemma NextCommitted(setup: Setup, events: EventFiles, markers: MarkerFiles, committed: Log, seen: Log)
    requires WellFormed(setup, committed) && StoresExactly(events, markers, committed)
    requires WellFormed(setup, seen) && seen <= committed && |Records(seen)| + 1 in markers
    ensures |seen| < |committed| && ValidMarker(markers[|Records(seen)| + 1])
    ensures Applicable(setup, events, seen, markers[|Records(seen)| + 1], committed[|seen|])
  {
    hide Fold, Extends, WellFormed, Records, Stores;
    if |seen| == |committed| {
      assert seen == committed;
      NothingAboveTip(setup, committed);
      assert false;
    }
    assert seen == committed[..|seen|];
    NextIsApplicable(setup, events, markers, seen, committed);
  }

  lemma AdvanceWithin(
    setup: Setup, events: EventFiles, markers: MarkerFiles, committed: Log, seen: Log, tx: Transaction)
    requires WellFormed(setup, committed) && StoresExactly(events, markers, committed)
    requires WellFormed(setup, seen) && seen <= committed && |Records(seen)| + 1 in markers
    requires Applicable(setup, events, seen, markers[|Records(seen)| + 1], tx)
    ensures WellFormed(setup, seen + [tx]) && seen + [tx] <= committed
  {
    hide Fold, Extends, WellFormed, Records, Stores;
    assert seen == committed[..|seen|];
    StoresPrefix(events, markers, committed, |seen|);
    Advance(setup, events, markers, seen, tx);
    ExactIsLongest(setup, events, markers, committed, seen + [tx]);
  }

  /** How many events the first k transactions hold. */
  function Boundary(log: Log, k: nat): nat
    requires k <= |log|
  {
    |Records(log[..k])|
  }

  ghost predicate IsBoundary(log: Log, sequence: int) {
    exists k: nat :: k <= |log| && Boundary(log, k) == sequence
  }

  lemma BoundaryStep(setup: Setup, log: Log, k: nat)
    requires WellFormed(setup, log) && k < |log|
    ensures log[k].marker.body.fromSequence == Boundary(log, k) + 1
    ensures log[k].marker.body.toSequence == Boundary(log, k + 1)
    ensures Boundary(log, k) < Boundary(log, k + 1)
    ensures Boundary(log, |log|) == |Records(log)|
  {
    hide Extends, WellFormed, Records;
    ReceiptAt(setup, log, k);
    assert log[..|log|] == log;
  }

  lemma BoundaryTop(log: Log)
    ensures Boundary(log, 0) == 0 && Boundary(log, |log|) == |Records(log)|
  {
    assert log[..|log|] == log;
  }

  lemma {:induction false} BoundariesAscend(setup: Setup, log: Log, i: nat, j: nat)
    requires WellFormed(setup, log) && i < j <= |log|
    ensures Boundary(log, i) < Boundary(log, j)
    decreases j
  {
    hide Extends, WellFormed, Records, Boundary;
    BoundaryStep(setup, log, j - 1);
    if i < j - 1 { BoundariesAscend(setup, log, i, j - 1); }
  }

  /** A sequence strictly inside one transaction, or beyond the last, is no boundary. */
  lemma BetweenBoundaries(setup: Setup, log: Log, k: nat, target: int)
    requires WellFormed(setup, log) && k <= |log| && Boundary(log, k) < target
    requires k < |log| ==> target < Boundary(log, k + 1)
    ensures !IsBoundary(log, target)
  {
    hide Extends, WellFormed, Records, Boundary;
    forall j: nat | j <= |log| ensures Boundary(log, j) != target {
      if j < k { BoundariesAscend(setup, log, j, k); }
      if j > k + 1 { BoundariesAscend(setup, log, k + 1, j); }
    }
  }

  lemma BeyondHistory(setup: Setup, log: Log, sequence: int)
    requires WellFormed(setup, log) && sequence > |Records(log)|
    ensures !IsBoundary(log, sequence)
  {
    hide Extends, WellFormed, Records;
    assert log[..|log|] == log;
    BetweenBoundaries(setup, log, |log|, sequence);
  }

  lemma HistoryPrefix(log: Log, k: nat)
    requires k <= |log|
    ensures Boundary(log, k) <= |History(log)| && History(log[..k]) == History(log)[..Boundary(log, k)]
  {
    RecordsPrefix(log, k);
    var prefix := Records(log[..k]);
    forall i | 0 <= i < |prefix| ensures History(log[..k])[i] == History(log)[i] {
      assert Records(log)[..|prefix|][i] == Records(log)[i];
    }
  }

  /** What lies beyond the first n events. */
  function Beyond(events: seq<Event>, n: nat): seq<Event> {
    if n <= |events| then events[n..] else []
  }

  lemma BeyondGrows(events: seq<Event>, i: nat, n: nat)
    requires i < |events|
    ensures Beyond(events[..i + 1], n) == Beyond(events[..i], n) + (if i + 1 > n then [events[i]] else [])
  {
    assert events[..i + 1] == events[..i] + [events[i]];
  }

  /** The i-th record of a committed transaction is on disk and is the history's next event. */
  lemma EventOnDisk(setup: Setup, events: EventFiles, markers: MarkerFiles, committed: Log, k: nat, i: nat)
    requires WellFormed(setup, committed) && Stores(events, markers, committed)
    requires k < |committed| && i < |committed[k].marker.body.refs|
    ensures var name := committed[k].marker.body.refs[i].sequence;
            && name == Boundary(committed, k) + i + 1 && name in events && ValidEvent(events[name])
            && Boundary(committed, k) + i < |History(committed)|
            && events[name].body.event == History(committed)[Boundary(committed, k) + i]
  {
    hide Fold, WellFormed, Records, Stores;
    PrefixWellFormed(setup, committed, k);
    ExtensionSequences(setup, committed[..k], committed[k]);
    StoredRecords(setup, events, markers, committed, k);
    assert RecordFits(setup, committed[..k], committed[k], i);
    RecordsAt(committed, k);
    var at := Boundary(committed, k);
    assert Records(committed)[at..at + |committed[k].records|][i] == Records(committed)[at + i];
  }

  lemma OrphanAppears(events: EventFiles, markers: MarkerFiles, log: Log, record: StoredEvent)
    requires StoresExactly(events, markers, log) && record.body.event.sequence > |Records(log)|
    requires record.body.event.sequence !in events
    ensures var after := events[record.body.event.sequence := record];
            && StoresExactly(after, markers, log) && after.Values == events.Values + {record}
  {
    var name := record.body.event.sequence;
    var after := events[name := record];
    forall i | 0 <= i < |Records(log)| ensures HoldsRecord(after, Records(log), i) {
      assert HoldsRecord(events, Records(log), i);
    }
    forall data | data in events.Values ensures data in after.Values {
      var key := KeyOf(events, data);
      assert key in after && after[key] == data;
    }
    assert name in after && after[name] == record;
  }

  /** The receipts name exactly the committed events. */
  lemma ReceiptsNameEvents(setup: Setup, log: Log, ids: set<string>)
    requires WellFormed(setup, log)
    requires ids == set i, k | 0 <= i < |Receipts(log)| && 0 <= k < |Receipts(log)[i].eventIds| ::
                      Receipts(log)[i].eventIds[k]
    ensures forall id :: id in ids <==> EventIdTaken(log, id)
  {
    hide Extends, WellFormed, Records;
    forall id | id in ids ensures EventIdTaken(log, id) {
      var i, k :| 0 <= i < |Receipts(log)| && 0 <= k < |Receipts(log)[i].eventIds| && Receipts(log)[i].eventIds[k] == id;
      ReceiptAt(setup, log, i);
      RecordsAt(log, i);
      var at := |Records(log[..i])|;
      assert Records(log)[at..at + |log[i].records|][k] == Records(log)[at + k];
    }
    forall id | EventIdTaken(log, id) ensures id in ids {
      var i :| 0 <= i < |Records(log)| && Records(log)[i].body.event.eventId == id;
      var j, k := RecordOwner(setup, log, i);
    }
  }

  lemma IntentsTakenStep(log: Log, k: nat)
    requires k < |log|
    ensures forall id :: IntentTaken(log[..k + 1], id) <==> IntentTaken(log[..k], id) || NamesIntent(log[k], id)
  {
    hide NamesIntent;
    assert log[..k + 1] == log[..k] + [log[k]];
    forall id | IntentTaken(log[..k], id) ensures IntentTaken(log[..k + 1], id) {
      var i :| 0 <= i < k && NamesIntent(log[..k][i], id);
      assert NamesIntent(log[..k + 1][i], id);
    }
    forall id | NamesIntent(log[k], id) ensures IntentTaken(log[..k + 1], id) {
      assert NamesIntent(log[..k + 1][k], id);
    }
    forall id | IntentTaken(log[..k + 1], id) ensures IntentTaken(log[..k], id) || NamesIntent(log[k], id) {
      var i :| 0 <= i < k + 1 && NamesIntent(log[..k + 1][i], id);
      if i < k { assert NamesIntent(log[..k][i], id); }
    }
  }

  /** Publishing the marker over published events is what commits: the files then hold one transaction more. */
  lemma MarkerCommits(setup: Setup, events: EventFiles, markers: MarkerFiles, log: Log, tx: Transaction)
    requires WellFormed(setup, log) && StoresExactly(events, markers, log)
    requires Extends(setup, log, tx) && RecordsOnDisk(events, tx)
    ensures From(tx) !in markers && WellFormed(setup, log + [tx])
    ensures StoresExactly(events, markers[From(tx) := tx.marker], log + [tx])
  {
    hide Fold, Extends, WellFormed, Records;
    NothingAboveTip(setup, log);
    Freshness(setup, log, tx);
    ExtendWellFormed(setup, log, tx);
    var after := markers[From(tx) := tx.marker];
    forall i | 0 <= i < |log| ensures From(log[i]) in after && after[From(log[i])] == log[i].marker {
      assert Owned(log, From(log[i]));
    }
    assert Stores(events, after, log);
    StoresAppend(setup, events, after, log, tx);
    forall name | name in after ensures Owned(log + [tx], name) {
      if name == From(tx) {
        assert (log + [tx])[|log|] == tx;
      } else {
        var i :| 0 <= i < |log| && From(log[i]) == name;
        assert (log + [tx])[i] == log[i];
      }
    }
  }

  /** Committed event files are the records of the log. */
  lemma HistoryOnDisk(setup: Setup, events: EventFiles, markers: MarkerFiles, log: Log, i: nat)
    requires Configured(setup) && WellFormed(setup, log) && Stores(events, markers, log) && i < |History(log)|
    ensures i + 1 in events && ValidEvent(events[i + 1]) && events[i + 1].body.event == History(log)[i]
  {
    hide Extends, WellFormed, Records;
    assert HoldsRecord(events, Records(log), i);
    RecordsValid(setup, log, i);
  }

  lemma {:induction false} RecordsValid(setup: Setup, log: Log, i: nat)
    requires WellFormed(setup, log) && i < |Records(log)|
    ensures ValidEvent(Records(log)[i])
    decreases |log|
  {
    hide Fold, WellShaped, GenerationFits, FreshIdentities, Reaches, ValidEvent, ValidMarker;
    if i < |Records(Init(log))| {
      RecordsValid(setup, Init(log), i);
    } else {
      assert RecordFits(setup, Init(log), Last(log), i - |Records(Init(log))|);
    }
  }

  lemma TransactionEvents(setup: Setup, log: Log, k: nat)
    requires WellFormed(setup, log) && k < |log|
    ensures Boundary(log, k) <= Boundary(log, k + 1) <= |History(log)|
    ensures History(log)[Boundary(log, k)..Boundary(log, k + 1)] == EventsOf(log[k].records)
  {
    hide Extends, WellFormed, Records;
    ReceiptAt(setup, log, k);
    RecordsAt(log, k);
    var at := Boundary(log, k);
    forall i | 0 <= i < |log[k].records| ensures History(log)[at + i] == EventsOf(log[k].records)[i] {
      assert Records(log)[at..at + |log[k].records|][i] == Records(log)[at + i];
    }
  }

  lemma NoMarkerYet(setup: Setup, events: EventFiles, markers: MarkerFiles, log: Log, tx: Transaction)
    requires WellFormed(setup, log) && StoresExactly(events, markers, log) && Extends(setup, log, tx)
    ensures From(tx) !in markers
  {
    hide Fold, Extends, WellFormed, Records;
    NothingAboveTip(setup, log);
    Freshness(setup, log, tx);
  }

  lemma RequestAddressed(setup: Setup, request: Request)
    requires RequestFault(setup, request).None?
    ensures Addressed(setup, request)
  {
  }

  // ---------------------------------------------------------------- promised effects

  function Intents(log: Log): seq<Intent> {
    if log == [] then [] else Intents(log[..|log| - 1]) + log[|log| - 1].marker.body.intents
  }

  function CompletedIn(events: seq<Event>): set<string> {
    set event | event in events && event.payload.ExportCompleted? :: event.payload.intentId
  }

  function Outstanding(intents: seq<Intent>, completed: set<string>): (rest: seq<Intent>)
    ensures forall intent :: intent in rest <==> intent in intents && intent.intentId !in completed
  {
    if intents == [] then []
    else
      var before := Outstanding(intents[..|intents| - 1], completed);
      var last := intents[|intents| - 1];
      if last.intentId in completed then before else before + [last]
  }

  /** The effects a log still owes: promised by a marker and reported by no event. */
  function PendingIntents(log: Log): seq<Intent> {
    Outstanding(Intents(log), CompletedIn(History(log)))
  }

  lemma IntentsStep(log: Log, k: nat)
    requires k < |log|
    ensures Intents(log[..k + 1]) == Intents(log[..k]) + log[k].marker.body.intents
  {
    assert log[..k + 1][..k] == log[..k];
  }

  /** Over any later log, an effect once reported as completed is never owed again. */
  lemma CompletedStaysSettled(setup: Setup, log: Log, count: nat, id: string)
    requires WellFormed(setup, log) && count <= |log| && id in CompletedIn(History(log[..count]))
    ensures forall intent :: intent in PendingIntents(log) ==> intent.intentId != id
  {
    hide Extends, WellFormed, Intents;
    RecordsPrefix(log, count);
    var event :| event in History(log[..count]) && event.payload.ExportCompleted? && event.payload.intentId == id;
    var i :| 0 <= i < |History(log[..count])| && History(log[..count])[i] == event;
    assert History(log)[i] == event;
  }
}
