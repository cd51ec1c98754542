/** When a directory of event files and a directory of marker files hold a given log. */
module StoredLog {
  import opened EventLog
  import opened LogProperties

  type EventFiles = map<int, StoredEvent>
  type MarkerFiles = map<int, Marker>

  function From(tx: Transaction): int { tx.marker.body.fromSequence }

  predicate HoldsRecord(events: EventFiles, records: seq<StoredEvent>, i: nat)
    requires i < |records|
  {
    i + 1 in events && events[i + 1] == records[i]
  }

  /** Every committed record and marker is on disk under its own name; anything else may lie beside them. */
  predicate Stores(events: EventFiles, markers: MarkerFiles, log: Log) {
    && (forall i :: 0 <= i < |Records(log)| ==> HoldsRecord(events, Records(log), i))
    && (forall i :: 0 <= i < |log| ==> From(log[i]) in markers && markers[From(log[i])] == log[i].marker)
  }

  ghost predicate Owned(log: Log, name: int) {
    exists i :: 0 <= i < |log| && From(log[i]) == name
  }

  /** The marker files are those of the log and no others: they alone say what is committed. */
  ghost predicate StoresExactly(events: EventFiles, markers: MarkerFiles, log: Log) {
    Stores(events, markers, log) && forall name :: name in markers ==> Owned(log, name)
  }

  /** The records a marker refers to are the ones found on disk. */
  predicate RecordsOnDisk(events: EventFiles, tx: Transaction) {
    && |tx.records| == |tx.marker.body.refs|
    && forall k :: 0 <= k < |tx.records| ==>
         && tx.marker.body.refs[k].sequence in events
         && events[tx.marker.body.refs[k].sequence] == tx.records[k]
  }

  lemma FromAt(setup: Setup, log: Log, i: nat)
    requires WellFormed(setup, log) && i < |log|
    ensures From(log[i]) == |Records(log[..i])| + 1
    ensures log[i].records != []
    ensures |Records(log[..i])| + |log[i].records| <= |Records(log)|
  {
    hide Extends, WellFormed, Records;
    ReceiptAt(setup, log, i);
    assert Receipts(log)[i].fromSequence == From(log[i]);
    RecordsPrefix(log, i + 1);
  }

  /** No committed transaction starts above the tip. */
  lemma NothingAboveTip(setup: Setup, log: Log)
    requires WellFormed(setup, log)
    ensures !Owned(log, |Records(log)| + 1)
  {
    hide Extends, WellFormed, Records;
    forall i | 0 <= i < |log| ensures From(log[i]) != |Records(log)| + 1 {
      FromAt(setup, log, i);
    }
  }

  lemma ExtensionSequences(setup: Setup, log: Log, tx: Transaction)
    requires Extends(setup, log, tx)
    ensures |tx.records| == |tx.marker.body.refs|
    ensures forall k :: 0 <= k < |tx.records| ==>
              && tx.marker.body.refs[k] == RefOf(tx.records[k])
              && tx.marker.body.refs[k].sequence == |Records(log)| + 1 + k
  {
    hide Fold, WellShaped, GenerationFits, FreshIdentities;
    assert |RefsOf(tx.records)| == |tx.records|;
  }

  /** Storing one more transaction on top of a stored log. */
  lemma StoresAppend(setup: Setup, events: EventFiles, markers: MarkerFiles, log: Log, tx: Transaction)
    requires WellFormed(setup, log) && Extends(setup, log, tx)
    requires Stores(events, markers, log) && RecordsOnDisk(events, tx)
    requires From(tx) in markers && markers[From(tx)] == tx.marker
    ensures Stores(events, markers, log + [tx])
  {
    hide Extends, WellFormed, Records;
    ExtensionSequences(setup, log, tx);
    RecordsAppend(log, tx);
    forall i | 0 <= i < |Records(log + [tx])|
      ensures HoldsRecord(events, Records(log + [tx]), i)
    {
      if i < |Records(log)| {
        assert HoldsRecord(events, Records(log), i);
      } else {
        var k := i - |Records(log)|;
        assert tx.marker.body.refs[k].sequence == i + 1;
      }
    }
  }

  /** A stored log stores each of its transactions' records where its marker says. */
  lemma StoredRecords(setup: Setup, events: EventFiles, markers: MarkerFiles, log: Log, i: nat)
    requires WellFormed(setup, log) && Stores(events, markers, log) && i < |log|
    ensures RecordsOnDisk(events, log[i])
    ensures From(log[i]) in markers && markers[From(log[i])] == log[i].marker && ValidMarker(log[i].marker)
  {
    hide WellFormed, Records, Fold;
    PrefixWellFormed(setup, log, i);
    ExtensionSequences(setup, log[..i], log[i]);
    RecordsAt(log, i);
    var at := |Records(log[..i])|;
    forall k | 0 <= k < |log[i].records|
      ensures log[i].marker.body.refs[k].sequence in events
      ensures events[log[i].marker.body.refs[k].sequence] == log[i].records[k]
    {
      assert HoldsRecord(events, Records(log), at + k);
      assert Records(log)[at..at + |log[i].records|][k] == Records(log)[at + k];
    }
  }

  lemma StoresPrefix(events: EventFiles, markers: MarkerFiles, log: Log, k: nat)
    requires Stores(events, markers, log) && k <= |log|
    ensures Stores(events, markers, log[..k])
  {
    RecordsPrefix(log, k);
    forall i | 0 <= i < |Records(log[..k])|
      ensures HoldsRecord(events, Records(log[..k]), i)
    {
      assert HoldsRecord(events, Records(log), i);
      assert Records(log)[..|Records(log[..k])|][i] == Records(log)[i];
    }
  }

  /** The disk determines the log: two logs stored in the same files agree as far as both go. */
  lemma {:induction false} StoredLogsAgree(
    setup: Setup, events: EventFiles, markers: MarkerFiles, log: Log, other: Log, k: nat)
    requires WellFormed(setup, log) && WellFormed(setup, other)
    requires Stores(events, markers, log) && Stores(events, markers, other)
    requires k <= |log| && k <= |other|
    ensures log[..k] == other[..k]
    decreases k
  {
    hide Extends, WellFormed, Records, Stores;
    if k > 0 {
      StoredLogsAgree(setup, events, markers, log, other, k - 1);
      FromAt(setup, log, k - 1);
      FromAt(setup, other, k - 1);
      StoredRecords(setup, events, markers, log, k - 1);
      StoredRecords(setup, events, markers, other, k - 1);
      assert log[k - 1].records == other[k - 1].records;
      assert log[..k] == log[..k - 1] + [log[k - 1]];
      assert other[..k] == other[..k - 1] + [other[k - 1]];
    }
  }

  /** A log stored exactly is the only one, and every other stored log is a prefix of it. */
  lemma ExactIsLongest(setup: Setup, events: EventFiles, markers: MarkerFiles, exact: Log, log: Log)
    requires WellFormed(setup, exact) && WellFormed(setup, log)
    requires StoresExactly(events, markers, exact) && Stores(events, markers, log)
    ensures |log| <= |exact| && log == exact[..|log|]
    ensures |Records(log)| + 1 !in markers ==> log == exact
  {
    hide Extends, WellFormed, Records, Stores;
    if |log| > |exact| {
      StoredLogsAgree(setup, events, markers, log, exact, |exact|);
      assert exact[..|exact|] == exact;
      FromAt(setup, log, |exact|);
      StoredRecords(setup, events, markers, log, |exact|);
      NothingAboveTip(setup, exact);
      assert false;
    }
    StoredLogsAgree(setup, events, markers, log, exact, |log|);
    assert log[..|log|] == log;
    if |Records(log)| + 1 !in markers && |log| < |exact| {
      FromAt(setup, exact, |log|);
      StoredRecords(setup, events, markers, exact, |log|);
      assert false;
    }
    assert exact[..|exact|] == exact;
  }

  /** Every committed event is named by the receipt of its transaction. */
  lemma {:induction false} RecordOwner(setup: Setup, log: Log, i: nat) returns (j: nat, k: nat)
    requires WellFormed(setup, log) && i < |Records(log)|
    ensures j < |log| && k < |Receipts(log)[j].eventIds|
    ensures Receipts(log)[j].eventIds[k] == Records(log)[i].body.event.eventId
    decreases |log|
  {
    hide Extends;
    if i < |Records(Init(log))| {
      j, k := RecordOwner(setup, Init(log), i);
      assert Receipts(log)[j] == Receipts(Init(log))[j];
    } else {
      j, k := |log| - 1, i - |Records(Init(log))|;
      assert log[..|log| - 1] == Init(log);
      ReceiptAt(setup, log, |log| - 1);
    }
  }
}
