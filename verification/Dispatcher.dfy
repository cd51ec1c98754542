/**
  The after-commit dispatcher (dispatch.py): committed batches arrive in any order, are buffered until the missing
  prefix arrives, and are handed to the observer hub; batches that failed at the hub are retried on later calls.
  Whether the hub raises, and which callbacks raise, at the n-th publish attempt is the input `trouble`.
  */
module Dispatcher {
  import opened Wrappers
  import opened ObserverHub

  datatype Trouble = HubRaises | Callbacks(failing: set<string>)

  datatype RetryKey = RetryKey(stream: Stream, first: nat, last: nat)

  datatype DiagnosticCode = IntegrityDiagnostic | PublishFailed

  datatype Diagnostic = Diagnostic(stream: Stream, sequence: nat, code: DiagnosticCode)

  datatype Outcome = Published(diagnostics: seq<Diagnostic>) | Raised(fault: BatchFault)

  datatype Disposition = Rejected | Replayed | Buffered

  /** One event per stream and sequence, with an id no other sequence of the stream has. */
  ghost predicate GroundTruth(truth: (Stream, nat) -> Identity) {
    forall stream, p, q :: truth(stream, p).id == truth(stream, q).id ==> p == q
  }

  ghost predicate BatchFollows(batch: Batch, truth: (Stream, nat) -> Identity) {
    forall view :: view in batch.events ==> Identity(view.id, view.payload) == truth(batch.stream, view.sequence)
  }

  ghost predicate Follows(known: map<Slot, Identity>, truth: (Stream, nat) -> Identity) {
    forall slot :: slot in known ==> known[slot] == truth(slot.stream, slot.sequence)
  }

  predicate Known(known: map<Slot, Identity>, stream: Stream, view: View) {
    Slot(stream, view.sequence) in known && known[Slot(stream, view.sequence)] == Identity(view.id, view.payload)
  }

  /** A different event holds the slot. */
  predicate Displaced(known: map<Slot, Identity>, stream: Stream, view: View) {
    Slot(stream, view.sequence) in known && known[Slot(stream, view.sequence)] != Identity(view.id, view.payload)
  }

  ghost predicate AllKnown(known: map<Slot, Identity>, batch: Batch) {
    forall view :: view in batch.events ==> Known(known, batch.stream, view)
  }

  function NextIn(next: map<Stream, nat>, stream: Stream): nat {
    if stream in next then next[stream] else 1
  }

  predicate IsPending(pending: map<Stream, map<nat, View>>, stream: Stream, sequence: nat) {
    stream in pending && sequence in pending[stream]
  }

  function With(queue: map<nat, View>, view: View): map<nat, View> {
    queue[view.sequence := view]
  }

  /** Buffered events are accepted ones at or above the next sequence of their stream. */
  ghost predicate PendingSound(pending: map<Stream, map<nat, View>>, next: map<Stream, nat>,
                               known: map<Slot, Identity>)
  {
    forall stream, q :: IsPending(pending, stream, q) ==>
      && pending[stream][q].sequence == q && NextIn(next, stream) <= q
      && Known(known, stream, pending[stream][q])
  }

  /** Every accepted event is buffered or below the next sequence; everything below it has been accepted. */
  ghost predicate Placed(pending: map<Stream, map<nat, View>>, next: map<Stream, nat>, known: map<Slot, Identity>) {
    && (forall slot :: slot in known ==>
          1 <= slot.sequence
          && (slot.sequence < NextIn(next, slot.stream) || IsPending(pending, slot.stream, slot.sequence)))
    && (forall slot: Slot :: 1 <= slot.sequence < NextIn(next, slot.stream) ==> slot in known)
  }

  ghost predicate RetrySound(retry: map<RetryKey, Batch>, next: map<Stream, nat>, known: map<Slot, Identity>) {
    forall key :: key in retry ==>
      && retry[key].Valid()
      && key == RetryKey(retry[key].stream, retry[key].First(), retry[key].Last())
      && key.last < NextIn(next, key.stream)
      && AllKnown(known, retry[key])
  }

  /** Facts the hub has accepted are accepted events below the next sequence of their stream. */
  ghost predicate FactsPassed(facts: set<Fact>, next: map<Stream, nat>, known: map<Slot, Identity>) {
    forall fact :: fact in facts ==>
      Known(known, fact.stream, fact.view) && fact.view.sequence < NextIn(next, fact.stream)
  }

  /** No slot ever changes hands. */
  ghost predicate Grows(known: map<Slot, Identity>, more: map<Slot, Identity>) {
    forall slot :: slot in known ==> slot in more && more[slot] == known[slot]
  }

  lemma MoreKnown(known: map<Slot, Identity>, more: map<Slot, Identity>, next: map<Stream, nat>,
                  pending: map<Stream, map<nat, View>>, retry: map<RetryKey, Batch>, facts: set<Fact>)
    requires Grows(known, more)
    ensures PendingSound(pending, next, known) ==> PendingSound(pending, next, more)
    ensures RetrySound(retry, next, known) ==> RetrySound(retry, next, more)
    ensures FactsPassed(facts, next, known) ==> FactsPassed(facts, next, more)
  {
    hide Batch.Valid;
  }

  /** Accepting an event whose slot is free or its own, and buffering it unless its stream has passed it. */
  lemma TakeKeepsPlaced(known: map<Slot, Identity>, next: map<Stream, nat>, pending: map<Stream, map<nat, View>>,
                        stream: Stream, view: View)
    requires stream in pending && 1 <= view.sequence && !Displaced(known, stream, view)
    requires PendingSound(pending, next, known) && Placed(pending, next, known)
    ensures var more := known[Slot(stream, view.sequence) := Identity(view.id, view.payload)];
            var buffered := pending[stream := With(pending[stream], view)];
            && Grows(known, more)
            && (view.sequence < NextIn(next, stream) ==> Placed(pending, next, more))
            && (NextIn(next, stream) <= view.sequence ==>
                  PendingSound(buffered, next, more) && Placed(buffered, next, more))
  {
    hide Known;
    var more := known[Slot(stream, view.sequence) := Identity(view.id, view.payload)];
    var buffered := pending[stream := With(pending[stream], view)];
    assert Grows(known, more);
    assert forall other, q :: IsPending(buffered, other, q) <==>
                                IsPending(pending, other, q) || (other == stream && q == view.sequence);
    if NextIn(next, stream) <= view.sequence {
      BufferKeepsSound(known, next, pending, stream, view);
    }
  }

  lemma BufferKeepsSound(known: map<Slot, Identity>, next: map<Stream, nat>, pending: map<Stream, map<nat, View>>,
                         stream: Stream, view: View)
    requires stream in pending && NextIn(next, stream) <= view.sequence && !Displaced(known, stream, view)
    requires PendingSound(pending, next, known)
    ensures PendingSound(pending[stream := With(pending[stream], view)], next,
                         known[Slot(stream, view.sequence) := Identity(view.id, view.payload)])
  {
    var buffered := pending[stream := With(pending[stream], view)];
    assert forall other, q :: IsPending(buffered, other, q) ==>
                                IsPending(pending, other, q) || (other == stream && q == view.sequence);
  }

  function SlotsUpTo(batch: Batch, count: nat): set<Slot>
    requires count <= |batch.events|
  {
    set i | 0 <= i < count :: Slot(batch.stream, batch.events[i].sequence)
  }

  function Slots(batch: Batch): set<Slot> {
    SlotsUpTo(batch, |batch.events|)
  }

  ghost predicate Ascending(events: seq<View>) {
    forall i, j :: 0 <= i < j < |events| ==> events[i].sequence < events[j].sequence
  }

  /** The accepted ones among the first events of the batch that lie below `next`, in order. */
  ghost predicate IsOlderUpTo(older: seq<View>, batch: Batch, count: nat, known: map<Slot, Identity>, next: nat)
    requires count <= |batch.events|
  {
    && Ascending(older)
    && (forall view :: view in older <==>
          view in batch.events[..count] && Known(known, batch.stream, view) && view.sequence < next)
  }

  ghost predicate IsOlder(older: seq<View>, batch: Batch, known: map<Slot, Identity>, next: nat) {
    IsOlderUpTo(older, batch, |batch.events|, known, next)
  }

  ghost predicate Prefixed(older: seq<View>, batch: Batch, count: nat, next: nat)
    requires count <= |batch.events|
  {
    older <= batch.events[..count] && (|older| < count ==> next <= batch.events[|older|].sequence)
  }

  function AllSlots(batches: seq<Batch>): set<Slot> {
    if batches == [] then {} else AllSlots(batches[..|batches| - 1]) + Slots(batches[|batches| - 1])
  }

  /** The accepted events after one more: the first event to arrive holds its slot. */
  function Accept(known: map<Slot, Identity>, stream: Stream, view: View): map<Slot, Identity> {
    if Slot(stream, view.sequence) in known then known
    else known[Slot(stream, view.sequence) := Identity(view.id, view.payload)]
  }

  function AcceptFirst(known: map<Slot, Identity>, batch: Batch, count: nat): map<Slot, Identity>
    requires count <= |batch.events|
  {
    if count == 0 then known
    else Accept(AcceptFirst(known, batch, count - 1), batch.stream, batch.events[count - 1])
  }

  function AcceptBatch(known: map<Slot, Identity>, batch: Batch): map<Slot, Identity> {
    AcceptFirst(known, batch, |batch.events|)
  }

  function AcceptAll(known: map<Slot, Identity>, batches: seq<Batch>): map<Slot, Identity> {
    if batches == [] then known
    else AcceptBatch(AcceptAll(known, batches[..|batches| - 1]), batches[|batches| - 1])
  }

  lemma AcceptIsUpdate(known: map<Slot, Identity>, stream: Stream, view: View)
    ensures Accept(known, stream, view) ==
            if Displaced(known, stream, view) then known
            else known[Slot(stream, view.sequence) := Identity(view.id, view.payload)]
  {
  }

  lemma {:induction false} AcceptFirstGrows(known: map<Slot, Identity>, batch: Batch, count: nat)
    requires count <= |batch.events|
    ensures Grows(known, AcceptFirst(known, batch, count))
  {
    if count > 0 {
      AcceptFirstGrows(known, batch, count - 1);
    }
  }

  lemma {:induction false} AcceptFirstHolds(known: map<Slot, Identity>, batch: Batch, count: nat, j: nat)
    requires batch.Valid() && j < count <= |batch.events| && Slot(batch.stream, batch.events[j].sequence) !in known
    ensures Known(AcceptFirst(known, batch, count), batch.stream, batch.events[j])
  {
    hide DistinctIds;
    assert batch.events[j].sequence == batch.First() + j && batch.events[count - 1].sequence == batch.First() + count - 1;
    if j < count - 1 {
      AcceptFirstHolds(known, batch, count - 1, j);
    } else {
      AcceptFirstKeys(known, batch, count - 1);
      assert forall i :: 0 <= i < count - 1 ==> batch.events[i].sequence == batch.First() + i;
    }
  }

  lemma {:induction false} AcceptFirstKeys(known: map<Slot, Identity>, batch: Batch, count: nat)
    requires count <= |batch.events|
    ensures AcceptFirst(known, batch, count).Keys == known.Keys + SlotsUpTo(batch, count)
  {
    if count > 0 {
      AcceptFirstKeys(known, batch, count - 1);
    }
  }

  lemma {:induction false} AcceptAllKeys(known: map<Slot, Identity>, batches: seq<Batch>)
    ensures AcceptAll(known, batches).Keys == known.Keys + AllSlots(batches)
  {
    if batches != [] {
      var last := batches[|batches| - 1];
      AcceptAllKeys(known, batches[..|batches| - 1]);
      AcceptFirstKeys(AcceptAll(known, batches[..|batches| - 1]), last, |last.events|);
    }
  }

  /** A slot that was free goes to the first event handed in for it, whatever the batches behind it say. */
  lemma {:induction false} FirstArrivalHolds(known: map<Slot, Identity>, batches: seq<Batch>, i: nat, view: View)
    requires i < |batches| && batches[i].Valid() && view in batches[i].events
    requires Slot(batches[i].stream, view.sequence) !in known.Keys + AllSlots(batches[..i])
    ensures Known(AcceptAll(known, batches), batches[i].stream, view)
  {
    hide Batch.Valid;
    var last := |batches| - 1;
    var most := AcceptAll(known, batches[..last]);
    if i < last {
      assert batches[..last][..i] == batches[..i];
      FirstArrivalHolds(known, batches[..last], i, view);
      AcceptFirstGrows(most, batches[last], |batches[last].events|);
      StillKnown(most, AcceptAll(known, batches));
    } else {
      AcceptAllKeys(known, batches[..last]);
      var j: nat :| j < |batches[i].events| && batches[i].events[j] == view;
      AcceptFirstHolds(most, batches[i], |batches[i].events|, j);
    }
  }

  /** Between two accepted events that the stream has passed, the batch has an event that is not accepted. */
  predicate TornAt(batch: Batch, known: map<Slot, Identity>, next: nat, i: nat, j: nat, k: nat) {
    && i < j < k < |batch.events| && batch.events[k].sequence < next
    && Known(known, batch.stream, batch.events[i]) && !Known(known, batch.stream, batch.events[j])
    && Known(known, batch.stream, batch.events[k])
  }

  ghost predicate Torn(batch: Batch, known: map<Slot, Identity>, next: nat) {
    exists i: nat, j: nat, k: nat :: TornAt(batch, known, next, i, j, k)
  }

  /** The first torn batch of a call, if there is one. */
  ghost function FirstTorn(batches: seq<Batch>, known: map<Slot, Identity>, next: map<Stream, nat>): Option<nat> {
    First(batches, (batch: Batch) => Torn(batch, known, NextIn(next, batch.stream)))
  }

  /** The batches a call takes: all of them, or those up to and including the first torn one. */
  ghost function TakenPart(batches: seq<Batch>, known: map<Slot, Identity>, next: map<Stream, nat>): (part: seq<Batch>)
    ensures part <= batches
  {
    var torn := FirstTorn(batches, known, next);
    if torn.Some? then batches[..torn.value + 1] else batches
  }

  /** The accepted events that replay as a batch fail to be one exactly when the batch is torn. */
  lemma TornDecides(older: seq<View>, batch: Batch, known: map<Slot, Identity>, next: nat)
    requires batch.Valid() && older != [] && IsOlder(older, batch, known, next)
    ensures MakeBatch(batch.stream, older) ==
            if Torn(batch, known, next) then Err(EventSequenceGap) else Ok(Batch(batch.stream, older))
  {
    assert batch.events[..|batch.events|] == batch.events;
    OlderDistinct(older, batch, known, next);
    if Torn(batch, known, next) {
      TornGap(older, batch, known, next);
    } else {
      WholeSteps(older, batch, known, next);
    }
  }

  lemma OlderDistinct(older: seq<View>, batch: Batch, known: map<Slot, Identity>, next: nat)
    requires batch.Valid() && IsOlder(older, batch, known, next)
    ensures DistinctIds(older) && forall view :: view in older ==> 1 <= view.sequence
  {
    assert batch.events[..|batch.events|] == batch.events;
    forall i, j | 0 <= i < j < |older|
      ensures older[i].id != older[j].id
    {
      assert older[i] in batch.events && older[j] in batch.events;
    }
    forall view | view in older
      ensures 1 <= view.sequence
    {
      BatchBelow(batch, view);
    }
  }

  lemma BatchAt(batch: Batch, view: View, j: nat)
    requires batch.Valid() && view in batch.events && j < |batch.events| && view.sequence == batch.events[j].sequence
    ensures view == batch.events[j]
  {
    var m :| 0 <= m < |batch.events| && batch.events[m] == view;
    assert batch.events[m].sequence == batch.First() + m && batch.events[j].sequence == batch.First() + j;
  }

  lemma TornGap(older: seq<View>, batch: Batch, known: map<Slot, Identity>, next: nat)
    requires batch.Valid() && IsOlder(older, batch, known, next) && Torn(batch, known, next)
    ensures !NeighboursStep(older)
  {
    hide DistinctIds, Known;
    assert batch.events[..|batch.events|] == batch.events;
    var i: nat, j: nat, k: nat :| TornAt(batch, known, next, i, j, k);
    assert batch.events[i].sequence == batch.First() + i && batch.events[j].sequence == batch.First() + j
           && batch.events[k].sequence == batch.First() + k;
    var low :| 0 <= low < |older| && older[low] == batch.events[i];
    var high :| 0 <= high < |older| && older[high] == batch.events[k];
    if NeighboursStep(older) {
      StepsConsecutive(older, |older|);
      var middle := low + (j - i);
      assert older[middle] in older;
      BatchAt(batch, older[middle], j);
    }
  }

  lemma NoneBetween(older: seq<View>, m: nat, view: View)
    requires Ascending(older) && 0 < m < |older| && older[m - 1].sequence < view.sequence < older[m].sequence
    ensures view !in older
  {
    forall n | 0 <= n < |older|
      ensures older[n] != view
    {
      if n < m - 1 {
        assert older[n].sequence < older[m - 1].sequence;
      } else if m < n {
        assert older[m].sequence < older[n].sequence;
      }
    }
  }

  lemma WholeSteps(older: seq<View>, batch: Batch, known: map<Slot, Identity>, next: nat)
    requires batch.Valid() && IsOlder(older, batch, known, next) && !Torn(batch, known, next)
    ensures NeighboursStep(older)
  {
    hide DistinctIds, Known;
    assert batch.events[..|batch.events|] == batch.events;
    forall m | 0 < m < |older|
      ensures older[m].sequence == older[m - 1].sequence + 1
    {
      assert older[m - 1] in batch.events && older[m] in batch.events;
      var i: nat :| i < |batch.events| && batch.events[i] == older[m - 1];
      var k: nat :| k < |batch.events| && batch.events[k] == older[m];
      assert batch.events[i].sequence == batch.First() + i && batch.events[k].sequence == batch.First() + k;
      if i + 1 < k {
        assert batch.events[i + 1].sequence == batch.First() + i + 1;
        assert !TornAt(batch, known, next, i, i + 1, k);
        NoneBetween(older, m, batch.events[i + 1]);
      }
    }
  }

  /** Who holds a slot that the stream has passed is settled: accepting more events changes no verdict on it. */
  lemma TornSettled(batch: Batch, known: map<Slot, Identity>, more: map<Slot, Identity>, next: map<Stream, nat>,
                    pending: map<Stream, map<nat, View>>)
    requires batch.Valid() && Placed(pending, next, known) && Grows(known, more)
    ensures Torn(batch, known, NextIn(next, batch.stream)) <==> Torn(batch, more, NextIn(next, batch.stream))
  {
    hide DistinctIds;
    forall i: nat, j: nat, k: nat
      ensures TornAt(batch, known, NextIn(next, batch.stream), i, j, k)
              <==> TornAt(batch, more, NextIn(next, batch.stream), i, j, k)
    {
      if i < j < k < |batch.events| && batch.events[k].sequence < NextIn(next, batch.stream) {
        assert batch.events[i].sequence == batch.First() + i && batch.events[j].sequence == batch.First() + j
               && batch.events[k].sequence == batch.First() + k;
        assert Slot(batch.stream, batch.events[i].sequence) in known && Slot(batch.stream, batch.events[j].sequence) in known
               && Slot(batch.stream, batch.events[k].sequence) in known;
      }
    }
  }

  /** Taking a batch meets the torn case exactly when the events accepted before the call say so. */
  lemma TornNow(older: seq<View>, batch: Batch, start: map<Slot, Identity>, known: map<Slot, Identity>,
                next: map<Stream, nat>, pending: map<Stream, map<nat, View>>)
    requires batch.Valid() && IsOlder(older, batch, known, NextIn(next, batch.stream))
    requires Placed(pending, next, start) && Grows(start, known)
    ensures older == [] ==> !Torn(batch, start, NextIn(next, batch.stream))
    ensures older != [] ==>
              MakeBatch(batch.stream, older) ==
              if Torn(batch, start, NextIn(next, batch.stream)) then Err(EventSequenceGap)
              else Ok(Batch(batch.stream, older))
  {
    hide Placed, Grows, MakeBatch;
    TornSettled(batch, start, known, next, pending);
    if older != [] {
      TornDecides(older, batch, known, NextIn(next, batch.stream));
    } else {
      assert batch.events[..|batch.events|] == batch.events;
      forall i: nat, j: nat, k: nat
        ensures !TornAt(batch, known, NextIn(next, batch.stream), i, j, k)
      {
        assert k < |batch.events| ==> batch.events[k] !in older;
      }
    }
  }

  lemma TornFirst(batches: seq<Batch>, known: map<Slot, Identity>, next: map<Stream, nat>, i: nat)
    requires i < |batches| && Torn(batches[i], known, NextIn(next, batches[i].stream))
    requires forall j :: 0 <= j < i ==> !Torn(batches[j], known, NextIn(next, batches[j].stream))
    ensures FirstTorn(batches, known, next) == Some(i) && TakenPart(batches, known, next) == batches[..i + 1]
  {
    hide Torn;
    var torn := FirstTorn(batches, known, next);
    assert torn.Some? ==> Torn(batches[torn.value], known, NextIn(next, batches[torn.value].stream));
  }

  lemma TornNever(batches: seq<Batch>, known: map<Slot, Identity>, next: map<Stream, nat>)
    requires forall batch :: batch in batches ==> !Torn(batch, known, NextIn(next, batch.stream))
    ensures FirstTorn(batches, known, next) == None && TakenPart(batches, known, next) == batches
  {
    hide Torn;
    var torn := FirstTorn(batches, known, next);
    assert forall j :: 0 <= j < |batches| ==> !Torn(batches[j], known, NextIn(next, batches[j].stream));
  }

  lemma AcceptNext(known: map<Slot, Identity>, batches: seq<Batch>, i: nat)
    requires i < |batches|
    ensures AcceptAll(known, batches[..i + 1]) == AcceptBatch(AcceptAll(known, batches[..i]), batches[i])
  {
    assert batches[..i + 1][..i] == batches[..i];
  }

  /** Two accepted events of a gapless run from `start` on share an id. */
  ghost predicate Clash(known: map<Slot, Identity>, stream: Stream, start: nat, p: nat, q: nat) {
    && start <= p < q
    && (forall r: nat :: start <= r <= q ==> Slot(stream, r) in known)
    && known[Slot(stream, p)].id == known[Slot(stream, q)].id
  }

  /** The run of accepted events that some stream waits to hand on is not a batch: one id occurs twice in it. */
  ghost predicate Jammed(known: map<Slot, Identity>, next: map<Stream, nat>, stream: Stream) {
    exists p: nat, q: nat :: Clash(known, stream, NextIn(next, stream), p, q)
  }

  ghost predicate Jams(known: map<Slot, Identity>, next: map<Stream, nat>) {
    exists stream :: Jammed(known, next, stream)
  }

  lemma JamsAlike(known: map<Slot, Identity>, next: map<Stream, nat>, before: map<Stream, nat>, stream: Stream)
    requires NextIn(next, stream) == NextIn(before, stream)
    ensures Jammed(known, next, stream) <==> Jammed(known, before, stream)
  {
  }

  /** No further event frees a jammed stream. */
  lemma JamStays(known: map<Slot, Identity>, more: map<Slot, Identity>, next: map<Stream, nat>)
    requires Grows(known, more) && Jams(known, next)
    ensures Jams(more, next)
  {
    var stream :| Jammed(known, next, stream);
    var p: nat, q: nat :| Clash(known, stream, NextIn(next, stream), p, q);
    assert Clash(more, stream, NextIn(next, stream), p, q);
    assert Jammed(more, next, stream);
  }

  /** The ready run of a stream is exactly the run of accepted events from the next sequence on. */
  lemma ReadyRun(ready: seq<View>, stream: Stream, pending: map<Stream, map<nat, View>>, next: map<Stream, nat>,
                 known: map<Slot, Identity>)
    requires PendingSound(pending, next, known) && Placed(pending, next, known) && 1 <= NextIn(next, stream)
    requires IsReady(ready, pending, stream, NextIn(next, stream))
    requires !IsPending(pending, stream, NextIn(next, stream) + |ready|)
    ensures IsRun(ready, stream, NextIn(next, stream), known)
  {
    var start := NextIn(next, stream);
    assert Slot(stream, start + |ready|) !in known;
    forall i | 0 <= i < |ready|
      ensures ready[i].sequence == start + i && Known(known, stream, ready[i])
    {
      assert IsPending(pending, stream, ready[i].sequence);
    }
  }

  ghost predicate IsRun(ready: seq<View>, stream: Stream, start: nat, known: map<Slot, Identity>) {
    && (forall i :: 0 <= i < |ready| ==> ready[i].sequence == start + i && Known(known, stream, ready[i]))
    && Slot(stream, start + |ready|) !in known
  }

  /** A run is a batch unless its stream is jammed. */
  lemma RunDecides(ready: seq<View>, stream: Stream, next: map<Stream, nat>, known: map<Slot, Identity>)
    requires IsRun(ready, stream, NextIn(next, stream), known) && 1 <= NextIn(next, stream)
    ensures ready == [] ==> !Jammed(known, next, stream)
    ensures ready != [] ==>
              MakeBatch(stream, ready) ==
              if Jammed(known, next, stream) then Err(InvalidCommittedBatch) else Ok(Batch(stream, ready))
  {
    var start := NextIn(next, stream);
    if !DistinctIds(ready) {
      var i, j :| 0 <= i < j < |ready| && ready[i].id == ready[j].id;
      forall r: nat | start <= r <= start + j
        ensures Slot(stream, r) in known
      {
        KnownSlot(known, stream, ready[r - start]);
      }
      assert Clash(known, stream, start, start + i, start + j);
    } else {
      forall p: nat, q: nat
        ensures !Clash(known, stream, start, p, q)
      {
        if start <= p < q < start + |ready| {
          assert Known(known, stream, ready[p - start]) && Known(known, stream, ready[q - start]);
        } else if start + |ready| <= q {
          assert Slot(stream, start + |ready|) !in known;
        }
      }
    }
  }

  /**
    An input that is lost: a stream has passed its first three events, and a call hands in those three with another
    event in the second place, followed by a batch of a second stream. The first batch is torn, so the call raises
    before the second one is looked at.
    */
  lemma LaterBatchIsLost(stream: Stream, other: Stream, payload: Payload)
    requires stream != other
    ensures var known := AcceptAll(map[], [Batch(stream, [View("a", 1, payload), View("b", 2, payload), View("c", 3, payload)])]);
            var torn := Batch(stream, [View("a", 1, payload), View("x", 2, payload), View("c", 3, payload)]);
            var later := Batch(other, [View("d", 1, payload)]);
            && torn.Valid() && later.Valid()
            && TakenPart([torn, later], known, map[stream := 4]) == [torn]
            && AcceptAll(known, [torn]) == known && Slot(other, 1) !in known
  {
    var a, b, c := View("a", 1, payload), View("b", 2, payload), View("c", 3, payload);
    var x := View("x", 2, payload);
    var passed, torn := Batch(stream, [a, b, c]), Batch(stream, [a, x, c]);
    var known := map[Slot(stream, 1) := Identity("a", payload), Slot(stream, 2) := Identity("b", payload),
                     Slot(stream, 3) := Identity("c", payload)];
    assert [passed][..0] == [] && [torn][..0] == [];
    assert AcceptFirst(map[], passed, 0) == map[];
    assert AcceptFirst(map[], passed, 1) == map[Slot(stream, 1) := Identity("a", payload)];
    assert AcceptFirst(map[], passed, 2) == map[Slot(stream, 1) := Identity("a", payload),
                                                Slot(stream, 2) := Identity("b", payload)];
    assert AcceptAll(map[], [passed]) == AcceptFirst(map[], passed, 3) == known;
    assert AcceptFirst(known, torn, 0) == AcceptFirst(known, torn, 1) == AcceptFirst(known, torn, 2) == known;
    assert TornAt(torn, known, 4, 0, 1, 2);
    assert [torn, Batch(other, [View("d", 1, payload)])][..1] == [torn];
  }

  /** A batch of accepted events that its stream has passed. */
  ghost predicate Replayable(batch: Batch, known: map<Slot, Identity>, next: map<Stream, nat>) {
    batch.Valid() && AllKnown(known, batch) && batch.Last() < NextIn(next, batch.stream)
  }

  ghost predicate AllTaken(batch: Batch, known: map<Slot, Identity>) {
    forall view :: view in batch.events ==> Slot(batch.stream, view.sequence) in known
  }

  /** The event is replayed with a batch of its stream. */
  ghost predicate IsReplayed(replay: seq<Batch>, stream: Stream, view: View) {
    exists batch :: batch in replay && batch.stream == stream && view in batch.events
  }

  /** Every event of the batch that is accepted and that its stream has passed is replayed. */
  ghost predicate AllReplayed(replay: seq<Batch>, batch: Batch, known: map<Slot, Identity>, next: map<Stream, nat>) {
    forall view :: view in batch.events && Known(known, batch.stream, view) && view.sequence < NextIn(next, batch.stream) ==>
                     IsReplayed(replay, batch.stream, view)
  }

  lemma ReplayedOn(replay: seq<Batch>, more: seq<Batch>, known: map<Slot, Identity>, grown: map<Slot, Identity>,
                   next: map<Stream, nat>, batch: Batch)
    requires AllReplayed(replay, batch, known, next) && replay <= more && Grows(known, grown)
    requires AllTaken(batch, known)
    ensures AllReplayed(more, batch, grown, next) && AllTaken(batch, grown)
  {
    forall view | view in batch.events && Known(grown, batch.stream, view) && view.sequence < NextIn(next, batch.stream)
      ensures IsReplayed(more, batch.stream, view)
    {
      assert IsReplayed(replay, batch.stream, view);
      var other :| other in replay && other.stream == batch.stream && view in other.events;
      assert other in more;
    }
  }

  /** What taking the first `count` batches has done: slots taken, rejections reported, passed events to be replayed. */
  ghost predicate TakenSoFar(batches: seq<Batch>, count: nat, start: map<Slot, Identity>, known: map<Slot, Identity>,
                             replay: seq<Batch>, diagnostics: seq<Diagnostic>, next: map<Stream, nat>)
    requires count <= |batches|
  {
    && Grows(start, known) && known.Keys == start.Keys + AllSlots(batches[..count])
    && (forall batch :: batch in replay ==> Replayable(batch, known, next))
    && (forall j :: 0 <= j < count ==>
          && AllReplayed(replay, batches[j], known, next) && AllTaken(batches[j], known)
          && Reported(batches[j], known, diagnostics))
  }

  ghost predicate Reported(batch: Batch, known: map<Slot, Identity>, diagnostics: seq<Diagnostic>) {
    forall view :: view in batch.events && !Known(known, batch.stream, view) ==>
                     Diagnostic(batch.stream, view.sequence, IntegrityDiagnostic) in diagnostics
  }

  lemma NothingTaken(batches: seq<Batch>, known: map<Slot, Identity>, next: map<Stream, nat>)
    ensures TakenSoFar(batches, 0, known, known, [], [], next)
  {
    assert batches[..0] == [];
  }

  /** The batches taken before stay taken when more slots are. */
  lemma TakenOn(batches: seq<Batch>, count: nat, start: map<Slot, Identity>, before: map<Slot, Identity>,
                known: map<Slot, Identity>, replay: seq<Batch>, diagnostics: seq<Diagnostic>, next: map<Stream, nat>)
    requires count <= |batches| && TakenSoFar(batches, count, start, before, replay, diagnostics, next)
    requires Grows(before, known)
    ensures Grows(start, known)
    ensures forall batch :: batch in replay ==> Replayable(batch, known, next)
  {
    hide Grows, Replayable, AllReplayed, AllTaken, Reported;
    GrowsOn(start, before, known);
    StillKnown(before, known);
  }

  lemma TakenBatch(batches: seq<Batch>, i: nat, start: map<Slot, Identity>, before: map<Slot, Identity>,
                   known: map<Slot, Identity>, earlier: seq<Batch>, replay: seq<Batch>, older: seq<View>,
                   reported: seq<Diagnostic>, more: seq<Diagnostic>, next: map<Stream, nat>)
    requires i < |batches| && TakenSoFar(batches, i, start, before, earlier, reported, next)
    requires Grows(before, known) && known.Keys == before.Keys + Slots(batches[i])
    requires IsOlder(older, batches[i], known, NextIn(next, batches[i].stream))
    requires Reported(batches[i], known, more)
    requires if older == [] then replay == earlier
             else replay == earlier + [Batch(batches[i].stream, older)] && Replayable(replay[|earlier|], known, next)
    ensures TakenSoFar(batches, i + 1, start, known, replay, reported + more, next)
  {
    hide Grows, Replayable, AllReplayed, AllTaken, Reported, IsOlder, IsOlderUpTo, Slots;
    TakenOn(batches, i, start, before, known, earlier, reported, next);
    assert batches[..i + 1] == batches[..i] + [batches[i]];
    ReplayedNow(replay, batches[i], older, known, next);
    ReportedMore(batches[i], known, reported, more);
    forall j | 0 <= j < i
      ensures AllReplayed(replay, batches[j], known, next) && AllTaken(batches[j], known)
      ensures Reported(batches[j], known, reported + more)
    {
      ReplayedOn(earlier, replay, before, known, next, batches[j]);
      ReportedOn(batches[j], before, known, reported, more);
    }
  }

  lemma ReportedMore(batch: Batch, known: map<Slot, Identity>, reported: seq<Diagnostic>, more: seq<Diagnostic>)
    requires Reported(batch, known, more)
    ensures Reported(batch, known, reported + more)
  {
  }

  lemma ReportedOn(batch: Batch, before: map<Slot, Identity>, known: map<Slot, Identity>, reported: seq<Diagnostic>,
                   more: seq<Diagnostic>)
    requires Reported(batch, before, reported) && Grows(before, known)
    ensures Reported(batch, known, reported + more)
  {
  }

  lemma EverythingTaken(batches: seq<Batch>, start: map<Slot, Identity>, known: map<Slot, Identity>, replay: seq<Batch>,
                        diagnostics: seq<Diagnostic>, next: map<Stream, nat>)
    requires TakenSoFar(batches, |batches|, start, known, replay, diagnostics, next)
    ensures Grows(start, known) && known.Keys == start.Keys + AllSlots(batches)
    ensures forall batch :: batch in replay ==> Replayable(batch, known, next)
    ensures forall batch :: batch in batches ==>
              AllReplayed(replay, batch, known, next) && Reported(batch, known, diagnostics)
    ensures diagnostics == [] ==> forall batch :: batch in batches ==> AllKnown(known, batch)
  {
    hide AllReplayed, AllTaken, Grows, Replayable;
    assert batches[..|batches|] == batches;
  }

  lemma ReplayedNow(replay: seq<Batch>, batch: Batch, older: seq<View>, known: map<Slot, Identity>,
                    next: map<Stream, nat>)
    requires IsOlder(older, batch, known, NextIn(next, batch.stream))
    requires older != [] ==> replay != [] && replay[|replay| - 1] == Batch(batch.stream, older)
    ensures AllReplayed(replay, batch, known, next)
    ensures known.Keys >= Slots(batch) ==> AllTaken(batch, known)
  {
    assert batch.events[..|batch.events|] == batch.events;
    forall view | view in batch.events && Known(known, batch.stream, view) && view.sequence < NextIn(next, batch.stream)
      ensures IsReplayed(replay, batch.stream, view)
    {
      assert view in older;
      assert replay[|replay| - 1] in replay;
    }
    if known.Keys >= Slots(batch) {
      forall view | view in batch.events
        ensures Slot(batch.stream, view.sequence) in known
      {
        var i :| 0 <= i < |batch.events| && batch.events[i] == view;
        assert Slot(batch.stream, batch.events[i].sequence) in Slots(batch);
      }
    }
  }

  lemma StillKnown(known: map<Slot, Identity>, more: map<Slot, Identity>)
    requires Grows(known, more)
    ensures forall stream, view :: Known(known, stream, view) ==> Known(more, stream, view)
    ensures forall batch :: AllKnown(known, batch) ==> AllKnown(more, batch)
    ensures forall batch, next :: Replayable(batch, known, next) ==> Replayable(batch, more, next)
  {
  }

  /** The replayed events make a batch exactly when they are consecutive; a prefix of the handed-in batch is. */
  lemma OlderBatch(older: seq<View>, batch: Batch, known: map<Slot, Identity>, next: map<Stream, nat>)
    requires batch.Valid() && older != [] && IsOlder(older, batch, known, NextIn(next, batch.stream))
    ensures MakeBatch(batch.stream, older).Ok? ==> Replayable(Batch(batch.stream, older), known, next)
    ensures older <= batch.events ==> MakeBatch(batch.stream, older).Ok?
  {
    var copy := Batch(batch.stream, older);
    forall view | view in older
      ensures 1 <= view.sequence < NextIn(next, batch.stream) && Known(known, batch.stream, view)
    {
      BatchBelow(batch, view);
    }
    assert older[|older| - 1] in older;
    if older <= batch.events {
      assert copy.Valid();
    }
  }

  /** Buffered events at the consecutive sequences from `start` on. */
  ghost predicate IsReady(ready: seq<View>, pending: map<Stream, map<nat, View>>, stream: Stream, start: nat) {
    forall i :: 0 <= i < |ready| ==>
      && ready[i].sequence == start + i
      && IsPending(pending, stream, ready[i].sequence) && ready[i] == pending[stream][ready[i].sequence]
  }

  lemma FactsStillPassed(before: set<Fact>, after: set<Fact>, batch: Batch, next: map<Stream, nat>,
                         known: map<Slot, Identity>)
    requires FactsPassed(before, next, known) && Replayable(batch, known, next)
    requires after <= before + batch.Facts()
    ensures FactsPassed(after, next, known)
  {
    hide Known;
    forall fact | fact in after && fact !in before
      ensures Known(known, fact.stream, fact.view) && fact.view.sequence < NextIn(next, fact.stream)
    {
      BatchBelow(batch, fact.view);
    }
  }

  function Without(queue: map<nat, View>, events: seq<View>): map<nat, View> {
    queue - set view | view in events :: view.sequence
  }

  lemma RememberedSound(retry: map<RetryKey, Batch>, batch: Batch, next: map<Stream, nat>, known: map<Slot, Identity>)
    requires RetrySound(retry, next, known) && Replayable(batch, known, next)
    ensures RetrySound(retry[KeyFor(batch) := batch], next, known)
  {
    hide DistinctIds, Consecutive, Known;
  }

  /** Moving a stream past its ready events keeps every accepted event either buffered or passed. */
  lemma AdvanceKeepsPlaced(batch: Batch, pending: map<Stream, map<nat, View>>, next: map<Stream, nat>,
                           known: map<Slot, Identity>, retry: map<RetryKey, Batch>, facts: set<Fact>)
    requires batch.Valid() && batch.stream in pending && 1 <= NextIn(next, batch.stream)
    requires IsReady(batch.events, pending, batch.stream, NextIn(next, batch.stream))
    requires PendingSound(pending, next, known) && Placed(pending, next, known)
    ensures var passed := next[batch.stream := NextIn(next, batch.stream) + |batch.events|];
            var left := pending[batch.stream := Without(pending[batch.stream], batch.events)];
            && batch.First() == NextIn(next, batch.stream) && Replayable(batch, known, passed) && AllKnown(known, batch)
            && PendingSound(left, passed, known) && Placed(left, passed, known)
            && (RetrySound(retry, next, known) ==> RetrySound(retry, passed, known))
            && (FactsPassed(facts, next, known) ==> FactsPassed(facts, passed, known))
  {
    hide RetrySound, FactsPassed, Placed, DistinctIds, Without;
    var stream := batch.stream;
    var passed := next[stream := NextIn(next, stream) + |batch.events|];
    var left := pending[stream := Without(pending[stream], batch.events)];
    forall i | 0 <= i < |batch.events|
      ensures batch.events[i].sequence == NextIn(next, stream) + i && Known(known, stream, batch.events[i])
    {
      assert IsPending(pending, stream, batch.events[i].sequence);
    }
    LeftAbove(batch, pending[stream], NextIn(next, stream));
    PlacedAfter(batch, pending, next, known);
    assert AllKnown(known, batch);
    PassedFurther(next, passed, known, retry, facts);
  }

  lemma PassedFurther(next: map<Stream, nat>, passed: map<Stream, nat>, known: map<Slot, Identity>,
                      retry: map<RetryKey, Batch>, facts: set<Fact>)
    requires forall stream :: NextIn(next, stream) <= NextIn(passed, stream)
    ensures RetrySound(retry, next, known) ==> RetrySound(retry, passed, known)
    ensures FactsPassed(facts, next, known) ==> FactsPassed(facts, passed, known)
  {
    hide DistinctIds, Consecutive, Known, AllKnown;
  }

  lemma KnownSlot(known: map<Slot, Identity>, stream: Stream, view: View)
    requires Known(known, stream, view)
    ensures Slot(stream, view.sequence) in known
  {
  }

  lemma LeftAbove(batch: Batch, queue: map<nat, View>, start: nat)
    requires forall i :: 0 <= i < |batch.events| ==> batch.events[i].sequence == start + i
    ensures forall q :: q in Without(queue, batch.events) <==> q in queue && !(start <= q < start + |batch.events|)
  {
    forall q | q in queue && start <= q < start + |batch.events|
      ensures q !in Without(queue, batch.events)
    {
      assert batch.events[q - start].sequence == q;
    }
  }

  lemma PlacedAfter(batch: Batch, pending: map<Stream, map<nat, View>>, next: map<Stream, nat>,
                    known: map<Slot, Identity>)
    requires batch.stream in pending && 1 <= NextIn(next, batch.stream)
    requires forall i :: 0 <= i < |batch.events| ==>
               batch.events[i].sequence == NextIn(next, batch.stream) + i && Known(known, batch.stream, batch.events[i])
    requires forall q :: q in Without(pending[batch.stream], batch.events) <==>
               q in pending[batch.stream] && !(NextIn(next, batch.stream) <= q < NextIn(next, batch.stream) + |batch.events|)
    requires PendingSound(pending, next, known) && Placed(pending, next, known)
    ensures var passed := next[batch.stream := NextIn(next, batch.stream) + |batch.events|];
            var left := pending[batch.stream := Without(pending[batch.stream], batch.events)];
            PendingSound(left, passed, known) && Placed(left, passed, known)
  {
    hide Known;
    var stream := batch.stream;
    var start := NextIn(next, stream);
    var passed := next[stream := start + |batch.events|];
    var left := pending[stream := Without(pending[stream], batch.events)];
    forall other, q | IsPending(left, other, q)
      ensures left[other][q].sequence == q && NextIn(passed, other) <= q && Known(known, other, left[other][q])
    {
      assert IsPending(pending, other, q);
      assert left[other][q] == pending[other][q];
    }
    forall slot: Slot | 1 <= slot.sequence < NextIn(passed, slot.stream)
      ensures slot in known
    {
      if slot.stream == stream && start <= slot.sequence {
        KnownSlot(known, stream, batch.events[slot.sequence - start]);
      }
    }
    forall slot | slot in known
      ensures slot.sequence < NextIn(passed, slot.stream) || IsPending(left, slot.stream, slot.sequence)
    {
      assert slot.sequence < NextIn(next, slot.stream) || IsPending(pending, slot.stream, slot.sequence);
    }
  }

  ghost predicate IsTruthPrefix(log: seq<View>, stream: Stream, truth: (Stream, nat) -> Identity) {
    forall i :: 0 <= i < |log| ==>
      log[i].sequence == i + 1 && Identity(log[i].id, log[i].payload) == truth(stream, log[i].sequence)
  }

  /** The least positive sequence whose slot nothing has taken. */
  ghost predicate FirstGap(slots: set<Slot>, stream: Stream, sequence: nat) {
    && 1 <= sequence && Slot(stream, sequence) !in slots
    && (forall q :: 1 <= q < sequence ==> Slot(stream, q) in slots)
  }

  lemma FirstGapIsUnique(slots: set<Slot>, stream: Stream, p: nat, q: nat)
    requires FirstGap(slots, stream, p) && FirstGap(slots, stream, q)
    ensures p == q
  {
    assert Slot(stream, p) !in slots && Slot(stream, q) !in slots;
  }

  ghost predicate TakenKnown(batch: Batch, count: nat, start: map<Slot, Identity>, known: map<Slot, Identity>,
                             diagnostics: seq<Diagnostic>)
    requires count <= |batch.events|
  {
    && Grows(start, known) && known.Keys == start.Keys + SlotsUpTo(batch, count)
    && (forall j :: 0 <= j < count && !Known(known, batch.stream, batch.events[j]) ==>
          Diagnostic(batch.stream, batch.events[j].sequence, IntegrityDiagnostic) in diagnostics)
  }

  ghost predicate TakenResults(batch: Batch, count: nat, known: map<Slot, Identity>, older: seq<View>,
                               diagnostics: seq<Diagnostic>, next: nat, truth: (Stream, nat) -> Identity)
    requires count <= |batch.events|
  {
    && Follows(known, truth) && diagnostics == [] && Prefixed(older, batch, count, next)
    && (forall j :: 0 <= j < count ==> Known(known, batch.stream, batch.events[j]))
  }

  /** What taking the first `count` events of the batch has done. */
  ghost predicate Taken(batch: Batch, count: nat, start: map<Slot, Identity>, known: map<Slot, Identity>,
                        older: seq<View>, diagnostics: seq<Diagnostic>, next: nat,
                        truth: (Stream, nat) -> Identity)
    requires count <= |batch.events|
  {
    && TakenKnown(batch, count, start, known, diagnostics)
    && IsOlderUpTo(older, batch, count, known, next)
    && (Follows(start, truth) && BatchFollows(batch, truth) ==>
          TakenResults(batch, count, known, older, diagnostics, next, truth))
  }

  lemma TakenNone(batch: Batch, known: map<Slot, Identity>, next: nat, truth: (Stream, nat) -> Identity)
    ensures Taken(batch, 0, known, known, [], [], next, truth)
  {
    TakeStart(batch, known, next);
  }

  lemma TakenOne(batch: Batch, i: nat, start: map<Slot, Identity>, known: map<Slot, Identity>,
                 older: seq<View>, diagnostics: seq<Diagnostic>, next: nat, truth: (Stream, nat) -> Identity)
    requires batch.Valid() && i < |batch.events|
    requires Taken(batch, i, start, known, older, diagnostics, next, truth)
    ensures var view := batch.events[i];
            var accepted := known[Slot(batch.stream, view.sequence) := Identity(view.id, view.payload)];
            && 1 <= view.sequence
            && (if Displaced(known, batch.stream, view) then
                  Taken(batch, i + 1, start, known, older,
                        diagnostics + [Diagnostic(batch.stream, view.sequence, IntegrityDiagnostic)], next, truth)
                else if view.sequence < next then
                  Taken(batch, i + 1, start, accepted, older + [view], diagnostics, next, truth)
                else
                  Taken(batch, i + 1, start, accepted, older, diagnostics, next, truth))
  {
    hide Prefixed, IsOlderUpTo, SlotsUpTo, Follows, BatchFollows, Grows, Known, Displaced, DistinctIds;
    var view := batch.events[i];
    var accepted := known[Slot(batch.stream, view.sequence) := Identity(view.id, view.payload)];
    assert view.sequence == batch.First() + i;
    OlderStep(older, batch, i, known, next);
    KnownStep(batch, i, known, truth);
    if !Displaced(known, batch.stream, view) {
      GrowsOn(start, known, accepted);
    }
    if Prefixed(older, batch, i, next) {
      PrefixStep(older, batch, i, next);
    }
  }

  lemma TakenAll(batch: Batch, start: map<Slot, Identity>, known: map<Slot, Identity>, older: seq<View>,
                 diagnostics: seq<Diagnostic>, next: nat, truth: (Stream, nat) -> Identity)
    requires Taken(batch, |batch.events|, start, known, older, diagnostics, next, truth)
    ensures Grows(start, known) && known.Keys == start.Keys + Slots(batch)
    ensures IsOlder(older, batch, known, next)
    ensures forall view :: view in batch.events && !Known(known, batch.stream, view) ==>
              Diagnostic(batch.stream, view.sequence, IntegrityDiagnostic) in diagnostics
    ensures Follows(start, truth) && BatchFollows(batch, truth) ==>
              Follows(known, truth) && older <= batch.events && diagnostics == [] && AllKnown(known, batch)
  {
    hide Prefixed, IsOlderUpTo, SlotsUpTo, Follows, BatchFollows, Grows, Known;
    TakeEnd(older, batch, known, next);
  }

  lemma TakeStart(batch: Batch, known: map<Slot, Identity>, next: nat)
    ensures IsOlderUpTo([], batch, 0, known, next) && Prefixed([], batch, 0, next)
    ensures Grows(known, known) && SlotsUpTo(batch, 0) == {}
  {
  }

  /** Taking one more event of the batch, rejected or accepted, keeps the replayed ones exactly the accepted older ones. */
  lemma OlderStep(older: seq<View>, batch: Batch, i: nat, known: map<Slot, Identity>, next: nat)
    requires batch.Valid() && i < |batch.events| && IsOlderUpTo(older, batch, i, known, next)
    ensures var view := batch.events[i];
            var accepted := known[Slot(batch.stream, view.sequence) := Identity(view.id, view.payload)];
            && (Displaced(known, batch.stream, view) ==> IsOlderUpTo(older, batch, i + 1, known, next))
            && (view.sequence < next ==> IsOlderUpTo(older + [view], batch, i + 1, accepted, next))
            && (next <= view.sequence ==> IsOlderUpTo(older, batch, i + 1, accepted, next))
  {
    hide DistinctIds, Displaced;
    var view := batch.events[i];
    var accepted := known[Slot(batch.stream, view.sequence) := Identity(view.id, view.payload)];
    assert batch.events[..i + 1] == batch.events[..i] + [view];
    forall other | other in batch.events[..i]
      ensures other.sequence < view.sequence
      ensures Known(accepted, batch.stream, other) <==> Known(known, batch.stream, other)
    {
      var j :| 0 <= j < i && batch.events[..i][j] == other;
      assert batch.events[j] == other;
    }
    assert Displaced(known, batch.stream, view) ==> !Known(known, batch.stream, view) by {
      DisplacedNotKnown(known, batch.stream, view);
    }
  }

  lemma DisplacedNotKnown(known: map<Slot, Identity>, stream: Stream, view: View)
    ensures Displaced(known, stream, view) ==> !Known(known, stream, view)
  {
  }

  lemma PrefixStep(older: seq<View>, batch: Batch, i: nat, next: nat)
    requires batch.Valid() && i < |batch.events| && Prefixed(older, batch, i, next)
    ensures var view := batch.events[i];
            && (view.sequence < next ==> Prefixed(older + [view], batch, i + 1, next))
            && (next <= view.sequence ==> Prefixed(older, batch, i + 1, next))
  {
    assert batch.events[..i + 1] == batch.events[..i] + [batch.events[i]];
    if |older| < i {
      assert batch.events[|older|].sequence == batch.First() + |older|;
      assert batch.events[i].sequence == batch.First() + i;
    }
  }

  lemma TakeEnd(older: seq<View>, batch: Batch, known: map<Slot, Identity>, next: nat)
    ensures Prefixed(older, batch, |batch.events|, next) ==> older <= batch.events
  {
    assert batch.events[..|batch.events|] == batch.events;
  }

  lemma GrowsOn(a: map<Slot, Identity>, b: map<Slot, Identity>, c: map<Slot, Identity>)
    requires Grows(a, b) && Grows(b, c)
    ensures Grows(a, c)
  {
  }

  lemma KnownStep(batch: Batch, i: nat, known: map<Slot, Identity>, truth: (Stream, nat) -> Identity)
    requires batch.Valid() && i < |batch.events|
    ensures var view := batch.events[i];
            var slot := Slot(batch.stream, view.sequence);
            var accepted := known[slot := Identity(view.id, view.payload)];
            && SlotsUpTo(batch, i + 1) == SlotsUpTo(batch, i) + {slot}
            && (!Displaced(known, batch.stream, view) ==> Grows(known, accepted))
            && (Displaced(known, batch.stream, view) ==> slot in known)
            && (Follows(known, truth) && BatchFollows(batch, truth) ==>
                  Follows(accepted, truth) && !Displaced(known, batch.stream, view))
            && Known(accepted, batch.stream, view)
            && (forall j :: 0 <= j < i ==>
                  (Known(accepted, batch.stream, batch.events[j]) <==> Known(known, batch.stream, batch.events[j])))
  {
    var view := batch.events[i];
    assert view in batch.events;
  }

  ghost predicate Covered(retry: map<RetryKey, Batch>, stream: Stream, sequence: nat) {
    CoveredBy(retry.Keys, stream, sequence)
  }

  ghost predicate CoveredBy(keys: set<RetryKey>, stream: Stream, sequence: nat) {
    exists key :: key in keys && key.stream == stream && key.first <= sequence <= key.last
  }

  function KeyFor(batch: Batch): RetryKey
    requires batch.Valid()
  {
    RetryKey(batch.stream, batch.First(), batch.Last())
  }

  predicate Calm(trouble: Trouble) {
    trouble == Callbacks({})
  }

  /** Facts and batches that all follow one truth never contradict each other. */
  lemma TruthAgrees(facts: set<Fact>, batch: Batch, known: map<Slot, Identity>, truth: (Stream, nat) -> Identity)
    requires GroundTruth(truth) && Follows(known, truth) && AllKnown(known, batch)
    requires forall fact :: fact in facts ==> Known(known, fact.stream, fact.view)
    ensures Agrees(facts, batch)
  {
    forall fact, view | fact in facts && fact.stream == batch.stream && view in batch.events
      ensures Compatible(fact.view, view)
    {
      assert truth(fact.stream, fact.view.sequence).id == fact.view.id;
      assert truth(batch.stream, view.sequence).id == view.id;
    }
  }

  class AfterCommitDispatcher {
    const hub: Hub
    const trouble: nat -> Trouble
    var attempts: nat
    var next: map<Stream, nat>
    var pending: map<Stream, map<nat, View>>
    var known: map<Slot, Identity>
    var retry: map<RetryKey, Batch>

    /** The hub has accepted only events handed on from here. */
    ghost predicate HubBehind()
      reads this, hub
    {
      hub.Valid() && FactsPassed(hub.facts, next, known)
    }

    /** Whatever is below the next sequence and has not reached an accepting observer is still due for a retry. */
    ghost predicate SecuredBelow(bound: map<Stream, nat>)
      reads this`retry, hub
    {
      forall name, stream, q :: |hub.Log(name, stream)| < q < NextIn(bound, stream) && hub.Accepts(name, stream.kind) ==>
                                  Covered(retry, stream, q)
    }

    ghost predicate Valid()
      reads this, hub
    {
      && PendingSound(pending, next, known)
      && Placed(pending, next, known)
      && (forall stream :: 1 <= NextIn(next, stream))
      && RetrySound(retry, next, known)
      && HubBehind()
      && SecuredBelow(next)
    }

    /** The sequence each stream waits for is not itself buffered: a buffered event sits above a real gap. */
    ghost predicate Drained()
      reads this
    {
      forall stream :: !IsPending(pending, stream, NextIn(next, stream))
    }

    ghost predicate CalmBetween(start: nat, end: nat) {
      forall k :: start <= k < end ==> Calm(trouble(k))
    }

    /** In these publishes the hub did not raise, and neither did the observer's callback. */
    ghost predicate WellBetween(name: string, start: nat, end: nat) {
      forall k :: start <= k < end ==> trouble(k) != HubRaises && name !in trouble(k).failing
    }

    ghost predicate HubUpBetween(start: nat, end: nat) {
      forall k :: start <= k < end ==> trouble(k) != HubRaises
    }

    /** The observer has everything that its streams have passed. */
    ghost predicate Served(name: string)
      reads this`next, hub
    {
      ServedBelow(name, next)
    }

    ghost predicate ServedBelow(name: string, bound: map<Stream, nat>)
      reads hub
    {
      forall stream: Stream :: hub.Accepts(name, stream.kind) ==> NextIn(bound, stream) <= |hub.Log(name, stream)| + 1
    }

    /** What the observer lacks of what its streams have passed is covered by these remembered batches. */
    ghost predicate Due(name: string, delivered: map<Recipient, seq<View>>, keys: set<RetryKey>)
      reads this`next
    {
      forall stream: Stream, q :: hub.Accepts(name, stream.kind) && |LogIn(delivered, name, stream)| < q < NextIn(next, stream) ==>
                                    CoveredBy(keys, stream, q)
    }

    lemma AllDue()
      requires Valid()
      ensures forall name :: Due(name, hub.delivered, retry.Keys)
    {
      hide PendingSound, Placed, RetrySound, HubBehind, CoveredBy;
      forall name, stream: Stream, q | hub.Accepts(name, stream.kind)
                                       && |LogIn(hub.delivered, name, stream)| < q < NextIn(next, stream)
        ensures CoveredBy(retry.Keys, stream, q)
      {
        assert |hub.Log(name, stream)| < q;
        assert Covered(retry, stream, q);
      }
    }

    /** Sending the least remaining batch of a stream leaves only what the other remaining ones cover. */
    lemma DueStep(name: string, before: map<Recipient, seq<View>>, after: map<Recipient, seq<View>>,
                  todo: set<RetryKey>, key: RetryKey)
      requires Least(key, todo) && Due(name, before, todo) && key.last < NextIn(next, key.stream)
      requires forall stream :: |LogIn(before, name, stream)| <= |LogIn(after, name, stream)|
      requires hub.Accepts(name, key.stream.kind) && key.first <= |LogIn(before, name, key.stream)| + 1 ==>
                 key.last <= |LogIn(after, name, key.stream)|
      ensures Due(name, after, todo - {key})
    {
      forall stream: Stream, q | hub.Accepts(name, stream.kind) && |LogIn(after, name, stream)| < q < NextIn(next, stream)
        ensures CoveredBy(todo - {key}, stream, q)
      {
        assert |LogIn(before, name, stream)| < q;
        assert CoveredBy(todo, stream, q);
        var cover :| cover in todo && cover.stream == stream && cover.first <= q <= cover.last;
        if stream == key.stream {
          var start: nat := |LogIn(before, name, stream)| + 1;
          assert CoveredBy(todo, stream, start);
          var first :| first in todo && first.stream == stream && first.first <= start <= first.last;
          assert key.first <= first.first;
        }
        assert cover in todo - {key};
      }
    }

    lemma NothingDueServes(name: string)
      requires Due(name, hub.delivered, {})
      ensures Served(name)
    {
      forall stream: Stream | hub.Accepts(name, stream.kind)
        ensures NextIn(next, stream) <= |hub.Log(name, stream)| + 1
      {
        var q: nat := |hub.Log(name, stream)| + 1;
        assert |LogIn(hub.delivered, name, stream)| < q;
        assert q < NextIn(next, stream) ==> CoveredBy({}, stream, q);
      }
    }

    lemma BatchAgrees(batch: Batch, truth: (Stream, nat) -> Identity)
      requires Valid() && AllKnown(known, batch) && GroundTruth(truth) && Follows(known, truth)
      ensures Agrees(hub.facts, batch)
    {
      hide PendingSound, Placed, RetrySound, SecuredBelow, Agrees, Follows, GroundTruth, AllKnown, Known;
      TruthAgrees(hub.facts, batch, known, truth);
    }

    lemma RetryAgrees(key: RetryKey, truth: (Stream, nat) -> Identity)
      requires Valid() && key in retry && GroundTruth(truth) && Follows(known, truth)
      ensures Agrees(hub.facts, retry[key]) && key.last < NextIn(next, key.stream)
    {
      hide PendingSound, Placed, HubBehind, SecuredBelow, Agrees, Follows, GroundTruth, AllKnown;
      BatchAgrees(retry[key], truth);
    }

    /** An observer that has everything its streams have passed has exactly the truth below the next sequence. */
    lemma ServedHoldsTruth(name: string, truth: (Stream, nat) -> Identity, stream: Stream)
      requires Valid() && Served(name) && Follows(known, truth) && hub.Accepts(name, stream.kind)
      ensures IsTruthPrefix(hub.Log(name, stream), stream, truth) && |hub.Log(name, stream)| == NextIn(next, stream) - 1
    {
      hide PendingSound, Placed, RetrySound, SecuredBelow;
      var log := hub.Log(name, stream);
      hub.ObservedInOrderExactlyOnce(name, name, stream);
      hub.LogIsFacts(name, stream);
      if log != [] {
        assert Fact(stream, log[|log| - 1]) in hub.facts;
      }
    }

    constructor (hub: Hub, trouble: nat -> Trouble)
      requires hub.Valid() && hub.facts == {}
      ensures Valid() && Drained() && this.hub == hub && this.trouble == trouble
      ensures known == map[] && retry == map[]
    {
      this.hub, this.trouble := hub, trouble;
      attempts, next, pending, known, retry := 0, map[], map[], map[], map[];
    }

    /**
      One publish at the hub. It is skipped only when the hub itself raises. Otherwise a batch that contradicts nothing is
      recorded and every accepting observer whose callback returns and that has no gap has the whole batch afterwards,
      whoever else fails; the publish fails exactly when some accepting observer lacks events of the batch and has a gap
      or a callback that raises.
      */
    method Send(batch: Batch) returns (failed: bool, diagnostics: seq<Diagnostic>)
      requires hub.Valid() && batch.Valid()
      modifies this`attempts, hub
      ensures hub.Valid() && attempts == old(attempts) + 1
      ensures old(hub.facts) <= hub.facts <= old(hub.facts) + batch.Facts()
      ensures forall name, stream :: |old(hub.Log(name, stream))| <= |hub.Log(name, stream)|
      ensures trouble(old(attempts)) == HubRaises ==>
                failed && diagnostics == [Diagnostic(batch.stream, batch.First(), PublishFailed)] && unchanged(hub)
      ensures trouble(old(attempts)) != HubRaises ==> diagnostics == []
      ensures trouble(old(attempts)) != HubRaises && !Agrees(old(hub.facts), batch) ==>
                unchanged(hub) && (failed <==> exists name :: hub.Accepts(name, batch.stream.kind))
      ensures trouble(old(attempts)) != HubRaises && Agrees(old(hub.facts), batch) ==>
                && hub.facts == old(hub.facts) + batch.Facts()
                && (failed <==> exists name :: hub.Accepts(name, batch.stream.kind)
                                               && |old(hub.Log(name, batch.stream))| < batch.Last()
                                               && (name in trouble(old(attempts)).failing
                                                   || |old(hub.Log(name, batch.stream))| + 1 < batch.First()))
                && (forall name :: hub.Accepts(name, batch.stream.kind) && name !in trouble(old(attempts)).failing
                                   && batch.First() <= |old(hub.Log(name, batch.stream))| + 1 ==>
                      batch.Last() <= |hub.Log(name, batch.stream)|)
      ensures !failed ==> forall name :: hub.Accepts(name, batch.stream.kind) ==>
                batch.Last() <= |hub.Log(name, batch.stream)|
      ensures Calm(trouble(old(attempts))) && Agrees(old(hub.facts), batch)
              && (forall name :: hub.Accepts(name, batch.stream.kind) ==>
                    batch.First() <= |old(hub.Log(name, batch.stream))| + 1) ==>
                !failed && diagnostics == []
    {
      hide Hub.Valid, Hub.Log, Agrees, DistinctIds, Consecutive, Hub.AcceptsAmong;
      diagnostics := [];
      var weather := trouble(attempts);
      attempts := attempts + 1;
      if weather.HubRaises? {
        return true, [Diagnostic(batch.stream, batch.First(), PublishFailed)];
      }
      BatchSpan(batch);
      var report := hub.Publish(batch, weather.failing);
      failed := report.failures != [];
      if !failed {
        forall name | hub.Accepts(name, batch.stream.kind)
          ensures Agrees(old(hub.facts), batch)
          ensures |old(hub.Log(name, batch.stream))| < batch.Last() ==>
                    name !in weather.failing && batch.First() <= |old(hub.Log(name, batch.stream))| + 1
          ensures batch.Last() <= |hub.Log(name, batch.stream)|
        {
          assert Failure(name, EventIntegrity) !in report.failures;
          assert Failure(name, SequenceGap) !in report.failures && Failure(name, CallbackFailed) !in report.failures;
        }
      } else {
        var first := report.failures[0];
        assert Failure(first.name, first.code) in report.failures;
      }
    }

    /** A calm publish of accepted events below the next sequence cannot fail once every log has come close enough. */
    lemma CalmSendFits(batch: Batch, truth: (Stream, nat) -> Identity)
      requires Valid() && batch.Valid() && AllKnown(known, batch)
      requires GroundTruth(truth) && Follows(known, truth)
      requires batch.First() <= NextIn(next, batch.stream)
      requires forall q :: 1 <= q < batch.First() ==> !Covered(retry, batch.stream, q)
      ensures Agrees(hub.facts, batch)
      ensures forall name :: hub.Accepts(name, batch.stream.kind) ==>
                batch.First() <= |hub.Log(name, batch.stream)| + 1
    {
      TruthAgrees(hub.facts, batch, known, truth);
      forall name | hub.Accepts(name, batch.stream.kind)
        ensures batch.First() <= |hub.Log(name, batch.stream)| + 1
      {
        var q: nat := |hub.Log(name, batch.stream)| + 1;
        assert q < batch.First() ==> !Covered(retry, batch.stream, q);
      }
    }

    /** One retry: the batch leaves the retry map when nothing failed. */
    method RetryOne(key: RetryKey) returns (failed: bool, diagnostics: seq<Diagnostic>)
      requires Valid() && key in retry
      modifies this`attempts, this`retry, hub
      ensures Valid() && attempts == old(attempts) + 1
      ensures trouble(old(attempts)) != HubRaises ==> diagnostics == []
      ensures retry == if failed then old(retry) else old(retry) - {key}
      ensures forall name, stream :: |old(hub.Log(name, stream))| <= |hub.Log(name, stream)|
      ensures trouble(old(attempts)) != HubRaises && Agrees(old(hub.facts), old(retry[key])) ==>
                forall name :: hub.Accepts(name, key.stream.kind) && name !in trouble(old(attempts)).failing
                               && key.first <= |old(hub.Log(name, key.stream))| + 1 ==>
                  key.last <= |hub.Log(name, key.stream)|
      ensures Calm(trouble(old(attempts))) && Agrees(old(hub.facts), old(retry[key]))
              && (forall name :: hub.Accepts(name, key.stream.kind) ==>
                    key.first <= |old(hub.Log(name, key.stream))| + 1) ==>
                !failed && diagnostics == []
    {
      hide PendingSound, Placed, Agrees, Hub.Valid, Hub.AcceptsAmong, Hub.Log, DistinctIds, Consecutive, Known;
      var batch := retry[key];
      failed, diagnostics := Send(batch);
      if !failed {
        retry := retry - {key};
      }
      FactsStillPassed(old(hub.facts), hub.facts, batch, next, known);
      forall name, stream, q | |hub.Log(name, stream)| < q < NextIn(next, stream) && hub.Accepts(name, stream.kind)
        ensures Covered(retry, stream, q)
      {
        assert old(Covered(retry, stream, q));
        var cover :| cover in old(retry) && cover.stream == stream && cover.first <= q <= cover.last;
        assert cover in retry;
      }
    }

    /**
      One event of a handed-in batch: rejected when another event holds its slot, to be replayed when its stream has
      passed it, buffered otherwise. A buffered event with the same sequence is always the same event.
      */
    method Take(stream: Stream, view: View) returns (disposition: Disposition)
      requires Valid() && 1 <= view.sequence && stream in pending
      modifies this`known, this`pending
      ensures Valid() && stream in pending
      ensures disposition == (if Displaced(old(known), stream, view) then Rejected
                              else if view.sequence < NextIn(next, stream) then Replayed
                              else Buffered)
      ensures known == if disposition == Rejected then old(known)
                       else old(known)[Slot(stream, view.sequence) := Identity(view.id, view.payload)]
      ensures pending == if disposition == Buffered
                         then old(pending)[stream := With(old(pending)[stream], view)]
                         else old(pending)
    {
      hide PendingSound, Placed, RetrySound, FactsPassed, Covered, Hub.Valid, Hub.AcceptsAmong, Hub.Log, With;
      var identity := Identity(view.id, view.payload);
      var slot := Slot(stream, view.sequence);
      if slot in known && known[slot] != identity {
        return Rejected;
      }
      TakeKeepsPlaced(known, next, pending, stream, view);
      MoreKnown(known, known[slot := identity], next, pending, retry, hub.facts);
      known := known[slot := identity];
      if view.sequence < NextIn(next, stream) {
        return Replayed;
      }
      if view.sequence in pending[stream] {
        assert pending[stream][view.sequence] == view by {
          PendingIsKnown(stream, view);
        }
      }
      pending := pending[stream := With(pending[stream], view)];
      disposition := Buffered;
    }

    /**
      All events of one batch: exactly its slots become taken, the events the stream has passed come back in order,
      and every event that met a different holder is diagnosed. A batch that follows the truth comes back as a prefix.
      */
    method TakeBatch(batch: Batch, ghost truth: (Stream, nat) -> Identity)
      returns (older: seq<View>, diagnostics: seq<Diagnostic>)
      requires Valid() && batch.Valid()
      modifies this`known, this`pending
      ensures Valid() && batch.stream in pending
      ensures Grows(old(known), known) && known.Keys == old(known).Keys + Slots(batch)
      ensures known == AcceptBatch(old(known), batch)
      ensures IsOlder(older, batch, known, NextIn(next, batch.stream))
      ensures Reported(batch, known, diagnostics)
      ensures Follows(old(known), truth) && BatchFollows(batch, truth) ==>
                Follows(known, truth) && older <= batch.events && diagnostics == [] && AllKnown(known, batch)
    {
      hide Valid, With, Batch.Valid, Taken, TakenKnown, TakenResults;
      older, diagnostics := [], [];
      SetDefault(batch.stream);
      TakenNone(batch, known, NextIn(next, batch.stream), truth);
      for i := 0 to |batch.events|
        invariant Valid() && batch.stream in pending
        invariant Taken(batch, i, old(known), known, older, diagnostics, NextIn(next, batch.stream), truth)
        invariant known == AcceptFirst(old(known), batch, i)
      {
        var view := batch.events[i];
        AcceptIsUpdate(known, batch.stream, view);
        TakenOne(batch, i, old(known), known, older, diagnostics, NextIn(next, batch.stream), truth);
        var disposition := Take(batch.stream, view);
        match disposition
        case Rejected =>
          diagnostics := diagnostics + [Diagnostic(batch.stream, view.sequence, IntegrityDiagnostic)];
        case Replayed =>
          older := older + [view];
        case Buffered =>
      }
      TakenAll(batch, old(known), known, older, diagnostics, NextIn(next, batch.stream), truth);
    }

    /** An empty queue for a stream seen for the first time. */
    method SetDefault(stream: Stream)
      requires Valid()
      modifies this`pending
      ensures Valid() && pending.Keys == old(pending).Keys + {stream}
      ensures forall other, q :: IsPending(pending, other, q) <==> old(IsPending(pending, other, q))
      ensures Drained() <==> old(Drained())
    {
      if stream !in pending {
        pending := pending[stream := map[]];
      }
    }

    /**
      All handed-in batches, or those up to the first torn one: its passed events do not make a batch, and building
      one raises before the batches behind it are looked at.
      */
    method TakeAll(batches: seq<Batch>, ghost truth: (Stream, nat) -> Identity)
      returns (replay: seq<Batch>, diagnostics: seq<Diagnostic>, fault: Option<BatchFault>)
      requires Valid() && forall batch :: batch in batches ==> batch.Valid()
      modifies this`known, this`pending
      ensures Valid() && Grows(old(known), known)
      ensures fault == if FirstTorn(batches, old(known), next).Some? then Some(EventSequenceGap) else None
      ensures known == AcceptAll(old(known), TakenPart(batches, old(known), next))
      ensures forall batch :: batch in replay ==> Replayable(batch, known, next)
      ensures fault.None? ==> forall batch :: batch in batches ==> AllReplayed(replay, batch, known, next)
      ensures fault.None? ==>
                && known.Keys == old(known).Keys + AllSlots(batches)
                && (forall batch :: batch in batches ==> Reported(batch, known, diagnostics))
      ensures Follows(old(known), truth) && (forall batch :: batch in batches ==> BatchFollows(batch, truth)) ==>
                fault.None? && Follows(known, truth) && diagnostics == []
                && (forall batch :: batch in batches ==> AllKnown(known, batch))
    {
      hide Valid, Batch.Valid, Follows, BatchFollows, AllKnown, Known, Grows, Replayable, NextIn, IsOlder, IsOlderUpTo,
           Slots, TakenSoFar, Torn, AcceptBatch, Placed, FirstTorn, TakenPart;
      replay, diagnostics, fault := [], [], None;
      IsPlaced();
      NothingTaken(batches, known, next);
      assert batches[..0] == [];
      var i := 0;
      while i < |batches|
        invariant 0 <= i <= |batches| && fault.None? && Valid()
        invariant TakenSoFar(batches, i, old(known), known, replay, diagnostics, next)
        invariant known == AcceptAll(old(known), batches[..i])
        invariant forall j :: 0 <= j < i ==> !Torn(batches[j], old(known), NextIn(next, batches[j].stream))
        invariant Follows(old(known), truth) && (forall batch :: batch in batches ==> BatchFollows(batch, truth)) ==>
                    Follows(known, truth) && diagnostics == []
      {
        var batch := batches[i];
        ghost var before, earlier, reported := known, replay, diagnostics;
        var older, more := TakeBatch(batch, truth);
        diagnostics := diagnostics + more;
        AcceptNext(old(known), batches, i);
        TakenOn(batches, i, old(known), before, known, earlier, reported, next);
        TornNow(older, batch, old(known), known, next, old(pending));
        if older != [] {
          OlderBatch(older, batch, known, next);
          var made := MakeBatch(batch.stream, older);
          if made.Err? {
            TornFirst(batches, old(known), next, i);
            fault := Some(made.error);
            return;
          }
          replay := replay + [made.value];
        }
        TakenBatch(batches, i, old(known), before, known, earlier, replay, older, reported, more, next);
        i := i + 1;
      }
      assert batches[..i] == batches;
      TornNever(batches, old(known), next);
      EverythingTaken(batches, old(known), known, replay, diagnostics, next);
    }

    lemma IsPlaced()
      requires Valid()
      ensures Placed(pending, next, known)
    {
    }

    lemma PendingIsKnown(stream: Stream, view: View)
      requires PendingSound(pending, next, known) && IsPending(pending, stream, view.sequence)
      requires Known(known, stream, view)
      ensures pending[stream][view.sequence] == view
    {
    }

    /** Every observer that accepts the stream has exactly the events of the truth below the next sequence. */
    ghost predicate CaughtUp(truth: (Stream, nat) -> Identity)
      reads this, hub
    {
      forall name, stream: Stream :: hub.Accepts(name, stream.kind) ==>
        IsTruthPrefix(hub.Log(name, stream), stream, truth) && |hub.Log(name, stream)| == NextIn(next, stream) - 1
    }

    /** With nothing left to retry, every accepting observer has caught up with its streams. */
    lemma NothingDueMeansCaughtUp(truth: (Stream, nat) -> Identity)
      requires Valid() && retry == map[] && Follows(known, truth)
      ensures CaughtUp(truth)
    {
      hide PendingSound, Placed, RetrySound;
      forall name, stream: Stream | hub.Accepts(name, stream.kind)
        ensures IsTruthPrefix(hub.Log(name, stream), stream, truth)
        ensures |hub.Log(name, stream)| == NextIn(next, stream) - 1
      {
        var log := hub.Log(name, stream);
        hub.ObservedInOrderExactlyOnce(name, name, stream);
        hub.LogIsFacts(name, stream);
        var q: nat := |log| + 1;
        assert q < NextIn(next, stream) ==> Covered(retry, stream, q);
        if log != [] {
          assert Fact(stream, log[|log| - 1]) in hub.facts;
        }
      }
    }

    /** After a call, the sequence a stream waits for is the first gap in what has been handed in. */
    lemma WaitsForFirstGap(stream: Stream)
      requires Valid() && Drained()
      ensures FirstGap(known.Keys, stream, NextIn(next, stream))
    {
      hide PendingSound, RetrySound, HubBehind, SecuredBelow;
      assert 1 <= NextIn(next, stream);
      assert Slot(stream, NextIn(next, stream)) in known ==> IsPending(pending, stream, NextIn(next, stream));
    }

    /**
      One call with any batches. It raises exactly when a batch is torn or, after taking them all, a stream is jammed.
      A torn batch cuts the call short: it and the batches before it are taken, those behind it are dropped without a
      trace. A jam lasts, so every later call raises too. Of the batches taken nothing is lost: each event's slot is
      held by the first event that arrived for it, the accepted events are buffered above a real gap, jammed or passed,
      and what is passed has reached every accepting observer or is covered by a remembered batch; a call that returns
      has also reported every event that met a different holder. When all batches follow one truth the call never
      raises; an observer whose own callback returns throughout, while the hub does not raise, then holds the whole truth
      below the next sequences, whoever else fails; and when nothing raises at all, nothing is left to retry.
      */
    method PublishAll(batches: seq<Batch>, ghost truth: (Stream, nat) -> Identity) returns (outcome: Outcome)
      requires Valid() && forall batch :: batch in batches ==> batch.Valid()
      modifies this`attempts, this`known, this`next, this`pending, this`retry, hub
      ensures Valid() && Grows(old(known), known)
      ensures known == AcceptAll(old(known), TakenPart(batches, old(known), old(next)))
      ensures outcome.Raised? <==> FirstTorn(batches, old(known), old(next)).Some? || Jams(known, old(next))
      ensures outcome.Raised? ==>
                if FirstTorn(batches, old(known), old(next)).Some? then
                  outcome.fault == EventSequenceGap && next == old(next)
                else
                  outcome.fault == InvalidCommittedBatch && Jams(known, next)
      ensures Jams(old(known), old(next)) ==> outcome.Raised? && Jams(known, next)
      ensures outcome.Published? ==>
                && Drained()
                && known.Keys == old(known).Keys + AllSlots(batches)
                && (forall batch :: batch in batches ==> Reported(batch, known, outcome.diagnostics))
      ensures GroundTruth(truth) && Follows(old(known), truth)
              && (forall batch :: batch in batches ==> BatchFollows(batch, truth)) ==>
                forall name, stream: Stream ::
                  && hub.Accepts(name, stream.kind)
                  && (forall k :: old(attempts) <= k < attempts ==>
                        trouble(k) != HubRaises && name !in trouble(k).failing) ==>
                    IsTruthPrefix(hub.Log(name, stream), stream, truth)
                    && |hub.Log(name, stream)| == NextIn(next, stream) - 1
      ensures GroundTruth(truth) && Follows(old(known), truth)
              && (forall batch :: batch in batches ==> BatchFollows(batch, truth)) ==>
                && outcome.Published? && Follows(known, truth)
                && ((forall k :: old(attempts) <= k < attempts ==> trouble(k) != HubRaises) ==> outcome.diagnostics == [])
                && (forall batch :: batch in batches ==> AllKnown(known, batch))
                && (CalmBetween(old(attempts), attempts) ==>
                      retry == map[] && CaughtUp(truth) && outcome.diagnostics == [])
    {
      hide Valid, Batch.Valid, GroundTruth, Follows, BatchFollows, AllKnown, Known, AllSlots, Grows, CaughtUp,
           FirstTorn, TakenPart, AcceptAll, Jams, Served, IsTruthPrefix;
      ghost var honest := GroundTruth(truth) && Follows(known, truth)
                          && forall batch :: batch in batches ==> BatchFollows(batch, truth);
      var diagnostics := RetryFailed(truth);
      ghost var retried := attempts;
      var replay, more, fault := TakeAll(batches, truth);
      if Jams(old(known), next) {
        JamStays(old(known), known, next);
      }
      diagnostics := diagnostics + more;
      if fault.Some? {
        return Raised(fault.value);
      }
      assert honest && CalmBetween(old(attempts), attempts) ==> retry == map[] && diagnostics == [];
      more := ReplayAll(replay, truth);
      diagnostics := diagnostics + more;
      ghost var drained := attempts;
      more, fault := DrainAll(truth);
      if fault.Some? {
        return Raised(fault.value);
      }
      diagnostics := diagnostics + more;
      assert (forall k :: old(attempts) <= k < attempts ==> trouble(k) != HubRaises) ==>
               && HubUpBetween(old(attempts), retried) && HubUpBetween(retried, drained)
               && HubUpBetween(drained, attempts);
      if honest {
        WellServed(old(attempts), retried, drained, truth);
        if retry == map[] {
          NothingDueMeansCaughtUp(truth);
        }
      }
      outcome := Published(diagnostics);
    }

    /** Whoever is served when retrying and draining goes well for it holds the truth after a call that goes well for it. */
    lemma WellServed(start: nat, retried: nat, drained: nat, truth: (Stream, nat) -> Identity)
      requires Valid() && Follows(known, truth) && start <= retried <= drained <= attempts
      requires forall name :: WellBetween(name, start, retried) && WellBetween(name, drained, attempts) ==> Served(name)
      ensures forall name, stream: Stream ::
                && hub.Accepts(name, stream.kind)
                && (forall k :: start <= k < attempts ==> trouble(k) != HubRaises && name !in trouble(k).failing) ==>
                  IsTruthPrefix(hub.Log(name, stream), stream, truth) && |hub.Log(name, stream)| == NextIn(next, stream) - 1
    {
      hide Valid, Served, IsTruthPrefix;
      forall name, stream: Stream | hub.Accepts(name, stream.kind)
                                    && forall k :: start <= k < attempts ==> trouble(k) != HubRaises && name !in trouble(k).failing
        ensures IsTruthPrefix(hub.Log(name, stream), stream, truth)
        ensures |hub.Log(name, stream)| == NextIn(next, stream) - 1
      {
        assert WellBetween(name, start, retried) && WellBetween(name, drained, attempts);
        ServedHoldsTruth(name, truth, stream);
      }
    }

    /** A run of calls with batches of one truth, whatever fails on the way. */
    method PublishEach(calls: seq<seq<Batch>>, ghost truth: (Stream, nat) -> Identity)
      requires Valid() && Drained() && GroundTruth(truth) && Follows(known, truth)
      requires forall call :: call in calls ==> Truthful(call, truth)
      modifies this`attempts, this`known, this`next, this`pending, this`retry, hub
      ensures Valid() && Drained() && Follows(known, truth)
      ensures known.Keys == old(known).Keys + CallSlots(calls)
    {
      hide Valid, Drained, GroundTruth, Follows, AllSlots, FirstTorn, TakenPart, AcceptAll, Jams;
      for i := 0 to |calls|
        invariant Valid() && Drained() && Follows(known, truth)
        invariant known.Keys == old(known).Keys + CallSlots(calls[..i])
      {
        assert Truthful(calls[i], truth);
        var outcome := PublishAll(calls[i], truth);
        assert calls[..i + 1][..i] == calls[..i];
      }
      assert calls[..|calls|] == calls;
    }

    method ReplayAll(replay: seq<Batch>, ghost truth: (Stream, nat) -> Identity) returns (diagnostics: seq<Diagnostic>)
      requires Valid() && forall batch :: batch in replay ==> Replayable(batch, known, next)
      modifies this`attempts, this`retry, hub
      ensures Valid() && attempts == old(attempts) + |replay|
      ensures HubUpBetween(old(attempts), attempts) ==> diagnostics == []
      ensures forall name :: old(Served(name)) ==> Served(name)
      ensures GroundTruth(truth) && Follows(known, truth) && old(retry) == map[] && CalmBetween(old(attempts), attempts) ==>
                retry == map[] && diagnostics == []
    {
      hide Valid, GroundTruth, Follows, Replayable, Served;
      diagnostics := [];
      for i := 0 to |replay|
        invariant Valid() && attempts == old(attempts) + i
        invariant HubUpBetween(old(attempts), attempts) ==> diagnostics == []
        invariant forall name :: old(Served(name)) ==> Served(name)
        invariant GroundTruth(truth) && Follows(known, truth) && old(retry) == map[]
                  && CalmBetween(old(attempts), attempts) ==>
                    retry == map[] && diagnostics == []
      {
        ghost var before := attempts;
        var more := ReplayOne(replay[i], truth);
        diagnostics := diagnostics + more;
        assert HubUpBetween(old(attempts), attempts) ==>
                 trouble(before) != HubRaises && HubUpBetween(old(attempts), before);
        assert CalmBetween(old(attempts), attempts) ==> Calm(trouble(before)) && CalmBetween(old(attempts), before);
      }
    }

    /** A jammed stream has buffered events. */
    lemma OnlyQueuedJam()
      requires Valid()
      ensures forall stream :: Jammed(known, next, stream) ==> stream in pending
    {
      hide PendingSound, RetrySound, HubBehind, SecuredBelow;
      forall stream | Jammed(known, next, stream)
        ensures stream in pending
      {
        var p: nat, q: nat :| Clash(known, stream, NextIn(next, stream), p, q);
        assert Slot(stream, p) in known;
      }
    }

    /** Every stream with a queue is drained, unless one is jammed: that raises, and the stream stays jammed. */
    method DrainAll(ghost truth: (Stream, nat) -> Identity)
      returns (diagnostics: seq<Diagnostic>, fault: Option<BatchFault>)
      requires Valid()
      modifies this`attempts, this`retry, this`next, this`pending, hub
      ensures Valid() && old(attempts) <= attempts
      ensures HubUpBetween(old(attempts), attempts) ==> diagnostics == []
      ensures fault == if Jams(known, old(next)) then Some(InvalidCommittedBatch) else None
      ensures fault.None? ==> Drained()
      ensures fault.Some? ==> Jams(known, next)
      ensures GroundTruth(truth) && Follows(known, truth) ==>
                forall name :: old(Served(name)) && WellBetween(name, old(attempts), attempts) ==> Served(name)
      ensures GroundTruth(truth) && Follows(known, truth) ==>
                && fault.None?
                && (old(retry) == map[] && CalmBetween(old(attempts), attempts) ==> retry == map[] && diagnostics == [])
    {
      hide Valid, GroundTruth, Follows, NextIn, Jammed, Served;
      diagnostics, fault := [], None;
      var todo := pending.Keys;
      OnlyQueuedJam();
      while todo != {}
        invariant Valid() && old(attempts) <= attempts && fault.None?
        invariant HubUpBetween(old(attempts), attempts) ==> diagnostics == []
        invariant todo <= pending.Keys
        invariant forall stream :: stream !in todo ==>
                    !IsPending(pending, stream, NextIn(next, stream)) && !Jammed(known, old(next), stream)
        invariant forall stream :: stream in todo ==> NextIn(next, stream) == NextIn(old(next), stream)
        invariant GroundTruth(truth) && Follows(known, truth) ==>
                    forall name :: old(Served(name)) && WellBetween(name, old(attempts), attempts) ==> Served(name)
        invariant GroundTruth(truth) && Follows(known, truth) && old(retry) == map[]
                  && CalmBetween(old(attempts), attempts) ==>
                    retry == map[] && diagnostics == []
        decreases |todo|
      {
        var stream := Pick(todo);
        ghost var before := attempts;
        var more;
        JamsAlike(known, next, old(next), stream);
        more, fault := Drain(stream, truth);
        assert forall name :: WellBetween(name, old(attempts), attempts) ==>
                                WellBetween(name, old(attempts), before) && WellBetween(name, before, attempts);
        if fault.Some? {
          return;
        }
        diagnostics := diagnostics + more;
        todo := todo - {stream};
        assert HubUpBetween(old(attempts), attempts) ==>
                 HubUpBetween(before, attempts) && HubUpBetween(old(attempts), before);
        assert CalmBetween(old(attempts), attempts) ==> CalmBetween(before, attempts) && CalmBetween(old(attempts), before);
      }
    }

    /** Every remembered batch is retried once, a stream's batches in ascending order of their first sequence. */
    method RetryFailed(ghost truth: (Stream, nat) -> Identity) returns (diagnostics: seq<Diagnostic>)
      requires Valid()
      modifies this`attempts, this`retry, hub
      ensures Valid() && attempts >= old(attempts)
      ensures HubUpBetween(old(attempts), attempts) ==> diagnostics == []
      ensures GroundTruth(truth) && Follows(known, truth) ==>
                forall name :: WellBetween(name, old(attempts), attempts) ==> Served(name)
      ensures GroundTruth(truth) && Follows(known, truth) && CalmBetween(old(attempts), attempts) ==>
                retry == map[] && diagnostics == []
    {
      hide Valid, Agrees, Follows, GroundTruth, Due, Served, Least;
      diagnostics := [];
      var todo := retry.Keys;
      AllDue();
      while todo != {}
        invariant todo <= retry.Keys && Valid() && attempts >= old(attempts)
        invariant HubUpBetween(old(attempts), attempts) ==> diagnostics == []
        invariant GroundTruth(truth) && Follows(known, truth) && CalmBetween(old(attempts), attempts) ==>
                    todo == retry.Keys && diagnostics == []
        invariant GroundTruth(truth) && Follows(known, truth) ==>
                    forall name :: WellBetween(name, old(attempts), attempts) ==> Due(name, hub.delivered, todo)
        decreases |todo|
      {
        var key := LeastKey(todo);
        ghost var before, delivered := attempts, hub.delivered;
        ghost var honest := GroundTruth(truth) && Follows(known, truth);
        if honest {
          RetryAgrees(key, truth);
          if todo == retry.Keys {
            LeastRetryFits(key, truth);
          }
        }
        LeastIsMember(key, todo);
        label Sending:
        var failed, more := RetryOne(key);
        if honest {
          forall name | WellBetween(name, old(attempts), attempts)
            ensures Due(name, hub.delivered, todo - {key})
          {
            assert WellBetween(name, old(attempts), before);
            assert trouble(before) != HubRaises && name !in trouble(before).failing;
            forall stream
              ensures |LogIn(delivered, name, stream)| <= |LogIn(hub.delivered, name, stream)|
            {
              assert |old@Sending(hub.Log(name, stream))| <= |hub.Log(name, stream)|;
            }
            DueStep(name, delivered, hub.delivered, todo, key);
          }
        }
        diagnostics := diagnostics + more;
        todo := todo - {key};
        assert HubUpBetween(old(attempts), attempts) ==>
                 trouble(before) != HubRaises && HubUpBetween(old(attempts), before);
        assert CalmBetween(old(attempts), attempts) ==> Calm(trouble(before)) && CalmBetween(old(attempts), before);
      }
      if GroundTruth(truth) && Follows(known, truth) {
        forall name | WellBetween(name, old(attempts), attempts)
          ensures Served(name)
        {
          NothingDueServes(name);
        }
      }
    }

    /** One replay of accepted events the stream has passed; it joins the retry map when it fails. */
    method ReplayOne(batch: Batch, ghost truth: (Stream, nat) -> Identity) returns (diagnostics: seq<Diagnostic>)
      requires Valid() && Replayable(batch, known, next)
      modifies this`attempts, this`retry, hub
      ensures Valid() && attempts == old(attempts) + 1
      ensures trouble(old(attempts)) != HubRaises ==> diagnostics == []
      ensures forall name :: old(Served(name)) ==> Served(name)
      ensures GroundTruth(truth) && Follows(known, truth) && old(retry) == map[] && Calm(trouble(old(attempts))) ==>
                retry == map[] && diagnostics == []
    {
      hide PendingSound, Placed, RetrySound, Agrees, Hub.Valid, Hub.AcceptsAmong, Hub.Log, DistinctIds, Consecutive,
           Known, Follows, GroundTruth;
      BatchSpan(batch);
      if GroundTruth(truth) && Follows(known, truth) && retry == map[] {
        CalmSendFits(batch, truth);
      }
      var failed: bool;
      failed, diagnostics := Send(batch);
      if failed {
        retry := retry[KeyFor(batch) := batch];
      }
      RememberedSound(old(retry), batch, next, known);
      FactsStillPassed(old(hub.facts), hub.facts, batch, next, known);
      forall name, stream, q | |hub.Log(name, stream)| < q < NextIn(next, stream) && hub.Accepts(name, stream.kind)
        ensures Covered(retry, stream, q)
      {
        assert old(Covered(retry, stream, q));
      }
    }

    /**
      The consecutive buffered events from the next sequence on go to the hub as one batch and leave the buffer. An id
      that occurs twice among them raises and leaves everything as it was.
      */
    method Drain(stream: Stream, ghost truth: (Stream, nat) -> Identity)
      returns (diagnostics: seq<Diagnostic>, fault: Option<BatchFault>)
      requires Valid()
      modifies this`attempts, this`retry, this`next, this`pending, hub
      ensures Valid() && old(attempts) <= attempts
      ensures HubUpBetween(old(attempts), attempts) ==> diagnostics == []
      ensures pending.Keys == old(pending).Keys + {stream}
      ensures forall other :: other != stream ==>
                NextIn(next, other) == old(NextIn(next, other))
                && forall q :: IsPending(pending, other, q) == old(IsPending(pending, other, q))
      ensures fault == if Jammed(known, old(next), stream) then Some(InvalidCommittedBatch) else None
      ensures fault.Some? ==> next == old(next) && attempts == old(attempts) && retry == old(retry)
      ensures fault.None? ==> !IsPending(pending, stream, NextIn(next, stream))
      ensures GroundTruth(truth) && Follows(known, truth) ==>
                forall name :: old(Served(name)) && WellBetween(name, old(attempts), attempts) ==> Served(name)
      ensures GroundTruth(truth) && Follows(known, truth) ==>
                && fault.None?
                && (old(retry) == map[] && CalmBetween(old(attempts), attempts) ==> retry == map[] && diagnostics == [])
    {
      hide Valid, GroundTruth, Follows, Jammed, Served, MakeBatch, Batch.Valid, IsReady, Drained, CalmBetween,
           WellBetween, HubUpBetween;
      diagnostics, fault := [], None;
      SetDefault(stream);
      var ready := Ready(stream);
      ReadyChecked(stream, ready);
      if ready == [] {
        return;
      }
      var made := MakeBatch(stream, ready);
      ReadyPositive(stream, ready);
      if GroundTruth(truth) && Follows(known, truth) {
        ReadyIsBatch(stream, ready, truth);
      }
      if made.Err? {
        return diagnostics, Some(made.error);
      }
      diagnostics := Advance(made.value, truth);
      OneAttempt(old(attempts));
    }

    lemma OneAttempt(start: nat)
      ensures HubUpBetween(start, start + 1) ==> trouble(start) != HubRaises
      ensures CalmBetween(start, start + 1) ==> Calm(trouble(start))
      ensures forall name :: WellBetween(name, start, start + 1) ==> WellAt(name, start)
    {
    }

    ghost predicate WellAt(name: string, attempt: nat) {
      trouble(attempt) != HubRaises && name !in trouble(attempt).failing
    }

    /** Hand a ready batch to the hub and remember it if it failed: everything up to its last event is then secured. */
    method SendReady(batch: Batch, ghost passed: map<Stream, nat>, ghost truth: (Stream, nat) -> Identity)
      returns (diagnostics: seq<Diagnostic>)
      requires Valid() && batch.Valid() && batch.First() == NextIn(next, batch.stream)
      requires passed == next[batch.stream := NextIn(next, batch.stream) + |batch.events|]
      requires Replayable(batch, known, passed)
      modifies this`attempts, this`retry, hub
      ensures hub.Valid() && FactsPassed(hub.facts, passed, known) && RetrySound(retry, passed, known)
      ensures trouble(old(attempts)) != HubRaises ==> diagnostics == []
      ensures SecuredBelow(passed)
      ensures attempts == old(attempts) + 1
      ensures GroundTruth(truth) && Follows(known, truth) ==>
                forall name :: old(Served(name)) && WellAt(name, old(attempts)) ==> ServedBelow(name, passed)
      ensures GroundTruth(truth) && Follows(known, truth) && old(retry) == map[] && Calm(trouble(old(attempts))) ==>
                retry == map[] && diagnostics == []
    {
      hide PendingSound, Placed, RetrySound, FactsPassed, Agrees, Hub.Valid, Hub.AcceptsAmong, Hub.Log, DistinctIds,
           Consecutive, Known, Follows, GroundTruth;
      BatchSpan(batch);
      PassedFurther(next, passed, known, retry, hub.facts);
      if GroundTruth(truth) && Follows(known, truth) {
        BatchAgrees(batch, truth);
        if retry == map[] {
          CalmSendFits(batch, truth);
        }
      }
      var failed: bool;
      failed, diagnostics := Send(batch);
      if failed {
        retry := retry[KeyFor(batch) := batch];
      }
      FactsStillPassed(old(hub.facts), hub.facts, batch, passed, known);
      RememberedSound(old(retry), batch, passed, known);
      forall name, stream, q | |hub.Log(name, stream)| < q < NextIn(passed, stream) && hub.Accepts(name, stream.kind)
        ensures Covered(retry, stream, q)
      {
        if q < NextIn(next, stream) {
          assert old(Covered(retry, stream, q));
        } else if failed {
          assert KeyFor(batch) in retry;
        }
      }
    }

    /** Hand a ready batch to the hub and move the stream past it. */
    method Advance(batch: Batch, ghost truth: (Stream, nat) -> Identity) returns (diagnostics: seq<Diagnostic>)
      requires Valid() && batch.Valid() && batch.stream in pending
      requires IsReady(batch.events, pending, batch.stream, NextIn(next, batch.stream))
      modifies this`attempts, this`retry, this`next, this`pending, hub
      ensures Valid() && attempts == old(attempts) + 1
      ensures trouble(old(attempts)) != HubRaises ==> diagnostics == []
      ensures next == old(next)[batch.stream := old(NextIn(next, batch.stream)) + |batch.events|]
      ensures pending == old(pending)[batch.stream := Without(old(pending)[batch.stream], batch.events)]
      ensures GroundTruth(truth) && Follows(known, truth) ==>
                forall name :: old(Served(name)) && WellAt(name, old(attempts)) ==> Served(name)
      ensures GroundTruth(truth) && Follows(known, truth) && old(retry) == map[] && Calm(trouble(old(attempts))) ==>
                retry == map[] && diagnostics == []
    {
      hide PendingSound, Placed, RetrySound, FactsPassed, Covered, Hub.Valid, Hub.AcceptsAmong, Hub.Log, Batch.Valid,
           Follows, GroundTruth, IsReady, Without, Replayable;
      AdvanceKeepsPlaced(batch, pending, next, known, retry, hub.facts);
      var sequence := NextIn(next, batch.stream) + |batch.events|;
      diagnostics := SendReady(batch, next[batch.stream := sequence], truth);
      pending := pending[batch.stream := Without(pending[batch.stream], batch.events)];
      next := next[batch.stream := sequence];
      assert forall stream :: 1 <= old(NextIn(next, stream)) <= NextIn(next, stream);
    }

    /** The consecutive buffered events from the next sequence on, as many as there are. */
    method Ready(stream: Stream) returns (ready: seq<View>)
      requires Valid() && stream in pending
      ensures IsReady(ready, pending, stream, NextIn(next, stream))
      ensures !IsPending(pending, stream, NextIn(next, stream) + |ready|)
    {
      var sequence := NextIn(next, stream);
      ready := [];
      while sequence in pending[stream]
        invariant sequence == NextIn(next, stream) + |ready|
        invariant IsReady(ready, pending, stream, NextIn(next, stream))
        decreases set q | q in pending[stream] && sequence <= q
      {
        ghost var above := set q | q in pending[stream] && sequence <= q;
        assert sequence in above && IsPending(pending, stream, sequence);
        ready := ready + [pending[stream][sequence]];
        sequence := sequence + 1;
        assert sequence - 1 !in set q | q in pending[stream] && sequence <= q;
      }
    }

    lemma ReadyChecked(stream: Stream, ready: seq<View>)
      requires Valid() && IsReady(ready, pending, stream, NextIn(next, stream))
      requires !IsPending(pending, stream, NextIn(next, stream) + |ready|)
      ensures ready == [] ==> !Jammed(known, next, stream)
      ensures ready != [] ==>
                MakeBatch(stream, ready) ==
                if Jammed(known, next, stream) then Err(InvalidCommittedBatch) else Ok(Batch(stream, ready))
    {
      hide PendingSound, Placed, RetrySound, HubBehind, SecuredBelow, IsRun, IsReady, Jammed;
      ReadyRun(ready, stream, pending, next, known);
      RunDecides(ready, stream, next, known);
    }

    lemma ReadyPositive(stream: Stream, ready: seq<View>)
      requires Valid() && IsReady(ready, pending, stream, NextIn(next, stream))
      ensures forall view :: view in ready ==> 1 <= view.sequence
    {
      hide PendingSound, Placed, RetrySound, HubBehind, SecuredBelow;
      assert 1 <= NextIn(next, stream);
    }

    lemma ReadyIsBatch(stream: Stream, ready: seq<View>, truth: (Stream, nat) -> Identity)
      requires Valid() && ready != [] && IsReady(ready, pending, stream, NextIn(next, stream))
      requires GroundTruth(truth) && Follows(known, truth)
      ensures MakeBatch(stream, ready).Ok?
    {
      hide HubBehind, SecuredBelow, RetrySound;
      forall i | 0 <= i < |ready|
        ensures ready[i].sequence == NextIn(next, stream) + i
        ensures ready[i].id == truth(stream, ready[i].sequence).id
      {
        assert IsPending(pending, stream, ready[i].sequence);
      }
      forall i, j | 0 <= i < j < |ready|
        ensures ready[i].id != ready[j].id
      {
        assert truth(stream, ready[i].sequence).id != truth(stream, ready[j].sequence).id;
      }
    }

    /** The least remaining retry of a stream starts where every accepting log has arrived. */
    lemma LeastRetryFits(key: RetryKey, truth: (Stream, nat) -> Identity)
      requires Valid() && key in retry && Least(key, retry.Keys)
      requires GroundTruth(truth) && Follows(known, truth)
      ensures Agrees(hub.facts, retry[key])
      ensures forall name :: hub.Accepts(name, key.stream.kind) ==>
                key.first <= |hub.Log(name, key.stream)| + 1
    {
      hide PendingSound, Placed, HubBehind, SecuredBelow, Agrees, Follows, GroundTruth;
      CalmSendFits(retry[key], truth);
    }
  }

  /** No key of the same stream starts earlier. */
  ghost predicate Least(key: RetryKey, keys: set<RetryKey>) {
    key in keys && forall other :: other in keys && other.stream == key.stream ==> key.first <= other.first
  }

  lemma LeastIsMember(key: RetryKey, keys: set<RetryKey>)
    requires Least(key, keys)
    ensures key in keys
  {
  }

  predicate Before(a: RetryKey, b: RetryKey) {
    a.first < b.first || (a.first == b.first && a.last < b.last)
  }

  method LeastKey(keys: set<RetryKey>) returns (key: RetryKey)
    requires keys != {}
    ensures Least(key, keys)
  {
    key := Pick(keys);
    var rest := keys - {key};
    while rest != {}
      invariant rest <= keys && key in keys
      invariant forall other :: other in keys - rest && other.stream == key.stream ==> key.first <= other.first
      decreases |rest|
    {
      var other := Pick(rest);
      rest := rest - {other};
      if other.stream == key.stream && Before(other, key) {
        key := other;
      }
    }
  }

  /**
    Two dispatchers that have been handed the same events of one truth, in whatever order, overlap or duplication, and
    that have caught up, have delivered the same log to every observer that both serve.
    */
  lemma ArrivalOrderDoesNotMatter(a: AfterCommitDispatcher, b: AfterCommitDispatcher,
                                  truth: (Stream, nat) -> Identity, name: string, stream: Stream)
    requires a.Valid() && a.Drained() && a.CaughtUp(truth)
    requires b.Valid() && b.Drained() && b.CaughtUp(truth)
    requires a.known.Keys == b.known.Keys
    requires a.hub.Accepts(name, stream.kind) && b.hub.Accepts(name, stream.kind)
    ensures a.hub.Log(name, stream) == b.hub.Log(name, stream)
  {
    hide AfterCommitDispatcher.Valid, AfterCommitDispatcher.Drained, Hub.Log, Hub.AcceptsAmong;
    a.WaitsForFirstGap(stream);
    b.WaitsForFirstGap(stream);
    var p, q := NextIn(a.next, stream), NextIn(b.next, stream);
    FirstGapIsUnique(a.known.Keys, stream, p, q);
    var left, right := a.hub.Log(name, stream), b.hub.Log(name, stream);
    forall i | 0 <= i < |left|
      ensures left[i] == right[i]
    {
      assert left[i].sequence == right[i].sequence == i + 1;
    }
  }

  ghost predicate Truthful(call: seq<Batch>, truth: (Stream, nat) -> Identity) {
    forall batch :: batch in call ==> batch.Valid() && BatchFollows(batch, truth)
  }

  /** The slots handed in by a run of calls. */
  ghost function CallSlots(calls: seq<seq<Batch>>): set<Slot> {
    if calls == [] then {} else CallSlots(calls[..|calls| - 1]) + AllSlots(calls[|calls| - 1])
  }

  /**
    Two new dispatchers are handed the same events by two runs of calls, cut into batches and ordered differently, with
    failures anywhere. Once nothing is left to retry, every observer that both serve has been given the same log.
    */
  method SameLogsInAnyOrder(a: AfterCommitDispatcher, b: AfterCommitDispatcher, left: seq<seq<Batch>>,
                            right: seq<seq<Batch>>, ghost truth: (Stream, nat) -> Identity)
    requires a != b && a.hub != b.hub && a.known == b.known == map[]
    requires a.Valid() && a.Drained() && b.Valid() && b.Drained()
    requires GroundTruth(truth) && CallSlots(left) == CallSlots(right)
    requires forall call :: call in left || call in right ==> Truthful(call, truth)
    modifies a, a.hub, b, b.hub
    ensures a.retry == map[] && b.retry == map[] ==>
              forall name, stream: Stream :: a.hub.Accepts(name, stream.kind) && b.hub.Accepts(name, stream.kind) ==>
                                               a.hub.Log(name, stream) == b.hub.Log(name, stream)
  {
    hide AfterCommitDispatcher.Valid, AfterCommitDispatcher.Drained, AfterCommitDispatcher.CaughtUp, GroundTruth,
         Hub.Log, Hub.AcceptsAmong;
    a.PublishEach(left, truth);
    b.PublishEach(right, truth);
    if a.retry == map[] && b.retry == map[] {
      a.NothingDueMeansCaughtUp(truth);
      b.NothingDueMeansCaughtUp(truth);
      forall name, stream: Stream | a.hub.Accepts(name, stream.kind) && b.hub.Accepts(name, stream.kind)
        ensures a.hub.Log(name, stream) == b.hub.Log(name, stream)
      {
        ArrivalOrderDoesNotMatter(a, b, truth, name, stream);
      }
    }
  }

  lemma BatchSpan(batch: Batch)
    requires batch.Valid()
    ensures batch.Last() == batch.First() + |batch.events| - 1
  {
  }

  lemma BatchBelow(batch: Batch, view: View)
    requires batch.Valid() && view in batch.events
    ensures batch.First() <= view.sequence <= batch.Last()
  {
    var i :| 0 <= i < |batch.events| && batch.events[i] == view;
  }
}
