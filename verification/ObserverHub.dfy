/**
  The observer hub (observer.py): committed batches are handed to a fixed registry of observers, each with
  its own cursor and its own set of events already seen. Callbacks may raise; which ones do is an input.
  `facts` and `delivered` are ghost: the facts the hub has accepted, and what each observer has been given
  by callbacks that returned.
  */
module ObserverHub {
  import opened Wrappers

  datatype StreamKind = Dialogue | Registry

  datatype Stream = Stream(kind: StreamKind, id: string)

  datatype Payload = Payload(tag: string, fields: seq<(string, string)>)

  datatype View = View(id: string, sequence: nat, payload: Payload)

  datatype Fact = Fact(stream: Stream, view: View)

  datatype Batch = Batch(stream: Stream, events: seq<View>) {
    /** What the constructor of a committed batch enforces. */
    predicate Valid() {
      events != [] && 1 <= First() && DistinctIds(events) && Consecutive(events)
    }

    function First(): nat
      requires events != []
    {
      events[0].sequence
    }

    function Last(): nat
      requires events != []
    {
      events[|events| - 1].sequence
    }

    ghost function Facts(): set<Fact> {
      set view | view in events :: Fact(stream, view)
    }
  }

  datatype BatchFault = InvalidCommittedBatch | EventSequenceGap

  predicate DistinctIds(events: seq<View>) {
    forall i, j :: 0 <= i < j < |events| ==> events[i].id != events[j].id
  }

  predicate Consecutive(events: seq<View>) {
    forall i :: 0 <= i < |events| ==> events[i].sequence == events[0].sequence + i
  }

  /** The sequences step by one exactly as pairs of neighbours are compared in the source. */
  predicate NeighboursStep(events: seq<View>) {
    forall i :: 0 < i < |events| ==> events[i].sequence == events[i - 1].sequence + 1
  }

  /** Building a batch from views, each of which already carries a positive sequence. */
  function MakeBatch(stream: Stream, events: seq<View>): (r: Result<Batch, BatchFault>)
    ensures r.Ok? ==> r.value == Batch(stream, events)
    ensures (forall view :: view in events ==> 1 <= view.sequence) ==>
              (r.Ok? <==> Batch(stream, events).Valid())
  {
    if events == [] || !DistinctIds(events) then
      Err(InvalidCommittedBatch)
    else if !NeighboursStep(events) then
      (ConsecutiveSteps(events);
       Err(EventSequenceGap))
    else
      (StepsConsecutive(events, |events|);
       Ok(Batch(stream, events)))
  }

  lemma ConsecutiveSteps(events: seq<View>)
    ensures Consecutive(events) ==> NeighboursStep(events)
  {
    if Consecutive(events) {
      forall i | 0 < i < |events|
        ensures events[i].sequence == events[i - 1].sequence + 1
      {
        assert events[i].sequence == events[0].sequence + i;
      }
    }
  }

  lemma {:induction false} StepsConsecutive(events: seq<View>, count: nat)
    requires NeighboursStep(events) && count <= |events|
    ensures forall i :: 0 <= i < count ==> events[i].sequence == events[0].sequence + i
  {
    if count > 1 {
      StepsConsecutive(events, count - 1);
      assert events[count - 1].sequence == events[count - 2].sequence + 1;
    }
  }

  predicate Compatible(a: View, b: View) {
    a.id == b.id || a.sequence == b.sequence ==> a == b
  }

  ghost predicate Admits(facts: set<Fact>, stream: Stream, view: View) {
    forall fact :: fact in facts && fact.stream == stream ==> Compatible(fact.view, view)
  }

  /** No accepted fact shares an id or a sequence with a different event of the batch. */
  ghost predicate Agrees(facts: set<Fact>, batch: Batch) {
    forall fact, view :: fact in facts && fact.stream == batch.stream && view in batch.events ==>
                           Compatible(fact.view, view)
  }

  /** Within one stream, ids and sequences are in bijection. */
  ghost predicate Bijective(facts: set<Fact>) {
    forall a, b :: a in facts && b in facts && a.stream == b.stream ==>
                     (a.view.id == b.view.id <==> a.view.sequence == b.view.sequence) &&
                     (a.view.id == b.view.id ==> a.view == b.view)
  }

  /** What one publish adds to one observer's log: the part of the batch above its cursor, or nothing. */
  function Deliver(log: seq<View>, events: seq<View>, fails: bool): (after: seq<View>)
    requires events != [] && Consecutive(events)
    ensures log <= after
  {
    if fails || events[0].sequence > |log| + 1 || events[|events| - 1].sequence <= |log| then
      log
    else
      log + events[|log| + 1 - events[0].sequence..]
  }

  /** A log that holds exactly the sequences 1 to its length. */
  ghost predicate Gapless(log: seq<View>) {
    forall i :: 0 <= i < |log| ==> log[i].sequence == i + 1
  }

  /** Every entry of the log is a fact of the stream. */
  ghost predicate DrawnFrom(log: seq<View>, stream: Stream, facts: set<Fact>) {
    forall i :: 0 <= i < |log| ==> Fact(stream, log[i]) in facts
  }

  lemma DeliverKeepsLog(log: seq<View>, batch: Batch, fails: bool, facts: set<Fact>)
    requires batch.Valid() && Gapless(log) && DrawnFrom(log, batch.stream, facts)
    ensures Gapless(Deliver(log, batch.events, fails))
    ensures DrawnFrom(Deliver(log, batch.events, fails), batch.stream, facts + batch.Facts())
  {
    var after := Deliver(log, batch.events, fails);
    forall i | |log| <= i < |after|
      ensures after[i].sequence == i + 1 && after[i] in batch.events
    {
      assert after[i] == batch.events[i + 1 - batch.First()];
    }
  }

  /** Any two logs drawn from one set of facts are comparable: one is a prefix of the other. */
  lemma LogsArePrefixComparable(a: seq<View>, b: seq<View>, stream: Stream, facts: set<Fact>)
    requires Bijective(facts)
    requires Gapless(a) && Gapless(b) && DrawnFrom(a, stream, facts) && DrawnFrom(b, stream, facts)
    ensures a <= b || b <= a
  {
    forall i | 0 <= i < |a| && i < |b|
      ensures a[i] == b[i]
    {
      assert Fact(stream, a[i]) in facts && Fact(stream, b[i]) in facts;
      assert a[i].sequence == b[i].sequence;
    }
  }

  datatype EventKey = EventKey(stream: Stream, id: string)

  datatype Slot = Slot(stream: Stream, sequence: nat)

  datatype Placement = Placement(sequence: nat, payload: Payload)

  datatype Identity = Identity(id: string, payload: Payload)

  datatype Recipient = Recipient(name: string, stream: Stream)

  datatype Registration = Registration(name: string, accepted: set<StreamKind>)

  datatype FailureCode = EventIntegrity | SequenceGap | CallbackFailed

  datatype Failure = Failure(name: string, code: FailureCode)

  datatype Report = Report(attempted: seq<string>, failures: seq<Failure>)

  /** How a publish of `batch` goes for an observer at `cursor`: not needed, refused, raising or delivered. */
  datatype Handling = Skipped | Refused(code: FailureCode) | Delivered

  function Handle(cursor: nat, batch: Batch, fails: bool): Handling
    requires batch.Valid()
  {
    if batch.Last() <= cursor then Skipped
    else if cursor + 1 < batch.First() then Refused(SequenceGap)
    else if fails then Refused(CallbackFailed)
    else Delivered
  }

  /** A publish of the batch gives nothing to an observer at `cursor`: its callback raises, or a gap or nothing is left. */
  predicate LeftOut(cursor: nat, batch: Batch, fails: bool)
    requires batch.Valid()
  {
    fails || cursor + 1 < batch.First() || batch.Last() <= cursor
  }

  /** The events of a batch that an observer has not seen, in order. */
  function Unseen(stream: Stream, events: seq<View>, seen: set<EventKey>): seq<View> {
    if events == [] then
      []
    else if EventKey(stream, events[0].id) in seen then
      Unseen(stream, events[1..], seen)
    else
      [events[0]] + Unseen(stream, events[1..], seen)
  }

  /** When exactly the events up to `cursor` have been seen, the unseen ones are a suffix. */
  lemma {:induction false} UnseenIsSuffix(stream: Stream, events: seq<View>, seen: set<EventKey>, cursor: nat)
    requires Consecutive(events)
    requires forall view :: view in events ==> (EventKey(stream, view.id) in seen <==> view.sequence <= cursor)
    ensures events == [] ==> Unseen(stream, events, seen) == []
    ensures events != [] && events[|events| - 1].sequence <= cursor ==> Unseen(stream, events, seen) == []
    ensures events != [] && events[0].sequence > cursor ==> Unseen(stream, events, seen) == events
    ensures events != [] && events[0].sequence <= cursor < events[|events| - 1].sequence ==>
              Unseen(stream, events, seen) == events[cursor + 1 - events[0].sequence..]
  {
    if events != [] {
      var rest := events[1..];
      assert forall i :: 0 <= i < |rest| ==> rest[i] == events[i + 1] && rest[i] in events;
      assert events[0] in events;
      UnseenIsSuffix(stream, rest, seen, cursor);
      if |events| > 1 {
        assert events[1].sequence == events[0].sequence + 1;
        assert rest[|rest| - 1] == events[|events| - 1];
      }
    }
  }

  function LogIn(delivered: map<Recipient, seq<View>>, name: string, stream: Stream): seq<View> {
    if Recipient(name, stream) in delivered then delivered[Recipient(name, stream)] else []
  }

  function CursorIn(cursor: map<Recipient, nat>, name: string, stream: Stream): nat {
    if Recipient(name, stream) in cursor then cursor[Recipient(name, stream)] else 0
  }

  /** The two lookup tables are the facts, read by event id and by sequence. */
  ghost predicate Tabulates(facts: set<Fact>, events: map<EventKey, Placement>, sequences: map<Slot, Identity>) {
    && (forall fact :: fact in facts ==>
          && EventKey(fact.stream, fact.view.id) in events
          && events[EventKey(fact.stream, fact.view.id)] == Placement(fact.view.sequence, fact.view.payload))
    && (forall key :: key in events ==>
          Fact(key.stream, View(key.id, events[key].sequence, events[key].payload)) in facts)
    && (forall fact :: fact in facts ==>
          && Slot(fact.stream, fact.view.sequence) in sequences
          && sequences[Slot(fact.stream, fact.view.sequence)] == Identity(fact.view.id, fact.view.payload))
    && (forall slot :: slot in sequences ==>
          Fact(slot.stream, View(sequences[slot].id, slot.sequence, sequences[slot].payload)) in facts)
  }

  /** Each observer's log holds exactly the sequences 1 to its cursor, drawn from the accepted facts. */
  ghost predicate LogSound(facts: set<Fact>, cursor: map<Recipient, nat>, delivered: map<Recipient, seq<View>>,
                           name: string, stream: Stream)
  {
    && Gapless(LogIn(delivered, name, stream))
    && DrawnFrom(LogIn(delivered, name, stream), stream, facts)
    && CursorIn(cursor, name, stream) == |LogIn(delivered, name, stream)|
  }

  ghost predicate LogsSound(facts: set<Fact>, cursor: map<Recipient, nat>, delivered: map<Recipient, seq<View>>) {
    forall name, stream :: LogSound(facts, cursor, delivered, name, stream)
  }

  /** An observer has seen exactly the known events that its logs have reached. */
  ghost predicate SeenSound(name: string, seen: set<EventKey>, events: map<EventKey, Placement>,
                            delivered: map<Recipient, seq<View>>)
  {
    && (forall key :: key in seen ==> key in events && events[key].sequence <= |LogIn(delivered, name, key.stream)|)
    && (forall key :: key in events && 1 <= events[key].sequence <= |LogIn(delivered, name, key.stream)| ==> key in seen)
  }

  /** The tables make ids and sequences of accepted facts a bijection within each stream. */
  lemma FactsAreBijective(facts: set<Fact>, events: map<EventKey, Placement>, sequences: map<Slot, Identity>)
    requires Tabulates(facts, events, sequences)
    ensures Bijective(facts)
  {
    forall a, b | a in facts && b in facts && a.stream == b.stream
      ensures (a.view.id == b.view.id <==> a.view.sequence == b.view.sequence)
      ensures a.view.id == b.view.id ==> a.view == b.view
    {
      assert EventKey(a.stream, a.view.id) in events && EventKey(b.stream, b.view.id) in events;
      assert Slot(a.stream, a.view.sequence) in sequences && Slot(b.stream, b.view.sequence) in sequences;
    }
  }

  lemma TabulatesWith(facts: set<Fact>, events: map<EventKey, Placement>, sequences: map<Slot, Identity>,
                      stream: Stream, view: View)
    requires Tabulates(facts, events, sequences) && Admits(facts, stream, view)
    ensures Tabulates(facts + {Fact(stream, view)},
                      events[EventKey(stream, view.id) := Placement(view.sequence, view.payload)],
                      sequences[Slot(stream, view.sequence) := Identity(view.id, view.payload)])
  {
  }

  lemma LogsSoundWithMore(facts: set<Fact>, more: set<Fact>, cursor: map<Recipient, nat>,
                          delivered: map<Recipient, seq<View>>)
    requires LogsSound(facts, cursor, delivered) && facts <= more
    ensures LogsSound(more, cursor, delivered)
  {
    forall name, stream
      ensures LogSound(more, cursor, delivered, name, stream)
    {
      assert LogSound(facts, cursor, delivered, name, stream);
    }
  }

  /** Tabling a compatible event changes nothing any observer has seen: if a log reaches it, it was known. */
  lemma SeenSoundWith(name: string, seen: set<EventKey>, facts: set<Fact>, cursor: map<Recipient, nat>,
                      events: map<EventKey, Placement>, sequences: map<Slot, Identity>,
                      delivered: map<Recipient, seq<View>>, stream: Stream, view: View)
    requires Tabulates(facts, events, sequences) && LogsSound(facts, cursor, delivered)
    requires SeenSound(name, seen, events, delivered)
    requires Admits(facts, stream, view) && 1 <= view.sequence
    ensures SeenSound(name, seen, events[EventKey(stream, view.id) := Placement(view.sequence, view.payload)], delivered)
  {
    var log := LogIn(delivered, name, stream);
    if view.sequence <= |log| {
      assert LogSound(facts, cursor, delivered, name, stream);
      assert Fact(stream, log[view.sequence - 1]) in facts;
      assert Compatible(log[view.sequence - 1], view);
    }
  }

  /** Of a recorded batch, an observer has seen exactly the events up to its cursor. */
  lemma SeenUpToCursor(name: string, seen: set<EventKey>, facts: set<Fact>, events: map<EventKey, Placement>,
                       sequences: map<Slot, Identity>, delivered: map<Recipient, seq<View>>, batch: Batch)
    requires Tabulates(facts, events, sequences) && SeenSound(name, seen, events, delivered)
    requires batch.Valid() && batch.Facts() <= facts
    ensures forall view :: view in batch.events ==>
              (EventKey(batch.stream, view.id) in seen <==> view.sequence <= |LogIn(delivered, name, batch.stream)|)
  {
    forall view | view in batch.events
      ensures EventKey(batch.stream, view.id) in events
      ensures events[EventKey(batch.stream, view.id)].sequence == view.sequence >= 1
    {
      assert Fact(batch.stream, view) in batch.Facts();
    }
  }

  /** The test for an unseen event at or below the cursor can never be the one that fires. */
  lemma SequenceConflictNeverFires(name: string, seen: set<EventKey>, facts: set<Fact>,
                                   events: map<EventKey, Placement>, sequences: map<Slot, Identity>,
                                   cursor: map<Recipient, nat>, delivered: map<Recipient, seq<View>>, batch: Batch)
    requires Tabulates(facts, events, sequences) && SeenSound(name, seen, events, delivered)
    requires LogsSound(facts, cursor, delivered)
    requires batch.Valid() && batch.Facts() <= facts
    ensures forall view :: view in Unseen(batch.stream, batch.events, seen) ==>
              CursorIn(cursor, name, batch.stream) < view.sequence
  {
    assert LogSound(facts, cursor, delivered, name, batch.stream);
    SeenUpToCursor(name, seen, facts, events, sequences, delivered, batch);
    UnseenIsSuffix(batch.stream, batch.events, seen, CursorIn(cursor, name, batch.stream));
  }

  /** What the unseen events of a recorded batch say about how it must be handled, and what delivering them gives. */
  lemma UnseenDecides(name: string, seen: set<EventKey>, facts: set<Fact>,
                      events: map<EventKey, Placement>, sequences: map<Slot, Identity>,
                      cursor: map<Recipient, nat>, delivered: map<Recipient, seq<View>>, batch: Batch)
    requires Tabulates(facts, events, sequences) && SeenSound(name, seen, events, delivered)
    requires LogsSound(facts, cursor, delivered)
    requires batch.Valid() && batch.Facts() <= facts
    ensures var log := LogIn(delivered, name, batch.stream);
            var unseen := Unseen(batch.stream, batch.events, seen);
            && CursorIn(cursor, name, batch.stream) == |log|
            && (unseen == [] <==> batch.Last() <= |log|)
            && (unseen != [] ==> (unseen[0].sequence != |log| + 1 <==> |log| + 1 < batch.First()))
            && (unseen != [] && unseen[0].sequence == |log| + 1 ==>
                  && log + unseen == Deliver(log, batch.events, false)
                  && Gapless(log + unseen) && DrawnFrom(log + unseen, batch.stream, facts))
  {
    hide Tabulates, SeenSound, Gapless, DrawnFrom, DistinctIds;
    var log := LogIn(delivered, name, batch.stream);
    assert LogSound(facts, cursor, delivered, name, batch.stream);
    SeenUpToCursor(name, seen, facts, events, sequences, delivered, batch);
    UnseenIsSuffix(batch.stream, batch.events, seen, |log|);
    DeliverKeepsLog(log, batch, false, facts);
    assert facts + batch.Facts() == facts;
  }

  /** Marking delivered events as seen keeps the seen set equal to what the longer log reaches. */
  lemma SeenAfterDelivery(name: string, seen: set<EventKey>, facts: set<Fact>, events: map<EventKey, Placement>,
                          sequences: map<Slot, Identity>, delivered: map<Recipient, seq<View>>,
                          stream: Stream, unseen: seq<View>)
    requires Tabulates(facts, events, sequences) && SeenSound(name, seen, events, delivered)
    requires Gapless(LogIn(delivered, name, stream) + unseen)
    requires DrawnFrom(LogIn(delivered, name, stream) + unseen, stream, facts)
    ensures SeenSound(name, seen + Keys(stream, unseen), events,
                      delivered[Recipient(name, stream) := LogIn(delivered, name, stream) + unseen])
  {
    var log := LogIn(delivered, name, stream);
    var all := log + unseen;
    var after := delivered[Recipient(name, stream) := all];
    FactsAreBijective(facts, events, sequences);
    hide Tabulates, Gapless, DrawnFrom, Bijective, Keys;
    forall key | key in Keys(stream, unseen)
      ensures key.stream == stream && key in events && events[key].sequence <= |all|
    {
      DeliveredIsKnown(facts, events, sequences, stream, log, unseen, key);
    }
    forall key | key in events && key.stream == stream && |log| < events[key].sequence <= |all|
      ensures key in Keys(stream, unseen)
    {
      ReachedIsDelivered(facts, events, sequences, stream, log, unseen, key);
    }
  }

  lemma SeenElsewhere(name: string, seen: set<EventKey>, events: map<EventKey, Placement>,
                      delivered: map<Recipient, seq<View>>, recipient: Recipient, log: seq<View>)
    requires SeenSound(name, seen, events, delivered) && recipient.name != name
    ensures SeenSound(name, seen, events, delivered[recipient := log])
  {
  }

  lemma DeliveredIsKnown(facts: set<Fact>, events: map<EventKey, Placement>, sequences: map<Slot, Identity>,
                         stream: Stream, log: seq<View>, unseen: seq<View>, key: EventKey)
    requires Tabulates(facts, events, sequences) && Gapless(log + unseen) && DrawnFrom(log + unseen, stream, facts)
    requires key in Keys(stream, unseen)
    ensures key.stream == stream && key in events && events[key].sequence <= |log + unseen|
  {
    var all := log + unseen;
    var view :| view in unseen && key == EventKey(stream, view.id);
    var k :| 0 <= k < |unseen| && unseen[k] == view;
    assert all[|log| + k] == view;
    assert Fact(stream, view) in facts;
  }

  lemma ReachedIsDelivered(facts: set<Fact>, events: map<EventKey, Placement>, sequences: map<Slot, Identity>,
                           stream: Stream, log: seq<View>, unseen: seq<View>, key: EventKey)
    requires Tabulates(facts, events, sequences) && Bijective(facts)
    requires Gapless(log + unseen) && DrawnFrom(log + unseen, stream, facts)
    requires key in events && key.stream == stream && |log| < events[key].sequence <= |log + unseen|
    ensures key in Keys(stream, unseen)
  {
    var all := log + unseen;
    var sequence := events[key].sequence;
    var view := all[sequence - 1];
    assert view == unseen[sequence - 1 - |log|];
    assert Fact(stream, view) in facts;
    assert Fact(stream, View(key.id, sequence, events[key].payload)) in facts;
    assert view.sequence == sequence;
  }

  /** Extending one log by facts that continue it, and its cursor with it, keeps every log sound. */
  lemma LogsSoundAfterDelivery(facts: set<Fact>, cursor: map<Recipient, nat>, delivered: map<Recipient, seq<View>>,
                               name: string, stream: Stream, unseen: seq<View>)
    requires LogsSound(facts, cursor, delivered) && unseen != []
    requires Gapless(LogIn(delivered, name, stream) + unseen)
    requires DrawnFrom(LogIn(delivered, name, stream) + unseen, stream, facts)
    ensures LogsSound(facts, cursor[Recipient(name, stream) := unseen[|unseen| - 1].sequence],
                      delivered[Recipient(name, stream) := LogIn(delivered, name, stream) + unseen])
  {
    var all := LogIn(delivered, name, stream) + unseen;
    assert all[|all| - 1] == unseen[|unseen| - 1];
    forall other: string, at: Stream {:trigger Recipient(other, at)}
      ensures LogSound(facts, cursor[Recipient(name, stream) := unseen[|unseen| - 1].sequence],
                       delivered[Recipient(name, stream) := all], other, at)
    {
      assert LogSound(facts, cursor, delivered, other, at);
    }
  }

  /** Two events of one batch are compatible. */
  lemma CompatibleWithin(batch: Batch, i: nat)
    requires batch.Valid() && i < |batch.events|
    ensures forall view :: view in batch.events ==> Compatible(batch.events[i], view)
  {
    forall view | view in batch.events
      ensures Compatible(batch.events[i], view)
    {
      var j :| 0 <= j < |batch.events| && batch.events[j] == view;
      if j < i {
        assert batch.events[j].id != batch.events[i].id;
      } else if i < j {
        assert batch.events[i].id != batch.events[j].id;
      }
    }
  }

  function Keys(stream: Stream, events: seq<View>): set<EventKey> {
    set view | view in events :: EventKey(stream, view.id)
  }

  class Hub {
    const registry: seq<Registration>
    var seen: map<string, set<EventKey>>
    var knownEvents: map<EventKey, Placement>
    var knownSequences: map<Slot, Identity>
    var cursor: map<Recipient, nat>
    ghost var facts: set<Fact>
    ghost var delivered: map<Recipient, seq<View>>

    ghost predicate Registered()
      reads this
    {
      && (forall i, j :: 0 <= i < j < |registry| ==> registry[i].name != registry[j].name)
      && (forall i :: 0 <= i < |registry| ==>
            registry[i].name in seen && SeenSound(registry[i].name, seen[registry[i].name], knownEvents, delivered))
    }

    ghost predicate Valid()
      reads this
    {
      Tabulates(facts, knownEvents, knownSequences) && LogsSound(facts, cursor, delivered) && Registered()
    }

    ghost function Log(name: string, stream: Stream): seq<View>
      reads this
    {
      LogIn(delivered, name, stream)
    }

    ghost function SeenBy(name: string): set<EventKey>
      reads this
    {
      if name in seen then seen[name] else {}
    }

    predicate Accepts(name: string, kind: StreamKind) {
      AcceptsAmong(|registry|, name, kind)
    }

    predicate AcceptsAmong(count: nat, name: string, kind: StreamKind)
      requires count <= |registry|
    {
      exists i :: 0 <= i < count && registry[i].name == name && kind in registry[i].accepted
    }

    constructor (registry: seq<Registration>)
      requires forall i, j :: 0 <= i < j < |registry| ==> registry[i].name != registry[j].name
      ensures Valid() && this.registry == registry && facts == {}
      ensures forall name, stream :: Log(name, stream) == []
    {
      this.registry := registry;
      seen := map i | 0 <= i < |registry| :: registry[i].name := {};
      knownEvents, knownSequences, cursor := map[], map[], map[];
      facts, delivered := {}, map[];
    }

    method FindConflict(batch: Batch) returns (conflict: bool)
      requires Valid()
      ensures conflict <==> !Agrees(facts, batch)
    {
      var eventConflict := exists view | view in batch.events ::
        && EventKey(batch.stream, view.id) in knownEvents
        && knownEvents[EventKey(batch.stream, view.id)] != Placement(view.sequence, view.payload);
      var sequenceConflict := exists view | view in batch.events ::
        && Slot(batch.stream, view.sequence) in knownSequences
        && knownSequences[Slot(batch.stream, view.sequence)] != Identity(view.id, view.payload);
      conflict := eventConflict || sequenceConflict;
    }

    method RecordOne(stream: Stream, view: View)
      requires Valid() && view.sequence >= 1 && Admits(facts, stream, view)
      modifies this`knownEvents, this`knownSequences, this`facts
      ensures Valid() && facts == old(facts) + {Fact(stream, view)}
    {
      hide Tabulates, LogsSound, SeenSound, Admits;
      TabulatesWith(facts, knownEvents, knownSequences, stream, view);
      LogsSoundWithMore(facts, facts + {Fact(stream, view)}, cursor, delivered);
      forall i | 0 <= i < |registry|
        ensures SeenSound(registry[i].name, seen[registry[i].name],
                          knownEvents[EventKey(stream, view.id) := Placement(view.sequence, view.payload)], delivered)
      {
        SeenSoundWith(registry[i].name, seen[registry[i].name], facts, cursor, knownEvents, knownSequences, delivered,
                      stream, view);
      }
      knownEvents := knownEvents[EventKey(stream, view.id) := Placement(view.sequence, view.payload)];
      knownSequences := knownSequences[Slot(stream, view.sequence) := Identity(view.id, view.payload)];
      facts := facts + {Fact(stream, view)};
    }

    /** Both tables take in the batch; nothing any observer has seen or been given changes. */
    method Record(batch: Batch)
      requires Valid() && batch.Valid() && Agrees(facts, batch)
      modifies this`knownEvents, this`knownSequences, this`facts
      ensures Valid() && facts == old(facts) + batch.Facts()
    {
      hide Valid, Compatible;
      var i := 0;
      while i < |batch.events|
        invariant 0 <= i <= |batch.events|
        invariant facts == old(facts) + Batch(batch.stream, batch.events[..i]).Facts()
        invariant Agrees(facts, batch)
        invariant Valid()
      {
        var view := batch.events[i];
        assert batch.events[..i + 1] == batch.events[..i] + [view];
        assert view in batch.events;
        CompatibleWithin(batch, i);
        RecordOne(batch.stream, view);
        i := i + 1;
      }
      assert batch.events[..i] == batch.events;
    }

    /** A callback that returned: its events become seen, the cursor moves to the last of them. */
    method Acknowledge(i: nat, stream: Stream, unseen: seq<View>)
      requires Valid() && i < |registry| && unseen != []
      requires Gapless(Log(registry[i].name, stream) + unseen)
      requires DrawnFrom(Log(registry[i].name, stream) + unseen, stream, facts)
      modifies this`seen, this`cursor, this`delivered
      ensures Valid()
      ensures forall name, other :: Log(name, other) ==
                if name == registry[i].name && other == stream
                then old(Log(name, other)) + unseen
                else old(Log(name, other))
      ensures forall name :: name != registry[i].name ==> SeenBy(name) == old(SeenBy(name))
    {
      hide Tabulates, LogsSound, SeenSound, Gapless, DrawnFrom, Keys;
      var name := registry[i].name;
      var recipient := Recipient(name, stream);
      var log := Log(name, stream);
      LogsSoundAfterDelivery(facts, cursor, delivered, name, stream, unseen);
      SeenAfterDelivery(name, seen[name], facts, knownEvents, knownSequences, delivered, stream, unseen);
      forall j | 0 <= j < |registry| && j != i
        ensures SeenSound(registry[j].name, seen[registry[j].name], knownEvents, delivered[recipient := log + unseen])
      {
        assert registry[j].name != name;
        SeenElsewhere(registry[j].name, seen[registry[j].name], knownEvents, delivered, recipient, log + unseen);
      }
      seen := seen[name := seen[name] + Keys(stream, unseen)];
      cursor := cursor[recipient := unseen[|unseen| - 1].sequence];
      delivered := delivered[recipient := log + unseen];
    }

    /** One observer's turn: its unseen events, if any, go to its callback when they start right after its cursor. */
    method Offer(i: nat, batch: Batch, fails: bool) returns (handling: Handling)
      requires Valid() && i < |registry| && batch.Valid() && batch.Facts() <= facts
      modifies this`seen, this`cursor, this`delivered
      ensures Valid()
      ensures handling == Handle(old(|Log(registry[i].name, batch.stream)|), batch, fails)
      ensures forall name, stream :: Log(name, stream) ==
                if name == registry[i].name && stream == batch.stream
                then Deliver(old(Log(name, stream)), batch.events, fails)
                else old(Log(name, stream))
      ensures !fails && batch.First() <= |old(Log(registry[i].name, batch.stream))| + 1 <= batch.Last() ==>
                Log(registry[i].name, batch.stream) ==
                old(Log(registry[i].name, batch.stream))
                + batch.events[|old(Log(registry[i].name, batch.stream))| + 1 - batch.First()..]
      ensures LeftOut(|old(Log(registry[i].name, batch.stream))|, batch, fails) ==>
                seen == old(seen) && cursor == old(cursor) && delivered == old(delivered)
      ensures forall name :: name != registry[i].name ==> SeenBy(name) == old(SeenBy(name))
    {
      hide Tabulates, LogsSound, SeenSound, Gapless, DrawnFrom, DistinctIds, Consecutive;
      var name := registry[i].name;
      UnseenDecides(name, seen[name], facts, knownEvents, knownSequences, cursor, delivered, batch);
      SequenceConflictNeverFires(name, seen[name], facts, knownEvents, knownSequences, cursor, delivered, batch);
      var position := CursorIn(cursor, name, batch.stream);
      var unseen := Unseen(batch.stream, batch.events, seen[name]);
      if unseen == [] {
        return Skipped;
      }
      var sequenceConflict := exists view | view in unseen :: view.sequence <= position;
      var gap := unseen[0].sequence != position + 1;
      if sequenceConflict || gap {
        return Refused(SequenceGap);
      }
      if fails {
        return Refused(CallbackFailed);
      }
      Acknowledge(i, batch.stream, unseen);
      handling := Delivered;
    }

    /** A batch that contradicts an accepted fact fails at every observer that accepts its stream. */
    method RefuseAll(batch: Batch) returns (report: Report)
      requires Valid()
      ensures forall name :: name in report.attempted <==> Accepts(name, batch.stream.kind)
      ensures forall name, code :: Failure(name, code) in report.failures <==>
                Accepts(name, batch.stream.kind) && code == EventIntegrity
    {
      var attempted: seq<string>, failures: seq<Failure> := [], [];
      for i := 0 to |registry|
        invariant forall name :: name in attempted <==> AcceptsAmong(i, name, batch.stream.kind)
        invariant forall name, code :: Failure(name, code) in failures <==>
                    AcceptsAmong(i, name, batch.stream.kind) && code == EventIntegrity
      {
        AcceptsOneMore(i, batch.stream.kind);
        if batch.stream.kind in registry[i].accepted {
          attempted := attempted + [registry[i].name];
          failures := failures + [Failure(registry[i].name, EventIntegrity)];
        }
      }
      report := Report(attempted, failures);
    }

    /** A recorded batch is offered to each accepting observer, one after the other. */
    method OfferAll(batch: Batch, failing: set<string>) returns (report: Report)
      requires Valid() && batch.Valid() && batch.Facts() <= facts
      modifies this`seen, this`cursor, this`delivered
      ensures Valid()
      ensures forall name, stream :: Log(name, stream) ==
                if stream == batch.stream && Accepts(name, stream.kind)
                then Deliver(old(Log(name, stream)), batch.events, name in failing)
                else old(Log(name, stream))
      ensures forall name :: name in report.attempted <==>
                Accepts(name, batch.stream.kind)
                && Handle(|old(Log(name, batch.stream))|, batch, name in failing) != Skipped
      ensures forall name, code :: Failure(name, code) in report.failures <==>
                Accepts(name, batch.stream.kind)
                && Handle(|old(Log(name, batch.stream))|, batch, name in failing) == Refused(code)
      ensures forall name :: LeftOut(|old(Log(name, batch.stream))|, batch, name in failing) ==>
                SeenBy(name) == old(SeenBy(name))
    {
      hide Valid, Deliver, Handle, LeftOut, DistinctIds, Consecutive, AcceptsAmong, SeenBy;
      var attempted: seq<string>, failures: seq<Failure> := [], [];
      NobodyAccepts(batch.stream.kind);
      for i := 0 to |registry|
        invariant Valid()
        invariant forall name, stream :: Log(name, stream) ==
                    if stream == batch.stream && AcceptsAmong(i, name, stream.kind)
                    then Deliver(old(Log(name, stream)), batch.events, name in failing)
                    else old(Log(name, stream))
        invariant forall name :: name in attempted <==>
                    AcceptsAmong(i, name, batch.stream.kind)
                    && Handle(|old(Log(name, batch.stream))|, batch, name in failing) != Skipped
        invariant forall name, code :: Failure(name, code) in failures <==>
                    AcceptsAmong(i, name, batch.stream.kind)
                    && Handle(|old(Log(name, batch.stream))|, batch, name in failing) == Refused(code)
        invariant forall name :: LeftOut(|old(Log(name, batch.stream))|, batch, name in failing) ==>
                    SeenBy(name) == old(SeenBy(name))
      {
        AcceptsOneMore(i, batch.stream.kind);
        var name := registry[i].name;
        if batch.stream.kind in registry[i].accepted {
          var handling := Offer(i, batch, name in failing);
          if handling != Skipped {
            attempted := attempted + [name];
          }
          if handling.Refused? {
            failures := failures + [Failure(name, handling.code)];
          }
        }
      }
      report := Report(attempted, failures);
    }

    /**
      What every reachable hub satisfies: each log is exactly the sequences 1 to its cursor, any two logs of a stream
      are comparable, and ids and sequences of accepted facts are in bijection.
      */
    lemma ObservedInOrderExactlyOnce(name: string, other: string, stream: Stream)
      requires Valid()
      ensures Gapless(Log(name, stream)) && |Log(name, stream)| == CursorIn(cursor, name, stream)
      ensures Log(name, stream) <= Log(other, stream) || Log(other, stream) <= Log(name, stream)
      ensures Bijective(facts)
    {
      hide Tabulates, Bijective;
      FactsAreBijective(facts, knownEvents, knownSequences);
      assert LogSound(facts, cursor, delivered, name, stream) && LogSound(facts, cursor, delivered, other, stream);
      LogsArePrefixComparable(Log(name, stream), Log(other, stream), stream, facts);
    }

    lemma LogIsFacts(name: string, stream: Stream)
      requires Valid()
      ensures DrawnFrom(Log(name, stream), stream, facts)
    {
      assert LogSound(facts, cursor, delivered, name, stream);
    }

    lemma NobodyAccepts(kind: StreamKind)
      ensures forall name :: !AcceptsAmong(0, name, kind)
    {
    }

    /**
      A publish: a batch that contradicts an accepted fact reaches nobody and changes nothing; any other is recorded,
      and every accepting observer is offered what it lacks. `failing` are the observers whose callback raises. Whoever
      fails, every other observer that has no gap gains exactly the events above its cursor; an observer that fails or
      has a gap keeps its log, its cursor and what it has seen, and so can be given the same events later.
      */
    method Publish(batch: Batch, failing: set<string>) returns (report: Report)
      requires Valid() && batch.Valid()
      modifies this
      ensures Valid()
      ensures !Agrees(old(facts), batch) ==>
                && unchanged(this)
                && (forall name :: name in report.attempted <==> Accepts(name, batch.stream.kind))
                && (forall name, code :: Failure(name, code) in report.failures <==>
                      Accepts(name, batch.stream.kind) && code == EventIntegrity)
      ensures Agrees(old(facts), batch) ==>
                && facts == old(facts) + batch.Facts()
                && (forall name :: name in report.attempted <==>
                      Accepts(name, batch.stream.kind) && |old(Log(name, batch.stream))| < batch.Last())
                && (forall name, code :: Failure(name, code) in report.failures <==>
                      && Accepts(name, batch.stream.kind) && |old(Log(name, batch.stream))| < batch.Last()
                      && (if |old(Log(name, batch.stream))| + 1 < batch.First() then code == SequenceGap
                          else name in failing && code == CallbackFailed))
      ensures Agrees(old(facts), batch) ==>
                forall name :: Accepts(name, batch.stream.kind) && name !in failing
                               && batch.First() <= |old(Log(name, batch.stream))| + 1 <= batch.Last() ==>
                  Log(name, batch.stream) ==
                  old(Log(name, batch.stream)) + batch.events[|old(Log(name, batch.stream))| + 1 - batch.First()..]
      ensures Agrees(old(facts), batch) ==>
                forall name, stream :: stream != batch.stream || !Accepts(name, stream.kind) || name in failing
                                       || |old(Log(name, stream))| + 1 < batch.First()
                                       || batch.Last() <= |old(Log(name, stream))| ==>
                  Log(name, stream) == old(Log(name, stream))
                  && CursorIn(cursor, name, stream) == old(CursorIn(cursor, name, stream))
      ensures Agrees(old(facts), batch) ==>
                forall name :: name in failing || |old(Log(name, batch.stream))| + 1 < batch.First()
                               || batch.Last() <= |old(Log(name, batch.stream))| ==>
                  SeenBy(name) == old(SeenBy(name))
    {
      hide Valid, Agrees, DistinctIds, AcceptsAmong;
      var conflict := FindConflict(batch);
      if conflict {
        report := RefuseAll(batch);
      } else {
        CursorsAreLengths();
        Record(batch);
        report := OfferAll(batch, failing);
        CursorsAreLengths();
      }
    }

    lemma CursorsAreLengths()
      requires Valid()
      ensures forall name, stream :: CursorIn(cursor, name, stream) == |Log(name, stream)|
    {
      hide Tabulates, SeenSound, Gapless, DrawnFrom;
      forall name, stream
        ensures CursorIn(cursor, name, stream) == |Log(name, stream)|
      {
        assert LogSound(facts, cursor, delivered, name, stream);
      }
    }

    lemma AcceptsOneMore(i: nat, kind: StreamKind)
      requires Valid() && i < |registry|
      ensures !AcceptsAmong(i, registry[i].name, kind)
      ensures forall name :: AcceptsAmong(i + 1, name, kind) <==>
                AcceptsAmong(i, name, kind) || (name == registry[i].name && kind in registry[i].accepted)
    {
      hide Tabulates, LogsSound, SeenSound;
    }
  }
}
