/**
  The mastery record (xsync.py): observations of a learner's answers, in the order of their times, decide when each
  question falls due again and when it counts as stable. Times are in days.
  */
module Mastery {
  import opened Wrappers

  datatype Outcome = Disputed | Stale | Scored(correctness: Option<real>, unaided: bool)

  datatype Observation = Observation(question: string, time: real, outcome: Outcome)

  datatype Stage = DisputedStage | StaleStage | LearningStage | ReviewingStage | StableStage

  datatype Record = Record(stage: Stage, delayedSuccesses: nat, interval: real, due: Option<real>, updated: real)

  const INTERVALS: seq<real> := [1.0, 3.0, 7.0, 14.0, 30.0]

  function IntervalAt(successes: nat): real {
    INTERVALS[if successes < |INTERVALS| then successes else |INTERVALS| - 1]
  }

  predicate IsCorrect(outcome: Outcome) {
    outcome.Scored? && outcome.correctness.Some? && outcome.correctness.value >= 0.8
  }

  predicate IsIncorrect(outcome: Outcome) {
    outcome.Scored? && !IsCorrect(outcome)
  }

  /** The record after one more observation of the question. */
  function Next(previous: Option<Record>, observation: Observation): Record {
    var successes := if previous.Some? then previous.value.delayedSuccesses else 0;
    var delayed := previous.Some? && previous.value.due.Some? && observation.time >= previous.value.due.value;
    var time := observation.time;
    match observation.outcome
    case Disputed => Record(DisputedStage, successes, 0.0, None, time)
    case Stale => Record(StaleStage, successes, 0.0, None, time)
    case Scored(_, unaided) =>
      if IsCorrect(observation.outcome) then
        var now := if unaided && delayed then successes + 1 else successes;
        var interval := IntervalAt(now);
        Record(if now >= 3 then StableStage else ReviewingStage, now, interval, Some(time + interval), time)
      else
        Record(LearningStage, successes, 1.0, Some(time + 1.0), time)
  }

  /** The observations of one question, in order. */
  function Of(observations: seq<Observation>, question: string): seq<Observation> {
    if observations == [] then []
    else
      var before := Of(observations[..|observations| - 1], question);
      var last := observations[|observations| - 1];
      if last.question == question then before + [last] else before
  }

  function RecordOf(observations: seq<Observation>): Option<Record> {
    if observations == [] then None
    else Some(Next(RecordOf(observations[..|observations| - 1]), observations[|observations| - 1]))
  }

  /** One walk over all observations keeps the current record of every question. */
  method Rebuild(observations: seq<Observation>) returns (current: map<string, Record>)
    ensures forall question ::
              RecordOf(Of(observations, question)) == (if question in current then Some(current[question]) else None)
  {
    current := map[];
    for i := 0 to |observations|
      invariant forall question ::
                  RecordOf(Of(observations[..i], question))
                  == (if question in current then Some(current[question]) else None)
    {
      var observation := observations[i];
      var previous := if observation.question in current then Some(current[observation.question]) else None;
      RecordStep(observations, i);
      current := current[observation.question := Next(previous, observation)];
    }
    assert observations[..|observations|] == observations;
  }

  lemma RecordStep(observations: seq<Observation>, i: nat)
    requires i < |observations|
    ensures forall question ::
              RecordOf(Of(observations[..i + 1], question)) ==
              if question == observations[i].question
              then Some(Next(RecordOf(Of(observations[..i], question)), observations[i]))
              else RecordOf(Of(observations[..i], question))
  {
    assert observations[..i + 1][..i] == observations[..i];
    forall question
      ensures Of(observations[..i + 1], question) ==
              if question == observations[i].question
              then Of(observations[..i], question) + [observations[i]]
              else Of(observations[..i], question)
    {
    }
    var before := Of(observations[..i], observations[i].question);
    assert (before + [observations[i]])[..|before|] == before;
  }

  // ---- the schedule ----

  /** Days until the question falls due again after so many delayed successes. */
  predicate IsInterval(successes: nat, days: real) {
    || (successes == 0 && days == 1.0) || (successes == 1 && days == 3.0) || (successes == 2 && days == 7.0)
    || (successes == 3 && days == 14.0) || (successes >= 4 && days == 30.0)
  }

  /**
    What one observation makes of the record: a correct answer counts if it was unaided and due, and moves the due date by
    the interval of the count; any other scored answer brings the question back in a day; disputed and stale questions
    never fall due.
    */
  lemma NextIs(previous: Option<Record>, observation: Observation)
    ensures var before := if previous.Some? then previous.value.delayedSuccesses else 0;
            var next := Next(previous, observation);
            && next.updated == observation.time
            && (observation.outcome == Disputed ==>
                  next.stage == DisputedStage && next.due == None && next.delayedSuccesses == before)
            && (observation.outcome == Stale ==>
                  next.stage == StaleStage && next.due == None && next.delayedSuccesses == before)
            && (forall correctness, unaided :: observation.outcome == Scored(correctness, unaided) ==>
                  if correctness.Some? && correctness.value >= 0.8 then
                    && (next.delayedSuccesses == if unaided && previous.Some? && previous.value.due.Some?
                                                    && previous.value.due.value <= observation.time
                                                 then before + 1 else before)
                    && IsInterval(next.delayedSuccesses, next.interval)
                    && next.due == Some(observation.time + next.interval)
                    && next.stage == (if next.delayedSuccesses >= 3 then StableStage else ReviewingStage)
                  else
                    && next.delayedSuccesses == before && next.interval == 1.0
                    && next.due == Some(observation.time + 1.0) && next.stage == LearningStage)
  {
    if observation.outcome.Scored? {
      var now := Next(previous, observation).delayedSuccesses;
      assert IsInterval(now, IntervalAt(now));
    }
  }

  // ---- retention ----

  predicate InOrder(observations: seq<Observation>) {
    forall i, j :: 0 <= i < j < |observations| ==> observations[i].time <= observations[j].time
  }

  /** The number of delayed successes never falls, and rises by one only with an unaided correct answer that was due. */
  lemma SuccessesNeverFall(previous: Record, observation: Observation)
    ensures var next := Next(Some(previous), observation);
            && previous.delayedSuccesses <= next.delayedSuccesses <= previous.delayedSuccesses + 1
            && (next.delayedSuccesses > previous.delayedSuccesses ==>
                  && IsCorrect(observation.outcome) && observation.outcome.unaided
                  && previous.due.Some? && observation.time >= previous.due.value)
            && (next.stage == StableStage ==> next.delayedSuccesses >= 3)
  {
  }

  /** Over any further observations the number of delayed successes does not fall. */
  lemma {:induction false} SuccessesGrow(observations: seq<Observation>, count: nat)
    requires 0 < count <= |observations|
    ensures RecordOf(observations[..count]).value.delayedSuccesses <= RecordOf(observations).value.delayedSuccesses
    decreases |observations|
  {
    if count < |observations| {
      var shorter := observations[..|observations| - 1];
      assert shorter[..count] == observations[..count];
      SuccessesGrow(shorter, count);
      SuccessesNeverFall(RecordOf(shorter).value, observations[|observations| - 1]);
    } else {
      assert observations[..count] == observations;
    }
  }

  /** The least time the given number of delayed successes takes when no answer after the first is incorrect. */
  function Span(successes: nat): real {
    if successes == 0 then 0.0 else Span(successes - 1) + IntervalAt(successes - 1)
  }

  lemma {:induction false} SpanGrows(fewer: nat, more: nat)
    requires fewer <= more
    ensures Span(fewer) <= Span(more)
  {
    if fewer < more {
      SpanGrows(fewer, more - 1);
    }
  }

  /** A success takes a day each time, whatever came in between. */
  lemma {:induction false} EachSuccessTakesADay(observations: seq<Observation>)
    requires observations != [] && InOrder(observations)
    ensures var record := RecordOf(observations).value;
            && record.updated == observations[|observations| - 1].time
            && record.updated - observations[0].time >= record.delayedSuccesses as real
            && (record.due.Some? ==> record.due.value >= record.updated + 1.0)
  {
    if |observations| > 1 {
      var shorter := observations[..|observations| - 1];
      EachSuccessTakesADay(shorter);
      assert shorter[|shorter| - 1] == observations[|observations| - 2];
      assert observations[|observations| - 2].time <= observations[|observations| - 1].time;
      assert RecordOf(observations) == Some(Next(RecordOf(shorter), observations[|observations| - 1]));
    } else {
      assert observations[..0] == [];
    }
  }

  /** The record has had the time its successes take, and falls due an interval later. */
  predicate HasTakenSpan(record: Record, start: real) {
    && record.updated - start >= Span(record.delayedSuccesses)
    && (record.due.Some? ==> record.due.value >= record.updated + IntervalAt(record.delayedSuccesses))
  }

  lemma NextTakesSpan(record: Record, observation: Observation, start: real)
    requires HasTakenSpan(record, start) && record.updated <= observation.time && !IsIncorrect(observation.outcome)
    ensures HasTakenSpan(Next(Some(record), observation), start)
  {
  }

  lemma FirstTakesSpan(observation: Observation)
    ensures HasTakenSpan(Next(None, observation), observation.time)
  {
  }

  /** Without an incorrect answer after the first, the intervals add up. */
  lemma {:induction false} SuccessesTakeTheirIntervals(observations: seq<Observation>)
    requires observations != [] && InOrder(observations)
    requires forall i :: 0 < i < |observations| ==> !IsIncorrect(observations[i].outcome)
    ensures var record := RecordOf(observations).value;
            record.updated == observations[|observations| - 1].time && HasTakenSpan(record, observations[0].time)
  {
    hide Span, IntervalAt;
    if |observations| > 1 {
      var shorter := observations[..|observations| - 1];
      SuccessesTakeTheirIntervals(shorter);
      assert shorter[|shorter| - 1] == observations[|observations| - 2];
      assert observations[|observations| - 2].time <= observations[|observations| - 1].time;
      NextTakesSpan(RecordOf(shorter).value, observations[|observations| - 1], observations[0].time);
    } else {
      assert observations[..0] == [];
      FirstTakesSpan(observations[0]);
    }
  }

  /**
    A question is stable no earlier than three days after it was first observed, and no earlier than eleven when no
    observation after the first was incorrect.
    */
  lemma StableTakesTime(observations: seq<Observation>)
    requires observations != [] && InOrder(observations) && RecordOf(observations).value.stage == StableStage
    ensures observations[|observations| - 1].time - observations[0].time >= 3.0
    ensures (forall i :: 0 < i < |observations| ==> !IsIncorrect(observations[i].outcome)) ==>
              observations[|observations| - 1].time - observations[0].time >= 11.0
  {
    var record := RecordOf(observations).value;
    EachSuccessTakesADay(observations);
    assert record.delayedSuccesses >= 3;
    if forall i :: 0 < i < |observations| ==> !IsIncorrect(observations[i].outcome) {
      SuccessesTakeTheirIntervals(observations);
      SpanGrows(3, record.delayedSuccesses);
      assert Span(3) == 11.0 by {
        assert Span(1) == 1.0 && Span(2) == 4.0;
      }
    }
  }

  function Right(time: real): Observation { Observation("q", time, Scored(Some(1.0), true)) }

  function Wrong(time: real): Observation { Observation("q", time, Scored(Some(0.0), true)) }

  /** Both bounds are reached: eleven days without a mistake, three when each success is followed by one. */
  lemma BoundsAreReached()
    ensures RecordOf([Right(0.0), Right(1.0), Right(4.0), Right(11.0)]).value.stage == StableStage
    ensures RecordOf([Wrong(0.0), Right(1.0), Wrong(1.0), Right(2.0), Wrong(2.0), Right(3.0)]).value.stage == StableStage
  {
    var a := [Right(0.0), Right(1.0), Right(4.0), Right(11.0)];
    assert a[..3] == [Right(0.0), Right(1.0), Right(4.0)];
    assert a[..3][..2] == [Right(0.0), Right(1.0)];
    assert a[..3][..2][..1] == [Right(0.0)];
    assert a[..3][..2][..1][..0] == [];
    var one := Next(None, Right(0.0));
    var two := Next(Some(one), Right(1.0));
    var three := Next(Some(two), Right(4.0));
    assert RecordOf(a[..3][..2][..1]) == Some(one);
    assert RecordOf(a[..3][..2]) == Some(two);
    assert RecordOf(a[..3]) == Some(three);
    FastestWithMistakes();
  }

  lemma FastestWithMistakes()
    ensures RecordOf([Wrong(0.0), Right(1.0), Wrong(1.0), Right(2.0), Wrong(2.0), Right(3.0)]).value.stage == StableStage
  {
    var b := [Wrong(0.0), Right(1.0), Wrong(1.0), Right(2.0), Wrong(2.0), Right(3.0)];
    var b1, b2, b3, b4, b5 := b[..1], b[..2], b[..3], b[..4], b[..5];
    assert b5[..4] == b4 && b4[..3] == b3 && b3[..2] == b2 && b2[..1] == b1 && b1[..0] == [];
    assert RecordOf(b1) == Some(Next(None, Wrong(0.0)));
    assert RecordOf(b2) == Some(Next(RecordOf(b1), Right(1.0)));
    assert RecordOf(b3) == Some(Next(RecordOf(b2), Wrong(1.0)));
    assert RecordOf(b4) == Some(Next(RecordOf(b3), Right(2.0)));
    assert RecordOf(b5) == Some(Next(RecordOf(b4), Wrong(2.0)));
  }
}
