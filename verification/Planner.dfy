/**
  Choosing the questions of a session (xsync.py): dropping questions whose evidence is stale together with all that
  depend on them, setting aside disputed ones, ordering the rest, and selecting a mixed session of a given size.
  */
module Planner {
  import opened Wrappers
  import opened PrerequisiteGraph

  datatype Domain = Business | Technical

  datatype Question = Question(id: string, prerequisites: seq<string>, domain: Domain, depth: nat)

  function Ids(questions: seq<Question>): set<string> {
    set question | question in questions :: question.id
  }

  predicate DistinctIds(questions: seq<Question>) {
    forall i, j :: 0 <= i < j < |questions| ==> questions[i].id != questions[j].id
  }

  predicate RequiresWithin(question: Question, ids: set<string>) {
    forall i :: 0 <= i < |question.prerequisites| ==> question.prerequisites[i] in ids
  }

  predicate RequiresSome(question: Question, ids: set<string>) {
    exists i :: 0 <= i < |question.prerequisites| && question.prerequisites[i] in ids
  }

  /** The questions with the given ids, in their order. */
  function Keep(questions: seq<Question>, ids: set<string>): (kept: seq<Question>)
    ensures forall question :: question in kept <==> question in questions && question.id in ids
  {
    if questions == [] then []
    else if questions[0].id in ids then [questions[0]] + Keep(questions[1..], ids)
    else Keep(questions[1..], ids)
  }

  /** A set of ids such that each of its questions requires only members of the set. */
  ghost predicate PrerequisiteClosed(questions: seq<Question>, ids: set<string>) {
    ids <= Ids(questions) && forall question :: question in questions && question.id in ids ==> RequiresWithin(question, ids)
  }

  lemma SameQuestion(questions: seq<Question>, a: Question, b: Question)
    requires DistinctIds(questions) && a in questions && b in questions && a.id == b.id
    ensures a == b
  {
    var i :| 0 <= i < |questions| && questions[i] == a;
    var j :| 0 <= j < |questions| && questions[j] == b;
  }

  // ---- stale evidence ----

  lemma {:induction false} KeepAll(questions: seq<Question>, ids: set<string>)
    requires Ids(questions) <= ids
    ensures Keep(questions, ids) == questions
  {
    if questions != [] {
      assert questions[0] in questions && forall question :: question in questions[1..] ==> question in questions;
      KeepAll(questions[1..], ids);
    }
  }

  /** Taking one question out of what is kept is keeping without its id. */
  function Removed(questions: seq<Question>, question: Question): seq<Question> {
    if questions == [] then []
    else if questions[0] == question then questions[1..]
    else [questions[0]] + Removed(questions[1..], question)
  }

  lemma {:induction false} KeepRemoved(questions: seq<Question>, ids: set<string>, question: Question)
    requires DistinctIds(questions) && question in questions
    ensures Removed(Keep(questions, ids), question) == Keep(questions, ids - {question.id})
  {
    var rest := questions[1..];
    assert forall i :: 0 <= i < |rest| ==> rest[i] == questions[i + 1];
    if questions[0] == question {
      forall other | other in rest
        ensures other.id != question.id
      {
        var j :| 0 <= j < |rest| && rest[j] == other;
        assert questions[0].id != questions[j + 1].id;
      }
      KeepWithout(rest, ids, question.id);
      if question.id !in ids {
        RemovedAbsent(Keep(rest, ids), question);
      }
    } else {
      SameQuestionHead(questions, question);
      KeepRemoved(rest, ids, question);
    }
  }

  lemma SameQuestionHead(questions: seq<Question>, question: Question)
    requires DistinctIds(questions) && question in questions && questions[0] != question
    ensures question in questions[1..] && DistinctIds(questions[1..]) && questions[0].id != question.id
  {
    var j :| 0 <= j < |questions| && questions[j] == question;
    assert questions[1..][j - 1] == question;
    assert questions[0].id != questions[j].id;
  }

  lemma {:induction false} KeepWithout(questions: seq<Question>, ids: set<string>, id: string)
    requires forall question :: question in questions ==> question.id != id
    ensures Keep(questions, ids - {id}) == Keep(questions, ids)
  {
    if questions != [] {
      assert questions[0] in questions && forall question :: question in questions[1..] ==> question in questions;
      KeepWithout(questions[1..], ids, id);
    }
  }

  lemma {:induction false} RemovedAbsent(questions: seq<Question>, question: Question)
    requires question !in questions
    ensures Removed(questions, question) == questions
  {
    if questions != [] {
      assert questions[0] in questions && forall other :: other in questions[1..] ==> other in questions;
      RemovedAbsent(questions[1..], question);
    }
  }

  /** Every prerequisite-closed set of fresh questions survives. */
  ghost predicate HoldsEveryClosedSet(questions: seq<Question>, available: set<string>) {
    forall ids :: PrerequisiteClosed(questions, ids) ==> ids <= available
  }

  /** A question that requires something unavailable is in no prerequisite-closed set of what is left. */
  lemma DropIsForced(questions: seq<Question>, available: set<string>, question: Question)
    requires question in questions && !RequiresWithin(question, available)
    requires HoldsEveryClosedSet(questions, available)
    ensures HoldsEveryClosedSet(questions, available - {question.id})
  {
    var i :| 0 <= i < |question.prerequisites| && question.prerequisites[i] !in available;
    forall ids | PrerequisiteClosed(questions, ids)
      ensures ids <= available - {question.id}
    {
      assert ids <= available;
      assert question.id in ids ==> RequiresWithin(question, ids);
    }
  }

  lemma {:induction false} KeepDistinct(questions: seq<Question>, ids: set<string>)
    requires DistinctIds(questions)
    ensures DistinctIds(Keep(questions, ids))
  {
    if questions != [] {
      var rest := questions[1..];
      assert forall i :: 0 <= i < |rest| ==> rest[i] == questions[i + 1];
      KeepDistinct(rest, ids);
      var kept := Keep(rest, ids);
      forall question | question in kept
        ensures question.id != questions[0].id
      {
        var j :| 0 <= j < |rest| && rest[j] == question;
        assert questions[0].id != questions[j + 1].id;
      }
    }
  }

  lemma KeptIds(questions: seq<Question>, ids: set<string>)
    requires ids <= Ids(questions)
    ensures Ids(Keep(questions, ids)) == ids
  {
    forall id | id in ids
      ensures id in Ids(Keep(questions, ids))
    {
      var question :| question in questions && question.id == id;
      assert question in Keep(questions, ids);
    }
  }

  /** The state of the dropping loop: the kept questions are those with available ids, and the rest has been dropped. */
  ghost predicate Dropping(usable: seq<Question>, kept: seq<Question>, available: set<string>, dropped: seq<string>) {
    && available <= Ids(usable) && kept == Keep(usable, available)
    && HoldsEveryClosedSet(usable, available)
    && (forall id :: id in dropped <==> id in Ids(usable) && id !in available)
  }

  lemma DropOne(usable: seq<Question>, kept: seq<Question>, available: set<string>, dropped: seq<string>,
                question: Question)
    requires DistinctIds(usable) && Dropping(usable, kept, available, dropped)
    requires question in usable && question.id in available && !RequiresWithin(question, available)
    ensures Dropping(usable, Removed(kept, question), available - {question.id}, dropped + [question.id])
  {
    hide DistinctIds, HoldsEveryClosedSet;
    KeepRemoved(usable, available, question);
    DropIsForced(usable, available, question);
  }

  /** One pass over a copy of the kept questions. */
  method DropPass(usable: seq<Question>, kept: seq<Question>, available: set<string>, dropped: seq<string>)
    returns (keptAfter: seq<Question>, availableAfter: set<string>, droppedAfter: seq<string>, changed: bool)
    requires DistinctIds(usable) && Dropping(usable, kept, available, dropped)
    ensures Dropping(usable, keptAfter, availableAfter, droppedAfter)
    ensures changed ==> availableAfter < available
    ensures !changed ==> availableAfter == available && keptAfter == kept
                         && forall question :: question in kept ==> RequiresWithin(question, available)
  {
    KeepDistinct(usable, available);
    hide Dropping, HoldsEveryClosedSet, RequiresWithin;
    keptAfter, availableAfter, droppedAfter, changed := kept, available, dropped, false;
    KeptAreAvailable(usable, kept, available, dropped);
    for i := 0 to |kept|
      invariant Dropping(usable, keptAfter, availableAfter, droppedAfter)
      invariant changed ==> availableAfter < available
      invariant !changed ==> availableAfter == available && keptAfter == kept
                             && forall j :: 0 <= j < i ==> RequiresWithin(kept[j], available)
      invariant forall j :: i <= j < |kept| ==> kept[j].id in availableAfter
    {
      var question := kept[i];
      if !RequiresWithin(question, availableAfter) {
        DropOne(usable, keptAfter, availableAfter, droppedAfter, question);
        keptAfter := Removed(keptAfter, question);
        availableAfter := availableAfter - {question.id};
        droppedAfter := droppedAfter + [question.id];
        changed := true;
      }
    }
  }

  lemma KeptAreAvailable(usable: seq<Question>, kept: seq<Question>, available: set<string>, dropped: seq<string>)
    requires DistinctIds(usable) && Dropping(usable, kept, available, dropped)
    ensures DistinctIds(kept)
    ensures forall question :: question in kept ==> question in usable && question.id in available
  {
    KeepDistinct(usable, available);
  }

  /**
    Questions that require something unavailable are dropped until nothing changes. What is left is the greatest
    prerequisite-closed set of the fresh questions, in their order; what is dropped is all the rest.
    */
  method DropStale(usable: seq<Question>) returns (kept: seq<Question>, dropped: seq<string>)
    requires DistinctIds(usable)
    ensures PrerequisiteClosed(usable, Ids(kept)) && HoldsEveryClosedSet(usable, Ids(kept))
    ensures kept == Keep(usable, Ids(kept))
    ensures forall id :: id in dropped <==> id in Ids(usable) && id !in Ids(kept)
  {
    var available := Ids(usable);
    kept, dropped := usable, [];
    KeepAll(usable, available);
    var changed := true;
    while changed
      invariant Dropping(usable, kept, available, dropped)
      invariant !changed ==> forall question :: question in kept ==> RequiresWithin(question, available)
      decreases available, changed
    {
      kept, available, dropped, changed := DropPass(usable, kept, available, dropped);
    }
    KeptIds(usable, available);
  }

  // ---- disputed questions and what depends on them ----

  /** Whatever requires a member is a member. */
  ghost predicate HoldsDependents(questions: seq<Question>, ids: set<string>) {
    forall question :: question in questions && RequiresSome(question, ids) ==> question.id in ids
  }

  /** The blocked questions are the least set that holds the disputed ones and all dependents of its members. */
  method Block(questions: seq<Question>, disputed: set<string>) returns (blocked: set<string>)
    ensures disputed * Ids(questions) <= blocked <= Ids(questions) && HoldsDependents(questions, blocked)
    ensures forall ids :: disputed * Ids(questions) <= ids && HoldsDependents(questions, ids) ==> blocked <= ids
  {
    blocked := set question | question in questions && question.id in disputed :: question.id;
    var changed := true;
    while changed
      invariant disputed * Ids(questions) <= blocked <= Ids(questions)
      invariant forall ids :: disputed * Ids(questions) <= ids && HoldsDependents(questions, ids) ==> blocked <= ids
      invariant !changed ==> HoldsDependents(questions, blocked)
      decreases Ids(questions) - blocked, changed
    {
      changed := false;
      ghost var before := blocked;
      for i := 0 to |questions|
        invariant before <= blocked <= Ids(questions)
        invariant forall ids :: disputed * Ids(questions) <= ids && HoldsDependents(questions, ids) ==> blocked <= ids
        invariant changed ==> before < blocked
        invariant !changed ==> blocked == before
                               && forall j :: 0 <= j < i && RequiresSome(questions[j], blocked) ==> questions[j].id in blocked
      {
        var question := questions[i];
        if question.id !in blocked && RequiresSome(question, blocked) {
          DependentIsForced(questions, blocked, question);
          blocked := blocked + {question.id};
          changed := true;
        }
      }
    }
  }

  lemma DependentIsForced(questions: seq<Question>, blocked: set<string>, question: Question)
    requires question in questions && RequiresSome(question, blocked)
    ensures forall ids :: blocked <= ids && HoldsDependents(questions, ids) ==> question.id in ids
  {
    forall ids | blocked <= ids && HoldsDependents(questions, ids)
      ensures question.id in ids
    {
      var i :| 0 <= i < |question.prerequisites| && question.prerequisites[i] in blocked;
      assert RequiresSome(question, ids);
    }
  }

  // ---- order ----

  datatype Stage = Learning | Reviewing | Stable | Disputed

  /** What the mastery record says of a question; `due` is the time it falls due, if it has one. */
  datatype Review = Review(stage: Stage, due: Option<real>)

  datatype Key = Key(group: nat, depth: nat, index: nat)

  predicate Less(a: Key, b: Key) {
    a.group < b.group || (a.group == b.group && (a.depth < b.depth || (a.depth == b.depth && a.index < b.index)))
  }

  function GroupOf(review: Option<Review>, now: real): nat {
    if review.None? then 2
    else if review.value.due.Some? && review.value.due.value <= now then 0
    else if review.value.stage == Learning then 1
    else if review.value.stage == Reviewing then 3
    else 4
  }

  function ReviewOf(reviews: map<string, Review>, id: string): Option<Review> {
    if id in reviews then Some(reviews[id]) else None
  }

  function IndexOf(questions: seq<Question>, question: Question): (index: nat)
    ensures question in questions ==> index < |questions| && questions[index] == question
  {
    if questions == [] || questions[0] == question then 0 else 1 + IndexOf(questions[1..], question)
  }

  function KeyOf(questions: seq<Question>, reviews: map<string, Review>, now: real, question: Question): Key {
    Key(GroupOf(ReviewOf(reviews, question.id), now), question.depth, IndexOf(questions, question))
  }

  /** The prerequisites that are themselves among the questions. */
  function GraphOf(questions: seq<Question>): Graph {
    map id | id in Ids(questions) :: RequiredIn(questions, id) * Ids(questions)
  }

  function RequiredIn(questions: seq<Question>, id: string): set<string> {
    set question, i | question in questions && question.id == id && 0 <= i < |question.prerequisites| ::
      question.prerequisites[i]
  }

  /** Still left, and requiring nothing that is still left. */
  predicate IsEligible(question: Question, left: set<string>) {
    question.id in left && !RequiresSome(question, left)
  }

  /** Of the eligible questions, the one with the least key. */
  ghost predicate IsLeast(questions: seq<Question>, key: Question -> Key, left: set<string>, best: Question) {
    && best in questions && IsEligible(best, left)
    && (forall other :: other in questions && other != best && IsEligible(other, left) ==> Less(key(best), key(other)))
  }

  /** At step `i` the order takes the least of the questions that require nothing still left. */
  ghost predicate PicksLeast(questions: seq<Question>, key: Question -> Key, ordered: seq<Question>, i: nat)
    requires i < |ordered|
  {
    IsLeast(questions, key, Ids(questions) - Ids(ordered[..i]), ordered[i])
  }

  /** Every question once, each after those it requires, always the least key first. */
  ghost predicate GreedyOrder(questions: seq<Question>, key: Question -> Key, ordered: seq<Question>) {
    && Ids(ordered) == Ids(questions)
    && (forall i :: 0 <= i < |ordered| ==> PicksLeast(questions, key, ordered, i))
  }

  /** The eligible question with the least key, if any question is eligible. */
  method LeastEligible(questions: seq<Question>, key: Question -> Key, left: set<string>)
    returns (best: Option<Question>)
    requires KeysDistinct(questions, key)
    ensures best.None? ==> forall question :: question in questions ==> !IsEligible(question, left)
    ensures best.Some? ==> IsLeast(questions, key, left, best.value)
  {
    best := None;
    for i := 0 to |questions|
      invariant best.None? ==> forall j :: 0 <= j < i ==> !IsEligible(questions[j], left)
      invariant best.Some? ==> IsLeast(questions[..i], key, left, best.value)
    {
      var question := questions[i];
      assert questions[..i + 1] == questions[..i] + [question];
      if IsEligible(question, left) {
        if best.None? || Less(key(question), key(best.value)) {
          best := Some(question);
        }
      }
    }
    assert questions[..|questions|] == questions;
  }

  /** The order is found exactly when the questions have no cycle among themselves. */
  method Order(candidates: seq<Question>, key: Question -> Key) returns (result: Result<seq<Question>, GraphError>)
    requires DistinctIds(candidates)
    requires KeysDistinct(candidates, key)
    ensures result.Ok? <==> !HasCycle(GraphOf(candidates))
    ensures result.Ok? ==> GreedyOrder(candidates, key, result.value)
    ensures result.Err? ==> result.error == CyclicPrerequisites
  {
    hide HasCycle, IsEligible, IsLeast, PicksLeast, GraphOf, Ids, DistinctIds;
    NoIds();
    var remaining := Ids(candidates);
    var ordered: seq<Question> := [];
    while remaining != {}
      invariant remaining == Ids(candidates) - Ids(ordered) && Ids(ordered) <= Ids(candidates)
      invariant forall i :: 0 <= i < |ordered| ==> PicksLeast(candidates, key, ordered, i)
      decreases |remaining|
    {
      var best := LeastEligible(candidates, key, remaining);
      if best.None? {
        NoneEligibleMeansCycle(candidates, remaining);
        return Err(CyclicPrerequisites);
      }
      PicksOneMore(candidates, key, ordered, best.value);
      ordered := ordered + [best.value];
      remaining := remaining - {best.value.id};
    }
    OrderedMeansAcyclic(candidates, key, ordered);
    result := Ok(ordered);
  }

  lemma NoIds()
    ensures Ids([]) == {}
  {
  }

  lemma PicksOneMore(questions: seq<Question>, key: Question -> Key, ordered: seq<Question>, next: Question)
    requires IsLeast(questions, key, Ids(questions) - Ids(ordered), next)
    requires forall i :: 0 <= i < |ordered| ==> PicksLeast(questions, key, ordered, i)
    ensures forall i :: 0 <= i < |ordered| + 1 ==> PicksLeast(questions, key, ordered + [next], i)
    ensures Ids(ordered + [next]) == Ids(ordered) + {next.id}
    ensures next.id in Ids(questions) && next.id !in Ids(ordered)
  {
    var longer := ordered + [next];
    forall i | 0 <= i < |longer|
      ensures PicksLeast(questions, key, longer, i)
    {
      assert longer[..i] == ordered[..i];
      if i == |ordered| {
        assert ordered[..i] == ordered;
      } else {
        assert PicksLeast(questions, key, ordered, i);
      }
    }
  }

  lemma NoneEligibleMeansCycle(questions: seq<Question>, left: set<string>)
    requires left != {} && left <= Ids(questions)
    requires forall question :: question in questions ==> !IsEligible(question, left)
    ensures HasCycle(GraphOf(questions))
  {
    hide HasCycle, RequiresOneOf, IsEligible;
    var graph := GraphOf(questions);
    forall id | id in left
      ensures RequiresOneOf(graph, id, left)
    {
      StillRequires(questions, left, id);
    }
    StuckMeansCycle(graph, left);
  }

  lemma StillRequires(questions: seq<Question>, left: set<string>, id: string)
    requires id in left && left <= Ids(questions)
    requires forall question :: question in questions ==> !IsEligible(question, left)
    ensures RequiresOneOf(GraphOf(questions), id, left)
  {
    var question :| question in questions && question.id == id;
    assert !IsEligible(question, left);
    var i :| 0 <= i < |question.prerequisites| && question.prerequisites[i] in left;
    assert question.prerequisites[i] in GraphOf(questions)[id] * left;
  }

  lemma OrderedMeansAcyclic(questions: seq<Question>, key: Question -> Key, ordered: seq<Question>)
    requires DistinctIds(questions) && GreedyOrder(questions, key, ordered)
    ensures !HasCycle(GraphOf(questions))
  {
    hide HasCycle, GreedyOrder, GraphOf;
    GreedyOrderIsTopological(questions, key, ordered);
    var rank := map i: nat | 0 <= i < |ordered| :: ordered[i].id := i;
    var graph := GraphOf(questions);
    forall id, other | id in graph && other in graph[id]
      ensures IsBelow(rank, other, id)
    {
      var i, j := RequiredBefore(questions, key, ordered, id, other);
      assert rank[ordered[i].id] == i && rank[ordered[j].id] == j;
    }
    RankedMeansAcyclic(graph, rank);
  }

  lemma RequiredBefore(questions: seq<Question>, key: Question -> Key, ordered: seq<Question>, id: string, other: string)
    returns (i: nat, j: nat)
    requires DistinctIds(questions) && GreedyOrder(questions, key, ordered)
    requires id in GraphOf(questions) && other in GraphOf(questions)[id]
    ensures j < i < |ordered| && ordered[i].id == id && ordered[j].id == other
  {
    GreedyOrderIsTopological(questions, key, ordered);
    var question, p :| question in questions && question.id == id && 0 <= p < |question.prerequisites|
                       && question.prerequisites[p] == other;
    i := PositionOf(ordered, id);
    assert ordered[i] in questions;
    SameQuestion(questions, ordered[i], question);
    j :| 0 <= j < i && ordered[j].id == other;
  }

  lemma PositionOf(ordered: seq<Question>, id: string) returns (i: nat)
    requires id in Ids(ordered)
    ensures i < |ordered| && ordered[i].id == id
  {
    var question :| question in ordered && question.id == id;
    i :| 0 <= i < |ordered| && ordered[i] == question;
  }

  /** Each question stands once, and after each of its prerequisites that is itself in the order. */
  lemma GreedyOrderIsTopological(questions: seq<Question>, key: Question -> Key, ordered: seq<Question>)
    requires DistinctIds(questions) && GreedyOrder(questions, key, ordered)
    ensures DistinctIds(ordered)
    ensures forall question :: question in ordered <==> question in questions
    ensures forall i, p :: 0 <= i < |ordered| && 0 <= p < |ordered[i].prerequisites|
                           && ordered[i].prerequisites[p] in Ids(questions) ==>
              exists j :: 0 <= j < i && ordered[j].id == ordered[i].prerequisites[p]
  {
    forall i, j | 0 <= i < j < |ordered|
      ensures ordered[i].id != ordered[j].id
    {
      assert PicksLeast(questions, key, ordered, j);
      assert ordered[..j][i] == ordered[i];
    }
    forall question | question in questions
      ensures question in ordered
    {
      var i := PositionOf(ordered, question.id);
      assert PicksLeast(questions, key, ordered, i);
      SameQuestion(questions, ordered[i], question);
    }
    forall i | 0 <= i < |ordered|
      ensures ordered[i] in questions
    {
      assert PicksLeast(questions, key, ordered, i);
    }
    forall i, p | 0 <= i < |ordered| && 0 <= p < |ordered[i].prerequisites|
                  && ordered[i].prerequisites[p] in Ids(questions)
      ensures exists j :: 0 <= j < i && ordered[j].id == ordered[i].prerequisites[p]
    {
      assert PicksLeast(questions, key, ordered, i);
      var j := PositionOf(ordered[..i], ordered[i].prerequisites[p]);
      assert ordered[..i][j] == ordered[j];
    }
  }

  /** The greedy order is determined by the questions and their keys. */
  lemma {:induction false} GreedyOrderIsUnique(questions: seq<Question>, key: Question -> Key, a: seq<Question>,
                                               b: seq<Question>, count: nat)
    requires GreedyOrder(questions, key, a) && GreedyOrder(questions, key, b)
    requires count <= |a| && count <= |b|
    ensures a[..count] == b[..count]
    ensures count == |a| ==> a == b
  {
    hide PicksLeast;
    if count > 0 {
      GreedyOrderIsUnique(questions, key, a, b, count - 1);
      SamePick(questions, key, a, b, count - 1);
      assert a[..count] == a[..count - 1] + [a[count - 1]];
      assert b[..count] == b[..count - 1] + [b[count - 1]];
    }
    if count == |a| {
      assert a[..count] == a;
      if |b| > count {
        SomethingIsLeft(questions, key, b, count);
      }
      assert b[..|b|] == b;
    }
  }

  lemma SamePick(questions: seq<Question>, key: Question -> Key, a: seq<Question>, b: seq<Question>, i: nat)
    requires i < |a| && i < |b| && a[..i] == b[..i]
    requires PicksLeast(questions, key, a, i) && PicksLeast(questions, key, b, i)
    ensures a[i] == b[i]
  {
  }

  lemma SomethingIsLeft(questions: seq<Question>, key: Question -> Key, ordered: seq<Question>, i: nat)
    requires i < |ordered| && PicksLeast(questions, key, ordered, i)
    ensures Ids(questions) - Ids(ordered[..i]) != {}
  {
    assert ordered[i].id in Ids(questions) - Ids(ordered[..i]);
  }

  predicate IsDisputed(reviews: map<string, Review>, id: string) {
    id in reviews && reviews[id].stage == Disputed
  }

  /** Holds every disputed question and every dependent of its members. */
  ghost predicate SetsAside(questions: seq<Question>, reviews: map<string, Review>, ids: set<string>) {
    && (forall id :: id in Ids(questions) && IsDisputed(reviews, id) ==> id in ids)
    && HoldsDependents(questions, ids)
  }

  predicate KeysDistinct(questions: seq<Question>, key: Question -> Key) {
    forall a, b :: a in questions && b in questions && a != b ==> key(a).index != key(b).index
  }

  /** A cycle among some of the questions is a cycle among all of them. */
  lemma KeepingAddsNoCycle(questions: seq<Question>, ids: set<string>)
    requires HasCycle(GraphOf(Keep(questions, ids)))
    ensures HasCycle(GraphOf(questions))
  {
    var kept := Keep(questions, ids);
    var path :| |path| >= 2 && IsWalk(GraphOf(kept), path) && path[0] == path[|path| - 1];
    forall i | 0 <= i < |path| - 1
      ensures IsStep(GraphOf(questions), path, i)
    {
      assert IsStep(GraphOf(kept), path, i);
      KeptRequirement(questions, ids, path[i], path[i + 1]);
    }
    assert IsWalk(GraphOf(questions), path);
  }

  lemma KeptRequirement(questions: seq<Question>, ids: set<string>, id: string, required: string)
    requires id in GraphOf(Keep(questions, ids)) && required in GraphOf(Keep(questions, ids))[id]
    ensures id in GraphOf(questions) && required in GraphOf(questions)[id]
  {
    var kept := Keep(questions, ids);
    var question, p :| question in kept && question.id == id && 0 <= p < |question.prerequisites|
                       && question.prerequisites[p] == required;
    assert question in questions;
    var other :| other in kept && other.id == required;
    assert other in questions;
  }

  predicate IsDue(reviews: map<string, Review>, now: real, question: Question) {
    question.id in reviews && reviews[question.id].due.Some? && reviews[question.id].due.value <= now
  }

  /** Not due, and the record says that it is at this stage. */
  predicate IsAt(reviews: map<string, Review>, now: real, question: Question, stage: Stage) {
    question.id in reviews && !IsDue(reviews, now, question) && reviews[question.id].stage == stage
  }

  /** Due questions come first, then those being learned, unseen ones, those under review, and the rest. */
  predicate MoreUrgent(reviews: map<string, Review>, now: real, a: Question, b: Question) {
    && (IsDue(reviews, now, b) ==> IsDue(reviews, now, a))
    && (IsAt(reviews, now, b, Learning) ==> IsDue(reviews, now, a) || IsAt(reviews, now, a, Learning))
    && (b.id !in reviews ==> IsDue(reviews, now, a) || IsAt(reviews, now, a, Learning) || a.id !in reviews)
    && (IsAt(reviews, now, b, Reviewing) ==>
          IsDue(reviews, now, a) || IsAt(reviews, now, a, Learning) || a.id !in reviews || IsAt(reviews, now, a, Reviewing))
  }

  /** Within one of these groups, the shallower question comes first, and of equally deep ones the earlier one. */
  ghost predicate ComesFirst(questions: seq<Question>, reviews: map<string, Review>, now: real, a: Question, b: Question) {
    && MoreUrgent(reviews, now, a, b)
    && (MoreUrgent(reviews, now, b, a) ==>
          a.depth < b.depth || (a.depth == b.depth && IndexOf(questions, a) < IndexOf(questions, b)))
  }

  /** At step `i` the order could as well have gone on with the question at `j`. */
  predicate CouldComeAt(ordered: seq<Question>, i: nat, j: nat)
    requires i < j < |ordered|
  {
    forall p :: 0 <= p < |ordered[j].prerequisites| ==> ordered[j].prerequisites[p] !in Ids(ordered[i..])
  }

  lemma LessIsFirst(questions: seq<Question>, reviews: map<string, Review>, now: real, a: Question, b: Question)
    requires Less(KeyOf(questions, reviews, now, a), KeyOf(questions, reviews, now, b))
    ensures ComesFirst(questions, reviews, now, a, b)
  {
    hide IndexOf;
  }

  /** Of two questions that could both come next, the greedy order takes the more urgent one. */
  lemma UrgentFirst(questions: seq<Question>, candidates: seq<Question>, reviews: map<string, Review>, now: real,
                    ordered: seq<Question>, i: nat, j: nat)
    requires GreedyOrder(candidates, question => KeyOf(questions, reviews, now, question), ordered)
    requires i < j < |ordered| && CouldComeAt(ordered, i, j)
    ensures ComesFirst(questions, reviews, now, ordered[i], ordered[j])
  {
    hide KeyOf, Less, ComesFirst;
    var key := question => KeyOf(questions, reviews, now, question);
    assert PicksLeast(candidates, key, ordered, i) && PicksLeast(candidates, key, ordered, j);
    var left := Ids(candidates) - Ids(ordered[..i]);
    LeftIsSuffix(candidates, ordered, i, j);
    assert IsEligible(ordered[j], left);
    LessIsFirst(questions, reviews, now, ordered[i], ordered[j]);
  }

  lemma LeftIsSuffix(candidates: seq<Question>, ordered: seq<Question>, i: nat, j: nat)
    requires Ids(ordered) == Ids(candidates) && i < j < |ordered|
    requires ordered[j].id in Ids(candidates) - Ids(ordered[..j])
    ensures Ids(candidates) - Ids(ordered[..i]) <= Ids(ordered[i..])
    ensures ordered[j].id in Ids(candidates) - Ids(ordered[..i]) && ordered[i] != ordered[j]
  {
    forall id | id in Ids(candidates) - Ids(ordered[..i])
      ensures id in Ids(ordered[i..])
    {
      var question :| question in ordered && question.id == id;
      assert ordered == ordered[..i] + ordered[i..];
      assert question in ordered[..i] || question in ordered[i..];
    }
    assert ordered[i] in ordered[..j] by {
      assert ordered[..j][i] == ordered[i];
    }
    forall question | question in ordered[..i]
      ensures question in ordered[..j]
    {
      var k :| 0 <= k < i && ordered[..i][k] == question;
      assert ordered[..j][k] == question;
    }
  }

  /**
    Disputed questions and all that depend on them are set aside; the rest are put in greedy order. Ordering fails
    exactly when the rest has a cycle; an acyclic list has none.
    */
  method Prioritize(questions: seq<Question>, reviews: map<string, Review>, now: real)
    returns (result: Result<seq<Question>, GraphError>, ghost blocked: set<string>)
    requires DistinctIds(questions)
    ensures blocked <= Ids(questions) && SetsAside(questions, reviews, blocked)
    ensures forall ids :: SetsAside(questions, reviews, ids) ==> blocked <= ids
    ensures result.Ok? <==> !HasCycle(GraphOf(Keep(questions, Ids(questions) - blocked)))
    ensures !HasCycle(GraphOf(questions)) ==> result.Ok?
    ensures result.Ok? ==>
              GreedyOrder(Keep(questions, Ids(questions) - blocked),
                          question => KeyOf(questions, reviews, now, question), result.value)
    ensures result.Ok? ==>
              forall i, j :: 0 <= i < j < |result.value| && CouldComeAt(result.value, i, j) ==>
                               ComesFirst(questions, reviews, now, result.value[i], result.value[j])
  {
    hide HasCycle, GreedyOrder, HoldsDependents, DistinctIds, KeyOf;
    var disputed := set id | id in Ids(questions) && IsDisputed(reviews, id);
    var setAside := Block(questions, disputed);
    blocked := setAside;
    assert disputed * Ids(questions) == disputed;
    assert forall ids :: SetsAside(questions, reviews, ids) ==> disputed <= ids;
    var candidates := Keep(questions, Ids(questions) - setAside);
    KeepDistinct(questions, Ids(questions) - setAside);
    KeysDiffer(questions, reviews, now);
    result := Order(candidates, question => KeyOf(questions, reviews, now, question));
    if result.Err? {
      KeepingAddsNoCycle(questions, Ids(questions) - setAside);
    } else {
      forall i, j | 0 <= i < j < |result.value| && CouldComeAt(result.value, i, j)
        ensures ComesFirst(questions, reviews, now, result.value[i], result.value[j])
      {
        UrgentFirst(questions, candidates, reviews, now, result.value, i, j);
      }
    }
  }

  lemma KeysDiffer(questions: seq<Question>, reviews: map<string, Review>, now: real)
    ensures KeysDistinct(questions, question => KeyOf(questions, reviews, now, question))
  {
  }
}
