/** Selecting the questions of a session of a given size (xsync.py): the plain prefix, or a mixed, dependency-safe set. */
module Selection {
  import opened Wrappers
  import opened PrerequisiteGraph
  import opened Planner

  datatype Focus = OnlyBusiness | OnlyTechnical | Mixed

  datatype SelectError = InvalidCount | TooFewQuestions | DomainsMissing | CyclicQuestions | MissingQuestion
                       | Infeasible | NoUsableOrder

  /** Each question with everything it requires, in the list or not. */
  function Requirements(questions: seq<Question>): Graph {
    map id | id in Ids(questions) :: RequiredIn(questions, id)
  }

  lemma RequirementsOf(questions: seq<Question>, question: Question)
    requires DistinctIds(questions) && question in questions
    ensures question.id in Requirements(questions)
    ensures forall id :: id in Requirements(questions)[question.id] <==> id in question.prerequisites
  {
    forall id | id in Requirements(questions)[question.id]
      ensures id in question.prerequisites
    {
      var other, i :| other in questions && other.id == question.id && 0 <= i < |other.prerequisites|
                      && other.prerequisites[i] == id;
      SameQuestion(questions, question, other);
    }
    forall id | id in question.prerequisites
      ensures id in Requirements(questions)[question.id]
    {
      var i :| 0 <= i < |question.prerequisites| && question.prerequisites[i] == id;
    }
  }

  // ---- prerequisite closure ----

  /** Exactly what the node reaches, all of it in the graph. */
  ghost predicate IsReach(graph: Graph, node: string, reached: set<string>) {
    reached <= graph.Keys && forall other :: other in reached <==> Reaches(graph, node, other)
  }

  ghost predicate CacheSound(graph: Graph, cache: map<string, set<string>>) {
    forall node :: node in cache ==> IsReach(graph, node, cache[node])
  }

  /** There is a walk of at least one step. */
  ghost predicate Leads(graph: Graph, from: string, to: string) {
    from in graph && exists via :: via in graph[from] && Reaches(graph, via, to)
  }

  lemma ReachesThen(graph: Graph, from: string, via: string, to: string)
    requires Reaches(graph, from, via) && via in graph && to in graph[via]
    ensures Reaches(graph, from, to)
  {
    var path :| WalkBetween(graph, path, from, via);
    var longer := path + [to];
    forall i | 0 <= i < |longer| - 1
      ensures IsStep(graph, longer, i)
    {
      assert i < |path| - 1 ==> IsStep(graph, path, i);
    }
    assert WalkBetween(graph, longer, from, to);
  }

  lemma LeadsOn(graph: Graph, visiting: set<string>, node: string, next: string)
    requires forall from :: from in visiting ==> Leads(graph, from, node)
    requires node in graph && next in graph[node]
    ensures forall from :: from in visiting + {node} ==> Leads(graph, from, next)
  {
    forall from | from in visiting + {node}
      ensures Leads(graph, from, next)
    {
      if from == node {
        ReachesItself(graph, next);
      } else {
        var via :| via in graph[from] && Reaches(graph, via, node);
        ReachesThen(graph, via, node, next);
      }
    }
  }

  /**
    The memoised recursion over prerequisites: what it returns is exactly what the question reaches, whatever has been
    cached before, and it fails only on a list with a cycle or a missing prerequisite.
    */
  method Closure(questions: seq<Question>, id: string, visiting: set<string>, cache: map<string, set<string>>)
    returns (result: Result<set<string>, SelectError>, after: map<string, set<string>>)
    requires DistinctIds(questions) && CacheSound(Requirements(questions), cache)
    requires visiting <= Ids(questions)
    requires forall from :: from in visiting ==> Leads(Requirements(questions), from, id)
    ensures CacheSound(Requirements(questions), after)
    ensures result.Ok? ==> IsReach(Requirements(questions), id, result.value)
    ensures result.Err? ==>
              || (result.error == CyclicQuestions && HasCycle(Requirements(questions)))
              || (result.error == MissingQuestion && !(id in Ids(questions) && IsClosed(Requirements(questions))))
    decreases Ids(questions) - visiting
  {
    hide HasCycle, Reaches, DistinctIds;
    ghost var graph := Requirements(questions);
    after := cache;
    if id in cache {
      return Ok(cache[id]), after;
    }
    if id in visiting {
      LeadsBack(graph, id);
      return Err(CyclicQuestions), after;
    }
    var found := FindQuestion(questions, id);
    if found.None? {
      return Err(MissingQuestion), after;
    }
    var question := found.value;
    RequirementsOf(questions, question);
    var reached := {id};
    ReachesItself(graph, id);
    for i := 0 to |question.prerequisites|
      invariant CacheSound(graph, after)
      invariant reached <= graph.Keys && id in reached
      invariant forall other :: other in reached ==> Reaches(graph, id, other)
      invariant forall j :: 0 <= j < i ==> HoldsReach(graph, question.prerequisites[j], reached)
    {
      var required := question.prerequisites[i];
      LeadsOn(graph, visiting, id, required);
      var part;
      part, after := Closure(questions, required, visiting + {id}, after);
      if part.Err? {
        RequiredIsMissing(graph, id, required);
        return part, after;
      }
      ReachesEach(graph, id, required, part.value);
      reached := reached + part.value;
    }
    AllReached(questions, question, reached);
    after := after[id := reached];
    result := Ok(reached);
  }

  ghost predicate HoldsReach(graph: Graph, node: string, reached: set<string>) {
    forall other :: Reaches(graph, node, other) ==> other in reached
  }

  lemma LeadsBack(graph: Graph, id: string)
    requires Leads(graph, id, id)
    ensures HasCycle(graph)
  {
    var via :| via in graph[id] && Reaches(graph, via, id);
    CycleThrough(graph, id, via);
  }

  lemma RequiredIsMissing(graph: Graph, id: string, required: string)
    requires id in graph && required in graph[id]
    ensures IsClosed(graph) ==> required in graph
  {
  }

  lemma ReachesEach(graph: Graph, from: string, via: string, reached: set<string>)
    requires from in graph && via in graph[from] && IsReach(graph, via, reached)
    ensures forall other :: other in reached ==> Reaches(graph, from, other)
  {
    forall other | other in reached
      ensures Reaches(graph, from, other)
    {
      ReachesOn(graph, from, via, other);
    }
  }

  lemma AllReached(questions: seq<Question>, question: Question, reached: set<string>)
    requires DistinctIds(questions) && question in questions && question.id in reached
    requires forall j :: 0 <= j < |question.prerequisites| ==>
               HoldsReach(Requirements(questions), question.prerequisites[j], reached)
    ensures HoldsReach(Requirements(questions), question.id, reached)
  {
    var graph := Requirements(questions);
    RequirementsOf(questions, question);
    forall other | Reaches(graph, question.id, other)
      ensures other in reached
    {
      if other != question.id {
        var via := ReachesThrough(graph, question.id, other);
        var j :| 0 <= j < |question.prerequisites| && question.prerequisites[j] == via;
        assert HoldsReach(graph, question.prerequisites[j], reached);
      }
    }
  }

  method FindQuestion(questions: seq<Question>, id: string) returns (found: Option<Question>)
    ensures found.Some? ==> found.value in questions && found.value.id == id
    ensures found.None? ==> id !in Ids(questions)
  {
    for i := 0 to |questions|
      invariant forall j :: 0 <= j < i ==> questions[j].id != id
    {
      if questions[i].id == id {
        return Some(questions[i]);
      }
    }
    found := None;
  }

  // ---- what is to be found ----

  ghost predicate Covers(questions: seq<Question>, ids: set<string>, domain: Domain) {
    exists question :: question in questions && question.id in ids && question.domain == domain
  }

  /** A prerequisite-closed set of `count` questions that covers both domains. */
  ghost predicate IsMixed(questions: seq<Question>, count: nat, ids: set<string>) {
    && PrerequisiteClosed(questions, ids) && |ids| == count
    && Covers(questions, ids, Business) && Covers(questions, ids, Technical)
  }

  /** What a question reaches is a prerequisite-closed set, and part of every such set that holds the question. */
  lemma ReachIsClosed(questions: seq<Question>, id: string, reached: set<string>)
    requires DistinctIds(questions) && IsReach(Requirements(questions), id, reached)
    ensures PrerequisiteClosed(questions, reached) && id in reached
  {
    var graph := Requirements(questions);
    ReachesItself(graph, id);
    forall question | question in questions && question.id in reached
      ensures RequiresWithin(question, reached)
    {
      RequirementsOf(questions, question);
      forall i | 0 <= i < |question.prerequisites|
        ensures question.prerequisites[i] in reached
      {
        assert question.prerequisites[i] in graph[question.id];
        ReachesThen(graph, id, question.id, question.prerequisites[i]);
      }
    }
  }

  lemma ClosedHoldsReach(questions: seq<Question>, ids: set<string>, id: string, reached: set<string>)
    requires DistinctIds(questions) && PrerequisiteClosed(questions, ids) && id in ids
    requires IsReach(Requirements(questions), id, reached)
    ensures reached <= ids
  {
    var graph := Requirements(questions);
    forall node | node in ids && node in graph
      ensures graph[node] <= ids
    {
      var question :| question in questions && question.id == node;
      RequirementsOf(questions, question);
      assert RequiresWithin(question, ids);
    }
    forall other | other in reached
      ensures other in ids
    {
      var path :| WalkBetween(graph, path, id, other);
      ClosedHoldsReached(graph, ids, path);
    }
  }

  lemma UnionIsClosed(questions: seq<Question>, a: set<string>, b: set<string>)
    requires PrerequisiteClosed(questions, a) && PrerequisiteClosed(questions, b)
    ensures PrerequisiteClosed(questions, a + b)
  {
    forall question | question in questions && question.id in a + b
      ensures RequiresWithin(question, a + b)
    {
      assert RequiresWithin(question, a) || RequiresWithin(question, b);
    }
  }

  // ---- scores ----

  datatype Score = Score(reach: nat, size: nat, positions: seq<nat>)

  predicate SeqLess(a: seq<nat>, b: seq<nat>) {
    if b == [] then false
    else if a == [] then true
    else a[0] < b[0] || (a[0] == b[0] && SeqLess(a[1..], b[1..]))
  }

  predicate ScoreLess(a: Score, b: Score) {
    a.reach < b.reach || (a.reach == b.reach && (a.size < b.size || (a.size == b.size && SeqLess(a.positions, b.positions))))
  }

  lemma {:induction false} SeqLessKeepsOrder(a: seq<nat>, b: seq<nat>, c: seq<nat>)
    requires SeqLess(b, a)
    ensures SeqLess(c, b) ==> SeqLess(c, a)
  {
    if b != [] && c != [] && b[0] == a[0] && c[0] == b[0] {
      SeqLessKeepsOrder(a[1..], b[1..], c[1..]);
    }
  }

  /** A later, smaller best keeps being at most every earlier candidate. */
  lemma ScoreLessKeepsOrder(a: Score, b: Score, c: Score)
    requires ScoreLess(b, a)
    ensures ScoreLess(c, b) ==> ScoreLess(c, a)
  {
    if b.reach == a.reach && b.size == a.size {
      SeqLessKeepsOrder(a.positions, b.positions, c.positions);
    }
  }

  /** The positions of the given questions in the list, ascending. */
  function PositionsOf(questions: seq<Question>, ids: set<string>, start: nat): seq<nat>
    requires start <= |questions|
    decreases |questions| - start
  {
    if start == |questions| then []
    else if questions[start].id in ids then [start] + PositionsOf(questions, ids, start + 1)
    else PositionsOf(questions, ids, start + 1)
  }

  function Max(a: nat, b: nat): nat {
    if a < b then b else a
  }

  function ScoreOf(questions: seq<Question>, business: Question, technical: Question, required: set<string>): Score {
    Score(Max(IndexOf(questions, business), IndexOf(questions, technical)), |required|,
          PositionsOf(questions, required, 0))
  }

  // ---- the base of a mixed session ----

  datatype Base = Base(score: Score, required: set<string>)

  /** The pair's joint closure is at most `count` questions and scores no better than the base. */
  ghost predicate Considered(questions: seq<Question>, count: nat, best: Option<Base>, business: Question,
                             technical: Question)
  {
    forall required :: IsJointReach(questions, business, technical, required) && |required| <= count ==>
      best.Some? && !ScoreLess(ScoreOf(questions, business, technical, required), best.value.score)
  }

  ghost predicate IsJointReach(questions: seq<Question>, business: Question, technical: Question, required: set<string>) {
    && PrerequisiteClosed(questions, required) && business.id in required && technical.id in required
    && (forall ids :: PrerequisiteClosed(questions, ids) && business.id in ids && technical.id in ids ==> required <= ids)
  }

  /** The base is the joint closure of some pair of the two domains, and small enough. */
  ghost predicate IsBase(questions: seq<Question>, count: nat, base: Base) {
    exists business, technical ::
      && business in questions && technical in questions && business.domain == Business && technical.domain == Technical
      && IsJointReach(questions, business, technical, base.required) && |base.required| <= count
      && base.score == ScoreOf(questions, business, technical, base.required)
  }

  lemma JointReach(questions: seq<Question>, business: Question, technical: Question, a: set<string>, b: set<string>)
    requires DistinctIds(questions)
    requires IsReach(Requirements(questions), business.id, a) && IsReach(Requirements(questions), technical.id, b)
    ensures IsJointReach(questions, business, technical, a + b)
  {
    hide IsReach, PrerequisiteClosed, DistinctIds;
    ReachIsClosed(questions, business.id, a);
    ReachIsClosed(questions, technical.id, b);
    UnionIsClosed(questions, a, b);
    forall ids | PrerequisiteClosed(questions, ids) && business.id in ids && technical.id in ids
      ensures a + b <= ids
    {
      ClosedHoldsReach(questions, ids, business.id, a);
      ClosedHoldsReach(questions, ids, technical.id, b);
    }
  }

  /** One pair: its joint closure replaces the base when it fits and scores better. */
  method Consider(questions: seq<Question>, count: nat, business: Question, technical: Question, best: Option<Base>,
                  cache: map<string, set<string>>)
    returns (error: Option<SelectError>, after: Option<Base>, cacheAfter: map<string, set<string>>)
    requires DistinctIds(questions) && CacheSound(Requirements(questions), cache)
    requires business in questions && technical in questions
    requires business.domain == Business && technical.domain == Technical
    requires best.Some? ==> IsBase(questions, count, best.value)
    ensures CacheSound(Requirements(questions), cacheAfter)
    ensures error.Some? ==> Malformed(questions, error.value)
    ensures error.None? ==>
              && Considered(questions, count, after, business, technical)
              && (after.Some? ==> IsBase(questions, count, after.value))
              && (forall b, t :: Considered(questions, count, best, b, t) ==> Considered(questions, count, after, b, t))
  {
    hide IsReach, IsBase, IsJointReach, HasCycle, IsClosed, CacheSound, ScoreOf, DistinctIds, ScoreLess;
    error, after, cacheAfter := None, best, cache;
    var first, second;
    first, cacheAfter := Closure(questions, business.id, {}, cacheAfter);
    if first.Err? {
      return Some(first.error), best, cacheAfter;
    }
    second, cacheAfter := Closure(questions, technical.id, {}, cacheAfter);
    if second.Err? {
      return Some(second.error), best, cacheAfter;
    }
    var required := first.value + second.value;
    JointReach(questions, business, technical, first.value, second.value);
    JointReachIsUnique(questions, business, technical, required);
    if |required| <= count {
      var score := ScoreOf(questions, business, technical, required);
      ScoreNotLessItself(score);
      if best.None? || ScoreLess(score, best.value.score) {
        after := Some(Base(score, required));
        BaseFromPair(questions, count, business, technical, required);
        BetterBase(questions, count, best, after.value);
      }
    }
  }

  /** The list has a cycle, or a prerequisite that is not in it. */
  ghost predicate Malformed(questions: seq<Question>, error: SelectError) {
    || (error == CyclicQuestions && HasCycle(Requirements(questions)))
    || (error == MissingQuestion && !IsClosed(Requirements(questions)))
  }

  lemma JointReachIsUnique(questions: seq<Question>, business: Question, technical: Question, required: set<string>)
    requires IsJointReach(questions, business, technical, required)
    ensures forall other :: IsJointReach(questions, business, technical, other) ==> other == required
  {
    hide PrerequisiteClosed;
  }

  lemma {:induction false} SeqNotLessItself(a: seq<nat>)
    ensures !SeqLess(a, a)
  {
    if a != [] {
      SeqNotLessItself(a[1..]);
    }
  }

  lemma ScoreNotLessItself(score: Score)
    ensures !ScoreLess(score, score)
  {
    SeqNotLessItself(score.positions);
  }

  lemma BaseFromPair(questions: seq<Question>, count: nat, business: Question, technical: Question, required: set<string>)
    requires business in questions && technical in questions
    requires business.domain == Business && technical.domain == Technical
    requires IsJointReach(questions, business, technical, required) && |required| <= count
    ensures IsBase(questions, count, Base(ScoreOf(questions, business, technical, required), required))
  {
    hide IsJointReach, ScoreOf;
  }

  lemma BetterBase(questions: seq<Question>, count: nat, best: Option<Base>, better: Base)
    requires best.Some? ==> ScoreLess(better.score, best.value.score)
    ensures forall b, t :: Considered(questions, count, best, b, t) ==> Considered(questions, count, Some(better), b, t)
  {
    hide IsJointReach, ScoreOf, ScoreLess;
    forall b, t | Considered(questions, count, best, b, t)
      ensures Considered(questions, count, Some(better), b, t)
    {
      forall required | IsJointReach(questions, b, t, required) && |required| <= count
        ensures !ScoreLess(ScoreOf(questions, b, t, required), better.score)
      {
        ScoreLessKeepsOrder(best.value.score, better.score, ScoreOf(questions, b, t, required));
      }
    }
  }

  /** All pairs of a business and a technical question, the former outermost. */
  method FindBase(questions: seq<Question>, count: nat) returns (error: Option<SelectError>, best: Option<Base>)
    requires DistinctIds(questions)
    ensures error.Some? ==> Malformed(questions, error.value)
    ensures error.None? ==> AllConsidered(questions, count, best) && (best.Some? ==> IsBase(questions, count, best.value))
  {
    hide IsBase, Considered, DistinctIds, HasCycle, IsClosed, Malformed;
    error, best := None, None;
    var cache: map<string, set<string>> := map[];
    var i := 0;
    while i < |questions|
      invariant 0 <= i <= |questions| && error.None? && CacheSound(Requirements(questions), cache)
      invariant best.Some? ==> IsBase(questions, count, best.value)
      invariant forall k, j :: 0 <= k < i && 0 <= j < |questions| && IsPair(questions[k], questions[j]) ==>
                  Considered(questions, count, best, questions[k], questions[j])
    {
      var j := 0;
      while j < |questions| && questions[i].domain == Business
        invariant 0 <= j <= |questions| && error.None? && CacheSound(Requirements(questions), cache)
        invariant best.Some? ==> IsBase(questions, count, best.value)
        invariant forall k, l :: 0 <= k < i && 0 <= l < |questions| && IsPair(questions[k], questions[l]) ==>
                    Considered(questions, count, best, questions[k], questions[l])
        invariant forall l :: 0 <= l < j && IsPair(questions[i], questions[l]) ==>
                    Considered(questions, count, best, questions[i], questions[l])
      {
        if questions[j].domain == Technical {
          error, best, cache := Consider(questions, count, questions[i], questions[j], best, cache);
          if error.Some? {
            return;
          }
        }
        j := j + 1;
      }
      i := i + 1;
    }
  }

  predicate IsPair(business: Question, technical: Question) {
    business.domain == Business && technical.domain == Technical
  }

  ghost predicate AllConsidered(questions: seq<Question>, count: nat, best: Option<Base>) {
    forall k, j :: 0 <= k < |questions| && 0 <= j < |questions| && IsPair(questions[k], questions[j]) ==>
      Considered(questions, count, best, questions[k], questions[j])
  }

  /** When a mixed set of the wanted size exists, some pair fits. */
  lemma MixedGivesBase(questions: seq<Question>, count: nat, best: Option<Base>, ids: set<string>)
    requires DistinctIds(questions) && IsClosed(Requirements(questions))
    requires AllConsidered(questions, count, best) && IsMixed(questions, count, ids)
    ensures best.Some?
  {
    hide IsReach, PrerequisiteClosed, DistinctIds, IsClosed;
    var business :| business in questions && business.id in ids && business.domain == Business;
    var technical :| technical in questions && technical.id in ids && technical.domain == Technical;
    var a := ReachOf(questions, business);
    var b := ReachOf(questions, technical);
    JointReach(questions, business, technical, a, b);
    ClosedHoldsReach(questions, ids, business.id, a);
    ClosedHoldsReach(questions, ids, technical.id, b);
    SizeOfPart(a + b, ids);
    var k :| 0 <= k < |questions| && questions[k] == business;
    var j :| 0 <= j < |questions| && questions[j] == technical;
    assert IsPair(questions[k], questions[j]);
  }

  lemma SizeOfPart(part: set<string>, whole: set<string>)
    requires part <= whole
    ensures |part| <= |whole|
    ensures |part| == |whole| ==> part == whole
  {
    assert whole == part + (whole - part);
  }

  lemma ReachOf(questions: seq<Question>, question: Question) returns (reached: set<string>)
    requires question in questions && IsClosed(Requirements(questions))
    ensures IsReach(Requirements(questions), question.id, reached)
  {
    var graph := Requirements(questions);
    reached := set id | id in graph.Keys && Reaches(graph, question.id, id);
    forall other | Reaches(graph, question.id, other)
      ensures other in graph.Keys
    {
      var path :| WalkBetween(graph, path, question.id, other);
      ClosedHoldsReached(graph, graph.Keys, path);
    }
  }

  // ---- filling up ----

  lemma {:induction false} KeepSize(questions: seq<Question>, ids: set<string>)
    requires DistinctIds(questions) && ids <= Ids(questions)
    ensures |Keep(questions, ids)| == |ids|
  {
    if questions == [] {
      assert ids == {};
    } else {
      var rest := questions[1..];
      assert forall i :: 0 <= i < |rest| ==> rest[i] == questions[i + 1];
      HeadIsApart(questions);
      KeepWithout(rest, ids, questions[0].id);
      assert ids - {questions[0].id} <= Ids(rest);
      KeepSize(rest, ids - {questions[0].id});
      if questions[0].id in ids {
        assert ids == (ids - {questions[0].id}) + {questions[0].id};
      } else {
        assert ids - {questions[0].id} == ids;
      }
    }
  }

  lemma HeadIsApart(questions: seq<Question>)
    requires DistinctIds(questions) && questions != []
    ensures DistinctIds(questions[1..])
    ensures forall question :: question in questions[1..] ==> question.id != questions[0].id
  {
    var rest := questions[1..];
    assert forall i :: 0 <= i < |rest| ==> rest[i] == questions[i + 1];
    forall question | question in rest
      ensures question.id != questions[0].id
    {
      var i :| 0 <= i < |rest| && rest[i] == question;
      assert questions[0].id != questions[i + 1].id;
    }
  }

  /** In an acyclic, closed list a selection that is not everything can always be extended. */
  lemma FillIsNeverStuck(questions: seq<Question>, selected: set<string>)
    requires DistinctIds(questions) && IsClosed(Requirements(questions)) && !HasCycle(Requirements(questions))
    requires selected <= Ids(questions) && |selected| < |questions|
    ensures FirstUsable(questions, selected).Some?
  {
    hide HasCycle, DistinctIds;
    var graph := Requirements(questions);
    var left := Ids(questions) - selected;
    AllIds(questions);
    assert Ids(questions) == selected + left;
    var id := AcyclicHasMinimal(graph, left);
    var question :| question in questions && question.id == id;
    RequirementsOf(questions, question);
    forall i | 0 <= i < |question.prerequisites|
      ensures question.prerequisites[i] in selected
    {
      var required := question.prerequisites[i];
      assert required in graph[id] && graph[id] <= graph.Keys;
      assert required !in graph[id] * left;
    }
    assert IsUsable(question, selected);
  }

  predicate IsUsable(question: Question, selected: set<string>) {
    question.id !in selected && RequiresWithin(question, selected)
  }

  function FirstUsable(questions: seq<Question>, selected: set<string>): Option<nat> {
    First(questions, (question: Question) => IsUsable(question, selected))
  }

  /** The selection grown by the first usable question, over and over, to the wanted size. */
  function Filled(questions: seq<Question>, selected: set<string>, count: nat): Option<set<string>>
    decreases count - |selected|
  {
    if count <= |selected| then Some(selected)
    else
      var choice := FirstUsable(questions, selected);
      if choice.None? then None else Filled(questions, selected + {questions[choice.value].id}, count)
  }

  /** The first questions whose prerequisites are already selected join until the set is large enough. */
  method Fill(questions: seq<Question>, count: nat, base: set<string>) returns (result: Result<set<string>, SelectError>)
    requires DistinctIds(questions) && PrerequisiteClosed(questions, base) && |base| <= count <= |questions|
    ensures result == match Filled(questions, base, count)
                      case Some(selected) => Ok(selected)
                      case None => Err(NoUsableOrder)
    ensures result.Ok? ==>
              base <= result.value && PrerequisiteClosed(questions, result.value) && |result.value| == count
    ensures result.Err? ==> !(IsClosed(Requirements(questions)) && !HasCycle(Requirements(questions)))
  {
    hide HasCycle, IsClosed, DistinctIds, RequiresWithin;
    var selected := base;
    while |selected| < count
      invariant base <= selected && PrerequisiteClosed(questions, selected) && |selected| <= count
      invariant Filled(questions, base, count) == Filled(questions, selected, count)
      decreases count - |selected|
    {
      var choice := FirstUsable(questions, selected);
      if choice.None? {
        if IsClosed(Requirements(questions)) && !HasCycle(Requirements(questions)) {
          FillIsNeverStuck(questions, selected);
        }
        return Err(NoUsableOrder);
      }
      var question := questions[choice.value];
      assert IsUsable(question, selected);
      JoinKeepsClosed(questions, selected, question);
      selected := selected + {question.id};
    }
    result := Ok(selected);
  }

  lemma AllIds(questions: seq<Question>)
    requires DistinctIds(questions)
    ensures |Ids(questions)| == |questions|
  {
    KeepSize(questions, Ids(questions));
    KeepAll(questions, Ids(questions));
  }

  lemma JoinKeepsClosed(questions: seq<Question>, selected: set<string>, question: Question)
    requires DistinctIds(questions) && PrerequisiteClosed(questions, selected)
    requires question in questions && RequiresWithin(question, selected)
    ensures PrerequisiteClosed(questions, selected + {question.id})
  {
    hide DistinctIds;
    forall other | other in questions && other.id in selected + {question.id}
      ensures RequiresWithin(other, selected + {question.id})
    {
      if other.id == question.id {
        SameQuestion(questions, other, question);
      }
      assert RequiresWithin(other, selected);
    }
  }

  // ---- the selection ----

  // ---- which selection it is ----

  /** The later question of the first pair is no later than the later one of the second. */
  predicate NoLater(p: nat, q: nat, r: nat, t: nat) {
    (p <= r || p <= t) && (q <= r || q <= t)
  }

  /** At the first question that only one of the sets holds, it is the first set that holds it. */
  ghost predicate Precedes(questions: seq<Question>, a: set<string>, b: set<string>) {
    exists k :: 0 <= k < |questions| && questions[k].id in a && questions[k].id !in b
                && forall j :: 0 <= j < k ==> (questions[j].id in a <==> questions[j].id in b)
  }

  /** Earlier questions, then fewer of them, then the earliest ones. */
  ghost predicate NoWorse(questions: seq<Question>, p: nat, q: nat, a: set<string>, r: nat, t: nat, b: set<string>) {
    && NoLater(p, q, r, t)
    && (NoLater(r, t, p, q) ==> |a| <= |b| && (|a| == |b| ==> a == b || Precedes(questions, a, b)))
  }

  /** Two questions of the two domains and the least closed set that holds them. */
  ghost predicate FittingPair(questions: seq<Question>, count: nat, p: nat, q: nat, required: set<string>) {
    && p < |questions| && q < |questions| && questions[p].domain == Business && questions[q].domain == Technical
    && IsJointReach(questions, questions[p], questions[q], required) && |required| <= count
  }

  ghost predicate BestPair(questions: seq<Question>, count: nat, p: nat, q: nat, required: set<string>) {
    && FittingPair(questions, count, p, q, required)
    && forall r, t, other :: FittingPair(questions, count, r, t, other) ==> NoWorse(questions, p, q, required, r, t, other)
  }

  function PickedIds(questions: seq<Question>, picks: seq<nat>): set<string>
    requires forall i :: 0 <= i < |picks| ==> picks[i] < |questions|
  {
    set i | 0 <= i < |picks| :: questions[picks[i]].id
  }

  /** The question at `k` joins the set: it is new, all it requires is there, and no earlier question could join. */
  ghost predicate JoinsFirst(questions: seq<Question>, selected: set<string>, k: nat) {
    && k < |questions| && questions[k].id !in selected
    && (forall i :: 0 <= i < |questions[k].prerequisites| ==> questions[k].prerequisites[i] in selected)
    && (forall j :: 0 <= j < k && questions[j].id !in selected ==>
          exists i :: 0 <= i < |questions[j].prerequisites| && questions[j].prerequisites[i] !in selected)
  }

  ghost predicate JoinOneByOne(questions: seq<Question>, start: set<string>, picks: seq<nat>) {
    && (forall i :: 0 <= i < |picks| ==> picks[i] < |questions|)
    && (forall i :: 0 <= i < |picks| ==> JoinsFirst(questions, start + PickedIds(questions, picks[..i]), picks[i]))
  }

  ghost predicate GrowsTo(questions: seq<Question>, start: set<string>, ids: set<string>) {
    exists picks :: JoinOneByOne(questions, start, picks) && ids == start + PickedIds(questions, picks)
  }

  lemma {:induction false} IndexIs(questions: seq<Question>, k: nat)
    requires DistinctIds(questions) && k < |questions|
    ensures IndexOf(questions, questions[k]) == k
  {
    if k > 0 {
      assert questions[0].id != questions[k].id;
      assert questions[1..][k - 1] == questions[k];
      IndexIs(questions[1..], k - 1);
    }
  }

  lemma {:induction false} PositionsAbove(questions: seq<Question>, ids: set<string>, start: nat)
    requires start <= |questions|
    ensures forall i :: 0 <= i < |PositionsOf(questions, ids, start)| ==> start <= PositionsOf(questions, ids, start)[i]
    decreases |questions| - start
  {
    if start < |questions| {
      PositionsAbove(questions, ids, start + 1);
    }
  }

  /** The first set whose positions are not greater holds the first question that only one of the two holds. */
  lemma {:induction false} PositionsDecide(questions: seq<Question>, a: set<string>, b: set<string>, start: nat)
    requires start <= |questions| && |PositionsOf(questions, a, start)| == |PositionsOf(questions, b, start)|
    requires !SeqLess(PositionsOf(questions, b, start), PositionsOf(questions, a, start))
    requires forall j :: 0 <= j < start ==> (questions[j].id in a <==> questions[j].id in b)
    ensures (forall j :: 0 <= j < |questions| ==> (questions[j].id in a <==> questions[j].id in b)) || Precedes(questions, a, b)
    decreases |questions| - start
  {
    if start < |questions| {
      var id := questions[start].id;
      PositionsAbove(questions, a, start + 1);
      PositionsAbove(questions, b, start + 1);
      if id in a <==> id in b {
        if id in a {
          assert PositionsOf(questions, a, start)[1..] == PositionsOf(questions, a, start + 1);
          assert PositionsOf(questions, b, start)[1..] == PositionsOf(questions, b, start + 1);
        }
        PositionsDecide(questions, a, b, start + 1);
      }
    }
  }

  lemma {:induction false} PositionsCount(questions: seq<Question>, ids: set<string>, start: nat)
    requires start <= |questions|
    ensures |PositionsOf(questions, ids, start)| == |Keep(questions[start..], ids)|
    decreases |questions| - start
  {
    if start < |questions| {
      PositionsCount(questions, ids, start + 1);
      assert questions[start..][1..] == questions[start + 1..];
      assert questions[start..][0] == questions[start];
    }
  }

  lemma PositionsSize(questions: seq<Question>, ids: set<string>)
    requires DistinctIds(questions) && PrerequisiteClosed(questions, ids)
    ensures |PositionsOf(questions, ids, 0)| == |ids|
  {
    hide DistinctIds, PrerequisiteClosed;
    PositionsCount(questions, ids, 0);
    assert questions[0..] == questions;
    KeepSelected(questions, ids);
  }

  lemma SameOnQuestions(questions: seq<Question>, a: set<string>, b: set<string>)
    requires PrerequisiteClosed(questions, a) && PrerequisiteClosed(questions, b)
    requires forall j :: 0 <= j < |questions| ==> (questions[j].id in a <==> questions[j].id in b)
    ensures a == b
  {
    forall id
      ensures id in a <==> id in b
    {
      if id in a || id in b {
        assert id in Ids(questions);
        var question :| question in questions && question.id == id;
        var j :| 0 <= j < |questions| && questions[j] == question;
      }
    }
  }

  /** A pair that no other scores lower than is no worse than any. */
  lemma ScoreDecides(questions: seq<Question>, p: nat, q: nat, a: set<string>, r: nat, t: nat, b: set<string>)
    requires DistinctIds(questions) && p < |questions| && q < |questions| && r < |questions| && t < |questions|
    requires PrerequisiteClosed(questions, a) && PrerequisiteClosed(questions, b)
    requires !ScoreLess(ScoreOf(questions, questions[r], questions[t], b), ScoreOf(questions, questions[p], questions[q], a))
    ensures NoWorse(questions, p, q, a, r, t, b)
  {
    hide DistinctIds, PrerequisiteClosed, Precedes;
    IndexIs(questions, p);
    IndexIs(questions, q);
    IndexIs(questions, r);
    IndexIs(questions, t);
    PositionsSize(questions, a);
    PositionsSize(questions, b);
    if NoLater(r, t, p, q) && |a| == |b| {
      PositionsDecide(questions, a, b, 0);
      if forall j :: 0 <= j < |questions| ==> (questions[j].id in a <==> questions[j].id in b) {
        SameOnQuestions(questions, a, b);
      }
    }
  }

  /** The filling takes questions one by one, each time the first that can join. */
  lemma {:induction false} FilledGrows(questions: seq<Question>, selected: set<string>, count: nat, ids: set<string>)
    returns (picks: seq<nat>)
    requires Filled(questions, selected, count) == Some(ids)
    ensures JoinOneByOne(questions, selected, picks) && ids == selected + PickedIds(questions, picks)
    decreases count - |selected|
  {
    hide JoinsFirst;
    if count <= |selected| {
      picks := [];
      NonePicked(questions, selected);
    } else {
      var k := FirstUsable(questions, selected).value;
      assert IsUsable(questions[k], selected);
      var more := selected + {questions[k].id};
      var rest := FilledGrows(questions, more, count, ids);
      picks := [k] + rest;
      FirstJoins(questions, selected, k);
      JoinBefore(questions, selected, k, rest);
    }
  }

  lemma JoinBefore(questions: seq<Question>, selected: set<string>, k: nat, rest: seq<nat>)
    requires k < |questions| && JoinsFirst(questions, selected, k)
    requires JoinOneByOne(questions, selected + {questions[k].id}, rest)
    ensures JoinOneByOne(questions, selected, [k] + rest)
    ensures selected + PickedIds(questions, [k] + rest) == selected + {questions[k].id} + PickedIds(questions, rest)
  {
    hide JoinsFirst, PickedIds;
    var picks := [k] + rest;
    NonePicked(questions, selected);
    forall i | 0 <= i < |picks|
      ensures JoinsFirst(questions, selected + PickedIds(questions, picks[..i]), picks[i])
    {
      if i > 0 {
        PickedFirst(questions, k, rest[..i - 1]);
        assert picks[..i] == [k] + rest[..i - 1];
        assert selected + PickedIds(questions, picks[..i])
               == selected + {questions[k].id} + PickedIds(questions, rest[..i - 1]);
      } else {
        assert picks[..0] == [];
      }
    }
    PickedFirst(questions, k, rest);
  }

  lemma NonePicked(questions: seq<Question>, selected: set<string>)
    ensures selected + PickedIds(questions, []) == selected
  {
  }

  lemma FirstJoins(questions: seq<Question>, selected: set<string>, k: nat)
    requires FirstUsable(questions, selected) == Some(k)
    ensures k < |questions| && JoinsFirst(questions, selected, k)
  {
    assert IsUsable(questions[k], selected);
    forall j | 0 <= j < k && questions[j].id !in selected
      ensures exists i :: 0 <= i < |questions[j].prerequisites| && questions[j].prerequisites[i] !in selected
    {
      assert !IsUsable(questions[j], selected);
    }
  }

  lemma PickedFirst(questions: seq<Question>, k: nat, rest: seq<nat>)
    requires k < |questions| && forall i :: 0 <= i < |rest| ==> rest[i] < |questions|
    ensures PickedIds(questions, [k] + rest) == {questions[k].id} + PickedIds(questions, rest)
  {
    var all := [k] + rest;
    forall id | id in {questions[k].id} + PickedIds(questions, rest)
      ensures id in PickedIds(questions, all)
    {
      if id != questions[k].id {
        var i :| 0 <= i < |rest| && questions[rest[i]].id == id;
        assert all[i + 1] == rest[i];
      } else {
        assert all[0] == k;
      }
    }
  }

  /** The selection fills up the closure of the best fitting pair, taking each time the first question that can join. */
  lemma BestIsBest(questions: seq<Question>, count: nat, ids: set<string>)
    requires DistinctIds(questions) && GrownFromBest(questions, count, ids)
    ensures exists p, q, required :: BestPair(questions, count, p, q, required) && GrowsTo(questions, required, ids)
  {
    hide DistinctIds, NoWorse, ScoreLess, ScoreOf, Filled, JoinOneByOne, PickedIds, IsJointReach, AllConsidered;
    var base :| IsBase(questions, count, base) && AllConsidered(questions, count, Some(base))
                && Filled(questions, base.required, count) == Some(ids);
    var business, technical :|
      && business in questions && technical in questions && business.domain == Business && technical.domain == Technical
      && IsJointReach(questions, business, technical, base.required) && |base.required| <= count
      && base.score == ScoreOf(questions, business, technical, base.required);
    var p: nat :| p < |questions| && questions[p] == business;
    var q: nat :| q < |questions| && questions[q] == technical;
    forall r, t, other | FittingPair(questions, count, r, t, other)
      ensures NoWorse(questions, p, q, base.required, r, t, other)
    {
      PairConsidered(questions, count, base, r, t, other);
      ReachesAreClosed(questions, p, q, base.required);
      ReachesAreClosed(questions, r, t, other);
      ScoreDecides(questions, p, q, base.required, r, t, other);
    }
    var picks := FilledGrows(questions, base.required, count, ids);
    assert BestPair(questions, count, p, q, base.required);
    assert GrowsTo(questions, base.required, ids);
  }

  lemma PairConsidered(questions: seq<Question>, count: nat, base: Base, r: nat, t: nat, other: set<string>)
    requires AllConsidered(questions, count, Some(base)) && FittingPair(questions, count, r, t, other)
    ensures !ScoreLess(ScoreOf(questions, questions[r], questions[t], other), base.score)
  {
    hide ScoreLess, ScoreOf, IsJointReach;
    assert IsPair(questions[r], questions[t]);
    assert Considered(questions, count, Some(base), questions[r], questions[t]);
  }

  lemma ReachesAreClosed(questions: seq<Question>, p: nat, q: nat, required: set<string>)
    requires p < |questions| && q < |questions| && IsJointReach(questions, questions[p], questions[q], required)
    ensures PrerequisiteClosed(questions, required)
  {
  }

  predicate HasDomain(questions: seq<Question>, domain: Domain) {
    exists question :: question in questions && question.domain == domain
  }

  /**
    A mixed session of `count` questions. What is selected is always a prerequisite-closed set of that size covering
    both domains, in the order of the list; on an acyclic, closed list a selection is found exactly when one exists.
    */
  method SelectMixed(questions: seq<Question>, count: nat) returns (result: Result<seq<Question>, SelectError>)
    requires DistinctIds(questions) && count <= |questions|
    ensures result.Ok? ==>
              result.value == Keep(questions, Ids(result.value)) && |result.value| == count
              && IsMixed(questions, count, Ids(result.value))
              && exists p, q, required ::
                   BestPair(questions, count, p, q, required) && GrowsTo(questions, required, Ids(result.value))
    ensures IsClosed(Requirements(questions)) && !HasCycle(Requirements(questions)) ==>
              (result.Ok? <==> exists ids :: IsMixed(questions, count, ids))
              && (result.Err? ==> result.error == Infeasible)
    ensures result.Err? ==> result.error in {CyclicQuestions, MissingQuestion, Infeasible, NoUsableOrder}
  {
    hide HasCycle, IsClosed, DistinctIds, PrerequisiteClosed, AllConsidered, IsJointReach, Covers;
    var error, best := FindBase(questions, count);
    if error.Some? {
      return Err(error.value);
    }
    if best.None? {
      NoBaseNoMixed(questions, count);
      return Err(Infeasible);
    }
    BaseIsMixed(questions, count, best.value);
    var filled := Fill(questions, count, best.value.required);
    if filled.Err? {
      return Err(filled.error);
    }
    var selected := filled.value;
    CoversMore(questions, best.value.required, selected);
    KeepSelected(questions, selected);
    result := Ok(Keep(questions, selected));
    assert IsMixed(questions, count, selected);
    assert AllConsidered(questions, count, Some(best.value));
    assert GrownFromBest(questions, count, selected);
    BestIsBest(questions, count, selected);
  }

  /** The selection is what fills up the joint closure of a pair that no fitting pair scores better than. */
  ghost predicate GrownFromBest(questions: seq<Question>, count: nat, ids: set<string>) {
    exists base :: IsBase(questions, count, base) && AllConsidered(questions, count, Some(base))
                   && Filled(questions, base.required, count) == Some(ids)
  }

  lemma NoBaseNoMixed(questions: seq<Question>, count: nat)
    requires DistinctIds(questions) && AllConsidered(questions, count, None)
    ensures IsClosed(Requirements(questions)) ==> !exists ids :: IsMixed(questions, count, ids)
  {
    hide AllConsidered, DistinctIds, IsMixed, IsClosed;
    if IsClosed(Requirements(questions)) && exists ids :: IsMixed(questions, count, ids) {
      var ids :| IsMixed(questions, count, ids);
      MixedGivesBase(questions, count, None, ids);
    }
  }

  lemma BaseIsMixed(questions: seq<Question>, count: nat, base: Base)
    requires IsBase(questions, count, base)
    ensures PrerequisiteClosed(questions, base.required) && |base.required| <= count
    ensures Covers(questions, base.required, Business) && Covers(questions, base.required, Technical)
  {
    hide PrerequisiteClosed;
  }

  lemma CoversMore(questions: seq<Question>, part: set<string>, whole: set<string>)
    requires part <= whole
    ensures forall domain :: Covers(questions, part, domain) ==> Covers(questions, whole, domain)
  {
  }

  lemma KeepSelected(questions: seq<Question>, selected: set<string>)
    requires DistinctIds(questions) && PrerequisiteClosed(questions, selected)
    ensures Ids(Keep(questions, selected)) == selected && |Keep(questions, selected)| == |selected|
  {
    hide DistinctIds;
    KeptIds(questions, selected);
    KeepSize(questions, selected);
  }

  /** The whole selection: the list as it is, an error, its first questions, or a mixed session. */
  method Select(questions: seq<Question>, count: Option<int>, focus: Focus)
    returns (result: Result<seq<Question>, SelectError>)
    requires DistinctIds(questions)
    ensures count.None? ==> result == Ok(questions)
    ensures count.Some? && count.value < 1 ==> result == Err(InvalidCount)
    ensures count.Some? && 1 <= count.value && |questions| < count.value ==> result == Err(TooFewQuestions)
    ensures count.Some? && 1 <= count.value <= |questions| && focus != Mixed ==> result == Ok(questions[..count.value])
    ensures count.Some? && 1 <= count.value <= |questions| && focus == Mixed ==>
              && (result == Err(DomainsMissing) <==>
                    count.value < 2 || !HasDomain(questions, Business) || !HasDomain(questions, Technical))
              && (result.Ok? ==> result.value == Keep(questions, Ids(result.value))
                                 && |result.value| == count.value && IsMixed(questions, count.value, Ids(result.value))
                                 && exists p, q, required ::
                                      BestPair(questions, count.value, p, q, required)
                                      && GrowsTo(questions, required, Ids(result.value)))
              && (IsClosed(Requirements(questions)) && !HasCycle(Requirements(questions)) ==>
                    (result.Ok? <==> exists ids :: IsMixed(questions, count.value, ids)))
  {
    hide HasCycle, IsClosed, DistinctIds, PrerequisiteClosed;
    if count.None? {
      return Ok(questions);
    }
    if count.value < 1 {
      return Err(InvalidCount);
    }
    if |questions| < count.value {
      return Err(TooFewQuestions);
    }
    if focus != Mixed {
      return Ok(questions[..count.value]);
    }
    if count.value < 2 || !HasDomain(questions, Business) || !HasDomain(questions, Technical) {
      NotMixed(questions, count.value);
      return Err(DomainsMissing);
    }
    result := SelectMixed(questions, count.value);
  }

  lemma NotMixed(questions: seq<Question>, count: nat)
    requires DistinctIds(questions)
    requires count < 2 || !HasDomain(questions, Business) || !HasDomain(questions, Technical)
    ensures !exists ids :: IsMixed(questions, count, ids)
  {
    hide PrerequisiteClosed;
    forall ids
      ensures !IsMixed(questions, count, ids)
    {
      if IsMixed(questions, count, ids) {
        var business :| business in questions && business.id in ids && business.domain == Business;
        var technical :| technical in questions && technical.id in ids && technical.domain == Technical;
        BothInside(questions, ids, business, technical);
      }
    }
  }

  lemma BothInside(questions: seq<Question>, ids: set<string>, business: Question, technical: Question)
    requires DistinctIds(questions) && business in questions && technical in questions
    requires business.id in ids && technical.id in ids
    requires business.domain == Business && technical.domain == Technical
    ensures 2 <= |ids| && HasDomain(questions, Business) && HasDomain(questions, Technical)
  {
    if business.id == technical.id {
      SameQuestion(questions, business, technical);
    }
    SizeOfPart({business.id, technical.id}, ids);
  }

  /** The first questions of a greedy order of a closed list never require a question they leave out. */
  lemma PrefixOfOrderIsClosed(candidates: seq<Question>, key: Question -> Key, ordered: seq<Question>, count: nat)
    requires DistinctIds(candidates) && GreedyOrder(candidates, key, ordered) && count <= |ordered|
    requires IsClosed(Requirements(candidates))
    ensures PrerequisiteClosed(candidates, Ids(ordered[..count]))
  {
    hide GreedyOrder;
    GreedyOrderIsTopological(candidates, key, ordered);
    forall question | question in candidates && question.id in Ids(ordered[..count])
      ensures RequiresWithin(question, Ids(ordered[..count]))
    {
      var i := PositionOf(ordered[..count], question.id);
      assert ordered[..count][i] == ordered[i];
      SameQuestion(candidates, ordered[i], question);
      RequirementsOf(candidates, question);
      forall p | 0 <= p < |question.prerequisites|
        ensures question.prerequisites[p] in Ids(ordered[..count])
      {
        assert question.prerequisites[p] in Requirements(candidates)[question.id];
        assert Requirements(candidates)[question.id] <= Requirements(candidates).Keys;
        var j :| 0 <= j < i && ordered[j].id == question.prerequisites[p];
        assert ordered[..count][j] == ordered[j];
      }
    }
    forall id | id in Ids(ordered[..count])
      ensures id in Ids(candidates)
    {
      var i := PositionOf(ordered[..count], id);
      assert ordered[..count][i] == ordered[i];
    }
  }
}
