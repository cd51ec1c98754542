/** What every accepted session chain satisfies. */
module SessionProperties {
  import opened Wrappers
  import opened SessionChain

  predicate Awaiting(status: Status) { status == AnswerSaved || status == AgentReviewPending }

  /** An attempt without a review exists exactly while an answer waits for one, and is then the only one and the last. */
  ghost predicate AttemptsSettled(s: State) {
    && (Awaiting(s.status) ==>
          s.attempts != [] && s.attempts[|s.attempts| - 1].review.None?
          && s.current == Some(s.attempts[|s.attempts| - 1].question))
    && (forall k :: 0 <= k < |s.attempts| - (if Awaiting(s.status) then 1 else 0) ==> s.attempts[k].review.Some?)
    && (s.status == Reviewed ==> s.attempts != [] && s.current == Some(s.attempts[|s.attempts| - 1].question))
  }

  /** The attempts whose continuation has been used: all, except one that is still being answered or reviewed. */
  function Continued(s: State): int {
    |s.attempts| - (if Awaiting(s.status) || s.status == Reviewed then 1 else 0)
  }

  /** The k-th continuation key used is that of the k-th attempt, and every attempt left behind has been used. */
  ghost predicate ContinuesLinked(s: State) {
    && |s.consumed| == Continued(s)
    && (forall k :: 0 <= k < |s.consumed| ==> s.consumed[k] == ContinueKeyOf(s.session, s.attempts[k]))
  }

  ghost predicate Settled(s: State) {
    AttemptsSettled(s) && ContinuesLinked(s)
  }

  // ---- what one event keeps ----

  /** A recorded attempt keeps everything the learner said; its review, once there, is final. */
  ghost predicate AttemptKept(a: Attempt, b: Attempt) {
    && b == a.(auto := b.auto, review := b.review)
    && (a.review.Some? ==> b == a)
  }

  ghost predicate LessonKept(a: Lesson, b: Lesson) {
    && b.id == a.id && b.question == a.question && b.version == a.version
    && a.revisions <= b.revisions && |a.feedback| <= |b.feedback|
    && (!IsActive(a) ==> b == a)
  }

  ghost predicate Kept(s: State, t: State) {
    && t.session == s.session && t.total == s.total && s.index <= t.index
    && |s.attempts| <= |t.attempts| && (forall k :: 0 <= k < |s.attempts| ==> AttemptKept(s.attempts[k], t.attempts[k]))
    && |s.lessons| <= |t.lessons| && (forall k :: 0 <= k < |s.lessons| ==> LessonKept(s.lessons[k], t.lessons[k]))
    && s.consumed <= t.consumed && s.requests <= t.requests
  }

  lemma KeptOn(s: State, t: State, u: State)
    requires Kept(s, t) && Kept(t, u)
    ensures Kept(s, u)
  {
    forall k | 0 <= k < |s.attempts|
      ensures AttemptKept(s.attempts[k], u.attempts[k])
    {
      assert AttemptKept(s.attempts[k], t.attempts[k]) && AttemptKept(t.attempts[k], u.attempts[k]);
    }
    forall k | 0 <= k < |s.lessons|
      ensures LessonKept(s.lessons[k], u.lessons[k])
    {
      assert LessonKept(s.lessons[k], t.lessons[k]) && LessonKept(t.lessons[k], u.lessons[k]);
    }
  }

  predicate Advances(payload: Payload) {
    payload.QuestionPresented? || payload.SessionEnded?
  }

  predicate IsTeaching(payload: Payload) {
    || payload.TeachingStarted? || payload.FeedbackSubmitted? || payload.TeachingRevised?
    || payload.TeachingCompleted? || payload.TeachingInvalidated? || payload.TeachingRequested?
  }

  lemma SameAttempts(before: State, after: State)
    requires Settled(before) && after.attempts == before.attempts && after.consumed == before.consumed
    requires after.session == before.session && after.current == before.current
    requires Awaiting(after.status) == Awaiting(before.status) && (after.status == Reviewed) == (before.status == Reviewed)
    ensures Settled(after)
  {
  }

  /** The last attempt is at the current question, so it is the one a continuation refers to. */
  lemma CurrentIsLast(s: State)
    requires s.attempts != [] && s.current == Some(s.attempts[|s.attempts| - 1].question)
    ensures CurrentAttempt(s) == Some(s.attempts[|s.attempts| - 1])
  {
  }

  lemma ContinueSettles(before: State, key: Key, after: State)
    requires Settled(before) && ValidContinue(before, key, after)
    requires after.attempts == before.attempts && after.session == before.session
    requires after.status == QuestionOpen || after.status == Completed
    ensures Settled(after)
  {
    CurrentIsLast(before);
  }

  lemma AnswerSettles(before: State, answer: Attempt, after: State)
    requires Settled(before) && ValidAnswer(before, answer, after)
    ensures Settled(after)
  {
    forall k | 0 <= k < |before.attempts|
      ensures after.attempts[k] == before.attempts[k]
    {
      assert after.attempts[..|before.attempts|][k] == before.attempts[k];
    }
  }

  lemma ReviewSettles(before: State, attemptId: string, evaluation: Review, after: State)
    requires Settled(before) && ValidReviewed(before, attemptId, evaluation, after)
    ensures Settled(after)
    ensures FindAttempt(after.attempts, attemptId) == Some(|before.attempts| - 1)
    ensures forall k :: 0 <= k < |before.attempts| ==> AttemptKept(before.attempts[k], after.attempts[k])
  {
    var target := FindAttempt(after.attempts, attemptId).value;
    assert before.attempts[target].review.None?;
    assert target == |before.attempts| - 1;
    ReviewKeeps(before.attempts[target], after.attempts[target], evaluation);
  }

  lemma ReviewKeeps(before: Attempt, after: Attempt, evaluation: Review)
    requires ReviewAdded(before, after, evaluation)
    ensures AttemptKept(before, after)
    ensures after.id == before.id && after.question == before.question && after.version == before.version
  {
    var left := after.(review := None, auto := if evaluation.stale then None else after.auto);
    var right := before.(auto := if evaluation.stale then None else before.auto);
    assert left.id == after.id && right.id == before.id;
    assert left.question == after.question && left.version == after.version;
    assert left.response == after.response && left.reason == after.reason && left.confidence == after.confidence;
    assert left.savedAt == after.savedAt && left.evidence == after.evidence && left.hint == after.hint;
  }

  /** Ending a lesson in a state without active lessons can only have ended the one that was active. */
  lemma LessonEndKeeps(before: State, lessonId: string, at: string, after: State)
    requires LessonsValid(before) && LessonsValid(after) && Teaching(before.status)
    requires ValidLessonEnd(before, lessonId, at, after)
    ensures forall k :: 0 <= k < |before.lessons| ==> LessonKept(before.lessons[k], after.lessons[k])
  {
    hide LessonValid, HasPending;
    var found := FindLesson(before.lessons, lessonId).value;
    hide FindLesson;
    var i :| 0 <= i < |before.lessons| && IsActive(before.lessons[i]);
    assert !IsActive(after.lessons[i]);
    assert found == i;
  }

  lemma StepSettles(before: State, payload: Payload, after: State)
    requires Settled(before) && ValidTransition(before, payload, after)
    ensures Settled(after) && before.status != Completed
    ensures after.index == before.index + (if Advances(payload) then 1 else 0)
    ensures IsTeaching(payload) ==> after.attempts == before.attempts
  {
    hide Settled, ValidReviewed, ValidAnswer, FindLesson, FindFeedback, FindAttempt, LastWithId, KeyConsumed;
    match payload
    case AnswerSubmitted(answer) =>
      AnswerSettles(before, answer, after);
      assert ValidAnswer(before, answer, after);
      AnswerFacts(before, answer, after);
    case AnswerReviewed(attemptId, evaluation) =>
      ReviewSettles(before, attemptId, evaluation, after);
      ReviewFacts(before, attemptId, evaluation, after);
    case SocraticTurn(key) => ContinueSettles(before, key, after);
    case QuestionPresented(question, key) => ContinueSettles(before, key, after);
    case SessionEnded(key) => ContinueSettles(before, key, after);
    case _ => SameAttempts(before, after);
  }

  lemma AnswerFacts(before: State, answer: Attempt, after: State)
    requires ValidAnswer(before, answer, after)
    ensures after.index == before.index && before.status != Completed && before.attempts <= after.attempts
  {
    assert after.attempts[..|before.attempts|] == before.attempts;
  }

  lemma ReviewFacts(before: State, attemptId: string, evaluation: Review, after: State)
    requires ValidReviewed(before, attemptId, evaluation, after)
    ensures after.index == before.index && before.status != Completed
  {
  }

  lemma StepKeeps(before: State, payload: Payload, after: State)
    requires Settled(before) && LessonsValid(before) && LessonsValid(after) && ValidTransition(before, payload, after)
    ensures Kept(before, after)
  {
    hide Settled, LessonsValid, ValidReviewed, FindLesson, FindFeedback, FindAttempt, LastWithId, CurrentAttempt;
    match payload
    case AnswerSubmitted(answer) =>
      AnswerFacts(before, answer, after);
    case AnswerReviewed(attemptId, evaluation) =>
      ReviewSettles(before, attemptId, evaluation, after);
      ReviewedRest(before, attemptId, evaluation, after);
    case TeachingCompleted(lessonId, at) => LessonEndKeeps(before, lessonId, at, after);
    case TeachingInvalidated(lessonId, at) => LessonEndKeeps(before, lessonId, at, after);
    case _ =>
  }

  lemma ReviewedRest(before: State, attemptId: string, evaluation: Review, after: State)
    requires ValidReviewed(before, attemptId, evaluation, after)
    ensures Matches(before.(status := Reviewed, attempts := after.attempts), after)
    ensures |after.attempts| == |before.attempts|
  {
  }

  // ---- whole chains ----

  lemma {:induction false} ChainSettles(session: string, chain: seq<Event>, i: nat)
    requires ValidChain(session, chain) && i < |chain|
    ensures Settled(chain[i].after) && Materialized(chain[i].after, session)
  {
    hide Materialized, ValidTransition, Settled, PayloadValid;
    assert EventFits(session, chain, i);
    if i == 0 {
      StartSettles(chain[0].payload, chain[0].after);
    } else {
      ChainSettles(session, chain, i - 1);
      StepSettles(chain[i - 1].after, chain[i].payload, chain[i].after);
    }
  }

  lemma StartSettles(payload: Payload, after: State)
    requires ValidStart(payload, after)
    ensures Settled(after)
  {
  }

  /**
    Between any two points of an accepted chain: attempts are only appended and keep what the learner said, reviews and
    finished lessons are final, and the set of questions keeps its size.
    */
  lemma {:induction false} ChainKeeps(session: string, chain: seq<Event>, i: nat, j: nat)
    requires ValidChain(session, chain) && i <= j < |chain|
    ensures Kept(chain[i].after, chain[j].after)
  {
    hide ValidTransition, Settled, PayloadValid, Kept;
    if i == j {
      KeptItself(chain[i].after);
    } else {
      ChainKeeps(session, chain, i, j - 1);
      ChainSettles(session, chain, j - 1);
      assert EventFits(session, chain, j) && EventFits(session, chain, j - 1);
      StepKeeps(chain[j - 1].after, chain[j].payload, chain[j].after);
      KeptOn(chain[i].after, chain[j - 1].after, chain[j].after);
    }
  }

  lemma KeptItself(s: State)
    ensures Kept(s, s)
  {
  }

  /** How many of the first events present a question or end the session. */
  function Advanced(chain: seq<Event>, count: nat): nat
    requires count <= |chain|
  {
    if count == 0 then 0 else Advanced(chain, count - 1) + (if Advances(chain[count - 1].payload) then 1 else 0)
  }

  /** The position is that count, and never passes the total. */
  lemma {:induction false} IndexCounts(session: string, chain: seq<Event>, i: nat)
    requires ValidChain(session, chain) && i < |chain|
    ensures chain[i].after.index == Advanced(chain, i + 1) <= chain[i].after.total
  {
    hide ValidTransition, Settled, PayloadValid, LessonsValid, RecordsValid;
    assert EventFits(session, chain, i);
    if i > 0 {
      IndexCounts(session, chain, i - 1);
      ChainSettles(session, chain, i - 1);
      StepSettles(chain[i - 1].after, chain[i].payload, chain[i].after);
    } else {
      assert Advanced(chain, 0) == 0;
    }
  }

  /** In every accepted chain an unreviewed attempt means an answer is waiting, and it is then the last one, alone. */
  lemma UnreviewedIsLast(session: string, chain: seq<Event>, i: nat)
    requires ValidChain(session, chain) && i < |chain|
    ensures var s := chain[i].after;
            && (Awaiting(s.status) <==> exists k :: 0 <= k < |s.attempts| && s.attempts[k].review.None?)
            && (forall k :: 0 <= k < |s.attempts| && s.attempts[k].review.None? ==> k == |s.attempts| - 1)
  {
    hide Materialized;
    ChainSettles(session, chain, i);
    var s := chain[i].after;
    assert Awaiting(s.status) ==> s.attempts[|s.attempts| - 1].review.None?;
  }

  /** Every attempt is continued from at most once: each continuation key used is that of another attempt. */
  lemma ContinuedAtMostOnce(session: string, chain: seq<Event>, i: nat)
    requires ValidChain(session, chain) && i < |chain|
    ensures var s := chain[i].after;
            && |s.consumed| <= |s.attempts| <= |s.consumed| + 1
            && (forall k :: 0 <= k < |s.consumed| ==> s.consumed[k] == ContinueKeyOf(session, s.attempts[k]))
            && Distinct(s.consumed)
  {
    ChainSettles(session, chain, i);
  }

  /** Nothing follows the end of a session. */
  lemma CompletedIsLast(session: string, chain: seq<Event>, i: nat)
    requires ValidChain(session, chain) && i < |chain| && chain[i].after.status == Completed
    ensures i == |chain| - 1
  {
    hide ValidTransition, Settled;
    if i + 1 < |chain| {
      ChainSettles(session, chain, i);
      assert EventFits(session, chain, i + 1);
      StepSettles(chain[i].after, chain[i + 1].payload, chain[i + 1].after);
    }
  }
}
