/**
  What the validator of session chains accepts: the one change each event type makes is taken from every settled state of
  the right status, so no session is ever stuck before its end.
  */
module SessionProgress {
  import opened Wrappers
  import opened SessionChain
  import opened SessionProperties

  ghost predicate Sound(s: State) {
    Materialized(s, s.session) && Settled(s)
  }

  /** The statuses an event type leads from and to. */
  lemma StatusTable(before: State, payload: Payload, after: State)
    requires ValidTransition(before, payload, after)
    ensures match payload
            case SessionStarted => false
            case TeachingStarted(_) => before.status == QuestionOpen && after.status == TeachingOpen
            case FeedbackSubmitted(_, _) => before.status == TeachingOpen && after.status == TeachingFeedbackSaved
            case TeachingRevised(_, _, _) => before.status == TeachingFeedbackSaved && after.status == TeachingOpen
            case TeachingCompleted(_, _) => before.status == TeachingOpen && after.status == QuestionOpen
            case TeachingInvalidated(_, _) =>
              (before.status == TeachingOpen || before.status == TeachingFeedbackSaved) && after.status == QuestionOpen
            case TeachingRequested(_) => before.status == QuestionOpen && after.status == QuestionOpen
            case AnswerSubmitted(_) => before.status == QuestionOpen && after.status == AnswerSaved
            case GradingStarted(_, _) => before.status == AnswerSaved && after.status == AgentReviewPending
            case AnswerReviewed(_, _) =>
              (before.status == AnswerSaved || before.status == AgentReviewPending) && after.status == Reviewed
            case SocraticTurn(_) => before.status == Reviewed && after.status == QuestionOpen
            case QuestionPresented(_, _) => before.status == Reviewed && after.status == QuestionOpen
            case SessionEnded(_) => before.status == Reviewed && after.status == Completed
  {
    hide FindLesson, FindFeedback, FindAttempt, LastWithId, KeyConsumed, ReviewAdded, HasPending;
  }

  // ---- teaching ----

  /** In a teaching state the one active lesson is at the current question and pends exactly when feedback was saved. */
  lemma ActiveLesson(s: State, k: nat)
    requires Materialized(s, s.session) && Teaching(s.status) && k < |s.lessons| && s.lessons[k].completedAt.None?
    ensures s.current == Some(s.lessons[k].question)
    ensures s.status == TeachingFeedbackSaved <==> HasPending(s.lessons[k])
    ensures forall i :: 0 <= i < |s.lessons| && i != k ==> !IsActive(s.lessons[i])
    ensures FindLesson(s.lessons, s.lessons[k].id) == Some(k)
  {
    hide LessonValid, RecordsValid, HasPending;
    var i :| 0 <= i < |s.lessons| && IsActive(s.lessons[i]) && s.current == Some(s.lessons[i].question)
             && (s.status == TeachingFeedbackSaved <==> HasPending(s.lessons[i]));
    assert IsActive(s.lessons[k]);
    assert i == k;
  }

  lemma TeachingStartAccepted(s: State, lesson: Lesson)
    requires Sound(s) && s.status == QuestionOpen && s.current == Some(lesson.question)
    requires lesson.version >= 1 && lesson.completedAt.None? && lesson.feedback == []
    requires |lesson.revisions| == 1 && lesson.revisions[0].number == 1
    requires forall i :: 0 <= i < |s.lessons| ==> s.lessons[i].id != lesson.id
    ensures Allowed(s, TeachingStarted(lesson),
                    s.(version := s.version + 1, status := TeachingOpen, lessons := s.lessons + [lesson]))
  {
    hide RecordsValid, Settled, LessonValid;
    var t := s.(version := s.version + 1, status := TeachingOpen, lessons := s.lessons + [lesson]);
    FirstRevision(lesson);
    SameRecords(s, t);
    assert t.lessons[|s.lessons|] == lesson;
  }

  lemma FirstRevision(lesson: Lesson)
    requires lesson.version >= 1 && lesson.feedback == [] && |lesson.revisions| == 1 && lesson.revisions[0].number == 1
    ensures LessonValid(lesson) && !HasPending(lesson)
  {
  }

  lemma SameRecords(s: State, t: State)
    requires RecordsValid(s) && t.consumed == s.consumed && t.requests == s.requests && t.attempts == s.attempts
    ensures RecordsValid(t)
  {
  }

  /** One lesson is replaced by a later stage of itself. */
  lemma LessonReplaced(s: State, t: State, k: nat)
    requires LessonsValid(s) && k < |s.lessons| && |t.lessons| == |s.lessons|
    requires forall i :: 0 <= i < |s.lessons| && i != k ==> t.lessons[i] == s.lessons[i] && !IsActive(s.lessons[i])
    requires t.lessons[k].id == s.lessons[k].id && t.lessons[k].question == s.lessons[k].question
    requires LessonValid(t.lessons[k]) && t.current == Some(t.lessons[k].question)
    requires Teaching(t.status) <==> IsActive(t.lessons[k])
    requires Teaching(t.status) ==> (t.status == TeachingFeedbackSaved <==> HasPending(t.lessons[k]))
    ensures LessonsValid(t)
  {
    hide LessonValid, HasPending;
  }

  lemma FeedbackAccepted(s: State, k: nat, feedback: Feedback)
    requires Sound(s) && s.status == TeachingOpen && k < |s.lessons| && s.lessons[k].completedAt.None?
    requires feedback.base == |s.lessons[k].revisions| && feedback.applied.None?
    requires forall i :: 0 <= i < |s.lessons[k].feedback| ==> s.lessons[k].feedback[i].id != feedback.id
    ensures var lesson := s.lessons[k];
            Allowed(s, FeedbackSubmitted(lesson.id, feedback),
                    s.(version := s.version + 1, status := TeachingFeedbackSaved,
                       lessons := s.lessons[k := lesson.(feedback := lesson.feedback + [feedback])]))
  {
    hide RecordsValid, Settled, FindLesson, LessonsValid;
    var lesson := s.lessons[k];
    var taken := lesson.(feedback := lesson.feedback + [feedback]);
    var t := s.(version := s.version + 1, status := TeachingFeedbackSaved, lessons := s.lessons[k := taken]);
    ActiveLesson(s, k);
    LessonAt(s, k);
    FeedbackAdded(lesson, feedback);
    LessonReplaced(s, t, k);
    SameRecords(s, t);
  }

  lemma LessonAt(s: State, k: nat)
    requires LessonsValid(s) && k < |s.lessons|
    ensures LessonValid(s.lessons[k])
  {
  }

  lemma FeedbackAdded(lesson: Lesson, feedback: Feedback)
    requires LessonValid(lesson) && !HasPending(lesson) && feedback.base == |lesson.revisions| && feedback.applied.None?
    requires forall i :: 0 <= i < |lesson.feedback| ==> lesson.feedback[i].id != feedback.id
    ensures var taken := lesson.(feedback := lesson.feedback + [feedback]);
            LessonValid(taken) && HasPending(taken) && |lesson.revisions| >= 1
  {
    var taken := lesson.(feedback := lesson.feedback + [feedback]);
    assert IsPending(taken.feedback[|lesson.feedback|]);
    forall i | 0 <= i < |lesson.feedback|
      ensures !IsPending(taken.feedback[i])
    {
      assert taken.feedback[i] == lesson.feedback[i];
    }
  }

  lemma RevisionAccepted(s: State, k: nat, j: nat, body: string)
    requires Sound(s) && s.status == TeachingFeedbackSaved && k < |s.lessons| && s.lessons[k].completedAt.None?
    requires j < |s.lessons[k].feedback| && s.lessons[k].feedback[j].applied.None?
    ensures var lesson := s.lessons[k];
            var number := |lesson.revisions| + 1;
            Allowed(s, TeachingRevised(lesson.id, lesson.feedback[j].id, Revision(number, body)),
                    s.(version := s.version + 1, status := TeachingOpen,
                       lessons := s.lessons[k := lesson.(feedback := lesson.feedback[j := lesson.feedback[j].(applied := Some(number))],
                                                         revisions := lesson.revisions + [Revision(number, body)])]))
  {
    hide RecordsValid, Settled, FindLesson, LessonsValid, FindFeedback;
    var lesson := s.lessons[k];
    var number := |lesson.revisions| + 1;
    var revised := lesson.(feedback := lesson.feedback[j := lesson.feedback[j].(applied := Some(number))],
                           revisions := lesson.revisions + [Revision(number, body)]);
    var t := s.(version := s.version + 1, status := TeachingOpen, lessons := s.lessons[k := revised]);
    ActiveLesson(s, k);
    LessonAt(s, k);
    FeedbackApplied(lesson, j, body);
    LessonReplaced(s, t, k);
    SameRecords(s, t);
  }

  lemma FeedbackApplied(lesson: Lesson, j: nat, body: string)
    requires LessonValid(lesson) && j < |lesson.feedback| && lesson.feedback[j].applied.None?
    ensures FindFeedback(lesson.feedback, lesson.feedback[j].id) == Some(j)
    ensures var number := |lesson.revisions| + 1;
            var revised := lesson.(feedback := lesson.feedback[j := lesson.feedback[j].(applied := Some(number))],
                                   revisions := lesson.revisions + [Revision(number, body)]);
            LessonValid(revised) && !HasPending(revised)
  {
    assert IsPending(lesson.feedback[j]);
    var number := |lesson.revisions| + 1;
    var revised := lesson.(feedback := lesson.feedback[j := lesson.feedback[j].(applied := Some(number))],
                           revisions := lesson.revisions + [Revision(number, body)]);
    forall i | 0 <= i < |lesson.feedback|
      ensures !IsPending(revised.feedback[i])
    {
      assert i != j ==> !IsPending(lesson.feedback[i]);
    }
  }

  /** A lesson can be completed when no feedback waits, and invalidated at any time. */
  lemma LessonEndAccepted(s: State, k: nat, at: string)
    requires Sound(s) && k < |s.lessons| && s.lessons[k].completedAt.None?
    requires s.status == TeachingOpen || s.status == TeachingFeedbackSaved
    ensures var t := s.(version := s.version + 1, status := QuestionOpen,
                        lessons := s.lessons[k := s.lessons[k].(completedAt := Some(at))]);
            && (s.status == TeachingOpen ==> Allowed(s, TeachingCompleted(s.lessons[k].id, at), t))
            && Allowed(s, TeachingInvalidated(s.lessons[k].id, at), t)
  {
    hide RecordsValid, Settled, FindLesson, LessonsValid, LessonValid;
    var ended := s.lessons[k].(completedAt := Some(at));
    var t := s.(version := s.version + 1, status := QuestionOpen, lessons := s.lessons[k := ended]);
    ActiveLesson(s, k);
    LessonAt(s, k);
    SameLesson(s.lessons[k], at);
    LessonReplaced(s, t, k);
    SameRecords(s, t);
  }

  lemma SameLesson(lesson: Lesson, at: string)
    requires LessonValid(lesson)
    ensures LessonValid(lesson.(completedAt := Some(at)))
  {
  }

  lemma TeachingRequestAccepted(s: State, question: string, version: nat, at: string)
    requires Sound(s) && s.status == QuestionOpen && s.current == Some(question) && version >= 1
    requires forall i :: 0 <= i < |s.requests| ==>
               s.requests[i].key != TeachingKey(s.session, question, version)
               && (s.requests[i].question, s.requests[i].version) != (question, version)
    ensures var request := TeachingRequest(question, version, at, TeachingKey(s.session, question, version));
            Allowed(s, TeachingRequested(request), s.(version := s.version + 1, requests := s.requests + [request]))
  {
    hide Settled, LessonValid, HasPending;
  }

  // ---- answer, grading, review ----

  lemma AnswerAccepted(s: State, answer: Attempt)
    requires Sound(s) && s.status == QuestionOpen && s.current == Some(answer.question)
    requires answer.hint <= 4 && 0.0 <= answer.confidence <= 1.0 && answer.review.None?
    requires answer.auto.Some? ==> answer.auto.value.selected == answer.response
    requires forall i :: 0 <= i < |s.attempts| ==> s.attempts[i].id != answer.id
    ensures Allowed(s, AnswerSubmitted(answer),
                    s.(version := s.version + 1, status := AnswerSaved, attempts := s.attempts + [answer]))
  {
    hide Settled, LessonValid, HasPending;
    var t := s.(version := s.version + 1, status := AnswerSaved, attempts := s.attempts + [answer]);
    assert t.attempts[..|s.attempts|] == s.attempts;
    assert t.attempts[|s.attempts|] == answer;
  }

  lemma LastIsFound(attempts: seq<Attempt>)
    requires attempts != []
    requires forall i, j :: 0 <= i < j < |attempts| ==> attempts[i].id != attempts[j].id
    ensures LastWithId(attempts, attempts[|attempts| - 1].id) == Some(attempts[|attempts| - 1])
    ensures FindAttempt(attempts, attempts[|attempts| - 1].id) == Some(|attempts| - 1)
  {
  }

  lemma GradingAccepted(s: State)
    requires Sound(s) && s.status == AnswerSaved
    ensures s.attempts != []
    ensures var a := s.attempts[|s.attempts| - 1];
            Allowed(s, GradingStarted(a.id, GradingKey(s.session, a.id, a.question, a.version)),
                    s.(version := s.version + 1, status := AgentReviewPending))
  {
    hide LessonValid, HasPending, LastWithId, FindAttempt;
    LastIsFound(s.attempts);
  }

  /** The attempt that waits takes any review of its confidence; a stale one drops the automatic result or keeps it. */
  lemma ReviewAccepted(s: State, evaluation: Review, auto: Option<AutoResult>)
    requires Sound(s) && (s.status == AnswerSaved || s.status == AgentReviewPending)
    ensures s.attempts != []
    ensures var last := |s.attempts| - 1;
            var a := s.attempts[last];
            evaluation.confidence == a.confidence && (auto == a.auto || (evaluation.stale && auto.None?)) ==>
              Allowed(s, AnswerReviewed(a.id, evaluation),
                      s.(version := s.version + 1, status := Reviewed,
                         attempts := s.attempts[last := a.(review := Some(evaluation), auto := auto)]))
  {
    hide LessonValid, HasPending, LastWithId, FindAttempt;
    var last := |s.attempts| - 1;
    var a := s.attempts[last];
    if evaluation.confidence == a.confidence && (auto == a.auto || (evaluation.stale && auto.None?)) {
      var reviewed := a.(review := Some(evaluation), auto := auto);
      var t := s.(version := s.version + 1, status := Reviewed, attempts := s.attempts[last := reviewed]);
      LastIsFound(t.attempts);
      assert ReviewAdded(a, reviewed, evaluation);
      assert RecordsValid(t);
    }
  }

  lemma HasAttempt(s: State)
    requires Sound(s) && (Awaiting(s.status) || s.status == Reviewed)
    ensures s.attempts != []
  {
  }

  // ---- going on ----

  /** The key of the last attempt has not been used. */
  lemma KeyIsNew(s: State)
    requires Sound(s) && s.status == Reviewed
    ensures s.attempts != [] && CurrentAttempt(s) == Some(s.attempts[|s.attempts| - 1])
    ensures ContinueKeyOf(s.session, s.attempts[|s.attempts| - 1]) !in s.consumed
  {
    hide LessonsValid;
    CurrentIsLast(s);
  }

  lemma ConsumedMore(s: State, t: State, key: Key)
    requires RecordsValid(s) && key !in s.consumed
    requires t.consumed == s.consumed + [key] && t.requests == s.requests && t.attempts == s.attempts
    ensures RecordsValid(t)
  {
  }

  /** From a reviewed answer the session goes on under the key of that answer: with another turn on the question, */
  lemma TurnAccepted(s: State)
    requires Sound(s) && s.status == Reviewed
    ensures s.attempts != []
    ensures var a := s.attempts[|s.attempts| - 1];
            var key := ContinueKey(s.session, a.id, a.question, a.version);
            Allowed(s, SocraticTurn(key),
                    s.(version := s.version + 1, status := QuestionOpen, consumed := s.consumed + [key]))
  {
    hide RecordsValid, LessonValid, HasPending, Settled, CurrentAttempt;
    KeyIsNew(s);
    var a := s.attempts[|s.attempts| - 1];
    var key := ContinueKey(s.session, a.id, a.question, a.version);
    ConsumedMore(s, s.(version := s.version + 1, status := QuestionOpen, consumed := s.consumed + [key]), key);
  }

  /** with the next question while there is one, */
  lemma NextQuestionAccepted(s: State, question: string)
    requires Sound(s) && s.status == Reviewed && s.index + 1 < s.total
    ensures s.attempts != []
    ensures var a := s.attempts[|s.attempts| - 1];
            var key := ContinueKey(s.session, a.id, a.question, a.version);
            Allowed(s, QuestionPresented(question, key),
                    s.(version := s.version + 1, status := QuestionOpen, index := s.index + 1,
                       current := Some(question), consumed := s.consumed + [key]))
  {
    hide RecordsValid, LessonValid, HasPending, Settled, CurrentAttempt;
    KeyIsNew(s);
    var a := s.attempts[|s.attempts| - 1];
    var key := ContinueKey(s.session, a.id, a.question, a.version);
    ConsumedMore(s, s.(version := s.version + 1, status := QuestionOpen, index := s.index + 1,
                       current := Some(question), consumed := s.consumed + [key]), key);
  }

  /** and with the end when there is none. */
  lemma EndAccepted(s: State, at: Option<string>)
    requires Sound(s) && s.status == Reviewed && s.index + 1 == s.total
    ensures s.attempts != []
    ensures var a := s.attempts[|s.attempts| - 1];
            var key := ContinueKey(s.session, a.id, a.question, a.version);
            Allowed(s, SessionEnded(key),
                    s.(version := s.version + 1, status := Completed, index := s.index + 1, current := None,
                       completedAt := at, consumed := s.consumed + [key]))
  {
    hide RecordsValid, LessonValid, HasPending, Settled, CurrentAttempt;
    KeyIsNew(s);
    var a := s.attempts[|s.attempts| - 1];
    var key := ContinueKey(s.session, a.id, a.question, a.version);
    ConsumedMore(s, s.(version := s.version + 1, status := Completed, index := s.index + 1, current := None,
                       completedAt := at, consumed := s.consumed + [key]), key);
  }

  // ---- nothing else is accepted ----

  /** The lesson that an accepted change names by its id is the active one. */
  ghost predicate LessonBecomes(s: State, t: State, id: string, lesson: Lesson, later: Lesson) {
    exists k :: 0 <= k < |s.lessons| && s.lessons[k] == lesson && lesson.id == id && lesson.completedAt.None?
                && t.lessons == s.lessons[k := later]
  }

  /** What an accepted teaching change is. */
  lemma TeachingIs(s: State, payload: Payload, t: State)
    requires Sound(s) && Allowed(s, payload, t)
    ensures match payload
            case TeachingStarted(lesson) =>
              && s.current == Some(lesson.question) && lesson.completedAt.None? && lesson.feedback == []
              && |lesson.revisions| == 1 && lesson.revisions[0].number == 1 && t.lessons == s.lessons + [lesson]
            case FeedbackSubmitted(id, feedback) =>
              exists lesson: Lesson :: LessonBecomes(s, t, id, lesson, lesson.(feedback := lesson.feedback + [feedback]))
                               && feedback.base == |lesson.revisions| && feedback.applied.None?
            case TeachingRevised(id, feedbackId, revision) =>
              exists lesson: Lesson, j: nat :: j < |lesson.feedback| && lesson.feedback[j].id == feedbackId
                && lesson.feedback[j].applied.None? && revision.number == |lesson.revisions| + 1
                && LessonBecomes(s, t, id, lesson,
                                 lesson.(feedback := lesson.feedback[j := lesson.feedback[j].(applied := Some(revision.number))],
                                         revisions := lesson.revisions + [revision]))
            case TeachingCompleted(id, at) =>
              exists lesson: Lesson :: LessonBecomes(s, t, id, lesson, lesson.(completedAt := Some(at)))
            case TeachingInvalidated(id, at) =>
              exists lesson: Lesson :: LessonBecomes(s, t, id, lesson, lesson.(completedAt := Some(at)))
            case TeachingRequested(request) =>
              && s.current == Some(request.question) && request.version >= 1
              && request.key == TeachingKey(s.session, request.question, request.version)
              && t.requests == s.requests + [request]
            case _ => true
  {
    hide Settled, RecordsValid, HasPending, FindFeedback, FindLesson, LastWithId, FindAttempt, KeyConsumed, ReviewAdded;
    match payload
    case FeedbackSubmitted(id, feedback) =>
      var lesson := s.lessons[FindLesson(s.lessons, id).value];
      assert LessonBecomes(s, t, id, lesson, lesson.(feedback := lesson.feedback + [feedback]));
    case TeachingRevised(id, feedbackId, revision) =>
      var lesson := s.lessons[FindLesson(s.lessons, id).value];
      var j := FindFeedback(lesson.feedback, feedbackId).value;
      assert LessonBecomes(s, t, id, lesson,
                           lesson.(feedback := lesson.feedback[j := lesson.feedback[j].(applied := Some(revision.number))],
                                   revisions := lesson.revisions + [revision]));
    case TeachingCompleted(id, at) => EndedIs(s, id, at, t);
    case TeachingInvalidated(id, at) => EndedIs(s, id, at, t);
    case _ =>
  }

  lemma EndedIs(s: State, id: string, at: string, t: State)
    requires LessonsValid(s) && LessonsValid(t) && Teaching(s.status) && ValidLessonEnd(s, id, at, t)
    ensures exists lesson: Lesson :: LessonBecomes(s, t, id, lesson, lesson.(completedAt := Some(at)))
  {
    hide LessonValid, HasPending;
    var k := FindLesson(s.lessons, id).value;
    hide FindLesson;
    var i :| 0 <= i < |s.lessons| && IsActive(s.lessons[i]);
    assert !IsActive(t.lessons[i]);
    assert k == i;
    assert LessonBecomes(s, t, id, s.lessons[k], s.lessons[k].(completedAt := Some(at)));
  }

  /** What an accepted answer, grading, review or continuation is: it concerns the last attempt, under its own keys. */
  lemma AnsweringIs(s: State, payload: Payload, t: State)
    requires Sound(s) && Allowed(s, payload, t)
    ensures payload.AnswerSubmitted? ==>
              && s.current == Some(payload.answer.question) && payload.answer.hint <= 4
              && 0.0 <= payload.answer.confidence <= 1.0
              && |t.attempts| == |s.attempts| + 1 && t.attempts[..|s.attempts|] == s.attempts
              && t.attempts[|s.attempts|] == payload.answer.(auto := t.attempts[|s.attempts|].auto, review := None)
    ensures !payload.AnswerSubmitted? && !IsTeaching(payload) ==> s.attempts != []
    ensures payload.GradingStarted? ==>
              var a := s.attempts[|s.attempts| - 1];
              payload.attemptId == a.id && payload.key == GradingKey(s.session, a.id, a.question, a.version)
              && t.attempts == s.attempts
    ensures payload.AnswerReviewed? ==>
              var last := |s.attempts| - 1;
              && |t.attempts| == |s.attempts| && payload.attemptId == t.attempts[last].id
              && t.attempts[last].review == Some(payload.evaluation)
              && payload.evaluation.confidence == s.attempts[last].confidence
              && (forall i :: 0 <= i < last ==> t.attempts[i] == s.attempts[i])
    ensures payload.SocraticTurn? || payload.QuestionPresented? || payload.SessionEnded? ==>
              var a := s.attempts[|s.attempts| - 1];
              payload.key == ContinueKey(s.session, a.id, a.question, a.version) && t.consumed == s.consumed + [payload.key]
              && payload.key !in s.consumed && t.attempts == s.attempts
    ensures payload.SocraticTurn? ==> t.index == s.index && t.current == s.current
    ensures payload.QuestionPresented? ==> t.index == s.index + 1 && t.current == Some(payload.question)
    ensures payload.SessionEnded? ==> t.index == s.index + 1 == s.total && t.current == None
  {
    hide LessonsValid, FindFeedback, FindLesson, LastWithId, FindAttempt;
    match payload
    case GradingStarted(attemptId, key) => GradedIs(s, attemptId, key, t);
    case AnswerReviewed(attemptId, evaluation) => ReviewSettles(s, attemptId, evaluation, t);
    case SocraticTurn(key) => CurrentIsLast(s);
    case QuestionPresented(question, key) => CurrentIsLast(s);
    case SessionEnded(key) => CurrentIsLast(s);
    case _ =>
  }

  lemma GradedIs(s: State, attemptId: string, key: Key, t: State)
    requires Sound(s) && ValidGradingStarted(s, attemptId, key, t)
    ensures s.attempts != [] && attemptId == s.attempts[|s.attempts| - 1].id
    ensures LastWithId(s.attempts, attemptId) == Some(s.attempts[|s.attempts| - 1])
  {
    hide LessonsValid;
    FoundById(s.attempts, attemptId);
    LastIsFound(s.attempts);
  }

  lemma {:induction false} FoundById(attempts: seq<Attempt>, id: string)
    ensures var found := LastWithId(attempts, id);
            found.Some? ==> found.value in attempts && found.value.id == id
  {
    if attempts != [] && attempts[|attempts| - 1].id != id {
      FoundById(attempts[..|attempts| - 1], id);
    }
  }

  // ---- whole sessions ----

  /** The types of events. */
  datatype Kind = Start | Lesson | Told | Revised | Done | Asked | Answer | Grading | Verdict | Turn | Next | End | Dropped

  function KindOf(payload: Payload): Kind {
    match payload
    case SessionStarted => Start
    case TeachingStarted(_) => Kind.Lesson
    case FeedbackSubmitted(_, _) => Told
    case TeachingRevised(_, _, _) => Revised
    case TeachingCompleted(_, _) => Done
    case TeachingInvalidated(_, _) => Dropped
    case TeachingRequested(_) => Asked
    case AnswerSubmitted(_) => Answer
    case GradingStarted(_, _) => Grading
    case AnswerReviewed(_, _) => Verdict
    case SocraticTurn(_) => Turn
    case QuestionPresented(_, _) => Next
    case SessionEnded(_) => End
  }

  function Kinds(chain: seq<Event>): (kinds: seq<Kind>)
    ensures |kinds| == |chain|
  {
    seq(|chain|, i requires 0 <= i < |chain| => KindOf(chain[i].payload))
  }

  /** A chain of the session, from its start, and the state it has come to. */
  ghost predicate Reaches(session: string, chain: seq<Event>, s: State) {
    chain != [] && ValidChain(session, chain) && chain[|chain| - 1].after == s
  }

  lemma ReachedIsSound(session: string, chain: seq<Event>, s: State)
    requires Reaches(session, chain, s)
    ensures Sound(s) && s.session == session && s.version == |chain|
  {
    hide Materialized, Settled, ValidTransition, PayloadValid, ValidStart;
    ChainSettles(session, chain, |chain| - 1);
    assert EventFits(session, chain, |chain| - 1);
    SessionOf(s, session);
  }

  lemma SessionOf(s: State, session: string)
    requires Materialized(s, session)
    ensures s.session == session
  {
  }

  /** An allowed change extends the chain. */
  lemma Step(session: string, chain: seq<Event>, s: State, payload: Payload, t: State) returns (longer: seq<Event>)
    requires Reaches(session, chain, s) && Allowed(s, payload, t) && t.version == s.version + 1
    ensures Reaches(session, longer, t) && Sound(t) && t.session == session
    ensures chain <= longer && |longer| == |chain| + 1 && longer[|chain|].payload == payload
    ensures Kinds(longer) == Kinds(chain) + [KindOf(payload)]
  {
    hide Materialized, Settled, ValidTransition, PayloadValid, ValidStart, Sound, KindOf;
    ReachedIsSound(session, chain, s);
    var event := Event(|chain| + 1, session, |chain|, |chain| + 1, payload, t);
    longer := chain + [event];
    SessionKept(s, payload, t);
    forall i | 0 <= i < |longer|
      ensures EventFits(session, longer, i)
    {
      assert i < |chain| ==> EventFits(session, chain, i);
    }
    ReachedIsSound(session, longer, t);
  }

  lemma SessionKept(s: State, payload: Payload, t: State)
    requires ValidTransition(s, payload, t)
    ensures t.session == s.session
  {
    hide FindLesson, FindFeedback, FindAttempt, LastWithId, KeyConsumed, ReviewAdded;
  }

  /** Any session with a question can be started. */
  lemma Started(session: string, question: string, total: nat) returns (chain: seq<Event>, s: State)
    requires total >= 1
    ensures s == State(session, 1, QuestionOpen, 0, Some(question), total, [], [], [], [], None)
    ensures Reaches(session, chain, s) && Sound(s) && |chain| == 1 && chain[0].payload == SessionStarted
    ensures Kinds(chain) == [Start]
  {
    s := State(session, 1, QuestionOpen, 0, Some(question), total, [], [], [], [], None);
    chain := [Event(1, session, 0, 1, SessionStarted, s)];
    assert EventFits(session, chain, 0);
    ReachedIsSound(session, chain, s);
  }

  function Longest(attempts: seq<Attempt>): nat
    ensures forall i :: 0 <= i < |attempts| ==> |attempts[i].id| <= Longest(attempts)
  {
    if attempts == [] then 0
    else
      var rest := Longest(attempts[..|attempts| - 1]);
      if |attempts[|attempts| - 1].id| > rest then |attempts[|attempts| - 1].id| else rest
  }

  /** An id that no attempt has. */
  function NewId(attempts: seq<Attempt>): (id: string)
    ensures forall i :: 0 <= i < |attempts| ==> attempts[i].id != id
  {
    seq(Longest(attempts) + 1, _ => 'a')
  }

  function Rank(status: Status): nat {
    match status
    case Completed => 0
    case Reviewed => 1
    case AgentReviewPending => 2
    case AnswerSaved => 2
    case QuestionOpen => 3
    case TeachingOpen => 4
    case TeachingFeedbackSaved => 4
  }

  /** No session is ever stuck: from every point of every accepted chain there is a way to the end. */
  lemma {:induction false} CanEnd(session: string, chain: seq<Event>, s: State) returns (whole: seq<Event>, end: State)
    requires Reaches(session, chain, s)
    ensures chain <= whole && Reaches(session, whole, end) && end.status == Completed
    decreases s.total - s.index, Rank(s.status)
  {
    hide Sound, Allowed, Reaches;
    ReachedIsSound(session, chain, s);
    PositionOf(s);
    if s.status == Completed {
      whole, end := chain, s;
    } else {
      var longer, t := Forward(session, chain, s);
      whole, end := CanEnd(session, longer, t);
    }
  }

  lemma PositionOf(s: State)
    requires Sound(s)
    ensures s.status != Completed ==> s.index < s.total && s.current.Some?
    ensures Teaching(s.status) ==> exists k :: 0 <= k < |s.lessons| && s.lessons[k].completedAt.None?
  {
    hide LessonValid, HasPending, RecordsValid, Settled;
    if Teaching(s.status) {
      var k :| 0 <= k < |s.lessons| && IsActive(s.lessons[k]);
    }
  }

  /** One step towards the end. */
  lemma Forward(session: string, chain: seq<Event>, s: State) returns (longer: seq<Event>, t: State)
    requires Reaches(session, chain, s) && s.status != Completed
    ensures chain <= longer && Reaches(session, longer, t) && t.total == s.total && t.index <= t.total
    ensures t.index > s.index || (t.index == s.index && Rank(t.status) < Rank(s.status))
  {
    hide Sound, Allowed, Reaches;
    ReachedIsSound(session, chain, s);
    PositionOf(s);
    match s.status {
      case TeachingOpen =>
        var k: nat :| k < |s.lessons| && s.lessons[k].completedAt.None?;
        LessonEndAccepted(s, k, "");
        t := s.(version := s.version + 1, status := QuestionOpen,
                lessons := s.lessons[k := s.lessons[k].(completedAt := Some(""))]);
        longer := Step(session, chain, s, TeachingInvalidated(s.lessons[k].id, ""), t);
      case TeachingFeedbackSaved =>
        var k: nat :| k < |s.lessons| && s.lessons[k].completedAt.None?;
        LessonEndAccepted(s, k, "");
        t := s.(version := s.version + 1, status := QuestionOpen,
                lessons := s.lessons[k := s.lessons[k].(completedAt := Some(""))]);
        longer := Step(session, chain, s, TeachingInvalidated(s.lessons[k].id, ""), t);
      case QuestionOpen =>
        var answer := Attempt(NewId(s.attempts), s.current.value, 1, "", "", 0.0, "", "", 0, None, None);
        AnswerAccepted(s, answer);
        t := s.(version := s.version + 1, status := AnswerSaved, attempts := s.attempts + [answer]);
        longer := Step(session, chain, s, AnswerSubmitted(answer), t);
      case AnswerSaved =>
        longer, t := AddReview(session, chain, s);
      case AgentReviewPending =>
        longer, t := AddReview(session, chain, s);
      case Reviewed =>
        longer, t := GoOn(session, chain, s);
    }
  }

  lemma AddReview(session: string, chain: seq<Event>, s: State) returns (longer: seq<Event>, t: State)
    requires Reaches(session, chain, s) && (s.status == AnswerSaved || s.status == AgentReviewPending)
    ensures chain <= longer && Reaches(session, longer, t) && t.total == s.total && t.index == s.index
    ensures t.status == Reviewed
  {
    hide Sound, Allowed, Reaches;
    ReachedIsSound(session, chain, s);
    HasAttempt(s);
    var a := s.attempts[|s.attempts| - 1];
    var evaluation := Review(false, a.confidence, "");
    ReviewAccepted(s, evaluation, a.auto);
    t := s.(version := s.version + 1, status := Reviewed,
            attempts := s.attempts[|s.attempts| - 1 := a.(review := Some(evaluation), auto := a.auto)]);
    longer := Step(session, chain, s, AnswerReviewed(a.id, evaluation), t);
  }

  lemma GoOn(session: string, chain: seq<Event>, s: State) returns (longer: seq<Event>, t: State)
    requires Reaches(session, chain, s) && s.status == Reviewed
    ensures chain <= longer && Reaches(session, longer, t) && t.total == s.total && s.index < t.index <= t.total
  {
    hide Sound, Allowed, Reaches;
    ReachedIsSound(session, chain, s);
    PositionOf(s);
    HasAttempt(s);
    var a := s.attempts[|s.attempts| - 1];
    var key := ContinueKey(s.session, a.id, a.question, a.version);
    if s.index + 1 < s.total {
      NextQuestionAccepted(s, "");
      t := s.(version := s.version + 1, status := QuestionOpen, index := s.index + 1, current := Some(""),
              consumed := s.consumed + [key]);
      longer := Step(session, chain, s, QuestionPresented("", key), t);
    } else {
      EndAccepted(s, None);
      t := s.(version := s.version + 1, status := Completed, index := s.index + 1, current := None,
              completedAt := None, consumed := s.consumed + [key]);
      longer := Step(session, chain, s, SessionEnded(key), t);
    }
  }

  // ---- one session with every kind of event ----

  /** A lesson is given, gets feedback, is revised and completed. */
  lemma Teach(session: string, chain: seq<Event>, s: State, lesson: Lesson, feedback: Feedback, body: string, at: string)
    returns (longer: seq<Event>, t: State)
    requires Reaches(session, chain, s) && s.status == QuestionOpen && s.current == Some(lesson.question)
    requires lesson.version >= 1 && lesson.completedAt.None? && lesson.feedback == []
    requires |lesson.revisions| == 1 && lesson.revisions[0].number == 1
    requires forall i :: 0 <= i < |s.lessons| ==> s.lessons[i].id != lesson.id
    requires feedback.base == 1 && feedback.applied.None?
    ensures chain <= longer && |longer| == |chain| + 4 && Reaches(session, longer, t)
    ensures longer[|chain|].payload == TeachingStarted(lesson)
    ensures longer[|chain| + 1].payload == FeedbackSubmitted(lesson.id, feedback)
    ensures longer[|chain| + 2].payload == TeachingRevised(lesson.id, feedback.id, Revision(2, body))
    ensures longer[|chain| + 3].payload == TeachingCompleted(lesson.id, at)
    ensures Kinds(longer) == Kinds(chain) + [Kind.Lesson, Told, Revised, Done]
    ensures t == s.(version := s.version + 4,
                    lessons := s.lessons + [lesson.(revisions := lesson.revisions + [Revision(2, body)],
                                                    feedback := [feedback.(applied := Some(2))], completedAt := Some(at))])
  {
    hide Sound, Allowed, Reaches;
    ReachedIsSound(session, chain, s);
    var k := |s.lessons|;
    TeachingStartAccepted(s, lesson);
    var s1 := s.(version := s.version + 1, status := TeachingOpen, lessons := s.lessons + [lesson]);
    var c1 := Step(session, chain, s, TeachingStarted(lesson), s1);
    assert s1.lessons[k] == lesson;
    FeedbackAccepted(s1, k, feedback);
    var told := lesson.(feedback := lesson.feedback + [feedback]);
    var s2 := s1.(version := s1.version + 1, status := TeachingFeedbackSaved, lessons := s1.lessons[k := told]);
    var c2 := Step(session, c1, s1, FeedbackSubmitted(lesson.id, feedback), s2);
    RevisionAccepted(s2, k, 0, body);
    var revised := told.(feedback := told.feedback[0 := told.feedback[0].(applied := Some(2))],
                         revisions := told.revisions + [Revision(2, body)]);
    var s3 := s2.(version := s2.version + 1, status := TeachingOpen, lessons := s2.lessons[k := revised]);
    var c3 := Step(session, c2, s2, TeachingRevised(lesson.id, feedback.id, Revision(2, body)), s3);
    LessonEndAccepted(s3, k, at);
    t := s3.(version := s3.version + 1, status := QuestionOpen,
             lessons := s3.lessons[k := revised.(completedAt := Some(at))]);
    longer := Step(session, c3, s3, TeachingCompleted(lesson.id, at), t);
    assert told.feedback == [feedback] && revised.feedback == [feedback.(applied := Some(2))];
    assert t.lessons == s.lessons + [revised.(completedAt := Some(at))];
    assert t.lessons == s.lessons + [lesson.(revisions := lesson.revisions + [Revision(2, body)],
                                             feedback := [feedback.(applied := Some(2))], completedAt := Some(at))];
  }

  /** An answer is given, graded and reviewed. */
  lemma AnswerAndReview(session: string, chain: seq<Event>, s: State, answer: Attempt, evaluation: Review)
    returns (longer: seq<Event>, t: State)
    requires Reaches(session, chain, s) && s.status == QuestionOpen && s.current == Some(answer.question)
    requires answer.hint <= 4 && 0.0 <= answer.confidence <= 1.0 && answer.review.None?
    requires answer.auto.Some? ==> answer.auto.value.selected == answer.response
    requires forall i :: 0 <= i < |s.attempts| ==> s.attempts[i].id != answer.id
    requires evaluation.confidence == answer.confidence
    ensures chain <= longer && |longer| == |chain| + 3 && Reaches(session, longer, t)
    ensures longer[|chain|].payload == AnswerSubmitted(answer)
    ensures longer[|chain| + 1].payload
            == GradingStarted(answer.id, GradingKey(session, answer.id, answer.question, answer.version))
    ensures longer[|chain| + 2].payload == AnswerReviewed(answer.id, evaluation)
    ensures Kinds(longer) == Kinds(chain) + [Answer, Grading, Verdict]
    ensures t == s.(version := s.version + 3, status := Reviewed,
                    attempts := s.attempts + [answer.(review := Some(evaluation))])
  {
    hide Sound, Allowed, Reaches;
    ReachedIsSound(session, chain, s);
    AnswerAccepted(s, answer);
    var s1 := s.(version := s.version + 1, status := AnswerSaved, attempts := s.attempts + [answer]);
    var c1 := Step(session, chain, s, AnswerSubmitted(answer), s1);
    GradingAccepted(s1);
    var s2 := s1.(version := s1.version + 1, status := AgentReviewPending);
    var c2 := Step(session, c1, s1, GradingStarted(answer.id, GradingKey(session, answer.id, answer.question, answer.version)),
                   s2);
    ReviewAccepted(s2, evaluation, answer.auto);
    t := s2.(version := s2.version + 1, status := Reviewed,
             attempts := s2.attempts[|s.attempts| := answer.(review := Some(evaluation), auto := answer.auto)]);
    longer := Step(session, c2, s2, AnswerReviewed(answer.id, evaluation), t);
    assert t.attempts == s.attempts + [answer.(review := Some(evaluation))];
  }

  function Reply(id: string, question: string): Attempt {
    Attempt(id, question, 1, "", "", 0.5, "", "", 0, None, None)
  }

  const VERDICT := Review(false, 0.5, "")

  /**
    A session of two questions with every kind of event but the invalidation of a lesson: taught, told, revised, another
    lesson asked for, answered twice with a turn in between, the next question, the end.
    */
  lemma WholeSession(session: string, first: string, second: string) returns (chain: seq<Event>, end: State)
    ensures Reaches(session, chain, end) && end.status == Completed && end.index == end.total == 2
    ensures Kinds(chain) == [Start, Kind.Lesson, Told, Revised, Done, Asked, Answer, Grading, Verdict, Turn,
                             Answer, Grading, Verdict, Next, Answer, Grading, Verdict, End]
  {
    hide Sound, Allowed, Reaches, Kinds;
    var c, s := Lectured(session, first);
    var c1, s1 := AnswerAndReview(session, c, s, Reply("a", first), VERDICT);
    chain, end := SecondHalf(session, c1, s1, first, second);
  }

  lemma Lectured(session: string, first: string) returns (chain: seq<Event>, s: State)
    ensures Reaches(session, chain, s) && s.status == QuestionOpen && s.current == Some(first)
    ensures s.index == 0 && s.total == 2 && s.attempts == []
    ensures Kinds(chain) == [Start, Kind.Lesson, Told, Revised, Done, Asked]
  {
    hide Sound, Allowed, Reaches, Kinds;
    var c0, s0 := Started(session, first, 2);
    var lesson := SessionChain.Lesson("l", first, 1, None, [Revision(1, "")], []);
    var c1, s1 := Teach(session, c0, s0, lesson, Feedback("f", 1, "", None), "", "");
    ReachedIsSound(session, c1, s1);
    TeachingRequestAccepted(s1, first, 1, "");
    var request := TeachingRequest(first, 1, "", TeachingKey(s1.session, first, 1));
    s := s1.(version := s1.version + 1, requests := s1.requests + [request]);
    chain := Step(session, c1, s1, TeachingRequested(request), s);
  }

  lemma SecondHalf(session: string, c: seq<Event>, s: State, first: string, second: string)
    returns (chain: seq<Event>, end: State)
    requires Reaches(session, c, s) && s.status == Reviewed && s.index == 0 && s.total == 2
    requires |s.attempts| == 1 && s.attempts[0].id == "a" && s.attempts[0].question == first && s.current == Some(first)
    ensures Reaches(session, chain, end) && end.status == Completed && end.index == end.total == 2
    ensures Kinds(chain) == Kinds(c) + [Turn, Answer, Grading, Verdict, Next, Answer, Grading, Verdict, End]
  {
    hide Sound, Allowed, Reaches, Kinds;
    ReachedIsSound(session, c, s);
    TurnAccepted(s);
    var a := s.attempts[0];
    var key := ContinueKey(session, a.id, a.question, a.version);
    var s4 := s.(version := s.version + 1, status := QuestionOpen, consumed := s.consumed + [key]);
    var c4 := Step(session, c, s, SocraticTurn(key), s4);
    var c5, s5 := AnswerAndReview(session, c4, s4, Reply("bb", first), VERDICT);
    ReachedIsSound(session, c5, s5);
    NextQuestionAccepted(s5, second);
    var key5 := ContinueKey(session, "bb", first, 1);
    var s6 := s5.(version := s5.version + 1, status := QuestionOpen, index := 1, current := Some(second),
                  consumed := s5.consumed + [key5]);
    var c6 := Step(session, c5, s5, QuestionPresented(second, key5), s6);
    var c7, s7 := AnswerAndReview(session, c6, s6, Reply("ccc", second), VERDICT);
    ReachedIsSound(session, c7, s7);
    EndAccepted(s7, None);
    var key7 := ContinueKey(session, "ccc", second, 1);
    end := s7.(version := s7.version + 1, status := Completed, index := 2, current := None, completedAt := None,
               consumed := s7.consumed + [key7]);
    chain := Step(session, c7, s7, SessionEnded(key7), end);
  }
}
