/**
  The quiz session as an event chain (xsync.py): every event carries the state after it, and a validator accepts an
  event only when that state is the one transition its type allows from the state before.
  */
module SessionChain {
  import opened Wrappers

  datatype Status = QuestionOpen | TeachingOpen | TeachingFeedbackSaved | AnswerSaved | AgentReviewPending | Reviewed
                  | Completed

  /** The idempotency keys of the source are hashes of exactly these parts. */
  datatype Key =
    | TeachingKey(session: string, question: string, version: nat)
    | GradingKey(session: string, attempt: string, question: string, version: nat)
    | ContinueKey(session: string, attempt: string, question: string, version: nat)

  datatype Review = Review(stale: bool, confidence: real, body: string)

  datatype AutoResult = AutoResult(correct: bool, selected: string)

  datatype Attempt = Attempt(id: string, question: string, version: nat, response: string, reason: string,
                             confidence: real, savedAt: string, evidence: string, hint: nat,
                             auto: Option<AutoResult>, review: Option<Review>)

  datatype Feedback = Feedback(id: string, base: nat, text: string, applied: Option<nat>)

  datatype Revision = Revision(number: nat, body: string)

  datatype Lesson = Lesson(id: string, question: string, version: nat, completedAt: Option<string>,
                           revisions: seq<Revision>, feedback: seq<Feedback>)

  datatype TeachingRequest = TeachingRequest(question: string, version: nat, requestedAt: string, key: Key)

  datatype State = State(session: string, version: nat, status: Status, index: nat, current: Option<string>, total: nat,
                         attempts: seq<Attempt>, requests: seq<TeachingRequest>, lessons: seq<Lesson>,
                         consumed: seq<Key>, completedAt: Option<string>)

  datatype Payload =
    | SessionStarted
    | TeachingStarted(lesson: Lesson)
    | FeedbackSubmitted(lessonId: string, feedback: Feedback)
    | TeachingRevised(lessonId: string, feedbackId: string, revision: Revision)
    | TeachingCompleted(lessonId: string, at: string)
    | TeachingInvalidated(lessonId: string, at: string)
    | TeachingRequested(request: TeachingRequest)
    | AnswerSubmitted(answer: Attempt)
    | GradingStarted(attemptId: string, key: Key)
    | AnswerReviewed(attemptId: string, evaluation: Review)
    | SocraticTurn(key: Key)
    | QuestionPresented(question: string, key: Key)
    | SessionEnded(key: Key)

  datatype Event = Event(sequence: nat, session: string, fromVersion: nat, toVersion: nat, payload: Payload, after: State)

  // ---- what a single state must satisfy ----

  predicate Distinct<T(==)>(items: seq<T>) {
    forall i, j :: 0 <= i < j < |items| ==> items[i] != items[j]
  }

  predicate IsActive(lesson: Lesson) { lesson.completedAt.None? }

  predicate IsPending(feedback: Feedback) { feedback.applied.None? }

  predicate LessonValid(lesson: Lesson) {
    && lesson.version >= 1 && lesson.revisions != []
    && (forall i :: 0 <= i < |lesson.revisions| ==> lesson.revisions[i].number == i + 1)
    && (forall i :: 0 <= i < |lesson.feedback| ==>
          1 <= lesson.feedback[i].base <= |lesson.revisions|
          && (lesson.feedback[i].applied.Some? ==>
                lesson.feedback[i].base < lesson.feedback[i].applied.value <= |lesson.revisions|))
    && (forall i, j :: 0 <= i < j < |lesson.feedback| ==>
          lesson.feedback[i].id != lesson.feedback[j].id
          && !(IsPending(lesson.feedback[i]) && IsPending(lesson.feedback[j])))
  }

  predicate HasPending(lesson: Lesson) {
    exists i :: 0 <= i < |lesson.feedback| && IsPending(lesson.feedback[i])
  }

  predicate Teaching(status: Status) { status == TeachingOpen || status == TeachingFeedbackSaved }

  predicate PositionValid(s: State) {
    && s.total >= 1 && s.version >= 1
    && (if s.status == Completed then s.current.None? && s.index == s.total else s.current.Some? && s.index < s.total)
  }

  predicate LessonsValid(s: State) {
    && (forall i :: 0 <= i < |s.lessons| ==> LessonValid(s.lessons[i]))
    && (forall i, j :: 0 <= i < j < |s.lessons| ==>
          s.lessons[i].id != s.lessons[j].id && !(IsActive(s.lessons[i]) && IsActive(s.lessons[j])))
    && (if Teaching(s.status) then
          exists i :: 0 <= i < |s.lessons| && IsActive(s.lessons[i]) && s.current == Some(s.lessons[i].question)
                      && (s.status == TeachingFeedbackSaved <==> HasPending(s.lessons[i]))
        else
          forall i :: 0 <= i < |s.lessons| ==> !IsActive(s.lessons[i]))
  }

  predicate RecordsValid(s: State) {
    && Distinct(s.consumed)
    && (forall i, j :: 0 <= i < j < |s.requests| ==>
          s.requests[i].key != s.requests[j].key
          && (s.requests[i].question, s.requests[i].version) != (s.requests[j].question, s.requests[j].version))
    && (forall i, j :: 0 <= i < j < |s.attempts| ==> s.attempts[i].id != s.attempts[j].id)
    && (forall i :: 0 <= i < |s.attempts| ==>
          s.attempts[i].auto.Some? ==> s.attempts[i].auto.value.selected == s.attempts[i].response)
  }

  predicate Materialized(s: State, session: string) {
    s.session == session && PositionValid(s) && LessonsValid(s) && RecordsValid(s)
  }

  predicate PayloadValid(payload: Payload) {
    match payload
    case TeachingStarted(lesson) =>
      LessonValid(lesson) && IsActive(lesson) && |lesson.revisions| == 1 && lesson.feedback == []
    case FeedbackSubmitted(lessonId, feedback) => feedback.base >= 1 && IsPending(feedback)
    case TeachingRevised(lessonId, feedbackId, revision) => revision.number >= 1
    case TeachingRequested(request) => request.version >= 1
    case AnswerSubmitted(answer) => answer.hint <= 4 && 0.0 <= answer.confidence <= 1.0
    case _ => true
  }

  // ---- transitions ----

  /** Everything but the version is as expected. */
  predicate Matches(expected: State, after: State) {
    after == expected.(version := after.version)
  }

  /** The last attempt at the current question. */
  function CurrentAttempt(s: State): Option<Attempt> {
    LastFor(s.attempts, s.current)
  }

  function LastFor(attempts: seq<Attempt>, current: Option<string>): Option<Attempt> {
    if attempts == [] then None
    else if Some(attempts[|attempts| - 1].question) == current then Some(attempts[|attempts| - 1])
    else LastFor(attempts[..|attempts| - 1], current)
  }

  function LastWithId(attempts: seq<Attempt>, id: string): Option<Attempt> {
    if attempts == [] then None
    else if attempts[|attempts| - 1].id == id then Some(attempts[|attempts| - 1])
    else LastWithId(attempts[..|attempts| - 1], id)
  }

  function ContinueKeyOf(session: string, attempt: Attempt): Key {
    ContinueKey(session, attempt.id, attempt.question, attempt.version)
  }

  predicate KeyConsumed(before: State, key: Key, after: State) {
    && CurrentAttempt(before).Some? && key == ContinueKeyOf(before.session, CurrentAttempt(before).value)
    && after.consumed == before.consumed + [key] && key !in before.consumed
  }

  function FindLesson(lessons: seq<Lesson>, id: string): (index: Option<nat>)
    ensures index.Some? ==> index.value < |lessons| && lessons[index.value].id == id
  {
    First(lessons, (lesson: Lesson) => lesson.id == id)
  }

  function FindFeedback(feedback: seq<Feedback>, id: string): (index: Option<nat>)
    ensures index.Some? ==> index.value < |feedback| && feedback[index.value].id == id
  {
    First(feedback, (item: Feedback) => item.id == id)
  }

  function FindAttempt(attempts: seq<Attempt>, id: string): (index: Option<nat>)
    ensures index.Some? ==> index.value < |attempts| && attempts[index.value].id == id
  {
    First(attempts, (attempt: Attempt) => attempt.id == id)
  }

  predicate ValidStart(payload: Payload, after: State) {
    && payload.SessionStarted? && after.status == QuestionOpen && after.index == 0 && after.attempts == []
    && after.requests == [] && after.lessons == [] && after.consumed == []
  }

  predicate ValidTeachingStarted(before: State, lesson: Lesson, after: State) {
    && before.status == QuestionOpen && before.current == Some(lesson.question)
    && Matches(before.(status := TeachingOpen, lessons := before.lessons + [lesson]), after)
  }

  predicate ValidFeedback(before: State, lessonId: string, feedback: Feedback, after: State) {
    var found := FindLesson(before.lessons, lessonId);
    && before.status == TeachingOpen && found.Some?
    && (var lesson := before.lessons[found.value];
        && IsActive(lesson) && feedback.base == |lesson.revisions|
        && Matches(before.(status := TeachingFeedbackSaved,
                           lessons := before.lessons[found.value := lesson.(feedback := lesson.feedback + [feedback])]),
                   after))
  }

  predicate ValidRevised(before: State, lessonId: string, feedbackId: string, revision: Revision, after: State) {
    var found := FindLesson(before.lessons, lessonId);
    && before.status == TeachingFeedbackSaved && found.Some?
    && (var lesson := before.lessons[found.value];
        var item := FindFeedback(lesson.feedback, feedbackId);
        && IsActive(lesson) && item.Some? && IsPending(lesson.feedback[item.value])
        && revision.number == |lesson.revisions| + 1
        && (var applied := lesson.feedback[item.value].(applied := Some(revision.number));
            var revised := lesson.(feedback := lesson.feedback[item.value := applied],
                                   revisions := lesson.revisions + [revision]);
            Matches(before.(status := TeachingOpen, lessons := before.lessons[found.value := revised]), after)))
  }

  predicate ValidLessonEnd(before: State, lessonId: string, at: string, after: State) {
    var found := FindLesson(before.lessons, lessonId);
    && found.Some?
    && Matches(before.(status := QuestionOpen,
                       lessons := before.lessons[found.value := before.lessons[found.value].(completedAt := Some(at))]),
               after)
  }

  predicate ValidTeachingCompleted(before: State, lessonId: string, at: string, after: State) {
    && before.status == TeachingOpen && ValidLessonEnd(before, lessonId, at, after)
    && !HasPending(before.lessons[FindLesson(before.lessons, lessonId).value])
  }

  predicate ValidTeachingInvalidated(before: State, lessonId: string, at: string, after: State) {
    && Teaching(before.status) && ValidLessonEnd(before, lessonId, at, after)
    && before.current == Some(before.lessons[FindLesson(before.lessons, lessonId).value].question)
  }

  predicate ValidTeachingRequested(before: State, request: TeachingRequest, after: State) {
    && before.status == QuestionOpen && before.current == Some(request.question)
    && request.key == TeachingKey(before.session, request.question, request.version)
    && Matches(before.(requests := before.requests + [request]), after)
  }

  /** The payload of a submission says everything of the new attempt but its automatic result. */
  predicate ValidAnswer(before: State, answer: Attempt, after: State) {
    && before.status == QuestionOpen && before.current == Some(answer.question)
    && |after.attempts| == |before.attempts| + 1 && after.attempts[..|before.attempts|] == before.attempts
    && (var added := after.attempts[|before.attempts|];
        && added == answer.(auto := added.auto, review := None)
        && (added.auto.Some? ==> added.auto.value.selected == added.response))
    && Matches(before.(status := AnswerSaved, attempts := after.attempts), after)
  }

  predicate ValidGradingStarted(before: State, attemptId: string, key: Key, after: State) {
    var pending := LastWithId(before.attempts, attemptId);
    && before.status == AnswerSaved && pending.Some? && pending.value.review.None?
    && before.current == Some(pending.value.question)
    && key == GradingKey(before.session, pending.value.id, pending.value.question, pending.value.version)
    && Matches(before.(status := AgentReviewPending), after)
  }

  /** A stale review may drop the automatic result; otherwise the attempt only gains its review. */
  predicate ReviewAdded(before: Attempt, after: Attempt, evaluation: Review) {
    && before.review.None? && after.review == Some(evaluation) && evaluation.confidence == before.confidence
    && after.(review := None, auto := if evaluation.stale then None else after.auto)
       == before.(auto := if evaluation.stale then None else before.auto)
  }

  predicate ValidReviewed(before: State, attemptId: string, evaluation: Review, after: State) {
    var target := FindAttempt(after.attempts, attemptId);
    && (before.status == AnswerSaved || before.status == AgentReviewPending)
    && |after.attempts| == |before.attempts| && target.Some?
    && ReviewAdded(before.attempts[target.value], after.attempts[target.value], evaluation)
    && (forall i :: 0 <= i < |before.attempts| && i != target.value ==> after.attempts[i] == before.attempts[i])
    && Matches(before.(status := Reviewed, attempts := after.attempts), after)
  }

  predicate ValidContinue(before: State, key: Key, after: State) {
    before.status == Reviewed && KeyConsumed(before, key, after)
  }

  predicate ValidTransition(before: State, payload: Payload, after: State) {
    match payload
    case SessionStarted => false
    case TeachingStarted(lesson) => ValidTeachingStarted(before, lesson, after)
    case FeedbackSubmitted(lessonId, feedback) => ValidFeedback(before, lessonId, feedback, after)
    case TeachingRevised(lessonId, feedbackId, revision) => ValidRevised(before, lessonId, feedbackId, revision, after)
    case TeachingCompleted(lessonId, at) => ValidTeachingCompleted(before, lessonId, at, after)
    case TeachingInvalidated(lessonId, at) => ValidTeachingInvalidated(before, lessonId, at, after)
    case TeachingRequested(request) => ValidTeachingRequested(before, request, after)
    case AnswerSubmitted(answer) => ValidAnswer(before, answer, after)
    case GradingStarted(attemptId, key) => ValidGradingStarted(before, attemptId, key, after)
    case AnswerReviewed(attemptId, evaluation) => ValidReviewed(before, attemptId, evaluation, after)
    case SocraticTurn(key) =>
      ValidContinue(before, key, after)
      && Matches(before.(status := QuestionOpen, consumed := after.consumed), after)
    case QuestionPresented(question, key) =>
      ValidContinue(before, key, after)
      && Matches(before.(status := QuestionOpen, index := before.index + 1, current := Some(question),
                         consumed := after.consumed), after)
    case SessionEnded(key) =>
      ValidContinue(before, key, after)
      && Matches(before.(status := Completed, index := before.index + 1, current := None,
                         completedAt := after.completedAt, consumed := after.consumed), after)
  }

  /** The event chain takes the change. */
  predicate Allowed(before: State, payload: Payload, after: State) {
    Materialized(after, after.session) && PayloadValid(payload) && ValidTransition(before, payload, after)
  }

  // ---- chains ----

  predicate EventFits(session: string, chain: seq<Event>, i: nat)
    requires i < |chain|
  {
    var event := chain[i];
    && event.sequence == i + 1 && event.session == session && event.fromVersion == i && event.toVersion == i + 1
    && event.after.version == i + 1 && Materialized(event.after, session) && PayloadValid(event.payload)
    && (if i == 0 then ValidStart(event.payload, event.after)
        else ValidTransition(chain[i - 1].after, event.payload, event.after))
  }

  predicate ValidChain(session: string, chain: seq<Event>) {
    forall i :: 0 <= i < |chain| ==> EventFits(session, chain, i)
  }
}
