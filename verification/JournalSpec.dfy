/**
  The leased work journal (probe.py, class Journal) as a state machine on values: what each call does to the
  journal's records and what it answers. Time, fresh claim ids and fresh submission handles are inputs.
  */
module JournalSpec {
  import opened Wrappers

  datatype Lease = Lease(claim: string, owner: string, version: nat, generation: nat, epoch: string, expires: real)

  datatype WorkState = Queued | Leased | Completed | Superseded

  /** `id` is the number in the source's work identifier. */
  datatype Work = Work(id: nat, request: string, round: Option<string>, text: string, state: WorkState,
                       handle: Option<string>, generation: nat, lease: Option<Lease>, renewals: nat,
                       result: Option<string>)

  datatype Mode = Active | Paused | Switched

  datatype Event = Event(sequence: nat, kind: string, state: string, work: Option<nat>, deliver: bool)

  datatype QuestionState = Awaiting | Answered | Cancelled

  datatype Question = Question(round: string, text: string, request: string, state: QuestionState,
                               answerRequest: Option<string>, answer: Option<string>, work: Option<nat>,
                               control: Option<Mode>)

  /** What a submission must repeat of the lease it was given. */
  datatype Fence = Fence(owner: string, claim: string, version: nat, epoch: string, generation: nat)

  datatype Response = Response(sequence: nat, work: nat, key: string, result: string)

  datatype Receipt = Receipt(handle: string, fence: Fence, result: string, response: Response)

  /**
    The journal's dictionary. `shared` says that the current question is the very record in the question list; after
    a reload it is a separate copy, and changing one no longer changes the other.
    */
  datatype State = State(epoch: string, mode: Mode, works: seq<Work>, questions: seq<Question>,
                         current: Option<Question>, shared: bool, events: seq<Event>, receipts: map<string, Receipt>,
                         nextWork: nat, nextEvent: nat)

  datatype Error = IdempotencyConflict | ControlNotActive | StaleRound | QuestionAlreadyOpen | ValidationFailed
                 | LeaseExpired | LeaseFenced | InvalidSubmissionHandle | WorkSuperseded

  function Initial(epoch: string): State {
    State(epoch, Active, [], [], None, false, [], map[], 1, 1)
  }

  function Emit(s: State, kind: string, state: string, work: Option<nat>, deliver: bool): State {
    s.(events := s.events + [Event(s.nextEvent, kind, state, work, deliver)], nextEvent := s.nextEvent + 1)
  }

  // ---- passes over all works: expiry, release, restart, control ----

  datatype Pass = Expire(now: real) | Release(owner: string) | Restart | Supersede

  predicate Hits(pass: Pass, work: Work) {
    match pass
    case Expire(now) => work.state == Leased && work.lease.Some? && work.lease.value.expires <= now
    case Release(owner) => work.state == Leased && work.lease.Some? && work.lease.value.owner == owner
    case Restart => work.state == Leased
    case Supersede => work.state == Queued || work.state == Leased
  }

  function Dropped(pass: Pass, work: Work): Work {
    work.(state := if pass.Supersede? then Superseded else Queued, lease := None)
  }

  /** The pass over the first `count` works: each work it hits loses its lease and leaves a status event. */
  function PassTo(s: State, pass: Pass, status: string, count: nat): (t: State)
    requires count <= |s.works|
    ensures |t.works| == |s.works|
  {
    if count == 0 then s
    else
      var t := PassTo(s, pass, status, count - 1);
      if Hits(pass, t.works[count - 1]) then
        Emit(t.(works := t.works[count - 1 := Dropped(pass, t.works[count - 1])]),
             "status", status, Some(t.works[count - 1].id), true)
      else t
  }

  function PassAll(s: State, pass: Pass, status: string): State {
    PassTo(s, pass, status, |s.works|)
  }

  function Sweep(s: State, now: real): State {
    PassAll(s, Expire(now), "lease_expired")
  }

  // ---- searches ----

  predicate ByHandle(work: Work, handle: string) { work.handle == Some(handle) }

  predicate ByClaim(work: Work, claim: string) {
    work.state == Leased && work.lease.Some? && work.lease.value.claim == claim
  }

  // ---- work ----

  /** The answer is the index of the work that stands for the request. */
  function Enqueue(s: State, text: string, request: string, round: Option<string>): (r: (State, Result<nat, Error>))
    ensures r.1.Ok? ==> r.1.value < |r.0.works|
  {
    var found := First(s.works, (work: Work) => work.request == request);
    if found.Some? then
      if s.works[found.value].round == round && s.works[found.value].text == text
      then (s, Ok(found.value))
      else (s, Err(IdempotencyConflict))
    else if s.mode != Active then
      (s, Err(ControlNotActive))
    else
      var work := Work(s.nextWork, request, round, text, Queued, None, 0, None, 0, None);
      (Emit(s.(works := s.works + [work], nextWork := s.nextWork + 1), "work", "queued", Some(work.id), false),
       Ok(|s.works|))
  }

  /** The first queued work is leased under a new claim and a new handle. */
  function Claim(s: State, owner: string, seconds: real, now: real, claim: string, handle: string)
    : (State, Result<Option<nat>, Error>)
  {
    if seconds <= 0.0 then (s, Err(ValidationFailed))
    else if s.mode != Active then (s, Ok(None))
    else
      var found := First(s.works, (work: Work) => work.state == Queued);
      if found.None? then (s, Ok(None))
      else
        var work := s.works[found.value];
        var lease := Lease(claim, owner, 1, work.generation + 1, s.epoch, now + seconds);
        var leased := work.(generation := work.generation + 1, handle := Some(handle), state := Leased,
                            lease := Some(lease));
        (Emit(s.(works := s.works[found.value := leased]), "work", "leased", Some(work.id), false), Ok(found))
  }

  function ClaimNext(s: State, owner: string, seconds: real, now: real, claim: string, handle: string)
    : (State, Result<Option<nat>, Error>)
  {
    Claim(Sweep(s, now), owner, seconds, now, claim, handle)
  }

  function Renew(s: State, owner: string, claim: string, version: nat, seconds: real, now: real)
    : (State, Result<nat, Error>)
  {
    var t := Sweep(s, now);
    var found := First(t.works, (work: Work) => ByClaim(work, claim));
    if found.None? then (t, Err(LeaseExpired))
    else
      var work := t.works[found.value];
      var lease := work.lease.value;
      if lease.owner != owner || lease.epoch != t.epoch || lease.version != version then
        (t, Err(LeaseFenced))
      else
        var renewed := work.(lease := Some(lease.(version := lease.version + 1, expires := now + seconds)),
                             renewals := work.renewals + 1);
        (Emit(t.(works := t.works[found.value := renewed]), "lease", "renewed", Some(work.id), false),
         Ok(found.value))
  }

  function FenceOf(lease: Lease): Fence {
    Fence(lease.owner, lease.claim, lease.version, lease.epoch, lease.generation)
  }

  /** A new completion, a replayed receipt, or an error. */
  datatype Submitted = Done(response: Response) | Replayed(response: Response) | Rejected(error: Error)

  function Submit(s: State, handle: string, fence: Fence, key: string, result: string, now: real): (State, Submitted) {
    if key in s.receipts then
      var receipt := s.receipts[key];
      if receipt.handle != handle || receipt.fence != fence || receipt.result != result
      then (s, Rejected(IdempotencyConflict))
      else (s, Replayed(receipt.response))
    else
      var found := First(s.works, (work: Work) => ByHandle(work, handle));
      if found.None? then (s, Rejected(InvalidSubmissionHandle))
      else if s.works[found.value].state == Superseded then (s, Rejected(WorkSuperseded))
      else
        var t := Sweep(s, now);
        var work := t.works[found.value];
        if work.state != Leased || work.lease.None? then (t, Rejected(LeaseExpired))
        else if FenceOf(work.lease.value) != fence || fence.epoch != t.epoch then (t, Rejected(LeaseFenced))
        else
          var response := Response(t.nextEvent, work.id, key, result);
          var completed := work.(state := Completed, result := Some(result), lease := None);
          var u := Emit(t.(works := t.works[found.value := completed]), "status", "completed", Some(work.id), false);
          (u.(receipts := u.receipts[key := Receipt(handle, fence, result, response)]), Done(response))
  }

  function ReleaseOwner(s: State, owner: string, reason: string): State {
    PassAll(s, Release(owner), reason)
  }

  /** Reloading the journal: under another epoch every lease is dropped, and the current question becomes a copy. */
  function Reload(s: State, epoch: string): State {
    var t := s.(epoch := epoch, shared := false);
    if s.epoch != "" && s.epoch != epoch then PassAll(t, Restart, "requeued") else t
  }

  // ---- questions ----

  /** A change of the current question, which is also a change of the list while the two are one record. */
  function SetCurrent(s: State, question: Question): State {
    s.(current := Some(question),
       questions := if s.shared && s.questions != [] then s.questions[|s.questions| - 1 := question] else s.questions)
  }

  function Control(s: State, action: Mode): State {
    var t := s.(mode := action);
    var u := if t.current.Some? && t.current.value.state == Awaiting
             then SetCurrent(t, t.current.value.(state := Cancelled, control := Some(action)))
             else t;
    Emit(PassAll(u, Supersede, "superseded"), "status", if action == Paused then "pause" else "switch", None, true)
  }

  predicate SameOrigin(question: Question, round: string, request: string) {
    question.request == request || question.round == round
  }

  function PublishQuestion(s: State, round: string, text: string, request: string): (State, Result<Question, Error>) {
    var found := First(s.questions, (question: Question) => SameOrigin(question, round, request));
    if found.Some? then
      var recorded := s.questions[found.value];
      if recorded.request != request then (s, Err(StaleRound))
      else if recorded.round != round || recorded.text != text then (s, Err(IdempotencyConflict))
      else (s, Ok(recorded))
    else if s.current.Some? && s.current.value.state == Awaiting then
      (s, Err(QuestionAlreadyOpen))
    else
      var recorded := Question(round, text, request, Awaiting, None, None, None, None);
      (Emit(s.(questions := s.questions + [recorded], current := Some(recorded), shared := true),
            "question", "awaiting_answer", None, false),
       Ok(recorded))
  }

  /** The answer is the identifier of the work made for it. */
  function AnswerQuestion(s: State, round: string, text: string, request: string): (State, Result<nat, Error>) {
    var found := First(s.questions, (question: Question) => question.answerRequest == Some(request));
    if found.Some? then
      var recorded := s.questions[found.value];
      if recorded.round != round || recorded.answer != Some(text) || recorded.work.None?
      then (s, Err(IdempotencyConflict))
      else (s, Ok(recorded.work.value))
    else if s.current.None? || s.current.value.round != round || s.current.value.state != Awaiting then
      (s, Err(StaleRound))
    else
      var (t, queued) := Enqueue(s, text, request, Some(round));
      if queued.Err? then (t, Err(queued.error))
      else
        var work := t.works[queued.value].id;
        var answered := s.current.value.(state := Answered, answerRequest := Some(request), answer := Some(text),
                                         work := Some(work));
        (Emit(SetCurrent(t, answered), "question", "answered", Some(work), false), Ok(work))
  }
}
