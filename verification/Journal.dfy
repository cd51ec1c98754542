/**
  The journal object of probe.py: each method changes the shared records in place, as JournalSpec says, and keeps what
  JournalProperties proves of it. `issued` holds the tokens handed out so far.
  */
module Journal {
  import opened Wrappers
  import opened JournalSpec
  import opened JournalProperties

  class Journal {
    var epoch: string
    var mode: Mode
    var works: seq<Work>
    var questions: seq<Question>
    var current: Option<Question>
    var shared: bool
    var events: seq<Event>
    var receipts: map<string, Receipt>
    var nextWork: nat
    var nextEvent: nat
    ghost var issued: set<Token>

    ghost function Contents(): State
      reads this
    {
      State(epoch, mode, works, questions, current, shared, events, receipts, nextWork, nextEvent)
    }

    ghost predicate Valid()
      reads this
    {
      Sound(Contents()) && Traced(Contents(), issued)
    }

    /** Whatever a call does, records are final and no token that has ceased to be current becomes so again. */
    twostate predicate Kept()
      reads this
    {
      && Valid() && old(issued) <= issued
      && Evolves(old(Contents()), Contents()) && NoRevival(old(Contents()), Contents(), old(issued))
    }

    constructor (epoch: string)
      requires epoch != ""
      ensures Valid() && Contents() == Initial(epoch) && issued == {}
    {
      this.epoch, mode, works, questions, current, shared := epoch, Active, [], [], None, false;
      events, receipts, nextWork, nextEvent := [], map[], 1, 1;
      issued := {};
    }

    /** After a call that keeps what JournalProperties says, the tokens now current count as handed out. */
    ghost method Note(before: State, handedOut: set<Token>)
      requires JournalProperties.Keeps(before, Contents(), handedOut)
      modifies this`issued
      ensures Valid() && issued == handedOut + LiveTokens(Contents())
    {
      KeepsSoundTraced(before, Contents(), handedOut);
      issued := handedOut + LiveTokens(Contents());
    }

    method AppendEvent(kind: string, status: string, work: Option<nat>, deliver: bool)
      modifies this`events, this`nextEvent
      ensures Contents() == Emit(old(Contents()), kind, status, work, deliver)
    {
      events := events + [Event(nextEvent, kind, status, work, deliver)];
      nextEvent := nextEvent + 1;
    }

    /** One walk over all works; those the pass hits lose their lease and leave a status event. */
    method Walk(pass: Pass, status: string)
      modifies this`works, this`events, this`nextEvent
      ensures Contents() == PassAll(old(Contents()), pass, status)
    {
      for i := 0 to |works|
        invariant |works| == |old(works)|
        invariant Contents() == PassTo(old(Contents()), pass, status, i)
      {
        if Hits(pass, works[i]) {
          var id := works[i].id;
          works := works[i := Dropped(pass, works[i])];
          AppendEvent("status", status, Some(id), true);
        }
      }
    }

    method SweepExpired(now: real)
      modifies this`works, this`events, this`nextEvent
      ensures Contents() == Sweep(old(Contents()), now)
    {
      Walk(Expire(now), "lease_expired");
    }

    /** Under another epoch every lease is dropped and every token void; under the same one no work changes. */
    method Reopen(newEpoch: string)
      requires Valid() && newEpoch != ""
      modifies this
      ensures Kept() && Contents() == Reload(old(Contents()), newEpoch)
      ensures receipts == old(receipts) && questions == old(questions) && !shared
      ensures newEpoch == old(epoch) ==> works == old(works)
      ensures newEpoch != old(epoch) ==>
                && (forall token :: !Live(Contents(), token))
                && |works| == |old(works)|
                && forall i :: 0 <= i < |works| ==>
                     works[i] == if old(works)[i].state == Leased then old(works)[i].(state := Queued, lease := None)
                                 else old(works)[i]
    {
      hide Numbered, LeasesSound, Ledger, QuestionsSound, Traced, Evolves, NoRevival, LiveTokens;
      ghost var before, handedOut := Contents(), issued;
      ReloadKeeps(before, newEpoch, handedOut);
      ReloadEffect(before, newEpoch);
      var previous := epoch;
      epoch, shared := newEpoch, false;
      if previous != "" && previous != epoch {
        Walk(Restart, "requeued");
      }
      Note(before, handedOut);
    }

    /** The work recorded for a request, or a new one. */
    method AddWork(text: string, request: string, round: Option<string>) returns (result: Result<nat, Error>)
      modifies this`works, this`nextWork, this`events, this`nextEvent
      ensures (Contents(), result) == Enqueue(old(Contents()), text, request, round)
      ensures result.Ok? ==> result.value < |works|
    {
      var found := First(works, (work: Work) => work.request == request);
      if found.Some? {
        if works[found.value].round != round || works[found.value].text != text {
          return Err(IdempotencyConflict);
        }
        return Ok(found.value);
      }
      if mode != Active {
        return Err(ControlNotActive);
      }
      var number := nextWork;
      nextWork := number + 1;
      works := works + [Work(number, request, round, text, Queued, None, 0, None, 0, None)];
      result := Ok(|works| - 1);
      AppendEvent("work", "queued", Some(number), false);
    }

    /** One work for each request: a repeated request gets the work made for it, if it asks for the same. */
    method EnqueueWork(text: string, request: string, round: Option<string>) returns (result: Result<nat, Error>)
      requires Valid()
      modifies this`works, this`nextWork, this`events, this`nextEvent, this`issued
      ensures Kept() && (Contents(), result) == Enqueue(old(Contents()), text, request, round)
      ensures result.Ok? ==> result.value < |works| && works[result.value].request == request
                             && works[result.value].text == text && works[result.value].round == round
      ensures result == Err(IdempotencyConflict) <==>
                exists i :: 0 <= i < |old(works)| && old(works)[i].request == request
                            && (old(works)[i].text != text || old(works)[i].round != round)
      ensures result == Err(ControlNotActive) <==>
                old(mode) != Active && forall i :: 0 <= i < |old(works)| ==> old(works)[i].request != request
      ensures works == old(works) || (result == Ok(|old(works)|) && |works| == |old(works)| + 1
                                      && works[..|old(works)|] == old(works))
    {
      hide Numbered, LeasesSound, Ledger, QuestionsSound, Traced, Evolves, NoRevival, LiveTokens, Enqueue;
      ghost var before, handedOut := Contents(), issued;
      EnqueueKeeps(before, text, request, round, handedOut);
      EnqueueDecides(before, text, request, round);
      result := AddWork(text, request, round);
      Note(before, handedOut);
    }

    /** The recorded questions are looked through for the round and the request; a new question is then recorded. */
    method AskQuestion(round: string, text: string, request: string) returns (result: Result<Question, Error>)
      modifies this`questions, this`current, this`shared, this`events, this`nextEvent
      ensures (Contents(), result) == PublishQuestion(old(Contents()), round, text, request)
    {
      for i := 0 to |questions|
        modifies {}
        invariant forall j :: 0 <= j < i ==> !SameOrigin(questions[j], round, request)
      {
        var recorded := questions[i];
        if recorded.request == request {
          if recorded.round != round || recorded.text != text {
            return Err(IdempotencyConflict);
          }
          return Ok(recorded);
        }
        if recorded.round == round {
          return Err(StaleRound);
        }
      }
      if current.Some? && current.value.state == Awaiting {
        return Err(QuestionAlreadyOpen);
      }
      var recorded := Question(round, text, request, Awaiting, None, None, None, None);
      questions := questions + [recorded];
      current, shared := Some(recorded), true;
      AppendEvent("question", "awaiting_answer", None, false);
      result := Ok(recorded);
    }

    /** A question is asked once for each round and request, and only while no other one is open. */
    method PublishOne(round: string, text: string, request: string) returns (result: Result<Question, Error>)
      requires Valid()
      modifies this
      ensures Kept() && (Contents(), result) == PublishQuestion(old(Contents()), round, text, request)
      ensures works == old(works) && receipts == old(receipts)
      ensures forall i: nat :: FirstOfOrigin(old(Contents()), i, round, request) ==>
                && Contents() == old(Contents())
                && result == (if old(questions)[i].request != request then Err(StaleRound)
                              else if old(questions)[i].round == round && old(questions)[i].text == text
                              then Ok(old(questions)[i])
                              else Err(IdempotencyConflict))
      ensures (forall i :: 0 <= i < |old(questions)| ==>
                 old(questions)[i].round != round && old(questions)[i].request != request) ==>
                if old(current).Some? && old(current).value.state == Awaiting then
                  result == Err(QuestionAlreadyOpen) && Contents() == old(Contents())
                else
                  && result == Ok(Question(round, text, request, Awaiting, None, None, None, None))
                  && questions == old(questions) + [result.value] && current == Some(result.value) && shared
    {
      hide Numbered, LeasesSound, Ledger, QuestionsSound, Traced, Evolves, NoRevival, LiveTokens, PublishQuestion;
      ghost var before, handedOut := Contents(), issued;
      PublishKeeps(before, round, text, request, handedOut);
      PublishDecides(before, round, text, request);
      result := AskQuestion(round, text, request);
      Note(before, handedOut);
    }

    /** A change of the current question reaches the list only while the two are the same record. */
    method ChangeCurrent(question: Question)
      modifies this`current, this`questions
      ensures Contents() == SetCurrent(old(Contents()), question)
    {
      current := Some(question);
      if shared && questions != [] {
        questions := questions[|questions| - 1 := question];
      }
    }

    /** The answer on record, or one given to the current question. */
    method GiveAnswer(round: string, text: string, request: string) returns (result: Result<nat, Error>)
      modifies this
      ensures (Contents(), result) == AnswerQuestion(old(Contents()), round, text, request)
    {
      var found := First(questions, (question: Question) => question.answerRequest == Some(request));
      if found.Some? {
        var recorded := questions[found.value];
        if recorded.round != round || recorded.answer != Some(text) || recorded.work.None? {
          return Err(IdempotencyConflict);
        }
        return Ok(recorded.work.value);
      }
      if current.None? || current.value.round != round || current.value.state != Awaiting {
        return Err(StaleRound);
      }
      var queued := AddWork(text, request, Some(round));
      if queued.Err? {
        return Err(queued.error);
      }
      var work := works[queued.value].id;
      ChangeCurrent(current.value.(state := Answered, answerRequest := Some(request), answer := Some(text),
                                   work := Some(work)));
      AppendEvent("question", "answered", Some(work), false);
      result := Ok(work);
    }

    /**
      An accepted answer closes the current question with the one work made for the request. While the question is the
      list's own record, the same call again changes nothing and gives the same work.
      */
    method Answer(round: string, text: string, request: string) returns (result: Result<nat, Error>)
      requires Valid()
      modifies this
      ensures Kept() && (Contents(), result) == AnswerQuestion(old(Contents()), round, text, request)
      ensures result.Ok? && (forall i :: 0 <= i < |old(questions)| ==> old(questions)[i].answerRequest != Some(request)) ==>
                && current.Some? && current.value.round == round && current.value.state == Answered
                && current.value.answer == Some(text) && current.value.work == Some(result.value)
                && 1 <= result.value <= |works| && works[result.value - 1].request == request
                && works[result.value - 1].text == text && works[result.value - 1].round == Some(round)
      ensures result.Ok? && old(shared) ==> AnswerQuestion(Contents(), round, text, request) == (Contents(), result)
      ensures result.Err? ==> Contents() == old(Contents())
      ensures forall i: nat :: FirstAnswered(old(Contents()), i, request) ==>
                && Contents() == old(Contents())
                && result == (if old(questions)[i].round == round && old(questions)[i].answer == Some(text)
                                 && old(questions)[i].work.Some?
                              then Ok(old(questions)[i].work.value) else Err(IdempotencyConflict))
      ensures (forall i :: 0 <= i < |old(questions)| ==> old(questions)[i].answerRequest != Some(request)) ==>
                (result.Ok? <==>
                   && old(current).Some? && old(current).value.round == round && old(current).value.state == Awaiting
                   && (if exists i :: 0 <= i < |old(works)| && old(works)[i].request == request
                       then exists i :: 0 <= i < |old(works)| && old(works)[i].request == request
                                        && old(works)[i].text == text && old(works)[i].round == Some(round)
                       else old(mode) == Active))
    {
      hide Numbered, LeasesSound, Ledger, QuestionsSound, Traced, Evolves, NoRevival, LiveTokens, AnswerQuestion;
      ghost var before, handedOut := Contents(), issued;
      AnswerKeeps(before, round, text, request, handedOut);
      AnswerEffect(before, round, text, request);
      AnswerDecides(before, round, text, request);
      result := GiveAnswer(round, text, request);
      Note(before, handedOut);
    }

    /** Expired leases are dropped, then the first queued work is leased. */
    method TakeLease(owner: string, seconds: real, now: real, claim: string, handle: string)
      returns (result: Result<Option<nat>, Error>)
      modifies this
      ensures (Contents(), result) == ClaimNext(old(Contents()), owner, seconds, now, claim, handle)
    {
      SweepExpired(now);
      if seconds <= 0.0 {
        return Err(ValidationFailed);
      }
      if mode != Active {
        return Ok(None);
      }
      var found := First(works, (work: Work) => work.state == Queued);
      if found.None? {
        return Ok(None);
      }
      var work := works[found.value];
      var generation := work.generation + 1;
      var lease := Lease(claim, owner, 1, generation, epoch, now + seconds);
      works := works[found.value := work.(generation := generation, handle := Some(handle), state := Leased,
                                          lease := Some(lease))];
      AppendEvent("work", "leased", Some(work.id), false);
      result := Ok(found);
    }

    /** The first work that is queued or whose lease has run out is leased; a running lease is never taken. */
    method ClaimQueued(owner: string, seconds: real, now: real, claim: string, handle: string)
      returns (result: Result<Option<nat>, Error>)
      requires Valid() && Fresh(claim, handle, issued)
      modifies this
      ensures Kept() && (Contents(), result) == ClaimNext(old(Contents()), owner, seconds, now, claim, handle)
      ensures result.Err? <==> seconds <= 0.0
      ensures result == Ok(None) <==>
                seconds > 0.0 && (old(mode) != Active
                                  || forall i :: 0 <= i < |old(works)| ==> !Claimable(old(works)[i], now))
      ensures result.Ok? && result.value.Some? ==>
                ClaimedAt(old(Contents()), Contents(), result.value.value, owner, seconds, now, claim, handle)
      ensures HoldersKept(old(Contents()), Contents(), now, {})
    {
      hide Numbered, LeasesSound, Ledger, QuestionsSound, Traced, Evolves, NoRevival, LiveTokens, ClaimNext;
      ghost var before, handedOut := Contents(), issued;
      ClaimNextKeeps(before, owner, seconds, now, claim, handle, handedOut);
      ClaimDecides(before, owner, seconds, now, claim, handle);
      result := TakeLease(owner, seconds, now, claim, handle);
      Note(before, handedOut);
    }

    /** Expired leases are dropped, then the claim is looked up and fenced. */
    method ExtendLease(owner: string, claim: string, version: nat, seconds: real, now: real)
      returns (result: Result<nat, Error>)
      modifies this
      ensures (Contents(), result) == Renew(old(Contents()), owner, claim, version, seconds, now)
    {
      SweepExpired(now);
      var found := First(works, (work: Work) => ByClaim(work, claim));
      if found.None? {
        return Err(LeaseExpired);
      }
      var work := works[found.value];
      var lease := work.lease.value;
      if lease.owner != owner || lease.epoch != epoch || lease.version != version {
        return Err(LeaseFenced);
      }
      works := works[found.value := work.(lease := Some(lease.(version := lease.version + 1, expires := now + seconds)),
                                          renewals := work.renewals + 1)];
      AppendEvent("lease", "renewed", Some(work.id), false);
      result := Ok(found.value);
    }

    /** Renewed is exactly the latest version of the caller's running lease; the version before is void at once. */
    method RenewLease(owner: string, claim: string, version: nat, seconds: real, now: real)
      returns (result: Result<nat, Error>)
      requires Valid()
      modifies this
      ensures Kept() && (Contents(), result) == Renew(old(Contents()), owner, claim, version, seconds, now)
      ensures result.Ok? <==>
                exists i :: 0 <= i < |old(works)| && ByClaim(old(works)[i], claim)
                            && now < old(works)[i].lease.value.expires && old(works)[i].lease.value.owner == owner
                            && old(works)[i].lease.value.version == version
      ensures result.Ok? ==>
                RenewedAt(old(Contents()), Contents(), result.value, owner, claim, version, seconds, now)
    {
      hide Numbered, LeasesSound, Ledger, QuestionsSound, Traced, Evolves, NoRevival, LiveTokens, Renew;
      ghost var before, handedOut := Contents(), issued;
      RenewKeeps(before, owner, claim, version, seconds, now, handedOut);
      RenewDecides(before, owner, claim, version, seconds, now, handedOut);
      RenewEffect(before, owner, claim, version, seconds, now, handedOut);
      result := ExtendLease(owner, claim, version, seconds, now);
      Note(before, handedOut);
    }

    /** Receipt, handle, state, expiry and fence are checked in this order. */
    method CompleteWork(handle: string, fence: Fence, key: string, outcome: string, now: real)
      returns (submitted: Submitted)
      modifies this
      ensures (Contents(), submitted) == Submit(old(Contents()), handle, fence, key, outcome, now)
    {
      if key in receipts {
        var receipt := receipts[key];
        if receipt.handle != handle || receipt.fence != fence || receipt.result != outcome {
          return Rejected(IdempotencyConflict);
        }
        return Replayed(receipt.response);
      }
      var found := First(works, (work: Work) => ByHandle(work, handle));
      if found.None? {
        return Rejected(InvalidSubmissionHandle);
      }
      if works[found.value].state == Superseded {
        return Rejected(WorkSuperseded);
      }
      SweepExpired(now);
      var work := works[found.value];
      if work.state != Leased || work.lease.None? {
        return Rejected(LeaseExpired);
      }
      if FenceOf(work.lease.value) != fence || fence.epoch != epoch {
        return Rejected(LeaseFenced);
      }
      works := works[found.value := work.(state := Completed, result := Some(outcome), lease := None)];
      var response := Response(nextEvent, work.id, key, outcome);
      AppendEvent("status", "completed", Some(work.id), false);
      receipts := receipts[key := Receipt(handle, fence, outcome, response)];
      submitted := Done(response);
    }

    /**
      A work is completed exactly when the key is new and handle and fence are those of a running lease; a known key only
      replays its own receipt. No other running lease is disturbed.
      */
    method SubmitResult(handle: string, fence: Fence, key: string, outcome: string, now: real)
      returns (submitted: Submitted)
      requires Valid()
      modifies this
      ensures Kept() && (Contents(), submitted) == Submit(old(Contents()), handle, fence, key, outcome, now)
      ensures submitted.Done? <==> key !in old(receipts) && old(LiveAt(Contents(), Token(handle, fence), now))
      ensures submitted.Replayed? <==>
                key in old(receipts) && old(receipts)[key].handle == handle && old(receipts)[key].fence == fence
                && old(receipts)[key].result == outcome
      ensures submitted.Replayed? ==> submitted.response == old(receipts)[key].response && Contents() == old(Contents())
      ensures receipts == if submitted.Done? then old(receipts)[key := Receipt(handle, fence, outcome, submitted.response)]
                          else old(receipts)
      ensures submitted.Done? ==>
                && 1 <= submitted.response.work <= |works|
                && works[submitted.response.work - 1].result == Some(outcome) && !Live(Contents(), Token(handle, fence))
      ensures HoldersKept(old(Contents()), Contents(), now, if submitted.Done? then {Token(handle, fence)} else {})
    {
      hide Numbered, LeasesSound, Ledger, QuestionsSound, Traced, Evolves, NoRevival, LiveTokens, Submit;
      ghost var before, handedOut := Contents(), issued;
      SubmitKeeps(before, handle, fence, key, outcome, now, handedOut);
      SubmitDecides(before, handle, fence, key, outcome, now, handedOut);
      SubmitEffect(before, handle, fence, key, outcome, now, handedOut);
      submitted := CompleteWork(handle, fence, key, outcome, now);
      Note(before, handedOut);
    }

    /** Pause or switch: every open work is superseded, every token void, and an open question cancelled. */
    method ControlAll(action: Mode)
      requires Valid() && action != Active
      modifies this
      ensures Kept() && Contents() == Control(old(Contents()), action)
      ensures mode == action && forall i :: 0 <= i < |works| ==> works[i].state == Completed || works[i].state == Superseded
      ensures (forall token :: !Live(Contents(), token)) && (current.Some? ==> current.value.state != Awaiting)
      ensures receipts == old(receipts)
    {
      hide Numbered, LeasesSound, Ledger, QuestionsSound, Traced, Evolves, NoRevival, LiveTokens;
      ghost var before, handedOut := Contents(), issued;
      ControlKeeps(before, action, handedOut);
      ControlEffect(before, action, handedOut);
      mode := action;
      if current.Some? && current.value.state == Awaiting {
        ChangeCurrent(current.value.(state := Cancelled, control := Some(action)));
      }
      Walk(Supersede, "superseded");
      AppendEvent("status", if action == Paused then "pause" else "switch", None, true);
      Note(before, handedOut);
    }

    /** Exactly the owner's leases are given up; everybody else's tokens stay current. */
    method ReleaseAll(owner: string, reason: string)
      requires Valid()
      modifies this
      ensures Kept() && Contents() == ReleaseOwner(old(Contents()), owner, reason)
      ensures forall token :: Live(Contents(), token) <==> Live(old(Contents()), token) && token.fence.owner != owner
      ensures |works| == |old(works)| && receipts == old(receipts)
      ensures forall i :: 0 <= i < |works| ==>
                works[i] == if Hits(Release(owner), old(works)[i]) then old(works)[i].(state := Queued, lease := None)
                            else old(works)[i]
    {
      hide Numbered, LeasesSound, Ledger, QuestionsSound, Traced, Evolves, NoRevival, LiveTokens;
      ghost var before, handedOut := Contents(), issued;
      PassKeeps(before, Release(owner), reason, handedOut);
      ReleaseEffect(before, owner, reason);
      Walk(Release(owner), reason);
      Note(before, handedOut);
    }
  }
}
