/** What every run of the journal keeps: ledgers, numbering, finality of finished work, and fencing of leases. */
module JournalProperties {
  import opened Wrappers
  import opened JournalSpec

  // ---- one journal ----

  ghost predicate WorkSound(work: Work, epoch: string) {
    && (work.state == Leased <==> work.lease.Some?)
    && (work.state == Leased ==>
          work.handle.Some? && work.lease.value.generation == work.generation && work.lease.value.epoch == epoch)
    && (work.state == Completed <==> work.result.Some?)
  }

  /** Works and events are numbered from one without gaps, and no request has two works. */
  ghost predicate Numbered(s: State) {
    && (forall i :: 0 <= i < |s.works| ==> s.works[i].id == i + 1)
    && (forall i :: 0 <= i < |s.events| ==> s.events[i].sequence == i + 1)
    && s.nextWork == |s.works| + 1 && s.nextEvent == |s.events| + 1
    && (forall i, j :: 0 <= i < j < |s.works| ==> s.works[i].request != s.works[j].request)
  }

  ghost predicate LeasesSound(s: State) {
    && (forall i :: 0 <= i < |s.works| ==> WorkSound(s.works[i], s.epoch))
    && (s.mode != Active ==>
          forall i :: 0 <= i < |s.works| ==> s.works[i].state == Completed || s.works[i].state == Superseded)
  }

  ghost predicate ReceiptSound(s: State, key: string, receipt: Receipt) {
    var response := receipt.response;
    && 1 <= response.work <= |s.works| && response.key == key && response.result == receipt.result
    && s.works[response.work - 1].state == Completed
    && s.works[response.work - 1].result == Some(receipt.result)
    && s.works[response.work - 1].handle == Some(receipt.handle)
    && 1 <= response.sequence <= |s.events|
    && s.events[response.sequence - 1] == Event(response.sequence, "status", "completed", Some(response.work), false)
  }

  ghost predicate HasReceipt(s: State, work: nat) {
    exists key :: key in s.receipts && s.receipts[key].response.work == work
  }

  /** Receipts and completed works are in bijection. */
  ghost predicate Ledger(s: State) {
    && (forall key :: key in s.receipts ==> ReceiptSound(s, key, s.receipts[key]))
    && (forall i :: 0 <= i < |s.works| && s.works[i].state == Completed ==> HasReceipt(s, i + 1))
    && (forall key, other :: key in s.receipts && other in s.receipts && key != other ==>
          s.receipts[key].response.work != s.receipts[other].response.work)
  }

  /** While it is the list's record, the current question is the last one; every other question is settled. */
  ghost predicate QuestionsSound(s: State) {
    && (s.shared ==> s.questions != [] && s.current == Some(s.questions[|s.questions| - 1]))
    && (forall i, j :: 0 <= i < j < |s.questions| ==>
          s.questions[i].round != s.questions[j].round && s.questions[i].request != s.questions[j].request)
    && (forall i :: 0 <= i < |s.questions| && s.questions[i].state == Awaiting ==> s.questions[i].answerRequest.None?)
  }

  ghost predicate Sound(s: State) {
    s.epoch != "" && Numbered(s) && LeasesSound(s) && Ledger(s) && QuestionsSound(s)
  }

  // ---- two journals, one reached from the other ----

  ghost predicate WorkEvolves(a: Work, b: Work) {
    && b.id == a.id && b.request == a.request && b.round == a.round && b.text == a.text
    && a.generation <= b.generation
    && (a.state == Completed || a.state == Superseded ==> b == a)
  }

  /** Nothing recorded is lost: finished works, receipts and events stay as they are, and a stop is never undone. */
  ghost predicate Evolves(s: State, t: State) {
    && s.events <= t.events
    && |s.works| <= |t.works| && (forall i :: 0 <= i < |s.works| ==> WorkEvolves(s.works[i], t.works[i]))
    && (forall key :: key in s.receipts ==> key in t.receipts && t.receipts[key] == s.receipts[key])
    && (s.mode != Active ==> t.mode != Active)
  }

  lemma EvolvesOn(s: State, t: State, u: State)
    requires Evolves(s, t) && Evolves(t, u)
    ensures Evolves(s, u)
  {
    forall i | 0 <= i < |s.works|
      ensures WorkEvolves(s.works[i], u.works[i])
    {
      assert WorkEvolves(s.works[i], t.works[i]) && WorkEvolves(t.works[i], u.works[i]);
    }
  }

  // ---- tokens: what a claim or a renewal hands out ----

  datatype Token = Token(handle: string, fence: Fence)

  predicate Holds(work: Work, token: Token) {
    && work.state == Leased && work.lease.Some?
    && work.handle == Some(token.handle) && FenceOf(work.lease.value) == token.fence
  }

  /** The token is that of a current lease. */
  ghost predicate Live(s: State, token: Token) {
    exists i :: 0 <= i < |s.works| && Holds(s.works[i], token)
  }

  ghost predicate Fresh(claim: string, handle: string, issued: set<Token>) {
    forall token :: token in issued ==> token.fence.claim != claim && token.handle != handle
  }

  ghost predicate HandleIssued(issued: set<Token>, handle: string) {
    exists token :: token in issued && token.handle == handle
  }

  /** Every token ever handed out with the claim of this lease names its handle and an older or equal version. */
  ghost predicate Newest(work: Work, issued: set<Token>) {
    work.lease.Some? ==>
      forall token :: token in issued && token.fence.claim == work.lease.value.claim ==>
        work.handle == Some(token.handle) && token.fence.version <= work.lease.value.version
  }

  ghost predicate Traced(s: State, issued: set<Token>) {
    && (forall i :: 0 <= i < |s.works| && s.works[i].handle.Some? ==> HandleIssued(issued, s.works[i].handle.value))
    && (forall i, j :: 0 <= i < j < |s.works| && s.works[i].handle.Some? ==> s.works[i].handle != s.works[j].handle)
    && (forall i :: 0 <= i < |s.works| ==> Newest(s.works[i], issued))
    && (forall token :: Live(s, token) ==> token in issued)
  }

  /** No token that is not current becomes current again. */
  ghost predicate NoRevival(s: State, t: State, issued: set<Token>) {
    forall token :: token in issued && Live(t, token) ==> Live(s, token)
  }

  // ---- passes ----

  /** What a pass over the works does, work by work. */
  ghost predicate Passed(s: State, t: State, pass: Pass, count: nat)
    requires count <= |s.works|
  {
    && t == s.(works := t.works, events := t.events, nextEvent := t.nextEvent)
    && |t.works| == |s.works|
    && (forall i :: 0 <= i < |s.works| ==>
          t.works[i] == if i < count && Hits(pass, s.works[i]) then Dropped(pass, s.works[i]) else s.works[i])
    && s.events <= t.events && t.nextEvent - |t.events| == s.nextEvent - |s.events|
    && (forall k :: |s.events| <= k < |t.events| ==> t.events[k].sequence == s.nextEvent + (k - |s.events|))
  }

  lemma {:induction false} PassEffect(s: State, pass: Pass, status: string, count: nat)
    requires count <= |s.works|
    ensures Passed(s, PassTo(s, pass, status, count), pass, count)
  {
    if count > 0 {
      PassEffect(s, pass, status, count - 1);
    }
  }

  lemma PassKeepsNumbers(s: State, t: State, pass: Pass)
    requires Numbered(s) && Passed(s, t, pass, |s.works|)
    ensures Numbered(t) && Evolves(s, t)
  {
    forall i | 0 <= i < |s.works|
      ensures WorkEvolves(s.works[i], t.works[i])
      ensures t.works[i].id == s.works[i].id && t.works[i].request == s.works[i].request
    {
    }
    forall i | 0 <= i < |t.events|
      ensures t.events[i].sequence == i + 1
    {
      assert i < |s.events| ==> t.events[i] == s.events[i];
    }
  }

  /** A call that completes nothing and adds no receipt keeps the ledger. */
  lemma LedgerKept(s: State, t: State)
    requires Ledger(s) && Evolves(s, t) && t.receipts == s.receipts
    requires forall i :: 0 <= i < |t.works| && t.works[i].state == Completed ==>
               i < |s.works| && s.works[i].state == Completed
    ensures Ledger(t)
  {
    hide ReceiptSound;
    forall i | 0 <= i < |t.works| && t.works[i].state == Completed
      ensures HasReceipt(t, i + 1)
    {
      assert HasReceipt(s, i + 1);
      var key :| key in s.receipts && s.receipts[key].response.work == i + 1;
      assert key in t.receipts;
    }
    forall key | key in t.receipts
      ensures ReceiptSound(t, key, t.receipts[key])
    {
      ReceiptKept(s, t, key);
    }
  }

  lemma ReceiptsKept(s: State, t: State)
    requires Ledger(s) && Evolves(s, t)
    ensures forall key :: key in s.receipts ==> key in t.receipts && ReceiptSound(t, key, t.receipts[key])
  {
    hide ReceiptSound;
    forall key | key in s.receipts
      ensures key in t.receipts && ReceiptSound(t, key, t.receipts[key])
    {
      ReceiptKept(s, t, key);
    }
  }

  lemma ReceiptsAreForCompleted(s: State, i: nat)
    requires Ledger(s) && i < |s.works| && s.works[i].state == Leased
    ensures forall key :: key in s.receipts ==> s.receipts[key].response.work != i + 1
  {
    forall key | key in s.receipts
      ensures s.receipts[key].response.work != i + 1
    {
      assert ReceiptSound(s, key, s.receipts[key]);
    }
  }

  lemma ReceiptKept(s: State, t: State, key: string)
    requires Evolves(s, t) && key in s.receipts && ReceiptSound(s, key, s.receipts[key])
    ensures ReceiptSound(t, key, s.receipts[key])
  {
    var work := s.receipts[key].response.work;
    assert WorkEvolves(s.works[work - 1], t.works[work - 1]);
  }

  lemma PassCompletesNothing(s: State, t: State, pass: Pass)
    requires Passed(s, t, pass, |s.works|)
    ensures t.receipts == s.receipts
    ensures forall i :: 0 <= i < |t.works| && t.works[i].state == Completed ==>
              i < |s.works| && s.works[i].state == Completed
  {
  }

  lemma PassKeepsTraces(s: State, t: State, pass: Pass, issued: set<Token>)
    requires Traced(s, issued) && Passed(s, t, pass, |s.works|)
    ensures Traced(t, issued) && NoRevival(s, t, issued)
  {
    forall token | Live(t, token)
      ensures Live(s, token)
    {
      var i :| 0 <= i < |t.works| && Holds(t.works[i], token);
      assert Holds(s.works[i], token);
    }
    forall i | 0 <= i < |t.works|
      ensures t.works[i].handle == s.works[i].handle
      ensures Newest(t.works[i], issued)
    {
      assert Newest(s.works[i], issued);
    }
  }

  lemma PassKeepsLeases(s: State, t: State, pass: Pass, epoch: string)
    requires Passed(s, t, pass, |s.works|)
    requires forall i :: 0 <= i < |s.works| ==> WorkSound(s.works[i], epoch)
    ensures forall i :: 0 <= i < |t.works| ==> WorkSound(t.works[i], epoch)
    ensures pass.Restart? ==> forall i :: 0 <= i < |t.works| ==> t.works[i].state != Leased
    ensures pass.Supersede? ==>
              forall i :: 0 <= i < |t.works| ==> t.works[i].state == Completed || t.works[i].state == Superseded
    ensures forall i :: 0 <= i < |t.works| && (s.works[i].state == Completed || s.works[i].state == Superseded) ==>
              t.works[i] == s.works[i]
  {
    forall i | 0 <= i < |t.works|
      ensures WorkSound(t.works[i], epoch)
    {
      assert WorkSound(s.works[i], epoch);
    }
  }

  /** What one call keeps, whatever the call. */
  ghost predicate Keeps(s: State, t: State, issued: set<Token>) {
    && Sound(t) && Evolves(s, t) && NoRevival(s, t, issued)
    && Traced(t, issued + LiveTokens(t))
  }

  ghost function TokenOf(work: Work): Token
    requires work.handle.Some? && work.lease.Some?
  {
    Token(work.handle.value, FenceOf(work.lease.value))
  }

  ghost function LiveTokens(s: State): set<Token> {
    set i | 0 <= i < |s.works| && s.works[i].state == Leased && s.works[i].handle.Some? && s.works[i].lease.Some? ::
      TokenOf(s.works[i])
  }

  lemma LiveTokensAreLive(s: State, issued: set<Token>)
    requires forall token :: Live(s, token) ==> token in issued
    ensures LiveTokens(s) <= issued
  {
    forall token | token in LiveTokens(s)
      ensures token in issued
    {
      var i :| 0 <= i < |s.works| && s.works[i].state == Leased && s.works[i].handle.Some? && s.works[i].lease.Some?
               && TokenOf(s.works[i]) == token;
      assert Holds(s.works[i], token);
    }
  }

  lemma PassKeeps(s: State, pass: Pass, status: string, issued: set<Token>)
    requires Sound(s) && Traced(s, issued)
    ensures Keeps(s, PassAll(s, pass, status), issued)
    ensures Traced(PassAll(s, pass, status), issued)
    ensures Passed(s, PassAll(s, pass, status), pass, |s.works|)
  {
    hide Numbered, Ledger, QuestionsSound, Traced, Evolves, NoRevival, Passed, WorkSound, PassTo;
    var t := PassAll(s, pass, status);
    PassEffect(s, pass, status, |s.works|);
    PassKeepsNumbers(s, t, pass);
    PassCompletesNothing(s, t, pass);
    LedgerKept(s, t);
    PassKeepsTraces(s, t, pass, issued);
    PassKeepsLeases(s, t, pass, s.epoch);
    PassKeepsRest(s, t, pass);
    TracedLive(t, issued);
    assert issued + LiveTokens(t) == issued by {
      LiveTokensAreLive(t, issued);
    }
  }

  lemma PassKeepsRest(s: State, t: State, pass: Pass)
    requires Passed(s, t, pass, |s.works|)
    ensures t.epoch == s.epoch && t.mode == s.mode && |t.works| == |s.works|
    ensures QuestionsSound(s) ==> QuestionsSound(t)
  {
  }

  lemma TracedLive(s: State, issued: set<Token>)
    requires Traced(s, issued)
    ensures forall token :: Live(s, token) ==> token in issued
  {
  }

  // ---- claim and renew: one open work gets a lease ----

  predicate Reissues(before: Work, after: Work, epoch: string) {
    && (before.state == Queued || before.state == Leased)
    && after.id == before.id && after.request == before.request && after.round == before.round
    && after.text == before.text && before.generation <= after.generation && after.result.None?
    && after.state == Leased && after.lease.Some? && after.handle.Some?
    && after.lease.value.generation == after.generation && after.lease.value.epoch == epoch
  }

  function Touch(s: State, i: nat, work: Work, kind: string, status: string): State
    requires i < |s.works|
  {
    Emit(s.(works := s.works[i := work]), kind, status, Some(work.id), false)
  }

  lemma TouchKeepsSound(s: State, i: nat, work: Work, kind: string, status: string)
    requires Sound(s) && s.mode == Active && i < |s.works| && Reissues(s.works[i], work, s.epoch)
    ensures Sound(Touch(s, i, work, kind, status)) && Evolves(s, Touch(s, i, work, kind, status))
  {
    hide Ledger;
    var t := Touch(s, i, work, kind, status);
    assert Evolves(s, t);
    LedgerKept(s, t);
  }

  /** A lease under a fresh claim, or a later version of the same claim. */
  ghost predicate NewToken(before: Work, after: Work, issued: set<Token>)
    requires after.handle.Some? && after.lease.Some?
  {
    || Fresh(after.lease.value.claim, after.handle.value, issued)
    || (before.state == Leased && before.lease.Some? && after.handle == before.handle
        && after.lease.value.claim == before.lease.value.claim
        && after.lease.value.version == before.lease.value.version + 1)
  }

  lemma TouchKeepsTraces(s: State, i: nat, work: Work, kind: string, status: string, issued: set<Token>)
    requires Traced(s, issued) && LeasesSound(s) && i < |s.works| && Reissues(s.works[i], work, s.epoch)
    requires NewToken(s.works[i], work, issued)
    ensures var t := Touch(s, i, work, kind, status);
            NoRevival(s, t, issued) && Traced(t, issued + {TokenOf(work)})
  {
    var t := Touch(s, i, work, kind, status);
    var token := TokenOf(work);
    assert token !in issued by {
      assert Newest(s.works[i], issued);
    }
    forall other | Live(t, other) && other != token
      ensures Live(s, other)
    {
      var j :| 0 <= j < |t.works| && Holds(t.works[j], other);
      assert j != i;
      assert Holds(s.works[j], other);
    }
    forall j, k | 0 <= j < k < |t.works| && t.works[j].handle.Some?
      ensures t.works[j].handle != t.works[k].handle
    {
      HandlesApart(s, i, work, issued, if j == i then k else j);
    }
    forall j | 0 <= j < |t.works|
      ensures Newest(t.works[j], issued + {token})
      ensures t.works[j].handle.Some? ==> HandleIssued(issued + {token}, t.works[j].handle.value)
    {
      assert Newest(s.works[j], issued);
      if j != i {
        HandlesApart(s, i, work, issued, j);
        if t.works[j].handle.Some? {
          assert HandleIssued(issued, t.works[j].handle.value);
          var former :| former in issued && former.handle == t.works[j].handle.value;
          assert former in issued + {token};
        }
        ClaimsApart(s, i, work, issued, j);
      } else {
        assert token in issued + {token};
      }
    }
  }

  lemma HandlesApart(s: State, i: nat, work: Work, issued: set<Token>, j: nat)
    requires Traced(s, issued) && i < |s.works| && j < |s.works| && j != i
    requires work.handle.Some? && work.lease.Some? && NewToken(s.works[i], work, issued)
    ensures s.works[j].handle != work.handle
  {
    if s.works[j].handle.Some? {
      assert HandleIssued(issued, s.works[j].handle.value);
    }
  }

  lemma ClaimsApart(s: State, i: nat, work: Work, issued: set<Token>, j: nat)
    requires Traced(s, issued) && i < |s.works| && j < |s.works| && j != i
    requires work.handle.Some? && work.lease.Some? && NewToken(s.works[i], work, issued)
    requires WorkSound(s.works[i], s.epoch) && WorkSound(s.works[j], s.epoch)
    ensures s.works[j].lease.Some? ==> s.works[j].lease.value.claim != work.lease.value.claim
  {
    if s.works[j].lease.Some? {
      var token := TokenOf(s.works[j]);
      assert Holds(s.works[j], token);
      assert token in issued;
      assert Newest(s.works[i], issued);
    }
  }

  lemma TouchKeeps(s: State, i: nat, work: Work, kind: string, status: string, issued: set<Token>)
    requires Sound(s) && Traced(s, issued) && s.mode == Active
    requires i < |s.works| && Reissues(s.works[i], work, s.epoch) && NewToken(s.works[i], work, issued)
    ensures Keeps(s, Touch(s, i, work, kind, status), issued)
  {
    hide Numbered, Ledger, QuestionsSound, Traced, Evolves, NoRevival, LeasesSound, NewToken;
    var t := Touch(s, i, work, kind, status);
    TouchKeepsSound(s, i, work, kind, status);
    TouchKeepsTraces(s, i, work, kind, status, issued);
    TracedLive(t, issued + {TokenOf(work)});
    LiveTokensAreLive(t, issued + {TokenOf(work)});
    assert t.works[i] == work;
    assert TokenOf(work) in LiveTokens(t);
    assert issued + LiveTokens(t) == issued + {TokenOf(work)};
  }

  /** A call that first sweeps keeps what the rest of it keeps. */
  lemma KeepsAfter(s: State, t: State, u: State, issued: set<Token>)
    requires Evolves(s, t) && NoRevival(s, t, issued) && Keeps(t, u, issued)
    ensures Keeps(s, u, issued)
  {
    hide Sound, Evolves, Traced;
    EvolvesOn(s, t, u);
  }

  lemma ClaimNextKeeps(s: State, owner: string, seconds: real, now: real, claim: string, handle: string,
                       issued: set<Token>)
    requires Sound(s) && Traced(s, issued) && Fresh(claim, handle, issued)
    ensures Keeps(s, ClaimNext(s, owner, seconds, now, claim, handle).0, issued)
  {
    hide Numbered, Ledger, QuestionsSound, Traced, Evolves, NoRevival, LeasesSound, PassAll, Fresh;
    var t := Sweep(s, now);
    PassKeeps(s, Expire(now), "lease_expired", issued);
    var found := First(t.works, (work: Work) => work.state == Queued);
    if seconds > 0.0 && t.mode == Active && found.Some? {
      var work := t.works[found.value];
      var lease := Lease(claim, owner, 1, work.generation + 1, t.epoch, now + seconds);
      var leased := work.(generation := work.generation + 1, handle := Some(handle), state := Leased,
                          lease := Some(lease));
      WorkOf(t, found.value);
      TouchKeeps(t, found.value, leased, "work", "leased", issued);
      KeepsAfter(s, t, ClaimNext(s, owner, seconds, now, claim, handle).0, issued);
    }
  }

  lemma WorkOf(s: State, i: nat)
    requires LeasesSound(s) && i < |s.works|
    ensures WorkSound(s.works[i], s.epoch)
    ensures s.works[i].state == Queued || s.works[i].state == Leased ==> s.mode == Active
  {
  }

  lemma RenewKeeps(s: State, owner: string, claim: string, version: nat, seconds: real, now: real, issued: set<Token>)
    requires Sound(s) && Traced(s, issued)
    ensures Keeps(s, Renew(s, owner, claim, version, seconds, now).0, issued)
  {
    hide Numbered, Ledger, QuestionsSound, Traced, Evolves, NoRevival, LeasesSound, PassAll, Fresh;
    var t := Sweep(s, now);
    PassKeeps(s, Expire(now), "lease_expired", issued);
    var found := First(t.works, (work: Work) => ByClaim(work, claim));
    if found.Some? {
      var work := t.works[found.value];
      var lease := work.lease.value;
      WorkOf(t, found.value);
      if lease.owner == owner && lease.epoch == t.epoch && lease.version == version {
        var renewed := work.(lease := Some(lease.(version := lease.version + 1, expires := now + seconds)),
                             renewals := work.renewals + 1);
        TouchKeeps(t, found.value, renewed, "lease", "renewed", issued);
        KeepsAfter(s, t, Renew(s, owner, claim, version, seconds, now).0, issued);
      }
    }
  }

  lemma EnqueueKeeps(s: State, text: string, request: string, round: Option<string>, issued: set<Token>)
    requires Sound(s) && Traced(s, issued)
    ensures Keeps(s, Enqueue(s, text, request, round).0, issued)
  {
    hide Sound, Traced, Evolves, NoRevival;
    var (t, _) := Enqueue(s, text, request, round);
    NothingKeeps(s, issued);
    if t != s {
      EnqueueKeepsSound(s, text, request, round);
      AppendKeepsTraces(s, t, issued);
    }
  }

  lemma EnqueueKeepsSound(s: State, text: string, request: string, round: Option<string>)
    requires Sound(s)
    ensures Sound(Enqueue(s, text, request, round).0) && Evolves(s, Enqueue(s, text, request, round).0)
  {
    hide Ledger, QuestionsSound, ReceiptSound;
    var t := Enqueue(s, text, request, round).0;
    EnqueueEvolves(s, text, request, round);
    hide Evolves;
    LedgerKept(s, t);
    assert QuestionsSound(s) ==> QuestionsSound(t) by {
      SameQuestions(s, t);
    }
  }

  lemma EnqueueEvolves(s: State, text: string, request: string, round: Option<string>)
    ensures Evolves(s, Enqueue(s, text, request, round).0)
  {
  }

  lemma SameQuestions(s: State, t: State)
    requires t.questions == s.questions && t.current == s.current && t.shared == s.shared
    ensures QuestionsSound(s) ==> QuestionsSound(t)
  {
  }

  /** A new work without a lease or a handle. */
  lemma AppendKeepsTraces(s: State, t: State, issued: set<Token>)
    requires Traced(s, issued) && |t.works| == |s.works| + 1 && t.works[..|s.works|] == s.works
    requires t.works[|s.works|].handle.None? && t.works[|s.works|].lease.None?
    ensures NoRevival(s, t, issued) && Traced(t, issued + LiveTokens(t))
  {
    assert forall i :: 0 <= i < |s.works| ==> t.works[i] == s.works[i];
    forall token | Live(t, token)
      ensures Live(s, token)
    {
      var i :| 0 <= i < |t.works| && Holds(t.works[i], token);
      assert Holds(s.works[i], token);
    }
    LiveTokensAreLive(t, issued);
    assert issued + LiveTokens(t) == issued;
  }

  // ---- submit ----

  /** The lease behind the token is current and has not expired. */
  ghost predicate LiveAt(s: State, token: Token, now: real) {
    exists i :: 0 <= i < |s.works| && Holds(s.works[i], token) && now < s.works[i].lease.value.expires
  }

  lemma HandleIsUnique(s: State, issued: set<Token>, handle: string, i: nat)
    requires Traced(s, issued) && i < |s.works| && s.works[i].handle == Some(handle)
    ensures First(s.works, (work: Work) => ByHandle(work, handle)) == Some(i)
  {
    var found := First(s.works, (work: Work) => ByHandle(work, handle));
    assert ByHandle(s.works[i], handle);
    assert found.Some? && ByHandle(s.works[found.value], handle);
  }

  /**
    A submission completes a work exactly when its key is unused and it repeats the handle and the whole fence of a
    current, unexpired lease; it replays exactly its own recorded receipt; otherwise nothing but expiry happens.
    */
  lemma SubmitDecides(s: State, handle: string, fence: Fence, key: string, result: string, now: real, issued: set<Token>)
    requires Sound(s) && Traced(s, issued)
    ensures var (t, submitted) := Submit(s, handle, fence, key, result, now);
            && (submitted.Done? <==> key !in s.receipts && LiveAt(s, Token(handle, fence), now))
            && (submitted.Replayed? <==> key in s.receipts && s.receipts[key].handle == handle
                                         && s.receipts[key].fence == fence && s.receipts[key].result == result)
            && (submitted.Replayed? ==> t == s && submitted.response == s.receipts[key].response)
            && (submitted.Rejected? ==> t == s || t == Sweep(s, now))
  {
    hide Ledger, QuestionsSound, Numbered, Traced, LeasesSound, PassTo;
    var token := Token(handle, fence);
    var found := First(s.works, (work: Work) => ByHandle(work, handle));
    PassEffect(s, Expire(now), "lease_expired", |s.works|);
    if LiveAt(s, token, now) {
      var i :| 0 <= i < |s.works| && Holds(s.works[i], token) && now < s.works[i].lease.value.expires;
      HandleIsUnique(s, issued, handle, i);
      WorkOf(s, i);
    }
    if found.Some? {
      WorkOf(s, found.value);
      assert ByHandle(s.works[found.value], handle);
    }
  }

  function Completing(t: State, i: nat, handle: string, fence: Fence, key: string, result: string): State
    requires i < |t.works|
  {
    var work := t.works[i];
    var response := Response(t.nextEvent, work.id, key, result);
    var completed := work.(state := Completed, result := Some(result), lease := None);
    var u := Emit(t.(works := t.works[i := completed]), "status", "completed", Some(work.id), false);
    u.(receipts := u.receipts[key := Receipt(handle, fence, result, response)])
  }

  /** A call that completes one leased work and files one receipt for it keeps the ledger. */
  lemma LedgerWith(t: State, u: State, i: nat, key: string, receipt: Receipt)
    requires Ledger(t) && Evolves(t, u) && |u.works| == |t.works| && i < |t.works| && key !in t.receipts
    requires u.receipts == t.receipts[key := receipt] && ReceiptSound(u, key, receipt)
    requires receipt.response.work == i + 1 && t.works[i].state == Leased
    requires forall j :: 0 <= j < |u.works| && j != i && u.works[j].state == Completed ==> t.works[j].state == Completed
    ensures Ledger(u)
  {
    hide ReceiptSound, Evolves, HasReceipt;
    ReceiptsKept(t, u);
    ReceiptsAreForCompleted(t, i);
    CompletedHaveReceipts(t, u, i, key, receipt);
  }

  lemma CompletedHaveReceipts(t: State, u: State, i: nat, key: string, receipt: Receipt)
    requires Ledger(t) && |u.works| == |t.works| && i < |t.works| && key !in t.receipts
    requires u.receipts == t.receipts[key := receipt] && receipt.response.work == i + 1
    requires forall j :: 0 <= j < |u.works| && j != i && u.works[j].state == Completed ==> t.works[j].state == Completed
    ensures forall j :: 0 <= j < |u.works| && u.works[j].state == Completed ==> HasReceipt(u, j + 1)
  {
    hide ReceiptSound;
    forall j | 0 <= j < |u.works| && u.works[j].state == Completed
      ensures HasReceipt(u, j + 1)
    {
      if j == i {
        assert key in u.receipts;
      } else {
        assert HasReceipt(t, j + 1);
        var other :| other in t.receipts && t.receipts[other].response.work == j + 1;
        assert other in u.receipts;
      }
    }
  }

  lemma CompletingKeepsSound(t: State, i: nat, handle: string, fence: Fence, key: string, result: string)
    requires Sound(t) && i < |t.works| && key !in t.receipts
    requires t.works[i].state == Leased && t.works[i].handle == Some(handle)
    ensures Sound(Completing(t, i, handle, fence, key, result))
    ensures Evolves(t, Completing(t, i, handle, fence, key, result))
  {
    hide Ledger;
    var u := Completing(t, i, handle, fence, key, result);
    assert Evolves(t, u);
    assert ReceiptSound(u, key, u.receipts[key]);
    LedgerWith(t, u, i, key, u.receipts[key]);
  }

  lemma CompletingKeeps(t: State, i: nat, handle: string, fence: Fence, key: string, result: string, issued: set<Token>)
    requires Sound(t) && Traced(t, issued) && i < |t.works| && key !in t.receipts
    requires t.works[i].state == Leased && t.works[i].handle == Some(handle)
    ensures Keeps(t, Completing(t, i, handle, fence, key, result), issued)
  {
    hide Sound, Evolves, NoRevival, Traced;
    CompletingKeepsSound(t, i, handle, fence, key, result);
    DroppingKeepsTraces(t, Completing(t, i, handle, fence, key, result), i, issued);
  }

  /** A work that loses its lease takes its token out of circulation; nothing else changes hands. */
  lemma DroppingKeepsTraces(s: State, t: State, i: nat, issued: set<Token>)
    requires Traced(s, issued) && i < |s.works| && |t.works| == |s.works|
    requires t.works[i].lease.None? && t.works[i].handle == s.works[i].handle
    requires forall j :: 0 <= j < |s.works| && j != i ==> t.works[j] == s.works[j]
    ensures NoRevival(s, t, issued) && Traced(t, issued + LiveTokens(t))
  {
    forall token | Live(t, token)
      ensures Live(s, token)
    {
      var j :| 0 <= j < |t.works| && Holds(t.works[j], token);
      assert j != i;
      assert Holds(s.works[j], token);
    }
    LiveTokensAreLive(t, issued);
    assert issued + LiveTokens(t) == issued;
    forall j | 0 <= j < |t.works|
      ensures Newest(t.works[j], issued)
      ensures t.works[j].handle == s.works[j].handle
    {
      assert Newest(s.works[j], issued);
    }
  }

  lemma SubmitKeeps(s: State, handle: string, fence: Fence, key: string, result: string, now: real, issued: set<Token>)
    requires Sound(s) && Traced(s, issued)
    ensures Keeps(s, Submit(s, handle, fence, key, result, now).0, issued)
  {
    hide Numbered, Ledger, QuestionsSound, LeasesSound, Evolves, NoRevival, PassAll, Traced;
    var t := Sweep(s, now);
    PassKeeps(s, Expire(now), "lease_expired", issued);
    NothingKeeps(s, issued);
    var (u, submitted) := Submit(s, handle, fence, key, result, now);
    if submitted.Done? {
      var found := First(s.works, (work: Work) => ByHandle(work, handle));
      PassedWork(s, t, Expire(now), found.value);
      assert u == Completing(t, found.value, handle, fence, key, result);
      CompletingKeeps(t, found.value, handle, fence, key, result, issued);
      KeepsAfter(s, t, u, issued);
    }
  }

  lemma PassedWork(s: State, t: State, pass: Pass, i: nat)
    requires Passed(s, t, pass, |s.works|) && i < |s.works|
    ensures t.works[i].handle == s.works[i].handle && t.receipts == s.receipts
  {
  }

  lemma NothingKeeps(s: State, issued: set<Token>)
    requires Sound(s) && Traced(s, issued)
    ensures Keeps(s, s, issued)
  {
    hide Ledger, Numbered, LeasesSound, QuestionsSound;
    LiveTokensAreLive(s, issued);
    assert issued + LiveTokens(s) == issued;
  }

  // ---- questions, control, reload ----

  /** A call that only changes questions and appends events. */
  lemma QuestionStepKeeps(s: State, t: State, issued: set<Token>)
    requires Sound(s) && Traced(s, issued)
    requires t == s.(questions := t.questions, current := t.current, shared := t.shared, events := t.events,
                     nextEvent := t.nextEvent)
    requires s.events <= t.events && t.nextEvent - |t.events| == s.nextEvent - |s.events|
    requires forall k :: |s.events| <= k < |t.events| ==> t.events[k].sequence == s.nextEvent + (k - |s.events|)
    requires QuestionsSound(t)
    ensures Keeps(s, t, issued)
  {
    hide Ledger, QuestionsSound;
    assert Evolves(s, t);
    LedgerKept(s, t);
    SameWorksKeepTraces(s, t, issued);
  }

  lemma SameWorksKeepTraces(s: State, t: State, issued: set<Token>)
    requires Traced(s, issued) && t.works == s.works
    ensures NoRevival(s, t, issued) && Traced(t, issued) && Traced(t, issued + LiveTokens(t))
  {
    forall token
      ensures Live(t, token) <==> Live(s, token)
    {
    }
    LiveTokensAreLive(t, issued);
    assert issued + LiveTokens(t) == issued;
  }

  lemma PublishKeeps(s: State, round: string, text: string, request: string, issued: set<Token>)
    requires Sound(s) && Traced(s, issued)
    ensures Keeps(s, PublishQuestion(s, round, text, request).0, issued)
  {
    hide Numbered, Ledger, LeasesSound, Traced, Keeps;
    var t := PublishQuestion(s, round, text, request).0;
    if t == s {
      NothingKeeps(s, issued);
    } else {
      assert forall i :: 0 <= i < |s.questions| ==> !SameOrigin(s.questions[i], round, request);
      QuestionStepKeeps(s, t, issued);
    }
  }

  lemma AnswerKeeps(s: State, round: string, text: string, request: string, issued: set<Token>)
    requires Sound(s) && Traced(s, issued)
    ensures Keeps(s, AnswerQuestion(s, round, text, request).0, issued)
  {
    hide Numbered, Ledger, LeasesSound, Traced, Evolves, NoRevival;
    var u := AnswerQuestion(s, round, text, request).0;
    NothingKeeps(s, issued);
    if u != s {
      var (t, queued) := Enqueue(s, text, request, Some(round));
      EnqueueKeeps(s, text, request, Some(round), issued);
      LiveTokensAreLive(t, issued + LiveTokens(t));
      EnqueueIssuesNothing(s, text, request, Some(round), issued);
      if queued.Ok? {
        QuestionStepKeeps(t, u, issued);
        KeepsAfter(s, t, u, issued);
      }
    }
  }

  lemma EnqueueIssuesNothing(s: State, text: string, request: string, round: Option<string>, issued: set<Token>)
    requires Traced(s, issued)
    ensures Traced(Enqueue(s, text, request, round).0, issued)
    ensures var t := Enqueue(s, text, request, round).0;
            t.questions == s.questions && t.current == s.current && t.shared == s.shared
  {
    var t := Enqueue(s, text, request, round).0;
    if t != s {
      AppendKeepsTraces(s, t, issued);
      forall token | Live(t, token)
        ensures token in issued
      {
        var i :| 0 <= i < |t.works| && Holds(t.works[i], token);
        assert Holds(s.works[i], token);
      }
      LiveTokensAreLive(t, issued);
      assert issued + LiveTokens(t) == issued;
    }
  }

  lemma ControlKeeps(s: State, action: Mode, issued: set<Token>)
    requires Sound(s) && Traced(s, issued) && action != Active
    ensures Keeps(s, Control(s, action), issued)
  {
    hide Numbered, Ledger, Traced, Evolves, NoRevival, QuestionsSound, Passed, PassTo;
    var t := s.(mode := action);
    var u := if t.current.Some? && t.current.value.state == Awaiting
             then SetCurrent(t, t.current.value.(state := Cancelled, control := Some(action)))
             else t;
    CancelKeeps(s, action, issued);
    forall i | 0 <= i < |u.works|
      ensures WorkSound(u.works[i], s.epoch)
    {
      WorkOf(s, i);
    }
    var v := PassAll(u, Supersede, "superseded");
    PassKeepsOpen(u, v, Supersede, "superseded", s.epoch, issued);
    var w := Control(s, action);
    EmitKeeps(v, "status", if action == Paused then "pause" else "switch", issued);
    EvolvesOn(s, u, v);
    EvolvesOn(s, v, w);
    NoRevivalOn(s, u, v, issued);
    NoRevivalOn(s, v, w, issued);
  }

  lemma NoRevivalOn(s: State, t: State, u: State, issued: set<Token>)
    requires NoRevival(s, t, issued) && NoRevival(t, u, issued)
    ensures NoRevival(s, u, issued)
  {
  }

  lemma CancelKeeps(s: State, action: Mode, issued: set<Token>)
    requires Sound(s) && Traced(s, issued) && action != Active
    ensures var t := s.(mode := action);
            var u := if t.current.Some? && t.current.value.state == Awaiting
                     then SetCurrent(t, t.current.value.(state := Cancelled, control := Some(action)))
                     else t;
            && u.works == s.works && u.epoch == s.epoch && u.mode == action
            && Numbered(u) && Ledger(u) && QuestionsSound(u) && Evolves(s, u)
            && Traced(u, issued) && NoRevival(s, u, issued)
  {
    hide Ledger, LeasesSound;
    var t := s.(mode := action);
    var u := if t.current.Some? && t.current.value.state == Awaiting
             then SetCurrent(t, t.current.value.(state := Cancelled, control := Some(action)))
             else t;
    assert Evolves(s, u);
    LedgerKept(s, u);
    SameWorksKeepTraces(s, u, issued);
  }

  /** A pass over works whose leases are sound for `epoch`, whatever the mode and epoch of the journal. */
  lemma PassKeepsOpen(s: State, t: State, pass: Pass, status: string, epoch: string, issued: set<Token>)
    requires Numbered(s) && Ledger(s) && QuestionsSound(s) && Traced(s, issued)
    requires forall i :: 0 <= i < |s.works| ==> WorkSound(s.works[i], epoch)
    requires t == PassAll(s, pass, status)
    ensures Numbered(t) && Ledger(t) && QuestionsSound(t) && Traced(t, issued)
    ensures Evolves(s, t) && NoRevival(s, t, issued)
    ensures forall i :: 0 <= i < |t.works| ==> WorkSound(t.works[i], epoch)
    ensures pass.Restart? ==> forall i :: 0 <= i < |t.works| ==> t.works[i].state != Leased
    ensures pass.Supersede? ==>
              forall i :: 0 <= i < |t.works| ==> t.works[i].state == Completed || t.works[i].state == Superseded
    ensures t.epoch == s.epoch && t.mode == s.mode && |t.works| == |s.works|
    ensures forall i :: 0 <= i < |t.works| && (s.works[i].state == Completed || s.works[i].state == Superseded) ==>
              t.works[i] == s.works[i]
  {
    hide Numbered, Ledger, QuestionsSound, Traced, Evolves, NoRevival, Passed, WorkSound, PassTo;
    PassEffect(s, pass, status, |s.works|);
    PassKeepsNumbers(s, t, pass);
    PassCompletesNothing(s, t, pass);
    LedgerKept(s, t);
    PassKeepsTraces(s, t, pass, issued);
    PassKeepsLeases(s, t, pass, epoch);
    PassKeepsRest(s, t, pass);
  }

  lemma EmitKeeps(s: State, kind: string, status: string, issued: set<Token>)
    requires Numbered(s) && Ledger(s) && QuestionsSound(s) && Traced(s, issued)
    ensures var t := Emit(s, kind, status, None, true);
            && Numbered(t) && Ledger(t) && QuestionsSound(t) && Evolves(s, t) && NoRevival(s, t, issued)
            && Traced(t, issued + LiveTokens(t))
  {
    hide Ledger;
    var t := Emit(s, kind, status, None, true);
    assert Evolves(s, t);
    LedgerKept(s, t);
    SameWorksKeepTraces(s, t, issued);
  }

  lemma ReloadKeeps(s: State, epoch: string, issued: set<Token>)
    requires Sound(s) && Traced(s, issued) && epoch != ""
    ensures Keeps(s, Reload(s, epoch), issued)
  {
    hide Numbered, Ledger, Traced, Evolves, NoRevival, QuestionsSound, Passed, PassTo;
    var t := s.(epoch := epoch, shared := false);
    ReloadStart(s, epoch, issued);
    forall i | 0 <= i < |t.works|
      ensures WorkSound(t.works[i], s.epoch)
    {
      WorkOf(s, i);
    }
    if s.epoch != epoch {
      var u := PassAll(t, Restart, "requeued");
      PassKeepsOpen(t, u, Restart, "requeued", s.epoch, issued);
      EvolvesOn(s, t, u);
      NoRevivalOn(s, t, u, issued);
      TracedLive(u, issued);
      LiveTokensAreLive(u, issued);
      assert issued + LiveTokens(u) == issued;
    }
  }

  lemma ReloadStart(s: State, epoch: string, issued: set<Token>)
    requires Sound(s) && Traced(s, issued)
    ensures var t := s.(epoch := epoch, shared := false);
            && Numbered(t) && Ledger(t) && QuestionsSound(t) && Evolves(s, t) && Traced(t, issued)
            && Traced(t, issued + LiveTokens(t)) && NoRevival(s, t, issued)
  {
    hide Ledger;
    var t := s.(epoch := epoch, shared := false);
    assert Evolves(s, t);
    LedgerKept(s, t);
    SameWorksKeepTraces(s, t, issued);
  }

  // ---- runs ----

  datatype Op =
    | OpEnqueue(text: string, request: string, forRound: Option<string>)
    | OpPublish(round: string, text: string, request: string)
    | OpAnswer(round: string, text: string, request: string)
    | OpClaim(owner: string, seconds: real, now: real, claim: string, handle: string)
    | OpRenew(owner: string, claim: string, version: nat, seconds: real, now: real)
    | OpSubmit(handle: string, fence: Fence, key: string, result: string, now: real)
    | OpControl(action: Mode)
    | OpRelease(owner: string, reason: string)
    | OpReload(epoch: string)
    | OpSnapshot(now: real)

  function Apply(s: State, op: Op): State {
    match op
    case OpEnqueue(text, request, round) => Enqueue(s, text, request, round).0
    case OpPublish(round, text, request) => PublishQuestion(s, round, text, request).0
    case OpAnswer(round, text, request) => AnswerQuestion(s, round, text, request).0
    case OpClaim(owner, seconds, now, claim, handle) => ClaimNext(s, owner, seconds, now, claim, handle).0
    case OpRenew(owner, claim, version, seconds, now) => Renew(s, owner, claim, version, seconds, now).0
    case OpSubmit(handle, fence, key, result, now) => Submit(s, handle, fence, key, result, now).0
    case OpControl(action) => Control(s, action)
    case OpRelease(owner, reason) => ReleaseOwner(s, owner, reason)
    case OpReload(epoch) => Reload(s, epoch)
    case OpSnapshot(now) => Sweep(s, now)
  }

  /** Claim ids and handles are drawn fresh; the only controls are pause and switch; an epoch is never empty. */
  ghost predicate Allowed(op: Op, issued: set<Token>) {
    match op
    case OpClaim(owner, seconds, now, claim, handle) => Fresh(claim, handle, issued)
    case OpControl(action) => action != Active
    case OpReload(epoch) => epoch != ""
    case _ => true
  }

  ghost predicate AllAllowed(s: State, issued: set<Token>, ops: seq<Op>)
    decreases |ops|
  {
    ops != [] ==>
      var t := Apply(s, ops[0]);
      Allowed(ops[0], issued) && AllAllowed(t, issued + LiveTokens(t), ops[1..])
  }

  function Run(s: State, ops: seq<Op>): State
    decreases |ops|
  {
    if ops == [] then s else Run(Apply(s, ops[0]), ops[1..])
  }

  ghost function IssuedBy(s: State, issued: set<Token>, ops: seq<Op>): set<Token>
    decreases |ops|
  {
    if ops == [] then issued
    else
      var t := Apply(s, ops[0]);
      IssuedBy(t, issued + LiveTokens(t), ops[1..])
  }

  lemma ApplyKeeps(s: State, op: Op, issued: set<Token>)
    requires Sound(s) && Traced(s, issued) && Allowed(op, issued)
    ensures Keeps(s, Apply(s, op), issued)
  {
    hide Sound, Traced, Keeps, Enqueue, PublishQuestion, AnswerQuestion, ClaimNext, Renew, Submit, Control, Reload,
         PassAll, Fresh;
    match op
    case OpEnqueue(text, request, round) => EnqueueKeeps(s, text, request, round, issued);
    case OpPublish(round, text, request) => PublishKeeps(s, round, text, request, issued);
    case OpAnswer(round, text, request) => AnswerKeeps(s, round, text, request, issued);
    case OpClaim(owner, seconds, now, claim, handle) => ClaimNextKeeps(s, owner, seconds, now, claim, handle, issued);
    case OpRenew(owner, claim, version, seconds, now) => RenewKeeps(s, owner, claim, version, seconds, now, issued);
    case OpSubmit(handle, fence, key, result, now) => SubmitKeeps(s, handle, fence, key, result, now, issued);
    case OpControl(action) => ControlKeeps(s, action, issued);
    case OpRelease(owner, reason) => PassKeeps(s, Release(owner), reason, issued);
    case OpReload(epoch) => ReloadKeeps(s, epoch, issued);
    case OpSnapshot(now) => PassKeeps(s, Expire(now), "lease_expired", issued);
  }

  /**
    Over every run: the journal stays sound, finished works, receipts and events are final, a stop is never undone,
    and no token that was handed out and is no longer current becomes current again.
    */
  lemma {:induction false} RunKeeps(s: State, issued: set<Token>, ops: seq<Op>)
    requires Sound(s) && Traced(s, issued) && AllAllowed(s, issued, ops)
    ensures var t := Run(s, ops);
            && Sound(t) && Evolves(s, t) && NoRevival(s, t, issued)
            && issued <= IssuedBy(s, issued, ops) && Traced(t, IssuedBy(s, issued, ops))
    decreases |ops|
  {
    hide Sound, Traced, Evolves, NoRevival, Apply, Allowed;
    if ops == [] {
      NothingKeeps(s, issued);
    } else {
      var t := Apply(s, ops[0]);
      ApplyKeeps(s, ops[0], issued);
      RunKeeps(t, issued + LiveTokens(t), ops[1..]);
      EvolvesOn(s, t, Run(s, ops));
      RevivalAcross(s, t, Run(s, ops), issued, issued + LiveTokens(t));
    }
  }

  lemma RevivalAcross(s: State, t: State, u: State, issued: set<Token>, more: set<Token>)
    requires issued <= more && NoRevival(s, t, issued) && NoRevival(t, u, more)
    ensures NoRevival(s, u, issued)
  {
  }

  lemma InitialIsSound(epoch: string)
    requires epoch != ""
    ensures Sound(Initial(epoch)) && Traced(Initial(epoch), {})
  {
  }

  /**
    A token that was handed out and has been renewed, expired, released, completed, superseded or outlived by another
    epoch completes nothing ever again, whatever happens in between; at most it replays its own receipt.
    */
  lemma FencedForever(s: State, issued: set<Token>, ops: seq<Op>, token: Token, key: string, result: string, now: real)
    requires Sound(s) && Traced(s, issued) && AllAllowed(s, issued, ops)
    requires token in issued && !Live(s, token)
    ensures var t := Run(s, ops);
            var (u, submitted) := Submit(t, token.handle, token.fence, key, result, now);
            && !submitted.Done?
            && u.receipts == t.receipts
            && (submitted.Replayed? ==> key in t.receipts && t.receipts[key].handle == token.handle
                                        && t.receipts[key].fence == token.fence)
  {
    hide Sound, Traced, Evolves, Submit, Run, PassTo;
    RunKeeps(s, issued, ops);
    var t := Run(s, ops);
    SubmitDecides(t, token.handle, token.fence, key, result, now, IssuedBy(s, issued, ops));
    PassEffect(t, Expire(now), "lease_expired", |t.works|);
    assert LiveAt(t, token, now) ==> Live(t, token);
    assert Sweep(t, now).receipts == t.receipts;
    var (u, submitted) := Submit(t, token.handle, token.fence, key, result, now);
    assert token == Token(token.handle, token.fence);
    assert !submitted.Done?;
    assert u.receipts == t.receipts;
  }

  /** After a pause or a switch no work is ever queued or leased again, and nothing new is accepted or claimed. */
  lemma StoppedStaysStopped(s: State, issued: set<Token>, ops: seq<Op>)
    requires Sound(s) && Traced(s, issued) && AllAllowed(s, issued, ops) && s.mode != Active
    ensures var t := Run(s, ops);
            && |t.works| >= |s.works|
            && t.works[..|s.works|] == s.works
            && forall i :: 0 <= i < |t.works| ==> t.works[i].state == Completed || t.works[i].state == Superseded
  {
    hide Traced, Numbered, Ledger, QuestionsSound, Run;
    RunKeeps(s, issued, ops);
    var t := Run(s, ops);
    forall i | 0 <= i < |s.works|
      ensures t.works[i] == s.works[i]
    {
      assert WorkEvolves(s.works[i], t.works[i]);
    }
  }

  /** A renewal succeeds exactly for the owner, claim and latest version of a current, unexpired lease. */
  lemma RenewDecides(s: State, owner: string, claim: string, version: nat, seconds: real, now: real, issued: set<Token>)
    requires Sound(s) && Traced(s, issued)
    ensures Renew(s, owner, claim, version, seconds, now).1.Ok? <==>
              exists i :: 0 <= i < |s.works| && ByClaim(s.works[i], claim) && now < s.works[i].lease.value.expires
                          && s.works[i].lease.value.owner == owner && s.works[i].lease.value.version == version
  {
    hide Ledger, QuestionsSound, Numbered, Traced, LeasesSound, PassTo;
    var t := Sweep(s, now);
    PassEffect(s, Expire(now), "lease_expired", |s.works|);
    var found := First(t.works, (work: Work) => ByClaim(work, claim));
    forall i | 0 <= i < |s.works| && ByClaim(s.works[i], claim) && now < s.works[i].lease.value.expires
      ensures found == Some(i)
    {
      assert ByClaim(t.works[i], claim);
      ClaimIsUnique(s, issued, i, found.value);
    }
    if found.Some? {
      WorkOf(s, found.value);
      assert ByClaim(t.works[found.value], claim);
    }
  }

  lemma ClaimIsUnique(s: State, issued: set<Token>, i: nat, j: nat)
    requires Sound(s) && Traced(s, issued) && i < |s.works| && j < |s.works|
    requires s.works[i].state == Leased && s.works[j].state == Leased
    requires s.works[i].lease.Some? && s.works[j].lease.Some?
    requires s.works[i].lease.value.claim == s.works[j].lease.value.claim
    ensures i == j
  {
    hide Ledger, QuestionsSound, Numbered;
    WorkOf(s, i);
    WorkOf(s, j);
    assert Newest(s.works[i], issued);
    var token := TokenOf(s.works[j]);
    assert Holds(s.works[j], token);
    assert token in issued;
    assert s.works[i].handle == s.works[j].handle;
  }

  // ---- answers ----

  /**
    Repeating an answer gives the same work again exactly when, at the time of the first call, the current question was
    the list's own record. After a reload it is a copy: the answer is then never written to the list, and the repeated
    call is refused as stale.
    */
  lemma AnswerRepeats(s: State, round: string, text: string, request: string)
    requires Sound(s)
    requires forall i :: 0 <= i < |s.questions| ==> s.questions[i].answerRequest != Some(request)
    requires AnswerQuestion(s, round, text, request).1.Ok?
    ensures var (t, first) := AnswerQuestion(s, round, text, request);
            && (AnswerQuestion(t, round, text, request) == (t, first) <==> s.shared)
            && (!s.shared ==> AnswerQuestion(t, round, text, request) == (t, Err(StaleRound)))
  {
    hide Ledger, Numbered, LeasesSound;
    var (t, first) := AnswerQuestion(s, round, text, request);
    EnqueueIssuesNothingNew(s, text, request, Some(round));
    var found := First(t.questions, (question: Question) => question.answerRequest == Some(request));
    if s.shared {
      assert t.questions[|t.questions| - 1].answerRequest == Some(request);
    }
  }

  lemma {:induction false} RunOneMore(s: State, ops: seq<Op>, op: Op)
    ensures Run(s, ops + [op]) == Apply(Run(s, ops), op)
    decreases |ops|
  {
    hide Apply;
    if ops == [] {
      assert ([] + [op])[1..] == [];
      assert Run(Apply(s, op), []) == Apply(s, op);
    } else {
      assert (ops + [op])[1..] == ops[1..] + [op];
      RunOneMore(Apply(s, ops[0]), ops[1..], op);
    }
  }

  /** The call at `i` recorded a new question. */
  ghost predicate RecordsAt(s: State, ops: seq<Op>, i: nat)
    requires i < |ops|
  {
    ops[i].OpPublish? && |Run(s, ops[..i]).questions| < |Run(s, ops[..i + 1]).questions|
  }

  /** The call at `i` recorded a question, and no later call reloaded the journal. */
  ghost predicate AskedAt(s: State, ops: seq<Op>, i: nat) {
    i < |ops| && RecordsAt(s, ops, i) && forall j :: i < j < |ops| ==> !ops[j].OpReload?
  }

  /** Some call recorded a question, and the journal has not been reloaded since. */
  ghost predicate AskedSinceReload(s: State, ops: seq<Op>) {
    exists i: nat :: AskedAt(s, ops, i)
  }

  lemma ApplyShared(s: State, op: Op)
    ensures Apply(s, op).shared <==>
              !op.OpReload? && (s.shared || (op.OpPublish? && |s.questions| < |Apply(s, op).questions|))
  {
    hide PassAll, Enqueue;
    PassKeepsQuestions(s);
    match op
    case OpAnswer(round, text, request) => EnqueueIssuesNothingNew(s, text, request, Some(round));
    case OpEnqueue(text, request, round) => EnqueueIssuesNothingNew(s, text, request, round);
    case OpControl(action) => ControlKeepsShared(s, action);
    case OpReload(epoch) => PassKeepsQuestions(s.(epoch := epoch, shared := false));
    case _ =>
  }

  lemma ControlKeepsShared(s: State, action: Mode)
    ensures Control(s, action).shared == s.shared
  {
    hide PassAll;
    var t := s.(mode := action);
    PassKeepsQuestions(t);
    if t.current.Some? && t.current.value.state == Awaiting {
      PassKeepsQuestions(SetCurrent(t, t.current.value.(state := Cancelled, control := Some(action))));
    }
  }

  /** Over every run, the current question is the list's own record exactly when it was asked since the last reload. */
  lemma {:induction false} SharedIff(s: State, ops: seq<Op>)
    requires !s.shared
    ensures Run(s, ops).shared <==> AskedSinceReload(s, ops)
    decreases |ops|
  {
    hide Apply, Run;
    if ops == [] {
      RunNothing(s);
    } else {
      var last := |ops| - 1;
      var most := ops[..last];
      assert ops == most + [ops[last]];
      RunOneMore(s, most, ops[last]);
      SharedIff(s, most);
      ApplyShared(Run(s, most), ops[last]);
      AskedOneMore(s, most, ops[last]);
    }
  }

  lemma RunNothing(s: State)
    ensures Run(s, []) == s
  {
  }

  lemma AskedOneMore(s: State, ops: seq<Op>, op: Op)
    ensures AskedSinceReload(s, ops + [op]) <==>
              !op.OpReload? && (AskedSinceReload(s, ops)
                                || (op.OpPublish? && |Run(s, ops).questions| < |Run(s, ops + [op]).questions|))
  {
    hide AskedAt, Run;
    var longer := ops + [op];
    AskedLast(s, ops, op);
    forall i: nat | i < |ops|
      ensures AskedAt(s, longer, i) <==> !op.OpReload? && AskedAt(s, ops, i)
    {
      AskedBefore(s, ops, op, i);
    }
    forall i: nat | AskedAt(s, ops, i)
      ensures i < |ops|
    {
      AskedInRange(s, ops, i);
    }
    forall i: nat | AskedAt(s, longer, i)
      ensures i <= |ops|
    {
      AskedInRange(s, longer, i);
    }
  }

  lemma AskedInRange(s: State, ops: seq<Op>, i: nat)
    requires AskedAt(s, ops, i)
    ensures i < |ops|
  {
  }

  lemma AskedLast(s: State, ops: seq<Op>, op: Op)
    ensures AskedAt(s, ops + [op], |ops|) <==> op.OpPublish? && |Run(s, ops).questions| < |Run(s, ops + [op]).questions|
  {
    hide Run;
    assert (ops + [op])[..|ops|] == ops && (ops + [op])[..|ops| + 1] == ops + [op];
  }

  lemma AskedBefore(s: State, ops: seq<Op>, op: Op, i: nat)
    requires i < |ops|
    ensures AskedAt(s, ops + [op], i) <==> !op.OpReload? && AskedAt(s, ops, i)
  {
    hide Run;
    var longer := ops + [op];
    assert longer[..i] == ops[..i] && longer[..i + 1] == ops[..i + 1];
    assert forall j :: 0 <= j < |ops| ==> longer[j] == ops[j];
    assert longer[|ops|] == op;
  }

  /**
    After any run from the start: repeating an answer that has just been accepted gives the same work exactly when a
    question was recorded since the last reload; otherwise the repeated call is refused as stale.
    */
  lemma AnswerRepeatsIff(epoch: string, ops: seq<Op>, round: string, text: string, request: string)
    requires epoch != "" && AllAllowed(Initial(epoch), {}, ops)
    requires var s := Run(Initial(epoch), ops);
             && AnswerQuestion(s, round, text, request).1.Ok?
             && forall i :: 0 <= i < |s.questions| ==> s.questions[i].answerRequest != Some(request)
    ensures var (t, first) := AnswerQuestion(Run(Initial(epoch), ops), round, text, request);
            AnswerQuestion(t, round, text, request) ==
            (t, if AskedSinceReload(Initial(epoch), ops) then first else Err(StaleRound))
  {
    hide Sound, Traced, Run, AskedSinceReload, AnswerQuestion;
    InitialIsSound(epoch);
    RunKeeps(Initial(epoch), {}, ops);
    SharedIff(Initial(epoch), ops);
    AnswerRepeats(Run(Initial(epoch), ops), round, text, request);
  }

  /** A question is asked, the journal reloaded, and the question answered twice: the second answer is refused. */
  lemma ReloadedAnswerIsRefused()
    ensures var s := Run(Initial("e"), [OpPublish("r", "q", "p"), OpReload("f")]);
            var (t, first) := AnswerQuestion(s, "r", "x", "a");
            first == Ok(1) && AnswerQuestion(t, "r", "x", "a") == (t, Err(StaleRound))
  {
    var ops := [OpPublish("r", "q", "p"), OpReload("f")];
    var published := Apply(Initial("e"), ops[0]);
    assert ops[1..] == [ops[1]] && [ops[1]][1..] == [];
    assert Run(Initial("e"), ops) == Run(published, [ops[1]]) == Run(Apply(published, ops[1]), []);
  }

  lemma EnqueueIssuesNothingNew(s: State, text: string, request: string, round: Option<string>)
    ensures var t := Enqueue(s, text, request, round).0;
            t.questions == s.questions && t.current == s.current && t.shared == s.shared
  {
  }

  /** The list answers for this request: the first question it was given to, and what was made of it. */
  ghost predicate AnswerOnRecord(s: State, request: string, i: nat, question: Question) {
    && i < |s.questions| && s.questions[i] == question && question.answerRequest == Some(request)
    && (forall j :: 0 <= j < i ==> s.questions[j].answerRequest != Some(request))
  }

  /** An answer on record stays on record, and the same request never gives another question an earlier one. */
  lemma {:induction false} AnswersAreFinal(s: State, issued: set<Token>, ops: seq<Op>, request: string, i: nat,
                                           question: Question)
    requires Sound(s) && Traced(s, issued) && AllAllowed(s, issued, ops)
    requires AnswerOnRecord(s, request, i, question)
    ensures AnswerOnRecord(Run(s, ops), request, i, question)
    ensures question.work.Some? && question.answer.Some? ==>
              var t := Run(s, ops);
              AnswerQuestion(t, question.round, question.answer.value, request) == (t, Ok(question.work.value))
    decreases |ops|
  {
    hide Sound, Traced, Apply, Allowed, Keeps;
    if ops == [] {
      assert First(s.questions, (other: Question) => other.answerRequest == Some(request)) == Some(i);
    } else {
      var t := Apply(s, ops[0]);
      ApplyKeeps(s, ops[0], issued);
      ApplyKeepsAnswer(s, ops[0], request, i, question);
      KeepsSoundTraced(s, t, issued);
      AnswersAreFinal(t, issued + LiveTokens(t), ops[1..], request, i, question);
    }
  }

  lemma KeepsSoundTraced(s: State, t: State, issued: set<Token>)
    requires Keeps(s, t, issued)
    ensures Sound(t) && Traced(t, issued + LiveTokens(t))
  {
    hide Sound, Traced;
  }

  lemma ApplyKeepsAnswer(s: State, op: Op, request: string, i: nat, question: Question)
    requires Sound(s) && AnswerOnRecord(s, request, i, question)
    ensures AnswerOnRecord(Apply(s, op), request, i, question)
  {
    hide Numbered, Ledger, LeasesSound, PassAll, Enqueue, Apply;
    match op
    case OpAnswer(round, text, other) =>
      EnqueueIssuesNothingNew(s, text, other, Some(round));
      AnswerKeepsAnswer(s, round, text, other, request, i, question);
    case OpControl(action) =>
      ControlKeepsAnswer(s, action, request, i, question);
    case OpPublish(round, text, other) =>
      assert Apply(s, op) == PublishQuestion(s, round, text, other).0 by { ApplyPublish(s, op); }
    case _ =>
      OthersKeepQuestions(s, op);
  }

  lemma ApplyPublish(s: State, op: Op)
    requires op.OpPublish?
    ensures Apply(s, op) == PublishQuestion(s, op.round, op.text, op.request).0
  {
  }

  lemma AnswerKeepsAnswer(s: State, round: string, text: string, other: string, request: string, i: nat,
                          question: Question)
    requires Sound(s) && AnswerOnRecord(s, request, i, question)
    ensures AnswerOnRecord(Apply(s, OpAnswer(round, text, other)), request, i, question)
  {
    hide Numbered, Ledger, LeasesSound, Enqueue;
    EnqueueIssuesNothingNew(s, text, other, Some(round));
  }

  lemma ControlKeepsAnswer(s: State, action: Mode, request: string, i: nat, question: Question)
    requires Sound(s) && AnswerOnRecord(s, request, i, question)
    ensures AnswerOnRecord(Apply(s, OpControl(action)), request, i, question)
  {
    hide Numbered, Ledger, LeasesSound, PassAll;
    var t := s.(mode := action);
    PassKeepsQuestions(t);
    if t.current.Some? && t.current.value.state == Awaiting {
      PassKeepsQuestions(SetCurrent(t, t.current.value.(state := Cancelled, control := Some(action))));
    }
  }

  lemma OthersKeepQuestions(s: State, op: Op)
    requires !op.OpAnswer? && !op.OpControl? && !op.OpPublish?
    ensures Apply(s, op).questions == s.questions
  {
    hide PassAll;
    PassKeepsQuestions(s);
    if op.OpReload? {
      PassKeepsQuestions(s.(epoch := op.epoch, shared := false));
    }
  }

  lemma PassKeepsQuestions(s: State)
    ensures forall pass, status ::
              PassAll(s, pass, status).questions == s.questions && PassAll(s, pass, status).shared == s.shared
  {
    hide PassTo;
    forall pass, status
      ensures PassAll(s, pass, status).questions == s.questions && PassAll(s, pass, status).shared == s.shared
    {
      PassEffect(s, pass, status, |s.works|);
    }
  }

  // ---- what single calls promise ----

  /** A claim may take the work: it is queued, or its lease has expired. */
  predicate Claimable(work: Work, now: real) {
    work.state == Queued || Hits(Expire(now), work)
  }

  /** Whoever holds an unexpired lease, except for these tokens, goes on holding it. */
  ghost predicate HoldersKept(s: State, t: State, now: real, except: set<Token>) {
    forall token :: LiveAt(s, token, now) && token !in except ==> LiveAt(t, token, now)
  }

  lemma SweepKeepsHolders(s: State, now: real)
    ensures HoldersKept(s, Sweep(s, now), now, {})
    ensures |Sweep(s, now).works| == |s.works|
    ensures Sweep(s, now).epoch == s.epoch && Sweep(s, now).mode == s.mode && Sweep(s, now).receipts == s.receipts
    ensures forall i :: 0 <= i < |s.works| ==>
              && Sweep(s, now).works[i].generation == s.works[i].generation
              && Sweep(s, now).works[i].handle == s.works[i].handle
              && (Sweep(s, now).works[i].state == Queued <==> Claimable(s.works[i], now))
              && (Hits(Expire(now), s.works[i]) || Sweep(s, now).works[i] == s.works[i])
  {
    hide PassTo;
    var t := Sweep(s, now);
    PassEffect(s, Expire(now), "lease_expired", |s.works|);
    forall token | LiveAt(s, token, now)
      ensures LiveAt(t, token, now)
    {
      var i :| 0 <= i < |s.works| && Holds(s.works[i], token) && now < s.works[i].lease.value.expires;
      assert Holds(t.works[i], token);
    }
  }

  /** The first claimable work is leased to the caller under the new claim and handle. */
  ghost predicate ClaimedAt(s: State, t: State, i: nat, owner: string, seconds: real, now: real, claim: string,
                            handle: string)
  {
    && i < |s.works| && |t.works| == |s.works| && Claimable(s.works[i], now)
    && (forall j :: 0 <= j < i ==> !Claimable(s.works[j], now))
    && Holds(t.works[i], Token(handle, Fence(owner, claim, 1, s.epoch, s.works[i].generation + 1)))
    && t.works[i].lease.value.expires == now + seconds
  }

  /**
    A claim succeeds exactly when the journal is active and some work is queued or has expired; it takes the first such
    work, and never one whose lease is still running.
    */
  lemma ClaimDecides(s: State, owner: string, seconds: real, now: real, claim: string, handle: string)
    ensures var (t, r) := ClaimNext(s, owner, seconds, now, claim, handle);
            && (r.Err? <==> seconds <= 0.0)
            && (r == Ok(None) <==> seconds > 0.0 && (s.mode != Active
                                                     || forall i :: 0 <= i < |s.works| ==> !Claimable(s.works[i], now)))
            && (r.Ok? && r.value.Some? ==> ClaimedAt(s, t, r.value.value, owner, seconds, now, claim, handle))
            && HoldersKept(s, t, now, {})
  {
    hide PassAll, Claimable;
    var swept := Sweep(s, now);
    SweepKeepsHolders(s, now);
    var (t, r) := ClaimNext(s, owner, seconds, now, claim, handle);
    var found := First(swept.works, (work: Work) => work.state == Queued);
    forall i | 0 <= i < |s.works|
      ensures swept.works[i].state == Queued <==> Claimable(s.works[i], now)
    {
    }
    if r.Ok? && r.value.Some? {
      OneWorkKeepsHolders(swept, t, found.value, now, {});
    }
  }

  /** A call that changes a single work disturbs no lease but the one on that work. */
  lemma OneWorkKeepsHolders(s: State, t: State, i: nat, now: real, except: set<Token>)
    requires i < |s.works| && |t.works| == |s.works| && forall j :: 0 <= j < |s.works| && j != i ==> t.works[j] == s.works[j]
    requires forall token :: Holds(s.works[i], token) ==> token in except
    ensures HoldersKept(s, t, now, except)
  {
    forall token | LiveAt(s, token, now) && token !in except
      ensures LiveAt(t, token, now)
    {
      var j :| 0 <= j < |s.works| && Holds(s.works[j], token) && now < s.works[j].lease.value.expires;
      assert t.works[j] == s.works[j];
    }
  }

  lemma HoldersKeptOn(s: State, t: State, u: State, now: real, except: set<Token>)
    requires HoldersKept(s, t, now, {}) && HoldersKept(t, u, now, except)
    ensures HoldersKept(s, u, now, except)
  {
  }

  /** The lease of the work at `i` has a new version and expiry, and no other running lease is disturbed. */
  ghost predicate RenewedAt(s: State, t: State, i: nat, owner: string, claim: string, version: nat, seconds: real,
                            now: real)
  {
    && i < |s.works| && |t.works| == |s.works|
    && s.works[i].state == Leased && s.works[i].handle.Some? && s.works[i].lease.Some?
    && var token := TokenOf(s.works[i]);
    && token.fence == Fence(owner, claim, version, s.epoch, s.works[i].generation)
    && Holds(t.works[i], token.(fence := token.fence.(version := version + 1)))
    && t.works[i].lease.value.expires == now + seconds
    && !Live(t, token) && HoldersKept(s, t, now, {token})
  }

  /** A renewal raises the version and the expiry of the one lease; the token of the older version is void at once. */
  lemma RenewEffect(s: State, owner: string, claim: string, version: nat, seconds: real, now: real, issued: set<Token>)
    requires Sound(s) && Traced(s, issued)
    ensures var (t, r) := Renew(s, owner, claim, version, seconds, now);
            r.Ok? ==> RenewedAt(s, t, r.value, owner, claim, version, seconds, now)
  {
    hide Ledger, QuestionsSound, Numbered, LeasesSound, Traced, PassAll;
    var swept := Sweep(s, now);
    SweepKeepsHolders(s, now);
    var (t, r) := Renew(s, owner, claim, version, seconds, now);
    if r.Ok? {
      WorkOf(s, r.value);
      var token := TokenOf(s.works[r.value]);
      assert swept.works[r.value] == s.works[r.value];
      OneWorkKeepsHolders(swept, t, r.value, now, {token});
      HoldersKeptOn(s, swept, t, now, {token});
      NotHeldElsewhere(s, t, r.value, token, issued);
    }
  }

  /** A token whose own work no longer carries it is not live: handles are not shared. */
  lemma NotHeldElsewhere(s: State, t: State, i: nat, token: Token, issued: set<Token>)
    requires Traced(s, issued) && i < |s.works| && |t.works| == |s.works| && s.works[i].handle == Some(token.handle)
    requires forall j :: 0 <= j < |s.works| ==> t.works[j].handle == s.works[j].handle
    requires !Holds(t.works[i], token)
    ensures !Live(t, token)
  {
    if Live(t, token) {
      var j :| 0 <= j < |t.works| && Holds(t.works[j], token);
      HandleIsUnique(s, issued, token.handle, i);
      HandleIsUnique(s, issued, token.handle, j);
    }
  }

  /** What a completion does: one receipt more, one work completed with the outcome, its token void, the others as they were. */
  lemma SubmitEffect(s: State, handle: string, fence: Fence, key: string, result: string, now: real, issued: set<Token>)
    requires Sound(s) && Traced(s, issued)
    ensures var (t, submitted) := Submit(s, handle, fence, key, result, now);
            && (submitted.Done? ==>
                  && t.receipts == s.receipts[key := Receipt(handle, fence, result, submitted.response)]
                  && 1 <= submitted.response.work <= |s.works| && |t.works| == |s.works|
                  && Holds(s.works[submitted.response.work - 1], Token(handle, fence))
                  && t.works[submitted.response.work - 1].result == Some(result)
                  && !Live(t, Token(handle, fence)) && HoldersKept(s, t, now, {Token(handle, fence)}))
            && (!submitted.Done? ==> t.receipts == s.receipts && HoldersKept(s, t, now, {}))
  {
    hide Ledger, QuestionsSound, Traced, LeasesSound, PassAll;
    var (t, submitted) := Submit(s, handle, fence, key, result, now);
    var swept := Sweep(s, now);
    SweepKeepsHolders(s, now);
    if submitted.Done? {
      var i := First(s.works, (work: Work) => ByHandle(work, handle)).value;
      assert ByHandle(s.works[i], handle);
      assert swept.works[i] == s.works[i];
      assert s.works[i].id == i + 1;
      OneWorkKeepsHolders(swept, t, i, now, {Token(handle, fence)});
      HoldersKeptOn(s, swept, t, now, {Token(handle, fence)});
      NotHeldElsewhere(s, t, i, Token(handle, fence), issued);
    }
  }

  /** After a stop nothing is open: no work, no token, no question. */
  lemma ControlEffect(s: State, action: Mode, issued: set<Token>)
    requires Sound(s) && Traced(s, issued) && action != Active
    ensures var t := Control(s, action);
            && t.mode == action && t.receipts == s.receipts
            && (forall i :: 0 <= i < |t.works| ==> t.works[i].state == Completed || t.works[i].state == Superseded)
            && (forall token :: !Live(t, token)) && (t.current.Some? ==> t.current.value.state != Awaiting)
  {
    hide PassTo, Numbered, Ledger, QuestionsSound, Traced, Evolves, NoRevival;
    var t := s.(mode := action);
    var u := if t.current.Some? && t.current.value.state == Awaiting
             then SetCurrent(t, t.current.value.(state := Cancelled, control := Some(action)))
             else t;
    PassEffect(u, Supersede, "superseded", |u.works|);
    forall i | 0 <= i < |s.works|
      ensures var work := Control(s, action).works[i]; work.state == Completed || work.state == Superseded
    {
      WorkOf(s, i);
    }
  }

  /** A release takes exactly the leases of its owner; every other work stays as it is. */
  lemma ReleaseEffect(s: State, owner: string, reason: string)
    ensures var t := ReleaseOwner(s, owner, reason);
            && |t.works| == |s.works| && t.receipts == s.receipts
            && (forall i :: 0 <= i < |s.works| ==>
                  t.works[i] == if Hits(Release(owner), s.works[i]) then s.works[i].(state := Queued, lease := None)
                                else s.works[i])
            && (forall token :: Live(t, token) <==> Live(s, token) && token.fence.owner != owner)
  {
    hide PassTo;
    var t := ReleaseOwner(s, owner, reason);
    PassEffect(s, Release(owner), reason, |s.works|);
    forall token
      ensures Live(t, token) <==> Live(s, token) && token.fence.owner != owner
    {
      assert forall i :: 0 <= i < |s.works| ==> (Holds(t.works[i], token) <==>
                                                 Holds(s.works[i], token) && token.fence.owner != owner);
    }
  }

  /** A reload under another epoch requeues what was leased and voids every token; under the same one it changes no work. */
  lemma ReloadEffect(s: State, epoch: string)
    requires s.epoch != ""
    ensures var t := Reload(s, epoch);
            && |t.works| == |s.works| && t.receipts == s.receipts && t.questions == s.questions && !t.shared
            && (forall i :: 0 <= i < |s.works| ==>
                  t.works[i] == if epoch != s.epoch && s.works[i].state == Leased
                                then s.works[i].(state := Queued, lease := None) else s.works[i])
            && (epoch != s.epoch ==> forall token :: !Live(t, token))
  {
    hide PassTo;
    var t := s.(epoch := epoch, shared := false);
    PassEffect(t, Restart, "requeued", |t.works|);
  }

  /** Enqueueing accepts a request exactly when it is new to an active journal or repeats the work made for it. */
  lemma EnqueueDecides(s: State, text: string, request: string, round: Option<string>)
    requires Sound(s)
    ensures var (t, r) := Enqueue(s, text, request, round);
            && (r.Ok? ==>
                  && r.value < |t.works| && t.works[r.value].request == request && t.works[r.value].text == text
                  && t.works[r.value].round == round && t.works[r.value].id == r.value + 1)
            && (r == Err(IdempotencyConflict) <==>
                  exists i :: 0 <= i < |s.works| && s.works[i].request == request
                              && (s.works[i].text != text || s.works[i].round != round))
            && (r == Err(ControlNotActive) <==>
                  s.mode != Active && forall i :: 0 <= i < |s.works| ==> s.works[i].request != request)
            && (if r.Ok? && r.value == |s.works| then t.works[..|s.works|] == s.works && |t.works| == |s.works| + 1
                else t == s)
  {
    hide Ledger, QuestionsSound, LeasesSound;
    var found := First(s.works, (work: Work) => work.request == request);
    assert found.Some? ==> s.works[found.value].request == request;
  }

  /** The first recorded question of the round or the request, if there is one. */
  ghost predicate FirstOfOrigin(s: State, i: nat, round: string, request: string) {
    && i < |s.questions| && (s.questions[i].round == round || s.questions[i].request == request)
    && forall j :: 0 <= j < i ==> s.questions[j].round != round && s.questions[j].request != request
  }

  /**
    A question is recorded exactly when its round and its request are new and no question is open; a repeated request
    gets its question back if it says the same, and nothing changes.
    */
  lemma PublishDecides(s: State, round: string, text: string, request: string)
    ensures var (t, r) := PublishQuestion(s, round, text, request);
            var asked := Question(round, text, request, Awaiting, None, None, None, None);
            && (forall i: nat :: FirstOfOrigin(s, i, round, request) ==>
                  && t == s
                  && r == (if s.questions[i].request != request then Err(StaleRound)
                           else if s.questions[i].round == round && s.questions[i].text == text then Ok(s.questions[i])
                           else Err(IdempotencyConflict)))
            && ((forall i :: 0 <= i < |s.questions| ==> s.questions[i].round != round && s.questions[i].request != request) ==>
                  && (r == Err(QuestionAlreadyOpen) <==> s.current.Some? && s.current.value.state == Awaiting)
                  && (r == Err(QuestionAlreadyOpen) || r == Ok(asked))
                  && (r.Err? ==> t == s)
                  && (r.Ok? ==> t.questions == s.questions + [asked] && t.current == Some(asked) && t.shared
                                && t.works == s.works && t.receipts == s.receipts && t.mode == s.mode))
  {
    var found := First(s.questions, (question: Question) => SameOrigin(question, round, request));
    forall i: nat | FirstOfOrigin(s, i, round, request)
      ensures found == Some(i)
    {
      assert SameOrigin(s.questions[i], round, request);
    }
    assert found.Some? ==> SameOrigin(s.questions[found.value], round, request);
  }

  /** A question that has been answered by the request, and no earlier one has. */
  ghost predicate FirstAnswered(s: State, i: nat, request: string) {
    && i < |s.questions| && s.questions[i].answerRequest == Some(request)
    && forall j :: 0 <= j < i ==> s.questions[j].answerRequest != Some(request)
  }

  /**
    An answer on record is repeated if the call says the same; a new one is accepted exactly when its round is the open
    one and its request can be made work of.
    */
  lemma AnswerDecides(s: State, round: string, text: string, request: string)
    requires Sound(s)
    ensures var (t, r) := AnswerQuestion(s, round, text, request);
            && (forall i: nat :: FirstAnswered(s, i, request) ==>
                  && t == s
                  && r == (if s.questions[i].round == round && s.questions[i].answer == Some(text) && s.questions[i].work.Some?
                           then Ok(s.questions[i].work.value) else Err(IdempotencyConflict)))
            && ((forall i :: 0 <= i < |s.questions| ==> s.questions[i].answerRequest != Some(request)) ==>
                  && (r == Err(StaleRound) <==>
                        s.current.None? || s.current.value.round != round || s.current.value.state != Awaiting)
                  && (r.Ok? <==>
                        && s.current.Some? && s.current.value.round == round && s.current.value.state == Awaiting
                        && (if exists i :: 0 <= i < |s.works| && s.works[i].request == request
                            then exists i :: 0 <= i < |s.works| && s.works[i].request == request
                                             && s.works[i].text == text && s.works[i].round == Some(round)
                            else s.mode == Active)))
  {
    hide Ledger, LeasesSound, QuestionsSound;
    EnqueueDecides(s, text, request, Some(round));
    EnqueueAccepts(s, text, request, Some(round));
    hide Enqueue;
    var found := First(s.questions, (question: Question) => question.answerRequest == Some(request));
    forall i: nat | FirstAnswered(s, i, request)
      ensures found == Some(i)
    {
    }
  }

  lemma EnqueueAccepts(s: State, text: string, request: string, round: Option<string>)
    requires Sound(s)
    ensures Enqueue(s, text, request, round).1.Ok? <==>
              if exists i :: 0 <= i < |s.works| && s.works[i].request == request
              then exists i :: 0 <= i < |s.works| && s.works[i].request == request && s.works[i].text == text
                               && s.works[i].round == round
              else s.mode == Active
    ensures Enqueue(s, text, request, round).1.Err? ==> Enqueue(s, text, request, round).1.error != StaleRound
  {
    hide Ledger, LeasesSound, QuestionsSound;
    var found := First(s.works, (work: Work) => work.request == request);
    if found.Some? {
      assert s.works[found.value].request == request;
      forall i | 0 <= i < |s.works| && s.works[i].request == request
        ensures i == found.value
      {
      }
    }
  }

  /** An answer that is accepted leaves the question answered by the one work made for the request. */
  lemma AnswerEffect(s: State, round: string, text: string, request: string)
    requires Sound(s)
    ensures var (t, r) := AnswerQuestion(s, round, text, request);
            && (r.Ok? && (forall i :: 0 <= i < |s.questions| ==> s.questions[i].answerRequest != Some(request)) ==>
                  && t.current.Some? && t.current.value.round == round && t.current.value.state == Answered
                  && t.current.value.answer == Some(text) && t.current.value.work == Some(r.value)
                  && 1 <= r.value <= |t.works| && t.works[r.value - 1].request == request
                  && t.works[r.value - 1].text == text && t.works[r.value - 1].round == Some(round))
            && (r.Ok? && s.shared ==> AnswerQuestion(t, round, text, request) == (t, r))
            && (r.Err? ==> t == s)
  {
    hide Ledger, Numbered, LeasesSound, QuestionsSound, Enqueue;
    EnqueueDecides(s, text, request, Some(round));
    EnqueueIssuesNothingNew(s, text, request, Some(round));
    var (t, r) := AnswerQuestion(s, round, text, request);
    var found := First(s.questions, (question: Question) => question.answerRequest == Some(request));
    if r.Ok? && found.None? {
      AnswerRepeats(s, round, text, request);
    }
  }
}
