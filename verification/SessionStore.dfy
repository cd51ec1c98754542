/** A session directory (xsync.py): changing a session, crashing in the middle of it, and recovering. */
module SessionStore {
  import opened Wrappers
  import opened SessionChain

  datatype EventFile = EventFile(number: nat, event: Event)

  /** What reading the state file gives: nothing usable, a session state, or some other record. */
  datatype Stored = Unreadable | Document(state: State) | Foreign(version: Option<int>)

  function Events(files: seq<EventFile>): (events: seq<Event>)
    ensures |events| == |files| && forall i :: 0 <= i < |files| ==> events[i] == files[i].event
  {
    seq(|files|, i requires 0 <= i < |files| => files[i].event)
  }

  ghost predicate Loadable(session: string, files: seq<EventFile>) {
    && (forall i :: 0 <= i < |files| ==> files[i].number == i + 1)
    && ValidChain(session, Events(files))
  }

  function Latest(files: seq<EventFile>): State
    requires files != []
  {
    files[|files| - 1].event.after
  }

  /** The state file claims a later version than the chain. */
  predicate IsNewer(stored: Stored, latest: State) {
    match stored
    case Unreadable => false
    case Document(state) => state != latest && state.version > latest.version
    case Foreign(version) => version.Some? && version.value > latest.version
  }

  /** The write that brings the state file up to the chain. */
  function Repairs(stored: Stored, latest: State): nat {
    if stored == Document(latest) then 0 else 1
  }

  datatype Failure = BrokenChain | NoEvents | StateIsNewer | InvalidChange | Died

  lemma ExtendChain(session: string, files: seq<EventFile>, event: Event)
    requires Loadable(session, files) && files != []
    requires event.sequence == |files| + 1 && event.session == session && event.fromVersion == |files|
    requires event.toVersion == |files| + 1 && event.after.version == |files| + 1
    requires Materialized(event.after, session) && PayloadValid(event.payload)
    requires ValidTransition(Latest(files), event.payload, event.after)
    ensures Loadable(session, files + [EventFile(|files| + 1, event)])
  {
    hide Materialized, PayloadValid, ValidTransition, ValidStart;
    var longer := files + [EventFile(|files| + 1, event)];
    forall i | 0 <= i < |longer|
      ensures EventFits(session, Events(longer), i)
    {
      assert i < |files| ==> EventFits(session, Events(files), i);
    }
  }

  lemma TransitionKeepsSession(before: State, payload: Payload, after: State)
    requires ValidTransition(before, payload, after)
    ensures after.session == before.session
  {
    hide FindLesson, FindFeedback, FindAttempt, LastWithId, KeyConsumed, ReviewAdded;
  }

  lemma LatestFits(session: string, files: seq<EventFile>)
    requires Loadable(session, files) && files != []
    ensures Latest(files).version == |files| && Latest(files).session == session
  {
    hide PayloadValid, ValidTransition, ValidStart;
    assert EventFits(session, Events(files), |files| - 1);
  }

  /** A session directory: numbered event files and one state file. `life` is how many writes the process survives. */
  class SessionDirectory {
    const session: string
    var files: seq<EventFile>
    var stored: Stored
    var life: nat

    constructor (session: string, files: seq<EventFile>, stored: Stored, life: nat)
      ensures this.session == session && this.files == files && this.stored == stored && this.life == life
    {
      this.session, this.files, this.stored, this.life := session, files, stored, life;
    }

    /** The validator walks the files in the order of their numbers. */
    method LoadChain() returns (valid: bool)
      ensures valid <==> Loadable(session, files)
    {
      hide EventFits;
      var events := Events(files);
      for i := 0 to |files|
        invariant forall j :: 0 <= j < i ==> files[j].number == j + 1 && EventFits(session, events, j)
      {
        if files[i].number != i + 1 || !EventFits(session, events, i) {
          return false;
        }
      }
      valid := true;
    }

    method WriteState(state: State) returns (dead: bool)
      modifies this`stored, this`life
      ensures dead <==> old(life) == 0
      ensures stored == if dead then old(stored) else Document(state)
      ensures life == if dead then 0 else old(life) - 1
    {
      if life == 0 {
        return true;
      }
      life := life - 1;
      stored := Document(state);
      dead := false;
    }

    method WriteEvent(event: Event, number: nat) returns (dead: bool)
      modifies this`files, this`life
      ensures dead <==> old(life) == 0
      ensures files == if dead then old(files) else old(files) + [EventFile(number, event)]
      ensures life == if dead then 0 else old(life) - 1
    {
      if life == 0 {
        return true;
      }
      life := life - 1;
      files := files + [EventFile(number, event)];
      dead := false;
    }

    /**
      The chain is the authority: recovery gives its last state and repairs the state file, unless the chain is broken
      or empty, or the state file claims to be newer.
      */
    method Recover() returns (result: Result<State, Failure>)
      modifies this`stored, this`life
      ensures result.Ok? ==> Loadable(session, files) && files != [] && result.value == Latest(files)
                             && stored == Document(Latest(files)) && !old(IsNewer(stored, Latest(files)))
      ensures result == Err(BrokenChain) <==> !Loadable(session, files)
      ensures result == Err(NoEvents) <==> Loadable(session, files) && files == []
      ensures result == Err(StateIsNewer) <==>
                Loadable(session, files) && files != [] && old(IsNewer(stored, Latest(files)))
      ensures result.Err? ==> stored == old(stored) && result.error != InvalidChange
      ensures result == Err(Died) ==> Loadable(session, files) && files != [] && old(life) < old(Repairs(stored, Latest(files)))
      ensures result.Ok? ==> life + old(Repairs(stored, Latest(files))) == old(life)
    {
      hide Loadable;
      var valid := LoadChain();
      if !valid {
        return Err(BrokenChain);
      }
      if files == [] {
        return Err(NoEvents);
      }
      var latest := Latest(files);
      if stored == Document(latest) {
        return Ok(latest);
      }
      if IsNewer(stored, latest) {
        return Err(StateIsNewer);
      }
      var dead := WriteState(latest);
      if dead {
        return Err(Died);
      }
      result := Ok(latest);
    }

    /**
      A change of the session. Whenever it is cut short, the directory holds either the old chain or the chain with the
      one new event, it is loadable, and its state file is not newer: the next recovery gives exactly that last state.
      A change is made exactly when the chain allows it and the process lives to write its event; it is refused exactly
      when the chain does not allow it.
      */
    method Mutate(payload: Payload, transformed: State) returns (result: Result<State, Failure>)
      modifies this`files, this`stored, this`life
      ensures result == Err(BrokenChain) <==> !old(Loadable(session, files))
      ensures old(Loadable(session, files)) && old(files) != [] && !old(IsNewer(stored, Latest(files))) ==>
                && Loadable(session, files) && files != [] && !IsNewer(stored, Latest(files))
                && (files == old(files) || (|files| == |old(files)| + 1 && files[..|old(files)|] == old(files)
                                            && files[|old(files)|].event.payload == payload
                                            && Latest(files) == transformed.(version := |files|)))
                && (result.Ok? ==> result.value == Latest(files) && stored == Document(Latest(files))
                                   && (files == old(files) ==> transformed == old(Latest(files))))
                && (transformed == old(Latest(files)) ==>
                      && files == old(files)
                      && result == if old(life) < old(Repairs(stored, Latest(files))) then Err(Died) else Ok(transformed))
                && (var next := transformed.(version := |old(files)| + 1);
                    transformed != old(Latest(files)) && !Allowed(old(Latest(files)), payload, next) ==>
                      && files == old(files)
                      && result == if old(life) < old(Repairs(stored, Latest(files))) then Err(Died) else Err(InvalidChange))
                && (var next := transformed.(version := |old(files)| + 1);
                    transformed != old(Latest(files)) && Allowed(old(Latest(files)), payload, next) ==>
                      && (files != old(files) <==> old(life) > old(Repairs(stored, Latest(files))))
                      && result == if old(life) < old(Repairs(stored, Latest(files))) + 2 then Err(Died) else Ok(next))
      ensures result.Err? && result.error != Died ==> files == old(files)
    {
      hide Loadable, Materialized, PayloadValid, ValidTransition;
      result := Recover();
      if result.Err? || transformed == result.value {
        return;
      }
      var state := result.value;
      LatestFits(session, files);
      var next := transformed.(version := state.version + 1);
      var number := |files| + 1;
      var event := Event(number, next.session, state.version, next.version, payload, next);
      if !Allowed(state, payload, next) {
        return Err(InvalidChange);
      }
      TransitionKeepsSession(state, payload, next);
      ExtendChain(session, files, event);
      var dead := WriteEvent(event, number);
      if dead {
        return Err(Died);
      }
      dead := WriteState(next);
      if dead {
        return Err(Died);
      }
      result := Ok(next);
    }
  }
}
