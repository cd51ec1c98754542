/**
  The session coordinator (coordinator.py): creating, resuming and handing off sessions as sequences of durable writes.
  `disk` is what is on disk; `life` is how many writes the process survives. What verifying the evidence of a
  configuration gives is an input.
  */
module Coordinator {
  import opened Wrappers
  import opened Registry
  import opened HandoffProperties

  datatype Evidence = Unverified | Verified(publishable: bool)

  datatype Failure =
    | ConfigConflict
    | ConfigMissing
    | TargetNotEmpty
    | RegistryRejected(code: Rejection)
    | RegistryStateConflict
    | DialogueMissing
    | DialogueCorrupt
    | HandoffProofInvalid
    | SessionDeactivated
    | BootstrapConflict
    | EvidenceNotPublishable
    | EvidenceFailed
    | HandoffTargetConflict
    | HistoricalIntegrity
    | CommandRejected
    | Died

  // ---- what no operation does ----

  function Rank(status: Status): nat {
    match status
    case Created => 0
    case Active => 1
    case Deactivating => 2
    case Deactivated => 3
  }

  ghost predicate OnlyQuiesced(before: seq<Entry>, after: seq<Entry>) {
    before <= after && forall i :: |before| <= i < |after| ==> IsQuiesce(after[i].action)
  }

  /** A log never shrinks; a session being deactivated takes only quiesce events; a deactivated one takes nothing. */
  ghost predicate LogProtected(w: World, t: World, session: string)
    requires session in w.logs
  {
    && session in t.logs && w.logs[session] <= t.logs[session]
    && (session in w.registry.dialogues ==>
          && (w.registry.dialogues[session].status == Deactivating ==> OnlyQuiesced(w.logs[session], t.logs[session]))
          && (w.registry.dialogues[session].status == Deactivated ==> t.logs[session] == w.logs[session]))
  }

  /** Registrations keep their configuration and only move on from created to deactivated. */
  ghost predicate Protects(w: World, t: World) {
    && w.registry.events <= t.registry.events
    && (forall session :: session in w.registry.dialogues ==>
          && session in t.registry.dialogues
          && t.registry.dialogues[session].config == w.registry.dialogues[session].config
          && Rank(w.registry.dialogues[session].status) <= Rank(t.registry.dialogues[session].status))
    && (forall session :: session in w.logs ==> LogProtected(w, t, session))
    && (forall session :: session in w.configs ==> session in t.configs && t.configs[session] == w.configs[session])
  }

  lemma ProtectsItself(w: World)
    ensures Protects(w, w)
  {
  }

  lemma ProtectsOn(w: World, t: World, u: World)
    requires Protects(w, t) && Protects(t, u)
    ensures Protects(w, u)
  {
    forall session | session in w.logs
      ensures LogProtected(w, u, session)
    {
      assert LogProtected(w, t, session) && LogProtected(t, u, session);
    }
  }

  lemma PreparingProtects(w: World, config: Config)
    ensures Protects(w, WithConfig(w, config))
    ensures Protects(w, WithLog(w, config.session))
    ensures WithConfig(w, config).registry == w.registry && WithLog(w, config.session).registry == w.registry
  {
  }

  lemma AppendProtects(w: World, session: string, entry: Entry)
    requires session in w.logs && session in w.registry.dialogues
    requires w.registry.dialogues[session].status != Deactivated
    requires w.registry.dialogues[session].status == Deactivating ==> IsQuiesce(entry.action)
    ensures Protects(w, Appended(w, session, entry))
  {
    var t := Appended(w, session, entry);
    forall other | other in w.logs
      ensures LogProtected(w, t, other)
    {
    }
  }

  lemma CreateProtects(w: World, config: Config)
    requires w.registry == EMPTY_REGISTRY
    ensures Protects(w, w.(registry := Committed(w.registry, CreateAndActivate(config),
                                                 [DialogueCreated(config), Activated(config, 1)])))
  {
    ApplyTwo(w.registry, DialogueCreated(config), Activated(config, 1));
  }

  lemma BeginProtects(w: World, config: Config)
    requires RegistrySound(w.registry) && w.registry.current.Some? && w.registry.pending.None?
    requires config.session !in w.registry.dialogues
    ensures var t := w.(registry := Committed(w.registry, Begin(HandoffId(w.registry.current.value, config)),
                                              BeginPayloads(w.registry, config)));
            && Protects(w, t) && t.registry.pending == Some(BeginOf(w.registry, config))
            && config.session in t.registry.dialogues && t.registry.dialogues[config.session].config == config
  {
    NothingCreated(w.registry, w.registry.current.value);
    BegunIs(w.registry, config);
    hide RegistrySound, Committed, BeginPayloads;
    var t := w.(registry := Committed(w.registry, Begin(HandoffId(w.registry.current.value, config)),
                                      BeginPayloads(w.registry, config)));
    SameLogsProtect(w, t);
  }

  /** A registry commit that only moves registrations on. */
  lemma SameLogsProtect(w: World, t: World)
    requires t.logs == w.logs && t.configs == w.configs && w.registry.events <= t.registry.events
    requires forall session :: session in w.registry.dialogues ==>
               && session in t.registry.dialogues
               && t.registry.dialogues[session].config == w.registry.dialogues[session].config
               && Rank(w.registry.dialogues[session].status) <= Rank(t.registry.dialogues[session].status)
    ensures Protects(w, t)
  {
  }

  lemma CompleteProtects(w: World, proof: Proof, t: World)
    requires RegistrySound(w.registry) && w.registry.pending.Some? && t == w.(registry := t.registry)
    requires CompletesTo(w.registry, proof, t.registry)
    ensures Protects(w, t)
  {
    hide RegistrySound, Protects, CompletesTo;
    forall session | session in w.registry.dialogues
      ensures session in t.registry.dialogues
      ensures t.registry.dialogues[session].config == w.registry.dialogues[session].config
      ensures Rank(w.registry.dialogues[session].status) <= Rank(t.registry.dialogues[session].status)
    {
      CompletedRank(w.registry, proof, t.registry, session);
    }
    CompletedEvents(w.registry, proof, t.registry);
    SameLogsProtect(w, t);
  }

  lemma CompletedRank(r: Registry, proof: Proof, t: Registry, session: string)
    requires RegistrySound(r) && r.pending.Some? && CompletesTo(r, proof, t) && session in r.dialogues
    ensures session in t.dialogues && t.dialogues[session].config == r.dialogues[session].config
    ensures Rank(r.dialogues[session].status) <= Rank(t.dialogues[session].status)
  {
    PendingOf(r);
    hide RegistrySound, PendingSound;
  }

  lemma CompletedEvents(r: Registry, proof: Proof, t: Registry)
    requires r.pending.Some? && CompletesTo(r, proof, t)
    ensures r.events <= t.events
  {
  }

  function LogOf(w: World, session: string): seq<Entry> {
    if session in w.logs then w.logs[session] else []
  }

  ghost predicate NoCommandAdded(before: seq<Entry>, after: seq<Entry>) {
    before <= after && forall i :: |before| <= i < |after| ==> !after[i].action.Normal?
  }

  /** Nothing was added to any log but starts and quiesce events. */
  ghost predicate NoCommands(w: World, t: World) {
    forall session :: NoCommandAdded(LogOf(w, session), LogOf(t, session))
  }

  lemma NoCommandsOn(w: World, t: World, u: World)
    requires NoCommands(w, t) && NoCommands(t, u)
    ensures NoCommands(w, u)
  {
    forall session
      ensures NoCommandAdded(LogOf(w, session), LogOf(u, session))
    {
      assert NoCommandAdded(LogOf(w, session), LogOf(t, session));
      assert NoCommandAdded(LogOf(t, session), LogOf(u, session));
    }
  }

  lemma NoCommandsHere(w: World, session: string, entry: Entry)
    ensures NoCommands(w, w)
    ensures NoCommands(w, WithLog(w, session))
    ensures session in w.logs && !entry.action.Normal? ==> NoCommands(w, Appended(w, session, entry))
  {
  }

  // ---- what recovery reaches ----

  /** Exactly this session is active, and its dialogue has started and takes normal commands. */
  ghost predicate Serves(w: World, session: string) {
    && w.registry.pending.None? && w.registry.current == Some(session)
    && (forall other :: other in w.registry.dialogues ==> (w.registry.dialogues[other].status == Active <==> other == session))
    && session in w.registry.dialogues && session in w.logs && w.logs[session] != []
    && IsOpenLog(w.logs[session], w.registry.generation)
  }

  lemma OnlyCurrentIsActive(r: Registry)
    requires RegistrySound(r) && r.pending.None? && r.current.Some?
    ensures forall other :: other in r.dialogues ==> (r.dialogues[other].status == Active <==> Some(other) == r.current)
  {
    forall other | other in r.dialogues
      ensures r.dialogues[other].status == Active <==> Some(other) == r.current
    {
      NothingCreated(r, other);
    }
  }

  // ---- what a request comes to ----

  /** The writes that prepare a target: its configuration and its log, unless they are there. */
  function Prepares(w: World, config: Config): nat {
    (if config.session in w.configs then 0 else 1) + (if config.session in w.logs then 0 else 1)
  }

  /** The write that starts a session whose log is still empty. */
  function Starts(w: World, session: string): nat {
    if session in w.logs && w.logs[session] == [] then 1 else 0
  }

  /** Another configuration is stored under the name. */
  predicate Conflicts(w: World, config: Config) {
    config.session in w.configs && w.configs[config.session] != config
  }

  /** The session is still to be started, and its evidence does not verify. */
  predicate StartRefused(w: World, session: string, evidence: Config -> Evidence) {
    LogOf(w, session) == [] && session in w.configs && evidence(w.configs[session]).Unverified?
  }

  /**
    Why a session cannot be made: its evidence, a session before it that cannot be started, another configuration of its
    name, or a history of its own.
    */
  function TargetRefusal(w: World, config: Config, evidence: Config -> Evidence): Option<Failure> {
    if evidence(config).Unverified? then Some(EvidenceFailed)
    else if !evidence(config).publishable then Some(EvidenceNotPublishable)
    else if w.registry.current.Some? && StartRefused(w, w.registry.current.value, evidence) then Some(EvidenceFailed)
    else if Conflicts(w, config) then Some(ConfigConflict)
    else if config.session in w.registry.dialogues then Some(TargetNotEmpty)
    else None
  }

  /** Why the current session cannot be resumed. */
  function ResumeRefusal(w: World, config: Config, evidence: Config -> Evidence): Option<Failure> {
    if Conflicts(w, config) then Some(ConfigConflict)
    else if evidence(config).Unverified? && LogOf(w, config.session) == [] then Some(EvidenceFailed)
    else None
  }

  /** Why a request for the session is refused, if it is; a pending handoff is finished first. */
  function RequestRefusal(w: World, config: Config, evidence: Config -> Evidence): Option<Failure> {
    if w.registry.pending.Some? then
      if evidence(w.registry.pending.value.target).Unverified? then Some(EvidenceFailed)
      else if w.registry.pending.value.target != config then Some(HandoffTargetConflict)
      else None
    else if w.registry.current == Some(config.session) then ResumeRefusal(w, config, evidence)
    else TargetRefusal(w, config, evidence)
  }

  /** The writes of a request before the one that registers the session. */
  function WritesBefore(w: World, config: Config): nat {
    Prepares(w, config) + if w.registry.current.Some? then Starts(w, w.registry.current.value) else 0
  }

  /** Why no command to the session gets through to its dialogue, if none does; a pending handoff is finished first. */
  function OpenRefusal(w: World, session: string, evidence: Config -> Evidence): Option<Failure> {
    if w.registry.pending.Some? && evidence(w.registry.pending.value.target).Unverified? then Some(EvidenceFailed)
    else if Destination(w.registry) != Some(session) then Some(SessionDeactivated)
    else if w.registry.pending.None? && StartRefused(w, session, evidence) then Some(EvidenceFailed)
    else None
  }

  /** Why a command is refused, if it is. */
  function CommandRefusal(w: World, session: string, generation: nat, effect: Option<(bool, bool)>,
                          evidence: Config -> Evidence)
    : Option<Failure>
  {
    if OpenRefusal(w, session, evidence).Some? then OpenRefusal(w, session, evidence)
    else if session in w.configs && evidence(w.configs[session]).Unverified? then Some(EvidenceFailed)
    else if effect.None? || generation != w.registry.generation then Some(CommandRejected)
    else None
  }

  /** The outcome is the one decided, unless the process died with fewer writes left than it may take. */
  predicate Ends(failure: Option<Failure>, refusal: Option<Failure>, life: nat, left: nat, writes: nat) {
    failure == refusal || (failure == Some(Died) && life < writes && left == 0)
  }

  /** The log has grown by the one command, and besides by starts and quiesce events only. */
  predicate Took(before: seq<Entry>, after: seq<Entry>, entry: Entry) {
    && after != [] && after[|after| - 1] == entry && before <= after[..|after| - 1]
    && forall i :: |before| <= i < |after| - 1 ==> !after[i].action.Normal?
  }

  // ---- the audit before recovery ----

  /** The proofs by source; a later event for a source replaces an earlier one. */
  function ProofOf(events: seq<Payload>, session: string): Option<Proof> {
    if events == [] then None
    else
      var last := events[|events| - 1];
      if Deactivates(last, session) then Some(last.proof) else ProofOf(events[..|events| - 1], session)
  }

  predicate ProofsUnique(events: seq<Payload>) {
    forall i, j :: 0 <= i < j < |events| && events[i].DeactivatedBy? && events[j].DeactivatedBy? ==>
      events[i].proof.source != events[j].proof.source
  }

  /** An empty log must be that of the registry's explicit new target, or of a session activated but never started. */
  predicate NewDialogueProven(r: Registry, session: string)
    requires session in r.dialogues
  {
    var reg := r.dialogues[session];
    && 1 <= reg.createdAt <= |r.events| && r.events[reg.createdAt - 1] == DialogueCreated(reg.config)
    && (reg.status == Created ||
        (reg.activated.Some? && ActivatedOnce(r.events, reg.config, reg.activated.value)
         && ((reg.status == Active && r.current == Some(session) && reg.activated.value == r.generation)
             || (reg.status == Deactivating && r.pending.Some? && r.pending.value.source == session
                 && r.pending.value.generation == r.generation && reg.activated.value < r.generation))))
  }

  predicate HistoryProven(r: Registry, session: string, log: seq<Entry>)
    requires session in r.dialogues
  {
    var reg := r.dialogues[session];
    var proof := ProofOf(r.events, session);
    && proof.Some? && proof.value.source == session && Some(proof.value.generation) == reg.deactivated
    && Some(proof.value.handoff) == reg.handoff && proof.value.log == log
  }

  predicate Audited(w: World, session: string)
    requires session in w.registry.dialogues
  {
    var r := w.registry;
    var reg := r.dialogues[session];
    && session in w.configs && w.configs[session] == reg.config && session in w.logs
    && (reg.activated.None? ==>
          reg.status == Created && r.pending.Some? && r.pending.value.target == reg.config
          && reg.config.session == session)
    && (var base := if reg.activated.Some? then reg.activated.value else r.generation;
        Replay(w.logs[session], base).Some?)
    && (reg.status == Created ==> w.logs[session] == [])
    && (if w.logs[session] == [] then NewDialogueProven(r, session)
        else reg.status == Deactivated ==> HistoryProven(r, session, w.logs[session]))
  }

  lemma {:induction false} ProofIsFound(events: seq<Payload>, session: string, proof: Proof)
    requires DeactivatedOnceBy(events, session, proof)
    ensures ProofOf(events, session) == Some(proof)
  {
    var i :| 0 <= i < |events| && events[i] == DeactivatedBy(proof);
    var last := |events| - 1;
    assert Deactivates(events[i], session);
    if i != last {
      assert !Deactivates(events[last], session);
      var shorter := events[..last];
      assert shorter[i] == events[i];
      assert forall k :: 0 <= k < |shorter| ==> shorter[k] == events[k];
      ProofIsFound(shorter, session, proof);
    }
  }

  /** Nothing the protocol itself produces fails the audit of a session. */
  lemma SoundIsAudited(w: World, session: string)
    requires WorldSound(w) && session in w.registry.dialogues
    ensures Audited(w, session)
  {
    hide RegistrySound, ActivatedOnce, DeactivatedOnceBy;
    RegistrationOf(w.registry, session);
    assert SessionSound(w, session);
    var reg := w.registry.dialogues[session];
    if w.registry.pending.Some? {
      PendingOf(w.registry);
    }
    if reg.status == Deactivated {
      var proof :| DeactivatedOnceBy(w.registry.events, reg.config.session, proof) && proof.log == w.logs[session]
                   && Some(proof.generation) == reg.deactivated && Some(proof.handoff) == reg.handoff;
      ProofIsFound(w.registry.events, session, proof);
      ProofNamesSource(w.registry.events, session, proof);
    }
    assert Replay([], w.registry.generation) == Some(NEW_DIALOGUE);
  }

  lemma ProofNamesSource(events: seq<Payload>, session: string, proof: Proof)
    requires DeactivatedOnceBy(events, session, proof)
    ensures proof.source == session
  {
  }

  lemma SoundProofsAreUnique(w: World)
    requires WorldSound(w)
    ensures ProofsUnique(w.registry.events)
  {
    var events := w.registry.events;
    forall i, j | 0 <= i < j < |events| && events[i].DeactivatedBy? && events[j].DeactivatedBy?
      ensures events[i].proof.source != events[j].proof.source
    {
      ProofsApart(w, i, j);
    }
  }

  lemma EventOf(r: Registry, i: nat)
    requires RegistrySound(r) && i < |r.events| && r.events[i].DeactivatedBy?
    ensures r.events[i].proof.source in r.dialogues && r.dialogues[r.events[i].proof.source].status == Deactivated
  {
    hide RegistrationSound;
    assert EventSound(r, r.events[i]);
  }

  lemma ProvenHistory(w: World, session: string)
    requires WorldSound(w) && session in w.registry.dialogues && w.registry.dialogues[session].status == Deactivated
    ensures session in w.logs && ProvenBy(w.registry, w.registry.dialogues[session], w.logs[session])
    ensures w.registry.dialogues[session].config.session == session
  {
    hide RegistrySound, Replay, ProvenBy;
    RegistrationOf(w.registry, session);
    assert SessionSound(w, session);
  }

  lemma ProofsApart(w: World, i: nat, j: nat)
    requires WorldSound(w) && i < j < |w.registry.events|
    requires w.registry.events[i].DeactivatedBy? && w.registry.events[j].DeactivatedBy?
    ensures w.registry.events[i].proof.source != w.registry.events[j].proof.source
  {
    var r := w.registry;
    hide RegistrySound, Replay, SessionSound, EventSound;
    EventOf(r, j);
    var session := r.events[j].proof.source;
    ProvenHistory(w, session);
    var reg := r.dialogues[session];
    var proof :| DeactivatedOnceBy(r.events, reg.config.session, proof) && proof.log == w.logs[session]
                 && Some(proof.generation) == reg.deactivated && Some(proof.handoff) == reg.handoff;
    assert Deactivates(r.events[j], session);
  }

  class Coordinator {
    var disk: World
    var life: nat

    constructor (disk: World, life: nat)
      ensures this.disk == disk && this.life == life
    {
      this.disk, this.life := disk, life;
    }

    /** One durable write: it happens, or the process has died before it. */
    method Write(next: World) returns (dead: bool)
      modifies this
      ensures dead <==> old(life) == 0
      ensures disk == if dead then old(disk) else next
      ensures life == if dead then 0 else old(life) - 1
    {
      dead := life == 0;
      if !dead {
        disk, life := next, life - 1;
      }
    }

    /** Persist the configuration, make the log's directories, and insist that the log is empty. */
    method PrepareEmptyTarget(config: Config) returns (failure: Option<Failure>)
      modifies this
      ensures disk.registry == old(disk.registry) && NoCommands(old(disk), disk)
      ensures old(WorldSound(disk)) ==> WorldSound(disk) && Protects(old(disk), disk)
      ensures disk.logs == old(disk.logs)
              || (config.session !in old(disk.logs) && disk.logs == old(disk.logs)[config.session := []])
      ensures failure.None? ==>
                && config.session in disk.configs && disk.configs[config.session] == config
                && config.session in disk.logs && disk.logs[config.session] == []
      ensures failure == if Conflicts(old(disk), config) then Some(ConfigConflict)
                         else if old(life) < Prepares(old(disk), config) then Some(Died)
                         else if LogOf(old(disk), config.session) != [] then Some(TargetNotEmpty)
                         else None
      ensures life == if Conflicts(old(disk), config) then old(life)
                      else if old(life) < Prepares(old(disk), config) then 0
                      else old(life) - Prepares(old(disk), config)
    {
      hide WorldSound, Protects;
      ProtectsItself(disk);
      if config.session in disk.configs {
        if disk.configs[config.session] != config {
          return Some(ConfigConflict);
        }
      } else {
        PreparingProtects(disk, config);
        if WorldSound(disk) {
          PersistKeepsSound(disk, config);
        }
        var dead := Write(WithConfig(disk, config));
        if dead {
          return Some(Died);
        }
      }
      if config.session !in disk.logs {
        PreparingProtects(disk, config);
        if WorldSound(disk) {
          OpenKeepsSound(disk, config.session);
        }
        ghost var mid := disk;
        var dead := Write(WithLog(disk, config.session));
        if dead {
          return Some(Died);
        }
        if Protects(old(disk), mid) {
          ProtectsOn(old(disk), mid, disk);
        }
      }
      if disk.logs[config.session] != [] {
        return Some(TargetNotEmpty);
      }
      failure := None;
    }

    /** The last marker carries the fence generation exactly when the log ends with the fenced quiesce. */
    static function LastGeneration(state: Dialogue, base: nat): nat {
      if state.fenced then base + 1 else base
    }

    /**
      The fenced source is made quiet, unless an earlier attempt has done so, and the proof is read off its tip. In every
      state the protocol produces this succeeds or the process dies.
      */
    method QuiesceSource(pending: Pending) returns (result: Result<Proof, Failure>)
      requires disk.registry.pending == Some(pending)
      modifies this
      ensures disk.registry == old(disk.registry) && disk.configs == old(disk.configs)
      ensures NoCommands(old(disk), disk)
      ensures old(WorldSound(disk)) ==>
                && WorldSound(disk) && Protects(old(disk), disk)
                && (result.Err? ==> result.error == Died && old(life) == 0)
                && (result.Ok? ==>
                      && pending.source in disk.logs && result.value == ProofFor(disk) && disk.registry.generation >= 1
                      && disk.logs[pending.source] != []
                      && IsQuietLog(disk.logs[pending.source], disk.registry.generation - 1))
      ensures life <= old(life) <= life + 1 && (result == Err(Died) ==> life == 0)
    {
      hide RegistrySound, Protects, Replay;
      ProtectsItself(disk);
      if WorldSound(disk) {
        PendingOf(disk.registry);
        assert SessionSound(disk, pending.source);
      }
      if pending.source !in disk.registry.dialogues {
        return Err(RegistryStateConflict);
      }
      var source := disk.registry.dialogues[pending.source];
      if source.status != Deactivating || source.activated.None? {
        return Err(RegistryStateConflict);
      }
      if pending.source !in disk.logs {
        return Err(DialogueMissing);
      }
      var base := source.activated.value;
      var log := disk.logs[pending.source];
      var tip := Replay(log, base);
      if tip.None? {
        return Err(DialogueCorrupt);
      }
      if LastGeneration(tip.value, base) != base && LastGeneration(tip.value, base) != pending.generation {
        return Err(HandoffProofInvalid);
      }
      if LastGeneration(tip.value, base) == pending.generation {
        if !EndsWith(log, pending.handoff) {
          return Err(HandoffProofInvalid);
        }
      }
      if LastGeneration(tip.value, base) == base {
        var action := DecideQuiesce(tip.value, pending.handoff);
        if action.Some? {
          if WorldSound(disk) {
            QuiesceKeepsSound(disk, action.value);
            AppendProtects(disk, pending.source, Entry(pending.generation, action.value));
          }
          NoCommandsHere(disk, pending.source, Entry(pending.generation, action.value));
          var dead := Write(Appended(disk, pending.source, Entry(pending.generation, action.value)));
          if dead {
            return Err(Died);
          }
          log := disk.logs[pending.source];
          tip := Replay(log, base);
        }
      }
      if WorldSound(disk) {
        OpenedByNow(log, base);
      }
      if tip.None? || !tip.value.quiet || tip.value.topic || !tip.value.open || log == [] {
        return Err(HandoffProofInvalid);
      }
      result := Ok(Proof(pending.source, pending.target, pending.handoff, pending.generation, log));
    }

    lemma OpenedByNow(log: seq<Entry>, base: nat)
      ensures log == [] ==> Replay(log, base) == Some(NEW_DIALOGUE)
    {
    }

    /** The current session is opened, or started when its log is still empty. */
    method Bootstrap(config: Config, evidence: Evidence) returns (failure: Option<Failure>)
      modifies this
      ensures disk.registry == old(disk.registry) && disk.configs == old(disk.configs)
      ensures NoCommands(old(disk), disk)
      ensures old(WorldSound(disk)) ==> WorldSound(disk) && Protects(old(disk), disk)
      ensures old(WorldSound(disk)) && old(Calls(disk.registry, config)) ==>
                && (failure.None? ==> Serves(disk, config.session))
                && failure == (if LogOf(old(disk), config.session) != [] then None
                               else if evidence.Unverified? then Some(EvidenceFailed)
                               else if old(life) == 0 then Some(Died)
                               else None)
      ensures failure.None? ==> old(Calls(disk.registry, config)) && life + Starts(old(disk), config.session) == old(life)
      ensures failure.Some? ==> disk == old(disk) && life == old(life) && (failure == Some(Died) ==> life == 0)
      ensures LogOf(old(disk), config.session) != [] ==> disk == old(disk) && life == old(life)
      ensures disk.logs.Keys == old(disk.logs.Keys)
    {
      hide RegistrySound, Protects, Replay;
      ProtectsItself(disk);
      var registry := disk.registry;
      var session := config.session;
      if !Calls(registry, config) {
        return Some(SessionDeactivated);
      }
      if WorldSound(disk) {
        OnlyCurrentIsActive(registry);
        assert SessionSound(disk, session);
        RegistrationOf(registry, session);
      }
      if session !in disk.logs {
        return Some(DialogueMissing);
      }
      var base := registry.generation;
      var tip := Replay(disk.logs[session], base);
      if tip.None? {
        return Some(DialogueCorrupt);
      }
      if disk.logs[session] != [] {
        NonEmptyIsOpen(disk.logs[session], base);
        if !tip.value.open || LastGeneration(tip.value, base) != base {
          return Some(BootstrapConflict);
        }
        return None;
      }
      if evidence.Unverified? {
        return Some(EvidenceFailed);
      }
      OpenedByNow([], base);
      ReplayLonger([], Entry(base, Start), base);
      assert [] + [Entry(base, Start)] == [Entry(base, Start)];
      if WorldSound(disk) {
        CommandKeepsSound(disk, session, Entry(base, Start));
        AppendProtects(disk, session, Entry(base, Start));
      }
      NoCommandsHere(disk, session, Entry(base, Start));
      var dead := Write(Appended(disk, session, Entry(base, Start)));
      if dead {
        return Some(Died);
      }
      failure := None;
    }

    /** The registry names exactly this configuration as its active session of the current generation. */
    static predicate Calls(registry: Registry, config: Config) {
      && registry.pending.None? && registry.current == Some(config.session) && config.session in registry.dialogues
      && registry.dialogues[config.session].status == Active
      && registry.dialogues[config.session].activated == Some(registry.generation)
      && registry.dialogues[config.session].config == config
    }

    /** A registry command is decided on the current state and, if accepted, committed in one write. */
    method CommitRegistry(command: Command) returns (failure: Option<Failure>)
      modifies this
      ensures disk.configs == old(disk.configs) && disk.logs == old(disk.logs)
      ensures match old(Decide(disk.registry, command))
              case Rejected(code) => failure == Some(RegistryRejected(code)) && unchanged(this)
              case Idempotent => failure == None && unchanged(this)
              case Accepted(payloads) =>
                && failure == (if old(life) == 0 then Some(Died) else None)
                && disk == (if old(life) == 0 then old(disk)
                            else old(disk).(registry := Committed(old(disk.registry), command, payloads)))
                && life == (if old(life) == 0 then 0 else old(life) - 1)
    {
      var decision := Decide(disk.registry, command);
      match decision
      case Rejected(code) => failure := Some(RegistryRejected(code));
      case Idempotent => failure := None;
      case Accepted(payloads) =>
        var dead := Write(disk.(registry := Committed(disk.registry, command, payloads)));
        failure := if dead then Some(Died) else None;
    }

    /** Every registered session is audited before recovery changes anything; no state of the protocol fails it. */
    method Preflight() returns (failure: Option<Failure>)
      ensures WorldSound(disk) ==> failure.None?
      ensures failure.None? ==> forall session :: session in disk.registry.dialogues ==> Audited(disk, session)
      ensures failure.Some? ==> failure.value == HistoricalIntegrity
    {
      hide WorldSound, Audited;
      if WorldSound(disk) {
        SoundProofsAreUnique(disk);
      }
      if !ProofsUnique(disk.registry.events) {
        return Some(HistoricalIntegrity);
      }
      var todo := disk.registry.dialogues.Keys;
      while todo != {}
        invariant todo <= disk.registry.dialogues.Keys
        invariant forall session :: session in disk.registry.dialogues && session !in todo ==> Audited(disk, session)
        decreases |todo|
      {
        var session := Pick(todo);
        if WorldSound(disk) {
          SoundIsAudited(disk, session);
        }
        if !Audited(disk, session) {
          return Some(HistoricalIntegrity);
        }
        todo := todo - {session};
      }
      failure := None;
    }

    /**
      A pending handoff is carried to its end: source quiet, handoff completed, target started. It can stop only because
      the process dies or, after completion, because the target's evidence cannot be verified.
      */
    method ContinueHandoff(evidence: Config -> Evidence) returns (failure: Option<Failure>)
      modifies this
      ensures old(disk.registry.pending).None? ==> failure.None? && unchanged(this)
      ensures NoCommands(old(disk), disk)
      ensures old(WorldSound(disk)) ==>
                && WorldSound(disk) && Protects(old(disk), disk)
                && Destination(disk.registry) == old(Destination(disk.registry))
                && disk.registry.dialogues.Keys == old(disk.registry.dialogues.Keys)
                && (failure.None? ==> disk.registry.pending.None?
                                      && (old(disk.registry.pending).Some? ==>
                                            Serves(disk, old(disk.registry.pending).value.target.session)))
                && (failure.Some? ==> (failure.value == Died && old(life) < 3)
                                      || (failure.value == EvidenceFailed && old(disk.registry.pending).Some?
                                          && evidence(old(disk.registry.pending).value.target).Unverified?
                                          && disk.registry.pending.None?))
                && (failure.None? && old(disk.registry.pending).Some? ==>
                      evidence(old(disk.registry.pending).value.target).Verified?)
                && disk.registry.generation == old(disk.registry.generation)
      ensures disk.configs == old(disk.configs)
      ensures life <= old(life) <= life + 3 && (failure == Some(Died) ==> life == 0)
    {
      hide RegistrySound, Replay, Serves, Protects;
      if disk.registry.pending.None? {
        ProtectsItself(disk);
        return None;
      }
      var pending := disk.registry.pending.value;
      var target := pending.target;
      ghost var sound := WorldSound(disk);
      if sound {
        PendingOf(disk.registry);
        assert SessionSound(disk, target.session);
      }
      if target.session !in disk.configs {
        return Some(ConfigMissing);
      }
      if disk.configs[target.session] != target {
        return Some(ConfigConflict);
      }
      var quiesced := QuiesceSource(pending);
      if quiesced.Err? {
        return Some(quiesced.error);
      }
      var proof := quiesced.value;
      ghost var prepared := disk;
      if sound {
        assert SessionSound(disk, target.session);
        CompleteIsAccepted(disk.registry, proof);
        CompleteKeepsSound(disk);
      }
      if !Decide(disk.registry, Complete(proof)).Accepted? {
        return Some(RegistryStateConflict);
      }
      failure := CommitRegistry(Complete(proof));
      if failure.Some? {
        return;
      }
      ghost var completed := disk;
      if sound {
        CompleteProtects(prepared, proof, disk);
        ProtectsOn(old(disk), prepared, disk);
        TargetIsCalled(prepared.registry, proof, disk.registry);
      }
      failure := Bootstrap(target, evidence(target));
      if sound {
        ProtectsOn(old(disk), completed, disk);
      }
    }

    lemma TargetIsCalled(r: Registry, proof: Proof, t: Registry)
      requires RegistrySound(r) && r.pending.Some? && CompletesTo(r, proof, t)
      ensures Calls(t, r.pending.value.target)
      ensures Destination(t) == Destination(r) && t.dialogues.Keys == r.dialogues.Keys && t.generation == r.generation
    {
      PendingOf(r);
    }

    /**
      Recovery from any point: the one session the registry leads to becomes the only active one. A session that has been
      started is opened without a write, whatever its evidence now says; one that has not is started in one write if its
      evidence verifies; a pending handoff is carried to its end, which verifies the target's evidence only.
      */
    method Recover(evidence: Config -> Evidence) returns (result: Result<Option<string>, Failure>)
      modifies this
      ensures old(WorldSound(disk)) ==>
                && WorldSound(disk) && Protects(old(disk), disk)
                && Destination(disk.registry) == old(Destination(disk.registry))
                && disk.registry.dialogues.Keys == old(disk.registry.dialogues.Keys)
                && (result.Ok? ==>
                      && result.value == disk.registry.current == old(Destination(disk.registry))
                      && disk.registry.pending.None? && (result.value.Some? ==> Serves(disk, result.value.value)))
      ensures old(WorldSound(disk)) && old(disk.registry.pending).None? && old(disk.registry.current).None? ==>
                result == Ok(None) && disk == old(disk) && life == old(life)
      ensures old(WorldSound(disk)) && old(disk.registry.pending).None? && old(disk.registry.current).Some? ==>
                var session := old(disk.registry.current).value;
                && session in old(disk.logs) && session in old(disk.configs)
                && (old(disk.logs)[session] != [] ==> result == Ok(Some(session)) && disk == old(disk) && life == old(life))
                && (old(disk.logs)[session] == [] ==>
                      && result == (if evidence(old(disk.configs)[session]).Unverified? then Err(EvidenceFailed)
                                    else if old(life) == 0 then Err(Died)
                                    else Ok(Some(session)))
                      && (result.Ok? ==> life + 1 == old(life)) && (result.Err? ==> disk == old(disk)))
      ensures old(WorldSound(disk)) && old(disk.registry.pending).Some? ==>
                var target := old(disk.registry.pending).value.target;
                || (result == Err(Died) && old(life) < 3 && life == 0)
                || (result == (if evidence(target).Unverified? then Err(EvidenceFailed) else Ok(Some(target.session)))
                    && disk.registry.pending.None? && disk.registry.current == Some(target.session))
    {
      hide RegistrySound, Replay, Serves, Protects;
      ghost var sound := WorldSound(disk);
      ProtectsItself(disk);
      if sound && disk.registry.pending.None? && disk.registry.current.Some? {
        CurrentIsCalled(disk);
      }
      var audit := Preflight();
      if audit.Some? {
        return Err(audit.value);
      }
      var failure := ContinueHandoff(evidence);
      if failure.Some? {
        return Err(failure.value);
      }
      var current := disk.registry.current;
      if current.None? {
        return Ok(None);
      }
      if sound {
        CurrentIsCalled(disk);
        if old(disk.registry.pending).Some? {
          ServesNotEmpty(disk, current.value);
        }
      }
      if current.value !in disk.configs {
        return Err(ConfigMissing);
      }
      ghost var continued := disk;
      failure := Bootstrap(disk.configs[current.value], evidence(disk.configs[current.value]));
      if sound {
        ProtectsOn(old(disk), continued, disk);
      }
      if failure.Some? {
        return Err(failure.value);
      }
      result := Ok(current);
    }

    lemma CurrentIsCalled(w: World)
      requires WorldSound(w) && w.registry.current.Some? && w.registry.pending.None?
      ensures w.registry.current.value in w.configs && Calls(w.registry, w.configs[w.registry.current.value])
      ensures w.registry.current.value in w.logs
    {
      var session := w.registry.current.value;
      NothingCreated(w.registry, session);
      RegistrationOf(w.registry, session);
      assert SessionSound(w, session);
    }

    /** The durable creation of the very first session. */
    method CreateFirst(config: Config, evidence: Config -> Evidence) returns (failure: Option<Failure>)
      requires disk.registry.current.None?
      modifies this
      ensures NoCommands(old(disk), disk)
      ensures old(WorldSound(disk)) ==>
                && WorldSound(disk) && Protects(old(disk), disk)
                && (failure.None? ==> Serves(disk, config.session))
                && Ends(failure, TargetRefusal(old(disk), config, evidence), old(life), life, 4)
                && (config.session in disk.registry.dialogues <==>
                      TargetRefusal(old(disk), config, evidence).None? && old(life) > Prepares(old(disk), config))
                && Destination(disk.registry) == (if config.session in disk.registry.dialogues
                                                  then Some(config.session) else None)
    {
      hide RegistrySound, Replay, Serves, Protects, NoCommands;
      NoCommandsHere(disk, config.session, Entry(0, Start));
      ProtectsItself(disk);
      ghost var sound := WorldSound(disk);
      if sound {
        NoSessionYet(disk.registry);
        UnregisteredIsEmpty(disk, config.session);
      }
      if evidence(config) != Verified(true) {
        return Some(if evidence(config).Unverified? then EvidenceFailed else EvidenceNotPublishable);
      }
      failure := PrepareEmptyTarget(config);
      if failure.Some? {
        return;
      }
      ghost var prepared := disk;
      if sound {
        CreateKeepsSound(disk, config);
        CreateProtects(disk, config);
        FirstIsCalled(config);
      }
      failure := CommitRegistry(CreateAndActivate(config));
      SameLogsNoCommands(prepared, disk);
      NoCommandsOn(old(disk), prepared, disk);
      if sound {
        if disk == prepared {
          ProtectsItself(disk);
        }
        ProtectsOn(old(disk), prepared, disk);
      }
      if failure.Some? {
        return;
      }
      ghost var created := disk;
      failure := Bootstrap(config, evidence(config));
      NoCommandsOn(old(disk), created, disk);
      if sound {
        ProtectsOn(old(disk), created, disk);
      }
    }

    lemma UnregisteredIsEmpty(w: World, session: string)
      requires WorldSound(w)
      ensures session !in w.registry.dialogues ==> LogOf(w, session) == []
      ensures session in w.registry.dialogues ==> session in w.logs && session in w.configs
    {
      assert SessionSound(w, session);
    }

    lemma NoSessionYet(r: Registry)
      requires RegistrySound(r) && r.current.None?
      ensures r == EMPTY_REGISTRY
    {
    }

    lemma SameLogsNoCommands(w: World, t: World)
      requires w.logs == t.logs
      ensures NoCommands(w, t)
    {
    }

    lemma FirstIsCalled(config: Config)
      ensures var r := Committed(EMPTY_REGISTRY, CreateAndActivate(config), [DialogueCreated(config), Activated(config, 1)]);
              Calls(r, config) && r.dialogues.Keys == {config.session}
    {
      ApplyTwo(EMPTY_REGISTRY, DialogueCreated(config), Activated(config, 1));
    }

    /** What a handoff does before the begin: the checks, the source started, the target prepared. */
    method PrepareHandOff(config: Config, evidence: Config -> Evidence) returns (failure: Option<Failure>)
      requires disk.registry.current.Some? && disk.registry.current != Some(config.session)
      requires disk.registry.pending.None?
      modifies this
      ensures NoCommands(old(disk), disk) && disk.registry == old(disk.registry)
      ensures old(WorldSound(disk)) ==>
                && WorldSound(disk) && Protects(old(disk), disk)
                && (failure.None? <==>
                      TargetRefusal(old(disk), config, evidence).None? && old(life) >= WritesBefore(old(disk), config))
                && Ends(failure, TargetRefusal(old(disk), config, evidence), old(life), life, 3)
                && (failure.None? ==>
                      && config.session !in disk.registry.dialogues
                      && config.session in disk.configs && disk.configs[config.session] == config
                      && config.session in disk.logs && life + WritesBefore(old(disk), config) == old(life))
    {
      hide RegistrySound, Replay, Serves, Protects, NoCommands;
      NoCommandsHere(disk, config.session, Entry(0, Start));
      ProtectsItself(disk);
      ghost var sound := WorldSound(disk);
      var source := disk.registry.current.value;
      if sound {
        CurrentIsCalled(disk);
      }
      if source !in disk.registry.dialogues {
        return Some(RegistryStateConflict);
      }
      if source !in disk.configs {
        return Some(ConfigMissing);
      }
      if disk.configs[source] != disk.registry.dialogues[source].config {
        return Some(ConfigConflict);
      }
      if evidence(config) != Verified(true) {
        return Some(if evidence(config).Unverified? then EvidenceFailed else EvidenceNotPublishable);
      }
      failure := Bootstrap(disk.configs[source], evidence(disk.configs[source]));
      if failure.Some? {
        return;
      }
      ghost var started := disk;
      if sound {
        UnregisteredIsEmpty(disk, config.session);
        if config.session in disk.registry.dialogues {
          DeactivatedIsNotEmpty(disk, config.session);
        }
      }
      failure := PrepareEmptyTarget(config);
      NoCommandsOn(old(disk), started, disk);
      if sound {
        ProtectsOn(old(disk), started, disk);
      }
    }

    /** A handoff up to the commit of its begin, which registers the target. */
    method BeginHandOff(config: Config, evidence: Config -> Evidence) returns (failure: Option<Failure>)
      requires disk.registry.current.Some? && disk.registry.current != Some(config.session)
      requires disk.registry.pending.None?
      modifies this
      ensures NoCommands(old(disk), disk)
      ensures old(WorldSound(disk)) ==>
                && WorldSound(disk) && Protects(old(disk), disk)
                && (failure.None? <==>
                      TargetRefusal(old(disk), config, evidence).None? && old(life) > WritesBefore(old(disk), config))
                && Ends(failure, TargetRefusal(old(disk), config, evidence), old(life), life, 4)
                && (failure.Some? ==> disk.registry == old(disk.registry))
                && (failure.None? ==>
                      && disk.registry.pending == Some(BeginOf(old(disk.registry), config))
                      && config.session in disk.registry.dialogues
                      && disk.registry.dialogues[config.session].config == config
                      && life + WritesBefore(old(disk), config) + 1 == old(life))
    {
      hide WorldSound, Protects, NoCommands, TargetRefusal, WritesBefore, Committed, BeginPayloads, Decide;
      ghost var sound := WorldSound(disk);
      AtMostThree(disk, config);
      failure := PrepareHandOff(config, evidence);
      if failure.Some? {
        return;
      }
      ghost var prepared := disk;
      if sound {
        RegistryOf(disk);
        BeginIsAccepted(disk.registry, config);
        BeginKeepsSound(disk, config);
        BeginProtects(disk, config);
      }
      failure := CommitRegistry(Begin(HandoffId(disk.registry.current.value, config)));
      SameLogsNoCommands(prepared, disk);
      NoCommandsOn(old(disk), prepared, disk);
      if sound {
        if disk == prepared {
          ProtectsItself(disk);
        }
        ProtectsOn(old(disk), prepared, disk);
      }
    }

    lemma AtMostThree(w: World, config: Config)
      ensures WritesBefore(w, config) <= 3
    {
    }

    lemma RegistryOf(w: World)
      requires WorldSound(w)
      ensures RegistrySound(w.registry)
    {
    }

    /** A handoff from the active session to a new one: until the begin is committed recovery leads to the source. */
    method HandOff(config: Config, evidence: Config -> Evidence) returns (failure: Option<Failure>)
      requires disk.registry.current.Some? && disk.registry.current != Some(config.session)
      requires disk.registry.pending.None?
      modifies this
      ensures NoCommands(old(disk), disk)
      ensures old(WorldSound(disk)) ==>
                && WorldSound(disk) && Protects(old(disk), disk)
                && (failure.None? ==> Serves(disk, config.session))
                && Ends(failure, TargetRefusal(old(disk), config, evidence), old(life), life, 7)
                && (config.session !in old(disk.registry.dialogues) ==>
                      && (config.session in disk.registry.dialogues <==>
                            TargetRefusal(old(disk), config, evidence).None? && old(life) > WritesBefore(old(disk), config))
                      && Destination(disk.registry) == if config.session in disk.registry.dialogues
                                                       then Some(config.session) else old(disk.registry.current))
                && (config.session in old(disk.registry.dialogues) ==>
                      failure.Some? && disk.registry == old(disk.registry))
    {
      hide WorldSound, Replay, Serves, Protects, NoCommands, TargetRefusal;
      ghost var sound := WorldSound(disk);
      VerifiedForTarget(disk, config, evidence);
      failure := BeginHandOff(config, evidence);
      if failure.Some? {
        return;
      }
      ghost var begun := disk;
      failure := ContinueHandoff(evidence);
      NoCommandsOn(old(disk), begun, disk);
      if sound {
        ProtectsOn(old(disk), begun, disk);
        StillRegistered(begun, disk, config.session);
      }
      if failure.Some? {
        return;
      }
      ghost var continued := disk;
      if sound {
        ServesCalls(disk, config, begun);
      }
      failure := Bootstrap(config, evidence(config));
      NoCommandsOn(old(disk), continued, disk);
      if sound {
        ProtectsOn(old(disk), continued, disk);
      }
    }

    lemma VerifiedForTarget(w: World, config: Config, evidence: Config -> Evidence)
      ensures TargetRefusal(w, config, evidence).None? ==> evidence(config).Verified? && config.session !in w.registry.dialogues
    {
    }

    lemma StillRegistered(w: World, t: World, session: string)
      requires Protects(w, t) && session in w.registry.dialogues
      ensures session in t.registry.dialogues
      ensures t.registry.dialogues[session].config == w.registry.dialogues[session].config
    {
    }

    lemma ServesCalls(w: World, config: Config, begun: World)
      requires WorldSound(w) && Serves(w, config.session) && Protects(begun, w)
      requires config.session in begun.registry.dialogues && begun.registry.dialogues[config.session].config == config
      ensures Calls(w.registry, config) && LogOf(w, config.session) != []
    {
      StillRegistered(begun, w, config.session);
      RegistrationOf(w.registry, config.session);
    }

    lemma DeactivatedIsNotEmpty(w: World, session: string)
      requires WorldSound(w) && w.registry.pending.None? && session in w.registry.dialogues
      requires Some(session) != w.registry.current
      ensures session in w.logs && w.logs[session] != []
    {
      NothingCreated(w.registry, session);
      assert SessionSound(w, session);
    }

    /** The requested session is the one already current: it is opened with the configuration it was made with. */
    method ResumeCurrent(config: Config, evidence: Config -> Evidence) returns (failure: Option<Failure>)
      requires disk.registry.current == Some(config.session) && disk.registry.pending.None?
      modifies this
      ensures disk.registry == old(disk.registry) && NoCommands(old(disk), disk)
      ensures old(WorldSound(disk)) ==>
                && WorldSound(disk) && Protects(old(disk), disk) && (failure.None? ==> Serves(disk, config.session))
                && Ends(failure, ResumeRefusal(old(disk), config, evidence), old(life), life, Starts(old(disk), config.session))
    {
      hide RegistrySound, Replay, Serves, Protects, NoCommands;
      NoCommandsHere(disk, config.session, Entry(0, Start));
      ProtectsItself(disk);
      if WorldSound(disk) {
        CurrentIsCalled(disk);
      }
      var dialogues := disk.registry.dialogues;
      if config.session !in dialogues || dialogues[config.session].status != Active
         || dialogues[config.session].config != config
      {
        return Some(ConfigConflict);
      }
      if config.session !in disk.configs {
        return Some(ConfigMissing);
      }
      if disk.configs[config.session] != config {
        return Some(ConfigConflict);
      }
      failure := Bootstrap(config, evidence(config));
    }

    /**
      Create, resume or hand off to exactly the configured session. Cut short anywhere, recovery leads to the requested
      session exactly when its registration was committed, and to the session current before otherwise.
      */
    method Resolve(config: Config, evidence: Config -> Evidence) returns (failure: Option<Failure>)
      modifies this
      ensures NoCommands(old(disk), disk)
      ensures old(WorldSound(disk)) ==>
                && WorldSound(disk) && Protects(old(disk), disk)
                && (failure.None? ==> Serves(disk, config.session))
                && Ends(failure, RequestRefusal(old(disk), config, evidence), old(life), life, 7)
                && (config.session !in old(disk.registry.dialogues) ==>
                      && (config.session in disk.registry.dialogues <==>
                            RequestRefusal(old(disk), config, evidence).None? && old(life) > WritesBefore(old(disk), config))
                      && Destination(disk.registry) == if config.session in disk.registry.dialogues
                                                       then Some(config.session) else old(Destination(disk.registry)))
                && (config.session in old(disk.registry.dialogues) ==>
                      Destination(disk.registry) == old(Destination(disk.registry)))
      ensures old(WorldSound(disk)) && old(disk.registry.pending).None? && old(life) >= 7
              && evidence(config) == Verified(true)
              && config.session !in old(disk.registry.dialogues) && config.session !in old(disk.configs)
              && (forall source :: old(disk.registry.current) == Some(source) && source in old(disk.configs) ==>
                    evidence(old(disk.configs)[source]).Verified?) ==>
                failure.None?
      ensures old(WorldSound(disk)) && old(disk.registry.pending).None?
              && old(disk.registry.current) == Some(config.session) && config.session in old(disk.configs)
              && old(disk.configs)[config.session] == config && LogOf(old(disk), config.session) != [] ==>
                failure.None?
      ensures old(WorldSound(disk)) && old(disk.registry.pending).Some? && old(life) >= 7
              && old(disk.registry.pending).value.target == config && evidence(config).Verified? ==>
                failure.None?
    {
      hide RegistrySound, Replay, Serves, Protects, NoCommands;
      ghost var sound := WorldSound(disk);
      var had := disk.registry.pending;
      failure := ContinueHandoff(evidence);
      ghost var continued := disk;
      if sound {
        SameDestination(old(disk), disk, config.session);
      }
      if failure.Some? {
        return;
      }
      if had.Some? && had.value.target != config {
        return Some(HandoffTargetConflict);
      }
      if sound && had.Some? {
        ResumesTarget(old(disk), disk, config);
      }
      if disk.registry.pending.Some? {
        return Some(RegistryStateConflict);
      }
      if disk.registry.current.None? {
        failure := CreateFirst(config, evidence);
      } else if disk.registry.current.value == config.session {
        failure := ResumeCurrent(config, evidence);
      } else {
        failure := HandOff(config, evidence);
      }
      NoCommandsOn(old(disk), continued, disk);
      if sound {
        ProtectsOn(old(disk), continued, disk);
        if continued.registry.current.None? {
          NoSessionYet(continued.registry);
        }
      }
    }

    /** When the handoff that was pending has ended, its target can be resumed without a further write. */
    lemma ResumesTarget(w: World, t: World, config: Config)
      requires WorldSound(w) && WorldSound(t) && Protects(w, t) && Serves(t, config.session)
      requires w.registry.pending.Some? && w.registry.pending.value.target == config
      ensures forall evidence: Config -> Evidence :: ResumeRefusal(t, config, evidence).None?
      ensures Starts(t, config.session) == 0 && t.registry.current == Some(config.session)
    {
      hide WorldSound, RegistrySound, Protects, Serves;
      RegistryOf(w);
      PendingOf(w.registry);
      StillRegistered(w, t, config.session);
      StoredConfig(t, config.session);
      ServesNotEmpty(t, config.session);
    }

    lemma StoredConfig(w: World, session: string)
      requires WorldSound(w) && session in w.registry.dialogues
      ensures session in w.configs && w.configs[session] == w.registry.dialogues[session].config
    {
      hide RegistrySound, Replay;
      assert SessionSound(w, session);
    }

    /** Carrying a handoff to its end registers nobody new. */
    lemma SameDestination(w: World, t: World, session: string)
      requires WorldSound(w) && WorldSound(t) && Protects(w, t) && Destination(t.registry) == Destination(w.registry)
      ensures session in w.registry.dialogues ==> session in t.registry.dialogues
      ensures session !in w.registry.dialogues ==> Some(session) != Destination(w.registry)
    {
      if w.registry.pending.Some? {
        PendingOf(w.registry);
      }
    }

    /** The session a command is for is opened, after any pending handoff has been carried to its end. */
    method OpenForCommand(session: string, evidence: Config -> Evidence) returns (failure: Option<Failure>)
      modifies this
      ensures NoCommands(old(disk), disk) && disk.configs == old(disk.configs)
      ensures failure.None? ==>
                && disk.registry.current == Some(session) && session in disk.registry.dialogues
                && disk.registry.dialogues[session].status == Active && session in disk.configs
      ensures old(WorldSound(disk)) ==>
                && WorldSound(disk) && Protects(old(disk), disk)
                && Destination(disk.registry) == old(Destination(disk.registry))
                && disk.registry.generation == old(disk.registry.generation)
                && Ends(failure, OpenRefusal(old(disk), session, evidence), old(life), life, 3)
                && (failure.None? ==> Serves(disk, session))
      ensures life <= old(life) && (failure.None? && old(WorldSound(disk)) ==> old(life) <= life + 3)
    {
      hide RegistrySound, Replay, Serves, Protects, NoCommands;
      ghost var sound := WorldSound(disk);
      failure := ContinueHandoff(evidence);
      if failure.Some? {
        return;
      }
      ghost var continued := disk;
      var registry := disk.registry;
      if sound && registry.current.Some? {
        CurrentIsCalled(disk);
      }
      if sound && old(disk.registry.pending).Some? {
        ServesNotEmpty(disk, old(disk.registry.pending).value.target.session);
      }
      if registry.pending.Some? || registry.current != Some(session) || session !in registry.dialogues
         || registry.dialogues[session].status != Active || registry.dialogues[session].activated != Some(registry.generation)
      {
        return Some(SessionDeactivated);
      }
      if session !in disk.configs {
        return Some(ConfigMissing);
      }
      if disk.configs[session] != registry.dialogues[session].config {
        return Some(ConfigConflict);
      }
      failure := Bootstrap(disk.configs[session], evidence(disk.configs[session]));
      NoCommandsOn(old(disk), continued, disk);
      if sound {
        ProtectsOn(old(disk), continued, disk);
      }
    }

    /**
      One normal command with the effect the dialogue would decide on, if it accepts the command. It is committed only to
      the session recovery leads to: never to a source whose handoff has begun, and never to a deactivated session.
      */
    method Execute(session: string, generation: nat, effect: Option<(bool, bool)>, evidence: Config -> Evidence)
      returns (failure: Option<Failure>)
      modifies this
      ensures Some(session) != old(Destination(disk.registry)) && old(WorldSound(disk)) ==> NoCommands(old(disk), disk)
      ensures failure.Some? ==> NoCommands(old(disk), disk)
      ensures forall other :: other != session ==> NoCommandAdded(LogOf(old(disk), other), LogOf(disk, other))
      ensures old(WorldSound(disk)) ==>
                && WorldSound(disk) && Protects(old(disk), disk)
                && Destination(disk.registry) == old(Destination(disk.registry))
                && Ends(failure, CommandRefusal(old(disk), session, generation, effect, evidence), old(life), life, 4)
                && (failure.None? ==>
                      && Serves(disk, session) && effect.Some?
                      && Took(LogOf(old(disk), session), LogOf(disk, session),
                              Entry(generation, Normal(effect.value.0, effect.value.1))))
      ensures old(WorldSound(disk)) && old(disk.registry.pending).None? && old(disk.registry.current) == Some(session)
              && LogOf(old(disk), session) != [] && old(life) >= 4 && effect.Some?
              && generation == old(disk.registry.generation)
              && (session in old(disk.configs) ==> evidence(old(disk.configs)[session]).Verified?) ==>
                failure.None?
    {
      hide WorldSound, Serves, Protects, NoCommands, NoCommandAdded, Took;
      ghost var sound := WorldSound(disk);
      failure := OpenForCommand(session, evidence);
      NoCommandsEach(old(disk), disk);
      if failure.Some? {
        return;
      }
      ghost var ready := disk;
      failure := ExecuteLocked(session, generation, effect, evidence(disk.configs[session]));
      NoCommandsEach(ready, disk);
      if sound {
        ProtectsOn(old(disk), ready, disk);
      }
      if failure.None? {
        TookAfter(LogOf(old(disk), session), ready.logs[session], LogOf(disk, session),
                  Entry(generation, Normal(effect.value.0, effect.value.1)));
      } else {
        NoCommandsOn(old(disk), ready, disk);
      }
    }

    /** The command on its opened dialogue: one entry in one write, or nothing. */
    method ExecuteLocked(session: string, generation: nat, effect: Option<(bool, bool)>, evidence: Evidence)
      returns (failure: Option<Failure>)
      requires disk.registry.current == Some(session) && session in disk.registry.dialogues
      requires disk.registry.dialogues[session].status == Active
      modifies this
      ensures failure.Some? ==> disk == old(disk) && (failure == Some(Died) ==> old(life) == life == 0)
      ensures failure.None? ==>
                && effect.Some? && session in old(disk.logs) && life + 1 == old(life)
                && disk == Appended(old(disk), session, Entry(generation, Normal(effect.value.0, effect.value.1)))
      ensures old(WorldSound(disk)) && old(Serves(disk, session)) ==>
                && WorldSound(disk) && Protects(old(disk), disk) && Serves(disk, session)
                && failure == (if evidence.Unverified? then Some(EvidenceFailed)
                               else if effect.None? || generation != disk.registry.generation then Some(CommandRejected)
                               else if old(life) == 0 then Some(Died)
                               else None)
    {
      hide WorldSound, Replay, Protects;
      ghost var sound := WorldSound(disk) && Serves(disk, session);
      ProtectsItself(disk);
      if session !in disk.logs {
        return Some(DialogueMissing);
      }
      if evidence.Unverified? {
        return Some(EvidenceFailed);
      }
      if effect.None? || generation != disk.registry.generation {
        return Some(CommandRejected);
      }
      var entry := Entry(generation, Normal(effect.value.0, effect.value.1));
      if sound {
        ServesTakes(disk, session, entry);
        AppendProtects(disk, session, entry);
        CommandKeepsSound(disk, session, entry);
      }
      var dead := Write(Appended(disk, session, entry));
      failure := if dead then Some(Died) else None;
    }

    lemma TookAfter(before: seq<Entry>, ready: seq<Entry>, after: seq<Entry>, entry: Entry)
      requires NoCommandAdded(before, ready) && after == ready + [entry]
      ensures Took(before, after, entry)
    {
    }

    lemma ServesNotEmpty(w: World, session: string)
      requires Serves(w, session)
      ensures LogOf(w, session) != [] && w.registry.current == Some(session)
    {
    }

    lemma NoCommandsEach(w: World, t: World)
      ensures NoCommands(w, w)
      ensures NoCommands(w, t) ==> forall session :: NoCommandAdded(LogOf(w, session), LogOf(t, session))
    {
    }

    /** A session that serves takes any normal command of its generation, and goes on serving. */
    lemma ServesTakes(w: World, session: string, entry: Entry)
      requires WorldSound(w) && Serves(w, session) && entry.action.Normal? && entry.generation == w.registry.generation
      ensures Replay(w.logs[session] + [entry], w.registry.generation).Some?
      ensures Serves(Appended(w, session, entry), session)
    {
      NonEmptyIsOpen(w.logs[session], w.registry.generation);
      ReplayLonger(w.logs[session], entry, w.registry.generation);
    }
  }

  /** What a deactivated session's log holds never changes again and is what its proof in the registry names. */
  lemma DeactivatedForever(w: World, t: World, session: string)
    requires WorldSound(w) && WorldSound(t) && Protects(w, t)
    requires session in w.registry.dialogues && w.registry.dialogues[session].status == Deactivated
    ensures session in t.registry.dialogues && t.registry.dialogues[session].status == Deactivated
    ensures session in w.logs && session in t.logs && t.logs[session] == w.logs[session]
    ensures ProvenBy(t.registry, t.registry.dialogues[session], t.logs[session])
    ensures exists proof :: DeactivatedBy(proof) in t.registry.events && proof.source == session && proof.log == t.logs[session]
  {
    assert SessionSound(w, session) && SessionSound(t, session);
    assert LogProtected(w, t, session);
    RegistrationOf(t.registry, session);
    hide RegistrySound, Replay;
    var proof :| DeactivatedOnceBy(t.registry.events, session, proof) && proof.log == t.logs[session];
    var i :| 0 <= i < |t.registry.events| && t.registry.events[i] == DeactivatedBy(proof);
  }

  lemma EmptyDiskIsSound()
    ensures WorldSound(World(EMPTY_REGISTRY, map[], map[]))
  {
  }

  /**
    A session is requested, the process dies at any write, and another process recovers: the requested session serves
    when its registration was durable, the one recovery led to before otherwise, and nothing that was fixed has changed.
    */
  method RequestCrashRecover(disk: World, config: Config, evidence: Config -> Evidence, life: nat)
    returns (after: World, serving: Option<string>)
    requires WorldSound(disk) && config.session !in disk.registry.dialogues
    ensures WorldSound(after) && Protects(disk, after)
    ensures config.session in after.registry.dialogues <==>
              RequestRefusal(disk, config, evidence).None? && life > WritesBefore(disk, config)
    ensures serving == if config.session in after.registry.dialogues then Some(config.session) else Destination(disk.registry)
    ensures serving.Some? ==> Serves(after, serving.value)
  {
    hide WorldSound, Protects, Serves;
    var dying := new Coordinator(disk, life);
    var _ := dying.Resolve(config, evidence);
    var left := dying.disk;
    var recovering := new Coordinator(left, 4);
    var result := recovering.Recover(_ => Verified(true));
    after, serving := recovering.disk, result.value;
    ProtectsOn(disk, left, after);
  }

  datatype Ask = ForSession(config: Config) | ForCommand(session: string, generation: nat, effect: Option<(bool, bool)>)

  /** One process: what it is asked for, the evidence it finds, and how many writes it survives. */
  datatype Visit = Visit(ask: Ask, evidence: Config -> Evidence, life: nat)

  /**
    From the empty disk processes come one after another, each is asked for a session or a command and dies anywhere, and
    each is followed by a recovery. Every disk on the way is sound, at most one session is active on it and serves, and
    whatever an earlier disk has fixed every later one keeps.
    */
  method ServeVisits(visits: seq<Visit>) returns (ghost history: seq<World>)
    ensures |history| == |visits| + 1 && history[0] == World(EMPTY_REGISTRY, map[], map[])
    ensures forall i :: 0 <= i < |history| ==> WorldSound(history[i]) && Settled(history[i])
    ensures forall i, j :: 0 <= i <= j < |history| ==> Protects(history[i], history[j])
  {
    hide WorldSound, Protects, Serves;
    var disk := World(EMPTY_REGISTRY, map[], map[]);
    history := [disk];
    EmptyDiskIsSound();
    ProtectsItself(disk);
    for i := 0 to |visits|
      invariant |history| == i + 1 && history[0] == World(EMPTY_REGISTRY, map[], map[]) && history[i] == disk
      invariant forall k :: 0 <= k <= i ==> WorldSound(history[k]) && Settled(history[k])
      invariant forall j, k :: 0 <= j <= k <= i ==> Protects(history[j], history[k])
    {
      var after := ServeVisit(disk, visits[i]);
      ProtectsItself(after);
      forall j | 0 <= j <= i
        ensures Protects(history[j], after)
      {
        ProtectsOn(history[j], disk, after);
      }
      disk := after;
      history := history + [after];
    }
  }

  /** No handoff is pending, and the current session, if there is one, is the only active one and serves. */
  ghost predicate Settled(w: World) {
    w.registry.pending.None? && (w.registry.current.Some? ==> Serves(w, w.registry.current.value))
  }

  method ServeVisit(disk: World, visit: Visit) returns (after: World)
    requires WorldSound(disk)
    ensures WorldSound(after) && Protects(disk, after) && Settled(after)
  {
    hide WorldSound, Protects, Serves;
    var dying := new Coordinator(disk, visit.life);
    match visit.ask {
      case ForSession(config) =>
        var _ := dying.Resolve(config, visit.evidence);
      case ForCommand(session, generation, effect) =>
        var _ := dying.Execute(session, generation, effect, visit.evidence);
    }
    var left := dying.disk;
    var recovering := new Coordinator(left, 4);
    var _ := recovering.Recover(_ => Verified(true));
    after := recovering.disk;
    ProtectsOn(disk, left, after);
  }
}
