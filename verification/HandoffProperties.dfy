/**
  What every durable state of registry, configurations and dialogue logs satisfies, step by step: the steps are the
  single durable writes between which the coordinator can crash.
  */
module HandoffProperties {
  import opened Wrappers
  import opened Registry

  datatype World = World(registry: Registry, configs: map<string, Config>, logs: map<string, seq<Entry>>)

  // ---- the registry's own state ----

  /** Without a pending handoff the current session is active; with one it is deactivating and the target is created. */
  function RoleOf(r: Registry, session: string): Status {
    if r.pending.Some? && session == r.pending.value.target.session then Created
    else if Some(session) == r.current then (if r.pending.Some? then Deactivating else Active)
    else Deactivated
  }

  ghost predicate PendingSound(r: Registry, p: Pending) {
    && r.current == Some(p.source) && p.source in r.dialogues && p.source != p.target.session
    && p.target.session in r.dialogues && r.dialogues[p.target.session].config == p.target
    && p.handoff == HandoffId(p.source, p.target) && p.generation == r.generation && r.generation >= 2
  }

  predicate ActivatedOnce(events: seq<Payload>, config: Config, generation: nat) {
    && (exists i :: 0 <= i < |events| && events[i] == Activated(config, generation))
    && (forall i, j :: 0 <= i < j < |events| && events[i] == Activated(config, generation) ==> events[j] != events[i])
  }

  predicate Deactivates(payload: Payload, session: string) {
    payload.DeactivatedBy? && payload.proof.source == session
  }

  ghost predicate DeactivatedOnceBy(events: seq<Payload>, session: string, proof: Proof) {
    && proof.source == session
    && (exists i :: 0 <= i < |events| && events[i] == DeactivatedBy(proof))
    && (forall i, j :: 0 <= i < j < |events| ==> !(Deactivates(events[i], session) && Deactivates(events[j], session)))
  }

  ghost predicate StatusSound(r: Registry, reg: Registration) {
    match reg.status
    case Created => reg.activated.None? && reg.deactivated.None? && reg.handoff.None?
    case Active => reg.activated == Some(r.generation) && reg.deactivated.None? && reg.handoff.None?
    case Deactivating =>
      r.generation >= 2 && reg.activated == Some(r.generation - 1) && reg.deactivated.None? && reg.handoff.None?
    case Deactivated =>
      reg.activated.Some? && reg.deactivated == Some(reg.activated.value + 1) && reg.handoff.Some?
      && reg.handoff.value.target.session in r.dialogues
  }

  ghost predicate RegistrationSound(r: Registry, session: string)
    requires session in r.dialogues
  {
    var reg := r.dialogues[session];
    && reg.config.session == session && reg.status == RoleOf(r, session) && StatusSound(r, reg)
    && 1 <= reg.createdAt <= |r.events| && r.events[reg.createdAt - 1] == DialogueCreated(reg.config)
    && (reg.activated.Some? ==> ActivatedOnce(r.events, reg.config, reg.activated.value))
  }

  /** Activations so far carry generations before a pending handoff's, and only deactivated sessions have a proof. */
  ghost predicate EventSound(r: Registry, payload: Payload) {
    && (payload.Activated? ==> payload.generation <= if r.pending.Some? then r.generation - 1 else r.generation)
    && (payload.DeactivatedBy? ==>
          payload.proof.source in r.dialogues && r.dialogues[payload.proof.source].status == Deactivated)
  }

  ghost predicate CommandSound(r: Registry, command: Command) {
    match command
    case CreateAndActivate(target) => target.session in r.dialogues
    case Begin(handoff) => handoff.target.session in r.dialogues
    case Complete(proof) => proof.source in r.dialogues && r.dialogues[proof.source].status == Deactivated
  }

  ghost predicate RegistrySound(r: Registry) {
    if r.current.None? then r == EMPTY_REGISTRY
    else
      && r.current.value in r.dialogues && r.generation >= 1
      && (r.pending.Some? ==> PendingSound(r, r.pending.value))
      && (forall session :: session in r.dialogues ==> RegistrationSound(r, session))
      && (forall i :: 0 <= i < |r.events| ==> EventSound(r, r.events[i]))
      && (forall i :: 0 <= i < |r.commands| ==> CommandSound(r, r.commands[i]))
  }

  // ---- dialogue logs ----

  ghost predicate IsOpenLog(log: seq<Entry>, base: nat) {
    Replay(log, base).Some? && !Replay(log, base).value.fenced
  }

  predicate EndsWith(log: seq<Entry>, handoff: HandoffId) {
    log != [] && (log[|log| - 1].action == PauseTopic(handoff) || log[|log| - 1].action == Prepare(handoff))
  }

  ghost predicate IsQuietLog(log: seq<Entry>, base: nat) {
    Replay(log, base).Some? && Replay(log, base).value.open && Replay(log, base).value.quiet && !Replay(log, base).value.topic
  }

  ghost predicate ProvenBy(r: Registry, reg: Registration, log: seq<Entry>) {
    exists proof :: DeactivatedOnceBy(r.events, reg.config.session, proof) && proof.log == log
                    && Some(proof.generation) == reg.deactivated && Some(proof.handoff) == reg.handoff
  }

  /** A session's log fits its registration; that of a deactivated session is the one its proof names. */
  ghost predicate LogSound(r: Registry, reg: Registration, log: seq<Entry>) {
    match reg.status
    case Created => log == []
    case Active => reg.activated.Some? && IsOpenLog(log, reg.activated.value)
    case Deactivating =>
      && reg.activated.Some? && Replay(log, reg.activated.value).Some? && r.pending.Some?
      && (Replay(log, reg.activated.value).value.fenced ==>
            EndsWith(log, r.pending.value.handoff) && IsQuietLog(log, reg.activated.value))
    case Deactivated => reg.activated.Some? && log != [] && IsQuietLog(log, reg.activated.value) && ProvenBy(r, reg, log)
  }

  ghost predicate SessionSound(w: World, session: string) {
    if session in w.registry.dialogues then
      && session in w.configs && w.configs[session] == w.registry.dialogues[session].config
      && session in w.logs && LogSound(w.registry, w.registry.dialogues[session], w.logs[session])
    else
      session in w.logs ==> w.logs[session] == []
  }

  ghost predicate WorldSound(w: World) {
    && RegistrySound(w.registry)
    && (forall session :: SessionSound(w, session))
    && (forall session :: session in w.configs ==> w.configs[session].session == session)
  }

  /** Where recovery leads: the target of a handoff once it has begun, the current session otherwise. */
  function Destination(r: Registry): Option<string> {
    if r.pending.Some? then Some(r.pending.value.target.session) else r.current
  }

  // ---- the durable steps ----

  function WithConfig(w: World, config: Config): World {
    if config.session in w.configs then w else w.(configs := w.configs[config.session := config])
  }

  function WithLog(w: World, session: string): World {
    if session in w.logs then w else w.(logs := w.logs[session := []])
  }

  function Appended(w: World, session: string, entry: Entry): World
    requires session in w.logs
  {
    w.(logs := w.logs[session := w.logs[session] + [entry]])
  }

  lemma PersistKeepsSound(w: World, config: Config)
    requires WorldSound(w)
    ensures WorldSound(WithConfig(w, config))
  {
    hide LogSound, RegistrySound;
    var t := WithConfig(w, config);
    forall session
      ensures SessionSound(t, session)
    {
      assert SessionSound(w, session);
    }
  }

  lemma OpenKeepsSound(w: World, session: string)
    requires WorldSound(w)
    ensures WorldSound(WithLog(w, session))
  {
    hide LogSound, RegistrySound;
    var t := WithLog(w, session);
    forall other
      ensures SessionSound(t, other)
    {
      assert SessionSound(w, other);
    }
  }

  lemma ReplayLonger(log: seq<Entry>, entry: Entry, base: nat)
    ensures Replay(log + [entry], base) ==
            if Replay(log, base).None? then None else Reduce(Replay(log, base).value, entry, base)
  {
    assert (log + [entry])[..|log|] == log;
  }

  /** A log that has taken any transaction is that of an open dialogue. */
  lemma NonEmptyIsOpen(log: seq<Entry>, base: nat)
    requires log != [] && Replay(log, base).Some?
    ensures Replay(log, base).value.open
  {
  }

  /** The start of, or a normal command on, the active session. */
  lemma CommandKeepsSound(w: World, session: string, entry: Entry)
    requires WorldSound(w) && session in w.registry.dialogues && w.registry.dialogues[session].status == Active
    requires session in w.logs && !IsQuiesce(entry.action)
    requires Replay(w.logs[session] + [entry], w.registry.generation).Some?
    ensures WorldSound(Appended(w, session, entry))
  {
    hide RegistrySound, Replay;
    assert RegistrationSound(w.registry, session) by {
      RegistrationOf(w.registry, session);
    }
    var t := Appended(w, session, entry);
    assert SessionSound(w, session);
    ReplayLonger(w.logs[session], entry, w.registry.generation);
    forall other
      ensures SessionSound(t, other)
    {
      assert SessionSound(w, other);
    }
  }

  lemma RegistrationOf(r: Registry, session: string)
    requires RegistrySound(r) && session in r.dialogues
    ensures RegistrationSound(r, session) && r.current.Some?
  {
  }

  lemma PendingOf(r: Registry)
    requires RegistrySound(r) && r.pending.Some?
    ensures PendingSound(r, r.pending.value)
    ensures r.dialogues[r.pending.value.source].status == Deactivating
    ensures r.dialogues[r.pending.value.source].activated == Some(r.generation - 1)
    ensures r.dialogues[r.pending.value.target.session].status == Created
  {
    assert RegistrationSound(r, r.pending.value.source);
    assert RegistrationSound(r, r.pending.value.target.session);
  }

  /** The quiesce event of the pending handoff. */
  lemma QuiesceKeepsSound(w: World, action: Action)
    requires WorldSound(w) && w.registry.pending.Some? && w.registry.pending.value.source in w.logs
    requires w.registry.generation >= 1
    requires var p := w.registry.pending.value;
             var before := Replay(w.logs[p.source], w.registry.generation - 1);
             before.Some? && !before.value.fenced && DecideQuiesce(before.value, p.handoff) == Some(action)
    ensures var p := w.registry.pending.value;
            var t := Appended(w, p.source, Entry(p.generation, action));
            WorldSound(t) && IsQuietLog(t.logs[p.source], w.registry.generation - 1)
            && Replay(t.logs[p.source], w.registry.generation - 1).value.fenced
  {
    hide RegistrySound;
    var p := w.registry.pending.value;
    PendingOf(w.registry);
    var t := Appended(w, p.source, Entry(p.generation, action));
    assert SessionSound(w, p.source);
    ReplayLonger(w.logs[p.source], Entry(p.generation, action), w.registry.generation - 1);
    forall other
      ensures SessionSound(t, other)
    {
      assert SessionSound(w, other);
    }
  }

  // ---- registry commits ----

  lemma ApplyTwo(r: Registry, a: Payload, b: Payload)
    ensures ApplyAll(r, [a, b]) == ApplyPayload(ApplyPayload(r, a), b)
  {
    hide ApplyPayload;
    var s := ApplyPayload(r, a);
    assert [a, b][1..] == [b] && [b][1..] == [];
    assert ApplyAll(s, [b]) == ApplyAll(ApplyPayload(s, b), []);
  }

  lemma ActivatedOnceMore(events: seq<Payload>, a: Payload, b: Payload, config: Config, generation: nat)
    requires ActivatedOnce(events, config, generation)
    requires a != Activated(config, generation) && b != Activated(config, generation)
    ensures ActivatedOnce(events + [a] + [b], config, generation)
  {
    var i :| 0 <= i < |events| && events[i] == Activated(config, generation);
    assert (events + [a] + [b])[i] == Activated(config, generation);
  }

  lemma FirstActivation(events: seq<Payload>, a: Payload, config: Config, generation: nat)
    requires forall i :: 0 <= i < |events| ==> events[i] != Activated(config, generation)
    requires a != Activated(config, generation)
    ensures ActivatedOnce(events + [a] + [Activated(config, generation)], config, generation)
  {
    var all := events + [a] + [Activated(config, generation)];
    assert all[|events| + 1] == Activated(config, generation);
  }

  lemma DeactivatedOnceMore(events: seq<Payload>, a: Payload, b: Payload, session: string, proof: Proof)
    requires DeactivatedOnceBy(events, session, proof) && !Deactivates(a, session) && !Deactivates(b, session)
    ensures DeactivatedOnceBy(events + [a] + [b], session, proof)
  {
    var i :| 0 <= i < |events| && events[i] == DeactivatedBy(proof);
    assert (events + [a] + [b])[i] == DeactivatedBy(proof);
  }

  lemma FirstDeactivation(events: seq<Payload>, proof: Proof, b: Payload)
    requires forall i :: 0 <= i < |events| ==> !Deactivates(events[i], proof.source)
    requires !Deactivates(b, proof.source)
    ensures DeactivatedOnceBy(events + [DeactivatedBy(proof)] + [b], proof.source, proof)
  {
    var all := events + [DeactivatedBy(proof)] + [b];
    assert all[|events|] == DeactivatedBy(proof);
  }

  lemma CreateKeepsSound(w: World, config: Config)
    requires WorldSound(w) && w.registry.current.None?
    requires config.session in w.configs && w.configs[config.session] == config
    requires config.session in w.logs
    ensures var command := CreateAndActivate(config);
            && Decide(w.registry, command) == Accepted([DialogueCreated(config), Activated(config, 1)])
            && WorldSound(w.(registry := Committed(w.registry, command, [DialogueCreated(config), Activated(config, 1)])))
  {
    var command := CreateAndActivate(config);
    ApplyTwo(w.registry, DialogueCreated(config), Activated(config, 1));
    var r := Committed(w.registry, command, [DialogueCreated(config), Activated(config, 1)]);
    FirstActivation([], DialogueCreated(config), config, 1);
    assert r.events == [] + [DialogueCreated(config)] + [Activated(config, 1)];
    assert r.dialogues.Keys == {config.session};
    assert RegistrationSound(r, config.session);
    assert SessionSound(w, config.session);
    var t := w.(registry := r);
    forall other
      ensures SessionSound(t, other)
    {
      assert SessionSound(w, other);
    }
  }

  /** A session that is registered without a handoff in progress is the active one or has been deactivated. */
  lemma NothingCreated(r: Registry, session: string)
    requires RegistrySound(r) && r.pending.None? && session in r.dialogues
    ensures r.dialogues[session].status == if Some(session) == r.current then Active else Deactivated
  {
    RegistrationOf(r, session);
  }

  function BeginOf(r: Registry, config: Config): Pending
    requires r.current.Some?
  {
    Pending(HandoffId(r.current.value, config), r.current.value, config, r.generation + 1)
  }

  function BeginPayloads(r: Registry, config: Config): seq<Payload>
    requires r.current.Some?
  {
    [DialogueCreated(config), DeactivationStarted(BeginOf(r, config))]
  }

  predicate BeginsTo(r: Registry, config: Config, t: Registry)
    requires r.current.Some?
  {
    var p := BeginOf(r, config);
    && p.source in r.dialogues
    && t.events == r.events + [DialogueCreated(config)] + [DeactivationStarted(p)]
    && t.generation == r.generation + 1 && t.pending == Some(p) && t.current == r.current
    && t.commands == r.commands + [Begin(p.handoff)]
    && t.dialogues == r.dialogues[config.session := Registration(config, Created, |r.events| + 1, None, None, None)]
                                 [p.source := r.dialogues[p.source].(status := Deactivating)]
  }

  lemma BegunIs(r: Registry, config: Config)
    requires r.current.Some? && r.current.value in r.dialogues && config.session !in r.dialogues
    ensures BeginsTo(r, config, Committed(r, Begin(HandoffId(r.current.value, config)), BeginPayloads(r, config)))
  {
    ApplyTwo(r, DialogueCreated(config), DeactivationStarted(BeginOf(r, config)));
  }

  lemma BeginIsAccepted(r: Registry, config: Config)
    requires RegistrySound(r) && r.current.Some? && r.pending.None? && config.session !in r.dialogues
    ensures Decide(r, Begin(HandoffId(r.current.value, config))) == Accepted(BeginPayloads(r, config))
  {
    var handoff := HandoffId(r.current.value, config);
    NothingCreated(r, r.current.value);
    NotBegunBefore(r, handoff);
    hide RegistrySound;
  }

  /** A handoff to an unregistered session has no command and no registration yet. */
  lemma NotBegunBefore(r: Registry, handoff: HandoffId)
    requires RegistrySound(r) && handoff.target.session !in r.dialogues
    ensures Begin(handoff) !in r.commands && !UsesHandoff(r, handoff)
  {
    hide RegistrationSound;
    forall session | session in r.dialogues
      ensures r.dialogues[session].handoff != Some(handoff)
    {
      HandoffRegistered(r, session);
    }
  }

  lemma HandoffRegistered(r: Registry, session: string)
    requires RegistrySound(r) && session in r.dialogues
    ensures r.dialogues[session].handoff.Some? ==> r.dialogues[session].handoff.value.target.session in r.dialogues
  {
    hide ActivatedOnce;
    RegistrationOf(r, session);
  }

  /** Registrations other than source and target are untouched by a begin. */
  lemma BegunRegistry(r: Registry, config: Config, t: Registry)
    requires RegistrySound(r) && r.current.Some? && r.pending.None? && config.session !in r.dialogues
    requires BeginsTo(r, config, t)
    ensures RegistrySound(t)
  {
    hide RegistrationSound, BeginPayloads;
    forall session | session in t.dialogues
      ensures RegistrationSound(t, session)
    {
      BegunRegistration(r, config, t, session);
    }
    forall i | 0 <= i < |t.events|
      ensures EventSound(t, t.events[i])
    {
      BegunEvent(r, config, t, i);
    }
    forall i | 0 <= i < |t.commands|
      ensures CommandSound(t, t.commands[i])
    {
      BegunCommand(r, config, t, i);
    }
  }

  lemma BegunEvent(r: Registry, config: Config, t: Registry, i: nat)
    requires RegistrySound(r) && r.current.Some? && r.pending.None? && config.session !in r.dialogues
    requires BeginsTo(r, config, t) && i < |t.events|
    ensures EventSound(t, t.events[i])
  {
    hide RegistrationSound;
    if i < |r.events| {
      assert t.events[i] == r.events[i];
      assert EventSound(r, r.events[i]);
      NothingCreated(r, r.current.value);
    }
  }

  lemma BegunCommand(r: Registry, config: Config, t: Registry, i: nat)
    requires RegistrySound(r) && r.current.Some? && r.pending.None? && config.session !in r.dialogues
    requires BeginsTo(r, config, t) && i < |t.commands|
    ensures CommandSound(t, t.commands[i])
  {
    hide RegistrationSound;
    if i < |r.commands| {
      assert t.commands[i] == r.commands[i];
      assert CommandSound(r, r.commands[i]);
      NothingCreated(r, r.current.value);
    }
  }

  lemma BegunRegistration(r: Registry, config: Config, t: Registry, session: string)
    requires RegistrySound(r) && r.current.Some? && r.pending.None? && config.session !in r.dialogues
    requires BeginsTo(r, config, t)
    requires session in t.dialogues
    ensures RegistrationSound(t, session)
  {
    hide ActivatedOnce, RegistrySound;
    if session != config.session {
      RegistrationOf(r, session);
      NothingCreated(r, session);
      GenerationOf(r);
      var reg := r.dialogues[session];
      assert t.events[reg.createdAt - 1] == r.events[reg.createdAt - 1];
      if reg.activated.Some? {
        ActivatedOnceMore(r.events, DialogueCreated(config), DeactivationStarted(BeginOf(r, config)), reg.config,
                          reg.activated.value);
      }
    }
  }

  lemma GenerationOf(r: Registry)
    requires RegistrySound(r) && r.current.Some?
    ensures r.generation >= 1 && r.current.value in r.dialogues
  {
  }

  lemma BeginKeepsSound(w: World, config: Config)
    requires WorldSound(w) && w.registry.current.Some? && w.registry.pending.None?
    requires config.session !in w.registry.dialogues
    requires config.session in w.configs && w.configs[config.session] == config
    requires config.session in w.logs
    ensures WorldSound(w.(registry := Committed(w.registry, Begin(HandoffId(w.registry.current.value, config)),
                                                BeginPayloads(w.registry, config))))
  {
    hide RegistrySound, SessionSound, Committed, BeginPayloads;
    var r := w.registry;
    var t := w.(registry := Committed(r, Begin(HandoffId(r.current.value, config)), BeginPayloads(r, config)));
    GenerationOf(r);
    BegunIs(r, config);
    BegunRegistry(r, config, t.registry);
    forall other
      ensures SessionSound(t, other)
    {
      BegunSession(w, config, t, other);
    }
  }

  lemma BegunSession(w: World, config: Config, t: World, session: string)
    requires WorldSound(w) && w.registry.current.Some? && w.registry.pending.None?
    requires config.session !in w.registry.dialogues
    requires config.session in w.configs && w.configs[config.session] == config
    requires config.session in w.logs
    requires t == w.(registry := t.registry) && BeginsTo(w.registry, config, t.registry)
    ensures SessionSound(t, session)
  {
    hide RegistrySound, Replay;
    var r := w.registry;
    assert SessionSound(w, session);
    if session in r.dialogues {
      NothingCreated(r, session);
      RegistrationOf(r, session);
      if Some(session) != r.current {
        ProofKept(r, t.registry, r.dialogues[session], w.logs[session], DialogueCreated(config),
                  DeactivationStarted(BeginOf(r, config)));
      }
    }
  }

  lemma ProofKept(r: Registry, t: Registry, reg: Registration, log: seq<Entry>, a: Payload, b: Payload)
    requires ProvenBy(r, reg, log) && t.events == r.events + [a] + [b]
    requires !Deactivates(a, reg.config.session) && !Deactivates(b, reg.config.session)
    ensures ProvenBy(t, reg, log)
  {
    var proof :| DeactivatedOnceBy(r.events, reg.config.session, proof) && proof.log == log
                 && Some(proof.generation) == reg.deactivated && Some(proof.handoff) == reg.handoff;
    DeactivatedOnceMore(r.events, a, b, reg.config.session, proof);
  }

  // ---- completing a handoff ----

  function ProofFor(w: World): Proof
    requires w.registry.pending.Some? && w.registry.pending.value.source in w.logs
  {
    var p := w.registry.pending.value;
    Proof(p.source, p.target, p.handoff, p.generation, w.logs[p.source])
  }

  function CompletePayloads(r: Registry, proof: Proof): seq<Payload>
    requires r.pending.Some?
  {
    [DeactivatedBy(proof), Activated(r.pending.value.target, r.pending.value.generation)]
  }

  predicate ProofMatches(proof: Proof, p: Pending) {
    proof.source == p.source && proof.target == p.target && proof.handoff == p.handoff && proof.generation == p.generation
  }

  lemma CompleteIsAccepted(r: Registry, proof: Proof)
    requires RegistrySound(r) && r.pending.Some? && ProofMatches(proof, r.pending.value)
    ensures Decide(r, Complete(proof)) == Accepted(CompletePayloads(r, proof))
  {
    PendingOf(r);
    assert Complete(proof) !in r.commands;
  }

  predicate CompletesTo(r: Registry, proof: Proof, t: Registry)
    requires r.pending.Some?
  {
    var p := r.pending.value;
    && p.source in r.dialogues && p.target.session in r.dialogues && p.source != p.target.session
    && t.events == r.events + [DeactivatedBy(proof)] + [Activated(p.target, p.generation)]
    && t.generation == p.generation && t.current == Some(p.target.session) && t.pending == None
    && t.commands == r.commands + [Complete(proof)]
    && t.dialogues == r.dialogues[p.source := r.dialogues[p.source].(status := Deactivated,
                                                                    deactivated := Some(proof.generation),
                                                                    handoff := Some(proof.handoff))]
                                 [p.target.session := r.dialogues[p.target.session].(status := Active,
                                                                                     activated := Some(p.generation))]
  }

  lemma CompletedIs(r: Registry, proof: Proof)
    requires RegistrySound(r) && r.pending.Some? && ProofMatches(proof, r.pending.value)
    ensures CompletesTo(r, proof, Committed(r, Complete(proof), CompletePayloads(r, proof)))
  {
    PendingOf(r);
    hide RegistrySound;
    ApplyTwo(r, DeactivatedBy(proof), Activated(r.pending.value.target, r.pending.value.generation));
  }

  lemma CompletedRegistration(r: Registry, proof: Proof, t: Registry, session: string)
    requires RegistrySound(r) && r.pending.Some? && ProofMatches(proof, r.pending.value) && CompletesTo(r, proof, t)
    requires session in t.dialogues
    ensures RegistrationSound(t, session)
  {
    hide ActivatedOnce, RegistrySound;
    var p := r.pending.value;
    PendingOf(r);
    RegistrationOf(r, session);
    var reg := r.dialogues[session];
    assert t.events[reg.createdAt - 1] == r.events[reg.createdAt - 1];
    if session == p.target.session {
      NotActivatedYet(r);
      FirstActivation(r.events, DeactivatedBy(proof), p.target, p.generation);
    } else if reg.activated.Some? {
      ActivatedOnceMore(r.events, DeactivatedBy(proof), Activated(p.target, p.generation), reg.config, reg.activated.value);
    }
  }

  lemma NotActivatedYet(r: Registry)
    requires RegistrySound(r) && r.pending.Some?
    ensures forall i :: 0 <= i < |r.events| ==> r.events[i] != Activated(r.pending.value.target, r.pending.value.generation)
  {
    hide RegistrationSound;
    forall i | 0 <= i < |r.events|
      ensures r.events[i] != Activated(r.pending.value.target, r.pending.value.generation)
    {
      assert EventSound(r, r.events[i]);
    }
  }

  lemma CompletedRegistry(r: Registry, proof: Proof, t: Registry)
    requires RegistrySound(r) && r.pending.Some? && ProofMatches(proof, r.pending.value) && CompletesTo(r, proof, t)
    ensures RegistrySound(t)
  {
    hide RegistrationSound;
    PendingOf(r);
    forall session | session in t.dialogues
      ensures RegistrationSound(t, session)
    {
      CompletedRegistration(r, proof, t, session);
    }
    forall i | 0 <= i < |t.events|
      ensures EventSound(t, t.events[i])
    {
      if i < |r.events| {
        assert t.events[i] == r.events[i];
        assert EventSound(r, r.events[i]);
      }
    }
    forall i | 0 <= i < |t.commands|
      ensures CommandSound(t, t.commands[i])
    {
      if i < |r.commands| {
        assert t.commands[i] == r.commands[i];
        assert CommandSound(r, r.commands[i]);
      }
    }
  }

  /** The source's log, quiet and not empty, becomes the log its proof names. */
  lemma CompleteKeepsSound(w: World)
    requires WorldSound(w) && w.registry.pending.Some? && w.registry.pending.value.source in w.logs
    requires w.registry.generation >= 1
    requires w.logs[w.registry.pending.value.source] != []
    requires IsQuietLog(w.logs[w.registry.pending.value.source], w.registry.generation - 1)
    ensures var proof := ProofFor(w);
            var t := w.(registry := Committed(w.registry, Complete(proof), CompletePayloads(w.registry, proof)));
            WorldSound(t) && CompletesTo(w.registry, proof, t.registry)
  {
    var r := w.registry;
    var p := r.pending.value;
    var proof := ProofFor(w);
    var t := w.(registry := Committed(r, Complete(proof), CompletePayloads(r, proof)));
    PendingOf(r);
    CompletedIs(r, proof);
    CompletedRegistry(r, proof, t.registry);
    NoProofYet(r);
    FirstDeactivation(r.events, proof, Activated(p.target, p.generation));
    hide RegistrySound, Replay, Committed;
    assert SessionSound(w, p.source) && SessionSound(w, p.target.session);
    forall other
      ensures SessionSound(t, other)
    {
      CompletedSession(w, proof, t, other);
    }
  }

  lemma NoProofYet(r: Registry)
    requires RegistrySound(r) && r.pending.Some?
    ensures forall i :: 0 <= i < |r.events| ==> !Deactivates(r.events[i], r.pending.value.source)
  {
    PendingOf(r);
    forall i | 0 <= i < |r.events|
      ensures !Deactivates(r.events[i], r.pending.value.source)
    {
      assert EventSound(r, r.events[i]);
    }
  }

  lemma CompletedSession(w: World, proof: Proof, t: World, session: string)
    requires WorldSound(w) && w.registry.pending.Some? && w.registry.pending.value.source in w.logs
    requires w.registry.generation >= 1 && proof == ProofFor(w)
    requires proof.log != [] && IsQuietLog(proof.log, w.registry.generation - 1)
    requires t == w.(registry := t.registry) && CompletesTo(w.registry, proof, t.registry)
    requires DeactivatedOnceBy(t.registry.events, proof.source, proof)
    ensures SessionSound(t, session)
  {
    hide RegistrySound, DeactivatedOnceBy;
    var p := w.registry.pending.value;
    PendingOf(w.registry);
    assert SessionSound(w, session);
    if session in w.registry.dialogues {
      var reg := w.registry.dialogues[session];
      RegistrationOf(w.registry, session);
      if session == p.target.session {
        assert Replay([], p.generation) == Some(NEW_DIALOGUE);
      } else if session != p.source {
        ProofKept(w.registry, t.registry, reg, w.logs[session], DeactivatedBy(proof), Activated(p.target, p.generation));
      }
    }
  }
}
