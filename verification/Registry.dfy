/**
  The session registry (registry.py) and, in outline, the dialogue logs it governs (state_machine.py). Commits to both
  are atomic: EventStore proves that of the log they go through. Identifiers and digests that the source derives by
  hashing are free constructors over what is hashed.
  */
module Registry {
  import opened Wrappers

  /** A session's configuration; its digest is the configuration itself. */
  datatype Config = Config(session: string, body: string)

  datatype HandoffId = HandoffId(source: string, target: Config)

  // ---- dialogue logs ----

  /** What a committed transaction does to a dialogue: start it, any normal command, or one of the two quiesce events. */
  datatype Action = Start | Normal(quiet: bool, topic: bool) | PauseTopic(handoff: HandoffId) | Prepare(handoff: HandoffId)

  datatype Entry = Entry(generation: nat, action: Action)

  /** `quiet`: phase NONE; `topic`: an active topic; `fenced`: the last marker carries the fence generation. */
  datatype Dialogue = Dialogue(open: bool, quiet: bool, topic: bool, fenced: bool)

  const NEW_DIALOGUE := Dialogue(false, true, false, false)

  predicate IsQuiesce(action: Action) { action.PauseTopic? || action.Prepare? }

  /** One transaction on a log whose base generation is `base`; nothing is accepted after a fenced one. */
  function Reduce(state: Dialogue, entry: Entry, base: nat): Option<Dialogue> {
    if state.fenced then None
    else
      match entry.action
      case Start =>
        if !state.open && entry.generation == base then Some(Dialogue(true, false, false, false)) else None
      case Normal(quiet, topic) =>
        if state.open && entry.generation == base then Some(Dialogue(true, quiet, topic, false)) else None
      case PauseTopic(_) =>
        if state.open && state.topic && entry.generation == base + 1 then Some(Dialogue(true, true, false, true)) else None
      case Prepare(_) =>
        if (!state.open || !state.quiet) && !state.topic && entry.generation == base + 1
        then Some(Dialogue(true, true, false, true)) else None
  }

  function Replay(log: seq<Entry>, base: nat): Option<Dialogue> {
    if log == [] then Some(NEW_DIALOGUE)
    else
      var before := Replay(log[..|log| - 1], base);
      if before.None? then None else Reduce(before.value, log[|log| - 1], base)
  }

  /** The event a fenced source must take to become quiet, if any. */
  function DecideQuiesce(state: Dialogue, handoff: HandoffId): Option<Action> {
    if !state.open then Some(Prepare(handoff))
    else if state.topic then Some(PauseTopic(handoff))
    else if state.quiet then None
    else Some(Prepare(handoff))
  }

  /** The proof names the source's last event, last marker and state; the last marker's hash pins the whole log. */
  datatype Proof = Proof(source: string, target: Config, handoff: HandoffId, generation: nat, log: seq<Entry>)

  // ---- registry ----

  datatype Status = Created | Active | Deactivating | Deactivated

  datatype Registration = Registration(config: Config, status: Status, createdAt: nat, activated: Option<nat>,
                                       deactivated: Option<nat>, handoff: Option<HandoffId>)

  datatype Pending = Pending(handoff: HandoffId, source: string, target: Config, generation: nat)

  datatype Payload =
    | DialogueCreated(target: Config)
    | DeactivationStarted(pending: Pending)
    | DeactivatedBy(proof: Proof)
    | Activated(target: Config, generation: nat)

  /** The command's identifier is derived from its body. */
  datatype Command = CreateAndActivate(target: Config) | Begin(handoff: HandoffId) | Complete(proof: Proof)

  datatype Registry = Registry(generation: nat, current: Option<string>, dialogues: map<string, Registration>,
                               pending: Option<Pending>, events: seq<Payload>, commands: seq<Command>)

  const EMPTY_REGISTRY := Registry(0, None, map[], None, [], [])

  datatype Rejection = StateConflict | HandoffInProgress | SessionNotCurrent | HandoffIdConflict | TargetConflict
                     | ProofInvalid | InvalidCommand

  datatype Decision = Rejected(code: Rejection) | Idempotent | Accepted(payloads: seq<Payload>)

  predicate UsesHandoff(registry: Registry, handoff: HandoffId) {
    exists session | session in registry.dialogues :: registry.dialogues[session].handoff == Some(handoff)
  }

  function Decide(r: Registry, command: Command): Decision {
    if command in r.commands then Idempotent
    else
      match command
      case CreateAndActivate(target) =>
        if r.current.Some? || r.pending.Some? || target.session in r.dialogues then Rejected(StateConflict)
        else Accepted([DialogueCreated(target), Activated(target, r.generation + 1)])
      case Begin(handoff) =>
        var target := handoff.target;
        if handoff.source == target.session then Rejected(InvalidCommand)
        else if r.pending.Some? then Rejected(HandoffInProgress)
        else if r.current != Some(handoff.source) then Rejected(SessionNotCurrent)
        else if handoff.source !in r.dialogues || r.dialogues[handoff.source].status != Active then Rejected(StateConflict)
        else if UsesHandoff(r, handoff) then Rejected(HandoffIdConflict)
        else
          var started := DeactivationStarted(Pending(handoff, handoff.source, target, r.generation + 1));
          if target.session !in r.dialogues then Accepted([DialogueCreated(target), started])
          else if r.dialogues[target.session].status == Created && r.dialogues[target.session].config == target
          then Accepted([started])
          else Rejected(TargetConflict)
      case Complete(proof) =>
        if r.pending.None? then Rejected(StateConflict)
        else
          var pending := r.pending.value;
          if proof.source != pending.source || proof.target != pending.target || proof.handoff != pending.handoff
             || proof.generation != pending.generation
          then Rejected(ProofInvalid)
          else Accepted([DeactivatedBy(proof), Activated(pending.target, pending.generation)])
  }

  function ApplyPayload(r: Registry, payload: Payload): Registry {
    var s := r.(events := r.events + [payload]);
    match payload
    case DialogueCreated(target) =>
      s.(dialogues := s.dialogues[target.session := Registration(target, Created, |s.events|, None, None, None)])
    case DeactivationStarted(pending) =>
      if pending.source !in s.dialogues then s
      else
        s.(generation := pending.generation, pending := Some(pending),
           dialogues := s.dialogues[pending.source := s.dialogues[pending.source].(status := Deactivating)])
    case DeactivatedBy(proof) =>
      if proof.source !in s.dialogues then s
      else
        s.(current := None,
           dialogues := s.dialogues[proof.source := s.dialogues[proof.source].(status := Deactivated,
                                                                             deactivated := Some(proof.generation),
                                                                             handoff := Some(proof.handoff))])
    case Activated(target, generation) =>
      if target.session !in s.dialogues then s
      else
        s.(generation := generation, current := Some(target.session), pending := None,
           dialogues := s.dialogues[target.session := s.dialogues[target.session].(status := Active,
                                                                                 activated := Some(generation))])
  }

  function ApplyAll(r: Registry, payloads: seq<Payload>): Registry
    decreases |payloads|
  {
    if payloads == [] then r else ApplyAll(ApplyPayload(r, payloads[0]), payloads[1..])
  }

  /** A committed registry transaction. */
  function Committed(r: Registry, command: Command, payloads: seq<Payload>): Registry {
    var s := ApplyAll(r, payloads);
    s.(commands := s.commands + [command])
  }
}
