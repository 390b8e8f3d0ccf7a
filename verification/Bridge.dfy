/**
 The cooperative lifecycle server embedded in one worker (`VerlWorkerBridge`).

 The functions of this module say what one locked region of the server does to
 its memory, its state file and its trace file. The class at the end performs
 the same work in place and is proved to agree with them. Callback results and
 file-system outcomes are parameters. A request digest is modelled by the
 request itself.
 */
module Bridge {
  import opened Common

  datatype Lifecycle = Running | Paused | Sleeping | Terminated

  /** `Unsupported("")` is a request without an action. */
  datatype Action =
    | Status | PreparePause | Checkpoint | Pause | Sleep | Offload | Reload | Resume | Stop | WeightUpdate
    | Unsupported(name: string)

  datatype Request = Request(
    action: Action, key: string, sandboxId: string, generation: int, checkpointRef: string,
    deviceId: string, profile: string, bindingId: string, share: Option<real>,
    policyVersion: string, preserveProcess: bool)

  /** The error texts of the control protocol. */
  datatype Fault =
    | NoFault
    | FieldsRequired           // "action and idempotency_key are required"
    | IdentityMismatch         // "worker identity or generation mismatch"
    | KeyReused                // "idempotency key was reused with different content"
    | CapacityExhausted        // "worker idempotency journal capacity is exhausted"
    | Pending                  // "worker mutation outcome is not confirmed"
    | MutationRaised           // "worker mutation outcome is not confirmed: ..."
    | IntentNotPersisted       // "persist mutation intent: ..."
    | OutcomeUnknown           // "worker mutation outcome is unknown: ..."
    | TransportLost            // "worker mutation outcome is not confirmed: <transport error>"
    | KeyRequired              // "idempotency_key is required"
    | StatusUnavailable        // transport error of a status call

  /** Whether the text contains "outcome is not confirmed". */
  predicate NotConfirmed(f: Fault) {
    f in {Pending, MutationRaised, TransportLost}
  }

  /** The mutable control state: lifecycle fields and the mutable part of the identity. */
  datatype Control = Control(
    generation: int, policyVersion: string, bindingId: string, deviceId: string, share: real,
    state: Lifecycle, safePoint: bool, offloaded: bool, ready: bool, checkpointRef: string)

  datatype Response = Response(
    accepted: bool, state: Lifecycle, generation: int, safePoint: bool, offloaded: bool, ready: bool,
    checkpointRef: string, bindingId: string, deviceId: string, share: real, fault: Fault)

  datatype Receipt = Receipt(request: Request, response: Response)

  datatype Memory = Memory(control: Control, sequence: nat, responses: map<string, Receipt>)

  /** A line of the trace file: an event, text that is not JSON, or a last line without its newline, which is
      readable if only the newline is missing. */
  datatype TraceLine = Event(sequence: nat) | Garbled | Unterminated(event: Option<nat>)

  /** The part of the worker identity that a state file must agree with. */
  datatype FixedIdentity = FixedIdentity(
    runId: string, jobId: string, traceId: string, sandboxId: string, role: string,
    algorithm: string, rolloutMode: int, dataKind: int, phaseId: string, phaseKind: int)

  /** The lifecycle text of a state file: one of the four known names, or anything else. */
  datatype StateText = Known(state: Lifecycle) | Unknown(text: string)

  /** The JSON document of the state file. */
  datatype Payload = Payload(
    schemaVersion: string, identity: FixedIdentity, generation: int, policyVersion: string,
    bindingId: string, deviceId: string, share: real, state: StateText, safePoint: bool,
    offloaded: bool, ready: bool, checkpointRef: string, sequence: nat,
    responses: map<string, Receipt>)

  datatype World = World(memory: Memory, stateFile: Option<Payload>, trace: seq<TraceLine>)

  datatype Config = Config(identity: FixedIdentity, maxReceipts: int, initial: Control)

  /** A failed persist may leave the old or the new file: the directory fsync follows the replace. */
  datatype PersistOutcome = Stored | FailedBeforeReplace | FailedAfterReplace

  datatype CallbackResult = Returned(prepared: bool, checkpointRef: string) | Raised

  /** A write may stop anywhere, with `whole` just before the newline; closing the file may raise after it. */
  datatype EmitOutcome = Written | NotWritten | Torn(whole: bool) | CloseRaised

  /** What the environment does during one request. */
  datatype Environment = Environment(
    intent: PersistOutcome, callback: CallbackResult, emit: EmitOutcome, outcome: PersistOutcome)

  const SCHEMA := "tgsrl.io/verl-worker-state/v1alpha1"

  function Respond(c: Control, accepted: bool, fault: Fault): Response {
    Response(accepted, c.state, c.generation, c.safePoint, c.offloaded, c.ready,
             c.checkpointRef, c.bindingId, c.deviceId, c.share, fault)
  }

  // ---------------------------------------------------------------- state file

  function StatePayload(id: FixedIdentity, m: Memory): Payload {
    var c := m.control;
    Payload(SCHEMA, id, c.generation, c.policyVersion, c.bindingId, c.deviceId, c.share,
            Known(c.state), c.safePoint, c.offloaded, c.ready, c.checkpointRef,
            m.sequence, m.responses)
  }

  datatype RestoreFault =
    | UnsupportedSchema | IdentityDiffers | InvalidLifecycle | UnreadableTrace | LimitNotPositive | PathsCoincide

  function Restore(id: FixedIdentity, p: Payload): (r: Result<Memory, RestoreFault>) {
    if p.schemaVersion != SCHEMA then Err(UnsupportedSchema)
    else if p.identity != id then Err(IdentityDiffers)
    else
      match p.state
      case Unknown(_) => Err(InvalidLifecycle)
      case Known(l) =>
        Ok(Memory(
             Control(p.generation, p.policyVersion, p.bindingId, p.deviceId, p.share, l,
                     p.safePoint, p.offloaded, p.ready, p.checkpointRef),
             p.sequence, p.responses))
  }

  /** Restoring what was persisted gives back the whole control state, sequence and journal; and
      nothing else restores to it. */
  lemma RestoreInvertsPersist(id: FixedIdentity, m: Memory, p: Payload)
    ensures Restore(id, p) == Ok(m) <==> p == StatePayload(id, m)
  {
  }

  function Persist(id: FixedIdentity, w: World, o: PersistOutcome): World {
    if o.FailedBeforeReplace? then w else w.(stateFile := Some(StatePayload(id, w.memory)))
  }

  /** The sequence number of a line that holds an event. */
  function SequenceOf(l: TraceLine): Option<nat> {
    match l
    case Event(n) => Some(n)
    case Unterminated(event) => event
    case Garbled => None
  }

  /** The greatest sequence number on a readable line, or `floor`. */
  function MaxSequence(floor: nat, trace: seq<TraceLine>): (r: nat)
    ensures r >= floor
    ensures forall i :: 0 <= i < |trace| && SequenceOf(trace[i]).Some? ==> SequenceOf(trace[i]).value <= r
    ensures r == floor || exists i :: 0 <= i < |trace| && SequenceOf(trace[i]) == Some(r)
  {
    if trace == [] then floor
    else
      var rest := MaxSequence(floor, trace[..|trace| - 1]);
      var last := SequenceOf(trace[|trace| - 1]);
      if last.Some? && last.value > rest then last.value else rest
  }

  predicate Readable(trace: seq<TraceLine>) {
    forall i :: 0 <= i < |trace| ==> SequenceOf(trace[i]).Some?
  }

  lemma MaxOfOneMore(floor: nat, trace: seq<TraceLine>, i: nat)
    requires i < |trace| && Readable(trace[..i]) && SequenceOf(trace[i]).Some?
    ensures Readable(trace[..i + 1])
    ensures
      var event, highest := SequenceOf(trace[i]).value, MaxSequence(floor, trace[..i]);
      MaxSequence(floor, trace[..i + 1]) == if event > highest then event else highest
  {
    assert trace[..i + 1][..i] == trace[..i];
  }

  // ------------------------------------------------------------------ requests

  predicate GenerationMatches(req: Request, generation: int) {
    req.generation == generation || (req.action.Reload? && req.generation == generation + 1)
  }

  datatype Begin = Answered(response: Response) | Proceed

  /** The first locked region: journal lookup, fencing, capacity, and the durable intent. */
  function BeginMutation(cfg: Config, w: World, req: Request, o: PersistOutcome): (World, Begin) {
    var m := w.memory;
    if req.key in m.responses then
      var previous := m.responses[req.key];
      (w, Answered(if previous.request != req then Respond(m.control, false, KeyReused)
                   else previous.response))
    else if req.sandboxId != cfg.identity.sandboxId || !GenerationMatches(req, m.control.generation) then
      (w, Answered(Respond(m.control, false, IdentityMismatch)))
    else if |m.responses| >= cfg.maxReceipts then
      (w, Answered(Respond(m.control, false, CapacityExhausted)))
    else
      var pending := Receipt(req, Respond(m.control, false, Pending));
      var recorded := w.(memory := m.(responses := m.responses[req.key := pending]));
      var persisted := Persist(cfg.identity, recorded, o);
      if o.Stored? then (persisted, Proceed)
      else (persisted.(memory := m), Answered(Respond(m.control, false, IntentNotPersisted)))
  }

  datatype Applied = Applied(control: Control, ok: bool)

  /** The effect of one mutation on the control state; `ok` is false when it raises. */
  function ApplyControl(c: Control, req: Request, cb: CallbackResult): Applied {
    match req.action
    case PreparePause =>
      if cb.Raised? then Applied(c, false)
      else if !cb.prepared then Applied(c.(safePoint := false), false)
      else Applied(c.(safePoint := true, ready := false), true)
    case Checkpoint =>
      if !c.safePoint || cb.Raised? then Applied(c, false)
      else Applied(c.(checkpointRef := cb.checkpointRef), true)
    case Pause =>
      if !c.safePoint || cb.Raised? then Applied(c, false)
      else Applied(c.(state := Paused, ready := false), true)
    case Sleep =>
      if !c.safePoint || cb.Raised? then Applied(c, false)
      else Applied(c.(state := Sleeping, ready := false), true)
    case Offload =>
      if !c.safePoint || c.checkpointRef == "" || cb.Raised? then Applied(c, false)
      else Applied(c.(state := Sleeping, offloaded := true, ready := false), true)
    case Reload =>
      var ref := if req.checkpointRef != "" then req.checkpointRef else c.checkpointRef;
      if ref == "" || cb.Raised? then Applied(c, false)
      else
        Applied(c.(generation := req.generation,
                   deviceId := if req.deviceId != "" then req.deviceId else c.deviceId,
                   bindingId := if req.bindingId != "" then req.bindingId else c.bindingId,
                   share := if req.share.Some? then req.share.value else c.share,
                   checkpointRef := ref, offloaded := false, ready := false), true)
    case Resume =>
      if cb.Raised? then Applied(c, false)
      else Applied(c.(state := Running, safePoint := false, offloaded := false, ready := true), true)
    case Stop =>
      if cb.Raised? then Applied(c, false) else Applied(c.(state := Terminated, ready := false), true)
    case WeightUpdate =>
      var version := Strip(req.policyVersion);
      if version == "" || cb.Raised? then Applied(c, false) else Applied(c.(policyVersion := version), true)
    case _ => Applied(c, false)
  }

  predicate EndsOpen(trace: seq<TraceLine>) {
    trace != [] && trace[|trace| - 1].Unterminated?
  }

  /** The file after writing event `n`; what follows an unterminated line joins it. */
  function WriteLine(trace: seq<TraceLine>, n: nat, o: EmitOutcome): seq<TraceLine> {
    if o.NotWritten? then trace
    else if EndsOpen(trace) then trace[..|trace| - 1] + [if o.Torn? then Unterminated(None) else Garbled]
    else trace + [if o.Torn? then Unterminated(if o.whole then Some(n) else None) else Event(n)]
  }

  /** Appends one event; the sequence number is consumed even when the write fails. */
  function Emit(w: World, o: EmitOutcome): World {
    var n := w.memory.sequence + 1;
    w.(memory := w.memory.(sequence := n), trace := WriteLine(w.trace, n, o))
  }

  function SetControl(w: World, c: Control): World {
    w.(memory := w.memory.(control := c))
  }

  function Apply(w: World, req: Request, cb: CallbackResult, o: EmitOutcome): (World, Response) {
    var a := ApplyControl(w.memory.control, req, cb);
    var updated := SetControl(w, a.control);
    if !a.ok then (updated, Respond(a.control, false, MutationRaised))
    else if o.Written? then (Emit(updated, o), Respond(a.control, true, NoFault))
    else (Emit(updated, o), Respond(a.control, false, MutationRaised))
  }

  /** The second locked region: record the outcome and answer. */
  function FinishMutation(cfg: Config, w: World, req: Request, r: Response, o: PersistOutcome): (World, Response) {
    var recorded := w.(memory := w.memory.(responses := w.memory.responses[req.key := Receipt(req, r)]));
    (Persist(cfg.identity, recorded, o),
     if o.Stored? then r else Respond(w.memory.control, false, OutcomeUnknown))
  }

  predicate IsMutation(req: Request) {
    req.action != Unsupported("") && req.key != "" && !req.action.Status?
  }

  function Handle(cfg: Config, w: World, req: Request, env: Environment): (World, Response) {
    var c := w.memory.control;
    if req.action == Unsupported("") || req.key == "" then (w, Respond(c, false, FieldsRequired))
    else if req.action.Status? then
      (w, if req.sandboxId != cfg.identity.sandboxId || req.generation != c.generation
          then Respond(c, false, IdentityMismatch) else Respond(c, true, NoFault))
    else
      var (begun, b) := BeginMutation(cfg, w, req, env.intent);
      match b
      case Answered(r) => (begun, r)
      case Proceed =>
        var (applied, r) := Apply(begun, req, env.callback, env.emit);
        FinishMutation(cfg, applied, req, r, env.outcome)
  }

  /** What a starting process finds: its configuration, then the state file, then the trace. */
  function Boot(cfg: Config, stateFile: Option<Payload>, trace: seq<TraceLine>): Result<Memory, RestoreFault> {
    var base := if stateFile.None? then Ok(Memory(cfg.initial, 0, map[]))
                else Restore(cfg.identity, stateFile.value);
    if base.Err? then base
    else if !Readable(trace) then Err(UnreadableTrace)
    else Ok(base.value.(sequence := MaxSequence(base.value.sequence, trace)))
  }

  // --------------------------------------------------------------------- class

  class VerlWorkerBridge {
    const cfg: Config
    var generation: int
    var policyVersion: string
    var bindingId: string
    var deviceId: string
    var share: real
    var state: Lifecycle
    var safePoint: bool
    var offloaded: bool
    var ready: bool
    var checkpointRef: string
    var sequence: nat
    var responses: map<string, Receipt>
    var stateFile: Option<Payload>
    var traceFile: seq<TraceLine>

    function ControlState(): Control
      reads this
    {
      Control(generation, policyVersion, bindingId, deviceId, share, state, safePoint, offloaded, ready, checkpointRef)
    }

    function Contents(): World
      reads this
    {
      World(Memory(ControlState(), sequence, responses), stateFile, traceFile)
    }

    /** Start of a process whose state file and trace can be read back. */
    constructor (cfg: Config, stateFile: Option<Payload>, trace: seq<TraceLine>)
      requires Boot(cfg, stateFile, trace).Ok?
      ensures this.cfg == cfg
      ensures Contents() == World(Boot(cfg, stateFile, trace).value, stateFile, trace)
    {
      this.cfg := cfg;
      this.stateFile, this.traceFile := stateFile, trace;
      var m := if stateFile.None? then Memory(cfg.initial, 0, map[]) else Restore(cfg.identity, stateFile.value).value;
      var c := m.control;
      generation, policyVersion, bindingId, deviceId, share :=
        c.generation, c.policyVersion, c.bindingId, c.deviceId, c.share;
      state, safePoint, offloaded, ready, checkpointRef :=
        c.state, c.safePoint, c.offloaded, c.ready, c.checkpointRef;
      responses := m.responses;
      var restored := RestoreTraceSequence(m.sequence, trace);
      sequence := restored.value;
    }

    /** Starts a process, or says why it cannot start; the paths are resolved ones. */
    static method Open(
      cfg: Config, statePath: string, tracePath: string, stateFile: Option<Payload>, trace: seq<TraceLine>)
      returns (r: Result<VerlWorkerBridge, RestoreFault>)
      ensures r.Ok? <==> cfg.maxReceipts > 0 && statePath != tracePath && Boot(cfg, stateFile, trace).Ok?
      ensures r.Err? ==>
        r.error ==
        if cfg.maxReceipts <= 0 then LimitNotPositive
        else if statePath == tracePath then PathsCoincide
        else Boot(cfg, stateFile, trace).error
      ensures r.Ok? ==> fresh(r.value) && r.value.cfg == cfg
      ensures r.Ok? ==> r.value.Contents() == World(Boot(cfg, stateFile, trace).value, stateFile, trace)
    {
      if cfg.maxReceipts <= 0 { return Err(LimitNotPositive); }
      if statePath == tracePath { return Err(PathsCoincide); }
      var floor := 0;
      if stateFile.Some? {
        var restored := Restore(cfg.identity, stateFile.value);
        if restored.Err? { return Err(restored.error); }
        floor := restored.value.sequence;
      }
      var sequence := RestoreTraceSequence(floor, trace);
      if sequence.Err? { return Err(sequence.error); }
      var bridge := new VerlWorkerBridge(cfg, stateFile, trace);
      r := Ok(bridge);
    }

    /** Scans the trace for its greatest sequence number; an unreadable line is an error. */
    static method RestoreTraceSequence(floor: nat, trace: seq<TraceLine>) returns (r: Result<nat, RestoreFault>)
      ensures r == if Readable(trace) then Ok(MaxSequence(floor, trace)) else Err(UnreadableTrace)
    {
      var highest := floor;
      for i := 0 to |trace|
        invariant highest == MaxSequence(floor, trace[..i])
        invariant Readable(trace[..i])
      {
        var event := SequenceOf(trace[i]);
        if event.None? { return Err(UnreadableTrace); }
        MaxOfOneMore(floor, trace, i);
        if event.value > highest { highest := event.value; }
      }
      assert trace[..|trace|] == trace;
      r := Ok(highest);
    }

    method PersistState(o: PersistOutcome) returns (stored: bool)
      modifies this`stateFile
      ensures Contents() == Persist(cfg.identity, old(Contents()), o)
      ensures stored == o.Stored?
    {
      if !o.FailedBeforeReplace? {
        stateFile := Some(StatePayload(cfg.identity, Contents().memory));
      }
      stored := o.Stored?;
    }

    method EmitEvent(o: EmitOutcome) returns (written: bool)
      modifies this`sequence, this`traceFile
      ensures Contents() == Emit(old(Contents()), o)
      ensures written == o.Written?
    {
      sequence := sequence + 1;
      if !o.NotWritten? {
        if EndsOpen(traceFile) {
          traceFile := traceFile[..|traceFile| - 1] + [if o.Torn? then Unterminated(None) else Garbled];
        } else if o.Torn? {
          traceFile := traceFile + [Unterminated(if o.whole then Some(sequence) else None)];
        } else {
          traceFile := traceFile + [Event(sequence)];
        }
      }
      written := o.Written?;
    }

    /** The part of an action that moves the worker between lifecycle states. */
    method UpdateLifecycle(req: Request, cb: CallbackResult) returns (ok: bool)
      requires req.action in {Pause, Sleep, Offload, Resume, Stop}
      modifies this`state, this`safePoint, this`offloaded, this`ready
      ensures Applied(ControlState(), ok) == ApplyControl(old(ControlState()), req, cb)
    {
      if cb.Raised? { return false; }
      if req.action.Resume? {
        state, safePoint, offloaded, ready := Running, false, false, true;
      } else if req.action.Stop? {
        state, ready := Terminated, false;
      } else {
        if !safePoint || (req.action.Offload? && checkpointRef == "") { return false; }
        state, ready := if req.action.Pause? then Paused else Sleeping, false;
        if req.action.Offload? { offloaded := true; }
      }
      ok := true;
    }

    method UpdateForReload(req: Request, cb: CallbackResult) returns (ok: bool)
      requires req.action.Reload?
      modifies this`generation, this`deviceId, this`bindingId, this`share
      modifies this`checkpointRef, this`offloaded, this`ready
      ensures Applied(ControlState(), ok) == ApplyControl(old(ControlState()), req, cb)
    {
      var ref := if req.checkpointRef != "" then req.checkpointRef else checkpointRef;
      if ref == "" || cb.Raised? { return false; }
      generation := req.generation;
      if req.deviceId != "" { deviceId := req.deviceId; }
      if req.bindingId != "" { bindingId := req.bindingId; }
      if req.share.Some? { share := req.share.value; }
      checkpointRef, offloaded, ready := ref, false, false;
      ok := true;
    }

    /** Updates the fields for one action; returns false where the source raises. */
    method UpdateFields(req: Request, cb: CallbackResult) returns (ok: bool)
      modifies this
      ensures Applied(ControlState(), ok) == ApplyControl(old(ControlState()), req, cb)
      ensures unchanged(`sequence, `responses, `stateFile, `traceFile)
    {
      if req.action.PreparePause? {
        if cb.Raised? { return false; }
        safePoint := cb.prepared;
        if !safePoint { return false; }
        ready := false;
      } else if req.action.Checkpoint? {
        if !safePoint || cb.Raised? { return false; }
        checkpointRef := cb.checkpointRef;
      } else if req.action in {Pause, Sleep, Offload, Resume, Stop} {
        ok := UpdateLifecycle(req, cb);
        return;
      } else if req.action.Reload? {
        ok := UpdateForReload(req, cb);
        return;
      } else if req.action.WeightUpdate? {
        var version := Strip(req.policyVersion);
        if version == "" || cb.Raised? { return false; }
        policyVersion := version;
      } else {
        return false;
      }
      ok := true;
    }

    method ApplyAction(req: Request, env: Environment) returns (r: Response)
      modifies this
      ensures (Contents(), r) == Apply(old(Contents()), req, env.callback, env.emit)
    {
      var ok := UpdateFields(req, env.callback);
      if ok { ok := EmitEvent(env.emit); }
      r := Respond(ControlState(), ok, if ok then NoFault else MutationRaised);
    }

    /** Serves one request. */
    method HandleRequest(req: Request, env: Environment) returns (r: Response)
      modifies this
      ensures (Contents(), r) == Handle(cfg, old(Contents()), req, env)
    {
      if req.action == Unsupported("") || req.key == "" {
        return Respond(ControlState(), false, FieldsRequired);
      }
      if req.action.Status? {
        if req.sandboxId != cfg.identity.sandboxId || req.generation != generation {
          return Respond(ControlState(), false, IdentityMismatch);
        }
        return Respond(ControlState(), true, NoFault);
      }
      if req.key in responses {
        if responses[req.key].request != req {
          return Respond(ControlState(), false, KeyReused);
        }
        return responses[req.key].response;
      }
      if req.sandboxId != cfg.identity.sandboxId || !GenerationMatches(req, generation) {
        return Respond(ControlState(), false, IdentityMismatch);
      }
      if |responses| >= cfg.maxReceipts {
        return Respond(ControlState(), false, CapacityExhausted);
      }
      ghost var before := responses;
      responses := responses[req.key := Receipt(req, Respond(ControlState(), false, Pending))];
      var stored := PersistState(env.intent);
      if !stored {
        responses := responses - {req.key};
        assert responses == before;
        return Respond(ControlState(), false, IntentNotPersisted);
      }
      r := ApplyAction(req, env);
      responses := responses[req.key := Receipt(req, r)];
      stored := PersistState(env.outcome);
      if !stored {
        r := Respond(ControlState(), false, OutcomeUnknown);
      }
    }
  }
}
