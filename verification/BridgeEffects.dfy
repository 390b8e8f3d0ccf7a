/**
 What the bridge's mutations do, told field by field instead of action by
 action: when a request is accepted, what it is answered otherwise, and what
 the fields of a worker say over whole runs.
 */
module BridgeEffects {
  import opened Common
  import opened Bridge
  import opened BridgeRuns
  import opened Runs

  // ------------------------------------------------------------------------- tables

  /** The lifecycle state an action leads to, if it has one of its own. */
  function Destination(a: Action): Option<Lifecycle> {
    match a
    case Pause => Some(Paused)
    case Sleep => Some(Sleeping)
    case Offload => Some(Sleeping)
    case Resume => Some(Running)
    case Stop => Some(Terminated)
    case _ => None
  }

  function ReadyAfter(a: Action): Option<bool> {
    if a.Resume? then Some(true)
    else if a.Checkpoint? || a.WeightUpdate? then None
    else Some(false)
  }

  function SafePointAfter(a: Action): Option<bool> {
    if a.PreparePause? then Some(true) else if a.Resume? then Some(false) else None
  }

  function OffloadedAfter(a: Action): Option<bool> {
    if a.Offload? then Some(true) else if a.Resume? || a.Reload? then Some(false) else None
  }

  function Or<T>(o: Option<T>, otherwise: T): T {
    if o.Some? then o.value else otherwise
  }

  function NonEmpty(s: string, otherwise: string): string {
    if s != "" then s else otherwise
  }

  /** What a mutation of worker `c` needs in order to succeed. */
  predicate Possible(c: Control, req: Request, cb: CallbackResult) {
    && cb.Returned?
    && !req.action.Unsupported? && !req.action.Status?
    && (req.action in {Checkpoint, Pause, Sleep, Offload} ==> c.safePoint)
    && (req.action.PreparePause? ==> cb.prepared)
    && (req.action.Offload? ==> c.checkpointRef != "")
    && (req.action.Reload? ==> NonEmpty(req.checkpointRef, c.checkpointRef) != "")
    && (req.action.WeightUpdate? ==> Strip(req.policyVersion) != "")
  }

  /** Only a reload touches the generation and the binding. */
  ghost predicate Rebound(c: Control, req: Request, d: Control) {
    if req.action.Reload? then
      && d.generation == req.generation
      && d.deviceId == NonEmpty(req.deviceId, c.deviceId)
      && d.bindingId == NonEmpty(req.bindingId, c.bindingId)
      && d.share == Or(req.share, c.share)
    else d.generation == c.generation && d.deviceId == c.deviceId && d.bindingId == c.bindingId && d.share == c.share
  }

  /** What a successful mutation makes of `c`, for every field. */
  ghost predicate HasEffect(c: Control, req: Request, cb: CallbackResult, d: Control)
    requires cb.Returned?
  {
    && d.state == Or(Destination(req.action), c.state)
    && d.ready == Or(ReadyAfter(req.action), c.ready)
    && d.safePoint == Or(SafePointAfter(req.action), c.safePoint)
    && d.offloaded == Or(OffloadedAfter(req.action), c.offloaded)
    && d.policyVersion == (if req.action.WeightUpdate? then Strip(req.policyVersion) else c.policyVersion)
    && d.checkpointRef ==
       (if req.action.Checkpoint? then cb.checkpointRef
        else if req.action.Reload? then NonEmpty(req.checkpointRef, c.checkpointRef)
        else c.checkpointRef)
    && Rebound(c, req, d)
  }

  /** A failed mutation changes nothing, except that a failed prepare takes back the safe point. */
  ghost predicate HasNoEffect(c: Control, req: Request, cb: CallbackResult, d: Control) {
    d == if req.action.PreparePause? && cb.Returned? then c.(safePoint := false) else c
  }

  lemma EffectOfAction(c: Control, req: Request, cb: CallbackResult)
    ensures
      var a := ApplyControl(c, req, cb);
      && (a.ok <==> Possible(c, req, cb))
      && (a.ok ==> HasEffect(c, req, cb, a.control))
      && (!a.ok ==> HasNoEffect(c, req, cb, a.control))
  {
  }

  /** The answer shows the worker's control state. */
  ghost predicate Shows(r: Response, c: Control) {
    && r.state == c.state && r.generation == c.generation && r.safePoint == c.safePoint && r.offloaded == c.offloaded
    && r.ready == c.ready && r.checkpointRef == c.checkpointRef && r.bindingId == c.bindingId
    && r.deviceId == c.deviceId && r.share == c.share
  }

  // ------------------------------------------------------------------------- files

  predicate Legible(l: TraceLine) {
    l.Event? || (l.Unterminated? && l.event.Some?)
  }

  /** A process starts exactly on a state file of this schema, identity and a known lifecycle state, or on none, and on
      a trace all of whose lines can be read. It takes over the whole control state and the journal. */
  lemma StartsExactlyWhen(cfg: Config, file: Option<Payload>, trace: seq<TraceLine>)
    ensures
      var m := Boot(cfg, file, trace);
      && (m.Ok? <==>
            && (forall i :: 0 <= i < |trace| ==> Legible(trace[i]))
            && (file.Some? ==>
                  && file.value.schemaVersion == "tgsrl.io/verl-worker-state/v1alpha1"
                  && file.value.identity == cfg.identity && file.value.state.Known?))
      && (m.Ok? ==>
            && (file.None? ==> m.value.control == cfg.initial && m.value.responses == map[])
            && (file.Some? ==> file.value == StatePayload(cfg.identity, m.value).(sequence := file.value.sequence)))
  {
  }

  /** Every event takes the next number, written or not. A line is added, readable unless it was torn before its end;
      but what follows a torn line joins it and cannot be read. */
  lemma EventTakesNumber(w: World, o: EmitOutcome)
    ensures
      var v, n := Emit(w, o), w.memory.sequence + 1;
      var torn := w.trace != [] && w.trace[|w.trace| - 1].Unterminated?;
      && v.memory == w.memory.(sequence := n) && v.stateFile == w.stateFile
      && (o.NotWritten? ==> v.trace == w.trace)
      && (!o.NotWritten? && torn ==>
            && |v.trace| == |w.trace| && v.trace[..|w.trace| - 1] == w.trace[..|w.trace| - 1]
            && SequenceOf(v.trace[|v.trace| - 1]).None? && (v.trace[|v.trace| - 1].Unterminated? <==> o.Torn?))
      && (!o.NotWritten? && !torn ==>
            && |v.trace| == |w.trace| + 1 && v.trace[..|w.trace|] == w.trace
            && (v.trace[|w.trace|].Unterminated? <==> o.Torn?)
            && SequenceOf(v.trace[|w.trace|]) == if o.Torn? && !o.whole then None else Some(n))
  {
  }

  // -------------------------------------------------------------------- one request

  /** The answer that goes into the journal. */
  function Verdict(a: Applied, emit: EmitOutcome): Response {
    if a.ok && emit.Written? then Respond(a.control, true, NoFault) else Respond(a.control, false, MutationRaised)
  }

  /** An admitted mutation whose intent was written. */
  lemma ServedAsAdmitted(cfg: Config, w: World, req: Request, env: Environment)
    requires IsMutation(req) && Admitted(cfg, w, req) && env.intent.Stored?
    ensures
      var (v, r) := Handle(cfg, w, req, env);
      var a := ApplyControl(w.memory.control, req, env.callback);
      var verdict := Verdict(a, env.emit);
      && v.memory.control == a.control
      && v.memory.responses == w.memory.responses[req.key := Receipt(req, verdict)]
      && r == if env.outcome.Stored? then verdict else Respond(a.control, false, OutcomeUnknown)
  {
    var m, pending := w.memory.responses, Receipt(req, Respond(w.memory.control, false, Pending));
    var done := Receipt(req, Verdict(ApplyControl(w.memory.control, req, env.callback), env.emit));
    assert m[req.key := pending][req.key := done] == m[req.key := done];
  }

  /** A new mutation that is not admitted, or whose intent is not written, changes no memory. */
  lemma RefusedAtOnce(cfg: Config, w: World, req: Request, env: Environment)
    requires IsMutation(req) && req.key !in w.memory.responses && !(Admitted(cfg, w, req) && env.intent.Stored?)
    ensures
      var (v, r) := Handle(cfg, w, req, env);
      var known := req.sandboxId == cfg.identity.sandboxId && GenerationMatches(req, w.memory.control.generation);
      && !r.accepted && Shows(r, w.memory.control) && v.memory == w.memory && v.trace == w.trace
      && r.fault == (if !known then IdentityMismatch
                     else if Admitted(cfg, w, req) then IntentNotPersisted
                     else CapacityExhausted)
      && (!Admitted(cfg, w, req) ==> v == w)
  {
  }

  /** A new mutation. It is accepted exactly when it is admitted, possible, traced and recorded, and then it has its
      effect, the answer shows the new state, and the journal holds that answer. */
  lemma AcceptedExactlyWhen(cfg: Config, w: World, req: Request, env: Environment)
    requires IsMutation(req) && req.key !in w.memory.responses
    ensures
      var (v, r) := Handle(cfg, w, req, env);
      && (r.accepted <==>
            && Admitted(cfg, w, req) && env.intent.Stored? && env.outcome.Stored?
            && Possible(w.memory.control, req, env.callback) && env.emit.Written?)
      && (r.accepted ==>
            && HasEffect(w.memory.control, req, env.callback, v.memory.control)
            && Shows(r, v.memory.control) && r.fault.NoFault?
            && v.memory.responses == w.memory.responses[req.key := Receipt(req, r)])
  {
    if Admitted(cfg, w, req) && env.intent.Stored? {
      ServedAsAdmitted(cfg, w, req, env);
      EffectOfAction(w.memory.control, req, env.callback);
    } else {
      RefusedAtOnce(cfg, w, req, env);
    }
  }

  /** And if it is not accepted, which of the five reasons it is given. */
  lemma RefusedExactlyWhen(cfg: Config, w: World, req: Request, env: Environment)
    requires IsMutation(req) && req.key !in w.memory.responses
    ensures
      var (v, r) := Handle(cfg, w, req, env);
      var known := req.sandboxId == cfg.identity.sandboxId && GenerationMatches(req, w.memory.control.generation);
      && (r.fault == IdentityMismatch <==> !known)
      && (r.fault == CapacityExhausted <==> known && |w.memory.responses| >= cfg.maxReceipts)
      && (r.fault == IntentNotPersisted <==> Admitted(cfg, w, req) && !env.intent.Stored?)
      && (r.fault == OutcomeUnknown <==> Admitted(cfg, w, req) && env.intent.Stored? && !env.outcome.Stored?)
      && (r.fault == MutationRaised <==>
            && Admitted(cfg, w, req) && env.intent.Stored? && env.outcome.Stored?
            && !(Possible(w.memory.control, req, env.callback) && env.emit.Written?))
      && Shows(r, v.memory.control)
  {
    if Admitted(cfg, w, req) && env.intent.Stored? {
      ServedAsAdmitted(cfg, w, req, env);
      EffectOfAction(w.memory.control, req, env.callback);
    } else {
      RefusedAtOnce(cfg, w, req, env);
    }
  }

  /** Whatever else fails, an admitted mutation whose intent was written has its effect exactly when it is possible,
      and the journal says whether it was also traced. */
  lemma DoneExactlyWhen(cfg: Config, w: World, req: Request, env: Environment)
    requires IsMutation(req) && Admitted(cfg, w, req) && env.intent.Stored?
    ensures
      var v := Handle(cfg, w, req, env).0;
      var possible := Possible(w.memory.control, req, env.callback);
      && (possible ==> HasEffect(w.memory.control, req, env.callback, v.memory.control))
      && (!possible ==> HasNoEffect(w.memory.control, req, env.callback, v.memory.control))
      && v.memory.responses.Keys == w.memory.responses.Keys + {req.key}
      && var entry := v.memory.responses[req.key];
        && entry.request == req && Shows(entry.response, v.memory.control)
        && (entry.response.accepted <==> possible && env.emit.Written?)
  {
    ServedAsAdmitted(cfg, w, req, env);
    EffectOfAction(w.memory.control, req, env.callback);
  }

  /** A request that is no new mutation changes nothing. A key on record is answered from the record to the same request
      and refused to any other; a status call is accepted exactly for the worker's own sandbox and generation. */
  lemma OtherAnswers(cfg: Config, w: World, req: Request, env: Environment)
    requires IsMutation(req) ==> req.key in w.memory.responses
    ensures
      var (v, r) := Handle(cfg, w, req, env);
      var c := w.memory.control;
      && v == w
      && (req.action == Unsupported("") || req.key == "" ==> !r.accepted && r.fault == FieldsRequired && Shows(r, c))
      && (IsMutation(req) && w.memory.responses[req.key].request == req ==> r == w.memory.responses[req.key].response)
      && (IsMutation(req) && w.memory.responses[req.key].request != req ==>
            !r.accepted && r.fault == KeyReused && Shows(r, c))
      && (req.action.Status? && req.key != "" ==>
            && Shows(r, c) && r.fault == (if r.accepted then NoFault else IdentityMismatch)
            && (r.accepted <==> req.sandboxId == cfg.identity.sandboxId && req.generation == c.generation))
  {
  }

  // ------------------------------------------------------------------ fields over runs

  /** What the last event that sets a field set it to. */
  function Latest<T>(cfg: Config, es: seq<Happening>, mark: (System, Happening) -> Option<T>): Option<T>
    decreases |es|
  {
    if es == [] then None
    else
      var front := es[..|es| - 1];
      var m := mark(After(cfg, front), es[|es| - 1]);
      if m.Some? then m else Latest(cfg, front, mark)
  }

  /** The mutation being served succeeds. */
  predicate Succeeds(s: System, e: Happening) {
    e.Update? && s.phase.Invoked? && Possible(s.world.memory.control, s.phase.request, e.callback)
  }

  /** A prepare request that does not reach a safe point. */
  predicate Unprepared(s: System, e: Happening) {
    && e.Update? && s.phase.Invoked? && s.phase.request.action.PreparePause?
    && e.callback.Returned? && !e.callback.prepared
  }

  /** A process starts and takes over the state file. */
  predicate Starts(cfg: Config, s: System, e: Happening) {
    e.Restart? && s.phase.Down? && Boot(cfg, s.world.stateFile, s.world.trace).Ok?
  }

  function StateMark(cfg: Config): (System, Happening) -> Option<Lifecycle> {
    (s: System, e: Happening) =>
      if Starts(cfg, s, e) then Some(Durable(cfg, s.world).control.state)
      else if Succeeds(s, e) then Destination(s.phase.request.action)
      else None
  }

  function ReadyMark(cfg: Config): (System, Happening) -> Option<bool> {
    (s: System, e: Happening) =>
      if Starts(cfg, s, e) then Some(Durable(cfg, s.world).control.ready)
      else if Succeeds(s, e) then ReadyAfter(s.phase.request.action)
      else None
  }

  function OffloadedMark(cfg: Config): (System, Happening) -> Option<bool> {
    (s: System, e: Happening) =>
      if Starts(cfg, s, e) then Some(Durable(cfg, s.world).control.offloaded)
      else if Succeeds(s, e) then OffloadedAfter(s.phase.request.action)
      else None
  }

  function SafePointMark(cfg: Config): (System, Happening) -> Option<bool> {
    (s: System, e: Happening) =>
      if Starts(cfg, s, e) then Some(Durable(cfg, s.world).control.safePoint)
      else if Unprepared(s, e) then Some(false)
      else if Succeeds(s, e) then SafePointAfter(s.phase.request.action)
      else None
  }

  /** A write that replaces the state file. */
  function FileMark(cfg: Config): (System, Happening) -> Option<Control> {
    (s: System, e: Happening) => if Writes(cfg, s, e) then Some(s.world.memory.control) else None
  }

  lemma StepSetsFields(cfg: Config, s: System, e: Happening)
    requires !Step(cfg, s, e).phase.Down?
    ensures
      var c, d := s.world.memory.control, Step(cfg, s, e).world.memory.control;
      && (s.phase.Down? ==> Starts(cfg, s, e))
      && d.state == Or(StateMark(cfg)(s, e), c.state) && d.ready == Or(ReadyMark(cfg)(s, e), c.ready)
      && d.offloaded == Or(OffloadedMark(cfg)(s, e), c.offloaded)
      && d.safePoint == Or(SafePointMark(cfg)(s, e), c.safePoint)
  {
    if e.Update? && s.phase.Invoked? { EffectOfAction(s.world.memory.control, s.phase.request, e.callback); }
  }

  /** In every run, crashes included, the lifecycle fields of a living process are what the last successful mutation
      that sets them made them, or what the process found in the state file if none came since it started. */
  lemma {:induction false} FieldsAreLatest(cfg: Config, es: seq<Happening>)
    requires !After(cfg, es).phase.Down?
    ensures
      var c := After(cfg, es).world.memory.control;
      && c.state == Or(Latest(cfg, es, StateMark(cfg)), cfg.initial.state)
      && c.ready == Or(Latest(cfg, es, ReadyMark(cfg)), cfg.initial.ready)
      && c.offloaded == Or(Latest(cfg, es, OffloadedMark(cfg)), cfg.initial.offloaded)
      && c.safePoint == Or(Latest(cfg, es, SafePointMark(cfg)), cfg.initial.safePoint)
    decreases |es|
  {
    if es != [] {
      var front, e := es[..|es| - 1], es[|es| - 1];
      StepSetsFields(cfg, After(cfg, front), e);
      if !After(cfg, front).phase.Down? { FieldsAreLatest(cfg, front); }
    }
  }

  /** And the state file holds the whole control state of the last write that replaced it. */
  lemma {:induction false} FileIsLatest(cfg: Config, es: seq<Happening>)
    ensures Durable(cfg, After(cfg, es).world).control == Or(Latest(cfg, es, FileMark(cfg)), cfg.initial)
    decreases |es|
  {
    if es != [] {
      var front := es[..|es| - 1];
      FileIsLatest(cfg, front);
      WritesStoreMemory(cfg, After(cfg, front), es[|es| - 1]);
    }
  }

  // ----------------------------------------------------------------- answers over runs

  /** An accepted answer names the state that the action leads to. */
  ghost predicate TellsState(q: Request, r: Response) {
    r.accepted ==>
      && r.fault.NoFault?
      && r.state == Or(Destination(q.action), r.state) && r.ready == Or(ReadyAfter(q.action), r.ready)
      && r.safePoint == Or(SafePointAfter(q.action), r.safePoint)
      && r.offloaded == Or(OffloadedAfter(q.action), r.offloaded)
      && (q.action.Reload? ==> r.checkpointRef == NonEmpty(q.checkpointRef, r.checkpointRef) != "")
  }

  /** And an accepted reload the binding it was asked for. */
  ghost predicate Tells(q: Request, r: Response) {
    && TellsState(q, r)
    && (r.accepted && q.action.Reload? ==>
          && r.deviceId == NonEmpty(q.deviceId, r.deviceId) && r.bindingId == NonEmpty(q.bindingId, r.bindingId)
          && r.share == Or(q.share, r.share))
  }

  ghost predicate TellingJournal(m: Memory) {
    forall k :: k in m.responses ==> Tells(m.responses[k].request, m.responses[k].response)
  }

  ghost predicate Telling(cfg: Config, s: System) {
    && TellingJournal(s.world.memory) && TellingJournal(Durable(cfg, s.world))
    && (s.phase.Updated? ==> Tells(s.phase.request, Respond(s.world.memory.control, true, NoFault)))
    && (s.phase.Answering? ==> Tells(s.phase.request, s.phase.response))
  }

  lemma EffectIsTold(c: Control, req: Request, cb: CallbackResult)
    requires ApplyControl(c, req, cb).ok
    ensures Tells(req, Respond(ApplyControl(c, req, cb).control, true, NoFault))
  {
    EffectOfAction(c, req, cb);
  }

  lemma RecordedIsTelling(cfg: Config, s: System, e: Happening)
    requires Telling(cfg, s)
    ensures TellingJournal(Recorded(s, e))
  {
  }

  lemma MemoryStaysTelling(cfg: Config, s: System, e: Happening)
    requires Telling(cfg, s)
    ensures TellingJournal(Step(cfg, s, e).world.memory)
  {
    RecordedIsTelling(cfg, s, e);
  }

  lemma PhaseStaysTelling(cfg: Config, s: System, e: Happening)
    requires Telling(cfg, s)
    ensures
      var t := Step(cfg, s, e);
      && (t.phase.Updated? ==> Tells(t.phase.request, Respond(t.world.memory.control, true, NoFault)))
      && (t.phase.Answering? ==> Tells(t.phase.request, t.phase.response))
  {
    if e.Update? && s.phase.Invoked? && ApplyControl(s.world.memory.control, s.phase.request, e.callback).ok {
      EffectIsTold(s.world.memory.control, s.phase.request, e.callback);
    }
  }

  lemma StepStaysTelling(cfg: Config, s: System, e: Happening)
    requires Telling(cfg, s)
    ensures Telling(cfg, Step(cfg, s, e))
  {
    MemoryStaysTelling(cfg, s, e);
    PhaseStaysTelling(cfg, s, e);
    WritesStoreMemory(cfg, s, e);
    RecordedIsTelling(cfg, s, e);
  }

  lemma {:induction false} RunIsTelling(cfg: Config, es: seq<Happening>)
    ensures Telling(cfg, After(cfg, es))
    decreases |es|
  {
    if es != [] {
      RunIsTelling(cfg, es[..|es| - 1]);
      StepStaysTelling(cfg, After(cfg, es[..|es| - 1]), es[|es| - 1]);
    }
  }

  lemma ReplyTells(cfg: Config, s: System, e: Happening)
    requires Telling(cfg, s) && Reply(cfg, s, e).Some?
    ensures Tells(Reply(cfg, s, e).value.0, Reply(cfg, s, e).value.1)
  {
  }

  /** In every run every accepted answer, whether the first or a replay before or after a crash, names the state that
      its action leads to. */
  lemma AcceptedReplyTells(cfg: Config, es: seq<Happening>, e: Happening)
    requires Reply(cfg, After(cfg, es), e).Some?
    ensures
      var (q, r) := Reply(cfg, After(cfg, es), e).value;
      Tells(q, r)
  {
    RunIsTelling(cfg, es);
    ReplyTells(cfg, After(cfg, es), e);
  }
}
