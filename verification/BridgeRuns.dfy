/**
 Whole runs of the worker bridge. The control thread's locked regions, the
 training callback, the training thread's observations, crashes and restarts
 are separate events that may come in any order; an event that is not enabled
 changes nothing. Two history variables record which keys `_apply` was run for
 and which requests it completed.
 */
module BridgeRuns {
  import opened Common
  import opened Bridge
  import opened Runs

  /** Where the control thread stands; `Down` means there is no process. */
  datatype Phase =
    | Down
    | Idle
    | Begun(request: Request)
    | Invoked(request: Request)
    | Updated(request: Request)
    | Answering(request: Request, response: Response)

  datatype System = System(world: World, phase: Phase, applied: seq<string>, completed: set<Request>)

  datatype Happening =
    | Begin(request: Request, intent: PersistOutcome)
    | Invoke
    | Update(callback: CallbackResult)
    | EmitTrace(emit: EmitOutcome)
    | Finish(outcome: PersistOutcome)
    | Observe(emit: EmitOutcome)
    | Crash
    | Restart

  function Fresh(cfg: Config): Memory {
    Memory(cfg.initial, 0, map[])
  }

  function Init(cfg: Config): System {
    System(World(Fresh(cfg), None, []), Idle, [], {})
  }

  function Step(cfg: Config, s: System, e: Happening): System {
    match e
    case Begin(req, o) =>
      if !s.phase.Idle? || !IsMutation(req) then s
      else
        var (w, b) := BeginMutation(cfg, s.world, req, o);
        s.(world := w, phase := if b.Proceed? then Begun(req) else Idle)
    case Invoke =>
      if !s.phase.Begun? then s
      else s.(phase := Invoked(s.phase.request), applied := s.applied + [s.phase.request.key])
    case Update(cb) =>
      if !s.phase.Invoked? then s
      else
        var a := ApplyControl(s.world.memory.control, s.phase.request, cb);
        s.(world := SetControl(s.world, a.control),
           phase := if a.ok then Updated(s.phase.request)
                    else Answering(s.phase.request, Respond(a.control, false, MutationRaised)))
    case EmitTrace(o) =>
      if !s.phase.Updated? then s
      else
        var c := s.world.memory.control;
        s.(world := Emit(s.world, o),
           phase := Answering(
             s.phase.request, if o.Written? then Respond(c, true, NoFault) else Respond(c, false, MutationRaised)),
           completed := if o.Written? then s.completed + {s.phase.request} else s.completed)
    case Finish(o) =>
      if !s.phase.Answering? then s
      else s.(world := FinishMutation(cfg, s.world, s.phase.request, s.phase.response, o).0, phase := Idle)
    case Observe(o) =>
      if s.phase.Down? then s else s.(world := Emit(s.world, o))
    case Crash =>
      s.(world := s.world.(memory := Fresh(cfg)), phase := Down)
    case Restart =>
      if !s.phase.Down? then s
      else
        match Boot(cfg, s.world.stateFile, s.world.trace)
        case Ok(m) => s.(world := s.world.(memory := m), phase := Idle)
        case Err(_) => s
  }

  /** The answer that an event sends back to the caller, if any. */
  function Reply(cfg: Config, s: System, e: Happening): Option<(Request, Response)> {
    match e
    case Begin(req, o) =>
      if !s.phase.Idle? || !IsMutation(req) then None
      else
        var b := BeginMutation(cfg, s.world, req, o).1;
        if b.Answered? then Some((req, b.response)) else None
    case Finish(o) =>
      if !s.phase.Answering? then None
      else Some((s.phase.request, FinishMutation(cfg, s.world, s.phase.request, s.phase.response, o).1))
    case _ => None
  }

  function Bridging(cfg: Config): (System, Happening) -> System {
    (s, e) => Step(cfg, s, e)
  }

  /** The system after the events `es`. */
  function After(cfg: Config, es: seq<Happening>): System {
    Run(Bridging(cfg), Init(cfg), es)
  }

  /** What a restart would read back from the state file. */
  function Durable(cfg: Config, w: World): Memory {
    if w.stateFile.None? then Fresh(cfg)
    else
      var r := Restore(cfg.identity, w.stateFile.value);
      if r.Ok? then r.value else Fresh(cfg)
  }

  // --------------------------------------------------------- one sequential call

  /** The events of one request served without interference. */
  function CallEvents(req: Request, env: Environment): seq<Happening> {
    [Begin(req, env.intent), Invoke, Update(env.callback), EmitTrace(env.emit), Finish(env.outcome)]
  }

  /** The answer to that request: at once, or with the last event. */
  function CallReply(cfg: Config, s: System, req: Request, env: Environment): Option<(Request, Response)> {
    var first := Reply(cfg, s, Begin(req, env.intent));
    if first.Some? then first
    else
      var begun := Step(cfg, Step(cfg, s, Begin(req, env.intent)), Invoke);
      Reply(cfg, Step(cfg, Step(cfg, begun, Update(env.callback)), EmitTrace(env.emit)), Finish(env.outcome))
  }

  /** The events refine the method: run back to back they leave what `Handle` leaves and answer what it answers. */
  lemma EventsRefineHandle(cfg: Config, s: System, req: Request, env: Environment)
    requires s.phase.Idle? && IsMutation(req)
    ensures Run(Bridging(cfg), s, CallEvents(req, env)).world == Handle(cfg, s.world, req, env).0
    ensures Run(Bridging(cfg), s, CallEvents(req, env)).phase.Idle?
    ensures CallReply(cfg, s, req, env) == Some((req, Handle(cfg, s.world, req, env).1))
  {
    RunFive(
      Bridging(cfg), s,
      Begin(req, env.intent), Invoke, Update(env.callback), EmitTrace(env.emit), Finish(env.outcome));
  }

  // ------------------------------------------------------------------ invariants

  ghost predicate Journaled(cfg: Config, s: System) {
    && NoDuplicates(s.applied)
    && (forall k :: k in s.applied ==> k in Durable(cfg, s.world).responses)
    && (s.world.stateFile.Some? ==> Restore(cfg.identity, s.world.stateFile.value).Ok?)
    && (!s.phase.Down? ==> forall k :: k in s.applied ==> k in s.world.memory.responses)
    && (s.phase.Begun? ==>
          && s.phase.request.key in s.world.memory.responses
          && s.phase.request.key in Durable(cfg, s.world).responses
          && s.phase.request.key !in s.applied)
    && (s.phase.Invoked? || s.phase.Updated? || s.phase.Answering? ==> s.phase.request.key in s.applied)
  }

  ghost predicate Fenced(cfg: Config, s: System) {
    var m, d := s.world.memory.control.generation, Durable(cfg, s.world).control.generation;
    && (!s.phase.Down? ==> d <= m <= d + 1)
    && (s.phase.Begun? || s.phase.Invoked? ==> m == d && GenerationMatches(s.phase.request, m))
  }

  ghost predicate Increasing(trace: seq<TraceLine>) {
    forall i, j :: 0 <= i < j < |trace| && SequenceOf(trace[i]).Some? && SequenceOf(trace[j]).Some? ==>
      SequenceOf(trace[i]).value < SequenceOf(trace[j]).value
  }

  /** Lines are never removed and terminated ones never change. */
  ghost predicate Grows(before: seq<TraceLine>, after: seq<TraceLine>) {
    |before| <= |after| && forall i :: 0 <= i < |before| && !before[i].Unterminated? ==> after[i] == before[i]
  }

  ghost predicate Traced(s: System) {
    && Increasing(s.world.trace)
    && (!s.phase.Down? ==>
          forall i :: 0 <= i < |s.world.trace| && SequenceOf(s.world.trace[i]).Some? ==>
            SequenceOf(s.world.trace[i]).value <= s.world.memory.sequence)
  }

  ghost predicate Consistent(cfg: Config, s: System) {
    Journaled(cfg, s) && Fenced(cfg, s) && Traced(s)
  }

  /** A step leaves the state file alone or overwrites it with the current control state and a
      journal that covers the current one. */
  lemma StepOfStateFile(cfg: Config, s: System, e: Happening)
    ensures
      var t := Step(cfg, s, e);
      || t.world.stateFile == s.world.stateFile
      || (&& !s.phase.Down?
          && t.world.stateFile.Some? && Restore(cfg.identity, t.world.stateFile.value).Ok?
          && Durable(cfg, t.world).control == s.world.memory.control == t.world.memory.control
          && s.world.memory.responses.Keys <= Durable(cfg, t.world).responses.Keys
          && t.world.memory.responses.Keys <= Durable(cfg, t.world).responses.Keys)
  {
    match e
    case Begin(req, o) =>
      if s.phase.Idle? && IsMutation(req) {
        var m := s.world.memory;
        var recorded := m.(responses := m.responses[req.key := Receipt(req, Respond(m.control, false, Pending))]);
        RestoreInvertsPersist(cfg.identity, recorded, StatePayload(cfg.identity, recorded));
      }
    case Finish(o) =>
      if s.phase.Answering? {
        var m := s.world.memory;
        var recorded := m.(responses := m.responses[s.phase.request.key := Receipt(s.phase.request, s.phase.response)]);
        RestoreInvertsPersist(cfg.identity, recorded, StatePayload(cfg.identity, recorded));
      }
    case _ =>
  }

  lemma BeginStores(cfg: Config, s: System, e: Happening)
    requires Step(cfg, s, e).phase.Begun? && !s.phase.Begun?
    ensures Step(cfg, s, e).world.stateFile.Some?
    ensures Durable(cfg, Step(cfg, s, e).world) == Step(cfg, s, e).world.memory
  {
    var m := Step(cfg, s, e).world.memory;
    RestoreInvertsPersist(cfg.identity, m, StatePayload(cfg.identity, m));
  }

  lemma StepKeepsJournaled(cfg: Config, s: System, e: Happening)
    requires Journaled(cfg, s)
    ensures Journaled(cfg, Step(cfg, s, e))
    ensures s.applied <= Step(cfg, s, e).applied
  {
    StepOfStateFile(cfg, s, e);
    if Step(cfg, s, e).phase.Begun? && !s.phase.Begun? {
      BeginStores(cfg, s, e);
    }
  }

  lemma StepKeepsFenced(cfg: Config, s: System, e: Happening)
    requires Fenced(cfg, s) && Journaled(cfg, s)
    ensures Fenced(cfg, Step(cfg, s, e))
    ensures Durable(cfg, s.world).control.generation <= Durable(cfg, Step(cfg, s, e).world).control.generation
  {
    StepOfStateFile(cfg, s, e);
    if Step(cfg, s, e).phase.Begun? && !s.phase.Begun? {
      BeginStores(cfg, s, e);
    }
  }

  lemma EmitKeepsTraced(s: System, o: EmitOutcome)
    requires Traced(s) && !s.phase.Down?
    ensures Traced(s.(world := Emit(s.world, o))) && Grows(s.world.trace, Emit(s.world, o).trace)
  {
  }

  lemma StepKeepsTraced(cfg: Config, s: System, e: Happening)
    requires Traced(s)
    ensures Traced(Step(cfg, s, e))
    ensures Grows(s.world.trace, Step(cfg, s, e).world.trace)
  {
    if e.EmitTrace? || e.Observe? {
      if !s.phase.Down? { EmitKeepsTraced(s, e.emit); }
    }
  }

  lemma {:induction false} RunKeepsConsistent(cfg: Config, s: System, es: seq<Happening>)
    requires Consistent(cfg, s)
    ensures Consistent(cfg, Run(Bridging(cfg), s, es))
    ensures s.applied <= Run(Bridging(cfg), s, es).applied
    ensures Grows(s.world.trace, Run(Bridging(cfg), s, es).world.trace)
    ensures Durable(cfg, s.world).control.generation <= Durable(cfg, Run(Bridging(cfg), s, es).world).control.generation
    decreases |es|
  {
    if es != [] {
      var before := es[..|es| - 1];
      RunKeepsConsistent(cfg, s, before);
      var t := Run(Bridging(cfg), s, before);
      StepKeepsJournaled(cfg, t, es[|es| - 1]);
      StepKeepsFenced(cfg, t, es[|es| - 1]);
      StepKeepsTraced(cfg, t, es[|es| - 1]);
    }
  }

  // ----------------------------------------------------------------- main results

  /** `_apply` runs at most once per idempotency key, and every key it ever ran for stays in the
      durable journal (and in memory while the process lives), whatever happens afterwards. */
  lemma AppliedAtMostOnceForever(cfg: Config, es: seq<Happening>, later: seq<Happening>)
    ensures NoDuplicates(After(cfg, es).applied)
    ensures
      var s, t := After(cfg, es), After(cfg, es + later);
      forall k :: k in s.applied ==>
        && k in Durable(cfg, t.world).responses
        && (!t.phase.Down? ==> k in t.world.memory.responses)
  {
    RunKeepsConsistent(cfg, Init(cfg), es);
    var s := After(cfg, es);
    RunKeepsConsistent(cfg, s, later);
    RunConcat(Bridging(cfg), Init(cfg), es, later);
    var t := Run(Bridging(cfg), s, later);
    forall k | k in s.applied ensures k in t.applied {
      var i :| 0 <= i < |s.applied| && s.applied[i] == k;
      assert t.applied[i] == k;
    }
  }

  /** The durable generation trails memory by at most one and never decreases, crashes included. */
  lemma DurableLagsByAtMostOne(cfg: Config, es: seq<Happening>, later: seq<Happening>)
    ensures
      var s, t := After(cfg, es), After(cfg, es + later);
      var d := Durable(cfg, s.world).control.generation;
      && (!s.phase.Down? ==> d <= s.world.memory.control.generation <= d + 1)
      && cfg.initial.generation <= d <= Durable(cfg, t.world).control.generation
  {
    RunKeepsConsistent(cfg, Init(cfg), es);
    RunKeepsConsistent(cfg, After(cfg, es), later);
    RunConcat(Bridging(cfg), Init(cfg), es, later);
  }

  lemma StepOfGeneration(cfg: Config, s: System, e: Happening)
    requires Fenced(cfg, s) && !s.phase.Down? && !e.Crash?
    ensures
      var g, h := s.world.memory.control.generation, Step(cfg, s, e).world.memory.control.generation;
      h == g || (h == g + 1 && e.Update? && s.phase.Invoked? && s.phase.request.action.Reload?)
  {
  }

  /** While the process lives its generation changes only when a reload is applied, and then by one. */
  lemma GenerationRisesOnlyByReload(cfg: Config, es: seq<Happening>, e: Happening)
    ensures
      var s := After(cfg, es);
      var g, h := s.world.memory.control.generation, Step(cfg, s, e).world.memory.control.generation;
      !s.phase.Down? && !e.Crash? ==>
        h == g || (h == g + 1 && e.Update? && s.phase.Invoked? && s.phase.request.action.Reload?)
  {
    RunKeepsConsistent(cfg, Init(cfg), es);
    var s := After(cfg, es);
    if !s.phase.Down? && !e.Crash? {
      StepOfGeneration(cfg, s, e);
    }
  }

  /** Sequence numbers in the trace file strictly increase across any number of crashes. */
  lemma TraceSequencesIncrease(cfg: Config, es: seq<Happening>, later: seq<Happening>)
    ensures Increasing(After(cfg, es).world.trace)
    ensures Grows(After(cfg, es).world.trace, After(cfg, es + later).world.trace)
  {
    RunKeepsConsistent(cfg, Init(cfg), es);
    RunKeepsConsistent(cfg, After(cfg, es), later);
    RunConcat(Bridging(cfg), Init(cfg), es, later);
  }

  // -------------------------------------------------------------------- receipts

  /** An accepted receipt tells the truth: `_apply` completed for exactly this request, under the
      generation the request asked for, which the worker's generation `g` has reached. */
  predicate Honest(completed: set<Request>, g: int, k: string, r: Receipt) {
    && r.request.key == k
    && (r.response.accepted ==> r.request in completed && r.response.generation == r.request.generation <= g)
  }

  ghost predicate HonestJournal(completed: set<Request>, m: Memory) {
    forall k :: k in m.responses ==> Honest(completed, m.control.generation, k, m.responses[k])
  }

  lemma HonestyIsMonotone(c: set<Request>, d: set<Request>, m: Memory, n: Memory)
    requires HonestJournal(c, m) && c <= d
    requires n.responses == m.responses && m.control.generation <= n.control.generation
    ensures HonestJournal(d, n)
  {
  }

  ghost predicate HonestPhase(s: System) {
    && (forall r :: r in s.completed ==> r.key in s.applied)
    && (s.phase.Begun? || s.phase.Invoked? || s.phase.Updated? || s.phase.Answering? ==> IsMutation(s.phase.request))
    && (s.phase.Updated? ==> s.world.memory.control.generation == s.phase.request.generation)
    && (s.phase.Answering? && s.phase.response.accepted ==>
          && s.phase.request in s.completed
          && s.phase.response.generation == s.phase.request.generation == s.world.memory.control.generation)
  }

  ghost predicate Truthful(cfg: Config, s: System) {
    && HonestJournal(s.completed, s.world.memory)
    && HonestJournal(s.completed, Durable(cfg, s.world))
    && HonestPhase(s)
  }

  /** Only the locked regions and the boot touch the journal. */
  lemma QuietStep(cfg: Config, s: System, e: Happening)
    requires Fenced(cfg, s)
    requires e.Invoke? || e.Update? || e.EmitTrace? || e.Observe?
    ensures
      var t := Step(cfg, s, e);
      && t.world.memory.responses == s.world.memory.responses
      && s.world.memory.control.generation <= t.world.memory.control.generation
      && s.completed <= t.completed
  {
  }

  lemma JournalOfStep(cfg: Config, s: System, e: Happening)
    requires Consistent(cfg, s) && Truthful(cfg, s)
    ensures HonestJournal(Step(cfg, s, e).completed, Step(cfg, s, e).world.memory)
  {
    var t := Step(cfg, s, e);
    if e.Invoke? || e.Update? || e.EmitTrace? || e.Observe? {
      QuietStep(cfg, s, e);
      HonestyIsMonotone(s.completed, t.completed, s.world.memory, t.world.memory);
    } else if e.Restart? && s.phase.Down? && t.phase.Idle? {
      HonestyIsMonotone(s.completed, t.completed, Durable(cfg, s.world), t.world.memory);
    }
  }

  lemma DurableJournalOfStep(cfg: Config, s: System, e: Happening)
    requires Consistent(cfg, s) && Truthful(cfg, s)
    ensures HonestJournal(Step(cfg, s, e).completed, Durable(cfg, Step(cfg, s, e).world))
  {
    WritesStoreMemory(cfg, s, e);
    if Writes(cfg, s, e) {
      RecordedIsHonest(cfg, s, e);
    } else {
      CompletedGrows(cfg, s, e);
      HonestyIsMonotone(s.completed, Step(cfg, s, e).completed, Durable(cfg, s.world), Durable(cfg, s.world));
    }
  }

  lemma CompletedGrows(cfg: Config, s: System, e: Happening)
    ensures s.completed <= Step(cfg, s, e).completed
  {
  }

  lemma RecordedIsHonest(cfg: Config, s: System, e: Happening)
    requires Truthful(cfg, s) && Writes(cfg, s, e)
    ensures HonestJournal(Step(cfg, s, e).completed, Recorded(s, e))
  {
  }

  lemma PhaseOfStep(cfg: Config, s: System, e: Happening)
    requires Consistent(cfg, s) && HonestPhase(s)
    ensures HonestPhase(Step(cfg, s, e))
    ensures s.completed <= Step(cfg, s, e).completed
  {
  }

  lemma StepKeepsTruthful(cfg: Config, s: System, e: Happening)
    requires Consistent(cfg, s) && Truthful(cfg, s)
    ensures Truthful(cfg, Step(cfg, s, e))
    ensures s.completed <= Step(cfg, s, e).completed
  {
    JournalOfStep(cfg, s, e);
    DurableJournalOfStep(cfg, s, e);
    PhaseOfStep(cfg, s, e);
  }

  /** Every accepted answer the bridge gives is about a request it completed. */
  lemma AcceptedReplyIsTrue(cfg: Config, s: System, e: Happening)
    requires Consistent(cfg, s) && Truthful(cfg, s)
    ensures
      var reply := Reply(cfg, s, e);
      reply.Some? && reply.value.1.accepted ==>
        && IsMutation(reply.value.0)
        && reply.value.0 in Step(cfg, s, e).completed
        && reply.value.1.generation == reply.value.0.generation
        && reply.value.0.key in Step(cfg, s, e).world.memory.responses
        && Step(cfg, s, e).world.memory.responses[reply.value.0.key] == Receipt(reply.value.0, reply.value.1)
        && reply.value.0.generation <= Step(cfg, s, e).world.memory.control.generation
  {
  }

  lemma {:induction false} RunIsTruthful(cfg: Config, es: seq<Happening>)
    ensures Consistent(cfg, After(cfg, es)) && Truthful(cfg, After(cfg, es))
    decreases |es|
  {
    RunKeepsConsistent(cfg, Init(cfg), es);
    if es != [] {
      RunKeepsConsistent(cfg, Init(cfg), es[..|es| - 1]);
      RunIsTruthful(cfg, es[..|es| - 1]);
      StepKeepsTruthful(cfg, After(cfg, es[..|es| - 1]), es[|es| - 1]);
    }
  }

  lemma AfterReboot(cfg: Config, es: seq<Happening>)
    ensures After(cfg, es + [Crash, Restart]) == Step(cfg, Step(cfg, After(cfg, es), Crash), Restart)
  {
    RunConcat(Bridging(cfg), Init(cfg), es, [Crash, Restart]);
    RunTwo(Bridging(cfg), After(cfg, es), Crash, Restart);
  }

  /** A retry after a crash is answered from the state file and never runs `_apply` again: the caller
      sees the outcome if it was made durable, and otherwise that it is not confirmed. */
  lemma RetryAfterCrash(cfg: Config, es: seq<Happening>, req: Request, o: PersistOutcome)
    requires IsMutation(req) && req.key in After(cfg, es).applied
    ensures
      var s := After(cfg, es);
      var t := After(cfg, es + [Crash, Restart]);
      && req.key in Durable(cfg, s.world).responses
      && (t.phase.Idle? ==>
            var r := Durable(cfg, s.world).responses[req.key];
            && Step(cfg, t, Begin(req, o)) == t
            && (r.request == req ==> Reply(cfg, t, Begin(req, o)) == Some((req, r.response))))
  {
    RunKeepsConsistent(cfg, Init(cfg), es);
    AfterReboot(cfg, es);
  }

  /** What is left when the first request ever succeeds but recording the outcome fails before the replace. */
  ghost predicate OutcomeLost(cfg: Config, w: World, req: Request, r: Response) {
    && w.trace == [Event(1)]
    && w.memory.responses == map[req.key := Receipt(req, r)]
    && w.stateFile == Some(StatePayload(cfg.identity, Intent(cfg, req)))
  }

  function Intent(cfg: Config, req: Request): Memory {
    Memory(cfg.initial, 0, map[req.key := Receipt(req, Respond(cfg.initial, false, Pending))])
  }

  lemma ServeLosingOutcome(cfg: Config, req: Request, cb: CallbackResult)
    requires IsMutation(req) && req.sandboxId == cfg.identity.sandboxId && cfg.maxReceipts > 0
    requires GenerationMatches(req, cfg.initial.generation) && ApplyControl(cfg.initial, req, cb).ok
    ensures
      var env := Environment(Stored, cb, Written, FailedBeforeReplace);
      var r := Respond(ApplyControl(cfg.initial, req, cb).control, true, NoFault);
      OutcomeLost(cfg, Run(Bridging(cfg), Init(cfg), CallEvents(req, env)).world, req, r)
  {
    EventsRefineHandle(cfg, Init(cfg), req, Environment(Stored, cb, Written, FailedBeforeReplace));
  }

  lemma RebootForgets(cfg: Config, s: System, req: Request, r: Response)
    requires OutcomeLost(cfg, s.world, req, r)
    ensures
      var t := Step(cfg, Step(cfg, s, Crash), Restart);
      && t.phase.Idle? && t.world.memory == Intent(cfg, req).(sequence := 1)
      && Durable(cfg, t.world) == Intent(cfg, req)
  {
    RestoreInvertsPersist(cfg.identity, Intent(cfg, req), s.world.stateFile.value);
    assert s.world.trace[..0] == [];
    assert MaxSequence(0, s.world.trace) == 1;
  }

  /** An accepted answer is not always durable. If recording the outcome fails before the replace, the
      process still answers a retry with success, but the next process answers the same retry with
      "not confirmed". */
  lemma AcceptedReplyCanBeForgotten(cfg: Config, req: Request, cb: CallbackResult)
    requires IsMutation(req) && req.sandboxId == cfg.identity.sandboxId && cfg.maxReceipts > 0
    requires GenerationMatches(req, cfg.initial.generation) && ApplyControl(cfg.initial, req, cb).ok
    ensures
      var es := CallEvents(req, Environment(Stored, cb, Written, FailedBeforeReplace));
      var before := Reply(cfg, After(cfg, es), Begin(req, Stored));
      var after := Reply(cfg, After(cfg, es + [Crash, Restart]), Begin(req, Stored));
      && before.Some? && before.value.1.accepted
      && after.Some? && !after.value.1.accepted && after.value.1.fault == Pending
  {
    var env := Environment(Stored, cb, Written, FailedBeforeReplace);
    var es := CallEvents(req, env);
    ServeLosingOutcome(cfg, req, cb);
    EventsRefineHandle(cfg, Init(cfg), req, env);
    AfterReboot(cfg, es);
    RebootForgets(cfg, After(cfg, es), req, Respond(ApplyControl(cfg.initial, req, cb).control, true, NoFault));
  }

  // ------------------------------------------------------- what the state file knows

  /** The journal of `m` says that `q` succeeded. */
  ghost predicate Backed(m: Memory, q: Request) {
    q.key in m.responses && m.responses[q.key].request == q && m.responses[q.key].response.accepted
  }

  /** The entry of the request being served is still pending, so finishing it replaces no success. */
  ghost predicate OpenIsPending(s: System) {
    s.phase.Begun? || s.phase.Invoked? || s.phase.Updated? || s.phase.Answering? ==>
      var k := s.phase.request.key;
      k in s.world.memory.responses && !s.world.memory.responses[k].response.accepted
  }

  lemma StepKeepsOpenPending(cfg: Config, s: System, e: Happening)
    requires OpenIsPending(s)
    ensures OpenIsPending(Step(cfg, s, e))
  {
  }

  /** A new request that passes lookup, fence and capacity. */
  predicate Admitted(cfg: Config, w: World, req: Request) {
    && req.key !in w.memory.responses && req.sandboxId == cfg.identity.sandboxId
    && GenerationMatches(req, w.memory.control.generation) && |w.memory.responses| < cfg.maxReceipts
  }

  /** The event is an intent or outcome write that replaces the state file. */
  predicate Writes(cfg: Config, s: System, e: Happening) {
    match e
    case Begin(req, o) => s.phase.Idle? && IsMutation(req) && Admitted(cfg, s.world, req) && !o.FailedBeforeReplace?
    case Finish(o) => s.phase.Answering? && !o.FailedBeforeReplace?
    case _ => false
  }

  /** The journal that a write stores. */
  function Recorded(s: System, e: Happening): Memory {
    var m := s.world.memory;
    match e
    case Begin(req, _) => m.(responses := m.responses[req.key := Receipt(req, Respond(m.control, false, Pending))])
    case Finish(_) =>
      if s.phase.Answering? then
        m.(responses := m.responses[s.phase.request.key := Receipt(s.phase.request, s.phase.response)])
      else m
    case _ => m
  }

  /** Only writes change the file, and a write stores the whole current state. */
  lemma WritesStoreMemory(cfg: Config, s: System, e: Happening)
    ensures
      var t := Step(cfg, s, e);
      if Writes(cfg, s, e) then
        && !s.phase.Down? && !t.phase.Down? && !e.Crash?
        && Durable(cfg, t.world) == Recorded(s, e)
        && Recorded(s, e).control == t.world.memory.control == s.world.memory.control
      else t.world.stateFile == s.world.stateFile
  {
    RestoreInvertsPersist(cfg.identity, Recorded(s, e), StatePayload(cfg.identity, Recorded(s, e)));
  }

  lemma WritesStoreSuccess(cfg: Config, s: System, e: Happening, q: Request)
    requires Writes(cfg, s, e)
    ensures Backed(Durable(cfg, Step(cfg, s, e).world), q) <==> Backed(Step(cfg, s, e).world.memory, q)
  {
    WritesStoreMemory(cfg, s, e);
  }

  /** The event records that `q` succeeded. */
  predicate Finishes(s: System, e: Happening, q: Request) {
    e.Finish? && s.phase.Answering? && s.phase.request == q && s.phase.response.accepted
  }

  lemma MemoryOfStep(cfg: Config, s: System, e: Happening, q: Request)
    requires OpenIsPending(s) && !s.phase.Down? && !e.Crash?
    ensures Backed(Step(cfg, s, e).world.memory, q) <==> Backed(s.world.memory, q) || Finishes(s, e, q)
  {
  }

  ghost predicate FinishedAt(cfg: Config, es: seq<Happening>, f: int, q: Request) {
    0 <= f < |es| && Finishes(After(cfg, es[..f]), es[f], q)
  }

  ghost predicate WrittenAt(cfg: Config, es: seq<Happening>, k: int) {
    0 <= k < |es| && Writes(cfg, After(cfg, es[..k]), es[k])
  }

  ghost predicate NoCrash(es: seq<Happening>, a: int, b: int) {
    forall i :: 0 <= i < |es| && a <= i < b ==> !es[i].Crash?
  }

  ghost predicate RecentAt(cfg: Config, es: seq<Happening>, f: int, q: Request) {
    FinishedAt(cfg, es, f, q) && NoCrash(es, f, |es|)
  }

  /** The living process recorded the success of `q`. */
  ghost predicate Recent(cfg: Config, es: seq<Happening>, q: Request) {
    exists f :: RecentAt(cfg, es, f, q)
  }

  ghost predicate SavedAt(cfg: Config, es: seq<Happening>, f: int, k: int, q: Request) {
    f <= k && FinishedAt(cfg, es, f, q) && WrittenAt(cfg, es, k) && NoCrash(es, f, k)
  }

  /** The process that recorded the success of `q` replaced the state file then or later, before it crashed. */
  ghost predicate Saved(cfg: Config, es: seq<Happening>, q: Request) {
    exists f, k :: SavedAt(cfg, es, f, k, q)
  }

  lemma Prefixes(cfg: Config, es: seq<Happening>, e: Happening, i: int, q: Request)
    requires 0 <= i < |es|
    ensures FinishedAt(cfg, es + [e], i, q) <==> FinishedAt(cfg, es, i, q)
    ensures WrittenAt(cfg, es + [e], i) <==> WrittenAt(cfg, es, i)
  {
    assert (es + [e])[..i] == es[..i];
  }

  lemma LastEvent(cfg: Config, es: seq<Happening>, e: Happening, q: Request)
    ensures FinishedAt(cfg, es + [e], |es|, q) <==> Finishes(After(cfg, es), e, q)
    ensures WrittenAt(cfg, es + [e], |es|) <==> Writes(cfg, After(cfg, es), e)
  {
    assert (es + [e])[..|es|] == es;
  }

  lemma RecentGrows(cfg: Config, es: seq<Happening>, e: Happening, q: Request)
    ensures Recent(cfg, es + [e], q) <==> !e.Crash? && (Recent(cfg, es, q) || Finishes(After(cfg, es), e, q))
  {
    var more := es + [e];
    LastEvent(cfg, es, e, q);
    if Recent(cfg, more, q) {
      var f :| RecentAt(cfg, more, f, q);
      assert more[|es|] == e;
      if f < |es| {
        Prefixes(cfg, es, e, f, q);
        assert forall i :: 0 <= i < |es| ==> more[i] == es[i];
        assert RecentAt(cfg, es, f, q);
      }
    }
    if !e.Crash? && Recent(cfg, es, q) {
      var f :| RecentAt(cfg, es, f, q);
      Prefixes(cfg, es, e, f, q);
      assert RecentAt(cfg, more, f, q);
    } else if Finishes(After(cfg, es), e, q) {
      assert RecentAt(cfg, more, |es|, q);
    }
  }

  lemma SavedGrows(cfg: Config, es: seq<Happening>, e: Happening, q: Request)
    ensures Saved(cfg, es + [e], q) <==>
      Saved(cfg, es, q) || (Writes(cfg, After(cfg, es), e) && (Recent(cfg, es, q) || Finishes(After(cfg, es), e, q)))
  {
    if Saved(cfg, es + [e], q) { SavedBefore(cfg, es, e, q); }
    if Saved(cfg, es, q) {
      var f, k :| SavedAt(cfg, es, f, k, q);
      Prefixes(cfg, es, e, f, q);
      Prefixes(cfg, es, e, k, q);
      assert SavedAt(cfg, es + [e], f, k, q);
    } else if Writes(cfg, After(cfg, es), e) && (Recent(cfg, es, q) || Finishes(After(cfg, es), e, q)) {
      RecentGrows(cfg, es, e, q);
      var f :| RecentAt(cfg, es + [e], f, q);
      LastEvent(cfg, es, e, q);
      assert SavedAt(cfg, es + [e], f, |es|, q);
    }
  }

  lemma SavedBefore(cfg: Config, es: seq<Happening>, e: Happening, q: Request)
    requires Saved(cfg, es + [e], q)
    ensures
      || Saved(cfg, es, q)
      || (Writes(cfg, After(cfg, es), e) && (Recent(cfg, es, q) || Finishes(After(cfg, es), e, q)))
  {
    var more := es + [e];
    var f, k :| SavedAt(cfg, more, f, k, q);
    LastEvent(cfg, es, e, q);
    assert forall i :: 0 <= i < |es| ==> more[i] == es[i];
    if k < |es| {
      Prefixes(cfg, es, e, f, q);
      Prefixes(cfg, es, e, k, q);
      assert SavedAt(cfg, es, f, k, q);
    } else if f < |es| {
      Prefixes(cfg, es, e, f, q);
      assert RecentAt(cfg, es, f, q);
    }
  }

  /** Exactly when a success is durable, over every run: when the process that recorded it replaced the state file
      then or later. And exactly when the living process knows of it. */
  lemma {:induction false} SuccessIsDurableExactlyWhen(cfg: Config, es: seq<Happening>, q: Request)
    ensures
      var s := After(cfg, es);
      && OpenIsPending(s)
      && (Backed(Durable(cfg, s.world), q) <==> Saved(cfg, es, q))
      && (!s.phase.Down? ==> (Backed(s.world.memory, q) <==> Saved(cfg, es, q) || Recent(cfg, es, q)))
      && (s.phase.Down? ==> !Recent(cfg, es, q))
    decreases |es|
  {
    if es == [] {
      assert forall f :: !FinishedAt(cfg, es, f, q);
    } else {
      var front, e := es[..|es| - 1], es[|es| - 1];
      assert es == front + [e];
      SuccessIsDurableExactlyWhen(cfg, front, q);
      SavedGrows(cfg, front, e, q);
      RecentGrows(cfg, front, e, q);
      SuccessOfStep(cfg, After(cfg, front), e, q, Saved(cfg, front, q), Recent(cfg, front, q));
    }
  }

  lemma SuccessOfStep(cfg: Config, s: System, e: Happening, q: Request, saved: bool, recent: bool)
    requires OpenIsPending(s) && (Backed(Durable(cfg, s.world), q) <==> saved)
    requires if s.phase.Down? then !recent else (Backed(s.world.memory, q) <==> saved || recent)
    ensures
      var t, finishes, writes := Step(cfg, s, e), Finishes(s, e, q), Writes(cfg, s, e);
      var saved', recent' := saved || (writes && (recent || finishes)), !e.Crash? && (recent || finishes);
      && OpenIsPending(t)
      && (Backed(Durable(cfg, t.world), q) <==> saved')
      && (if t.phase.Down? then !recent' else (Backed(t.world.memory, q) <==> saved' || recent'))
  {
    StepKeepsOpenPending(cfg, s, e);
    WritesStoreMemory(cfg, s, e);
    if Writes(cfg, s, e) { WritesStoreSuccess(cfg, s, e, q); }
    if !s.phase.Down? && !e.Crash? { MemoryOfStep(cfg, s, e, q); }
  }

  /** A reload of the next generation succeeds. */
  predicate Raises(s: System, e: Happening) {
    && e.Update? && e.callback.Returned? && s.phase.Invoked? && s.phase.request.action.Reload?
    && s.phase.request.generation == s.world.memory.control.generation + 1
    && (s.phase.request.checkpointRef != "" || s.world.memory.control.checkpointRef != "")
  }

  /** The process has raised its generation and has not replaced the state file since. */
  ghost predicate Unwritten(cfg: Config, es: seq<Happening>)
    decreases |es|
  {
    es != [] &&
    var front, e := es[..|es| - 1], es[|es| - 1];
    !e.Crash? && !Writes(cfg, After(cfg, front), e) && (Raises(After(cfg, front), e) || Unwritten(cfg, front))
  }

  lemma LagOfStep(cfg: Config, s: System, e: Happening, unwritten: bool)
    requires Fenced(cfg, s) && (s.phase.Down? ==> !unwritten)
    requires !s.phase.Down? ==>
      (s.world.memory.control.generation == Durable(cfg, s.world).control.generation + 1 <==> unwritten)
    ensures
      var t, next := Step(cfg, s, e), !e.Crash? && !Writes(cfg, s, e) && (Raises(s, e) || unwritten);
      && (t.phase.Down? ==> !next)
      && (!t.phase.Down? ==>
            (t.world.memory.control.generation == Durable(cfg, t.world).control.generation + 1 <==> next))
  {
    WritesStoreMemory(cfg, s, e);
  }

  /** Exactly when memory is a generation ahead of the state file. */
  lemma {:induction false} LagsExactlyWhenUnwritten(cfg: Config, es: seq<Happening>)
    ensures
      var s := After(cfg, es);
      && (s.phase.Down? ==> !Unwritten(cfg, es))
      && (!s.phase.Down? ==>
            (s.world.memory.control.generation == Durable(cfg, s.world).control.generation + 1 <==> Unwritten(cfg, es)))
    decreases |es|
  {
    if es != [] {
      var front := es[..|es| - 1];
      LagsExactlyWhenUnwritten(cfg, front);
      RunKeepsConsistent(cfg, Init(cfg), front);
      LagOfStep(cfg, After(cfg, front), es[|es| - 1], Unwritten(cfg, front));
    }
  }

  // ------------------------------------------------------------------- lifecycle

  predicate Ordered(c: Control) {
    && (c.ready ==> c.state.Running? && !c.offloaded)
    && (c.offloaded ==> !c.state.Running?)
  }

  predicate Recoverable(c: Control) {
    c.offloaded ==> c.checkpointRef != ""
  }

  /** Checkpoint callbacks return a nonempty reference. */
  predicate NamesCheckpoint(e: Happening) {
    e.Update? && e.callback.Returned? ==> e.callback.checkpointRef != ""
  }

  lemma ApplyKeepsLifecycle(c: Control, req: Request, cb: CallbackResult)
    requires Ordered(c)
    ensures Ordered(ApplyControl(c, req, cb).control)
    ensures
      Recoverable(c) && (cb.Returned? ==> cb.checkpointRef != "") ==>
      Recoverable(ApplyControl(c, req, cb).control)
  {
  }

  ghost predicate Settled(cfg: Config, s: System, nonempty: bool) {
    var m, d := s.world.memory.control, Durable(cfg, s.world).control;
    Ordered(m) && Ordered(d) && (nonempty ==> Recoverable(m) && Recoverable(d))
  }

  lemma StepKeepsSettled(cfg: Config, s: System, e: Happening, nonempty: bool)
    requires Ordered(cfg.initial) && Recoverable(cfg.initial)
    requires Settled(cfg, s, nonempty) && (nonempty ==> NamesCheckpoint(e))
    ensures Settled(cfg, Step(cfg, s, e), nonempty)
  {
    StepOfStateFile(cfg, s, e);
    if e.Update? && s.phase.Invoked? {
      ApplyKeepsLifecycle(s.world.memory.control, s.phase.request, e.callback);
    }
  }

  /** In every reachable and every restorable state a ready worker is running and not offloaded and
      an offloaded worker is not running; if checkpoint callbacks return nonempty references an
      offloaded worker also has a checkpoint to reload. Callbacks and trace writes may raise. */
  lemma {:induction false} LifecycleInvariant(cfg: Config, es: seq<Happening>, nonempty: bool)
    requires Ordered(cfg.initial) && Recoverable(cfg.initial)
    requires nonempty ==> forall i :: 0 <= i < |es| ==> NamesCheckpoint(es[i])
    ensures Settled(cfg, After(cfg, es), nonempty)
    decreases |es|
  {
    if es != [] {
      LifecycleInvariant(cfg, es[..|es| - 1], nonempty);
      StepKeepsSettled(cfg, After(cfg, es[..|es| - 1]), es[|es| - 1], nonempty);
    }
  }
}
