/**
 The bootstrap supervisor in cooperative-socket mode, and the system it forms
 with the bridge over a connection that may lose, delay or duplicate messages.
 */
module Supervisor {
  import opened Common
  import opened Bridge
  import opened BridgeRuns
  import opened Runs

  /** The supervisor's copy of the worker record. */
  datatype Worker = Worker(
    sandboxId: string, generation: int, bindingId: string, deviceId: string, deviceIds: seq<string>,
    share: real, state: Lifecycle, safePoint: bool, offloaded: bool, ready: bool, checkpointRef: string)

  datatype Sup = Sup(worker: Worker, receipts: map<string, Receipt>)

  datatype Transport = Delivered(response: Response) | Failed

  function WorkerResponse(w: Worker, accepted: bool, fault: Fault): Response {
    var device := if w.deviceId == "" && |w.deviceIds| == 1 then w.deviceIds[0] else w.deviceId;
    Response(accepted, w.state, w.generation, w.safePoint, w.offloaded, w.ready, w.checkpointRef,
             w.bindingId, device, w.share, fault)
  }

  datatype Screening = Refuse(response: Response) | Forward

  /** What is decided before the socket is used: generation first, then the receipt. */
  function Screen(s: Sup, req: Request): Screening {
    var w := s.worker;
    if req.sandboxId != w.sandboxId || !GenerationMatches(req, w.generation) then
      Refuse(WorkerResponse(w, false, IdentityMismatch))
    else if req.action.Status? then Forward
    else if req.key == "" then Refuse(WorkerResponse(w, false, KeyRequired))
    else if req.key in s.receipts then
      var previous := s.receipts[req.key];
      Refuse(if previous.request != req then WorkerResponse(w, false, KeyReused) else previous.response)
    else Forward
  }

  function Observed(w: Worker, r: Response): Worker {
    w.(state := r.state, safePoint := r.safePoint, offloaded := r.offloaded, ready := r.ready,
       checkpointRef := r.checkpointRef)
  }

  /** The worker record after an accepted mutation. */
  function Accepted(w: Worker, r: Response): Worker {
    var o := Observed(w, r);
    o.(generation := if r.generation != 0 then r.generation else w.generation,
       bindingId := if r.bindingId != "" then r.bindingId else w.bindingId,
       deviceId := if r.deviceId != "" then r.deviceId else w.deviceId,
       deviceIds := if r.deviceId != "" then [r.deviceId] else w.deviceIds,
       share := if r.share != 0.0 then r.share else w.share)
  }

  function ConcludeStatus(s: Sup, t: Transport): (Sup, Response) {
    var w := s.worker;
    match t
    case Failed => (s, WorkerResponse(w, false, StatusUnavailable))
    case Delivered(r) =>
      if !r.accepted || (r.generation != 0 && r.generation != w.generation) then
        (s, WorkerResponse(w, false, if r.fault.NoFault? then IdentityMismatch else r.fault))
      else (s.(worker := Observed(w, r)), WorkerResponse(Observed(w, r), true, NoFault))
  }

  /** An answer is cached unless it says that the outcome is not confirmed. */
  function ConcludeMutation(s: Sup, req: Request, t: Transport): (Sup, Response) {
    match t
    case Failed => (s, WorkerResponse(s.worker, false, TransportLost))
    case Delivered(r) =>
      var updated := if r.accepted then Accepted(s.worker, r) else s.worker;
      var answer := WorkerResponse(updated, r.accepted, r.fault)
                    .(state := r.state, safePoint := r.safePoint, offloaded := r.offloaded, ready := r.ready,
                      checkpointRef := r.checkpointRef);
      (Sup(updated,
           if r.accepted || !NotConfirmed(r.fault) then s.receipts[req.key := Receipt(req, answer)] else s.receipts),
       answer)
  }

  function Conclude(s: Sup, req: Request, t: Transport): (Sup, Response) {
    if req.action.Status? then ConcludeStatus(s, t) else ConcludeMutation(s, req, t)
  }

  function Supervise(s: Sup, req: Request, t: Transport): (Sup, Response) {
    match Screen(s, req)
    case Refuse(r) => (s, r)
    case Forward => Conclude(s, req, t)
  }

  class WorkerSupervisor {
    var worker: Worker
    var receipts: map<string, Receipt>

    function Contents(): Sup
      reads this
    {
      Sup(worker, receipts)
    }

    constructor (worker: Worker)
      ensures Contents() == Sup(worker, map[])
    {
      this.worker, receipts := worker, map[];
    }

    method HandleControl(req: Request, t: Transport) returns (r: Response)
      modifies this
      ensures (Contents(), r) == Supervise(old(Contents()), req, t)
    {
      if req.sandboxId != worker.sandboxId || !GenerationMatches(req, worker.generation) {
        return WorkerResponse(worker, false, IdentityMismatch);
      }
      if req.action.Status? {
        if t.Failed? { return WorkerResponse(worker, false, StatusUnavailable); }
        var s := t.response;
        if !s.accepted || (s.generation != 0 && s.generation != worker.generation) {
          return WorkerResponse(worker, false, if s.fault.NoFault? then IdentityMismatch else s.fault);
        }
        worker := Observed(worker, s);
        return WorkerResponse(worker, true, NoFault);
      }
      if req.key == "" { return WorkerResponse(worker, false, KeyRequired); }
      if req.key in receipts {
        if receipts[req.key].request != req { return WorkerResponse(worker, false, KeyReused); }
        return receipts[req.key].response;
      }
      if t.Failed? { return WorkerResponse(worker, false, TransportLost); }
      if t.response.accepted { worker := Accepted(worker, t.response); }
      r := WorkerResponse(worker, t.response.accepted, t.response.fault);
      r := r.(state := t.response.state, safePoint := t.response.safePoint, offloaded := t.response.offloaded,
              ready := t.response.ready, checkpointRef := t.response.checkpointRef);
      if r.accepted || !NotConfirmed(r.fault) {
        receipts := receipts[req.key := Receipt(req, r)];
      }
    }
  }

  // ------------------------------------------------------------- composed system

  /** `sent` and `replies` only grow: a message may arrive late, several times, or never. */
  datatype Net = Net(sup: Sup, waiting: Option<Request>, sent: set<Request>, bridge: System,
                     replies: set<(Request, Response)>)

  datatype NetEvent =
    | Client(request: Request)
    | Deliver(request: Request, intent: PersistOutcome)
    | Direct(request: Request)                 // a request the bridge answers without a mutation
    | BridgeEvent(happening: Happening)        // everything the bridge does by itself
    | Receive(response: Response)
    | GiveUp

  function Start(cfg: Config, w: Worker): Net {
    Net(Sup(w, map[]), None, {}, Init(cfg), {})
  }

  function DirectReply(cfg: Config, w: World, req: Request): Response
    requires !IsMutation(req)
  {
    Handle(cfg, w, req, Environment(Stored, Raised, Written, Stored)).1
  }

  function BridgeMoves(cfg: Config, n: Net, e: Happening): Net {
    var reply := Reply(cfg, n.bridge, e);
    n.(bridge := Step(cfg, n.bridge, e),
       replies := if reply.Some? then n.replies + {reply.value} else n.replies)
  }

  function NetStep(cfg: Config, n: Net, e: NetEvent): Net {
    match e
    case Client(req) =>
      if n.waiting.Some? || Screen(n.sup, req).Refuse? then n
      else n.(waiting := Some(req), sent := n.sent + {req})
    case Deliver(req, o) =>
      if req !in n.sent then n else BridgeMoves(cfg, n, Begin(req, o))
    case Direct(req) =>
      if req !in n.sent || IsMutation(req) || n.bridge.phase.Down? then n
      else n.(replies := n.replies + {(req, DirectReply(cfg, n.bridge.world, req))})
    case BridgeEvent(h) =>
      if h.Begin? then n else BridgeMoves(cfg, n, h)
    case Receive(r) =>
      if n.waiting.None? || (n.waiting.value, r) !in n.replies then n
      else n.(sup := Conclude(n.sup, n.waiting.value, Delivered(r)).0, waiting := None)
    case GiveUp =>
      if n.waiting.None? then n
      else n.(sup := Conclude(n.sup, n.waiting.value, Failed).0, waiting := None)
  }

  function Networking(cfg: Config): (Net, NetEvent) -> Net {
    (n, e) => NetStep(cfg, n, e)
  }

  /** The composed system after the events `es`. */
  function NetAfter(cfg: Config, w: Worker, es: seq<NetEvent>): Net {
    Run(Networking(cfg), Start(cfg, w), es)
  }

  // ------------------------------------------------------------ invariant of all runs

  ghost predicate TrueReply(completed: set<Request>, q: Request, r: Response) {
    r.accepted ==> r.generation == q.generation && (q.action.Status? || (IsMutation(q) && q in completed))
  }

  ghost predicate TrueReplies(n: Net) {
    forall p :: p in n.replies ==> TrueReply(n.bridge.completed, p.0, p.1)
  }

  ghost predicate TrueReceipts(n: Net) {
    forall k :: k in n.sup.receipts ==>
      && n.sup.receipts[k].request.key == k
      && (n.sup.receipts[k].response.accepted ==> n.sup.receipts[k].request in n.bridge.completed)
  }

  /** No request on its way, being served or already durable is ahead of the supervisor by more than one. */
  ghost predicate Bounded(cfg: Config, n: Net) {
    var g := n.sup.worker.generation;
    && (forall q :: q in n.sent ==> q.generation <= g + 1)
    && (n.waiting.Some? ==> n.waiting.value in n.sent && GenerationMatches(n.waiting.value, g))
    && (n.waiting.Some? && !n.waiting.value.action.Status? ==> n.waiting.value.key != "")
    && (n.bridge.phase.Begun? || n.bridge.phase.Invoked? || n.bridge.phase.Updated? || n.bridge.phase.Answering? ==>
          n.bridge.phase.request in n.sent)
    && n.bridge.world.memory.control.generation <= g + 1
    && Durable(cfg, n.bridge.world).control.generation <= g + 1
    && cfg.initial.generation <= g + 1
  }

  ghost predicate Sound(cfg: Config, n: Net) {
    && Consistent(cfg, n.bridge) && Truthful(cfg, n.bridge)
    && TrueReplies(n) && TrueReceipts(n) && Bounded(cfg, n)
  }

  lemma RepliesStayTrue(n: Net, t: System, reply: Option<(Request, Response)>)
    requires TrueReplies(n) && TrueReceipts(n) && n.bridge.completed <= t.completed
    requires reply.Some? ==> TrueReply(t.completed, reply.value.0, reply.value.1)
    ensures
      var m := n.(bridge := t, replies := if reply.Some? then n.replies + {reply.value} else n.replies);
      TrueReplies(m) && TrueReceipts(m)
  {
  }

  lemma BridgeMovesKeepSound(cfg: Config, n: Net, e: Happening)
    requires Sound(cfg, n)
    requires e.Begin? ==> e.request in n.sent
    ensures Sound(cfg, BridgeMoves(cfg, n, e))
  {
    var t, reply := Step(cfg, n.bridge, e), Reply(cfg, n.bridge, e);
    assert Consistent(cfg, t) by {
      StepKeepsJournaled(cfg, n.bridge, e);
      StepKeepsFenced(cfg, n.bridge, e);
      StepKeepsTraced(cfg, n.bridge, e);
    }
    StepKeepsTruthful(cfg, n.bridge, e);
    assert reply.Some? ==> TrueReply(t.completed, reply.value.0, reply.value.1) by {
      AcceptedReplyIsTrue(cfg, n.bridge, e);
    }
    RepliesStayTrue(n, t, reply);
    BridgeMovesKeepBounded(cfg, n, e);
  }

  lemma BridgeMovesKeepBounded(cfg: Config, n: Net, e: Happening)
    requires Sound(cfg, n)
    requires e.Begin? ==> e.request in n.sent
    ensures Bounded(cfg, BridgeMoves(cfg, n, e))
  {
    StepOfStateFile(cfg, n.bridge, e);
    ServedRequestOfStep(cfg, n.bridge, e);
    GenerationOfStep(cfg, n.bridge, e);
  }

  predicate Serves(s: System) {
    s.phase.Begun? || s.phase.Invoked? || s.phase.Updated? || s.phase.Answering?
  }

  /** The request being served is the one served before, or one that has just begun. */
  lemma ServedRequestOfStep(cfg: Config, s: System, e: Happening)
    ensures
      var t := Step(cfg, s, e);
      Serves(t) ==> (Serves(s) && t.phase.request == s.phase.request) || (e.Begin? && t.phase.request == e.request)
  {
  }

  /** Memory's generation stays, becomes that of the request being served, or is read from the file or the
      configuration. */
  lemma GenerationOfStep(cfg: Config, s: System, e: Happening)
    ensures
      var g, h := s.world.memory.control.generation, Step(cfg, s, e).world.memory.control.generation;
      || h == g || (Serves(s) && h == s.phase.request.generation)
      || h == Durable(cfg, s.world).control.generation || h == cfg.initial.generation
  {
  }

  lemma ReceiveKeepsSound(cfg: Config, n: Net, r: Response)
    requires Sound(cfg, n)
    requires n.waiting.Some? && (n.waiting.value, r) in n.replies
    ensures Sound(cfg, NetStep(cfg, n, Receive(r)))
    ensures n.sup.worker.generation <= NetStep(cfg, n, Receive(r)).sup.worker.generation
  {
    var q := n.waiting.value;
    assert TrueReply(n.bridge.completed, q, r);
  }

  lemma NetStepKeepsSound(cfg: Config, n: Net, e: NetEvent)
    requires Sound(cfg, n)
    ensures Sound(cfg, NetStep(cfg, n, e))
  {
    match e
    case Deliver(req, o) =>
      if req in n.sent { BridgeMovesKeepSound(cfg, n, Begin(req, o)); }
    case BridgeEvent(h) =>
      if !h.Begin? { BridgeMovesKeepSound(cfg, n, h); }
    case Receive(r) =>
      if n.waiting.Some? && (n.waiting.value, r) in n.replies { ReceiveKeepsSound(cfg, n, r); }
    case _ =>
  }

  ghost predicate Matches(cfg: Config, w: Worker) {
    w.sandboxId == cfg.identity.sandboxId && w.generation == cfg.initial.generation
  }

  lemma {:induction false} NetRunKeepsSound(cfg: Config, w: Worker, es: seq<NetEvent>)
    requires Matches(cfg, w)
    ensures Sound(cfg, NetAfter(cfg, w, es))
    decreases |es|
  {
    if es != [] {
      NetRunKeepsSound(cfg, w, es[..|es| - 1]);
      NetStepKeepsSound(cfg, NetAfter(cfg, w, es[..|es| - 1]), es[|es| - 1]);
    }
  }

  /** What the supervisor knows or may still hear is at most one generation above the state file. */
  ghost predicate WithinOne(cfg: Config, n: Net) {
    var d := Durable(cfg, n.bridge.world).control.generation;
    && n.sup.worker.generation <= d + 1
    && forall p :: p in n.replies && p.1.accepted && !p.0.action.Status? ==> p.1.generation <= d + 1
  }

  lemma BridgeMovesKeepWithinOne(cfg: Config, n: Net, e: Happening)
    requires Sound(cfg, n) && WithinOne(cfg, n)
    ensures WithinOne(cfg, BridgeMoves(cfg, n, e))
  {
    StepKeepsFenced(cfg, n.bridge, e);
    AcceptedReplyIsTrue(cfg, n.bridge, e);
    ReplyNeedsProcess(cfg, n.bridge, e);
  }

  lemma ReplyNeedsProcess(cfg: Config, s: System, e: Happening)
    ensures Reply(cfg, s, e).Some? ==> !Step(cfg, s, e).phase.Down?
  {
  }

  lemma NetStepKeepsWithinOne(cfg: Config, n: Net, e: NetEvent)
    requires Sound(cfg, n) && WithinOne(cfg, n)
    ensures WithinOne(cfg, NetStep(cfg, n, e))
  {
    match e
    case Deliver(req, o) =>
      if req in n.sent { BridgeMovesKeepWithinOne(cfg, n, Begin(req, o)); }
    case BridgeEvent(h) =>
      if !h.Begin? { BridgeMovesKeepWithinOne(cfg, n, h); }
    case Receive(r) =>
      if n.waiting.Some? {
        var p := (n.waiting.value, r);
        assert p in n.replies && r.accepted && !p.0.action.Status? ==>
            r.generation <= Durable(cfg, n.bridge.world).control.generation + 1;
      }
    case _ =>
  }

  lemma {:induction false} NetRunKeepsWithinOne(cfg: Config, w: Worker, es: seq<NetEvent>)
    requires Matches(cfg, w)
    ensures Sound(cfg, NetAfter(cfg, w, es)) && WithinOne(cfg, NetAfter(cfg, w, es))
    decreases |es|
  {
    NetRunKeepsSound(cfg, w, es);
    if es != [] {
      NetRunKeepsWithinOne(cfg, w, es[..|es| - 1]);
      NetStepKeepsWithinOne(cfg, NetAfter(cfg, w, es[..|es| - 1]), es[|es| - 1]);
    }
  }

  /** Every run, with losses, duplicates, persist failures and bridge crashes: each callback still runs at most once,
      no cached success is false, and the supervisor's generation differs from the state file's, and from that of
      a running bridge, by at most one. */
  lemma SupervisedRuns(cfg: Config, w: Worker, es: seq<NetEvent>)
    requires Matches(cfg, w)
    ensures
      var n := NetAfter(cfg, w, es);
      var g, m, d := n.sup.worker.generation, n.bridge.world.memory.control.generation,
                     Durable(cfg, n.bridge.world).control.generation;
      && NoDuplicates(n.bridge.applied)
      && (forall k :: k in n.sup.receipts && n.sup.receipts[k].response.accepted ==>
            n.sup.receipts[k].request in n.bridge.completed && k in n.bridge.applied)
      && g - 1 <= d <= g + 1
      && (!n.bridge.phase.Down? ==> g - 1 <= m <= g + 1)
  {
    NetRunKeepsWithinOne(cfg, w, es);
  }

  // ---------------------------------------- runs in which the bridge forgets no outcome

  ghost predicate BacksSup(s: Sup, m: Memory) {
    && (forall k :: k in s.receipts && s.receipts[k].response.accepted ==> Backed(m, s.receipts[k].request))
    && s.worker.generation <= m.control.generation
  }

  ghost predicate BacksAll(n: Net, m: Memory) {
    && (forall p :: p in n.replies && p.1.accepted && !p.0.action.Status? ==> Backed(m, p.0))
    && BacksSup(n.sup, m)
  }

  lemma ConcludeKeepsBacking(s: Sup, q: Request, r: Response, m: Memory)
    requires BacksSup(s, m)
    requires r.accepted && !q.action.Status? ==> Backed(m, q) && r.generation <= m.control.generation
    ensures BacksSup(Conclude(s, q, Delivered(r)).0, m)
  {
  }

  predicate IsCrash(e: NetEvent) { e.BridgeEvent? && e.happening.Crash? }

  predicate LosesOutcome(e: NetEvent) { e.BridgeEvent? && e.happening == Finish(FailedBeforeReplace) }

  /** In one process lifetime accepted journal entries are never lost. */
  lemma StepKeepsBacked(cfg: Config, s: System, e: Happening, q: Request)
    requires OpenIsPending(s) && Backed(s.world.memory, q)
    requires !s.phase.Down? && !e.Crash?
    ensures Backed(Step(cfg, s, e).world.memory, q)
  {
  }

  /** Memory and state file agree on which requests succeeded. */
  ghost predicate Mirrored(cfg: Config, s: System) {
    !s.phase.Down? ==> forall q :: Backed(s.world.memory, q) <==> Backed(Durable(cfg, s.world), q)
  }

  /** If no outcome is lost, success is durable, so it survives crashes too. */
  lemma StepKeepsMirrored(cfg: Config, s: System, e: Happening, q: Request)
    requires Journaled(cfg, s) && OpenIsPending(s) && Mirrored(cfg, s) && e != Finish(FailedBeforeReplace)
    ensures
      var t := Step(cfg, s, e);
      && (!t.phase.Down? ==> (Backed(t.world.memory, q) <==> Backed(Durable(cfg, t.world), q)))
      && (Backed(Durable(cfg, s.world), q) ==> Backed(Durable(cfg, t.world), q))
  {
    assert !s.phase.Down? ==> (Backed(s.world.memory, q) <==> Backed(Durable(cfg, s.world), q));
    if e.Begin? && s.phase.Idle? && IsMutation(e.request) && e.request.key !in s.world.memory.responses {
      var m := s.world.memory;
      var pending := Receipt(e.request, Respond(m.control, false, Pending));
      var recorded := m.(responses := m.responses[e.request.key := pending]);
      RestoreInvertsPersist(cfg.identity, recorded, StatePayload(cfg.identity, recorded));
      assert Backed(recorded, q) <==> Backed(m, q);
    } else if e.Finish? && s.phase.Answering? {
      var m := s.world.memory;
      var recorded := m.(responses := m.responses[s.phase.request.key := Receipt(s.phase.request, s.phase.response)]);
      RestoreInvertsPersist(cfg.identity, recorded, StatePayload(cfg.identity, recorded));
      assert Backed(m, q) ==> Backed(recorded, q);
    } else {
      var t := Step(cfg, s, e);
      assert t.world.stateFile == s.world.stateFile;
      var before := if s.phase.Down? then Durable(cfg, s.world) else s.world.memory;
      assert t.phase.Down? || t.world.memory.responses == before.responses;
    }
  }

  /** The journal that success is measured against: memory, or the state file if crashes may come. */
  function View(cfg: Config, s: System, durable: bool): Memory {
    if durable then Durable(cfg, s.world) else s.world.memory
  }

  ghost predicate Remembered(cfg: Config, n: Net, durable: bool) {
    && Sound(cfg, n) && OpenIsPending(n.bridge)
    && (if durable then Mirrored(cfg, n.bridge) else !n.bridge.phase.Down?)
    && BacksAll(n, View(cfg, n.bridge, durable))
  }

  lemma ViewOfStep(cfg: Config, s: System, e: Happening, durable: bool)
    requires Consistent(cfg, s) && OpenIsPending(s)
    requires if durable then Mirrored(cfg, s) && e != Finish(FailedBeforeReplace) else !s.phase.Down? && !e.Crash?
    ensures if durable then Mirrored(cfg, Step(cfg, s, e)) else !Step(cfg, s, e).phase.Down?
    ensures forall q :: Backed(View(cfg, s, durable), q) ==> Backed(View(cfg, Step(cfg, s, e), durable), q)
    ensures View(cfg, s, durable).control.generation <= View(cfg, Step(cfg, s, e), durable).control.generation
  {
    var t := Step(cfg, s, e);
    if durable {
      forall q ensures (!t.phase.Down? ==> (Backed(t.world.memory, q) <==> Backed(Durable(cfg, t.world), q)))
      ensures Backed(Durable(cfg, s.world), q) ==> Backed(Durable(cfg, t.world), q) {
        StepKeepsMirrored(cfg, s, e, q);
      }
      StepKeepsFenced(cfg, s, e);
    } else {
      forall q | Backed(s.world.memory, q) ensures Backed(t.world.memory, q) {
        StepKeepsBacked(cfg, s, e, q);
      }
      StepOfGeneration(cfg, s, e);
    }
  }

  lemma BackingGrows(n: Net, t: System, reply: Option<(Request, Response)>, m: Memory, m': Memory)
    requires BacksAll(n, m)
    requires forall q :: Backed(m, q) ==> Backed(m', q)
    requires m.control.generation <= m'.control.generation
    requires reply.Some? && reply.value.1.accepted ==> Backed(m', reply.value.0)
    ensures BacksAll(n.(bridge := t, replies := if reply.Some? then n.replies + {reply.value} else n.replies), m')
  {
  }

  lemma ReplyIsBacked(cfg: Config, s: System, e: Happening, durable: bool)
    requires Consistent(cfg, s) && Truthful(cfg, s) && OpenIsPending(s)
    requires if durable then Mirrored(cfg, s) && e != Finish(FailedBeforeReplace) else !s.phase.Down? && !e.Crash?
    requires Reply(cfg, s, e).Some? && Reply(cfg, s, e).value.1.accepted
    ensures Backed(View(cfg, Step(cfg, s, e), durable), Reply(cfg, s, e).value.0)
  {
    AcceptedReplyIsTrue(cfg, s, e);
    var q := Reply(cfg, s, e).value.0;
    assert Backed(Step(cfg, s, e).world.memory, q);
    if durable {
      StepKeepsMirrored(cfg, s, e, q);
    }
  }

  lemma BridgeMovesKeepRemembered(cfg: Config, n: Net, e: Happening, durable: bool)
    requires Remembered(cfg, n, durable)
    requires e.Begin? ==> e.request in n.sent
    requires if durable then e != Finish(FailedBeforeReplace) else !e.Crash?
    ensures Remembered(cfg, BridgeMoves(cfg, n, e), durable)
  {
    var s := n.bridge;
    var t, reply := Step(cfg, s, e), Reply(cfg, s, e);
    BridgeMovesKeepSound(cfg, n, e);
    StepKeepsOpenPending(cfg, s, e);
    ViewOfStep(cfg, s, e, durable);
    if reply.Some? && reply.value.1.accepted {
      ReplyIsBacked(cfg, s, e, durable);
    }
    BackingGrows(n, t, reply, View(cfg, s, durable), View(cfg, t, durable));
  }

  lemma ReceiveKeepsRemembered(cfg: Config, n: Net, r: Response, durable: bool)
    requires Remembered(cfg, n, durable)
    requires n.waiting.Some? && (n.waiting.value, r) in n.replies
    ensures Remembered(cfg, NetStep(cfg, n, Receive(r)), durable)
  {
    ReceiveKeepsSound(cfg, n, r);
    var q, m := n.waiting.value, View(cfg, n.bridge, durable);
    var p := (q, r);
    assert p in n.replies && HonestJournal(n.bridge.completed, m);
    if r.accepted && !q.action.Status? {
      assert Backed(m, p.0);
      assert Honest(n.bridge.completed, m.control.generation, q.key, m.responses[q.key]);
      assert TrueReply(n.bridge.completed, p.0, p.1);
    }
    ConcludeKeepsBacking(n.sup, q, r, m);
  }

  lemma NetStepKeepsRemembered(cfg: Config, n: Net, e: NetEvent, durable: bool)
    requires Remembered(cfg, n, durable)
    requires if durable then !LosesOutcome(e) else !IsCrash(e)
    ensures Remembered(cfg, NetStep(cfg, n, e), durable)
  {
    match e
    case Deliver(req, o) =>
      if req in n.sent { BridgeMovesKeepRemembered(cfg, n, Begin(req, o), durable); }
    case BridgeEvent(h) =>
      if !h.Begin? { BridgeMovesKeepRemembered(cfg, n, h, durable); }
    case Receive(r) =>
      if n.waiting.Some? && (n.waiting.value, r) in n.replies { ReceiveKeepsRemembered(cfg, n, r, durable); }
    case _ =>
      NetStepKeepsSound(cfg, n, e);
  }

  lemma {:induction false} NetRunRemembers(cfg: Config, w: Worker, es: seq<NetEvent>, durable: bool)
    requires Matches(cfg, w)
    requires forall i :: 0 <= i < |es| ==> if durable then !LosesOutcome(es[i]) else !IsCrash(es[i])
    ensures Remembered(cfg, NetAfter(cfg, w, es), durable)
    decreases |es|
  {
    if es == [] {
      assert Sound(cfg, Start(cfg, w)) by { NetRunKeepsSound(cfg, w, es); }
    } else {
      NetRunRemembers(cfg, w, es[..|es| - 1], durable);
      NetStepKeepsRemembered(cfg, NetAfter(cfg, w, es[..|es| - 1]), es[|es| - 1], durable);
    }
  }

  /** Without a bridge crash the supervisor is never ahead of the bridge, and every cached success has an
      accepted entry in the bridge's journal for the same key and request. */
  lemma SupervisorNeverAhead(cfg: Config, w: Worker, es: seq<NetEvent>)
    requires Matches(cfg, w)
    requires forall i :: 0 <= i < |es| ==> !IsCrash(es[i])
    ensures
      var n := NetAfter(cfg, w, es);
      && n.sup.worker.generation <= n.bridge.world.memory.control.generation <= n.sup.worker.generation + 1
      && forall k :: k in n.sup.receipts && n.sup.receipts[k].response.accepted ==>
           Backed(n.bridge.world.memory, n.sup.receipts[k].request)
  {
    NetRunRemembers(cfg, w, es, false);
  }

  /** With crashes the same holds of the state file, provided no outcome write was lost. */
  lemma SupervisorNeverAheadOfDisk(cfg: Config, w: Worker, es: seq<NetEvent>)
    requires Matches(cfg, w)
    requires forall i :: 0 <= i < |es| ==> !LosesOutcome(es[i])
    ensures
      var n := NetAfter(cfg, w, es);
      && n.sup.worker.generation <= Durable(cfg, n.bridge.world).control.generation <= n.sup.worker.generation + 1
      && (!n.bridge.phase.Down? ==>
            n.sup.worker.generation <= n.bridge.world.memory.control.generation <= n.sup.worker.generation + 1)
      && forall k :: k in n.sup.receipts && n.sup.receipts[k].response.accepted ==>
           Backed(Durable(cfg, n.bridge.world), n.sup.receipts[k].request)
  {
    NetRunRemembers(cfg, w, es, true);
  }

  /** One client asks twice because the first answer is lost; the outcome write of the first call was
      lost as well; then the bridge restarts. */
  function OvertakingEvents(q: Request, cb: CallbackResult, r: Response): seq<NetEvent> {
    [Client(q)]
    + [Deliver(q, Stored), BridgeEvent(Invoke), BridgeEvent(Update(cb)), BridgeEvent(EmitTrace(Written)),
       BridgeEvent(Finish(FailedBeforeReplace))]
    + [GiveUp, Client(q), Deliver(q, Stored), Receive(r), BridgeEvent(Crash)]
    + [BridgeEvent(Restart)]
  }

  /** A network step that only moves the bridge. */
  ghost predicate OnlyBridge(cfg: Config, n: Net, h: Happening, m: Net) {
    m.sup == n.sup && m.waiting == n.waiting && m.sent == n.sent && m.bridge == Step(cfg, n.bridge, h)
  }

  lemma BridgeOnly(cfg: Config, n: Net, e: NetEvent, h: Happening)
    requires
      || (e == BridgeEvent(h) && !h.Begin?)
      || (h.Begin? && e == Deliver(h.request, h.intent) && h.request in n.sent)
    ensures OnlyBridge(cfg, n, h, NetStep(cfg, n, e))
  {
  }

  lemma ServeAndLose(cfg: Config, n: Net, q: Request, cb: CallbackResult)
    requires n.bridge == Init(cfg) && q in n.sent
    requires IsMutation(q) && q.sandboxId == cfg.identity.sandboxId && cfg.maxReceipts > 0
    requires GenerationMatches(q, cfg.initial.generation) && ApplyControl(cfg.initial, q, cb).ok
    ensures
      var m := Run(Networking(cfg), n, [Deliver(q, Stored), BridgeEvent(Invoke), BridgeEvent(Update(cb)),
                                        BridgeEvent(EmitTrace(Written)), BridgeEvent(Finish(FailedBeforeReplace))]);
      && m.sup == n.sup && m.waiting == n.waiting && m.sent == n.sent && m.bridge.phase.Idle?
      && OutcomeLost(cfg, m.bridge.world, q, Respond(ApplyControl(cfg.initial, q, cb).control, true, NoFault))
  {
    var env := Environment(Stored, cb, Written, FailedBeforeReplace);
    ServeLosingOutcome(cfg, q, cb);
    EventsRefineHandle(cfg, Init(cfg), q, env);
    RunFive(
      Bridging(cfg), Init(cfg),
      Begin(q, Stored), Invoke, Update(cb), EmitTrace(Written), Finish(FailedBeforeReplace));
    RunFive(Networking(cfg), n, Deliver(q, Stored), BridgeEvent(Invoke), BridgeEvent(Update(cb)),
            BridgeEvent(EmitTrace(Written)), BridgeEvent(Finish(FailedBeforeReplace)));
    var n1 := NetStep(cfg, n, Deliver(q, Stored));
    BridgeOnly(cfg, n, Deliver(q, Stored), Begin(q, Stored));
    var n2 := NetStep(cfg, n1, BridgeEvent(Invoke));
    BridgeOnly(cfg, n1, BridgeEvent(Invoke), Invoke);
    var n3 := NetStep(cfg, n2, BridgeEvent(Update(cb)));
    BridgeOnly(cfg, n2, BridgeEvent(Update(cb)), Update(cb));
    var n4 := NetStep(cfg, n3, BridgeEvent(EmitTrace(Written)));
    BridgeOnly(cfg, n3, BridgeEvent(EmitTrace(Written)), EmitTrace(Written));
    BridgeOnly(cfg, n4, BridgeEvent(Finish(FailedBeforeReplace)), Finish(FailedBeforeReplace));
  }

  /** The client gives up, asks again, and gets the success that only the bridge's memory knows. */
  lemma AskAgain(cfg: Config, n: Net, w: Worker, q: Request, r: Response)
    requires OutcomeLost(cfg, n.bridge.world, q, r) && n.bridge.phase.Idle? && n.waiting == Some(q)
    requires n.sup == Sup(w, map[]) && q.action.Reload? && q.key != "" && q.sandboxId == w.sandboxId
    requires q.generation == w.generation + 1 && r.accepted && r.generation == q.generation > 0
    ensures
      var m := Run(Networking(cfg), n, [GiveUp, Client(q), Deliver(q, Stored), Receive(r), BridgeEvent(Crash)]);
      && m.bridge == Step(cfg, n.bridge, Crash) && m.sup.worker.generation == q.generation
      && q.key in m.sup.receipts && m.sup.receipts[q.key].response.accepted
  {
    RunFive(Networking(cfg), n, GiveUp, Client(q), Deliver(q, Stored), Receive(r), BridgeEvent(Crash));
    var n2 := NetStep(cfg, NetStep(cfg, n, GiveUp), Client(q));
    assert n2.sup == n.sup && n2.waiting == Some(q) && n2.bridge == n.bridge && q in n2.sent;
    var n3 := NetStep(cfg, n2, Deliver(q, Stored));
    assert n3.replies == n2.replies + {(q, r)} && n3.bridge == n.bridge;
  }

  /** Both conditions of the two theorems above are needed: a lost outcome write followed by a crash puts
      the supervisor a generation ahead of the bridge, and leaves its cached success without any
      accepted journal entry. */
  lemma LostOutcomeThenCrashOvertakes(cfg: Config, w: Worker, q: Request, cb: CallbackResult)
    requires Matches(cfg, w) && cfg.maxReceipts > 0 && cfg.initial.generation > 0 && cb.Returned?
    requires q.action.Reload? && q.key != "" && q.sandboxId == cfg.identity.sandboxId
    requires q.generation == cfg.initial.generation + 1 && q.checkpointRef != ""
    ensures
      var r := Respond(ApplyControl(cfg.initial, q, cb).control, true, NoFault);
      var n := NetAfter(cfg, w, OvertakingEvents(q, cb, r));
      && n.bridge.phase.Idle?
      && n.sup.worker.generation == n.bridge.world.memory.control.generation + 1
      && q.key in n.sup.receipts && n.sup.receipts[q.key].response.accepted
      && !Backed(n.bridge.world.memory, q) && !Backed(Durable(cfg, n.bridge.world), q)
  {
    var r := Respond(ApplyControl(cfg.initial, q, cb).control, true, NoFault);
    var serve := [Deliver(q, Stored), BridgeEvent(Invoke), BridgeEvent(Update(cb)), BridgeEvent(EmitTrace(Written)),
                  BridgeEvent(Finish(FailedBeforeReplace))];
    var retry := [GiveUp, Client(q), Deliver(q, Stored), Receive(r), BridgeEvent(Crash)];
    var step, n0 := Networking(cfg), Start(cfg, w);
    RunOne(step, n0, Client(q));
    var n1 := Run(step, n0, [Client(q)]);
    assert n1.waiting == Some(q) && n1.sup == Sup(w, map[]) && q in n1.sent && n1.bridge == Init(cfg);
    ServeAndLose(cfg, n1, q, cb);
    var n6 := Run(step, n1, serve);
    RunConcat(step, n0, [Client(q)], serve);
    AskAgain(cfg, n6, w, q, r);
    var n11 := Run(step, n6, retry);
    RunConcat(step, n0, [Client(q)] + serve, retry);
    RunOne(step, n11, BridgeEvent(Restart));
    BridgeOnly(cfg, n11, BridgeEvent(Restart), Restart);
    RunConcat(step, n0, [Client(q)] + serve + retry, [BridgeEvent(Restart)]);
    RebootForgets(cfg, n6.bridge, q, r);
  }
}
