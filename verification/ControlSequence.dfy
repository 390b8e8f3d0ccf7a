/**
 The client side of the control protocol (`_control_worker`): one lifecycle
 command becomes a sequence of bridge requests with derived keys and a threaded
 checkpoint reference. Requests and replies may be lost and either journal
 write may fail; the client then runs the whole command again.
 */
module ControlSequence {
  import opened Common
  import opened Bridge

  /** `Offline` stands for validate, compile and prepare, which need no worker. */
  datatype Command =
    | Offline | Launch | PauseWorker | CheckpointWorker | SleepWorker | WakeWorker | Terminate | Single(action: Action)

  function SubActions(c: Command): (r: seq<Action>)
    ensures (r == [] <==> c.Offline?) && (Status in r ==> |r| == 1)
  {
    match c
    case Offline => []
    case Launch => [Status]
    case PauseWorker => [PreparePause, Pause]
    case CheckpointWorker => [PreparePause, Checkpoint, Resume]
    case SleepWorker => [PreparePause, Checkpoint, Offload]
    case WakeWorker => [Reload, Resume]
    case Terminate => [Stop]
    case Single(a) => [a]
  }

  function ActionName(a: Action): string {
    match a
    case Status => "status"
    case PreparePause => "prepare_pause"
    case Checkpoint => "checkpoint"
    case Pause => "pause"
    case Sleep => "sleep"
    case Offload => "offload"
    case Reload => "reload"
    case Resume => "resume"
    case Stop => "stop"
    case WeightUpdate => "weight_update"
    case Unsupported(name) => name
  }

  /** One command with the environment it was issued in; `base` is the hashed key material. */
  datatype Plan = Plan(command: Command, base: string, sandboxId: string, generation: int, deviceId: string,
                       profile: string, bindingId: string, share: real, policyVersion: string)

  function RequestOf(p: Plan, a: Action, ref: string): Request {
    Request(a, p.base + ":" + ActionName(a), p.sandboxId, p.generation, ref, p.deviceId, p.profile, p.bindingId,
            Some(p.share), p.policyVersion, false)
  }

  datatype Delivery = Arrived | RequestLost | ReplyLost

  datatype Link = Link(delivery: Delivery, intent: PersistOutcome, outcome: PersistOutcome)

  const RELIABLE := Link(Arrived, Stored, Stored)

  /** Links beyond the given ones are reliable, so `[]` is an uninterrupted attempt. */
  function LinkAt(links: seq<Link>, i: nat): Link {
    if i < |links| then links[i] else RELIABLE
  }

  /** How the training process reacts to a request; each request reaches it at most once. */
  type Reaction = Request -> (CallbackResult, EmitOutcome)

  function Surroundings(react: Reaction, req: Request, l: Link): Environment {
    var (cb, emit) := react(req);
    Environment(l.intent, cb, emit, l.outcome)
  }

  /** What serving one request did; `ran` lists the request if `_apply` ran for it. */
  datatype Served = Served(world: World, response: Response, ran: seq<Request>)

  type Server = (World, Request, Link) -> Served

  function Serve(cfg: Config, react: Reaction, w: World, req: Request, l: Link): Served {
    var (w', r) := Handle(cfg, w, req, Surroundings(react, req, l));
    Served(w', r, if IsMutation(req) && BeginMutation(cfg, w, req, l.intent).1.Proceed? then [req] else [])
  }

  /** The bridge as seen by a client. */
  function BridgeServer(cfg: Config, react: Reaction): Server {
    (w, req, l) => Serve(cfg, react, w, req, l)
  }

  datatype Outcome =
    | Succeeded(response: Option<Response>)   // exit code 0
    | Rejected(fault: Fault)                  // exit code 75 if not confirmed, otherwise 1
    | TransportUnknown                        // exit code 75
    | NoSocket                                // exit code 69

  /** What one attempt did: the bridge afterwards, the requests `_apply` ran for, the payloads sent and the successes
      heard. */
  datatype Attempt =
    Attempt(world: World, ran: seq<Request>, sent: seq<Request>, heard: seq<Response>, outcome: Outcome)

  function NextRef(r: Response, ref: string): string {
    if r.checkpointRef != "" then r.checkpointRef else ref
  }

  /** A sequence of sub-actions and how each becomes a request. */
  datatype Script = Script(actions: seq<Action>, build: (Action, string) -> Request)

  ghost predicate ValidScript(k: Script) {
    && (Status in k.actions ==> |k.actions| == 1)
    && (forall a, ref :: k.build(a, ref).action == a)
  }

  function ScriptOf(p: Plan): Script {
    Script(SubActions(p.command), (a, ref) => RequestOf(p, a, ref))
  }

  function Drive(serve: Server, k: Script, w: World, links: seq<Link>, i: nat, ref: string,
      last: Option<Response>): Attempt
    requires i <= |k.actions|
    decreases |k.actions| - i
  {
    if i == |k.actions| then Attempt(w, [], [], [], Succeeded(last))
    else
      var l := LinkAt(links, i);
      var req := k.build(k.actions[i], ref);
      if l.delivery.RequestLost? then Attempt(w, [], [req], [], TransportUnknown)
      else
        var s := serve(w, req, l);
        if l.delivery.ReplyLost? then Attempt(s.world, s.ran, [req], [], TransportUnknown)
        else if !s.response.accepted then Attempt(s.world, s.ran, [req], [], Rejected(s.response.fault))
        else
          var rest := Drive(serve, k, s.world, links, i + 1, NextRef(s.response, ref), Some(s.response));
          Attempt(rest.world, s.ran + rest.ran, [req] + rest.sent, [s.response] + rest.heard, rest.outcome)
  }

  /** The last nonempty checkpoint reference that was heard, or the given one. */
  function LatestRef(heard: seq<Response>, ref: string): string {
    if heard == [] then ref
    else if heard[|heard| - 1].checkpointRef != "" then heard[|heard| - 1].checkpointRef
    else LatestRef(heard[..|heard| - 1], ref)
  }

  lemma {:induction false} LatestRefFrom(first: Response, heard: seq<Response>, ref: string)
    ensures LatestRef([first] + heard, ref) == LatestRef(heard, NextRef(first, ref))
    decreases |heard|
  {
    var all := [first] + heard;
    if heard == [] {
      assert all == [first] && [first][..0] == [];
    } else {
      assert all[..|all| - 1] == [first] + heard[..|heard| - 1];
      LatestRefFrom(first, heard[..|heard| - 1], ref);
    }
  }

  /** The attempt sent the sub-actions from number `i` on in order, each with the latest checkpoint reference, and every
      one but the last was answered with success; an attempt that succeeded sent all of them. */
  ghost predicate InOrder(k: Script, i: nat, ref: string, last: Option<Response>, a: Attempt) {
    && |a.heard| <= |a.sent| <= |k.actions| - i && |a.sent| <= |a.heard| + 1
    && (forall j :: 0 <= j < |a.sent| ==> a.sent[j] == k.build(k.actions[i + j], LatestRef(a.heard[..j], ref)))
    && (forall j :: 0 <= j < |a.heard| ==> a.heard[j].accepted)
    && (if a.outcome.Succeeded? then
          && |a.sent| == |a.heard| == |k.actions| - i
          && a.outcome.response == if a.heard == [] then last else Some(a.heard[|a.heard| - 1])
        else |a.sent| == |a.heard| + 1)
  }

  lemma InOrderFrom(k: Script, i: nat, ref: string, last: Option<Response>, r: Response, rest: Attempt, a: Attempt)
    requires i < |k.actions| && r.accepted && InOrder(k, i + 1, NextRef(r, ref), Some(r), rest)
    requires a.sent == [k.build(k.actions[i], ref)] + rest.sent && a.heard == [r] + rest.heard
    requires a.outcome == rest.outcome
    ensures InOrder(k, i, ref, last, a)
  {
    forall j | 0 <= j < |a.sent| ensures a.sent[j] == k.build(k.actions[i + j], LatestRef(a.heard[..j], ref)) {
      if j > 0 {
        assert a.heard[..j] == [r] + rest.heard[..j - 1];
        LatestRefFrom(r, rest.heard[..j - 1], ref);
      }
    }
  }

  lemma {:induction false} DriveInOrder(serve: Server, k: Script, w: World, links: seq<Link>, i: nat, ref: string,
      last: Option<Response>)
    requires i <= |k.actions|
    ensures InOrder(k, i, ref, last, Drive(serve, k, w, links, i, ref, last))
    decreases |k.actions| - i
  {
    if i < |k.actions| && LinkAt(links, i).delivery.Arrived? {
      var s := serve(w, k.build(k.actions[i], ref), LinkAt(links, i));
      if s.response.accepted {
        var next := NextRef(s.response, ref);
        DriveInOrder(serve, k, s.world, links, i + 1, next, Some(s.response));
        var rest := Drive(serve, k, s.world, links, i + 1, next, Some(s.response));
        InOrderFrom(k, i, ref, last, s.response, rest, Drive(serve, k, w, links, i, ref, last));
      }
    }
  }

  /** An attempt ends without a verdict exactly when the last request or its reply was lost, and with a rejection
      exactly when the last request was refused. */
  lemma {:induction false} DriveEnds(serve: Server, k: Script, w: World, links: seq<Link>, i: nat, ref: string,
      last: Option<Response>)
    requires i < |k.actions|
    ensures
      var a := Drive(serve, k, w, links, i, ref, last);
      && 0 < |a.sent| <= |k.actions| - i && !a.outcome.NoSocket?
      && (a.outcome.TransportUnknown? <==> !LinkAt(links, i + |a.sent| - 1).delivery.Arrived?)
      && (a.outcome.Rejected? <==> LinkAt(links, i + |a.sent| - 1).delivery.Arrived? && |a.heard| < |a.sent|)
    decreases |k.actions| - i
  {
    if LinkAt(links, i).delivery.Arrived? {
      var s := serve(w, k.build(k.actions[i], ref), LinkAt(links, i));
      if s.response.accepted && i + 1 < |k.actions| {
        DriveEnds(serve, k, s.world, links, i + 1, NextRef(s.response, ref), Some(s.response));
      }
    }
  }

  /** One call of `_control_worker`. */
  function Issue(serve: Server, k: Script, w: World, links: seq<Link>, ref: string): Attempt {
    Drive(serve, k, w, links, 0, ref, None)
  }

  method ControlWorker(
    bridge: VerlWorkerBridge, socket: bool, react: Reaction, p: Plan, links: seq<Link>, initialRef: string)
    returns (outcome: Outcome)
    modifies bridge
    ensures p.command.Offline? ==> outcome == Succeeded(None) && bridge.Contents() == old(bridge.Contents())
    ensures !p.command.Offline? && !socket ==> outcome == NoSocket && bridge.Contents() == old(bridge.Contents())
    ensures !p.command.Offline? && socket ==>
      var a := Issue(BridgeServer(bridge.cfg, react), ScriptOf(p), old(bridge.Contents()), links, initialRef);
      bridge.Contents() == a.world && outcome == a.outcome
  {
    if p.command.Offline? { return Succeeded(None); }
    if !socket { return NoSocket; }
    var actions := SubActions(p.command);
    var ref, last := initialRef, None;
    ghost var serve, script := BridgeServer(bridge.cfg, react), ScriptOf(p);
    ghost var whole := Issue(serve, script, bridge.Contents(), links, ref);
    var i := 0;
    while i < |actions|
      invariant 0 <= i <= |actions|
      invariant
        var rest := Drive(serve, script, bridge.Contents(), links, i, ref, last);
        rest.world == whole.world && rest.outcome == whole.outcome
    {
      var link := LinkAt(links, i);
      if link.delivery.RequestLost? { return TransportUnknown; }
      var payload := RequestOf(p, actions[i], ref);
      var response := bridge.HandleRequest(payload, Surroundings(react, payload, link));
      if link.delivery.ReplyLost? { return TransportUnknown; }
      if !response.accepted { return Rejected(response.fault); }
      ref, last := NextRef(response, ref), Some(response);
      i := i + 1;
    }
    outcome := Succeeded(last);
  }

  // ------------------------------------------------------------ one request, twice

  /** Everything but the state file. */
  ghost predicate SameCore(v: World, w: World) {
    v.memory == w.memory && v.trace == w.trace
  }

  ghost predicate Extends(v: World, w: World) {
    forall k :: k in v.memory.responses ==> k in w.memory.responses && w.memory.responses[k] == v.memory.responses[k]
  }

  ghost predicate SameServed(a: Served, b: Served) {
    SameCore(a.world, b.world) && a.response == b.response && a.ran == b.ran
  }

  /** The state file has no influence on how a request is served. */
  lemma ServeIgnoresStateFile(cfg: Config, react: Reaction, v: World, w: World, req: Request, l: Link)
    requires SameCore(v, w)
    ensures SameServed(Serve(cfg, react, v, req, l), Serve(cfg, react, w, req, l))
  {
    var env := Surroundings(react, req, l);
    BeginIgnoresStateFile(cfg, v, w, req, l.intent);
    var v1, w1 := BeginMutation(cfg, v, req, l.intent).0, BeginMutation(cfg, w, req, l.intent).0;
    ApplyIgnoresStateFile(v1, w1, req, env.callback, env.emit);
    var v2, w2 := Apply(v1, req, env.callback, env.emit), Apply(w1, req, env.callback, env.emit);
    FinishIgnoresStateFile(cfg, v2.0, w2.0, req, v2.1, env.outcome);
  }

  lemma BeginIgnoresStateFile(cfg: Config, v: World, w: World, req: Request, o: PersistOutcome)
    requires SameCore(v, w)
    ensures
      var a, b := BeginMutation(cfg, v, req, o), BeginMutation(cfg, w, req, o);
      SameCore(a.0, b.0) && a.1 == b.1
  {
  }

  lemma ApplyIgnoresStateFile(v: World, w: World, req: Request, cb: CallbackResult, o: EmitOutcome)
    requires SameCore(v, w)
    ensures
      var a, b := Apply(v, req, cb, o), Apply(w, req, cb, o);
      SameCore(a.0, b.0) && a.1 == b.1
  {
  }

  lemma FinishIgnoresStateFile(cfg: Config, v: World, w: World, req: Request, r: Response, o: PersistOutcome)
    requires SameCore(v, w)
    ensures
      var a, b := FinishMutation(cfg, v, req, r, o), FinishMutation(cfg, w, req, r, o);
      SameCore(a.0, b.0) && a.1 == b.1
  {
  }

  lemma ServeExtends(cfg: Config, react: Reaction, w: World, req: Request, l: Link)
    ensures Extends(w, Serve(cfg, react, w, req, l).world)
  {
  }

  /** Over an unreliable link a request either has no effect and is refused, or has its normal effect. */
  ghost predicate AllOrNothing(w: World, actual: Served, clean: Served) {
    || (SameCore(actual.world, w) && !actual.response.accepted && actual.ran == [])
    || (SameCore(actual.world, clean.world) && actual.ran == clean.ran
        && (actual.response == clean.response || !actual.response.accepted))
  }

  lemma ServeIsAllOrNothing(cfg: Config, react: Reaction, w: World, req: Request, l: Link)
    ensures AllOrNothing(w, Serve(cfg, react, w, req, l), Serve(cfg, react, w, req, RELIABLE))
  {
  }

  /** Serving a request again changes nothing, runs nothing and gives the same answer. */
  ghost predicate Repeats(v: World, again: Served, first: Served) {
    SameCore(again.world, v) && again.response == first.response && again.ran == []
  }

  lemma ServedTwice(cfg: Config, react: Reaction, w: World, req: Request, v: World)
    requires SameCore(v, Serve(cfg, react, w, req, RELIABLE).world)
    ensures Repeats(v, Serve(cfg, react, v, req, RELIABLE), Serve(cfg, react, w, req, RELIABLE))
  {
  }

  /** An accepted mutation is repeated harmlessly even after later requests. */
  lemma ServedLater(cfg: Config, react: Reaction, w: World, req: Request, v: World)
    requires !req.action.Status?
    requires Serve(cfg, react, w, req, RELIABLE).response.accepted
    requires Extends(Serve(cfg, react, w, req, RELIABLE).world, v)
    ensures Repeats(v, Serve(cfg, react, v, req, RELIABLE), Serve(cfg, react, w, req, RELIABLE))
  {
    var u := Serve(cfg, react, w, req, RELIABLE);
    assert req.key in u.world.memory.responses && u.world.memory.responses[req.key] == Receipt(req, u.response);
  }

  // What the retry argument needs from a server, one clause at a time.

  ghost predicate CoreDecides(serve: Server, v: World, w: World, req: Request, l: Link) {
    SameCore(v, w) ==> SameServed(serve(v, req, l), serve(w, req, l))
  }

  ghost predicate OnlyAdds(serve: Server, w: World, req: Request, l: Link) {
    Extends(w, serve(w, req, l).world)
  }

  ghost predicate Atomic(serve: Server, w: World, req: Request, l: Link) {
    AllOrNothing(w, serve(w, req, l), serve(w, req, RELIABLE))
  }

  ghost predicate Repeatable(serve: Server, w: World, req: Request, v: World) {
    var first := serve(w, req, RELIABLE);
    (|| SameCore(v, first.world)
     || (!req.action.Status? && first.response.accepted && Extends(first.world, v))) ==>
      Repeats(v, serve(v, req, RELIABLE), first)
  }

  ghost predicate Idempotent(serve: Server) {
    && (forall v, w, req, l :: CoreDecides(serve, v, w, req, l))
    && (forall w, req, l :: OnlyAdds(serve, w, req, l))
    && (forall w, req, l :: Atomic(serve, w, req, l))
    && (forall w, req, v :: Repeatable(serve, w, req, v))
  }

  lemma BridgeIsIdempotent(cfg: Config, react: Reaction)
    ensures Idempotent(BridgeServer(cfg, react))
  {
    var serve := BridgeServer(cfg, react);
    forall v, w, req, l ensures CoreDecides(serve, v, w, req, l) {
      if SameCore(v, w) { ServeIgnoresStateFile(cfg, react, v, w, req, l); }
    }
    forall w, req, l ensures OnlyAdds(serve, w, req, l) { ServeExtends(cfg, react, w, req, l); }
    forall w, req, l ensures Atomic(serve, w, req, l) { ServeIsAllOrNothing(cfg, react, w, req, l); }
    forall w, req, v ensures Repeatable(serve, w, req, v) { BridgeRepeats(cfg, react, w, req, v); }
  }

  lemma BridgeRepeats(cfg: Config, react: Reaction, w: World, req: Request, v: World)
    ensures Repeatable(BridgeServer(cfg, react), w, req, v)
  {
    var first := Serve(cfg, react, w, req, RELIABLE);
    if SameCore(v, first.world) {
      ServedTwice(cfg, react, w, req, v);
    } else if !req.action.Status? && first.response.accepted && Extends(first.world, v) {
      ServedLater(cfg, react, w, req, v);
    }
  }

  // -------------------------------------------------------------- whole attempts

  ghost predicate SameAttempt(a: Attempt, b: Attempt) {
    SameCore(a.world, b.world) && a.ran == b.ran && a.sent == b.sent && a.outcome == b.outcome
  }

  lemma {:induction false} DriveIgnoresStateFile(serve: Server, k: Script, v: World, w: World, links: seq<Link>, i: nat,
      ref: string, last: Option<Response>)
    requires Idempotent(serve) && i <= |k.actions| && SameCore(v, w)
    ensures SameAttempt(Drive(serve, k, v, links, i, ref, last), Drive(serve, k, w, links, i, ref, last))
    decreases |k.actions| - i
  {
    if i < |k.actions| {
      var l, req := LinkAt(links, i), k.build(k.actions[i], ref);
      assert CoreDecides(serve, v, w, req, l);
      var s := serve(v, req, l);
      var next := NextRef(s.response, ref);
      DriveIgnoresStateFile(serve, k, s.world, serve(w, req, l).world, links, i + 1, next, Some(s.response));
    }
  }

  lemma {:induction false} DriveExtends(serve: Server, k: Script, w: World, links: seq<Link>, i: nat, ref: string,
      last: Option<Response>)
    requires Idempotent(serve) && i <= |k.actions|
    ensures Extends(w, Drive(serve, k, w, links, i, ref, last).world)
    decreases |k.actions| - i
  {
    if i < |k.actions| {
      var l, req := LinkAt(links, i), k.build(k.actions[i], ref);
      assert OnlyAdds(serve, w, req, l);
      var s := serve(w, req, l);
      DriveExtends(serve, k, s.world, links, i + 1, NextRef(s.response, ref), Some(s.response));
    }
  }

  /** `b` after `a` amounts to `c`: together they ran what `c` ran and sent no payload `c` does not send. */
  ghost predicate Absorbs(a: Attempt, b: Attempt, c: Attempt) {
    && SameCore(b.world, c.world) && b.outcome == c.outcome && b.sent == c.sent
    && a.ran + b.ran == c.ran && a.sent <= c.sent
  }

  /** An interrupted attempt followed by an uninterrupted one amounts to the uninterrupted one alone. */
  lemma {:induction false} DriveAbsorbs(serve: Server, k: Script, w: World, links: seq<Link>, i: nat, ref: string,
      last: Option<Response>)
    requires Idempotent(serve) && ValidScript(k) && i <= |k.actions|
    ensures
      var a := Drive(serve, k, w, links, i, ref, last);
      Absorbs(a, Drive(serve, k, a.world, [], i, ref, last), Drive(serve, k, w, [], i, ref, last))
    decreases |k.actions| - i
  {
    if i < |k.actions| {
      var l, req := LinkAt(links, i), k.build(k.actions[i], ref);
      var s, clean := serve(w, req, l), serve(w, req, RELIABLE);
      assert Atomic(serve, w, req, l);
      if l.delivery.RequestLost? {
      } else if l.delivery.Arrived? && s.response.accepted {
        StepAbsorbs(serve, k, w, links, i, ref, last);
      } else if SameCore(s.world, w) && s.ran == [] {
        DriveIgnoresStateFile(serve, k, s.world, w, [], i, ref, last);
      } else {
        assert Repeatable(serve, w, req, s.world);
        var again := serve(s.world, req, RELIABLE);
        var next := NextRef(clean.response, ref);
        DriveIgnoresStateFile(serve, k, again.world, clean.world, [], i + 1, next, Some(clean.response));
      }
    }
  }

  /** The case in which the attempt goes on after step `i`. */
  lemma {:induction false} StepAbsorbs(serve: Server, k: Script, w: World, links: seq<Link>, i: nat, ref: string,
      last: Option<Response>)
    requires Idempotent(serve) && ValidScript(k) && i < |k.actions| && LinkAt(links, i).delivery.Arrived?
    requires serve(w, k.build(k.actions[i], ref), LinkAt(links, i)).response.accepted
    ensures
      var a := Drive(serve, k, w, links, i, ref, last);
      Absorbs(a, Drive(serve, k, a.world, [], i, ref, last), Drive(serve, k, w, [], i, ref, last))
    decreases |k.actions| - i, 0
  {
    var l, req := LinkAt(links, i), k.build(k.actions[i], ref);
    var s, clean := serve(w, req, l), serve(w, req, RELIABLE);
    assert Atomic(serve, w, req, l);
    var r, ref' := s.response, NextRef(s.response, ref);
    DriveAbsorbs(serve, k, s.world, links, i + 1, ref', Some(r));
    DriveIgnoresStateFile(serve, k, s.world, clean.world, [], i + 1, ref', Some(r));
    DriveExtends(serve, k, s.world, links, i + 1, ref', Some(r));
    var v := Drive(serve, k, s.world, links, i + 1, ref', Some(r)).world;
    assert Repeatable(serve, w, req, v);
    var again := serve(v, req, RELIABLE);
    DriveIgnoresStateFile(serve, k, again.world, v, [], i + 1, ref', Some(r));
  }

  /** The bridge after a number of attempts of the same command, everything they ran, and what each sent. */
  function Attempts(serve: Server, k: Script, w: World, tries: seq<seq<Link>>, ref: string)
    : (World, seq<Request>, seq<seq<Request>>)
    decreases |tries|
  {
    if tries == [] then (w, [], [])
    else
      var a := Issue(serve, k, w, tries[0], ref);
      var (v, ran, sent) := Attempts(serve, k, a.world, tries[1..], ref);
      (v, a.ran + ran, [a.sent] + sent)
  }

  /** What retrying achieves, compared with an uninterrupted run `clean`. */
  ghost predicate Converges(serve: Server, k: Script, w: World, tries: seq<seq<Link>>, ref: string) {
    var (v, ran, sent) := Attempts(serve, k, w, tries, ref);
    var final, clean := Issue(serve, k, v, [], ref), Issue(serve, k, w, [], ref);
    && SameCore(final.world, clean.world) && final.outcome == clean.outcome
    && final.sent == clean.sent && (forall j :: 0 <= j < |sent| ==> sent[j] <= clean.sent)
    && ran + final.ran == clean.ran
  }

  lemma {:induction false} AttemptsConverge(serve: Server, k: Script, w: World, tries: seq<seq<Link>>, ref: string)
    requires Idempotent(serve) && ValidScript(k)
    ensures Converges(serve, k, w, tries, ref)
    decreases |tries|
  {
    if tries != [] {
      var a := Issue(serve, k, w, tries[0], ref);
      DriveAbsorbs(serve, k, w, tries[0], 0, ref, None);
      AttemptsConverge(serve, k, a.world, tries[1..], ref);
      var (v, ran, _) := Attempts(serve, k, a.world, tries[1..], ref);
      var final := Issue(serve, k, v, [], ref);
      assert (a.ran + ran) + final.ran == a.ran + (ran + final.ran);
    }
  }

  /** Retry convergence. However many attempts were interrupted, wherever requests or replies were lost or
      journal writes failed, one uninterrupted attempt then ends in the state and with the outcome of a
      single uninterrupted run; every attempt sent a prefix of that run's payloads; and all attempts
      together ran each sub-action as that run does: once, in order. It holds for every reaction of
      the training process, failures included. */
  lemma RetriesConverge(cfg: Config, react: Reaction, p: Plan, w: World, tries: seq<seq<Link>>, ref: string)
    ensures Converges(BridgeServer(cfg, react), ScriptOf(p), w, tries, ref)
  {
    BridgeIsIdempotent(cfg, react);
    AttemptsConverge(BridgeServer(cfg, react), ScriptOf(p), w, tries, ref);
  }

  // -------------------------------------------------------------- sleep, then wake

  /** Every callback succeeds and every event is written. */
  ghost predicate Healthy(react: Reaction) {
    forall req ::
      && react(req).0.Returned? && react(req).0.prepared && react(req).0.checkpointRef != ""
      && react(req).1.Written?
  }

  /** A fresh, matching request whose mutation succeeds is accepted and recorded. */
  lemma FreshRequest(cfg: Config, react: Reaction, w: World, req: Request, c: Control)
    requires Healthy(react) && IsMutation(req) && req.key !in w.memory.responses
    requires req.sandboxId == cfg.identity.sandboxId && GenerationMatches(req, w.memory.control.generation)
    requires |w.memory.responses| < cfg.maxReceipts
    requires ApplyControl(w.memory.control, req, react(req).0) == Applied(c, true)
    ensures
      var s := Serve(cfg, react, w, req, RELIABLE);
      && s.response == Respond(c, true, NoFault) && s.world.memory.control == c
      && s.world.memory.responses.Keys == w.memory.responses.Keys + {req.key}
      && |s.world.memory.responses| == |w.memory.responses| + 1
  {
    var s := Serve(cfg, react, w, req, RELIABLE);
    var m := w.memory.responses;
    var pending := Receipt(req, Respond(c, false, Pending));
    assert s.world.memory.responses == m[req.key := pending][req.key := Receipt(req, s.response)];
    assert s.world.memory.responses.Keys == m.Keys + {req.key};
    assert |m.Keys + {req.key}| == |m.Keys| + 1;
  }

  function Key(p: Plan, a: Action): string {
    p.base + ":" + ActionName(a)
  }

  lemma KeysDiffer(p: Plan, a: Action, q: Plan, b: Action)
    requires |p.base| == |q.base| && (p.base != q.base || ActionName(a) != ActionName(b))
    ensures Key(p, a) != Key(q, b)
  {
    assert Key(p, a)[..|p.base|] == p.base && Key(q, b)[..|q.base|] == q.base;
    assert Key(p, a)[|p.base| + 1..] == ActionName(a) && Key(q, b)[|q.base| + 1..] == ActionName(b);
  }

  /** A client of a healthy bridge: what the following proofs know about its parts. */
  datatype Client =
    Client(cfg: Config, react: Reaction, plan: Plan, serve: Server, script: Script, key: Action -> string)

  ghost predicate Builds(c: Client, a: Action, ref: string) {
    var req, p := c.script.build(a, ref), c.plan;
    req == Request(a, c.key(a), p.sandboxId, p.generation, ref, p.deviceId, p.profile, p.bindingId,
                   Some(p.share), p.policyVersion, false)
  }

  ghost predicate Serves(c: Client, w: World, req: Request) {
    c.serve(w, req, RELIABLE) == Serve(c.cfg, c.react, w, req, RELIABLE)
  }

  ghost predicate Represents(c: Client) {
    && Healthy(c.react) && c.plan.sandboxId == c.cfg.identity.sandboxId
    && (forall a, ref :: Builds(c, a, ref))
    && (forall w, req :: Serves(c, w, req))
    && (forall a :: c.key(a) != "")
  }

  function ClientOf(cfg: Config, react: Reaction, p: Plan): Client {
    Client(cfg, react, p, BridgeServer(cfg, react), ScriptOf(p), a => Key(p, a))
  }

  lemma ClientRepresents(cfg: Config, react: Reaction, p: Plan)
    requires Healthy(react) && p.sandboxId == cfg.identity.sandboxId
    ensures Represents(ClientOf(cfg, react, p))
  {
  }

  function Uninterrupted(c: Client, w: World, ref: string): Attempt {
    Issue(c.serve, c.script, w, [], ref)
  }

  /** The journal has room for the whole command and none of its keys. */
  ghost predicate Fits(c: Client, w: World) {
    && |w.memory.responses| + |c.script.actions| <= c.cfg.maxReceipts
    && (forall a :: a in c.script.actions ==> c.key(a) !in w.memory.responses)
    && (forall a, b :: a in c.script.actions && b in c.script.actions && a != b ==> c.key(a) != c.key(b))
  }

  /** One accepted step of an uninterrupted attempt, leading to the bridge `v`. */
  lemma Advance(c: Client, w: World, i: nat, ref: string, last: Option<Response>, next: Control)
    returns (v: World)
    requires Represents(c) && i < |c.script.actions|
    requires
      var a := c.script.actions[i];
      && !a.Status? && a != Unsupported("")
      && c.key(a) !in w.memory.responses && |w.memory.responses| < c.cfg.maxReceipts
      && (|| c.plan.generation == w.memory.control.generation
          || (a.Reload? && c.plan.generation == w.memory.control.generation + 1))
      && var req := c.script.build(a, ref);
         ApplyControl(w.memory.control, req, c.react(req).0) == Applied(next, true)
    ensures
      var r := Respond(next, true, NoFault);
      var here := Drive(c.serve, c.script, w, [], i, ref, last);
      var rest := Drive(c.serve, c.script, v, [], i + 1, NextRef(r, ref), Some(r));
      here.world == rest.world && here.outcome == rest.outcome
    ensures v.memory.control == next
    ensures v.memory.responses.Keys == w.memory.responses.Keys + {c.key(c.script.actions[i])}
    ensures |v.memory.responses| == |w.memory.responses| + 1
  {
    var a := c.script.actions[i];
    var req := c.script.build(a, ref);
    assert Builds(c, a, ref) && Serves(c, w, req);
    FreshRequest(c.cfg, c.react, w, req, next);
    v := c.serve(w, req, RELIABLE).world;
  }

  function AsleepFrom(c: Control, ref: string): Control {
    c.(safePoint := true, ready := false, checkpointRef := ref, state := Sleeping, offloaded := true)
  }

  /** The first step of a pause, checkpoint or sleep: the worker is prepared. */
  lemma {:induction false} FirstPrepares(c: Client, w: World, ref: string)
    returns (v: World, mid: string, last: Response)
    requires Represents(c) && c.script.actions != [] && c.script.actions[0] == PreparePause
    requires Fits(c, w) && c.plan.generation == w.memory.control.generation
    ensures
      var here, rest := Uninterrupted(c, w, ref), Drive(c.serve, c.script, v, [], 1, mid, Some(last));
      here.world == rest.world && here.outcome == rest.outcome
    ensures v.memory.control == w.memory.control.(safePoint := true, ready := false)
    ensures v.memory.responses.Keys == w.memory.responses.Keys + {c.key(PreparePause)}
    ensures |v.memory.responses| == |w.memory.responses| + 1
    ensures mid == NextRef(last, ref) && last.checkpointRef == w.memory.control.checkpointRef
  {
    assert Builds(c, PreparePause, ref);
    var c1 := w.memory.control.(safePoint := true, ready := false);
    v := Advance(c, w, 0, ref, None, c1);
    last := Respond(c1, true, NoFault);
    mid := NextRef(last, ref);
  }

  /** A checkpoint of a prepared worker as second step. */
  lemma {:induction false} SecondCheckpoints(c: Client, w: World, ref: string, last: Response)
    returns (v: World, next: Response, saved: string)
    requires Represents(c) && |c.script.actions| > 1 && c.script.actions[1] == Checkpoint
    requires c.key(Checkpoint) !in w.memory.responses && |w.memory.responses| < c.cfg.maxReceipts
    requires c.plan.generation == w.memory.control.generation && w.memory.control.safePoint
    ensures
      var here := Drive(c.serve, c.script, w, [], 1, ref, Some(last));
      var rest := Drive(c.serve, c.script, v, [], 2, saved, Some(next));
      here.world == rest.world && here.outcome == rest.outcome
    ensures saved != "" && saved == c.react(c.script.build(Checkpoint, ref)).0.checkpointRef
    ensures v.memory.control == w.memory.control.(checkpointRef := saved)
    ensures v.memory.responses.Keys == w.memory.responses.Keys + {c.key(Checkpoint)}
    ensures |v.memory.responses| == |w.memory.responses| + 1
  {
    assert Builds(c, Checkpoint, ref);
    saved := c.react(c.script.build(Checkpoint, ref)).0.checkpointRef;
    var c2 := w.memory.control.(checkpointRef := saved);
    v := Advance(c, w, 1, ref, Some(last), c2);
    next := Respond(c2, true, NoFault);
  }

  /** The first two steps of a checkpoint or sleep: the worker is prepared and checkpointed. */
  lemma {:induction false} ThenCheckpoints(c: Client, w: World, ref: string)
    returns (v: World, last: Response, saved: string)
    requires Represents(c) && |c.script.actions| > 1 && c.script.actions[0] == PreparePause
    requires c.script.actions[1] == Checkpoint && Fits(c, w) && c.plan.generation == w.memory.control.generation
    ensures
      var here, rest := Uninterrupted(c, w, ref), Drive(c.serve, c.script, v, [], 2, saved, Some(last));
      here.world == rest.world && here.outcome == rest.outcome
    ensures
      var asked := if w.memory.control.checkpointRef != "" then w.memory.control.checkpointRef else ref;
      saved != "" && saved == c.react(c.script.build(Checkpoint, asked)).0.checkpointRef
    ensures v.memory.control == w.memory.control.(safePoint := true, ready := false, checkpointRef := saved)
    ensures v.memory.responses.Keys == w.memory.responses.Keys + {c.key(PreparePause)} + {c.key(Checkpoint)}
    ensures |v.memory.responses| == |w.memory.responses| + 2
  {
    var w1, ref1, r1 := FirstPrepares(c, w, ref);
    v, last, saved := SecondCheckpoints(c, w1, ref1, r1);
  }

  ghost predicate FellAsleep(c: Client, w: World, a: Attempt) {
    var saved := a.world.memory.control.checkpointRef;
    && a.outcome.Succeeded? && saved != ""
    && a.world.memory.control == AsleepFrom(w.memory.control, saved)
    && a.world.memory.responses.Keys ==
       w.memory.responses.Keys + {c.key(PreparePause)} + {c.key(Checkpoint)} + {c.key(Offload)}
    && |a.world.memory.responses| == |w.memory.responses| + 3
  }

  lemma {:induction false} SleepSucceeds(c: Client, w: World, ref: string)
    requires Represents(c) && c.script.actions == [PreparePause, Checkpoint, Offload]
    requires Fits(c, w) && c.plan.generation == w.memory.control.generation
    ensures FellAsleep(c, w, Uninterrupted(c, w, ref))
  {
    var v, last, saved := ThenCheckpoints(c, w, ref);
    assert Builds(c, Offload, saved);
    var done := Advance(c, v, 2, saved, Some(last), AsleepFrom(w.memory.control, saved));
  }

  /** What a wake makes of an offloaded worker. */
  function AwakeFrom(c: Control, p: Plan, ref: string): Control {
    c.(generation := p.generation,
       deviceId := if p.deviceId != "" then p.deviceId else c.deviceId,
       bindingId := if p.bindingId != "" then p.bindingId else c.bindingId,
       share := p.share, checkpointRef := if ref != "" then ref else c.checkpointRef,
       state := Running, safePoint := false, offloaded := false, ready := true)
  }

  /** The first step of a wake: the worker is reloaded but not yet running. */
  lemma {:induction false} WakeReloads(c: Client, w: World, ref: string, awake: Control)
    returns (v: World, mid: string, last: Response)
    requires Represents(c) && c.script.actions == [Reload, Resume] && Fits(c, w)
    requires w.memory.control.generation <= c.plan.generation <= w.memory.control.generation + 1
    requires ref != "" || w.memory.control.checkpointRef != ""
    requires awake == AwakeFrom(w.memory.control, c.plan, ref)
    ensures
      var here, rest := Uninterrupted(c, w, ref), Drive(c.serve, c.script, v, [], 1, mid, Some(last));
      here.world == rest.world && here.outcome == rest.outcome
    ensures
      var c0 := w.memory.control;
      v.memory.control == awake.(state := c0.state, safePoint := c0.safePoint, ready := false)
    ensures c.key(Resume) !in v.memory.responses && |v.memory.responses| == |w.memory.responses| + 1
  {
    assert Builds(c, Reload, ref);
    var c1 := awake.(state := w.memory.control.state, safePoint := w.memory.control.safePoint, ready := false);
    v := Advance(c, w, 0, ref, None, c1);
    last := Respond(c1, true, NoFault);
    mid := NextRef(last, ref);
  }

  lemma {:induction false} WakeSucceeds(c: Client, w: World, ref: string)
    requires Represents(c) && c.script.actions == [Reload, Resume] && Fits(c, w)
    requires w.memory.control.generation <= c.plan.generation <= w.memory.control.generation + 1
    requires ref != "" || w.memory.control.checkpointRef != ""
    ensures
      var a := Uninterrupted(c, w, ref);
      a.outcome.Succeeded? && a.world.memory.control == AwakeFrom(w.memory.control, c.plan, ref)
  {
    var awake := AwakeFrom(w.memory.control, c.plan, ref);
    var v, mid, last := WakeReloads(c, w, ref, awake);
    assert Builds(c, Resume, mid);
    var done := Advance(c, v, 1, mid, Some(last), awake);
  }

  /** The last, uninterrupted attempt after the given interrupted ones. */
  function Retried(c: Client, w: World, tries: seq<seq<Link>>, ref: string): Attempt {
    Uninterrupted(c, Attempts(c.serve, c.script, w, tries, ref).0, ref)
  }

  lemma {:induction false} SleepThenWake(sleep: Client, wake: Client, w: World, asleep: Attempt, wakeRef: string)
    requires Represents(wake) && sleep.cfg == wake.cfg && wake.script.actions == [Reload, Resume]
    requires FellAsleep(sleep, w, asleep) && Fits(wake, w) && |w.memory.responses| + 5 <= wake.cfg.maxReceipts
    requires forall a, b :: sleep.key(a) != wake.key(b)
    requires w.memory.control.generation <= wake.plan.generation <= w.memory.control.generation + 1
    ensures
      var awake := Uninterrupted(wake, asleep.world, wakeRef);
      && awake.outcome.Succeeded?
      && awake.world.memory.control ==
         AwakeFrom(w.memory.control.(checkpointRef := asleep.world.memory.control.checkpointRef), wake.plan, wakeRef)
  {
    assert Fits(wake, asleep.world);
    WakeSucceeds(wake, asleep.world, wakeRef);
  }

  lemma SleepClientFits(cfg: Config, react: Reaction, p: Plan, w: World)
    requires p.command.SleepWorker? && |w.memory.responses| + 3 <= cfg.maxReceipts
    requires forall a :: Key(p, a) !in w.memory.responses
    ensures Fits(ClientOf(cfg, react, p), w)
  {
    KeysDiffer(p, PreparePause, p, Checkpoint);
    KeysDiffer(p, PreparePause, p, Offload);
    KeysDiffer(p, Checkpoint, p, Offload);
  }

  lemma WakeClientFits(cfg: Config, react: Reaction, p: Plan, w: World)
    requires p.command.WakeWorker? && |w.memory.responses| + 2 <= cfg.maxReceipts
    requires forall a :: Key(p, a) !in w.memory.responses
    ensures Fits(ClientOf(cfg, react, p), w)
  {
    assert ActionName(Reload)[2] != ActionName(Resume)[2];
    KeysDiffer(p, Reload, p, Resume);
  }

  lemma RetriedIsUninterrupted(cfg: Config, react: Reaction, p: Plan, w: World, tries: seq<seq<Link>>, ref: string)
    ensures
      var c := ClientOf(cfg, react, p);
      var a, b := Retried(c, w, tries, ref), Uninterrupted(c, w, ref);
      SameCore(a.world, b.world) && a.outcome == b.outcome
  {
    RetriesConverge(cfg, react, p, w, tries, ref);
  }

  lemma {:induction false} RetriedFallsAsleep(cfg: Config, react: Reaction, p: Plan, w: World, tries: seq<seq<Link>>,
      ref: string)
    requires Healthy(react) && p.command.SleepWorker? && p.sandboxId == cfg.identity.sandboxId
    requires p.generation == w.memory.control.generation && |w.memory.responses| + 3 <= cfg.maxReceipts
    requires forall a :: Key(p, a) !in w.memory.responses
    ensures
      var c := ClientOf(cfg, react, p);
      FellAsleep(c, w, Retried(c, w, tries, ref))
  {
    ClientRepresents(cfg, react, p);
    SleepClientFits(cfg, react, p, w);
    SleepSucceeds(ClientOf(cfg, react, p), w, ref);
    RetriedIsUninterrupted(cfg, react, p, w, tries, ref);
  }

  /** Putting a worker to sleep and waking it again, each with any number of interrupted attempts, brings it
      back: running, ready, at no safe point, not offloaded, in the generation of the wake, and holding
      the checkpoint taken by the sleep unless the wake names another. Nothing else changes. */
  lemma {:induction false} SleepThenWakeRestores(cfg: Config, react: Reaction, sleep: Plan, wake: Plan, w: World,
                              sleepTries: seq<seq<Link>>, wakeTries: seq<seq<Link>>, sleepRef: string, wakeRef: string)
    requires Healthy(react) && sleep.command.SleepWorker? && wake.command.WakeWorker?
    requires sleep.sandboxId == wake.sandboxId == cfg.identity.sandboxId && |w.memory.responses| + 5 <= cfg.maxReceipts
    requires forall a :: Key(sleep, a) !in w.memory.responses && Key(wake, a) !in w.memory.responses
    requires forall a, b :: Key(sleep, a) != Key(wake, b)
    requires sleep.generation == w.memory.control.generation <= wake.generation <= w.memory.control.generation + 1
    ensures
      var asleep := Retried(ClientOf(cfg, react, sleep), w, sleepTries, sleepRef);
      var awake := Retried(ClientOf(cfg, react, wake), asleep.world, wakeTries, wakeRef);
      var saved := asleep.world.memory.control.checkpointRef;
      && asleep.outcome.Succeeded? && awake.outcome.Succeeded? && saved != ""
      && asleep.world.memory.control == AsleepFrom(w.memory.control, saved)
      && awake.world.memory.control == AwakeFrom(w.memory.control.(checkpointRef := saved), wake, wakeRef)
  {
    var s := ClientOf(cfg, react, sleep);
    RetriedFallsAsleep(cfg, react, sleep, w, sleepTries, sleepRef);
    RetriedWakesUp(cfg, react, sleep, wake, w, Retried(s, w, sleepTries, sleepRef), wakeTries, wakeRef);
  }

  lemma {:induction false} RetriedWakesUp(
    cfg: Config, react: Reaction, sleep: Plan, wake: Plan, w: World, asleep: Attempt,
    tries: seq<seq<Link>>, ref: string)
    requires Healthy(react) && wake.command.WakeWorker? && wake.sandboxId == cfg.identity.sandboxId
    requires FellAsleep(ClientOf(cfg, react, sleep), w, asleep) && |w.memory.responses| + 5 <= cfg.maxReceipts
    requires forall a :: Key(wake, a) !in w.memory.responses
    requires forall a, b :: Key(sleep, a) != Key(wake, b)
    requires w.memory.control.generation <= wake.generation <= w.memory.control.generation + 1
    ensures
      var awake := Retried(ClientOf(cfg, react, wake), asleep.world, tries, ref);
      && awake.outcome.Succeeded?
      && awake.world.memory.control ==
         AwakeFrom(w.memory.control.(checkpointRef := asleep.world.memory.control.checkpointRef), wake, ref)
  {
    var s, k := ClientOf(cfg, react, sleep), ClientOf(cfg, react, wake);
    ClientRepresents(cfg, react, wake);
    WakeClientFits(cfg, react, wake, w);
    assert forall a, b :: s.key(a) == Key(sleep, a) && k.key(b) == Key(wake, b);
    SleepThenWake(s, k, w, asleep, ref);
    RetriedIsUninterrupted(cfg, react, wake, asleep.world, tries, ref);
  }
}
