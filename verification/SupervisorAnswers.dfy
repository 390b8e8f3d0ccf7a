/**
 What the supervisor answers to its clients: what it passes on of the bridge's
 reply, what it answers from its receipts, and how the answers of a whole run
 agree with each other and with what the bridge did.
 */
module SupervisorAnswers {
  import opened Common
  import opened Bridge
  import opened BridgeEffects
  import opened BridgeRuns
  import opened Runs
  import opened Supervisor

  // -------------------------------------------------------------------- one request

  /** The answer presents the supervisor's record of the worker. */
  ghost predicate Presents(a: Response, w: Worker) {
    && a.state == w.state && a.generation == w.generation && a.safePoint == w.safePoint && a.offloaded == w.offloaded
    && a.ready == w.ready && a.checkpointRef == w.checkpointRef && a.bindingId == w.bindingId && a.share == w.share
    && (w.deviceId != "" || |w.deviceIds| != 1 ==> a.deviceId == w.deviceId)
    && (w.deviceId == "" && |w.deviceIds| == 1 ==> a.deviceId == w.deviceIds[0])
  }

  /** The answer passes on what the reply says about the worker's progress. */
  ghost predicate PassesOn(a: Response, r: Response) {
    && a.state == r.state && a.safePoint == r.safePoint && a.offloaded == r.offloaded && a.ready == r.ready
    && a.checkpointRef == r.checkpointRef
  }

  ghost predicate SameIdentity(v: Worker, w: Worker) {
    && v.sandboxId == w.sandboxId && v.generation == w.generation && v.bindingId == w.bindingId
    && v.deviceId == w.deviceId && v.deviceIds == w.deviceIds && v.share == w.share
  }

  /** A request for another worker or generation, and a mutation without a key, are refused whatever the connection
      does, and nothing changes. */
  lemma RefusedByIdentity(s: Sup, q: Request, t: Transport)
    requires
      || q.sandboxId != s.worker.sandboxId || !GenerationMatches(q, s.worker.generation)
      || (!q.action.Status? && q.key == "")
    ensures
      var known := q.sandboxId == s.worker.sandboxId && GenerationMatches(q, s.worker.generation);
      var (s1, a) := Supervise(s, q, t);
      s1 == s && !a.accepted && Presents(a, s.worker) && a.fault == if known then KeyRequired else IdentityMismatch
  {
  }

  /** A status call is accepted exactly when the bridge accepts it in the supervisor's generation. Then the record takes
      over the worker's progress and the answer presents it. */
  lemma StatusAnswer(s: Sup, q: Request, t: Transport)
    requires Screen(s, q).Forward? && q.action.Status?
    ensures
      var (s1, a) := Supervise(s, q, t);
      && (a.accepted <==>
            t.Delivered? && t.response.accepted && t.response.generation in {0, s.worker.generation})
      && Presents(a, s1.worker) && SameIdentity(s1.worker, s.worker) && s1.receipts == s.receipts
      && (a.accepted ==> a.fault.NoFault? && PassesOn(a, t.response))
      && (!a.accepted ==> s1 == s)
      && (t.Failed? ==> a.fault == StatusUnavailable)
      && (t.Delivered? && !a.accepted ==>
            a.fault == if t.response.fault.NoFault? then IdentityMismatch else t.response.fault)
  {
  }

  /** A forwarded mutation without an answer changes nothing and is not confirmed. */
  lemma LostMutation(s: Sup, q: Request)
    requires Screen(s, q).Forward? && !q.action.Status?
    ensures
      var (s1, a) := Supervise(s, q, Failed);
      s1 == s && !a.accepted && a.fault == TransportLost && Presents(a, s.worker)
  {
  }

  /** A forwarded mutation that the bridge refuses leaves the record of the worker alone. The refusal is passed on, and
      kept unless it says that the outcome is not confirmed. */
  lemma RefusedMutation(s: Sup, q: Request, r: Response)
    requires Screen(s, q).Forward? && !q.action.Status? && !r.accepted
    ensures
      var (s1, a) := Supervise(s, q, Delivered(r));
      && s1.worker == s.worker && !a.accepted && a.fault == r.fault && PassesOn(a, r)
      && a.generation == s.worker.generation && a.bindingId == s.worker.bindingId && a.share == s.worker.share
      && s1.receipts ==
         (if r.fault in {Pending, MutationRaised, TransportLost} then s.receipts
          else s.receipts[q.key := Receipt(q, a)])
  {
  }

  /** A forwarded mutation that the bridge accepts: the answer presents the new record, which has taken over the
      progress and every part of the identity that the reply names. */
  lemma AcceptedMutation(s: Sup, q: Request, r: Response)
    requires Screen(s, q).Forward? && !q.action.Status? && r.accepted
    ensures
      var (s1, a) := Supervise(s, q, Delivered(r));
      var v, w := s1.worker, s.worker;
      && a.accepted && a.fault == r.fault && Presents(a, v) && PassesOn(a, r) && v.sandboxId == w.sandboxId
      && v.generation == (if r.generation == 0 then w.generation else r.generation)
      && v.bindingId == NonEmpty(r.bindingId, w.bindingId)
      && v.deviceId == NonEmpty(r.deviceId, w.deviceId)
      && v.deviceIds == (if r.deviceId == "" then w.deviceIds else [r.deviceId])
      && v.share == (if r.share == 0.0 then w.share else r.share)
      && s1.receipts == s.receipts[q.key := Receipt(q, a)]
  {
  }

  /** So a reply that names everything reaches the client unchanged. */
  lemma FullReplyIsPassedOn(s: Sup, q: Request, r: Response)
    requires Screen(s, q).Forward? && !q.action.Status? && r.accepted
    requires r.generation != 0 && r.bindingId != "" && r.deviceId != "" && r.share != 0.0
    ensures Supervise(s, q, Delivered(r)).1 == r
  {
    AcceptedMutation(s, q, r);
  }

  /** After an accepted mutation, requests under its key in its generation change nothing whatever the connection does:
      the same request gets the same answer, and any other is refused as a reuse of the key. */
  lemma RepeatedMutation(s: Sup, q: Request, r: Response, p: Request, t: Transport)
    requires Screen(s, q).Forward? && !q.action.Status? && r.accepted && r.generation == q.generation != 0
    requires !p.action.Status? && p.key == q.key && p.sandboxId == q.sandboxId && p.generation == q.generation
    ensures
      var (s1, a) := Supervise(s, q, Delivered(r));
      var (s2, b) := Supervise(s1, p, t);
      && s2 == s1
      && (p == q ==> b == a)
      && (p != q ==> !b.accepted && b.fault == KeyReused && Presents(b, s1.worker))
  {
    AcceptedMutation(s, q, r);
  }

  /** An answer that is not confirmed is not kept, so the retry reaches the bridge again. */
  lemma UnconfirmedIsForwarded(s: Sup, q: Request, t: Transport)
    requires Screen(s, q).Forward? && !q.action.Status?
    requires t.Delivered? ==> !t.response.accepted && t.response.fault in {Pending, MutationRaised, TransportLost}
    ensures
      var (s1, a) := Supervise(s, q, t);
      s1 == s && Screen(s1, q).Forward? && !a.accepted
  {
  }

  /** A refusal that was kept is repeated to the same request in the same generation, whatever the connection does. */
  lemma RepeatedRefusal(s: Sup, q: Request, r: Response, t: Transport)
    requires Screen(s, q).Forward? && !q.action.Status? && !r.accepted && !NotConfirmed(r.fault)
    ensures
      var (s1, a) := Supervise(s, q, Delivered(r));
      Supervise(s1, q, t) == (s1, a) && !a.accepted && a.fault == r.fault
  {
    RefusedMutation(s, q, r);
  }

  /** A success that the bridge could not record is refused to the client for good. Of a new mutation that the
      supervisor forwards, the bridge admits, and that is done and traced, the bridge's journal says in any case that it
      succeeded. The client is refused, now and on the retry, exactly when the outcome write failed. */
  lemma UnrecordedSuccessIsRefused(cfg: Config, w: World, s: Sup, q: Request, env: Environment, t: Transport)
    requires IsMutation(q) && Admitted(cfg, w, q) && env.intent.Stored? && Screen(s, q).Forward?
    requires Possible(w.memory.control, q, env.callback) && env.emit.Written?
    requires q.generation != 0
    ensures
      var (v, r) := Handle(cfg, w, q, env);
      var (s1, a) := Supervise(s, q, Delivered(r));
      var b := Supervise(s1, q, t).1;
      && v.memory.responses[q.key].response.accepted
      && (!env.outcome.Stored? <==> !a.accepted) && (!env.outcome.Stored? <==> !b.accepted) && b == a
  {
    AcceptedExactlyWhen(cfg, w, q, env);
    RefusedExactlyWhen(cfg, w, q, env);
    DoneExactlyWhen(cfg, w, q, env);
    var r := Handle(cfg, w, q, env).1;
    if r.accepted { RepeatedMutation(s, q, r, q, t); } else { RepeatedRefusal(s, q, r, t); }
  }

  // ----------------------------------------------------------------- answers over runs

  /** The answer that an event of the composed system gives to the client. */
  function AnswerOf(n: Net, e: NetEvent): Option<(Request, Response)> {
    match e
    case Client(req) =>
      if n.waiting.None? && Screen(n.sup, req).Refuse? then Some((req, Screen(n.sup, req).response)) else None
    case Receive(r) =>
      if n.waiting.None? || (n.waiting.value, r) !in n.replies then None
      else Some((n.waiting.value, Conclude(n.sup, n.waiting.value, Delivered(r)).1))
    case GiveUp =>
      if n.waiting.None? then None else Some((n.waiting.value, Conclude(n.sup, n.waiting.value, Failed).1))
    case _ => None
  }

  /** The events refine the method: a request is answered at once or forwarded, and then answered with what the method
      returns for the reply or the failure, leaving what the method leaves. */
  lemma EventsRefineSupervise(cfg: Config, n: Net, q: Request, t: Transport)
    requires n.waiting.None? && (t.Delivered? ==> (q, t.response) in n.replies)
    ensures
      var asked := NetStep(cfg, n, Client(q));
      var last := if t.Delivered? then Receive(t.response) else GiveUp;
      var answered := if asked.waiting.Some? then NetStep(cfg, asked, last) else asked;
      var answer := if asked.waiting.Some? then AnswerOf(asked, last) else AnswerOf(n, Client(q));
      answered.sup == Supervise(n.sup, q, t).0 && answer == Some((q, Supervise(n.sup, q, t).1))
  {
  }

  /** Event `i` answers `q` with `a`. */
  ghost predicate ToldAt(cfg: Config, w: Worker, es: seq<NetEvent>, i: int, q: Request, a: Response) {
    0 <= i < |es| && AnswerOf(NetAfter(cfg, w, es[..i]), es[i]) == Some((q, a))
  }

  /** The mutation waited for has no receipt yet. */
  ghost predicate WaitsForNews(n: Net) {
    n.waiting.Some? && !n.waiting.value.action.Status? ==>
      n.waiting.value.key !in n.sup.receipts && n.waiting.value.key != ""
  }

  ghost predicate OnRecord(n: Net, q: Request, a: Response) {
    q.key != "" && q.key in n.sup.receipts && n.sup.receipts[q.key] == Receipt(q, a)
  }

  lemma StepKeepsWaiting(cfg: Config, n: Net, e: NetEvent)
    requires WaitsForNews(n)
    ensures WaitsForNews(NetStep(cfg, n, e))
  {
  }

  lemma RecordStays(cfg: Config, n: Net, e: NetEvent, q: Request, a: Response)
    requires WaitsForNews(n) && OnRecord(n, q, a)
    ensures OnRecord(NetStep(cfg, n, e), q, a)
  {
  }

  lemma AcceptedIsRecorded(cfg: Config, n: Net, e: NetEvent, q: Request, a: Response)
    requires WaitsForNews(n) && AnswerOf(n, e) == Some((q, a)) && a.accepted && !q.action.Status?
    ensures OnRecord(NetStep(cfg, n, e), q, a)
  {
  }

  lemma {:induction false} RunWaitsForNews(cfg: Config, w: Worker, es: seq<NetEvent>)
    ensures WaitsForNews(NetAfter(cfg, w, es))
    decreases |es|
  {
    if es != [] {
      RunWaitsForNews(cfg, w, es[..|es| - 1]);
      StepKeepsWaiting(cfg, NetAfter(cfg, w, es[..|es| - 1]), es[|es| - 1]);
    }
  }

  lemma {:induction false} AcceptedStaysOnRecord(
    cfg: Config, w: Worker, es: seq<NetEvent>, i: nat, q: Request, a: Response)
    requires ToldAt(cfg, w, es, i, q, a) && a.accepted && !q.action.Status?
    ensures OnRecord(NetAfter(cfg, w, es), q, a)
    decreases |es|
  {
    var front, e := es[..|es| - 1], es[|es| - 1];
    RunWaitsForNews(cfg, w, front);
    if i == |es| - 1 {
      AcceptedIsRecorded(cfg, NetAfter(cfg, w, front), e, q, a);
    } else {
      assert front[..i] == es[..i];
      AcceptedStaysOnRecord(cfg, w, front, i, q, a);
      RecordStays(cfg, NetAfter(cfg, w, front), e, q, a);
    }
  }

  lemma AnswerOnRecord(n: Net, e: NetEvent, q: Request, a: Response, p: Request, b: Response)
    requires WaitsForNews(n) && OnRecord(n, q, a) && AnswerOf(n, e) == Some((p, b))
    requires p.key == q.key && !p.action.Status?
    ensures
      || (p == q && b == a)
      || (!b.accepted && (b.fault == IdentityMismatch || (p != q && b.fault == KeyReused)))
  {
  }

  /** In every run, once a mutation was answered with success, every later answer under its key is that success again,
      or a refusal: because the generation has moved on, or because another request reuses the key. In particular two
      accepted answers to one mutation agree. */
  lemma AcceptedAnswerStands(
    cfg: Config, w: Worker, es: seq<NetEvent>, i: nat, q: Request, a: Response, j: nat, p: Request, b: Response)
    requires ToldAt(cfg, w, es, i, q, a) && a.accepted && !q.action.Status?
    requires i < j && ToldAt(cfg, w, es, j, p, b) && p.key == q.key && !p.action.Status?
    ensures b.accepted ==> p == q && b == a
    ensures !b.accepted ==> b.fault == IdentityMismatch || (p != q && b.fault == KeyReused)
  {
    var before := es[..j];
    assert before[..i] == es[..i];
    AcceptedStaysOnRecord(cfg, w, before, i, q, a);
    RunWaitsForNews(cfg, w, before);
    AnswerOnRecord(NetAfter(cfg, w, before), es[j], q, a, p, b);
  }

  // -------------------------------------------------------------- what clients are told

  ghost predicate TellingReplies(n: Net) {
    forall p :: p in n.replies && !p.0.action.Status? ==> TellsState(p.0, p.1)
  }

  ghost predicate TellingReceipts(n: Net) {
    forall k :: k in n.sup.receipts ==> TellsState(n.sup.receipts[k].request, n.sup.receipts[k].response)
  }

  lemma DirectRefuses(cfg: Config, w: World, req: Request)
    requires !IsMutation(req) && !req.action.Status?
    ensures !DirectReply(cfg, w, req).accepted
  {
  }

  lemma NetStepStaysTelling(cfg: Config, n: Net, e: NetEvent)
    requires Telling(cfg, n.bridge) && TellingReplies(n) && TellingReceipts(n)
    ensures
      var m := NetStep(cfg, n, e);
      Telling(cfg, m.bridge) && TellingReplies(m) && TellingReceipts(m)
  {
    match e
    case Deliver(req, o) => BridgeStaysTelling(cfg, n, Begin(req, o));
    case BridgeEvent(h) => BridgeStaysTelling(cfg, n, h);
    case Direct(req) => if !IsMutation(req) && !req.action.Status? { DirectRefuses(cfg, n.bridge.world, req); }
    case Receive(r) => ReceiveStaysTelling(cfg, n, r);
    case _ =>
  }

  lemma BridgeStaysTelling(cfg: Config, n: Net, h: Happening)
    requires Telling(cfg, n.bridge) && TellingReplies(n) && TellingReceipts(n)
    ensures
      var m := BridgeMoves(cfg, n, h);
      Telling(cfg, m.bridge) && TellingReplies(m) && TellingReceipts(m)
  {
    StepStaysTelling(cfg, n.bridge, h);
    if Reply(cfg, n.bridge, h).Some? { ReplyTells(cfg, n.bridge, h); }
  }

  lemma ReceiveStaysTelling(cfg: Config, n: Net, r: Response)
    requires TellingReplies(n) && TellingReceipts(n)
    ensures TellingReceipts(NetStep(cfg, n, Receive(r)))
  {
    if n.waiting.Some? && (n.waiting.value, r) in n.replies && !n.waiting.value.action.Status? {
      var p := (n.waiting.value, r);
      assert TellsState(p.0, p.1);
    }
  }

  lemma {:induction false} NetRunIsTelling(cfg: Config, w: Worker, es: seq<NetEvent>)
    ensures
      var n := NetAfter(cfg, w, es);
      Telling(cfg, n.bridge) && TellingReplies(n) && TellingReceipts(n)
    decreases |es|
  {
    if es != [] {
      NetRunIsTelling(cfg, w, es[..|es| - 1]);
      NetStepStaysTelling(cfg, NetAfter(cfg, w, es[..|es| - 1]), es[|es| - 1]);
    }
  }

  /** In every run an accepted answer to a mutation is about a request the bridge completed, and names the state that
      its action leads to. */
  lemma ClientIsToldTheTruth(cfg: Config, w: Worker, es: seq<NetEvent>, i: nat, q: Request, a: Response)
    requires Matches(cfg, w) && ToldAt(cfg, w, es, i, q, a) && a.accepted && !q.action.Status?
    ensures TellsState(q, a) && q in NetAfter(cfg, w, es).bridge.completed
  {
    AcceptedStaysOnRecord(cfg, w, es, i, q, a);
    NetRunIsTelling(cfg, w, es);
    NetRunKeepsSound(cfg, w, es);
  }
}
