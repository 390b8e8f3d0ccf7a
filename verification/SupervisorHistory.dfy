/**
 The history of the composed system: which events of a run put the supervisor
 ahead of the state file, and which of its cached successes the bridge still
 knows. Conditions are about events of the run and where they stand in it.
 */
module SupervisorHistory {
  import opened Common
  import opened Bridge
  import opened BridgeRuns
  import opened Runs
  import opened Supervisor

  // ------------------------------------------------------------ the bridge's own run

  /** What an event of the composed system makes the bridge do. */
  function MoveOf(n: Net, e: NetEvent): Option<Happening> {
    match e
    case Deliver(req, o) => if req in n.sent then Some(Begin(req, o)) else None
    case BridgeEvent(h) => if h.Begin? then None else Some(h)
    case _ => None
  }

  /** The events of the bridge in a run of the composed system. */
  function Happenings(cfg: Config, w: Worker, es: seq<NetEvent>): seq<Happening>
    decreases |es|
  {
    if es == [] then []
    else
      var front := es[..|es| - 1];
      var move := MoveOf(NetAfter(cfg, w, front), es[|es| - 1]);
      Happenings(cfg, w, front) + if move.Some? then [move.value] else []
  }

  lemma MoveIsStep(cfg: Config, n: Net, e: NetEvent)
    ensures
      var move, m := MoveOf(n, e), NetStep(cfg, n, e);
      if move.Some? then m == BridgeMoves(cfg, n, move.value) else m.bridge == n.bridge
  {
  }

  lemma {:induction false} BridgeOfRun(cfg: Config, w: Worker, es: seq<NetEvent>)
    ensures NetAfter(cfg, w, es).bridge == After(cfg, Happenings(cfg, w, es))
    decreases |es|
  {
    if es != [] {
      var front, e := es[..|es| - 1], es[|es| - 1];
      var n, hs := NetAfter(cfg, w, front), Happenings(cfg, w, front);
      BridgeOfRun(cfg, w, front);
      MoveIsStep(cfg, n, e);
      var move := MoveOf(n, e);
      if move.Some? {
        assert (hs + [move.value])[..|hs|] == hs;
      } else {
        assert hs + [] == hs;
      }
    }
  }

  // ------------------------------------------------------------------- the state file

  /** The generation in the state file. */
  function FileGeneration(cfg: Config, w: Worker, es: seq<NetEvent>): int {
    Durable(cfg, NetAfter(cfg, w, es).bridge.world).control.generation
  }

  ghost predicate Ahead(cfg: Config, w: Worker, es: seq<NetEvent>) {
    Unwritten(cfg, Happenings(cfg, w, es))
  }

  /** The event replaces the state file and thereby stores a generation raised before. */
  ghost predicate StoresNext(cfg: Config, w: Worker, es: seq<NetEvent>, e: NetEvent) {
    var n := NetAfter(cfg, w, es);
    MoveOf(n, e).Some? && Writes(cfg, n.bridge, MoveOf(n, e).value) && Ahead(cfg, w, es)
  }

  lemma Lag(cfg: Config, w: Worker, es: seq<NetEvent>)
    ensures
      var n := NetAfter(cfg, w, es);
      var m := n.bridge.world.memory.control.generation;
      && Consistent(cfg, n.bridge) && Truthful(cfg, n.bridge)
      && (n.bridge.phase.Down? ==> !Ahead(cfg, w, es))
      && (!n.bridge.phase.Down? ==> m == FileGeneration(cfg, w, es) + (if Ahead(cfg, w, es) then 1 else 0))
  {
    BridgeOfRun(cfg, w, es);
    LagsExactlyWhenUnwritten(cfg, Happenings(cfg, w, es));
    RunIsTruthful(cfg, Happenings(cfg, w, es));
  }

  lemma FileOfStep(cfg: Config, w: Worker, es: seq<NetEvent>, e: NetEvent)
    ensures
      FileGeneration(cfg, w, es + [e]) ==
      FileGeneration(cfg, w, es) + (if StoresNext(cfg, w, es, e) then 1 else 0)
  {
    assert (es + [e])[..|es|] == es;
    var n := NetAfter(cfg, w, es);
    Lag(cfg, w, es);
    MoveIsStep(cfg, n, e);
    if MoveOf(n, e).Some? { WritesStoreMemory(cfg, n.bridge, MoveOf(n, e).value); }
  }

  ghost predicate StoresAt(cfg: Config, w: Worker, es: seq<NetEvent>, k: int) {
    0 <= k < |es| && StoresNext(cfg, w, es[..k], es[k])
  }

  lemma StoresOfPrefix(cfg: Config, w: Worker, es: seq<NetEvent>, e: NetEvent)
    ensures forall k :: k < |es| ==> (StoresAt(cfg, w, es + [e], k) <==> StoresAt(cfg, w, es, k))
    ensures StoresAt(cfg, w, es + [e], |es|) <==> StoresNext(cfg, w, es, e)
  {
    forall k | k < |es| ensures StoresAt(cfg, w, es + [e], k) <==> StoresAt(cfg, w, es, k) {
      if k >= 0 { assert (es + [e])[..k] == es[..k]; }
    }
    assert (es + [e])[..|es|] == es;
  }

  /** The stored generation counts the storing writes. */
  lemma {:induction false} FileSince(cfg: Config, w: Worker, es: seq<NetEvent>, a: nat)
    requires a <= |es|
    ensures FileGeneration(cfg, w, es[..a]) <= FileGeneration(cfg, w, es)
    ensures
      FileGeneration(cfg, w, es[..a]) == FileGeneration(cfg, w, es) <==>
      forall k :: a <= k ==> !StoresAt(cfg, w, es, k)
    decreases |es|
  {
    if a == |es| {
      assert es[..a] == es;
    } else {
      var front, e := es[..|es| - 1], es[|es| - 1];
      FileSince(cfg, w, front, a);
      FileOfStep(cfg, w, front, e);
      assert front[..a] == es[..a] && front + [e] == es;
      StoresOfPrefix(cfg, w, front, e);
    }
  }

  // ------------------------------------------------------------------ where news came from

  /** Event `i` makes the bridge answer `q` with the accepted `r`. */
  ghost predicate AnsweredAt(cfg: Config, w: Worker, es: seq<NetEvent>, i: int, q: Request, r: Response) {
    && 0 <= i < |es| && r.accepted
    && var n := NetAfter(cfg, w, es[..i]);
      MoveOf(n, es[i]).Some? && Reply(cfg, n.bridge, MoveOf(n, es[i]).value) == Some((q, r))
  }

  /** With event `j` the supervisor adopts the generation of the accepted answer `r` to its request `q`. */
  ghost predicate AdoptedAt(cfg: Config, w: Worker, es: seq<NetEvent>, j: int, q: Request, r: Response) {
    && 0 <= j < |es| && es[j] == Receive(r) && r.accepted && r.generation != 0 && !q.action.Status?
    && var n := NetAfter(cfg, w, es[..j]);
      n.waiting == Some(q) && (q, r) in n.replies
  }

  ghost predicate Answered(cfg: Config, w: Worker, es: seq<NetEvent>, q: Request, r: Response) {
    exists i :: AnsweredAt(cfg, w, es, i, q, r)
  }

  lemma AnsweredStays(cfg: Config, w: Worker, es: seq<NetEvent>, e: NetEvent, q: Request, r: Response)
    requires Answered(cfg, w, es, q, r)
    ensures Answered(cfg, w, es + [e], q, r)
  {
    var i :| AnsweredAt(cfg, w, es, i, q, r);
    assert (es + [e])[..i] == es[..i];
    assert AnsweredAt(cfg, w, es + [e], i, q, r);
  }

  lemma AnsweredNow(cfg: Config, w: Worker, es: seq<NetEvent>, e: NetEvent, q: Request, r: Response)
    requires
      var n := NetAfter(cfg, w, es);
      MoveOf(n, e).Some? && Reply(cfg, n.bridge, MoveOf(n, e).value) == Some((q, r)) && r.accepted
    ensures Answered(cfg, w, es + [e], q, r)
  {
    assert (es + [e])[..|es|] == es;
    assert AnsweredAt(cfg, w, es + [e], |es|, q, r);
  }

  lemma RepliesOfStep(cfg: Config, n: Net, e: NetEvent, q: Request, r: Response)
    requires (q, r) in NetStep(cfg, n, e).replies && r.accepted && !q.action.Status?
    ensures (q, r) in n.replies || (MoveOf(n, e).Some? && Reply(cfg, n.bridge, MoveOf(n, e).value) == Some((q, r)))
  {
  }

  /** Every accepted answer to a mutation was given by the bridge. */
  lemma {:induction false} RepliesWereGiven(cfg: Config, w: Worker, es: seq<NetEvent>, q: Request, r: Response)
    requires (q, r) in NetAfter(cfg, w, es).replies && r.accepted && !q.action.Status?
    ensures Answered(cfg, w, es, q, r)
    decreases |es|
  {
    if es != [] {
      var front, e := es[..|es| - 1], es[|es| - 1];
      assert es == front + [e];
      RepliesOfStep(cfg, NetAfter(cfg, w, front), e, q, r);
      if (q, r) in NetAfter(cfg, w, front).replies {
        RepliesWereGiven(cfg, w, front, q, r);
        AnsweredStays(cfg, w, front, e, q, r);
      } else {
        AnsweredNow(cfg, w, front, e, q, r);
      }
    }
  }

  ghost predicate Adopted(cfg: Config, w: Worker, es: seq<NetEvent>, g: int) {
    exists j, q, r :: AdoptedAt(cfg, w, es, j, q, r) && r.generation == g
  }

  lemma AdoptedStays(cfg: Config, w: Worker, es: seq<NetEvent>, e: NetEvent, g: int)
    requires Adopted(cfg, w, es, g)
    ensures Adopted(cfg, w, es + [e], g)
  {
    var j, q, r :| AdoptedAt(cfg, w, es, j, q, r) && r.generation == g;
    assert (es + [e])[..j] == es[..j];
    assert AdoptedAt(cfg, w, es + [e], j, q, r);
  }

  /** A step that changes the supervisor's generation adopts one. */
  lemma GenerationOfStep(cfg: Config, w: Worker, es: seq<NetEvent>, e: NetEvent)
    requires Sound(cfg, NetAfter(cfg, w, es))
    ensures
      var n, m := NetAfter(cfg, w, es), NetAfter(cfg, w, es + [e]);
      && n.sup.worker.generation <= m.sup.worker.generation
      && (m.sup.worker.generation != n.sup.worker.generation ==> Adopted(cfg, w, es + [e], m.sup.worker.generation))
  {
    assert (es + [e])[..|es|] == es;
    var n := NetAfter(cfg, w, es);
    if e.Receive? && n.waiting.Some? && (n.waiting.value, e.response) in n.replies {
      ReceiveKeepsSound(cfg, n, e.response);
      if NetStep(cfg, n, e).sup.worker.generation != n.sup.worker.generation {
        assert AdoptedAt(cfg, w, es + [e], |es|, n.waiting.value, e.response);
      }
    }
  }

  /** The supervisor's generation is the first one or was adopted, and never decreases. */
  lemma {:induction false} GenerationWasAdopted(cfg: Config, w: Worker, es: seq<NetEvent>, a: nat)
    requires Matches(cfg, w) && a <= |es|
    ensures
      var g := NetAfter(cfg, w, es).sup.worker.generation;
      && NetAfter(cfg, w, es[..a]).sup.worker.generation <= g
      && (g == cfg.initial.generation || Adopted(cfg, w, es, g))
    decreases |es|
  {
    if es != [] {
      var front, e := es[..|es| - 1], es[|es| - 1];
      assert es == front + [e];
      NetRunKeepsSound(cfg, w, front);
      GenerationOfStep(cfg, w, front, e);
      if a < |es| { assert front[..a] == es[..a]; } else { assert es[..a] == es; }
      GenerationWasAdopted(cfg, w, front, if a < |es| then a else 0);
      var g := NetAfter(cfg, w, front).sup.worker.generation;
      if Adopted(cfg, w, front, g) { AdoptedStays(cfg, w, front, e, g); }
    } else {
      assert es[..a] == es;
    }
  }

  // --------------------------------------------------------------- ahead of the state file

  /** Event `i` is an accepted answer in a generation that the bridge has raised and not yet written, the supervisor
      adopts it with event `j`, and no write has stored that generation since the answer. */
  ghost predicate OvertakenBy(cfg: Config, w: Worker, es: seq<NetEvent>, i: int, j: int, q: Request, r: Response) {
    && i < j && AnsweredAt(cfg, w, es, i, q, r) && AdoptedAt(cfg, w, es, j, q, r)
    && Ahead(cfg, w, es[..i + 1])
    && r.generation == NetAfter(cfg, w, es[..i + 1]).bridge.world.memory.control.generation
    && forall k :: i + 1 <= k ==> !StoresAt(cfg, w, es, k)
  }

  ghost predicate Overtaken(cfg: Config, w: Worker, es: seq<NetEvent>) {
    exists i, j, q, r :: OvertakenBy(cfg, w, es, i, j, q, r)
  }

  lemma StepOf(cfg: Config, w: Worker, es: seq<NetEvent>, i: nat)
    requires i < |es|
    ensures NetAfter(cfg, w, es[..i + 1]) == NetStep(cfg, NetAfter(cfg, w, es[..i]), es[i])
  {
    assert es[..i + 1][..i] == es[..i];
  }

  /** An accepted answer comes from a living process that has reached its generation. */
  lemma AnswerReachesGeneration(cfg: Config, w: Worker, es: seq<NetEvent>, i: nat, q: Request, r: Response)
    requires AnsweredAt(cfg, w, es, i, q, r)
    ensures
      var b := NetAfter(cfg, w, es[..i + 1]).bridge;
      !b.phase.Down? && r.generation <= b.world.memory.control.generation
  {
    var n := NetAfter(cfg, w, es[..i]);
    var h := MoveOf(n, es[i]).value;
    StepOf(cfg, w, es, i);
    MoveIsStep(cfg, n, es[i]);
    Lag(cfg, w, es[..i]);
    AcceptedReplyIsTrue(cfg, n.bridge, h);
    ReplyNeedsProcess(cfg, n.bridge, h);
  }

  lemma AdoptionTakesGeneration(cfg: Config, w: Worker, es: seq<NetEvent>, j: nat, q: Request, r: Response)
    requires AdoptedAt(cfg, w, es, j, q, r)
    ensures NetAfter(cfg, w, es[..j + 1]).sup.worker.generation == r.generation
  {
    StepOf(cfg, w, es, j);
  }

  lemma OvertakenIsAhead(cfg: Config, w: Worker, es: seq<NetEvent>, i: nat, j: nat, q: Request, r: Response)
    requires Matches(cfg, w) && OvertakenBy(cfg, w, es, i, j, q, r)
    ensures NetAfter(cfg, w, es).sup.worker.generation == FileGeneration(cfg, w, es) + 1
  {
    AnswerReachesGeneration(cfg, w, es, i, q, r);
    Lag(cfg, w, es[..i + 1]);
    FileSince(cfg, w, es, i + 1);
    AdoptionTakesGeneration(cfg, w, es, j, q, r);
    GenerationWasAdopted(cfg, w, es, j + 1);
    NetRunKeepsWithinOne(cfg, w, es);
  }

  lemma AnswerBefore(cfg: Config, w: Worker, es: seq<NetEvent>, j: nat, q: Request, r: Response) returns (i: nat)
    requires AdoptedAt(cfg, w, es, j, q, r)
    ensures i < j && AnsweredAt(cfg, w, es, i, q, r)
  {
    RepliesWereGiven(cfg, w, es[..j], q, r);
    i :| AnsweredAt(cfg, w, es[..j], i, q, r);
    assert es[..j][..i] == es[..i];
  }

  lemma AheadIsOvertaken(cfg: Config, w: Worker, es: seq<NetEvent>)
    requires Matches(cfg, w) && NetAfter(cfg, w, es).sup.worker.generation == FileGeneration(cfg, w, es) + 1
    ensures Overtaken(cfg, w, es)
  {
    var g := NetAfter(cfg, w, es).sup.worker.generation;
    FileSince(cfg, w, es, 0);
    assert es[..0] == [];
    GenerationWasAdopted(cfg, w, es, 0);
    var j, q, r :| AdoptedAt(cfg, w, es, j, q, r) && r.generation == g;
    var i := AnswerBefore(cfg, w, es, j, q, r);
    AnswerReachesGeneration(cfg, w, es, i, q, r);
    Lag(cfg, w, es[..i + 1]);
    FileSince(cfg, w, es, i + 1);
    assert OvertakenBy(cfg, w, es, i, j, q, r);
  }

  /** Exactly when the supervisor's generation is ahead, in every run: of the state file, and so of a bridge restarted
      from it; and of a bridge that is running. */
  lemma SupervisorAheadExactlyWhen(cfg: Config, w: Worker, es: seq<NetEvent>)
    requires Matches(cfg, w)
    ensures
      var n := NetAfter(cfg, w, es);
      var g := n.sup.worker.generation;
      && (g > FileGeneration(cfg, w, es) <==> Overtaken(cfg, w, es))
      && (!n.bridge.phase.Down? ==>
            (g > n.bridge.world.memory.control.generation <==> Overtaken(cfg, w, es) && !Ahead(cfg, w, es)))
  {
    NetRunKeepsWithinOne(cfg, w, es);
    Lag(cfg, w, es);
    if Overtaken(cfg, w, es) {
      var i, j, q, r :| OvertakenBy(cfg, w, es, i, j, q, r);
      OvertakenIsAhead(cfg, w, es, i, j, q, r);
    } else if NetAfter(cfg, w, es).sup.worker.generation > FileGeneration(cfg, w, es) {
      AheadIsOvertaken(cfg, w, es);
    }
  }

  /** A crash leaves the supervisor ahead of the process that is restarted exactly when it is overtaken by then. */
  lemma CrashOvertakesExactlyWhen(cfg: Config, w: Worker, es: seq<NetEvent>)
    requires Matches(cfg, w)
    ensures
      var n := NetAfter(cfg, w, es + [BridgeEvent(Crash)] + [BridgeEvent(Restart)]);
      n.bridge.phase.Idle? ==>
        (n.sup.worker.generation > n.bridge.world.memory.control.generation <==> Overtaken(cfg, w, es))
  {
    var crashed := es + [BridgeEvent(Crash)];
    var n := NetAfter(cfg, w, es);
    assert crashed[..|es|] == es && (crashed + [BridgeEvent(Restart)])[..|crashed|] == crashed;
    assert NetAfter(cfg, w, crashed).bridge == Step(cfg, n.bridge, Crash);
    SupervisorAheadExactlyWhen(cfg, w, es);
  }

  // ------------------------------------------------------------------- cached successes

  /** The bridge finished `q` with success at some point. */
  ghost predicate Finished(cfg: Config, hs: seq<Happening>, q: Request) {
    exists f :: FinishedAt(cfg, hs, f, q)
  }

  lemma SavedWasFinished(cfg: Config, hs: seq<Happening>, q: Request)
    requires Saved(cfg, hs, q) || Recent(cfg, hs, q)
    ensures Finished(cfg, hs, q)
  {
    if Saved(cfg, hs, q) {
      var f, k :| SavedAt(cfg, hs, f, k, q);
      assert FinishedAt(cfg, hs, f, q);
    } else {
      var f :| RecentAt(cfg, hs, f, q);
      assert FinishedAt(cfg, hs, f, q);
    }
  }

  lemma FinishedStays(cfg: Config, hs: seq<Happening>, more: seq<Happening>, q: Request)
    requires Finished(cfg, hs, q) && hs <= more
    ensures Finished(cfg, more, q)
  {
    var f :| FinishedAt(cfg, hs, f, q);
    assert more[..f] == hs[..f];
    assert FinishedAt(cfg, more, f, q);
  }

  lemma {:induction false} HappeningsGrow(cfg: Config, w: Worker, es: seq<NetEvent>, a: nat)
    requires a <= |es|
    ensures Happenings(cfg, w, es[..a]) <= Happenings(cfg, w, es)
    decreases |es|
  {
    if a == |es| {
      assert es[..a] == es;
    } else {
      assert es[..|es| - 1][..a] == es[..a];
      HappeningsGrow(cfg, w, es[..|es| - 1], a);
    }
  }

  ghost predicate Heard(n: Net, q: Request, r: Response) {
    (q, r) in n.replies && r.accepted && !q.action.Status?
  }

  ghost predicate ReceiptsHeard(n: Net) {
    forall k :: k in n.sup.receipts && n.sup.receipts[k].response.accepted ==>
      exists r :: Heard(n, n.sup.receipts[k].request, r)
  }

  lemma StepKeepsReceiptsHeard(cfg: Config, n: Net, e: NetEvent)
    requires ReceiptsHeard(n)
    ensures ReceiptsHeard(NetStep(cfg, n, e))
  {
    var m := NetStep(cfg, n, e);
    assert n.replies <= m.replies;
    forall k | k in m.sup.receipts && m.sup.receipts[k].response.accepted
      ensures exists r :: Heard(m, m.sup.receipts[k].request, r)
    {
      if k in n.sup.receipts && m.sup.receipts[k] == n.sup.receipts[k] {
        var r :| Heard(n, n.sup.receipts[k].request, r);
        assert Heard(m, m.sup.receipts[k].request, r);
      } else {
        assert Heard(m, m.sup.receipts[k].request, e.response);
      }
    }
  }

  lemma {:induction false} RunHeardReceipts(cfg: Config, w: Worker, es: seq<NetEvent>)
    ensures ReceiptsHeard(NetAfter(cfg, w, es))
    decreases |es|
  {
    if es != [] {
      RunHeardReceipts(cfg, w, es[..|es| - 1]);
      StepKeepsReceiptsHeard(cfg, NetAfter(cfg, w, es[..|es| - 1]), es[|es| - 1]);
    }
  }

  lemma HeardWasFinished(cfg: Config, w: Worker, es: seq<NetEvent>, q: Request, r: Response)
    requires Heard(NetAfter(cfg, w, es), q, r)
    ensures Finished(cfg, Happenings(cfg, w, es), q)
  {
    RepliesWereGiven(cfg, w, es, q, r);
    var i :| AnsweredAt(cfg, w, es, i, q, r);
    AnsweredIsKnown(cfg, w, es, i, q, r);
    var hs := Happenings(cfg, w, es[..i + 1]);
    BridgeOfRun(cfg, w, es[..i + 1]);
    SuccessIsDurableExactlyWhen(cfg, hs, q);
    SavedWasFinished(cfg, hs, q);
    HappeningsGrow(cfg, w, es, i + 1);
    FinishedStays(cfg, hs, Happenings(cfg, w, es), q);
  }

  lemma AnsweredIsKnown(cfg: Config, w: Worker, es: seq<NetEvent>, i: nat, q: Request, r: Response)
    requires AnsweredAt(cfg, w, es, i, q, r)
    ensures
      var b := NetAfter(cfg, w, es[..i + 1]).bridge;
      !b.phase.Down? && Backed(b.world.memory, q)
  {
    var n := NetAfter(cfg, w, es[..i]);
    var h := MoveOf(n, es[i]).value;
    StepOf(cfg, w, es, i);
    MoveIsStep(cfg, n, es[i]);
    Lag(cfg, w, es[..i]);
    AcceptedReplyIsTrue(cfg, n.bridge, h);
    ReplyNeedsProcess(cfg, n.bridge, h);
  }

  /** Every success cached by the supervisor was one, and the bridge has an accepted journal entry for it exactly when
      the process that recorded it wrote the state file then or later, or is still alive. */
  lemma CachedSuccessIsBackedExactlyWhen(cfg: Config, w: Worker, es: seq<NetEvent>, k: string)
    requires k in NetAfter(cfg, w, es).sup.receipts && NetAfter(cfg, w, es).sup.receipts[k].response.accepted
    ensures
      var n, hs := NetAfter(cfg, w, es), Happenings(cfg, w, es);
      var q := n.sup.receipts[k].request;
      && Finished(cfg, hs, q)
      && (Backed(Durable(cfg, n.bridge.world), q) <==> Saved(cfg, hs, q))
      && (!n.bridge.phase.Down? ==> (Backed(n.bridge.world.memory, q) <==> Saved(cfg, hs, q) || Recent(cfg, hs, q)))
  {
    var n := NetAfter(cfg, w, es);
    var q := n.sup.receipts[k].request;
    RunHeardReceipts(cfg, w, es);
    var r :| Heard(n, q, r);
    HeardWasFinished(cfg, w, es, q, r);
    BridgeOfRun(cfg, w, es);
    SuccessIsDurableExactlyWhen(cfg, Happenings(cfg, w, es), q);
  }
}
