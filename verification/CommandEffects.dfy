/**
 What every lifecycle command leaves behind on a healthy worker, however often
 it was interrupted and retried before it got through.
 */
module CommandEffects {
  import opened Common
  import opened Bridge
  import opened BridgeEffects
  import opened ControlSequence

  /** What the command makes of worker `c`. */
  ghost predicate EndsAs(react: Reaction, p: Plan, ref: string, c: Control, d: Control)
    requires Healthy(react)
  {
    var saved := react(RequestOf(p, Checkpoint, NonEmpty(c.checkpointRef, ref))).0.checkpointRef;
    match p.command
    case Offline => d == c
    case Launch => d == c
    case PauseWorker => d == c.(state := Paused, safePoint := true, ready := false)
    case CheckpointWorker =>
      d == c.(state := Running, safePoint := false, ready := true, offloaded := false, checkpointRef := saved)
    case SleepWorker =>
      d == c.(state := Sleeping, safePoint := true, ready := false, offloaded := true, checkpointRef := saved)
    case WakeWorker =>
      d == c.(state := Running, safePoint := false, ready := true, offloaded := false,
              generation := p.generation, share := p.share,
              deviceId := NonEmpty(p.deviceId, c.deviceId), bindingId := NonEmpty(p.bindingId, c.bindingId),
              checkpointRef := NonEmpty(ref, c.checkpointRef))
    case Terminate => d == c.(state := Terminated, ready := false)
    case Single(a) =>
      var req := RequestOf(p, a, ref);
      if a.Status? then d == c else HasEffect(c, req, react(req).0, d)
  }

  /** The command is meant for this generation, or for the next one if it reloads; a wake needs a checkpoint, and a
      single action whatever that action needs. */
  ghost predicate Applicable(react: Reaction, p: Plan, ref: string, c: Control) {
    && (|| p.generation == c.generation
        || ((p.command.WakeWorker? || p.command == Single(Reload)) && p.generation == c.generation + 1))
    && (p.command.WakeWorker? ==> NonEmpty(ref, c.checkpointRef) != "")
    && (p.command.Single? && !p.command.action.Status? ==>
          var req := RequestOf(p, p.command.action, ref);
          Possible(c, req, react(req).0))
  }

  /** The names of the supported actions are different. */
  lemma NamesDiffer(a: Action, b: Action)
    requires !a.Unsupported? && !b.Unsupported? && a != b
    ensures ActionName(a) != ActionName(b)
  {
    assert |ActionName(PreparePause)| == |ActionName(WeightUpdate)| == 13 && ActionName(WeightUpdate)[0] == 'w';
    assert |ActionName(Checkpoint)| == 10 && |ActionName(Offload)| == 7 && |ActionName(Stop)| == 4;
    assert |ActionName(Pause)| == |ActionName(Sleep)| == 5 && ActionName(Pause)[0] == 'p';
    assert |ActionName(Status)| == |ActionName(Reload)| == |ActionName(Resume)| == 6;
    assert ActionName(Status)[2] == 'a' && ActionName(Reload)[2] == 'l' && ActionName(Resume)[2] == 's';
  }

  lemma CommandFits(cfg: Config, react: Reaction, p: Plan, w: World)
    requires |w.memory.responses| + |SubActions(p.command)| <= cfg.maxReceipts
    requires forall a :: Key(p, a) !in w.memory.responses
    ensures Fits(ClientOf(cfg, react, p), w)
  {
    var c := ClientOf(cfg, react, p);
    forall a, b | a in c.script.actions && b in c.script.actions && a != b ensures c.key(a) != c.key(b) {
      NamesDiffer(a, b);
      KeysDiffer(p, a, p, b);
    }
  }

  lemma {:induction false} PauseEnds(c: Client, w: World, ref: string)
    requires Represents(c) && c.script.actions == [PreparePause, Pause]
    requires Fits(c, w) && c.plan.generation == w.memory.control.generation
    ensures
      var a := Uninterrupted(c, w, ref);
      && a.outcome.Succeeded?
      && a.world.memory.control == w.memory.control.(state := Paused, safePoint := true, ready := false)
  {
    var v, mid, last := FirstPrepares(c, w, ref);
    assert Builds(c, Pause, mid);
    var done := Advance(c, v, 1, mid, Some(last), v.memory.control.(state := Paused));
  }

  lemma {:induction false} CheckpointEnds(c: Client, w: World, ref: string)
    requires Represents(c) && c.script.actions == [PreparePause, Checkpoint, Resume]
    requires Fits(c, w) && c.plan.generation == w.memory.control.generation
    ensures
      var a := Uninterrupted(c, w, ref);
      var asked := NonEmpty(w.memory.control.checkpointRef, ref);
      && a.outcome.Succeeded?
      && a.world.memory.control ==
         w.memory.control.(state := Running, safePoint := false, ready := true, offloaded := false,
                           checkpointRef := c.react(c.script.build(Checkpoint, asked)).0.checkpointRef)
  {
    var v, last, saved := ThenCheckpoints(c, w, ref);
    assert Builds(c, Resume, saved);
    var d := v.memory.control.(state := Running, safePoint := false, ready := true, offloaded := false);
    var done := Advance(c, v, 2, saved, Some(last), d);
  }

  lemma {:induction false} SleepEnds(c: Client, w: World, ref: string)
    requires Represents(c) && c.script.actions == [PreparePause, Checkpoint, Offload]
    requires Fits(c, w) && c.plan.generation == w.memory.control.generation
    ensures
      var a := Uninterrupted(c, w, ref);
      var asked := NonEmpty(w.memory.control.checkpointRef, ref);
      && a.outcome.Succeeded?
      && a.world.memory.control ==
         w.memory.control.(state := Sleeping, safePoint := true, ready := false, offloaded := true,
                           checkpointRef := c.react(c.script.build(Checkpoint, asked)).0.checkpointRef)
  {
    var v, last, saved := ThenCheckpoints(c, w, ref);
    assert Builds(c, Offload, saved);
    var done := Advance(c, v, 2, saved, Some(last), v.memory.control.(state := Sleeping, offloaded := true));
  }

  lemma {:induction false} ActionEnds(c: Client, w: World, ref: string, a: Action)
    requires Represents(c) && c.script.actions == [a] && Fits(c, w)
    requires c.plan.generation == w.memory.control.generation ||
             (a.Reload? && c.plan.generation == w.memory.control.generation + 1)
    requires Possible(w.memory.control, c.script.build(a, ref), c.react(c.script.build(a, ref)).0)
    ensures
      var done := Uninterrupted(c, w, ref);
      var req := c.script.build(a, ref);
      && done.outcome.Succeeded?
      && HasEffect(w.memory.control, req, c.react(req).0, done.world.memory.control)
  {
    var req := c.script.build(a, ref);
    assert Builds(c, a, ref);
    EffectOfAction(w.memory.control, req, c.react(req).0);
    var v := Advance(c, w, 0, ref, None, ApplyControl(w.memory.control, req, c.react(req).0).control);
  }

  lemma {:induction false} StatusEnds(c: Client, w: World, ref: string)
    requires Represents(c) && c.script.actions == [Status] && c.plan.generation == w.memory.control.generation
    ensures
      var a := Uninterrupted(c, w, ref);
      && a.world == w
      && a.outcome.Succeeded? && a.outcome.response.Some? && Shows(a.outcome.response.value, w.memory.control)
  {
    var req := c.script.build(Status, ref);
    assert Builds(c, Status, ref) && Serves(c, w, req) && c.key(Status) != "";
    OtherAnswers(c.cfg, w, req, Surroundings(c.react, req, RELIABLE));
    var r := c.serve(w, req, RELIABLE).response;
    assert Drive(c.serve, c.script, w, [], 1, NextRef(r, ref), Some(r)).outcome == Succeeded(Some(r));
  }

  lemma StopHasEffect(c: Control, req: Request, cb: CallbackResult, d: Control)
    requires req.action.Stop? && cb.Returned? && HasEffect(c, req, cb, d)
    ensures d == c.(state := Terminated, ready := false)
  {
  }

  lemma {:induction false} UninterruptedEnds(cfg: Config, react: Reaction, p: Plan, w: World, ref: string)
    requires Healthy(react) && p.sandboxId == cfg.identity.sandboxId && Applicable(react, p, ref, w.memory.control)
    requires |w.memory.responses| + |SubActions(p.command)| <= cfg.maxReceipts
    requires forall a :: Key(p, a) !in w.memory.responses
    ensures
      var a := Uninterrupted(ClientOf(cfg, react, p), w, ref);
      a.outcome.Succeeded? && EndsAs(react, p, ref, w.memory.control, a.world.memory.control)
  {
    var c := ClientOf(cfg, react, p);
    ClientRepresents(cfg, react, p);
    CommandFits(cfg, react, p, w);
    assert forall a, r :: c.script.build(a, r) == RequestOf(p, a, r);
    match p.command
    case Offline =>
    case Launch => StatusEnds(c, w, ref);
    case PauseWorker => PauseEnds(c, w, ref);
    case CheckpointWorker => CheckpointEnds(c, w, ref);
    case SleepWorker => SleepEnds(c, w, ref);
    case WakeWorker => WakeSucceeds(c, w, ref);
    case Terminate =>
      ActionEnds(c, w, ref, Stop);
      var req := RequestOf(p, Stop, ref);
      StopHasEffect(w.memory.control, req, react(req).0, Uninterrupted(c, w, ref).world.memory.control);
    case Single(a) =>
      if a.Status? { StatusEnds(c, w, ref); } else { ActionEnds(c, w, ref, a); }
  }

  /** Every command that applies to a healthy worker succeeds after any number of interrupted attempts, and leaves the
      worker as the command promises. */
  lemma {:induction false} CommandsEnd(
    cfg: Config, react: Reaction, p: Plan, w: World, tries: seq<seq<Link>>, ref: string)
    requires Healthy(react) && p.sandboxId == cfg.identity.sandboxId && Applicable(react, p, ref, w.memory.control)
    requires |w.memory.responses| + |SubActions(p.command)| <= cfg.maxReceipts
    requires forall a :: Key(p, a) !in w.memory.responses
    ensures
      var a := Retried(ClientOf(cfg, react, p), w, tries, ref);
      a.outcome.Succeeded? && EndsAs(react, p, ref, w.memory.control, a.world.memory.control)
  {
    UninterruptedEnds(cfg, react, p, w, ref);
    RetriedIsUninterrupted(cfg, react, p, w, tries, ref);
  }
}
