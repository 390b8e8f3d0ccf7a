/**
 What the lifecycle callbacks do to the flags of the safe-point handshake, in
 every interleaving with the training thread and status calls, and that a
 training thread which has been let go can leave.
 */
module PauseCallbacks {
  import opened PauseHandshake
  import opened Runs

  datatype Flags = Flags(pause: bool, resume: bool, stop: bool)

  function FlagsOf(s: State): Flags {
    Flags(s.pauseRequested, s.resumeAllowed, s.stopRequested)
  }

  /** What a callback makes of the flags, by its outcome. */
  function FlagsAfter(op: Operation, failed: bool, f: Flags): Flags {
    match op
    case Prepare => if failed then f.(pause := false, resume := true) else f.(pause := true, resume := false)
    case Halt => if failed then f.(pause := false, resume := true) else f.(resume := false)
    case Unload => f.(resume := false)
    case Continue => if failed then f else f.(pause := false, resume := true)
    case End(preserve) => if failed then f.(resume := true) else Flags(false, true, !preserve)
    case Plain => f
  }

  // ---------------------------------------------------------------- during a callback

  /** The event makes the callback fail: an external call raises, or the safe point is not reached in time. */
  predicate Fails(s: State, e: Step) {
    (e == Call(true) && s.control.Calling?) || (e.WaitTimeout? && WaitsForEvent(s.control))
  }

  ghost predicate Failed(s: State, es: seq<Step>)
    decreases |es|
  {
    es != [] && (Failed(s, es[..|es| - 1]) || Fails(Run(Next, s, es[..|es| - 1]), es[|es| - 1]))
  }

  /** The request is still being served and nobody closes the hook. */
  predicate Serving(e: Step) {
    !e.TakeLockAgain? && !e.Close?
  }

  /** Where the callback stands, and what it has made of the flags so far. */
  predicate Underway(op: Operation, f: Flags, failed: bool, c: Control, g: Flags) {
    match c
    case SetPause => op.Prepare? && !failed && g == f
    case HoldResume(o) =>
      o == op && !op.Continue? && !op.Plain? && !failed && g == f.(pause := op.Prepare? || f.pause)
    case AwaitEvent => op.Prepare? && !failed && g == f.(pause := true, resume := false)
    case Listening(_) => op.Prepare? && !failed && g == f.(pause := true, resume := false)
    case Calling(o) =>
      o == op && !op.Prepare? && !failed && g == if op.Continue? || op.Plain? then f else f.(resume := false)
    case SetStop(preserve) => op == End(preserve) && !failed && g == f.(resume := false)
    case DropPause =>
      if failed then (op.Prepare? || op.Halt?) && g.stop == f.stop
      else (op.Continue? && g.stop == f.stop) || (op.End? && g.stop == !op.preserve)
    case AllowResume =>
      if failed then
        if op.End? then g == f.(resume := false) else (op.Prepare? || op.Halt?) && !g.pause && g.stop == f.stop
      else
        !g.pause && ((op.Continue? && g.stop == f.stop) || (op.End? && g.stop == !op.preserve))
    case Outcome => g == FlagsAfter(op, failed, f)
    case _ => false
  }

  lemma TrainingKeepsPause(s: State, e: Step)
    ensures TrainingStep(s, e).pauseRequested == s.pauseRequested
  {
  }

  lemma TrainingKeepsStop(s: State, e: Step)
    ensures TrainingStep(s, e).stopRequested == s.stopRequested
  {
  }

  lemma TrainingStaysUnderway(op: Operation, f: Flags, failed: bool, s: State, e: Step)
    requires Underway(op, f, failed, s.control, FlagsOf(s)) && OfTraining(e)
    ensures Underway(op, f, failed, Next(s, e).control, FlagsOf(Next(s, e)))
  {
    TrainingKeepsPause(s, e);
    TrainingKeepsStop(s, e);
    TrainingKeepsResume(s, e);
    TrainingOfControl(s, e);
  }

  lemma WaitStaysUnderway(op: Operation, f: Flags, failed: bool, s: State)
    requires Underway(op, f, failed, s.control, FlagsOf(s)) && WaitsForEvent(s.control)
    ensures Underway(op, f, failed, WaitStep(s).control, FlagsOf(WaitStep(s)))
  {
  }

  function FlagsMoved(c: Control, g: Flags): Flags {
    match c
    case SetPause => g.(pause := true)
    case HoldResume(_) => g.(resume := false)
    case SetStop(preserve) => g.(stop := !preserve)
    case DropPause => g.(pause := false)
    case AllowResume => g.(resume := true)
    case _ => g
  }

  function ControlMoved(c: Control): Control {
    match c
    case SetPause => HoldResume(Prepare)
    case HoldResume(op) => if op.Prepare? then AwaitEvent else Calling(op)
    case SetStop(_) => DropPause
    case DropPause => AllowResume
    case AllowResume => Outcome
    case _ => c
  }

  lemma FlagStepOfPause(s: State)
    ensures
      FlagStep(s).pauseRequested ==
      if s.control.SetPause? then true else if s.control.DropPause? then false else s.pauseRequested
  {
  }

  lemma FlagStepOfResume(s: State)
    ensures
      FlagStep(s).resumeAllowed ==
      if s.control.HoldResume? then false else if s.control.AllowResume? then true else s.resumeAllowed
  {
  }

  lemma FlagStepOfStop(s: State)
    ensures FlagStep(s).stopRequested == if s.control.SetStop? then !s.control.preserve else s.stopRequested
  {
  }

  lemma FlagStepOfFlags(s: State)
    ensures FlagsOf(FlagStep(s)) == FlagsMoved(s.control, FlagsOf(s))
  {
    FlagStepOfPause(s);
    FlagStepOfResume(s);
    FlagStepOfStop(s);
  }

  lemma FlagStepOfControl(s: State)
    ensures FlagStep(s).control == ControlMoved(s.control)
  {
  }

  lemma FlagStaysUnderway(op: Operation, f: Flags, failed: bool, s: State)
    requires Underway(op, f, failed, s.control, FlagsOf(s)) && !WaitsForEvent(s.control)
    ensures Underway(op, f, failed, FlagStep(s).control, FlagsOf(FlagStep(s)))
  {
    FlagStepOfFlags(s);
    FlagStepOfControl(s);
    MovedStaysUnderway(op, f, failed, s.control, FlagsOf(s));
  }

  lemma MovedStaysUnderway(op: Operation, f: Flags, failed: bool, c: Control, g: Flags)
    requires Underway(op, f, failed, c, g) && !WaitsForEvent(c)
    ensures Underway(op, f, failed, ControlMoved(c), FlagsMoved(c, g))
  {
  }

  lemma ControlKeepsFlags(s: State, e: Step)
    requires !e.Access?
    ensures FlagsOf(ControlStep(s, e)) == FlagsOf(s)
  {
  }

  /** Within a callback only a timeout and the end of an external call move the control thread on. */
  lemma ControlOfCallback(s: State, e: Step)
    requires !e.Access? && Serving(e)
    requires !s.control.Idle? && !s.control.Intent? && !s.control.Recording? && !s.control.Writing?
    ensures
      ControlStep(s, e).control ==
      if e.WaitTimeout? && WaitsForEvent(s.control) then DropPause
      else if e.Call? && s.control.Calling? then AfterCall(s.control.op, e.raised)
      else s.control
  {
    ControlOfStep(s, e);
  }

  lemma ControlStaysUnderway(op: Operation, f: Flags, failed: bool, s: State, e: Step)
    requires Underway(op, f, failed, s.control, FlagsOf(s)) && OfControl(e) && !e.Access? && Serving(e)
    ensures Underway(op, f, failed || Fails(s, e), ControlStep(s, e).control, FlagsOf(ControlStep(s, e)))
  {
    ControlKeepsFlags(s, e);
    ControlOfCallback(s, e);
  }

  lemma OtherStaysUnderway(op: Operation, f: Flags, failed: bool, s: State, e: Step)
    requires Underway(op, f, failed, s.control, FlagsOf(s)) && !OfTraining(e) && !OfControl(e) && Serving(e)
    ensures Underway(op, f, failed, OtherStep(s, e).control, FlagsOf(OtherStep(s, e)))
  {
    StatusKeepsCallback(s, e);
  }

  lemma StatusKeepsCallback(s: State, e: Step)
    requires !e.Close?
    ensures OtherStep(s, e).control == s.control && FlagsOf(OtherStep(s, e)) == FlagsOf(s)
  {
  }

  lemma StepStaysUnderway(op: Operation, f: Flags, failed: bool, s: State, e: Step)
    requires Underway(op, f, failed, s.control, FlagsOf(s)) && Serving(e)
    ensures Underway(op, f, failed || Fails(s, e), Next(s, e).control, FlagsOf(Next(s, e)))
  {
    if OfTraining(e) {
      TrainingStaysUnderway(op, f, failed, s, e);
    } else if e.Access? {
      if WaitsForEvent(s.control) {
        WaitStaysUnderway(op, f, failed, s);
      } else {
        FlagStaysUnderway(op, f, failed, s);
      }
    } else if OfControl(e) {
      ControlStaysUnderway(op, f, failed, s, e);
    } else {
      OtherStaysUnderway(op, f, failed, s, e);
    }
  }

  lemma {:induction false} RunStaysUnderway(op: Operation, s: State, es: seq<Step>)
    requires s.control == Start(op) && forall i :: 0 <= i < |es| ==> Serving(es[i])
    ensures Underway(op, FlagsOf(s), Failed(s, es), Run(Next, s, es).control, FlagsOf(Run(Next, s, es)))
    decreases |es|
  {
    if es != [] {
      var front, e := es[..|es| - 1], es[|es| - 1];
      RunStaysUnderway(op, s, front);
      StepStaysUnderway(op, FlagsOf(s), Failed(s, front), Run(Next, s, front), e);
    }
  }

  /** However a callback interleaves with the training thread and status calls: when it is over, the flags are what its
      outcome demands. A prepare that succeeded holds the thread and one that failed lets it go; a failed pause lets it
      go; a resume or stop that succeeded lets it go; an offload keeps holding it even when it fails. */
  lemma FlagsAfterCallback(op: Operation, s: State, es: seq<Step>)
    requires s.control == Start(op) && (forall i :: 0 <= i < |es| ==> Serving(es[i]))
    requires Run(Next, s, es).control.Outcome?
    ensures FlagsOf(Run(Next, s, es)) == FlagsAfter(op, Failed(s, es), FlagsOf(s))
  {
    RunStaysUnderway(op, s, es);
  }

  /** Closing the hook stops the worker and lets the thread go, in three steps. */
  lemma CloseLetsGo(s: State)
    requires s.closing == 0
    ensures
      var t := Next(Next(Next(s, Close), Close), Close);
      t.stopEvent && !t.pauseRequested && t.resumeAllowed && !t.window
  {
  }

  // ------------------------------------------------------------------- being let go

  /** No flag holds the thread. */
  predicate LetGo(s: State) {
    s.resumeAllowed || Stopping(s)
  }

  /** Whoever holds the state lock releases it and the thread makes its observation. */
  function ToTheCheck(): seq<Step> {
    [StatusUnlock, Recorded, Written(false), TakeLock, Emit(false)]
  }

  function PastTheCheck(): seq<Step> {
    [CheckPause, RestTimeout, CheckStop, PollResume, RestTimeout]
  }

  function OutOfTheDoor(): seq<Step> {
    [CheckStop, ClearEvent] + [Return]
  }

  predicate Passing(s: State) {
    LetGo(s) && (Inside(s.training) || s.training.Cleared?)
  }

  lemma UnlockKeepsPassing(s: State)
    requires LocksHeld(s) && Passing(s)
    ensures
      var t := Next(Next(Next(s, StatusUnlock), Recorded), Written(false));
      Passing(t) && t.training == s.training && (t.stateLock.Free? || t.training.Observing?)
  {
  }

  lemma ObservesThen(s: State)
    requires Passing(s) && (s.stateLock.Free? || s.training.Observing?)
    ensures
      var t := Next(Next(s, TakeLock), Emit(false));
      Passing(t) && !t.training.Announced? && !t.training.Observing?
  {
  }

  lemma ChecksThen(s: State)
    requires Passing(s) && !s.training.Announced? && !s.training.Observing?
    ensures
      var t := Next(Next(Next(s, CheckPause), RestTimeout), CheckStop);
      Passing(t) && (t.training.Polling? || t.training.Leaving? || t.training.Cleared?)
  {
  }

  lemma PollsThen(s: State)
    requires Passing(s) && (s.training.Polling? || s.training.Leaving? || s.training.Cleared?)
    ensures
      var t := Next(Next(Next(s, PollResume), RestTimeout), CheckStop);
      Passing(t) && (t.training.Leaving? || t.training.Cleared?)
  {
  }

  lemma LeavesThen(s: State)
    requires Passing(s) && (s.training.Leaving? || s.training.Cleared?)
    ensures
      var t := Next(Next(s, ClearEvent), Return);
      t.training.Outside? && (s.stopRequested ==> t.stopEvent)
  {
  }

  lemma KeepsStopRequest(s: State, es: seq<Step>, a: Step, b: Step, c: Step, d: Step, e: Step)
    requires es == [a, b, c, d, e] && !a.Access? && !b.Access? && !c.Access? && !d.Access? && !e.Access?
    ensures Run(Next, s, es).stopRequested == s.stopRequested
  {
    RunFive(Next, s, a, b, c, d, e);
    OneKeepsStop(s, a);
    OneKeepsStop(Next(s, a), b);
    OneKeepsStop(Next(Next(s, a), b), c);
    OneKeepsStop(Next(Next(Next(s, a), b), c), d);
    OneKeepsStop(Next(Next(Next(Next(s, a), b), c), d), e);
  }

  lemma OneKeepsStop(s: State, e: Step)
    requires !e.Access?
    ensures Next(s, e).stopRequested == s.stopRequested
  {
    if OfTraining(e) {
      TrainingKeepsStop(s, e);
    } else if OfControl(e) {
      ControlKeepsFlags(s, e);
    }
  }

  /** A training thread that no flag holds can leave, whatever it is doing: with one step of whoever holds the state
      lock and its own steps. If the worker was asked to stop, leaving sets the stop event. */
  lemma LetGoLeaves(paused: bool, terminated: bool, es: seq<Step>)
    requires Passing(After(paused, terminated, es))
    ensures
      var s := After(paused, terminated, es);
      var t := Run(Next, Run(Next, Run(Next, s, ToTheCheck()), PastTheCheck()), OutOfTheDoor());
      t.training.Outside? && (s.stopRequested ==> t.stopEvent)
  {
    var s := After(paused, terminated, es);
    RunIsSafe(paused, terminated, es);
    ToCheck(s, ToTheCheck());
    PastCheckThen(Run(Next, s, ToTheCheck()), PastTheCheck(), OutOfTheDoor());
    KeepsStopRequest(s, ToTheCheck(), StatusUnlock, Recorded, Written(false), TakeLock, Emit(false));
    KeepsStopRequest(
      Run(Next, s, ToTheCheck()), PastTheCheck(), CheckPause, RestTimeout, CheckStop, PollResume, RestTimeout);
  }

  lemma ToCheck(s: State, go: seq<Step>)
    requires LocksHeld(s) && Passing(s) && go == ToTheCheck()
    ensures
      var t := Run(Next, s, go);
      Passing(t) && !t.training.Announced? && !t.training.Observing?
  {
    RunFive(Next, s, StatusUnlock, Recorded, Written(false), TakeLock, Emit(false));
    UnlockKeepsPassing(s);
    ObservesThen(Next(Next(Next(s, StatusUnlock), Recorded), Written(false)));
  }

  lemma PastCheckThen(s: State, past: seq<Step>, out: seq<Step>)
    requires Passing(s) && !s.training.Announced? && !s.training.Observing?
    requires past == PastTheCheck() && out == OutOfTheDoor()
    ensures
      var t := Run(Next, Run(Next, s, past), out);
      t.training.Outside? && (Run(Next, s, past).stopRequested ==> t.stopEvent)
  {
    RunFive(Next, s, CheckPause, RestTimeout, CheckStop, PollResume, RestTimeout);
    var u := Run(Next, s, past);
    RunConcat(Next, u, [CheckStop, ClearEvent], [Return]);
    RunTwo(Next, u, CheckStop, ClearEvent);
    RunOne(Next, Run(Next, u, [CheckStop, ClearEvent]), Return);
    ChecksThen(s);
    PollsThen(Next(Next(Next(s, CheckPause), RestTimeout), CheckStop));
    LeavesThen(Next(u, CheckStop));
    OneKeepsStop(u, CheckStop);
  }
}
