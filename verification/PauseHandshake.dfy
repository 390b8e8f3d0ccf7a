/**
 The handshake between the control thread, which runs lifecycle callbacks
 (`VerlTrainerCallbacks`), and the training thread, which passes through
 `VerlControlHook.safe_point`. Every read or write of a shared flag and every
 lock operation is one step, and the threads interleave freely. A third thread
 may close the hook, and status calls may hold the bridge's state lock. An
 observation may raise before or after it has taken that lock.

 `Event.wait` first reads the flag. If it is down the caller is registered, and
 from then on a `set` is latched: the wait returns true even if the flag has
 been cleared again before the caller runs.
 */
module PauseHandshake {
  import opened Runs

  /** The training thread inside `safe_point`; `failed` marks an observation that raised. */
  datatype Training =
    | Outside
    | Entered                  // holds the safe-point lock, about to set the event
    | Announced                // event set, about to take the state lock and emit
    | Observing                // holds the state lock
    | Checking                 // about to read the pause flag
    | Waiting                  // top of the polling loop: about to read the stop flags
    | Polling                  // about to wait for the resume flag
    | Resting(notified: bool)  // registered with the resume flag
    | Leaving(failed: bool)    // about to clear the event
    | Cleared(failed: bool)    // about to run finish_safe_point and return

  /** `Halt` stands for pause and sleep, `Plain` for callbacks that touch no flag. */
  datatype Operation = Prepare | Halt | Unload | Continue | End(preserve: bool) | Plain

  /** The control thread serving one mutation; between `Recording` and `Outcome` it runs the callback. */
  datatype Control =
    | Idle
    | Intent(op: Operation)        // holds the mutation lock, wants the state lock
    | Recording(op: Operation)     // holds both
    | SetPause                     // prepare_pause: about to set the pause flag
    | HoldResume(op: Operation)    // about to clear the resume flag
    | AwaitEvent                   // prepare_pause: about to wait for the event
    | Listening(notified: bool)    // prepare_pause: registered with the event
    | Calling(op: Operation)       // about to call the checkpoint manager
    | SetStop(preserve: bool)      // stop: about to write the stop flag
    | DropPause                    // letting go: about to clear the pause flag
    | AllowResume                  // letting go: about to set the resume flag
    | Outcome                      // wants the state lock again
    | Writing                      // holds both

  datatype Holder = Free | ByControl | ByTraining | ByStatus

  datatype State = State(
    training: Training, control: Control, stateLock: Holder, mutationLock: Holder,
    pauseRequested: bool, resumeAllowed: bool, event: bool, stopRequested: bool, stopEvent: bool, closing: nat,
    window: bool, exits: nat, failures: nat)

  datatype Step =
    // training thread
    | Enter | Announce | Raise | TakeLock | Emit(raised: bool) | CheckPause | CheckStop | PollResume | Wake
    | RestTimeout | ClearEvent | Return
    // control thread
    | Accept(op: Operation) | Record | Recorded | Access | WaitTimeout | Call(raised: bool) | TakeLockAgain
    | Written(more: bool)
    // status calls and close()
    | StatusLock | StatusUnlock | Close

  /** After `restore_bridge_state`. */
  function Initial(paused: bool, terminated: bool): State {
    State(Outside, Idle, Free, Free, false, !paused || terminated, false, terminated, false, 0, false, 0, 0)
  }

  predicate Stopping(s: State) {
    s.stopRequested || s.stopEvent
  }

  function TrainingStep(s: State, e: Step): State {
    match e
    case Enter => if s.training.Outside? then s.(training := Entered) else s
    case Announce =>
      if s.training.Entered? then
        s.(training := Announced, event := true, control := if s.control.Listening? then Listening(true) else s.control)
      else s
    case Raise => if s.training.Announced? then s.(training := Leaving(true)) else s
    case TakeLock =>
      if s.training.Announced? && s.stateLock.Free? then s.(training := Observing, stateLock := ByTraining) else s
    case Emit(raised) =>
      if s.training.Observing? then s.(training := if raised then Leaving(true) else Checking, stateLock := Free) else s
    case CheckPause =>
      if s.training.Checking? then s.(training := if s.pauseRequested then Waiting else Leaving(false)) else s
    case CheckStop => if s.training.Waiting? then s.(training := if Stopping(s) then Leaving(false) else Polling) else s
    case PollResume =>
      if s.training.Polling? then s.(training := if s.resumeAllowed then Leaving(false) else Resting(false)) else s
    case Wake => if s.training == Resting(true) then s.(training := Leaving(false)) else s
    case RestTimeout => if s.training.Resting? then s.(training := Waiting) else s
    case ClearEvent => if s.training.Leaving? then s.(training := Cleared(s.training.failed), event := false) else s
    case Return =>
      if s.training.Cleared? then
        s.(training := Outside, stopEvent := s.stopEvent || s.stopRequested,
           exits := if s.window && !s.training.failed then s.exits + 1 else s.exits,
           failures := if s.window && s.training.failed then s.failures + 1 else s.failures)
      else s
    case _ => s
  }

  /** The first line of a callback. */
  function Start(op: Operation): Control {
    match op
    case Prepare => SetPause
    case Halt => HoldResume(op)
    case Unload => HoldResume(op)
    case End(_) => HoldResume(op)
    case _ => Calling(op)
  }

  /** Sets the resume flag and notifies a waiting training thread. */
  function SetResume(s: State): State {
    s.(resumeAllowed := true, training := if s.training.Resting? then Resting(true) else s.training)
  }

  /** `prepare_pause` returns true. The window opens unless the worker is stopping. */
  function Prepared(s: State): State {
    if s.window then s.(control := Outcome)
    else s.(control := Outcome, window := !Stopping(s), exits := 0, failures := 0)
  }

  predicate WaitsForEvent(c: Control) {
    c.AwaitEvent? || c.Listening?
  }

  /** `prepare_pause` waiting for the event. */
  function WaitStep(s: State): State {
    if s.control.AwaitEvent? && !s.event then s.(control := Listening(false))
    else if s.control == Listening(false) then s
    else Prepared(s)
  }

  /** One flag access of a callback. The window closes with the first access that lets the training thread go. */
  function FlagStep(s: State): State {
    match s.control
    case SetPause => s.(pauseRequested := true, control := HoldResume(Prepare))
    case HoldResume(op) => s.(resumeAllowed := false, control := if op.Prepare? then AwaitEvent else Calling(op))
    case SetStop(preserve) => s.(stopRequested := !preserve, window := false, control := DropPause)
    case DropPause => s.(pauseRequested := false, window := false, control := AllowResume)
    case AllowResume => SetResume(s).(window := false, control := Outcome)
    case _ => s
  }

  function AccessStep(s: State): State {
    if WaitsForEvent(s.control) then WaitStep(s) else FlagStep(s)
  }

  /** Where a callback goes after its external calls. */
  function AfterCall(op: Operation, raised: bool): Control {
    match op
    case Halt => if raised then DropPause else Outcome
    case Continue => if raised then Outcome else DropPause
    case End(preserve) => if raised then AllowResume else SetStop(preserve)
    case _ => Outcome
  }

  function ControlStep(s: State, e: Step): State {
    match e
    case Accept(op) =>
      if s.control.Idle? && s.mutationLock.Free? then s.(control := Intent(op), mutationLock := ByControl) else s
    case Record =>
      if s.control.Intent? && s.stateLock.Free?
      then s.(control := Recording(s.control.op), stateLock := ByControl)
      else s
    case Recorded => if s.control.Recording? then s.(control := Start(s.control.op), stateLock := Free) else s
    case Access => AccessStep(s)
    case WaitTimeout => if s.control.AwaitEvent? || s.control.Listening? then s.(control := DropPause) else s
    case Call(raised) => if s.control.Calling? then s.(control := AfterCall(s.control.op, raised)) else s
    case TakeLockAgain =>
      if s.control.Outcome? && s.stateLock.Free? then s.(control := Writing, stateLock := ByControl) else s
    case Written(more) =>
      if !s.control.Writing? then s
      else if more then s.(control := Outcome, stateLock := Free)
      else s.(control := Idle, stateLock := Free, mutationLock := Free)
    case _ => s
  }

  function OtherStep(s: State, e: Step): State {
    match e
    case StatusLock => if s.stateLock.Free? then s.(stateLock := ByStatus) else s
    case StatusUnlock => if s.stateLock.ByStatus? then s.(stateLock := Free) else s
    case Close =>
      if s.closing == 0 then s.(stopEvent := true, window := false, closing := 1)
      else if s.closing == 1 then s.(pauseRequested := false, closing := 2)
      else SetResume(s).(closing := 3)
    case _ => s
  }

  predicate OfTraining(e: Step) {
    || e.Enter? || e.Announce? || e.Raise? || e.TakeLock? || e.Emit? || e.CheckPause? || e.CheckStop?
    || e.PollResume? || e.Wake? || e.RestTimeout? || e.ClearEvent? || e.Return?
  }

  predicate OfControl(e: Step) {
    || e.Accept? || e.Record? || e.Recorded? || e.Access? || e.WaitTimeout? || e.Call? || e.TakeLockAgain?
    || e.Written?
  }

  function Next(s: State, e: Step): State {
    if OfTraining(e) then TrainingStep(s, e) else if OfControl(e) then ControlStep(s, e) else OtherStep(s, e)
  }

  // -------------------------------------------------------------------- invariants

  /** Between announcing the safe point and leaving it. */
  predicate Inside(t: Training) {
    !(t.Outside? || t.Entered? || t.Cleared?)
  }

  predicate EventMeansInside(s: State) {
    s.event <==> Inside(s.training)
  }

  predicate LocksHeld(s: State) {
    && (s.stateLock.ByTraining? <==> s.training.Observing?)
    && (s.stateLock.ByControl? <==> s.control.Recording? || s.control.Writing?)
    && s.mutationLock == (if s.control.Idle? then Free else ByControl)
  }

  /** The thread will leave, or can leave, whatever the flags say now. */
  predicate PastCheck(t: Training) {
    t == Leaving(false) || t == Cleared(false) || t == Resting(true)
  }

  predicate Bounded(s: State) {
    && (s.closing > 0 ==> s.stopEvent)
    && (s.window ==>
          && s.pauseRequested && !s.resumeAllowed && !Stopping(s)
          && s.exits + (if PastCheck(s.training) then 1 else 0) <= 1)
    && (s.control == HoldResume(Prepare) ==> s.pauseRequested || s.closing > 0)
    && (WaitsForEvent(s.control) ==> (s.pauseRequested && !s.resumeAllowed) || s.closing > 0)
    && (s.control == Listening(false) ==> !s.event)
  }

  /** A thread that announced itself during the wait has not been notified by an earlier resume. */
  predicate NoStaleNotice(s: State) {
    s.control.Listening? && s.closing == 0 ==> s.training != Resting(true)
  }

  predicate Safe(s: State) {
    EventMeansInside(s) && LocksHeld(s) && Bounded(s) && NoStaleNotice(s)
  }

  lemma TrainingIsSafe(s: State, e: Step)
    requires Safe(s) && OfTraining(e)
    ensures Safe(TrainingStep(s, e))
  {
  }

  lemma AccessKeepsBound(s: State)
    requires Bounded(s)
    ensures Bounded(AccessStep(s))
  {
  }

  lemma AccessStateLock(s: State)
    ensures AccessStep(s).stateLock == s.stateLock
  {
  }

  lemma AccessMutationLock(s: State)
    ensures AccessStep(s).mutationLock == s.mutationLock
  {
  }

  lemma WaitOfTraining(s: State)
    ensures WaitStep(s).training == s.training
  {
  }

  lemma FlagOfTraining(s: State)
    ensures
      FlagStep(s).training == if s.control.AllowResume? && s.training.Resting? then Resting(true) else s.training
  {
  }

  lemma AccessOfTraining(s: State)
    ensures
      AccessStep(s).training == if s.control.AllowResume? && s.training.Resting? then Resting(true) else s.training
  {
    if WaitsForEvent(s.control) {
      WaitOfTraining(s);
    } else {
      FlagOfTraining(s);
    }
  }

  lemma AccessOfEvent(s: State)
    ensures AccessStep(s).event == s.event
  {
  }

  lemma KeepsEvent(s: State, t: State)
    requires EventMeansInside(s) && t.event == s.event
    requires t.training == if s.control.AllowResume? && s.training.Resting? then Resting(true) else s.training
    ensures EventMeansInside(t)
  {
  }

  lemma AccessKeepsEvent(s: State)
    requires EventMeansInside(s)
    ensures EventMeansInside(AccessStep(s))
  {
    AccessOfTraining(s);
    AccessOfEvent(s);
    KeepsEvent(s, AccessStep(s));
  }

  lemma AccessKeepsNotice(s: State)
    requires EventMeansInside(s) && NoStaleNotice(s)
    ensures NoStaleNotice(AccessStep(s))
  {
    AccessOfTraining(s);
  }

  lemma AccessOfControl(s: State)
    ensures
      var c, d := s.control, AccessStep(s).control;
      c == d || (!c.Idle? && !d.Idle? && !c.Recording? && !d.Recording? && !c.Writing? && !d.Writing?)
  {
  }

  lemma KeepsLocks(s: State, t: State)
    requires LocksHeld(s) && t.stateLock == s.stateLock && t.mutationLock == s.mutationLock
    requires t.training == if s.control.AllowResume? && s.training.Resting? then Resting(true) else s.training
    requires
      var c, d := s.control, t.control;
      c == d || (!c.Idle? && !d.Idle? && !c.Recording? && !d.Recording? && !c.Writing? && !d.Writing?)
    ensures LocksHeld(t)
  {
  }

  lemma AccessKeepsLocks(s: State)
    requires LocksHeld(s)
    ensures LocksHeld(AccessStep(s))
  {
    AccessStateLock(s);
    AccessMutationLock(s);
    AccessOfTraining(s);
    AccessOfControl(s);
    KeepsLocks(s, AccessStep(s));
  }

  lemma AccessIsSafe(s: State)
    requires Safe(s)
    ensures Safe(AccessStep(s))
  {
    AccessKeepsBound(s);
    AccessKeepsEvent(s);
    AccessKeepsNotice(s);
    AccessKeepsLocks(s);
  }

  lemma ControlIsSafe(s: State, e: Step)
    requires Safe(s) && OfControl(e)
    ensures Safe(ControlStep(s, e))
  {
    if e.Access? { AccessIsSafe(s); }
  }

  lemma StepIsSafe(s: State, e: Step)
    requires Safe(s)
    ensures Safe(Next(s, e))
  {
    if OfTraining(e) {
      TrainingIsSafe(s, e);
    } else if OfControl(e) {
      ControlIsSafe(s, e);
    }
  }

  lemma {:induction false} RunIsSafe(paused: bool, terminated: bool, es: seq<Step>)
    ensures Safe(Run(Next, Initial(paused, terminated), es))
    decreases |es|
  {
    if es != [] {
      RunIsSafe(paused, terminated, es[..|es| - 1]);
      StepIsSafe(Run(Next, Initial(paused, terminated), es[..|es| - 1]), es[|es| - 1]);
    }
  }

  // ------------------------------------------------------------------- main results

  function After(paused: bool, terminated: bool, es: seq<Step>): State {
    Run(Next, Initial(paused, terminated), es)
  }

  /** Bounded overrun, for every interleaving. From the moment `prepare_pause` returned true until a
      resume, stop, cancel, failed pause or close lets go, the training thread leaves `safe_point` at most
      once other than by a failed observation: when it is past its check, or was notified by an earlier
      resume. Once it has left it is blocked at the next safe point: both flags hold it there. */
  lemma PauseOverrunIsBounded(paused: bool, terminated: bool, es: seq<Step>)
    ensures
      var s := After(paused, terminated, es);
      s.window ==> s.exits <= 1 && (s.exits == 1 ==> !PastCheck(s.training)) && s.pauseRequested && !s.resumeAllowed
  {
    RunIsSafe(paused, terminated, es);
  }

  /** The pause is in force throughout. */
  ghost predicate KeepsWindow(s: State, es: seq<Step>) {
    forall i :: 0 <= i <= |es| ==> Run(Next, s, es[..i]).window
  }

  ghost predicate Exits(s: State, es: seq<Step>) {
    KeepsWindow(s, es) && Run(Next, s, es).exits > s.exits
  }

  /** The training thread can leave `safe_point` without a raised observation while the pause is in force. */
  ghost predicate CanExit(s: State) {
    exists es :: Exits(s, es)
  }

  lemma TrainingKeepsBlocked(s: State, e: Step)
    requires Safe(s) && s.window && !PastCheck(s.training) && OfTraining(e)
    ensures
      var t := TrainingStep(s, e);
      t.exits == s.exits && !PastCheck(t.training)
  {
  }

  lemma AccessKeepsBlocked(s: State)
    requires s.window && !PastCheck(s.training) && AccessStep(s).window
    ensures AccessStep(s).exits == s.exits && !PastCheck(AccessStep(s).training)
  {
  }

  /** A thread that is not past its check stays so. */
  lemma StepKeepsBlocked(s: State, e: Step)
    requires Safe(s) && s.window && !PastCheck(s.training) && Next(s, e).window
    ensures Next(s, e).exits == s.exits && !PastCheck(Next(s, e).training)
  {
    if OfTraining(e) {
      TrainingKeepsBlocked(s, e);
    } else if e.Access? {
      AccessKeepsBlocked(s);
    }
  }

  lemma {:induction false} RunKeepsBlocked(s: State, es: seq<Step>)
    requires Safe(s) && !PastCheck(s.training) && KeepsWindow(s, es)
    ensures
      var t := Run(Next, s, es);
      Safe(t) && t.exits == s.exits && !PastCheck(t.training)
    decreases |es|
  {
    if es != [] {
      var front, e := es[..|es| - 1], es[|es| - 1];
      assert forall i :: 0 <= i <= |front| ==> front[..i] == es[..i];
      RunKeepsBlocked(s, front);
      var t := Run(Next, s, front);
      assert t.window && es[..|es|] == es && Next(t, e).window;
      StepIsSafe(t, e);
      StepKeepsBlocked(t, e);
    }
  }

  /** A thread past its check leaves by these steps of its own. */
  function WayOut(): seq<Step> {
    [Wake, ClearEvent] + [Return]
  }

  lemma WayOutExits(s: State)
    requires s.window && PastCheck(s.training)
    ensures
      var t := Next(s, Wake);
      var u := Next(t, ClearEvent);
      t.window && u.window && Next(u, Return).window && Next(u, Return).exits == s.exits + 1
  {
  }

  lemma PastCheckExits(s: State, out: seq<Step>)
    requires s.window && PastCheck(s.training) && out == WayOut()
    ensures Exits(s, out)
  {
    WayOutExits(s);
    RunConcat(Next, s, [Wake, ClearEvent], [Return]);
    RunTwo(Next, s, Wake, ClearEvent);
    RunOne(Next, s, Wake);
    RunOne(Next, Run(Next, s, [Wake, ClearEvent]), Return);
    assert out[..0] == [] && out[..1] == [Wake] && out[..2] == [Wake, ClearEvent] && out[..3] == out;
  }

  /** Exactly when `prepare_pause` having returned true has not blocked the training thread yet: in every reachable
      state in which the pause is in force, when the thread has passed its check or was notified by a resume. */
  lemma CanExitExactlyWhen(paused: bool, terminated: bool, es: seq<Step>)
    requires After(paused, terminated, es).window
    ensures
      var s := After(paused, terminated, es);
      CanExit(s) <==> PastCheck(s.training)
  {
    var s := After(paused, terminated, es);
    RunIsSafe(paused, terminated, es);
    if PastCheck(s.training) {
      PastCheckExits(s, WayOut());
    } else if CanExit(s) {
      var more :| Exits(s, more);
      RunKeepsBlocked(s, more);
    }
  }

  /** In particular at the return of `prepare_pause`, by what the training thread is doing at that moment. */
  lemma CanExitAtReturnExactlyWhen(paused: bool, terminated: bool, es: seq<Step>)
    requires WaitsForEvent(After(paused, terminated, es).control)
    requires
      var t := Next(After(paused, terminated, es), Access);
      t.control.Outcome? && t.window
    ensures
      var s := After(paused, terminated, es);
      CanExit(Next(s, Access)) <==> PastCheck(s.training)
  {
    var more := es + [Access];
    assert more[..|es|] == es;
    CanExitExactlyWhen(paused, terminated, more);
  }

  /** The thread is at its check or waits there, and nothing has notified it. */
  predicate AtCheck(t: Training) {
    t.Checking? || t.Waiting? || t.Polling? || t == Resting(false)
  }

  function Departures(s: State): nat {
    s.exits + s.failures
  }

  ghost predicate Departs(s: State, es: seq<Step>) {
    KeepsWindow(s, es) && Departures(Run(Next, s, es)) > Departures(s)
  }

  /** The training thread can leave `safe_point`, raised observations included, while the pause is in force. */
  ghost predicate CanDepart(s: State) {
    exists es :: Departs(s, es)
  }

  lemma TrainingKeepsAtCheck(s: State, e: Step)
    requires Safe(s) && s.window && AtCheck(s.training) && OfTraining(e)
    ensures
      var t := TrainingStep(s, e);
      Departures(t) == Departures(s) && AtCheck(t.training)
  {
  }

  lemma AccessKeepsAtCheck(s: State)
    requires s.window && AtCheck(s.training) && AccessStep(s).window
    ensures Departures(AccessStep(s)) == Departures(s) && AtCheck(AccessStep(s).training)
  {
  }

  lemma StepKeepsAtCheck(s: State, e: Step)
    requires Safe(s) && s.window && AtCheck(s.training) && Next(s, e).window
    ensures Departures(Next(s, e)) == Departures(s) && AtCheck(Next(s, e).training)
  {
    if OfTraining(e) {
      TrainingKeepsAtCheck(s, e);
    } else if e.Access? {
      AccessKeepsAtCheck(s);
    }
  }

  lemma {:induction false} RunKeepsAtCheck(s: State, es: seq<Step>)
    requires Safe(s) && AtCheck(s.training) && KeepsWindow(s, es)
    ensures
      var t := Run(Next, s, es);
      Safe(t) && Departures(t) == Departures(s) && AtCheck(t.training)
    decreases |es|
  {
    if es != [] {
      var front, e := es[..|es| - 1], es[|es| - 1];
      assert forall i :: 0 <= i <= |front| ==> front[..i] == es[..i];
      RunKeepsAtCheck(s, front);
      var t := Run(Next, s, front);
      assert t.window && es[..|es|] == es && Next(t, e).window;
      StepIsSafe(t, e);
      StepKeepsAtCheck(t, e);
    }
  }

  /** A thread that is not at its check gets to the door by these steps of its own. */
  function ToTheDoor(): seq<Step> {
    [Enter, Announce, Raise, Emit(true), Wake]
  }

  function ThroughTheDoor(): seq<Step> {
    [ClearEvent, Return]
  }

  lemma ReachesTheDoor(s: State)
    requires !AtCheck(s.training)
    ensures
      var t := Next(Next(Next(Next(Next(s, Enter), Announce), Raise), Emit(true)), Wake);
      Departures(t) == Departures(s) && (t.training.Leaving? || t.training.Cleared?)
  {
  }

  lemma GoesThrough(s: State)
    requires s.window && (s.training.Leaving? || s.training.Cleared?)
    ensures Departures(Next(Next(s, ClearEvent), Return)) == Departures(s) + 1
  {
  }

  lemma TrainingKeepsWindow(s: State, e: Step)
    ensures TrainingStep(s, e).window == s.window
  {
  }

  lemma {:induction false} TrainingRunKeepsWindow(s: State, es: seq<Step>)
    requires s.window && forall i :: 0 <= i < |es| ==> OfTraining(es[i])
    ensures KeepsWindow(s, es)
    decreases |es|
  {
    if es != [] {
      var front, e := es[..|es| - 1], es[|es| - 1];
      TrainingRunKeepsWindow(s, front);
      assert forall i :: 0 <= i <= |front| ==> front[..i] == es[..i];
      assert front[..|front|] == front && es[..|es|] == es;
      TrainingKeepsWindow(Run(Next, s, front), e);
    }
  }

  lemma DepartsUnlessAtCheck(s: State, way: seq<Step>, out: seq<Step>)
    requires s.window && !AtCheck(s.training) && way == ToTheDoor() && out == ThroughTheDoor()
    ensures Departs(s, way + out)
  {
    TrainingRunKeepsWindow(s, way + out);
    var t := Run(Next, s, way);
    TrainingRunKeepsWindow(s, way);
    assert way[..|way|] == way && t.window;
    RunFive(Next, s, Enter, Announce, Raise, Emit(true), Wake);
    ReachesTheDoor(s);
    RunConcat(Next, s, way, out);
    RunTwo(Next, t, ClearEvent, Return);
    GoesThrough(t);
  }

  /** Exactly when a pause in force holds the training thread, raised observations included: once it is at its check
      and nothing has notified it. */
  lemma CanDepartExactlyWhen(paused: bool, terminated: bool, es: seq<Step>)
    requires After(paused, terminated, es).window
    ensures
      var s := After(paused, terminated, es);
      CanDepart(s) <==> !AtCheck(s.training)
  {
    var s := After(paused, terminated, es);
    RunIsSafe(paused, terminated, es);
    if !AtCheck(s.training) {
      DepartsUnlessAtCheck(s, ToTheDoor(), ThroughTheDoor());
    } else if CanDepart(s) {
      var more :| Departs(s, more);
      RunKeepsAtCheck(s, more);
    }
  }

  // ------------------------------------------------------ what prepare_pause has observed

  /** Event `k` announced a safe point during the wait that is still going on. */
  ghost predicate AnnouncedAt(paused: bool, terminated: bool, es: seq<Step>, k: int) {
    && 0 <= k < |es| && es[k].Announce?
    && After(paused, terminated, es[..k]).control == Listening(false)
    && After(paused, terminated, es[..k + 1]).training.Announced?
    && forall i :: k < i <= |es| ==> After(paused, terminated, es[..i]).control == Listening(true)
  }

  lemma FlagDoesNotNotify(s: State)
    requires !s.control.Listening?
    ensures !FlagStep(s).control.Listening?
  {
  }

  lemma AccessDoesNotNotify(s: State)
    ensures AccessStep(s).control != Listening(true)
  {
    if !WaitsForEvent(s.control) { FlagDoesNotNotify(s); }
  }

  /** Where a step other than a flag access takes the control thread. */
  function ControlAfter(c: Control, stateLock: Holder, mutationLock: Holder, e: Step): Control {
    match e
    case Accept(op) => if c.Idle? && mutationLock.Free? then Intent(op) else c
    case Record => if c.Intent? && stateLock.Free? then Recording(c.op) else c
    case Recorded => if c.Recording? then Start(c.op) else c
    case WaitTimeout => if WaitsForEvent(c) then DropPause else c
    case Call(raised) => if c.Calling? then AfterCall(c.op, raised) else c
    case TakeLockAgain => if c.Outcome? && stateLock.Free? then Writing else c
    case Written(more) => if !c.Writing? then c else if more then Outcome else Idle
    case _ => c
  }

  lemma ControlOfStep(s: State, e: Step)
    requires !e.Access?
    ensures ControlStep(s, e).control == ControlAfter(s.control, s.stateLock, s.mutationLock, e)
  {
    if e.Accept? || e.Record? || e.TakeLockAgain? || e.Written? {
      ControlOfLockStep(s, e);
    } else if e.Recorded? || e.WaitTimeout? || e.Call? {
      ControlOfCallStep(s, e);
    }
  }

  lemma ControlOfLockStep(s: State, e: Step)
    requires e.Accept? || e.Record? || e.TakeLockAgain? || e.Written?
    ensures ControlStep(s, e).control == ControlAfter(s.control, s.stateLock, s.mutationLock, e)
  {
  }

  lemma ControlOfCallStep(s: State, e: Step)
    requires e.Recorded? || e.WaitTimeout? || e.Call?
    ensures ControlStep(s, e).control == ControlAfter(s.control, s.stateLock, s.mutationLock, e)
  {
  }

  lemma ControlDoesNotListen(s: State, e: Step)
    requires !e.Access?
    ensures ControlStep(s, e).control.Listening? ==> ControlStep(s, e).control == s.control
  {
    ControlOfStep(s, e);
  }

  lemma ControlDoesNotNotify(s: State, e: Step)
    requires OfControl(e) && ControlStep(s, e).control == Listening(true)
    ensures s.control == Listening(true)
  {
    if e.Access? {
      AccessDoesNotNotify(s);
    } else {
      ControlDoesNotListen(s, e);
    }
  }

  lemma NotifiedByStep(s: State, e: Step)
    requires Next(s, e).control == Listening(true)
    ensures
      || s.control == Listening(true)
      || (s.control == Listening(false) && e.Announce? && Next(s, e).training.Announced?)
  {
    if OfControl(e) { ControlDoesNotNotify(s, e); }
  }

  lemma AnnouncedStays(paused: bool, terminated: bool, es: seq<Step>, e: Step, k: nat)
    requires AnnouncedAt(paused, terminated, es, k) && After(paused, terminated, es + [e]).control == Listening(true)
    ensures AnnouncedAt(paused, terminated, es + [e], k)
  {
    var more := es + [e];
    assert forall i :: 0 <= i <= |es| ==> more[..i] == es[..i];
    assert more[..|more|] == more;
  }

  lemma AnnouncedNow(paused: bool, terminated: bool, es: seq<Step>, e: Step)
    requires e.Announce? && After(paused, terminated, es).control == Listening(false)
    requires
      var t := After(paused, terminated, es + [e]);
      t.control == Listening(true) && t.training.Announced?
    ensures AnnouncedAt(paused, terminated, es + [e], |es|)
  {
    var more := es + [e];
    assert more[..|es|] == es && more[..|more|] == more;
  }

  lemma {:induction false} NotifiedWasAnnounced(paused: bool, terminated: bool, es: seq<Step>) returns (k: nat)
    requires After(paused, terminated, es).control == Listening(true)
    ensures AnnouncedAt(paused, terminated, es, k)
    decreases |es|
  {
    var front, e := es[..|es| - 1], es[|es| - 1];
    var s := After(paused, terminated, front);
    NotifiedByStep(s, e);
    assert es == front + [e];
    if s.control == Listening(true) {
      k := NotifiedWasAnnounced(paused, terminated, front);
      AnnouncedStays(paused, terminated, front, e, k);
    } else {
      k := |front|;
      AnnouncedNow(paused, terminated, front, e);
    }
  }

  /** When `prepare_pause` returns true, the training thread is inside, seen through the flag, or it announced a safe
      point during this wait. */
  lemma ObservedInside(paused: bool, terminated: bool, es: seq<Step>)
    requires WaitsForEvent(After(paused, terminated, es).control)
    requires Next(After(paused, terminated, es), Access).control.Outcome?
    ensures
      || Inside(After(paused, terminated, es).training)
      || exists k :: AnnouncedAt(paused, terminated, es, k)
  {
    RunIsSafe(paused, terminated, es);
    if After(paused, terminated, es).control == Listening(true) {
      var k := NotifiedWasAnnounced(paused, terminated, es);
    }
  }

  /** Steps that can happen before the wait returns, other than a raised observation and a close. */
  predicate Undisturbed(e: Step) {
    (OfTraining(e) && e != Emit(true) && !e.Raise?) || e.StatusLock? || e.StatusUnlock?
  }

  ghost predicate StaysInside(s: State) {
    forall es :: (forall i :: 0 <= i < |es| ==> Undisturbed(es[i])) ==> Inside(Run(Next, s, es).training)
  }

  /** The announced thread has not raised, the worker is not stopping, and no flag lets the thread go. */
  predicate Held(s: State) {
    && !Stopping(s) && s.control == Listening(true) && s.pauseRequested && !s.resumeAllowed
    && (s.training.Announced? || s.training.Observing? || s.training.Checking? || s.training.Waiting?
        || s.training.Polling? || s.training == Resting(false))
  }

  lemma StepKeepsHeld(s: State, e: Step)
    requires Held(s) && Undisturbed(e)
    ensures Held(Next(s, e))
  {
  }

  lemma {:induction false} RunKeepsHeld(s: State, es: seq<Step>)
    requires Held(s) && forall i :: 0 <= i < |es| ==> Undisturbed(es[i])
    ensures Held(Run(Next, s, es))
    decreases |es|
  {
    if es != [] {
      RunKeepsHeld(s, es[..|es| - 1]);
      StepKeepsHeld(Run(Next, s, es[..|es| - 1]), es[|es| - 1]);
    }
  }

  /** The announced thread need not stay. */
  predicate MayLeave(s: State) {
    Stopping(s) || s.training.Leaving? || !Inside(s.training)
  }

  lemma ObservesOrNot(s: State)
    requires MayLeave(s) && LocksHeld(s) && s.control == Listening(true)
    ensures
      var t := Next(Next(Next(s, StatusUnlock), TakeLock), Emit(false));
      MayLeave(t) && !t.training.Announced? && !t.training.Observing?
  {
  }

  lemma ChecksOrNot(s: State)
    requires MayLeave(s) && !s.training.Announced? && !s.training.Observing?
    ensures
      var t := Next(Next(s, CheckPause), PollResume);
      MayLeave(t) && (t.training.Waiting? || t.training.Resting? || t.training.Leaving? || !Inside(t.training))
  {
  }

  lemma LeavesOrNot(s: State)
    requires MayLeave(s) && (s.training.Waiting? || s.training.Resting? || s.training.Leaving? || !Inside(s.training))
    ensures !Inside(Next(Next(Next(s, RestTimeout), CheckStop), ClearEvent).training)
  {
  }

  function Going(): seq<Step> {
    [StatusUnlock, TakeLock, Emit(false), CheckPause, PollResume]
  }

  function GoingOut(): seq<Step> {
    [RestTimeout, CheckStop] + [ClearEvent]
  }

  /** Whatever the training thread is doing, these steps take it out if it need not stay. */
  lemma Escapes(s: State, go: seq<Step>, out: seq<Step>)
    requires MayLeave(s) && LocksHeld(s) && s.control == Listening(true) && go == Going() && out == GoingOut()
    ensures !Inside(Run(Next, s, go + out).training)
  {
    RunConcat(Next, s, go, out);
    RunFive(Next, s, StatusUnlock, TakeLock, Emit(false), CheckPause, PollResume);
    var t := Run(Next, s, go);
    RunConcat(Next, t, [RestTimeout, CheckStop], [ClearEvent]);
    RunTwo(Next, t, RestTimeout, CheckStop);
    RunOne(Next, Run(Next, t, [RestTimeout, CheckStop]), ClearEvent);
    ObservesOrNot(s);
    ChecksOrNot(Next(Next(Next(s, StatusUnlock), TakeLock), Emit(false)));
    LeavesOrNot(t);
  }

  lemma HeldStaysInside(s: State)
    requires Held(s)
    ensures StaysInside(s)
  {
    forall es | forall i :: 0 <= i < |es| ==> Undisturbed(es[i]) ensures Inside(Run(Next, s, es).training) {
      RunKeepsHeld(s, es);
    }
  }

  lemma FreeLeaves(s: State, go: seq<Step>, out: seq<Step>)
    requires MayLeave(s) && LocksHeld(s) && s.control == Listening(true) && go == Going() && out == GoingOut()
    ensures !StaysInside(s)
  {
    Escapes(s, go, out);
    var es := go + out;
    assert forall i :: 0 <= i < |es| ==> Undisturbed(es[i]);
  }

  /** The observation of the announced thread raises. */
  predicate Raises(s: State, e: Step) {
    (e.Raise? && s.training.Announced?) || (e == Emit(true) && s.training.Observing?)
  }

  /** An observation has raised since the thread last announced itself. */
  ghost predicate RaisedLast(paused: bool, terminated: bool, es: seq<Step>)
    decreases |es|
  {
    es != [] &&
    var front, e := es[..|es| - 1], es[|es| - 1];
    var s := After(paused, terminated, front);
    Raises(s, e) || (!(e.Announce? && s.training.Entered?) && RaisedLast(paused, terminated, front))
  }

  /** During a notified wait the thread is out, or on its way, because it raised and for no other reason. */
  predicate OutByRaise(s: State, raised: bool) {
    s.control == Listening(true) && !Stopping(s) ==>
      && !PastCheck(s.training)
      && (raised <==> s.training.Outside? || s.training.Entered? || s.training.Leaving? || s.training.Cleared?)
  }

  lemma TrainingKeepsOutByRaise(s: State, e: Step, raised: bool)
    requires Safe(s) && OutByRaise(s, raised) && OfTraining(e)
    ensures OutByRaise(TrainingStep(s, e), Raises(s, e) || (!(e.Announce? && s.training.Entered?) && raised))
  {
  }

  lemma OthersKeepOutByRaise(s: State, e: Step, raised: bool)
    requires Safe(s) && OutByRaise(s, raised) && !OfTraining(e)
    ensures OutByRaise(Next(s, e), raised)
  {
    if OfControl(e) && Next(s, e).control == Listening(true) { ControlDoesNotNotify(s, e); }
  }

  lemma {:induction false} RunKeepsOutByRaise(paused: bool, terminated: bool, es: seq<Step>)
    ensures OutByRaise(After(paused, terminated, es), RaisedLast(paused, terminated, es))
    decreases |es|
  {
    if es != [] {
      var front, e := es[..|es| - 1], es[|es| - 1];
      var s := After(paused, terminated, front);
      RunKeepsOutByRaise(paused, terminated, front);
      RunIsSafe(paused, terminated, front);
      if OfTraining(e) {
        TrainingKeepsOutByRaise(s, e, RaisedLast(paused, terminated, front));
      } else {
        OthersKeepOutByRaise(s, e, RaisedLast(paused, terminated, front));
      }
    }
  }

  /** Exactly when the thread is still inside however late the notified wait returns, in any reachable state and
      barring raised observations and closes from here on: when no observation has raised since the thread announced
      itself and the worker is not stopping. */
  lemma InsideAtReturnExactlyWhen(paused: bool, terminated: bool, es: seq<Step>)
    requires After(paused, terminated, es).control == Listening(true)
    ensures
      var s := After(paused, terminated, es);
      StaysInside(s) <==> !RaisedLast(paused, terminated, es) && !Stopping(s)
  {
    var s := After(paused, terminated, es);
    RunIsSafe(paused, terminated, es);
    RunKeepsOutByRaise(paused, terminated, es);
    if MayLeave(s) {
      FreeLeaves(s, Going(), GoingOut());
    } else {
      HeldStaysInside(s);
    }
  }

  /** Steps of the training thread alone that bring it from where it is to an announced safe point. */
  function ToSafePoint(t: Training): seq<Step> {
    match t
    case Cleared(_) => [Return, Enter, Announce]
    case Outside => [Enter, Announce]
    case Entered => [Announce]
    case _ => []
  }

  lemma TrainingReachesSafePoint(s: State)
    requires EventMeansInside(s)
    ensures
      var t := Run(Next, s, ToSafePoint(s.training));
      && t.event && t.stateLock == s.stateLock
      && t.control == if s.control == Listening(false) && !s.event then Listening(true) else s.control
  {
    match s.training
    case Cleared(_) =>
      assert [Return, Enter, Announce] == [Return] + [Enter, Announce];
      RunConcat(Next, s, [Return], [Enter, Announce]);
      RunOne(Next, s, Return);
      RunTwo(Next, Next(s, Return), Enter, Announce);
    case Outside => RunTwo(Next, s, Enter, Announce);
    case Entered => RunOne(Next, s, Announce);
    case _ =>
  }

  /** No deadlock. While the control thread waits for a safe point it does not hold the state lock and the
      training thread never holds the mutation lock. Whatever state was reached, the training thread
      alone can announce a safe point without taking any lock, the wait is then answered with true, and
      the state lock is free for the observation or held by a thread that can release it at once. */
  lemma WaitIsAlwaysAnswerable(paused: bool, terminated: bool, es: seq<Step>)
    requires WaitsForEvent(After(paused, terminated, es).control)
    ensures
      var s := After(paused, terminated, es);
      var t := Run(Next, s, ToSafePoint(s.training));
      && !s.stateLock.ByControl? && s.mutationLock.ByControl?
      && WaitsForEvent(t.control) && Next(t, Access).control == Outcome
      && (t.training.Announced? ==>
            || Next(t, TakeLock).training.Observing?
            || Next(Next(t, StatusUnlock), TakeLock).training.Observing?)
  {
    var s := After(paused, terminated, es);
    RunIsSafe(paused, terminated, es);
    TrainingReachesSafePoint(s);
    AnsweredBy(s, Run(Next, s, ToSafePoint(s.training)));
  }

  lemma AnsweredBy(s: State, t: State)
    requires Safe(s) && WaitsForEvent(s.control) && t.event && t.stateLock == s.stateLock
    requires t.control == if s.control == Listening(false) && !s.event then Listening(true) else s.control
    ensures !s.stateLock.ByControl? && s.mutationLock.ByControl?
    ensures WaitsForEvent(t.control) && Next(t, Access).control == Outcome
    ensures
      t.training.Announced? && !s.stateLock.ByTraining? ==>
        || Next(t, TakeLock).training.Observing?
        || Next(Next(t, StatusUnlock), TakeLock).training.Observing?
  {
  }

  /** The mirror image: a training thread that wants the state lock gets it after one step of the holder. */
  lemma ObservationIsNeverStuck(paused: bool, terminated: bool, es: seq<Step>)
    requires After(paused, terminated, es).training.Announced?
    ensures
      var s := After(paused, terminated, es);
      && !s.mutationLock.ByTraining?
      && (exists e ::
            e in {Recorded, Written(false), StatusUnlock, Enter} && Next(Next(s, e), TakeLock).training.Observing?)
  {
    RunIsSafe(paused, terminated, es);
    var s := After(paused, terminated, es);
    var e := match s.stateLock
             case ByStatus => StatusUnlock
             case ByControl => if s.control.Recording? then Recorded else Written(false)
             case _ => Enter;
    assert Next(Next(s, e), TakeLock).training.Observing?;
  }

  /** No prepare request is being served. */
  predicate NotPreparing(c: Control) {
    && c != Intent(Prepare) && c != Recording(Prepare) && !c.SetPause? && c != HoldResume(Prepare)
    && !WaitsForEvent(c)
  }

  predicate Unpaused(s: State) {
    !s.pauseRequested && NotPreparing(s.control) && !s.training.Waiting? && !s.training.Polling? && !s.training.Resting?
  }

  lemma TrainingKeepsUnpaused(s: State, e: Step)
    requires Unpaused(s)
    ensures Unpaused(TrainingStep(s, e))
  {
  }

  lemma AccessKeepsUnpaused(s: State)
    requires Unpaused(s)
    ensures Unpaused(AccessStep(s))
  {
    AccessOfTraining(s);
  }

  lemma ControlKeepsUnpaused(s: State, e: Step)
    requires Unpaused(s) && e != Accept(Prepare) && !e.Access?
    ensures Unpaused(ControlStep(s, e))
  {
  }

  lemma StepKeepsUnpaused(s: State, e: Step)
    requires Unpaused(s) && e != Accept(Prepare)
    ensures Unpaused(Next(s, e))
  {
    if OfTraining(e) {
      TrainingKeepsUnpaused(s, e);
    } else if e.Access? {
      AccessKeepsUnpaused(s);
    } else if OfControl(e) {
      ControlKeepsUnpaused(s, e);
    }
  }

  lemma TrainingKeepsResume(s: State, e: Step)
    ensures TrainingStep(s, e).resumeAllowed == s.resumeAllowed
  {
  }

  lemma TrainingOfControl(s: State, e: Step)
    ensures
      TrainingStep(s, e).control ==
      if e.Announce? && s.training.Entered? && s.control.Listening? then Listening(true) else s.control
  {
  }

  lemma IdleControlRests(s: State, e: Step)
    requires s.control.Idle? && !e.Accept?
    ensures ControlStep(s, e) == s
  {
  }

  lemma StepKeepsResume(s: State, e: Step)
    requires s.control.Idle? && !e.Accept? && !e.Close?
    ensures Next(s, e).control.Idle? && Next(s, e).resumeAllowed == s.resumeAllowed
  {
    TrainingKeepsResume(s, e);
    TrainingOfControl(s, e);
    IdleControlRests(s, e);
  }

  /** Without any request or close the resume flag stays as it was restored, down for a paused worker. */
  lemma {:induction false} RestoredFlagStays(paused: bool, terminated: bool, es: seq<Step>)
    requires forall i :: 0 <= i < |es| ==> !es[i].Accept? && !es[i].Close?
    ensures
      var s := After(paused, terminated, es);
      s.control.Idle? && s.resumeAllowed == (!paused || terminated)
    decreases |es|
  {
    if es != [] {
      RestoredFlagStays(paused, terminated, es[..|es| - 1]);
      StepKeepsResume(After(paused, terminated, es[..|es| - 1]), es[|es| - 1]);
    }
  }

  /** A restored "paused" or "sleeping" state does not block training: the restore clears the pause flag, so until a
      prepare request is accepted every pass through `safe_point` leaves at its check and none of them waits. */
  lemma {:induction false} RestoredPauseDoesNotBlock(paused: bool, terminated: bool, es: seq<Step>)
    requires Accept(Prepare) !in es
    ensures Unpaused(After(paused, terminated, es))
    ensures
      var s := After(paused, terminated, es);
      s.training.Checking? ==> Next(s, CheckPause).training == Leaving(false)
    decreases |es|
  {
    if es != [] {
      RestoredPauseDoesNotBlock(paused, terminated, es[..|es| - 1]);
      StepKeepsUnpaused(After(paused, terminated, es[..|es| - 1]), es[|es| - 1]);
    }
  }

  // ------------------------------------------------------- the bound is exact

  /** A pass up to the pause check. */
  function Pass(): seq<Step> {
    [Enter, Announce, TakeLock, Emit(false), CheckPause]
  }

  /** A prepare request up to its wait. */
  function Preparing(): seq<Step> {
    [Accept(Prepare), Record, Recorded, Access, Access]
  }

  /** The wait of a prepare request and a thread that answers it. */
  function Answering(raised: bool): seq<Step> {
    [Access, Enter, Announce, TakeLock, Emit(raised)]
  }

  /** The thread comes to rest and the prepare request returns. */
  function ComingToRest(): seq<Step> {
    [CheckPause, CheckStop, PollResume, Access, TakeLockAgain]
  }

  /** A resume request up to its flags. */
  function Resuming(): seq<Step> {
    [Written(false), Accept(Continue), Record, Recorded, Call(false)]
  }

  /** The resume request lets go and the next prepare request comes in. */
  function LettingGo(): seq<Step> {
    [Access, Access, TakeLockAgain, Written(false), Accept(Prepare)]
  }

  /** The next prepare request up to its return. */
  function PreparingAgain(): seq<Step> {
    [Record, Recorded, Access, Access, Access]
  }

  /** A prepare request up to the wait, with the training thread at its pause check just before it. */
  function CheckedTooEarly(): State {
    Initial(false, false).(training := Leaving(false), event := true, control := AwaitEvent, mutationLock := ByControl,
                           pauseRequested := true, resumeAllowed := false)
  }

  lemma PassBeforePrepare(s: State, pass: seq<Step>)
    requires s == Initial(false, false) && pass == Pass()
    ensures Run(Next, s, pass) == s.(training := Leaving(false), event := true)
  {
    RunFive(Next, s, Enter, Announce, TakeLock, Emit(false), CheckPause);
  }

  lemma PrepareAfterPass(s: State, prepare: seq<Step>)
    requires s == Initial(false, false).(training := Leaving(false), event := true)
    requires prepare == Preparing()
    ensures Run(Next, s, prepare) == CheckedTooEarly()
  {
    RunFive(Next, s, Accept(Prepare), Record, Recorded, Access, Access);
  }

  ghost predicate Overruns(s: State) {
    var t := Next(Next(Next(s, Access), ClearEvent), Return);
    !s.window && Next(s, Access).window && t.window && t.exits == 1 && t.training.Outside?
  }

  lemma OverrunFrom(s: State)
    requires s == CheckedTooEarly()
    ensures Overruns(s)
  {
  }

  /** One normal exit does happen: `prepare_pause` returning true does not mean the thread is blocked. */
  lemma OneExitHappens()
    ensures Overruns(After(false, false, Pass() + Preparing()))
  {
    var s := Initial(false, false);
    RunConcat(Next, s, Pass(), Preparing());
    PassBeforePrepare(s, Pass());
    PrepareAfterPass(Run(Next, s, Pass()), Preparing());
    OverrunFrom(After(false, false, Pass() + Preparing()));
  }

  function LateWake(): seq<Step> {
    Flatten([Preparing(), Answering(false), ComingToRest(), Resuming(), LettingGo(), PreparingAgain()])
  }

  /** A thread that was notified by a resume before the next prepare request still leaves after it: the first prepare
      finds no thread inside, the thread announces itself and rests, is resumed, and wakes up too late. */
  lemma LateWakeExits()
    ensures
      var t := After(false, false, LateWake());
      && t.window && t.training == Resting(true) && !t.resumeAllowed
      && Next(Next(Next(t, Wake), ClearEvent), Return).exits == 1
  {
    var s := Initial(false, false);
    var s1 := Registering(s);
    PrepareFrom(s, Preparing());
    var s2 := AnnounceFrom(s1, Answering(false), false);
    var s3 := s2.(training := Resting(false), control := Writing, stateLock := ByControl, window := true);
    RestFrom(s2, ComingToRest(), s3);
    var s4 := s3.(control := DropPause, stateLock := Free);
    ResumeFrom(s3, Resuming(), s4);
    var s5 := s4.(pauseRequested := false, window := false, resumeAllowed := true, training := Resting(true),
                  control := Intent(Prepare));
    AllowFrom(s4, LettingGo(), s5);
    var t := PrepareAgain(s5, PreparingAgain());
    RunPieces(
      Next, [Preparing(), Answering(false), ComingToRest(), Resuming(), LettingGo(), PreparingAgain()],
      [s, s1, s2, s3, s4, s5, t]);
    WakeExits(t);
  }

  lemma WakeExits(t: State)
    requires t.window && t.training == Resting(true) && t.exits == 0
    ensures Next(Next(Next(t, Wake), ClearEvent), Return).exits == 1
  {
  }

  /** A first prepare request that has found no event yet. */
  function Registering(s: State): State {
    s.(control := AwaitEvent, mutationLock := ByControl, pauseRequested := true, resumeAllowed := false)
  }

  lemma PrepareFrom(s: State, a: seq<Step>)
    requires s == Initial(false, false) && a == Preparing()
    ensures Run(Next, s, a) == Registering(s)
  {
    RunFive(Next, s, Accept(Prepare), Record, Recorded, Access, Access);
  }

  lemma AnnounceFrom(s: State, b: seq<Step>, raised: bool) returns (t: State)
    requires s == Registering(Initial(false, false)) && b == Answering(raised)
    ensures t == s.(control := Listening(true), training := if raised then Leaving(true) else Checking, event := true)
    ensures Run(Next, s, b) == t
  {
    t := s.(control := Listening(true), training := if raised then Leaving(true) else Checking, event := true);
    RunFive(Next, s, Access, Enter, Announce, TakeLock, Emit(raised));
  }

  lemma RestFrom(s: State, c: seq<Step>, t: State)
    requires s == Registering(Initial(false, false)).(control := Listening(true), training := Checking, event := true)
    requires c == ComingToRest()
    requires t == s.(training := Resting(false), control := Writing, stateLock := ByControl, window := true)
    ensures Run(Next, s, c) == t
  {
    RunFive(Next, s, CheckPause, CheckStop, PollResume, Access, TakeLockAgain);
    var resting := s.(training := Resting(false));
    CheckAndRest(s, resting);
    ReturnAndWrite(resting, t);
  }

  lemma CheckAndRest(s: State, t: State)
    requires s.training == Checking && s.pauseRequested && !s.resumeAllowed && !Stopping(s)
    requires t == s.(training := Resting(false))
    ensures Next(Next(Next(s, CheckPause), CheckStop), PollResume) == t
  {
  }

  lemma ReturnAndWrite(s: State, t: State)
    requires s.control == Listening(true) && s.stateLock == Free && !s.window && s.exits == s.failures == 0
    requires !Stopping(s) && t == s.(control := Writing, stateLock := ByControl, window := true)
    ensures Next(Next(s, Access), TakeLockAgain) == t
  {
  }

  lemma ResumeFrom(s: State, d: seq<Step>, t: State)
    requires s.control == Writing && s.stateLock == ByControl && s.mutationLock == ByControl
    requires d == Resuming()
    requires t == s.(control := DropPause, stateLock := Free)
    ensures Run(Next, s, d) == t
  {
    RunFive(Next, s, Written(false), Accept(Continue), Record, Recorded, Call(false));
    var accepted := s.(control := Intent(Continue), stateLock := Free);
    WriteAndAccept(s, Continue, accepted);
    StartCallback(accepted, Continue, s.(control := Calling(Continue), stateLock := Free));
  }

  lemma WriteAndAccept(s: State, op: Operation, t: State)
    requires s.control == Writing && s.stateLock == ByControl && s.mutationLock == ByControl
    requires t == s.(control := Intent(op), stateLock := Free)
    ensures Next(Next(s, Written(false)), Accept(op)) == t
  {
  }

  lemma StartCallback(s: State, op: Operation, t: State)
    requires s.control == Intent(op) && s.stateLock == Free && t == s.(control := Start(op))
    ensures Next(Next(s, Record), Recorded) == t
  {
  }

  lemma AllowFrom(s: State, e: seq<Step>, t: State)
    requires s.control == DropPause && s.stateLock == Free
    requires s.mutationLock == ByControl && s.training == Resting(false)
    requires e == LettingGo()
    requires t == s.(pauseRequested := false, window := false, resumeAllowed := true, training := Resting(true),
                     control := Intent(Prepare))
    ensures Run(Next, s, e) == t
  {
    RunFive(Next, s, Access, Access, TakeLockAgain, Written(false), Accept(Prepare));
    var resumed := s.(pauseRequested := false, window := false, resumeAllowed := true, training := Resting(true),
                      control := Outcome);
    LetGo(s, resumed);
    FinishAndAccept(resumed);
  }

  lemma LetGo(s: State, t: State)
    requires s.control == DropPause && s.training == Resting(false)
    requires t == s.(pauseRequested := false, window := false, resumeAllowed := true, training := Resting(true),
                     control := Outcome)
    ensures Next(Next(s, Access), Access) == t
  {
  }

  lemma FinishAndAccept(s: State)
    requires s.control == Outcome && s.stateLock == Free && s.mutationLock == ByControl
    ensures Next(Next(Next(s, TakeLockAgain), Written(false)), Accept(Prepare)) == s.(control := Intent(Prepare))
  {
    WriteAndAccept(Next(s, TakeLockAgain), Prepare, s.(control := Intent(Prepare)));
  }

  lemma PrepareAgain(s: State, f: seq<Step>) returns (t: State)
    requires s.control == Intent(Prepare) && s.stateLock == Free && s.training == Resting(true) && s.event && !s.window
    requires !Stopping(s) && f == PreparingAgain()
    ensures
      t ==
      s.(control := Outcome, pauseRequested := true, resumeAllowed := false, window := true, exits := 0, failures := 0)
    ensures Run(Next, s, f) == t
  {
    t :=
      s.(control := Outcome, pauseRequested := true, resumeAllowed := false, window := true, exits := 0, failures := 0);
    RunFive(Next, s, Record, Recorded, Access, Access, Access);
    var started := s.(control := SetPause);
    StartCallback(s, Prepare, started);
    FinishPrepare(started, t);
  }

  lemma FinishPrepare(s: State, t: State)
    requires s.control == SetPause && s.event && !s.window && !Stopping(s)
    requires
      t ==
      s.(control := Outcome, pauseRequested := true, resumeAllowed := false, window := true, exits := 0, failures := 0)
    ensures Next(Next(Next(s, Access), Access), Access) == t
  {
  }

  function GettingOut(): seq<Step> {
    [ClearEvent, Return]
  }

  function Escape(): seq<Step> {
    Flatten([Preparing(), Answering(true), GettingOut()])
  }

  /** `prepare_pause` can return true with the thread outside: it announced itself, its observation raised, and it
      left before the notified wait returned. */
  lemma ReturnsTrueWithThreadOutside()
    ensures
      var t := After(false, false, Escape());
      && t.training.Outside? && !t.event && t.control == Listening(true)
      && Next(t, Access).control == Outcome && Next(t, Access).window
  {
    var s := Initial(false, false);
    var s1 := Registering(s);
    PrepareFrom(s, Preparing());
    var s2 := AnnounceFrom(s1, Answering(true), true);
    var s3 := s2.(training := Outside, event := false);
    LeaveAfterRaise(s2, GettingOut(), s3);
    RunPieces(Next, [Preparing(), Answering(true), GettingOut()], [s, s1, s2, s3]);
    AnswersTrue(s3);
  }

  lemma LeaveAfterRaise(s: State, out: seq<Step>, t: State)
    requires s.training == Leaving(true) && !Stopping(s) && !s.window && out == GettingOut()
    requires t == s.(training := Outside, event := false)
    ensures Run(Next, s, out) == t
  {
    RunTwo(Next, s, ClearEvent, Return);
  }

  lemma AnswersTrue(s: State)
    requires s.control == Listening(true) && !Stopping(s)
    ensures Next(s, Access).control == Outcome && Next(s, Access).window
  {
  }

  // ----------------------------------------------------- observations that raise

  /** A pass in which the observation raises. */
  function FailingPass(): seq<Step> {
    [Enter, Announce, TakeLock, Emit(true), ClearEvent] + [Return]
  }

  function FailingPasses(n: nat): seq<Step> {
    if n == 0 then [] else FailingPasses(n - 1) + FailingPass()
  }

  lemma OneFailingPass(s: State, five: seq<Step>, last: seq<Step>)
    requires s.training.Outside? && s.window && s.stateLock.Free? && !Stopping(s) && !s.control.Listening?
    requires five == [Enter, Announce, TakeLock, Emit(true), ClearEvent] && last == [Return]
    ensures Run(Next, s, five + last) == s.(failures := s.failures + 1, event := false)
  {
    RunFive(Next, s, Enter, Announce, TakeLock, Emit(true), ClearEvent);
    RunConcat(Next, s, five, last);
    RunOne(Next, Run(Next, s, five), Return);
    var observing := s.(training := Observing, stateLock := ByTraining, event := true);
    EnterToObserve(s, observing);
    RaiseAndReturn(s, observing);
  }

  lemma EnterToObserve(s: State, t: State)
    requires s.training.Outside? && s.stateLock.Free? && !s.control.Listening?
    requires t == s.(training := Observing, stateLock := ByTraining, event := true)
    ensures Next(Next(Next(s, Enter), Announce), TakeLock) == t
  {
  }

  lemma RaiseAndReturn(s: State, t: State)
    requires s.training.Outside? && s.window && s.stateLock.Free? && !Stopping(s)
    requires t == s.(training := Observing, stateLock := ByTraining, event := true)
    ensures Next(Next(Next(t, Emit(true)), ClearEvent), Return) == s.(failures := s.failures + 1, event := false)
  {
  }

  lemma {:induction false} FailingPassesFrom(s: State, n: nat)
    requires s.training.Outside? && s.window && s.stateLock.Free? && !Stopping(s) && !s.control.Listening?
    ensures Run(Next, s, FailingPasses(n)) == s.(failures := s.failures + n, event := if n == 0 then s.event else false)
  {
    if n > 0 {
      FailingPassesFrom(s, n - 1);
      RunConcat(Next, s, FailingPasses(n - 1), FailingPass());
      OneFailingPass(Run(Next, s, FailingPasses(n - 1)), [Enter, Announce, TakeLock, Emit(true), ClearEvent], [Return]);
    }
  }

  /** The prepare request returns and the thread leaves. */
  function OneExit(): seq<Step> {
    [Access, ClearEvent] + [Return]
  }

  /** Without the qualification the bound fails: after the run of `OneExitHappens` the thread leaves by raised
      observations any number of times while it should be paused. */
  lemma FailedObservationsAreUnbounded(n: nat)
    ensures
      var t := After(false, false, Flatten([Pass(), Preparing(), OneExit(), FailingPasses(n)]));
      t.window && t.exits == 1 && t.failures == n && t.training.Outside?
  {
    var s := Initial(false, false);
    var s1 := s.(training := Leaving(false), event := true);
    PassBeforePrepare(s, Pass());
    var s2 := CheckedTooEarly();
    PrepareAfterPass(s1, Preparing());
    var s3 := s2.(training := Outside, event := false, control := Outcome, window := true, exits := 1);
    LeaveOnce(s2, OneExit(), s3);
    FailingPassesFrom(s3, n);
    RunPieces(
      Next, [Pass(), Preparing(), OneExit(), FailingPasses(n)],
      [s, s1, s2, s3, Run(Next, s3, FailingPasses(n))]);
  }

  lemma LeaveOnce(s: State, out: seq<Step>, t: State)
    requires s == CheckedTooEarly() && out == OneExit()
    requires t == s.(training := Outside, event := false, control := Outcome, window := true, exits := 1)
    ensures Run(Next, s, out) == t
  {
    RunConcat(Next, s, [Access, ClearEvent], [Return]);
    RunTwo(Next, s, Access, ClearEvent);
    RunOne(Next, Run(Next, s, [Access, ClearEvent]), Return);
  }
}
