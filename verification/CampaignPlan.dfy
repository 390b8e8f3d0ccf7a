/**
 The plan checker and the iteration runner of
 scripts/hardware-campaign-executor.py. A driver call is a success or a
 failure; events, artifacts and request identifiers are not part of this model.
 */
module CampaignPlan {
  import opened Common

  datatype Operation =
    | Provision | ApplyAction | ApplyWorkerAction | Launch | VerifyIdentity | InjectFault | RecoverFault
    | Measure | Stop | Cleanup | Preflight | Unknown(name: string)

  /** A missing action or fault is the empty text. */
  datatype Step = Step(operation: Operation, action: string, fault: string)

  datatype Label = Baseline | Variant

  datatype Requirements = Requirements(actions: seq<string>, faults: seq<string>)

  // ------------------------------------------------------------------- the checker

  predicate IsAction(s: Step) {
    s.operation == ApplyAction || s.operation == ApplyWorkerAction
  }

  predicate IsFault(s: Step) {
    s.operation == InjectFault || s.operation == RecoverFault
  }

  predicate IsBind(s: Step) {
    s.operation == ApplyAction && s.action == "bind"
  }

  predicate StepOk(s: Step) {
    && s.operation != Preflight && !s.operation.Unknown?
    && (if IsAction(s) then Strip(s.action) != "" else Strip(s.action) == "")
    && (if IsFault(s) then Strip(s.fault) != "" else Strip(s.fault) == "")
  }

  function Positions(steps: seq<Step>, p: Step -> bool): set<int> {
    set i | 0 <= i < |steps| && p(steps[i])
  }

  function Are(op: Operation): Step -> bool {
    (s: Step) => s.operation == op
  }

  /** The first position of an operation, or the length of the plan. */
  function Index(steps: seq<Step>, op: Operation): (r: nat)
    ensures r <= |steps| && (r < |steps| ==> steps[r].operation == op)
    ensures forall i :: 0 <= i < r ==> steps[i].operation != op
  {
    if steps == [] || steps[0].operation == op then 0
    else
      var r := Index(steps[1..], op);
      assert forall i :: 1 <= i < r + 1 ==> steps[i] == steps[1..][i - 1];
      r + 1
  }

  predicate Once(steps: seq<Step>, op: Operation) {
    |Positions(steps, Are(op))| == 1
  }

  predicate OrderOk(steps: seq<Step>) {
    && Once(steps, Provision) && Once(steps, Launch) && Once(steps, VerifyIdentity)
    && Once(steps, Measure) && Once(steps, Stop) && Once(steps, Cleanup)
    && |steps| >= 2 && steps[0].operation == Provision
    && steps[|steps| - 2].operation == Stop && steps[|steps| - 1].operation == Cleanup
    && Index(steps, Provision) <= Index(steps, Launch) <= Index(steps, VerifyIdentity)
    && Index(steps, VerifyIdentity) <= Index(steps, Measure) <= Index(steps, Stop) <= Index(steps, Cleanup)
  }

  predicate BindOk(steps: seq<Step>) {
    && |Positions(steps, IsBind)| == 1
    && forall i :: i in Positions(steps, IsBind) ==> Index(steps, Provision) < i < Index(steps, Launch)
  }

  predicate ActionOk(steps: seq<Step>, allowed: set<string>, i: nat)
    requires i < |steps|
  {
    IsAction(steps[i]) ==>
      var action := steps[i].action;
      && action in allowed
      && (action != "bind" && action != "rebind" ==> Index(steps, VerifyIdentity) < i < Index(steps, Measure))
      && (action == "rebind" ==> Index(steps, Launch) < i < Index(steps, VerifyIdentity))
  }

  predicate FaultOk(steps: seq<Step>, side: Label, i: nat)
    requires i < |steps|
  {
    IsFault(steps[i]) ==>
      && side == Variant
      && Index(steps, VerifyIdentity) < i < Index(steps, Stop)
      && (steps[i].operation == InjectFault ==> i < Index(steps, Measure))
  }

  function Allowed(side: Label, req: Requirements): set<string> {
    {"bind"} + if side == Variant then set a | a in req.actions else {}
  }

  /** The checks made of either plan. */
  predicate PlanOk(steps: seq<Step>, side: Label, req: Requirements) {
    && steps != []
    && (forall i :: 0 <= i < |steps| ==> StepOk(steps[i]))
    && OrderOk(steps)
    && BindOk(steps)
    && (forall i :: 0 <= i < |steps| ==> ActionOk(steps, Allowed(side, req), i))
    && (forall i :: 0 <= i < |steps| ==> FaultOk(steps, side, i))
  }

  function WithAction(action: string): Step -> bool {
    (s: Step) => IsAction(s) && s.action == action
  }

  function WithFault(op: Operation, fault: string): Step -> bool {
    (s: Step) => s.operation == op && s.fault == fault
  }

  function PlannedFaults(steps: seq<Step>): set<string> {
    set i | 0 <= i < |steps| && IsFault(steps[i]) :: steps[i].fault
  }

  predicate RecoveredOnce(steps: seq<Step>, fault: string) {
    && |Positions(steps, WithFault(InjectFault, fault))| == 1
    && |Positions(steps, WithFault(RecoverFault, fault))| == 1
    && forall i, j ::
      && i in Positions(steps, WithFault(InjectFault, fault))
      && j in Positions(steps, WithFault(RecoverFault, fault)) ==>
         i < j
  }

  /** The further checks of the variant. */
  predicate VariantOk(steps: seq<Step>, req: Requirements, declared: set<string>) {
    && PlanOk(steps, Variant, req)
    && ActionsPresent(steps, req)
    && ActionsOnce(steps)
    && PlannedFaults(steps) == declared
    && forall f :: f in req.faults ==> RecoveredOnce(steps, f)
  }

  predicate ActionsPresent(steps: seq<Step>, req: Requirements) {
    forall a :: a in req.actions ==> Positions(steps, WithAction(a)) != {}
  }

  predicate ActionsOnce(steps: seq<Step>) {
    forall i :: 0 <= i < |steps| && IsAction(steps[i]) ==> |Positions(steps, WithAction(steps[i].action))| == 1
  }

  // -------------------------------------------------------------- what it guarantees

  /** The positions of the lifecycle operations. */
  datatype Life = Life(bind: nat, launch: nat, verify: nat, measure: nat, stop: nat)

  /** Rebinding happens between launch and verification, every other action between verification and
      measurement, faults are injected there too and recovered before the stop. */
  ghost predicate InWindow(steps: seq<Step>, l: Life, i: nat)
    requires i < |steps|
  {
    && (IsAction(steps[i]) && steps[i].action != "bind" ==>
          if steps[i].action == "rebind" then l.launch < i < l.verify else l.verify < i < l.measure)
    && (steps[i].operation == InjectFault ==> l.verify < i < l.measure)
    && (steps[i].operation == RecoverFault ==> l.verify < i < l.stop)
  }

  /** Each injection has exactly one recovery, later and before the stop, and each recovery one injection. */
  ghost predicate FaultsPaired(steps: seq<Step>, stop: int) {
    && (forall i :: 0 <= i < |steps| && steps[i].operation == InjectFault ==>
          exists j :: i < j < stop && RecoversOnly(steps, i, j))
    && (forall j :: 0 <= j < |steps| && steps[j].operation == RecoverFault ==>
          exists i :: 0 <= i < j && RecoversOnly(steps, i, j))
  }

  ghost predicate RecoversOnly(steps: seq<Step>, i: int, j: int) {
    && 0 <= i < |steps| && 0 <= j < |steps|
    && steps[i].operation == InjectFault && steps[j].operation == RecoverFault && steps[i].fault == steps[j].fault
    && forall k :: 0 <= k < |steps| && IsFault(steps[k]) && steps[k].fault == steps[i].fault ==> k == i || k == j
  }

  // ----------------------------------------------------------- counting and positions

  lemma OnlyOne<T>(s: set<T>, a: T, b: T)
    requires |s| == 1 && a in s && b in s
    ensures a == b
  {
    assert |s - {a}| == 0;
    assert b !in s - {a};
  }

  ghost predicate ExactlyAt(steps: seq<Step>, p: Step -> bool, k: nat) {
    k < |steps| && forall i :: 0 <= i < |steps| ==> (p(steps[i]) <==> i == k)
  }

  lemma OneMeansExactlyAt(steps: seq<Step>, p: Step -> bool) returns (k: nat)
    requires |Positions(steps, p)| == 1
    ensures ExactlyAt(steps, p, k) && Positions(steps, p) == {k}
  {
    var at := Positions(steps, p);
    assert at != {};
    k :| k in at;
    forall i | i in at ensures i == k { OnlyOne(at, i, k); }
    forall i | 0 <= i < |steps| ensures p(steps[i]) <==> i == k { assert i in at <==> p(steps[i]); }
  }

  lemma ExactlyAtMeansOne(steps: seq<Step>, p: Step -> bool, k: nat)
    requires ExactlyAt(steps, p, k)
    ensures |Positions(steps, p)| == 1 && Positions(steps, p) == {k}
  {
    assert Positions(steps, p) == {k};
  }

  lemma OnceMeans(steps: seq<Step>, op: Operation)
    requires Once(steps, op)
    ensures ExactlyAt(steps, Are(op), Index(steps, op))
  {
    var k := OneMeansExactlyAt(steps, Are(op));
    assert Are(op)(steps[k]);
    var r := Index(steps, op);
    assert r <= k;
    assert Are(op)(steps[r]);
  }

  lemma MeansOnce(steps: seq<Step>, op: Operation, k: nat)
    requires ExactlyAt(steps, Are(op), k)
    ensures Once(steps, op) && Index(steps, op) == k
  {
    ExactlyAtMeansOne(steps, Are(op), k);
    var r := Index(steps, op);
    assert Are(op)(steps[k]);
    assert r <= k;
    assert Are(op)(steps[r]);
  }

  // ------------------------------------------------------------ the lifecycle, exactly

  ghost predicate Placed(steps: seq<Step>, l: Life) {
    && 0 < l.bind < l.launch < l.verify < l.measure < l.stop == |steps| - 2
    && ExactlyAt(steps, Are(Provision), 0) && ExactlyAt(steps, IsBind, l.bind)
    && ExactlyAt(steps, Are(Launch), l.launch) && ExactlyAt(steps, Are(VerifyIdentity), l.verify)
    && ExactlyAt(steps, Are(Measure), l.measure) && ExactlyAt(steps, Are(Stop), l.stop)
    && ExactlyAt(steps, Are(Cleanup), |steps| - 1)
  }

  lemma OrderedIsPlaced(steps: seq<Step>) returns (l: Life)
    requires OrderOk(steps) && BindOk(steps)
    ensures Placed(steps, l)
    ensures
      && l.launch == Index(steps, Launch) && l.verify == Index(steps, VerifyIdentity)
      && l.measure == Index(steps, Measure) && l.stop == Index(steps, Stop)
  {
    OnceMeans(steps, Provision);
    OnceMeans(steps, Launch);
    OnceMeans(steps, VerifyIdentity);
    OnceMeans(steps, Measure);
    OnceMeans(steps, Stop);
    OnceMeans(steps, Cleanup);
    assert Are(Provision)(steps[0]) && Are(Stop)(steps[|steps| - 2]) && Are(Cleanup)(steps[|steps| - 1]);
    var b := OneMeansExactlyAt(steps, IsBind);
    assert b in Positions(steps, IsBind);
    l := Life(b, Index(steps, Launch), Index(steps, VerifyIdentity), Index(steps, Measure), Index(steps, Stop));
    assert Are(Launch)(steps[l.launch]) && Are(VerifyIdentity)(steps[l.verify]) && Are(Measure)(steps[l.measure]);
  }

  lemma PlacedIsOrdered(steps: seq<Step>, l: Life)
    requires Placed(steps, l)
    ensures OrderOk(steps) && BindOk(steps)
    ensures
      && l.launch == Index(steps, Launch) && l.verify == Index(steps, VerifyIdentity)
      && l.measure == Index(steps, Measure) && l.stop == Index(steps, Stop)
  {
    MeansOnce(steps, Provision, 0);
    MeansOnce(steps, Launch, l.launch);
    MeansOnce(steps, VerifyIdentity, l.verify);
    MeansOnce(steps, Measure, l.measure);
    MeansOnce(steps, Stop, l.stop);
    MeansOnce(steps, Cleanup, |steps| - 1);
    ExactlyAtMeansOne(steps, IsBind, l.bind);
    assert Are(Provision)(steps[0]) && Are(Stop)(steps[|steps| - 2]) && Are(Cleanup)(steps[|steps| - 1]);
  }

  ghost predicate Fits(steps: seq<Step>, side: Label, req: Requirements, l: Life, i: nat)
    requires i < |steps|
  {
    && InWindow(steps, l, i)
    && (IsAction(steps[i]) ==> steps[i].action in Allowed(side, req))
    && (IsFault(steps[i]) ==> side == Variant)
  }

  /** What an accepted plan is, without indices being searched for. */
  ghost predicate Proper(steps: seq<Step>, side: Label, req: Requirements, l: Life) {
    Placed(steps, l) && AllFit(steps, side, req, l)
  }

  ghost predicate AllFit(steps: seq<Step>, side: Label, req: Requirements, l: Life) {
    forall i :: 0 <= i < |steps| ==> StepOk(steps[i]) && Fits(steps, side, req, l, i)
  }

  lemma FitsExactly(steps: seq<Step>, side: Label, req: Requirements, l: Life, i: nat)
    requires i < |steps| && l.launch == Index(steps, Launch) && l.verify == Index(steps, VerifyIdentity)
    requires l.measure == Index(steps, Measure) && l.stop == Index(steps, Stop) && l.measure < l.stop
    ensures ActionOk(steps, Allowed(side, req), i) && FaultOk(steps, side, i) <==> Fits(steps, side, req, l, i)
  {
  }

  lemma AcceptedIsProper(steps: seq<Step>, side: Label, req: Requirements) returns (l: Life)
    requires PlanOk(steps, side, req)
    ensures Proper(steps, side, req, l)
  {
    l := OrderedIsPlaced(steps);
    forall i | 0 <= i < |steps| ensures StepOk(steps[i]) && Fits(steps, side, req, l, i) {
      FitsExactly(steps, side, req, l, i);
    }
  }

  lemma ProperIsAccepted(steps: seq<Step>, side: Label, req: Requirements, l: Life)
    requires Proper(steps, side, req, l)
    ensures PlanOk(steps, side, req)
  {
    PlacedIsOrdered(steps, l);
    forall i | 0 <= i < |steps| ensures ActionOk(steps, Allowed(side, req), i) && FaultOk(steps, side, i) {
      FitsExactly(steps, side, req, l, i);
    }
  }

  /** The checker accepts a plan exactly when the lifecycle steps are in place and every other step is in its
      window. */
  lemma AcceptedPlansAreProper(steps: seq<Step>, side: Label, req: Requirements)
    ensures PlanOk(steps, side, req) <==> exists l :: Proper(steps, side, req, l)
  {
    if PlanOk(steps, side, req) {
      var l := AcceptedIsProper(steps, side, req);
    } else if exists l :: Proper(steps, side, req, l) {
      var l :| Proper(steps, side, req, l);
      ProperIsAccepted(steps, side, req, l);
    }
  }

  /** Every step of an accepted plan is one of the ten operations of a run. It names an action exactly if it applies
      one, and a fault exactly if it injects or recovers one. */
  lemma AcceptedStepsAreComplete(steps: seq<Step>, side: Label, req: Requirements, i: nat)
    requires PlanOk(steps, side, req) && i < |steps|
    ensures
      var s := steps[i];
      && s.operation in {Provision, ApplyAction, ApplyWorkerAction, Launch, VerifyIdentity, InjectFault, RecoverFault,
                         Measure, Stop, Cleanup}
      && (!Blank(s.action) <==> s.operation in {ApplyAction, ApplyWorkerAction})
      && (!Blank(s.fault) <==> s.operation in {InjectFault, RecoverFault})
  {
    StripMeans(steps[i].action);
    StripMeans(steps[i].fault);
  }

  /** The accepted variant applies each action once, so its only bind is the one before launch. */
  lemma VariantBindsOnce(steps: seq<Step>, req: Requirements, declared: set<string>, l: Life, i: nat)
    requires VariantOk(steps, req, declared) && Proper(steps, Variant, req, l) && i < |steps|
    ensures IsAction(steps[i]) && steps[i].action == "bind" <==> i == l.bind
  {
    assert IsBind(steps[l.bind]);
    var k := OneMeansExactlyAt(steps, WithAction("bind"));
    assert WithAction("bind")(steps[l.bind]);
  }

  ghost predicate SameAction(s: Step, t: Step) {
    IsAction(s) && IsAction(t) && s.action == t.action
  }

  /** An accepted variant applies every required action exactly once, and no action twice. */
  lemma RequiredActionsAreApplied(steps: seq<Step>, req: Requirements, declared: set<string>, a: string)
    requires VariantOk(steps, req, declared)
    ensures a in req.actions ==> exists k :: ExactlyAt(steps, WithAction(a), k)
    ensures forall i, j :: 0 <= i < j < |steps| ==> !SameAction(steps[i], steps[j])
  {
    forall i, j | 0 <= i < j < |steps| ensures !SameAction(steps[i], steps[j]) {
      if IsAction(steps[i]) {
        var k := OneMeansExactlyAt(steps, WithAction(steps[i].action));
        assert WithAction(steps[i].action)(steps[i]);
        assert WithAction(steps[i].action)(steps[j]) <==> j == k;
      }
    }
    if a in req.actions {
      var i :| i in Positions(steps, WithAction(a));
      assert WithAction(a)(steps[i]) && steps[i].action == a;
      var k := OneMeansExactlyAt(steps, WithAction(a));
    }
  }

  /** In an accepted baseline every action is a bind, and a bind through the worker registry is not placed at all. */
  lemma BaselineOnlyBinds(steps: seq<Step>, req: Requirements, l: Life, i: nat)
    requires Proper(steps, Baseline, req, l) && i < |steps| && IsAction(steps[i])
    ensures steps[i].action == "bind" && (steps[i].operation == ApplyAction <==> i == l.bind)
  {
    assert Fits(steps, Baseline, req, l, i);
    assert IsBind(steps[i]) <==> i == l.bind;
  }

  // ---------------------------------------------------------------- inserting a step

  function Insert(steps: seq<Step>, m: nat, x: Step): seq<Step>
    requires m <= |steps|
  {
    steps[..m] + [x] + steps[m..]
  }

  /** Where a step stands after an insertion at `m`. */
  function Shift(m: nat, k: nat): nat {
    if k < m then k else k + 1
  }

  function Shifted(l: Life, m: nat): Life {
    Life(Shift(m, l.bind), Shift(m, l.launch), Shift(m, l.verify), Shift(m, l.measure), Shift(m, l.stop))
  }

  lemma ExactlyAtInsert(steps: seq<Step>, m: nat, x: Step, p: Step -> bool, k: nat)
    requires m <= |steps| && ExactlyAt(steps, p, k) && !p(x)
    ensures ExactlyAt(Insert(steps, m, x), p, Shift(m, k))
  {
    var longer := Insert(steps, m, x);
    forall i | 0 <= i < |longer| ensures p(longer[i]) <==> i == Shift(m, k) {
      assert longer[i] == if i < m then steps[i] else if i == m then x else steps[i - 1];
    }
  }

  /** A step that is not one of the lifecycle steps. */
  predicate Loose(x: Step) {
    IsFault(x) || (IsAction(x) && !IsBind(x))
  }

  lemma PlacedInsert(steps: seq<Step>, l: Life, m: nat, x: Step)
    requires Placed(steps, l) && 0 < m <= l.stop && Loose(x)
    ensures Placed(Insert(steps, m, x), Shifted(l, m))
  {
    ExactlyAtInsert(steps, m, x, Are(Provision), 0);
    ExactlyAtInsert(steps, m, x, IsBind, l.bind);
    ExactlyAtInsert(steps, m, x, Are(Launch), l.launch);
    ExactlyAtInsert(steps, m, x, Are(VerifyIdentity), l.verify);
    ExactlyAtInsert(steps, m, x, Are(Measure), l.measure);
    ExactlyAtInsert(steps, m, x, Are(Stop), l.stop);
    ExactlyAtInsert(steps, m, x, Are(Cleanup), |steps| - 1);
  }

  lemma FitsInsert(steps: seq<Step>, side: Label, req: Requirements, l: Life, m: nat, x: Step, k: nat)
    requires m <= |steps| && k < |steps| && StepOk(steps[k]) && Fits(steps, side, req, l, k)
    ensures
      var longer := Insert(steps, m, x);
      StepOk(longer[Shift(m, k)]) && Fits(longer, side, req, Shifted(l, m), Shift(m, k))
  {
    assert Insert(steps, m, x)[Shift(m, k)] == steps[k];
  }

  lemma ProperInsert(steps: seq<Step>, side: Label, req: Requirements, l: Life, m: nat, x: Step)
    requires Proper(steps, side, req, l) && 0 < m <= l.stop && Loose(x) && StepOk(x)
    requires Fits(Insert(steps, m, x), side, req, Shifted(l, m), m)
    ensures Proper(Insert(steps, m, x), side, req, Shifted(l, m))
  {
    PlacedInsert(steps, l, m, x);
    AllFitInsert(steps, side, req, l, m, x);
  }

  lemma AllFitInsert(steps: seq<Step>, side: Label, req: Requirements, l: Life, m: nat, x: Step)
    requires m <= |steps| && AllFit(steps, side, req, l) && StepOk(x)
    requires Fits(Insert(steps, m, x), side, req, Shifted(l, m), m)
    ensures AllFit(Insert(steps, m, x), side, req, Shifted(l, m))
  {
    var longer := Insert(steps, m, x);
    forall i | 0 <= i < |longer| ensures StepOk(longer[i]) && Fits(longer, side, req, Shifted(l, m), i) {
      if i == m {
        assert longer[m] == x;
      } else {
        var k := if i < m then i else i - 1;
        FitsInsert(steps, side, req, l, m, x, k);
      }
    }
  }

  lemma StrayBindIsAccepted(steps: seq<Step>, req: Requirements, m: nat, x: Step)
    requires PlanOk(steps, Baseline, req) && 0 < m <= |steps| - 2 && x == Step(ApplyWorkerAction, "bind", "")
    ensures PlanOk(Insert(steps, m, x), Baseline, req)
  {
    var l := AcceptedIsProper(steps, Baseline, req);
    assert Strip("bind") == "bind" by { assert "bind"[0] == 'b' && "bind"[3] == 'd'; }
    assert Insert(steps, m, x)[m] == x;
    ProperInsert(steps, Baseline, req, l, m, x);
    ProperIsAccepted(Insert(steps, m, x), Baseline, req, Shifted(l, m));
  }

  lemma EndsArePlaced(steps: seq<Step>, side: Label, req: Requirements, m: nat, x: Step)
    requires |steps| >= 2 && m <= |steps| && Loose(x) && PlanOk(Insert(steps, m, x), side, req)
    ensures 0 < m <= |steps| - 2
  {
    assert Insert(steps, m, x)[m] == x;
  }

  /** A bind through the worker registry can be put into any accepted baseline exactly at the places between provision
      and stop. */
  lemma BaselineBindCanStray(steps: seq<Step>, req: Requirements, m: nat)
    requires PlanOk(steps, Baseline, req) && m <= |steps|
    ensures
      PlanOk(Insert(steps, m, Step(ApplyWorkerAction, "bind", "")), Baseline, req) <==> 0 < m <= |steps| - 2
  {
    var x := Step(ApplyWorkerAction, "bind", "");
    if 0 < m <= |steps| - 2 {
      StrayBindIsAccepted(steps, req, m, x);
    } else if PlanOk(Insert(steps, m, x), Baseline, req) {
      EndsArePlaced(steps, Baseline, req, m, x);
    }
  }

  // ------------------------------------------------------------------------- faults

  lemma PairOf(steps: seq<Step>, fault: string) returns (i: nat, j: nat)
    requires RecoveredOnce(steps, fault)
    ensures i < j < |steps| && RecoversOnly(steps, i, j)
    ensures ExactlyAt(steps, WithFault(InjectFault, fault), i) && ExactlyAt(steps, WithFault(RecoverFault, fault), j)
  {
    i := OneMeansExactlyAt(steps, WithFault(InjectFault, fault));
    j := OneMeansExactlyAt(steps, WithFault(RecoverFault, fault));
    assert WithFault(InjectFault, fault)(steps[i]) && WithFault(RecoverFault, fault)(steps[j]);
    assert i in Positions(steps, WithFault(InjectFault, fault));
    assert j in Positions(steps, WithFault(RecoverFault, fault));
    forall k | 0 <= k < |steps| && IsFault(steps[k]) && steps[k].fault == fault ensures k == i || k == j {
      assert WithFault(InjectFault, fault)(steps[k]) || WithFault(RecoverFault, fault)(steps[k]);
    }
  }

  lemma PairAt(steps: seq<Step>, req: Requirements, declared: set<string>, l: Life, k: nat) returns (i: nat, j: nat)
    requires VariantOk(steps, req, declared) && Proper(steps, Variant, req, l)
    requires (forall f :: f in declared ==> f in req.faults) && k < |steps| && IsFault(steps[k])
    ensures i < j < l.stop && RecoversOnly(steps, i, j) && (k == i || k == j)
  {
    assert steps[k].fault in PlannedFaults(steps);
    i, j := PairOf(steps, steps[k].fault);
    assert WithFault(InjectFault, steps[k].fault)(steps[i]);
    assert Fits(steps, Variant, req, l, j);
  }

  /** When every declared fault is required, every accepted variant recovers what it injects before the stop. */
  lemma RequiredFaultsAreRecovered(steps: seq<Step>, req: Requirements, declared: set<string>)
    requires VariantOk(steps, req, declared) && forall f :: f in declared ==> f in req.faults
    ensures |steps| >= 2 && FaultsPaired(steps, |steps| - 2)
  {
    var l := AcceptedIsProper(steps, Variant, req);
    forall k | 0 <= k < |steps| && steps[k].operation == InjectFault
      ensures exists j :: k < j < l.stop && RecoversOnly(steps, k, j)
    {
      var i, j := PairAt(steps, req, declared, l, k);
    }
    forall k | 0 <= k < |steps| && steps[k].operation == RecoverFault
      ensures exists i :: 0 <= i < k && RecoversOnly(steps, i, k)
    {
      var i, j := PairAt(steps, req, declared, l, k);
    }
  }

  lemma CountInsert(steps: seq<Step>, m: nat, x: Step, p: Step -> bool)
    requires m <= |steps| && |Positions(steps, p)| == 1 && !p(x)
    ensures |Positions(Insert(steps, m, x), p)| == 1
  {
    var k := OneMeansExactlyAt(steps, p);
    ExactlyAtInsert(steps, m, x, p, k);
    ExactlyAtMeansOne(Insert(steps, m, x), p, Shift(m, k));
  }

  lemma RecoveredInsert(steps: seq<Step>, m: nat, x: Step, fault: string)
    requires m <= |steps| && RecoveredOnce(steps, fault) && x.fault != fault
    ensures RecoveredOnce(Insert(steps, m, x), fault)
  {
    var longer := Insert(steps, m, x);
    var i, j := PairOf(steps, fault);
    ExactlyAtInsert(steps, m, x, WithFault(InjectFault, fault), i);
    ExactlyAtInsert(steps, m, x, WithFault(RecoverFault, fault), j);
    ExactlyAtMeansOne(longer, WithFault(InjectFault, fault), Shift(m, i));
    ExactlyAtMeansOne(longer, WithFault(RecoverFault, fault), Shift(m, j));
  }

  lemma PlannedInsert(steps: seq<Step>, m: nat, x: Step)
    requires m <= |steps| && IsFault(x) && x.fault in PlannedFaults(steps)
    ensures PlannedFaults(Insert(steps, m, x)) == PlannedFaults(steps)
  {
    var longer := Insert(steps, m, x);
    forall i | 0 <= i < |steps| && IsFault(steps[i]) ensures steps[i].fault in PlannedFaults(longer) {
      assert longer[Shift(m, i)] == steps[i];
    }
    forall i | 0 <= i < |longer| && IsFault(longer[i]) ensures longer[i].fault in PlannedFaults(steps) {
      assert longer[i] == if i < m then steps[i] else if i == m then x else steps[i - 1];
    }
  }

  lemma ActionsOnceInsert(steps: seq<Step>, m: nat, x: Step)
    requires ActionsOnce(steps) && m <= |steps| && IsFault(x)
    ensures ActionsOnce(Insert(steps, m, x))
  {
    var longer := Insert(steps, m, x);
    forall i | 0 <= i < |longer| && IsAction(longer[i]) ensures |Positions(longer, WithAction(longer[i].action))| == 1 {
      var k := if i < m then i else i - 1;
      assert longer[i] == if i == m then x else steps[k];
      CountInsert(steps, m, x, WithAction(steps[k].action));
    }
  }

  lemma ActionsPresentInsert(steps: seq<Step>, req: Requirements, m: nat, x: Step)
    requires ActionsPresent(steps, req) && m <= |steps|
    ensures ActionsPresent(Insert(steps, m, x), req)
  {
    var longer := Insert(steps, m, x);
    forall a | a in req.actions ensures Positions(longer, WithAction(a)) != {} {
      var k :| k in Positions(steps, WithAction(a));
      assert longer[Shift(m, k)] == steps[k];
      assert Shift(m, k) in Positions(longer, WithAction(a));
    }
  }

  lemma PlanInsertsInjection(steps: seq<Step>, req: Requirements, l: Life, f: string)
    requires Proper(steps, Variant, req, l) && Strip(f) != ""
    ensures PlanOk(Insert(steps, l.measure, Step(InjectFault, "", f)), Variant, req)
  {
    var x := Step(InjectFault, "", f);
    var longer := Insert(steps, l.measure, x);
    assert longer[l.measure] == x;
    ProperInsert(steps, Variant, req, l, l.measure, x);
    ProperIsAccepted(longer, Variant, req, Shifted(l, l.measure));
  }

  ghost predicate InjectedAt(steps: seq<Step>, f: string, i: nat) {
    i < |steps| && steps[i].operation == InjectFault && steps[i].fault == f
  }

  function VariantChecker(req: Requirements, declared: set<string>): seq<Step> -> bool {
    (steps: seq<Step>) => VariantOk(steps, req, declared)
  }

  /** A declared fault that is not required can be injected once more into any accepted variant. */
  lemma ExtraInjectionIsAccepted(steps: seq<Step>, req: Requirements, declared: set<string>, f: string, i: nat)
    returns (longer: seq<Step>, j: nat, k: nat)
    requires VariantChecker(req, declared)(steps) && f in declared && f !in req.faults && InjectedAt(steps, f, i)
    ensures VariantChecker(req, declared)(longer) && j != k && InjectedAt(longer, f, j) && InjectedAt(longer, f, k)
  {
    var x := Step(InjectFault, "", f);
    var l := AcceptedIsProper(steps, Variant, req);
    var m := l.measure;
    longer, j, k := Insert(steps, m, x), m, Shift(m, i);
    assert longer[j] == x && longer[k] == steps[i];
    assert StepOk(steps[i]);
    PlanInsertsInjection(steps, req, l, f);
    ActionsPresentInsert(steps, req, m, x);
    ActionsOnceInsert(steps, m, x);
    PlannedInsert(steps, m, x);
    forall g | g in req.faults ensures RecoveredOnce(longer, g) { RecoveredInsert(steps, m, x, g); }
  }

  /** Every plan that a checker accepts recovers what it injects. */
  ghost predicate AlwaysRecovered(check: seq<Step> -> bool) {
    forall steps :: check(steps) ==> FaultsPaired(steps, |steps| - 2)
  }

  lemma InjectedTwice(steps: seq<Step>, f: string, i: nat, j: nat)
    requires InjectedAt(steps, f, i) && InjectedAt(steps, f, j) && i != j
    ensures !FaultsPaired(steps, |steps| - 2)
  {
    assert forall k :: !RecoversOnly(steps, i, k);
  }

  /** Exactly when the checker guarantees recovery, for scenarios it accepts at all: when every declared fault is
      required. */
  lemma RecoveryIsGuaranteedExactlyWhen(steps: seq<Step>, req: Requirements, declared: set<string>)
    requires VariantOk(steps, req, declared)
    ensures AlwaysRecovered(VariantChecker(req, declared)) <==> forall f :: f in declared ==> f in req.faults
  {
    if f :| f in declared && f !in req.faults {
      UnrecoveredVariant(steps, req, declared, f);
    } else {
      forall other | VariantOk(other, req, declared) ensures FaultsPaired(other, |other| - 2) {
        RequiredFaultsAreRecovered(other, req, declared);
      }
    }
  }

  lemma UnrecoveredVariant(steps: seq<Step>, req: Requirements, declared: set<string>, f: string)
    requires VariantChecker(req, declared)(steps) && f in declared && f !in req.faults
    ensures !AlwaysRecovered(VariantChecker(req, declared))
  {
    var i := InjectionUnlessUnpaired(steps, f);
    if InjectedAt(steps, f, i) {
      var bad, j, k := ExtraInjectionIsAccepted(steps, req, declared, f, i);
      DoubleDefeats(VariantChecker(req, declared), bad, f, j, k);
    }
  }

  lemma DoubleDefeats(check: seq<Step> -> bool, steps: seq<Step>, f: string, i: nat, j: nat)
    requires check(steps) && InjectedAt(steps, f, i) && InjectedAt(steps, f, j) && i != j
    ensures !AlwaysRecovered(check)
  {
    InjectedTwice(steps, f, i, j);
  }

  lemma InjectionUnlessUnpaired(steps: seq<Step>, f: string) returns (i: nat)
    requires f in PlannedFaults(steps)
    ensures InjectedAt(steps, f, i) || !FaultsPaired(steps, |steps| - 2)
  {
    var k: nat :| k < |steps| && IsFault(steps[k]) && steps[k].fault == f;
    i := k;
    if steps[k].operation == RecoverFault && FaultsPaired(steps, |steps| - 2) {
      i :| 0 <= i < k && RecoversOnly(steps, i, k);
    }
  }

  // --------------------------------------------------------------------- the runner

  const FAILURE_CLEANUP := Step(Cleanup, "", "")

  /** A driver call can fail with one of the errors that are caught, or raise another exception, which escapes. */
  datatype Call = Passed | Failed | Raised

  /** The first step whose driver call does not pass, or the length of the plan. */
  function FirstFailure(plan: seq<Step>, calls: nat -> Call, k: nat): (r: nat)
    requires k <= |plan|
    ensures k <= r <= |plan| && (forall i :: k <= i < r ==> calls(i).Passed?) && (r < |plan| ==> !calls(r).Passed?)
    decreases |plan| - k
  {
    if k == |plan| || !calls(k).Passed? then k else FirstFailure(plan, calls, k + 1)
  }

  /** The driver calls of one iteration. */
  function Issued(plan: seq<Step>, calls: nat -> Call): seq<Step> {
    var k := FirstFailure(plan, calls, 0);
    if k == |plan| then plan
    else if calls(k).Raised? || (k > 0 && plan[k - 1].operation == Cleanup) then plan[..k + 1]
    else plan[..k + 1] + [FAILURE_CLEANUP]
  }

  /** The failed step, and how the cleanup after it ended; an escaped exception reports nothing. */
  datatype Outcome = Completed | Failure(step: nat, cleanupFailed: bool) | Escaped

  /** Runs the plan until a step fails, then cleans up unless the last completed step was a cleanup. */
  method RunIteration(plan: seq<Step>, calls: nat -> Call, cleanup: Call)
    returns (issued: seq<Step>, completed: seq<Operation>, outcome: Outcome)
    ensures issued == Issued(plan, calls)
    ensures
      var k := FirstFailure(plan, calls, 0);
      && |completed| == k && (forall i :: 0 <= i < k ==> completed[i] == plan[i].operation)
      && (outcome.Completed? <==> k == |plan|)
      && (outcome.Escaped? <==> k < |plan| && (calls(k).Raised? || (|issued| == k + 2 && cleanup.Raised?)))
      && (outcome.Failure? ==> outcome == Failure(k, |issued| == k + 2 && cleanup.Failed?))
  {
    issued, completed, outcome := [], [], Completed;
    var index := 0;
    while index < |plan| && outcome.Completed?
      invariant index <= |plan| && issued == plan[..index]
      invariant outcome.Completed? ==>
        |completed| == index && FirstFailure(plan, calls, 0) == FirstFailure(plan, calls, index)
      invariant !outcome.Completed? ==>
        && |completed| + 1 == index && FirstFailure(plan, calls, 0) == |completed|
        && outcome == if calls(|completed|).Raised? then Escaped else Failure(|completed|, false)
      invariant forall i :: 0 <= i < |completed| ==> completed[i] == plan[i].operation
      decreases |plan| - index
    {
      issued := issued + [plan[index]];
      match calls(index) {
        case Passed => completed := completed + [plan[index].operation];
        case Failed => outcome := Failure(index, false);
        case Raised => outcome := Escaped;
      }
      index := index + 1;
    }
    assert plan[..|plan|] == plan;
    if outcome.Failure? && (completed == [] || completed[|completed| - 1] != Cleanup) {
      issued := issued + [FAILURE_CLEANUP];
      match cleanup
      case Passed =>
      case Failed => outcome := Failure(outcome.step, true);
      case Raised => outcome := Escaped;
    }
  }

  /** For every plan: the steps up to the first failure are issued in order. One more cleanup follows exactly when that
      failure was caught and the step before it was not a cleanup. */
  lemma CleanupAfterFailure(plan: seq<Step>, calls: nat -> Call)
    ensures
      var k, issued := FirstFailure(plan, calls, 0), Issued(plan, calls);
      && (k == |plan| ==> issued == plan)
      && (k < |plan| ==> k + 1 <= |issued| <= k + 2 && issued[..k + 1] == plan[..k + 1])
      && (k < |plan| ==>
            (|issued| == k + 2 <==> calls(k).Failed? && (k == 0 || plan[k - 1].operation != Cleanup)))
      && (k < |plan| && |issued| == k + 2 ==> issued[k + 1] == Step(Cleanup, "", ""))
  {
  }

  ghost predicate CleansUpLast(plan: seq<Step>) {
    plan != [] && forall i :: 0 <= i < |plan| ==> (plan[i].operation == Cleanup <==> i == |plan| - 1)
  }

  lemma AcceptedCleansUpLast(plan: seq<Step>, side: Label, req: Requirements)
    requires PlanOk(plan, side, req)
    ensures CleansUpLast(plan)
  {
    OnceMeans(plan, Cleanup);
    assert Are(Cleanup)(plan[|plan| - 1]);
    forall i | 0 <= i < |plan| ensures plan[i].operation == Cleanup <==> i == |plan| - 1 {
      assert Are(Cleanup)(plan[i]) <==> i == Index(plan, Cleanup);
    }
  }

  /** The calls of a run: a prefix of the plan, after a failure one more cleanup, and a cleanup last in any case. The
      only other cleanup is the plan's own, when that is the call that failed. */
  ghost predicate EndsInCleanup(plan: seq<Step>, k: nat, issued: seq<Step>)
    requires k <= |plan|
  {
    && issued == (if k == |plan| then plan else plan[..k + 1] + [FAILURE_CLEANUP])
    && issued != [] && issued[|issued| - 1].operation == Cleanup
    && forall i :: 0 <= i < |issued| - 1 && issued[i].operation == Cleanup ==> i == |issued| - 2 == k == |plan| - 1
  }

  lemma ShapeOfRun(plan: seq<Step>, calls: nat -> Call)
    requires CleansUpLast(plan)
    ensures
      var k, issued := FirstFailure(plan, calls, 0), Issued(plan, calls);
      && (k < |plan| && calls(k).Raised? ==> issued == plan[..k + 1])
      && (k == |plan| || !calls(k).Raised? ==> EndsInCleanup(plan, k, issued))
  {
  }

  /** For every accepted plan and every pattern of failures. */
  lemma RunsEndInCleanup(plan: seq<Step>, side: Label, req: Requirements, calls: nat -> Call)
    requires PlanOk(plan, side, req)
    ensures
      var k, issued := FirstFailure(plan, calls, 0), Issued(plan, calls);
      && (k == |plan| || !calls(k).Raised? ==> EndsInCleanup(plan, k, issued))
      && (issued[|issued| - 1].operation == Cleanup <==> !(k < |plan| - 1 && calls(k).Raised?))
  {
    AcceptedCleansUpLast(plan, side, req);
    ShapeOfRun(plan, calls);
  }

  /** A fault injected in an iteration that did not fail has been recovered in it, once and before the stop. */
  lemma UnfailedRunsRecover(plan: seq<Step>, req: Requirements, declared: set<string>, calls: nat -> Call)
    requires VariantOk(plan, req, declared) && forall f :: f in declared ==> f in req.faults
    ensures FirstFailure(plan, calls, 0) == |plan| ==> FaultsPaired(Issued(plan, calls), |plan| - 2)
  {
    RequiredFaultsAreRecovered(plan, req, declared);
  }

  predicate IsShortest(steps: seq<Step>) {
    && |steps| == 7
    && steps[0] == Step(Provision, "", "")
    && steps[1] == Step(ApplyAction, "bind", "")
    && steps[2] == Step(Launch, "", "")
    && steps[3] == Step(VerifyIdentity, "", "") && steps[4] == Step(Measure, "", "") && steps[5] == Step(Stop, "", "")
    && steps[6] == Step(Cleanup, "", "")
  }

  lemma ShortestIsPlaced(steps: seq<Step>)
    requires IsShortest(steps)
    ensures Placed(steps, Life(1, 2, 3, 4, 5))
  {
  }

  lemma ShortestFits(steps: seq<Step>, side: Label, req: Requirements)
    requires IsShortest(steps)
    ensures AllFit(steps, side, req, Life(1, 2, 3, 4, 5))
  {
    assert Strip("bind") == "bind" by { assert "bind"[0] == 'b' && "bind"[3] == 'd'; }
  }

  /** Accepted plans exist: the shortest one. */
  lemma ShortestIsAccepted(steps: seq<Step>, side: Label, req: Requirements)
    requires IsShortest(steps)
    ensures PlanOk(steps, side, req)
  {
    ShortestIsPlaced(steps);
    ShortestFits(steps, side, req);
    ProperIsAccepted(steps, side, req, Life(1, 2, 3, 4, 5));
  }
}
