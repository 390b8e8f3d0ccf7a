/**
 The crash-safe attempt and receipt state of the hardware environment driver
 (scripts/hardware_environment_driver.py). One invocation loads the state
 file, may checkpoint it before the create request of a provision, calls
 the environment, and writes the file on the way out; it can crash or fail to
 write in between. Digests are the digested values themselves.
 */
module EnvironmentDriver {
  import opened Common
  import opened Runs

  // --------------------------------------------------------------------------- data

  datatype StateKey = StateKey(campaign: string, experiment: string, runKey: string)

  datatype Operation = Provision | Cleanup | Other(name: string)

  datatype Request = Request(id: string, key: StateKey, operation: Operation, stepIndex: nat, content: string)

  type Job = string

  datatype Response = Response(events: string, artifacts: seq<string>)

  datatype JobId = JobId(key: StateKey, attempt: nat, attemptId: string)

  datatype OperationKey = OperationKey(requestId: string, attempt: nat, attemptId: string, suffix: string)

  datatype Receipt = Receipt(request: Request, response: Response)

  /** One persisted run. `runId` survives compaction and `details` does not. */
  datatype RunState = RunState(
    attempt: nat, attemptId: string, jobId: Option<JobId>, job: Option<Job>, runId: string, details: string,
    lastStep: nat, cleaned: bool, cleanupRequest: Option<string>, receipts: map<string, Receipt>)

  type Disk = map<StateKey, RunState>

  /** A create request that reached the gateway. */
  datatype Create = Create(request: Request, attempt: nat, jobId: JobId, job: Job, operationKey: OperationKey)

  datatype Error =
    | IdReused | RenderFailed | JobChanged | JobIdInconsistent | CheckpointFailed | NotProvisioned | DispatchFailed
    | WriteFailed

  datatype Reply = Replayed(response: Response) | Answered(response: Response) | Refused(error: Error) | Crashed

  datatype Crash = NoCrash | BeforeCheckpoint | DuringDispatch

  /** A failed write leaves the old or the new file. */
  datatype Write = Stored | FailedOld | FailedNew

  /** What the environment does in one invocation: the fresh attempt ID it would draw, the job it renders, where it
      crashes, how the writes go, whether a create request is sent, and how the call ends. */
  datatype Fate = Fate(
    freshId: string, job: Option<Job>, crash: Crash, checkpoint: Write, sent: bool, runId: string, details: string,
    response: Option<Response>, exit: Write)

  // ---------------------------------------------------------------------- compaction

  function NewRun(attempt: nat, attemptId: string): RunState {
    RunState(attempt, attemptId, None, None, "", "", 0, false, None, map[])
  }

  function Compact(run: RunState): RunState {
    if !run.cleaned then run
    else
      var kept := match run.cleanupRequest
        case None => map[]
        case Some(id) => if id in run.receipts then map[id := run.receipts[id]] else map[];
      run.(details := "", receipts := kept)
  }

  lemma CompactOnce(run: RunState)
    ensures Compact(Compact(run)) == Compact(run)
    ensures Compact(run).attempt == run.attempt && Compact(run).attemptId == run.attemptId
    ensures Compact(run).jobId == run.jobId && Compact(run).job == run.job && Compact(run).cleaned == run.cleaned
    ensures
      run.cleaned ==> forall id :: id in Compact(run).receipts <==>
      id in run.receipts && Some(id) == run.cleanupRequest
    ensures
      forall id :: id in Compact(run).receipts ==>
        id in run.receipts && Compact(run).receipts[id] == run.receipts[id]
    ensures Compact(run).runId == run.runId && Compact(run).lastStep == run.lastStep
    ensures Compact(run).cleanupRequest == run.cleanupRequest && (run.cleaned ==> Compact(run).details == "")
    ensures !run.cleaned ==> Compact(run) == run
  {
  }

  function Load(disk: Disk): Disk {
    map k | k in disk :: Compact(disk[k])
  }

  // ----------------------------------------------------------------- one invocation

  function ExpectedJobId(key: StateKey, run: RunState): JobId {
    JobId(key, run.attempt, run.attemptId)
  }

  /** The run an invocation works on: a provision after a cleanup opens the next attempt. */
  function Select(runs: Disk, req: Request, freshId: string): RunState {
    if req.key in runs && req.operation == Provision && runs[req.key].cleaned then
      NewRun(runs[req.key].attempt + 1, freshId)
    else if req.key in runs then runs[req.key]
    else NewRun(1, freshId)
  }

  datatype Result = Result(disk: Disk, reply: Reply, creates: seq<Create>)

  /** Leaving the locked section writes the state, whatever the reply. */
  function Leave(disk: Disk, runs: Disk, write: Write, reply: Reply, creates: seq<Create>): Result {
    match write
    case Stored => Result(runs, reply, creates)
    case FailedOld => Result(disk, Refused(WriteFailed), creates)
    case FailedNew => Result(runs, Refused(WriteFailed), creates)
  }

  function Record(run: RunState, req: Request, response: Response): RunState {
    var done := run.(receipts := run.receipts[req.id := Receipt(req, response)], lastStep := req.stepIndex);
    if req.operation == Provision then done.(cleaned := false)
    else if req.operation == Cleanup then Compact(done.(cleaned := true, cleanupRequest := Some(req.id)))
    else done
  }

  /** The environment call and what follows it. */
  function Dispatch(disk: Disk, runs: Disk, run: RunState, req: Request, fate: Fate, creates: seq<Create>): Result {
    if fate.crash == DuringDispatch then Result(disk, Crashed, creates)
    else
      var touched := run.(runId := fate.runId, details := fate.details);
      match fate.response
      case None => Leave(disk, runs[req.key := touched], fate.exit, Refused(DispatchFailed), creates)
      case Some(response) =>
        Leave(disk, runs[req.key := Record(touched, req, response)], fate.exit, Answered(response), creates)
  }

  /** A provision fixes the job and its ID and checkpoints them before it can send the create request. */
  function ProvisionRun(disk: Disk, runs: Disk, run: RunState, req: Request, fate: Fate): Result {
    if fate.job.None? then Leave(disk, runs, fate.exit, Refused(RenderFailed), [])
    else if run.job.Some? && run.job != fate.job then Leave(disk, runs, fate.exit, Refused(JobChanged), [])
    else
      var expected := ExpectedJobId(req.key, run);
      if run.jobId.Some? && run.jobId != Some(expected) then
        Leave(disk, runs[req.key := run.(job := fate.job)], fate.exit, Refused(JobIdInconsistent), [])
      else
        var fixed := run.(job := fate.job, jobId := Some(expected));
        var next := runs[req.key := fixed];
        var written := if fate.checkpoint == FailedOld then disk else next;
        if fate.checkpoint != Stored then Leave(written, next, fate.exit, Refused(CheckpointFailed), [])
        else Dispatch(written, next, fixed, req, fate, if fate.sent then [CreateOf(req, fixed)] else [])
  }

  function CreateOf(req: Request, run: RunState): Create
    requires run.job.Some? && run.jobId.Some?
  {
    Create(req, run.attempt, run.jobId.value, run.job.value, OperationKey(req.id, run.attempt, run.attemptId, "create"))
  }

  const NOTHING_TO_CLEAN := Response("", [])

  /** Artifacts belong to one invocation, so a replay does not claim them. */
  function WithoutArtifacts(r: Response): Response {
    r.(artifacts := [])
  }

  function Execute(disk: Disk, req: Request, fate: Fate): Result {
    var run := Select(Load(disk), req, fate.freshId);
    var runs := Load(disk)[req.key := run];
    if fate.crash == BeforeCheckpoint then Result(disk, Crashed, [])
    else if req.id in run.receipts then
      var receipt := run.receipts[req.id];
      if receipt.request != req then Leave(disk, runs, fate.exit, Refused(IdReused), [])
      else Leave(disk, runs, fate.exit, Replayed(WithoutArtifacts(receipt.response)), [])
    else if req.operation == Provision then ProvisionRun(disk, runs, run, req, fate)
    else if run.jobId.None? && req.operation == Cleanup then
      Leave(disk, runs[req.key := Record(run, req, NOTHING_TO_CLEAN)], fate.exit, Answered(NOTHING_TO_CLEAN), [])
    else if run.jobId.None? then Leave(disk, runs, fate.exit, Refused(NotProvisioned), [])
    else Dispatch(disk, runs, run, req, fate, [])
  }

  /** The driver object; `file` is the state file between invocations. */
  class HardwareEnvironmentDriver {
    var file: Disk

    /** A driver on an existing state file; a missing one has no runs. */
    constructor (existing: Option<Disk>)
      ensures file == if existing.Some? then existing.value else map[]
    {
      file := if existing.Some? then existing.value else map[];
    }

    /** The checkpoint of a provision; the identity is in `runs` before it is written. */
    method FixJob(runs: Disk, run: RunState, req: Request, fate: Fate)
      returns (error: Option<Error>, next: Disk, fixed: RunState)
      modifies this
      ensures
        if fate.job.None? then error == Some(RenderFailed) && next == runs && file == old(file)
        else if run.job.Some? && run.job != fate.job then error == Some(JobChanged) && next == runs && file == old(file)
        else if run.jobId.Some? && run.jobId != Some(ExpectedJobId(req.key, run)) then
          error == Some(JobIdInconsistent) && next == runs[req.key := run.(job := fate.job)] && file == old(file)
        else
          && fixed == run.(job := fate.job, jobId := Some(ExpectedJobId(req.key, run)))
          && next == runs[req.key := fixed]
          && error == (if fate.checkpoint == Stored then None else Some(CheckpointFailed))
          && file == if fate.checkpoint == FailedOld then old(file) else next
    {
      error, next, fixed := None, runs, run;
      if fate.job.None? { return Some(RenderFailed), next, fixed; }
      if run.job.Some? && run.job != fate.job { return Some(JobChanged), next, fixed; }
      fixed := run.(job := fate.job);
      next := runs[req.key := fixed];
      var expected := ExpectedJobId(req.key, run);
      if run.jobId.Some? && run.jobId != Some(expected) { return Some(JobIdInconsistent), next, fixed; }
      fixed := fixed.(jobId := Some(expected));
      next := runs[req.key := fixed];
      if fate.checkpoint != FailedOld { file := next; }
      if fate.checkpoint != Stored { error := Some(CheckpointFailed); }
    }

    /** Leaves the locked section. */
    method Unlock(runs: Disk, write: Write, reply: Reply) returns (final: Reply)
      modifies this
      ensures Result(file, final, []) == Leave(old(file), runs, write, reply, [])
    {
      if write != FailedOld { file := runs; }
      final := if write == Stored then reply else Refused(WriteFailed);
    }

    method Run(req: Request, fate: Fate) returns (reply: Reply, creates: seq<Create>)
      modifies this
      ensures Result(file, reply, creates) == Execute(old(file), req, fate)
    {
      creates := [];
      var runs := Load(file);
      var run := Select(runs, req, fate.freshId);
      runs := runs[req.key := run];
      if fate.crash == BeforeCheckpoint { return Crashed, []; }
      if req.id in run.receipts {
        var receipt := run.receipts[req.id];
        var answer :=
          if receipt.request != req then Refused(IdReused) else Replayed(WithoutArtifacts(receipt.response));
        reply := Unlock(runs, fate.exit, answer);
        return;
      }
      if req.operation == Provision {
        var error;
        error, runs, run := FixJob(runs, run, req, fate);
        if error.Some? { reply := Unlock(runs, fate.exit, Refused(error.value)); return; }
        if fate.sent { creates := [CreateOf(req, run)]; }
      } else if run.jobId.None? {
        if req.operation != Cleanup { reply := Unlock(runs, fate.exit, Refused(NotProvisioned)); return; }
        runs := runs[req.key := Record(run, req, NOTHING_TO_CLEAN)];
        reply := Unlock(runs, fate.exit, Answered(NOTHING_TO_CLEAN));
        return;
      }
      reply := Call(runs, run, req, fate);
    }

    /** Calls the environment and records the outcome. */
    method Call(runs: Disk, run: RunState, req: Request, fate: Fate) returns (reply: Reply)
      modifies this
      ensures Result(file, reply, []) == Dispatch(old(file), runs, run, req, fate, [])
    {
      if fate.crash == DuringDispatch { return Crashed; }
      var touched := run.(runId := fate.runId, details := fate.details);
      if fate.response.None? {
        reply := Unlock(runs[req.key := touched], fate.exit, Refused(DispatchFailed));
      } else {
        var response := fate.response.value;
        reply := Unlock(runs[req.key := Record(touched, req, response)], fate.exit, Answered(response));
      }
    }
  }

  // ------------------------------------------------------------------ one step at large

  /** What one invocation can make of the run it selected. */
  ghost predicate Follows(run: RunState, req: Request, b: RunState) {
    && b.attempt == run.attempt && b.attemptId == run.attemptId
    && (run.jobId.Some? ==> b.jobId == run.jobId) && (run.job.Some? ==> b.job == run.job)
    && (req.operation != Cleanup && !run.cleaned ==>
          !b.cleaned && forall id :: id in run.receipts ==> id in b.receipts && b.receipts[id] == run.receipts[id])
    && (CleanedHasReceipt(run) ==> CleanedHasReceipt(b))
    && OnlyItsReceipt(run, req, b)
  }

  /** No receipt was added but the one of this request. */
  ghost predicate OnlyItsReceipt(run: RunState, req: Request, b: RunState) {
    forall id :: id in b.receipts && !(id in run.receipts && b.receipts[id] == run.receipts[id]) ==>
      id == req.id && id !in run.receipts && b.receipts[id].request == req
  }

  /** A cleaned run has the receipt of its cleanup. */
  ghost predicate CleanedHasReceipt(run: RunState) {
    run.cleaned ==> run.cleanupRequest.Some? && run.cleanupRequest.value in run.receipts
  }

  /** The file is as it was, or it holds the compacted runs with `b` for the run of this request. */
  ghost predicate Reaches(disk: Disk, req: Request, selected: RunState, after: Disk, b: RunState) {
    after == disk || (Follows(selected, req, b) && after == Load(disk)[req.key := b])
  }

  /** A create request names what the file says about its attempt. */
  ghost predicate CreateMatches(c: Create, req: Request, b: RunState) {
    && c.request == req && c.attempt == b.attempt && c.jobId == ExpectedJobId(req.key, b)
    && b.jobId == Some(c.jobId) && b.job == Some(c.job)
    && c.operationKey == OperationKey(req.id, b.attempt, b.attemptId, "create")
  }

  lemma RecordFollows(run: RunState, req: Request, runId: string, details: string, response: Response)
    requires req.id !in run.receipts
    ensures
      var touched := run.(runId := runId, details := details);
      && Follows(run, req, touched) && Follows(run, req, Record(touched, req, response))
      && Record(touched, req, response).jobId == run.jobId && Record(touched, req, response).job == run.job
  {
  }

  lemma DispatchReaches(disk: Disk, before: Disk, runs: Disk, run: RunState, req: Request, fate: Fate,
      creates: seq<Create>)
    returns (b: RunState)
    requires runs == Load(disk)[req.key := run] && req.id !in run.receipts && (before == disk || before == runs)
    ensures
      var r := Dispatch(before, runs, run, req, fate, creates);
      && r.creates == creates && (r.disk == before || r.disk == Load(disk)[req.key := b])
      && Follows(run, req, b) && b.jobId == run.jobId && b.job == run.job
  {
    var touched := run.(runId := fate.runId, details := fate.details);
    b := run;
    if fate.response.Some? {
      RecordFollows(run, req, fate.runId, fate.details, fate.response.value);
      b := Record(touched, req, fate.response.value);
      assert runs[req.key := b] == Load(disk)[req.key := b];
    } else {
      b := touched;
      assert runs[req.key := b] == Load(disk)[req.key := b];
    }
  }

  /** After a stored checkpoint. */
  lemma SendReaches(disk: Disk, run: RunState, fixed: RunState, req: Request, fate: Fate) returns (b: RunState)
    requires req.id !in run.receipts && fixed.job.Some? && (run.job.Some? ==> run.job == fixed.job)
    requires fixed == run.(job := fixed.job, jobId := Some(ExpectedJobId(req.key, run)))
    requires run.jobId.Some? ==> run.jobId == fixed.jobId
    ensures
      var next := Load(disk)[req.key := fixed];
      var r := Dispatch(next, next, fixed, req, fate, if fate.sent then [CreateOf(req, fixed)] else []);
      && Follows(run, req, b) && r.disk == Load(disk)[req.key := b]
      && (r.creates != [] ==> |r.creates| == 1 && CreateMatches(r.creates[0], req, b))
  {
    var next := Load(disk)[req.key := fixed];
    var creates := if fate.sent then [CreateOf(req, fixed)] else [];
    b := DispatchReaches(disk, next, next, fixed, req, fate, creates);
    if Dispatch(next, next, fixed, req, fate, creates).disk == next { b := fixed; }
  }

  lemma FixingFollows(run: RunState, req: Request, job: Option<Job>, jobId: Option<JobId>)
    requires (run.job.Some? ==> job == run.job) && (run.jobId.Some? ==> jobId == run.jobId)
    ensures Follows(run, req, run.(job := job, jobId := jobId))
  {
  }

  lemma ProvisionReaches(disk: Disk, run: RunState, req: Request, fate: Fate) returns (b: RunState)
    requires req.operation == Provision && req.id !in run.receipts
    ensures
      var r := ProvisionRun(disk, Load(disk)[req.key := run], run, req, fate);
      && Reaches(disk, req, run, r.disk, b)
      && (r.creates != [] ==>
            |r.creates| == 1 && CreateMatches(r.creates[0], req, b) && r.disk == Load(disk)[req.key := b])
  {
    var runs := Load(disk)[req.key := run];
    b := run;
    FixingFollows(run, req, run.job, run.jobId);
    if fate.job.Some? && !(run.job.Some? && run.job != fate.job) {
      var expected := ExpectedJobId(req.key, run);
      var fixed := run.(job := fate.job, jobId := Some(expected));
      assert runs[req.key := fixed] == Load(disk)[req.key := fixed];
      if run.jobId.Some? && run.jobId != Some(expected) {
        b := run.(job := fate.job);
        FixingFollows(run, req, fate.job, run.jobId);
        assert runs[req.key := b] == Load(disk)[req.key := b];
      } else if fate.checkpoint != Stored {
        b := fixed;
        FixingFollows(run, req, fate.job, Some(expected));
      } else {
        b := SendReaches(disk, run, fixed, req, fate);
      }
    }
  }

  lemma ExecuteReaches(disk: Disk, req: Request, fate: Fate) returns (b: RunState)
    ensures
      var r := Execute(disk, req, fate);
      && Reaches(disk, req, Select(Load(disk), req, fate.freshId), r.disk, b)
      && (r.creates != [] ==>
            |r.creates| == 1 && CreateMatches(r.creates[0], req, b) && r.disk == Load(disk)[req.key := b])
  {
    var run := Select(Load(disk), req, fate.freshId);
    var runs := Load(disk)[req.key := run];
    b := run;
    if fate.crash != BeforeCheckpoint && req.id !in run.receipts {
      if req.operation == Provision {
        b := ProvisionReaches(disk, run, req, fate);
      } else if run.jobId.Some? {
        b := DispatchReaches(disk, disk, runs, run, req, fate, []);
      } else if req.operation == Cleanup {
        RecordFollows(run, req, run.runId, run.details, NOTHING_TO_CLEAN);
        b := Record(run, req, NOTHING_TO_CLEAN);
        assert runs[req.key := b] == Load(disk)[req.key := b];
      }
    }
  }

  // --------------------------------------------------------------------------- runs

  datatype Invocation = Invocation(request: Request, fate: Fate)

  /** The state file and every create request sent so far. */
  datatype History = History(disk: Disk, creates: seq<Create>)

  function Step(h: History, i: Invocation): History {
    var r := Execute(h.disk, i.request, i.fate);
    History(r.disk, h.creates + r.creates)
  }

  function After(vs: seq<Invocation>): History {
    Run(Step, History(map[], []), vs)
  }

  /** How far the file has moved on for one run. */
  ghost predicate Advanced(before: Disk, after: Disk, k: StateKey) {
    k in before ==>
      && k in after
      && before[k].attempt <= after[k].attempt
      && (before[k].attempt == after[k].attempt ==>
            && before[k].attemptId == after[k].attemptId
            && (before[k].jobId.Some? ==> after[k].jobId == before[k].jobId)
            && (before[k].job.Some? ==> after[k].job == before[k].job))
  }

  /** One invocation: an attempt is followed only by the next one, and only by a provision after its cleanup. */
  lemma StepAdvances(disk: Disk, req: Request, fate: Fate, k: StateKey)
    ensures Advanced(disk, Execute(disk, req, fate).disk, k)
    ensures
      var after := Execute(disk, req, fate).disk;
      k in disk && after[k].attempt != disk[k].attempt ==>
        after[k].attempt == disk[k].attempt + 1 && disk[k].cleaned && req.operation == Provision && req.key == k
  {
    var b := ExecuteReaches(disk, req, fate);
  }

  /** What a create request promises about the file from then on. */
  ghost predicate Backed(disk: Disk, c: Create) {
    && c.request.key in disk
    && c.jobId.key == c.request.key && c.jobId.attempt == c.attempt
    && c.operationKey == OperationKey(c.request.id, c.attempt, c.jobId.attemptId, "create")
    && var run := disk[c.request.key];
      && c.attempt <= run.attempt
      && (c.attempt == run.attempt ==>
            run.attemptId == c.jobId.attemptId && run.jobId == Some(c.jobId) && run.job == Some(c.job))
  }

  ghost predicate SameAttempt(c: Create, d: Create) {
    c.request.key == d.request.key && c.attempt == d.attempt
  }

  ghost predicate Sound(h: History) {
    && (forall i :: 0 <= i < |h.creates| ==> Backed(h.disk, h.creates[i]))
    && forall i, j :: 0 <= i < |h.creates| && 0 <= j < |h.creates| && SameAttempt(h.creates[i], h.creates[j]) ==>
         h.creates[i].jobId == h.creates[j].jobId && h.creates[i].job == h.creates[j].job
  }

  lemma BackedStays(disk: Disk, req: Request, fate: Fate, c: Create)
    requires Backed(disk, c)
    ensures Backed(Execute(disk, req, fate).disk, c)
  {
    StepAdvances(disk, req, fate, c.request.key);
  }

  lemma NewCreateIsBacked(disk: Disk, req: Request, fate: Fate)
    ensures |Execute(disk, req, fate).creates| <= 1
    ensures forall c :: c in Execute(disk, req, fate).creates ==>
      && Backed(Execute(disk, req, fate).disk, c)
      && Execute(disk, req, fate).disk[c.request.key].attempt == c.attempt
  {
    var b := ExecuteReaches(disk, req, fate);
  }

  lemma AddCreate(disk: Disk, cs: seq<Create>, c: Create)
    requires Sound(History(disk, cs)) && Backed(disk, c) && disk[c.request.key].attempt == c.attempt
    ensures Sound(History(disk, cs + [c]))
  {
    forall i | 0 <= i < |cs| && SameAttempt(cs[i], c) ensures cs[i].jobId == c.jobId && cs[i].job == c.job {
      assert Backed(disk, cs[i]);
    }
  }

  lemma StepKeepsSound(h: History, i: Invocation)
    requires Sound(h)
    ensures Sound(Step(h, i))
  {
    var r := Execute(h.disk, i.request, i.fate);
    forall j | 0 <= j < |h.creates| ensures Backed(r.disk, h.creates[j]) {
      BackedStays(h.disk, i.request, i.fate, h.creates[j]);
    }
    assert Sound(History(r.disk, h.creates));
    NewCreateIsBacked(h.disk, i.request, i.fate);
    if r.creates == [] {
      assert h.creates + r.creates == h.creates;
    } else {
      assert r.creates == [r.creates[0]];
      AddCreate(r.disk, h.creates, r.creates[0]);
    }
  }

  lemma {:induction false} RunIsSound(vs: seq<Invocation>)
    ensures Sound(After(vs))
  {
    if vs != [] {
      RunIsSound(vs[..|vs| - 1]);
      StepKeepsSound(After(vs[..|vs| - 1]), vs[|vs| - 1]);
    }
  }

  /** In every run, with any crashes and failed writes: two create requests carry the same job ID exactly when they
      belong to the same attempt of the same run; then they carry the same job, and retries of one request carry the
      same idempotency key. */
  lemma OneJobPerAttempt(vs: seq<Invocation>, i: nat, j: nat)
    requires i < |After(vs).creates| && j < |After(vs).creates|
    ensures
      var c, d := After(vs).creates[i], After(vs).creates[j];
      && (c.jobId == d.jobId <==> SameAttempt(c, d))
      && (SameAttempt(c, d) ==> c.job == d.job)
      && (SameAttempt(c, d) && c.request.id == d.request.id ==> c.operationKey == d.operationKey)
      && (c.operationKey == d.operationKey && c.request.key == d.request.key ==>
            SameAttempt(c, d) && c.request.id == d.request.id)
  {
    RunIsSound(vs);
    assert Backed(After(vs).disk, After(vs).creates[i]) && Backed(After(vs).disk, After(vs).creates[j]);
  }

  /** Attempt numbers never decrease, and an attempt keeps its identity. */
  lemma {:induction false} AttemptsNeverDecrease(h: History, vs: seq<Invocation>, k: StateKey)
    ensures Advanced(h.disk, Run(Step, h, vs).disk, k)
    decreases |vs|
  {
    if vs != [] {
      var m, last := Run(Step, h, vs[..|vs| - 1]), vs[|vs| - 1];
      AttemptsNeverDecrease(h, vs[..|vs| - 1], k);
      StepAdvances(m.disk, last.request, last.fate, k);
    }
  }

  // ------------------------------------------------------------------------ receipts

  /** The receipt of `req` is in the file, in an attempt that has not been cleaned up. */
  ghost predicate HasReceipt(disk: Disk, req: Request, response: Response) {
    && req.key in disk && !disk[req.key].cleaned
    && req.id in disk[req.key].receipts && disk[req.key].receipts[req.id] == Receipt(req, response)
  }

  ghost predicate CleanupsOnRecord(disk: Disk) {
    forall k :: k in disk ==> CleanedHasReceipt(disk[k])
  }

  lemma {:induction false} RunKeepsCleanups(vs: seq<Invocation>)
    ensures CleanupsOnRecord(After(vs).disk)
  {
    if vs != [] {
      var m, last := After(vs[..|vs| - 1]), vs[|vs| - 1];
      RunKeepsCleanups(vs[..|vs| - 1]);
      var b := ExecuteReaches(m.disk, last.request, last.fate);
    }
  }

  /** An answer that was written out is found again by the next invocation, except the answer to an operation other
      than provision and cleanup on a run that is cleaned up already: compaction drops that one. */
  lemma AnswerIsRecordedExactlyWhen(vs: seq<Invocation>, req: Request, fate: Fate)
    requires Execute(After(vs).disk, req, fate).reply.Answered?
    ensures
      var before, r := After(vs).disk, Execute(After(vs).disk, req, fate);
      var lost := req.operation.Other? && req.key in before && before[req.key].cleaned;
      && req.key in Load(r.disk) && Load(r.disk)[req.key].lastStep == req.stepIndex
      && (req.id in Load(r.disk)[req.key].receipts <==> !lost)
      && (!lost ==> Load(r.disk)[req.key].receipts[req.id] == Receipt(req, r.reply.response))
      && (!lost && req.operation != Cleanup ==> HasReceipt(r.disk, req, r.reply.response))
  {
    RunKeepsCleanups(vs);
    var disk := After(vs).disk;
    if req.key in disk { CompactOnce(disk[req.key]); }
    AnswerIsRecorded(disk, req, fate);
  }

  lemma AnswerIsRecorded(disk: Disk, req: Request, fate: Fate)
    requires Execute(disk, req, fate).reply.Answered?
    ensures
      var run, r := Select(Load(disk), req, fate.freshId), Execute(disk, req, fate);
      && req.id !in run.receipts
      && req.key in r.disk && r.disk[req.key].lastStep == req.stepIndex
      && (req.operation == Provision ==> HasReceipt(r.disk, req, r.reply.response))
      && (req.operation.Other? ==>
            && r.disk[req.key].cleaned == run.cleaned && r.disk[req.key].cleanupRequest == run.cleanupRequest
            && r.disk[req.key].receipts == run.receipts[req.id := Receipt(req, r.reply.response)])
      && (req.operation == Cleanup ==>
            && r.disk[req.key].cleaned && r.disk[req.key].cleanupRequest == Some(req.id)
            && r.disk[req.key].receipts == map[req.id := Receipt(req, r.reply.response)])
  {
  }

  /** A recorded request is answered from the record: nothing is sent, and the file is at most compacted. */
  lemma RecordedIsReplayed(disk: Disk, req: Request, response: Response, fate: Fate)
    requires HasReceipt(disk, req, response)
    ensures
      var r := Execute(disk, req, fate);
      && r.creates == [] && (r.disk == disk || r.disk == Load(disk))
      && r.reply == (if fate.crash == BeforeCheckpoint then Crashed
                     else if fate.exit == Stored then Replayed(WithoutArtifacts(response)) else Refused(WriteFailed))
  {
    assert Load(disk)[req.key := Load(disk)[req.key]] == Load(disk);
  }

  lemma ReceiptStays(disk: Disk, other: Request, fate: Fate, req: Request, response: Response)
    requires HasReceipt(disk, req, response) && !(other.operation == Cleanup && other.key == req.key)
    ensures HasReceipt(Execute(disk, other, fate).disk, req, response)
  {
    var b := ExecuteReaches(disk, other, fate);
  }

  /** Until its run is cleaned up, a recorded request is replayed, whatever happens in between. */
  lemma {:induction false} ReplayedUntilCleanup(h: History, vs: seq<Invocation>, req: Request, response: Response)
    requires HasReceipt(h.disk, req, response)
    requires forall i :: 0 <= i < |vs| ==> !(vs[i].request.operation == Cleanup && vs[i].request.key == req.key)
    ensures HasReceipt(Run(Step, h, vs).disk, req, response)
    decreases |vs|
  {
    if vs != [] {
      var front, last := vs[..|vs| - 1], vs[|vs| - 1];
      ReplayedUntilCleanup(h, front, req, response);
      ReceiptStays(Run(Step, h, front).disk, last.request, last.fate, req, response);
    }
  }

  /** The cleanup leaves its own receipt and no other, so the next provision starts the next attempt. */
  lemma CleanupForgets(disk: Disk, req: Request, fate: Fate)
    requires req.operation == Cleanup && Execute(disk, req, fate).reply.Answered?
    ensures
      var after := Execute(disk, req, fate).disk;
      && req.key in after && after[req.key].cleaned
      && after[req.key].receipts == map[req.id := Receipt(req, Execute(disk, req, fate).reply.response)]
      && forall p: Request, freshId :: p.key == req.key && p.operation == Provision ==>
           Select(Load(after), p, freshId) == NewRun(after[req.key].attempt + 1, freshId)
  {
  }

  /** A request ID on record for another request is refused: nothing is sent, replayed or answered. */
  lemma ReusedIdIsRefused(disk: Disk, prior: Request, response: Response, req: Request, fate: Fate)
    requires HasReceipt(disk, prior, response) && req != prior && req.key == prior.key && req.id == prior.id
    ensures
      var r := Execute(disk, req, fate);
      && r.creates == [] && (r.disk == disk || r.disk == Load(disk))
      && r.reply == (if fate.crash == BeforeCheckpoint then Crashed
                     else if fate.exit == Stored then Refused(IdReused) else Refused(WriteFailed))
  {
    assert Load(disk)[req.key := Load(disk)[req.key]] == Load(disk);
  }

  // ----------------------------------------------------------------- replies over runs

  /** What the environment answers to an invocation that is not answered from the record, whether or not the state file
      can be written afterwards. */
  ghost predicate Gives(disk: Disk, req: Request, fate: Fate, response: Response) {
    Execute(disk, req, fate.(exit := Stored)).reply == Answered(response)
  }

  /** Which is what the environment returned, or that there was nothing to clean up. */
  lemma GivesWhatItGot(disk: Disk, req: Request, fate: Fate, response: Response)
    requires Gives(disk, req, fate, response)
    ensures
      var run := Select(Load(disk), req, fate.freshId);
      && req.id !in run.receipts
      && if run.jobId.None? && req.operation == Cleanup then response == Response("", [])
         else fate.response == Some(response)
  {
  }

  /** The reply to an invocation that is not answered from the record, if it neither crashes nor fails to write: the job
      of an attempt is fixed by its first provision, and only a provisioned run is operated on. */
  lemma NewRequestsAreAnswered(disk: Disk, req: Request, fate: Fate)
    requires fate.crash == NoCrash && fate.exit == Stored
    requires req.id !in Select(Load(disk), req, fate.freshId).receipts
    ensures
      var run := Select(Load(disk), req, fate.freshId);
      var reply := Execute(disk, req, fate).reply;
      var consistent := run.jobId.None? || run.jobId == Some(JobId(req.key, run.attempt, run.attemptId));
      if req.operation == Provision then
        && (reply == Refused(RenderFailed) <==> fate.job.None?)
        && (reply == Refused(JobChanged) <==> fate.job.Some? && run.job.Some? && run.job != fate.job)
        && (reply == Refused(JobIdInconsistent) <==> fate.job.Some? && run.job in {None, fate.job} && !consistent)
        && (reply == Refused(CheckpointFailed) <==>
              fate.job.Some? && run.job in {None, fate.job} && consistent && fate.checkpoint != Stored)
        && (reply == Refused(DispatchFailed) || reply.Answered? <==>
              fate.job.Some? && run.job in {None, fate.job} && consistent && fate.checkpoint == Stored)
      else
        && (reply == Refused(NotProvisioned) <==> run.jobId.None? && req.operation.Other?)
        && (run.jobId.None? && req.operation == Cleanup ==> reply == Answered(Response("", [])))
        && (run.jobId.Some? ==> reply == if fate.response.Some? then Answered(fate.response.value)
                                         else Refused(DispatchFailed))
  {
  }

  ghost predicate SameReceipt(before: Disk, after: Disk, k: StateKey, id: string) {
    && k in before && k in after && before[k].attempt == after[k].attempt
    && id in before[k].receipts && id in after[k].receipts && before[k].receipts[id] == after[k].receipts[id]
  }

  /** The receipt was written by this invocation, in the attempt it selected. */
  ghost predicate NewReceipt(before: Disk, req: Request, fate: Fate, after: Disk, k: StateKey, id: string) {
    && k == req.key && id == req.id && k in after && id in after[k].receipts
    && after[k].attempt == Select(Load(before), req, fate.freshId).attempt
    && after[k].receipts[id].request == req && Gives(before, req, fate, after[k].receipts[id].response)
  }

  lemma DispatchGives(before: Disk, runs: Disk, run: RunState, req: Request, fate: Fate, creates: seq<Create>)
    requires
      var after := Dispatch(before, runs, run, req, fate, creates).disk;
      req.id !in run.receipts && after != before && req.key in after && req.id in after[req.key].receipts
    ensures
      var after := Dispatch(before, runs, run, req, fate, creates).disk;
      Dispatch(before, runs, run, req, fate.(exit := Stored), creates).reply ==
      Answered(after[req.key].receipts[req.id].response)
  {
  }

  /** The provision gets as far as the environment call. */
  predicate Dispatches(run: RunState, req: Request, fate: Fate) {
    && fate.job.Some? && (run.job.None? || run.job == fate.job) && fate.checkpoint == Stored
    && (run.jobId.None? || run.jobId == Some(ExpectedJobId(req.key, run)))
  }

  function Fixed(run: RunState, req: Request, fate: Fate): RunState {
    run.(job := fate.job, jobId := Some(ExpectedJobId(req.key, run)))
  }

  function Creates(fixed: RunState, req: Request, fate: Fate): seq<Create> {
    if fate.sent && fixed.job.Some? && fixed.jobId.Some? then [CreateOf(req, fixed)] else []
  }

  lemma ProvisionDispatches(disk: Disk, runs: Disk, run: RunState, req: Request, fate: Fate, next: Disk)
    requires Dispatches(run, req, fate) && next == runs[req.key := Fixed(run, req, fate)]
    ensures
      ProvisionRun(disk, runs, run, req, fate) ==
      Dispatch(next, next, Fixed(run, req, fate), req, fate, Creates(Fixed(run, req, fate), req, fate))
  {
  }

  lemma ProvisionRecordsNothing(disk: Disk, runs: Disk, run: RunState, req: Request, fate: Fate)
    requires !Dispatches(run, req, fate) && req.key in runs && runs[req.key] == run
    ensures
      var after := ProvisionRun(disk, runs, run, req, fate).disk;
      after == disk || (req.key in after && after[req.key].receipts == run.receipts)
  {
  }

  lemma ProvisionGives(disk: Disk, runs: Disk, run: RunState, req: Request, fate: Fate)
    requires
      var after := ProvisionRun(disk, runs, run, req, fate).disk;
      && req.id !in run.receipts && req.key in runs && runs[req.key] == run
      && after != disk && req.key in after && req.id in after[req.key].receipts
    ensures
      var after := ProvisionRun(disk, runs, run, req, fate).disk;
      ProvisionRun(disk, runs, run, req, fate.(exit := Stored)).reply ==
      Answered(after[req.key].receipts[req.id].response)
  {
    if Dispatches(run, req, fate) {
      var fixed := Fixed(run, req, fate);
      var next := runs[req.key := fixed];
      ProvisionDispatches(disk, runs, run, req, fate, next);
      ProvisionDispatches(disk, runs, run, req, fate.(exit := Stored), next);
      DispatchGives(next, next, fixed, req, fate, Creates(fixed, req, fate));
    } else {
      ProvisionRecordsNothing(disk, runs, run, req, fate);
    }
  }

  lemma NewReceiptIsGiven(disk: Disk, req: Request, fate: Fate)
    requires req.id !in Select(Load(disk), req, fate.freshId).receipts
    requires
      var after := Execute(disk, req, fate).disk;
      after != disk && req.key in after && req.id in after[req.key].receipts
    ensures Gives(disk, req, fate, Execute(disk, req, fate).disk[req.key].receipts[req.id].response)
  {
    var run := Select(Load(disk), req, fate.freshId);
    var runs := Load(disk)[req.key := run];
    if req.operation == Provision {
      ProvisionGives(disk, runs, run, req, fate);
    } else if run.jobId.Some? {
      DispatchGives(disk, runs, run, req, fate, []);
    }
  }

  lemma ReceiptsOfStep(disk: Disk, req: Request, fate: Fate, k: StateKey, id: string)
    requires
      var after := Execute(disk, req, fate).disk;
      k in after && id in after[k].receipts
    ensures
      var after := Execute(disk, req, fate).disk;
      SameReceipt(disk, after, k, id) || NewReceipt(disk, req, fate, after, k, id)
  {
    var after := Execute(disk, req, fate).disk;
    var run := Select(Load(disk), req, fate.freshId);
    var b := ExecuteReaches(disk, req, fate);
    if k in disk { CompactOnce(disk[k]); }
    if after != disk && k == req.key && id == req.id && id !in run.receipts {
      NewReceiptIsGiven(disk, req, fate);
    }
  }

  /** Invocation `i` was answered `rc.response` by the environment, in the given attempt. */
  ghost predicate GivenAt(vs: seq<Invocation>, i: int, attempt: nat, rc: Receipt) {
    && 0 <= i < |vs| && vs[i].request == rc.request
    && var disk := After(vs[..i]).disk;
      && Select(Load(disk), rc.request, vs[i].fate.freshId).attempt == attempt
      && Gives(disk, rc.request, vs[i].fate, rc.response)
  }

  ghost predicate Given(vs: seq<Invocation>, attempt: nat, rc: Receipt) {
    exists i :: GivenAt(vs, i, attempt, rc)
  }

  /** Every receipt in the file is about its own key and ID, and was given in the attempt it stands in. */
  ghost predicate AllGiven(vs: seq<Invocation>, disk: Disk) {
    forall k, id :: k in disk && id in disk[k].receipts ==>
      var rc := disk[k].receipts[id];
      rc.request.key == k && rc.request.id == id && Given(vs, disk[k].attempt, rc)
  }

  lemma GivenStays(vs: seq<Invocation>, last: Invocation, attempt: nat, rc: Receipt)
    requires Given(vs, attempt, rc)
    ensures Given(vs + [last], attempt, rc)
  {
    var i :| GivenAt(vs, i, attempt, rc);
    assert (vs + [last])[..i] == vs[..i];
    assert GivenAt(vs + [last], i, attempt, rc);
  }

  lemma GivenNow(vs: seq<Invocation>, last: Invocation, k: StateKey, id: string)
    requires NewReceipt(After(vs).disk, last.request, last.fate, After(vs + [last]).disk, k, id)
    ensures Given(vs + [last], After(vs + [last]).disk[k].attempt, After(vs + [last]).disk[k].receipts[id])
  {
    assert (vs + [last])[..|vs|] == vs;
    assert GivenAt(vs + [last], |vs|, After(vs + [last]).disk[k].attempt, After(vs + [last]).disk[k].receipts[id]);
  }

  lemma {:induction false} RunGivesReceipts(vs: seq<Invocation>)
    ensures AllGiven(vs, After(vs).disk)
    decreases |vs|
  {
    if vs != [] {
      var front, last := vs[..|vs| - 1], vs[|vs| - 1];
      assert vs == front + [last];
      RunGivesReceipts(front);
      var before, after := After(front).disk, After(vs).disk;
      forall k, id | k in after && id in after[k].receipts
        ensures
          var rc := after[k].receipts[id];
          rc.request.key == k && rc.request.id == id && Given(vs, after[k].attempt, rc)
      {
        ReceiptsOfStep(before, last.request, last.fate, k, id);
        if SameReceipt(before, after, k, id) {
          GivenStays(front, last, before[k].attempt, before[k].receipts[id]);
        } else {
          GivenNow(front, last, k, id);
        }
      }
    }
  }

  /** Invocation `i` of the run, in the attempt it selects, was answered `y` by the environment. */
  ghost predicate AnsweredAt(vs: seq<Invocation>, i: int, req: Request, attempt: nat, y: Response) {
    GivenAt(vs, i, attempt, Receipt(req, y))
  }

  lemma ReplayIsFromRecord(disk: Disk, req: Request, fate: Fate)
    requires Execute(disk, req, fate).reply.Replayed?
    ensures
      var run := Select(Load(disk), req, fate.freshId);
      var x := Execute(disk, req, fate).reply.response;
      && req.key in disk && run.attempt == disk[req.key].attempt && req.id in disk[req.key].receipts
      && var rc := disk[req.key].receipts[req.id];
        rc.request == req && x.events == rc.response.events && x.artifacts == []
  {
    var run := Select(Load(disk), req, fate.freshId);
    assert req.id in run.receipts;
    if req.key in disk { CompactOnce(disk[req.key]); }
  }

  /** In every run every replayed reply repeats, without the artifacts, what the environment answered to the very same
      request earlier in the same attempt. */
  lemma ReplaysRepeat(vs: seq<Invocation>, req: Request, fate: Fate)
    requires Execute(After(vs).disk, req, fate).reply.Replayed?
    ensures
      var disk := After(vs).disk;
      var x := Execute(disk, req, fate).reply.response;
      var attempt := Select(Load(disk), req, fate.freshId).attempt;
      x.artifacts == [] && exists i, y :: AnsweredAt(vs, i, req, attempt, y) && y.events == x.events
  {
    var disk := After(vs).disk;
    ReplayIsFromRecord(disk, req, fate);
    RunGivesReceipts(vs);
    var rc := disk[req.key].receipts[req.id];
    assert Given(vs, disk[req.key].attempt, rc);
    var i :| GivenAt(vs, i, disk[req.key].attempt, rc);
    assert AnsweredAt(vs, i, req, disk[req.key].attempt, rc.response);
  }
}
