# TGS-RL control-plane models in Dafny

Dafny 4.11 models of the protocol and validation code of TGS-RL, with proofs
about every input, every interleaving or every run. `dafny verify
dfyconfig.toml` checks all files.

| file | models |
|---|---|
| `Bridge.dfy` | the worker bridge as an object: journal, generation fence, lifecycle, state file, trace file |
| `BridgeRuns.dfy` | the bridge over whole runs with crashes, failed writes and failing callbacks |
| `BridgeEffects.dfy` | what each mutation does field by field, what every request is answered, and what the fields of a worker say over runs |
| `Supervisor.dfy` | the bootstrap supervisor in front of the bridge over a connection that loses and delays messages |
| `SupervisorHistory.dfy` | exactly when the supervisor is ahead of the bridge, in terms of the events of the run |
| `SupervisorAnswers.dfy` | what clients are answered: passed on, from the cache, and over whole runs |
| `ControlSequence.dfy` | multi-step commands and their retries |
| `CommandEffects.dfy` | what every command leaves of a healthy worker |
| `PauseHandshake.dfy` | the two-thread safe-point handshake, one step per flag access and lock operation |
| `PauseCallbacks.dfy` | what each lifecycle callback makes of the flags, and that a thread that is let go can leave |
| `RecordJournal.dfy` | the binary record journal: codec, replay, append, replacement |
| `PhaseGraph.dfy` | the phase-graph check of contract validation |
| `Versions.dfy` | version parsing, printing, precedence and compatibility (Semantic Versioning 2.0.0) |
| `CampaignPlan.dfy` | the campaign plan checker and the iteration runner |
| `EnvironmentDriver.dfy` | the hardware driver's attempts and receipts across crashes |
| `LatestBundles.dfy` | choosing the newest bundle of every sandbox |
| `ProtoWire.dfy` | varint framing and the hand-written wire scanner |
| `TraceSink.dfy` | the bounded trace batching sink |
| `Common.dfy` | options, results, stripping, runs of a deterministic machine |

Conventions. An object whose methods update fields is a class, and each of its
methods is proved equal to a function of the old state. Runs are sequences of
events of a deterministic machine built from the same functions; an event that
is not enabled changes nothing. What the environment decides (callback results,
write outcomes, replies, crashes, fresh identifiers) is a parameter, so a
statement holds for every choice. A digest is the digested value itself. A
failed write of a state file leaves the old or the new file.

## What is not as one might expect

Each of these is shown by a run or an input, with the condition under which it
happens or the bound that still holds.

- A success answered by the bridge is durable exactly when the process that
  recorded it replaced the state file then or later, before it crashed
  (`SuccessIsDurableExactlyWhen`, `AcceptedReplyCanBeForgotten`).
- The supervisor's generation can pass the bridge's, by one at most
  (`SupervisedRuns`, `LostOutcomeThenCrashOvertakes`). It is ahead of the state
  file exactly when it adopted an accepted answer given before the generation
  was written and no write has stored that generation since
  (`SupervisorAheadExactlyWhen`); its cached successes are in the bridge's
  journal exactly when they were saved or their process still lives
  (`CachedSuccessIsBackedExactlyWhen`).
- The supervisor keeps the refusal of a mutation whose outcome the bridge could
  not record, so the client is refused for good while the bridge's journal says
  it succeeded (`UnrecordedSuccessIsRefused`).
- `prepare_pause` can return true with the training thread outside, because a
  notified wait returns true even after the event is cleared
  (`ReturnsTrueWithThreadOutside`); the thread stays inside until the wait
  returns exactly when no observation has raised since it announced itself and
  the worker is not stopping (`InsideAtReturnExactlyWhen`).
- After `prepare_pause` returned true the training thread may still leave its
  safe point, by its check exactly when it has passed the check or was notified
  by an earlier resume, and then once (`CanExitExactlyWhen`,
  `CanExitAtReturnExactlyWhen`, `PauseOverrunIsBounded`, `OneExitHappens`,
  `LateWakeExits`). Raised observations counted, it can leave exactly while it
  is not waiting at its check, and any number of times (`CanDepartExactlyWhen`,
  `FailedObservationsAreUnbounded`).
- A journal cut right after a record header replays without an error
  (`PrefixReplay`), and nothing appended after a torn record is visited exactly
  when the tear is within four bytes or the mis-framed bytes do not pass for a
  record (`AppendAfterTearIsLost`, `TornBodyIsCompletedBy`).
- An iteration ends without a cleanup call exactly when an exception that is not
  caught is raised before the plan's own cleanup (`RunsEndInCleanup`).
- The plan checker guarantees that injected faults are recovered exactly when
  every declared fault is required (`RecoveryIsGuaranteedExactlyWhen`), and it
  does not place a bind through the worker registry in a baseline
  (`BaselineBindCanStray`).
- The driver forgets its answer to an operation other than provision and cleanup
  on a run that is cleaned up already (`AnswerIsRecordedExactlyWhen`).
- The wire scanner takes field 4 under a padded tag for field 20
  (`ScanFindsHits`, `PaddedFieldFourIsTakenForTwenty`).
- A trace sink whose pending events mix two identities never delivers again
  (`MixedPendingIsStuck`), which can come about exactly when a batch has room
  for two events (`MixedPendingHappens`).
- The same bundles can fail in one order and succeed in another, exactly when
  some sandbox repeats a generation and none repeats its newest
  (`OrderMattersExactlyWhen`).

## Model

| member | source | states |
|---|---|---|
| Bridge.VerlWorkerBridge.Open | adapters/frameworks/verl_bridge.py:143-151 | start-up rejects a receipt limit that is not positive and equal paths, leaves what restoring the state file and then the trace gives, or reports why one of them cannot be read |
| Bridge.VerlWorkerBridge.RestoreTraceSequence | adapters/frameworks/verl_bridge.py:770-779 | the sequence becomes the greatest one on record, or an unreadable trace is reported |
| Bridge.VerlWorkerBridge.PersistState | adapters/frameworks/verl_bridge.py:657-682 | the state file is replaced or kept, depending on where the write fails |
| Bridge.VerlWorkerBridge.EmitEvent | adapters/frameworks/verl_bridge.py:537-570 | the sequence advances before the line is written; the line is missing, whole, torn without a newline, or whole with a close that raises, and a torn line swallows the next one |
| Bridge.VerlWorkerBridge.UpdateLifecycle | adapters/frameworks/verl_bridge.py:269-347 | pause, sleep, offload, resume and stop change exactly the fields they should |
| Bridge.VerlWorkerBridge.UpdateForReload | adapters/frameworks/verl_bridge.py:306-323 | a reload advances the generation and takes over binding, device, share and checkpoint |
| Bridge.VerlWorkerBridge.UpdateFields | adapters/frameworks/verl_bridge.py:269-347 | every action, with its callback's failure, leaves what the specification says |
| Bridge.VerlWorkerBridge.ApplyAction | adapters/frameworks/verl_bridge.py:269-347 | fields and trace after one action, also when the callback or the trace write raises |
| Bridge.VerlWorkerBridge.HandleRequest | adapters/frameworks/verl_bridge.py:190-267 | one request: journal lookup before the generation check, intent write, action, outcome write, reply |
| Bridge.RestoreInvertsPersist | adapters/frameworks/verl_bridge.py:572-768 | a state file restores to a given memory exactly when it is what persisting that memory writes |
| Bridge.MaxSequence | adapters/frameworks/verl_bridge.py:770-779 | the restored sequence is at least the stored one and every one in the trace, and is one of them |
| BridgeRuns.EventsRefineHandle | adapters/frameworks/verl_bridge.py:190-267 | the events of an undisturbed call leave what the method leaves and answer what it answers |
| BridgeRuns.AppliedAtMostOnceForever | adapters/frameworks/verl_bridge.py:215-267 | in every run an idempotency key is applied at most once and stays in the durable and the in-memory journal forever |
| BridgeRuns.DurableLagsByAtMostOne | adapters/frameworks/verl_bridge.py:232-267 | disk generation, memory generation and disk generation plus one are in order, and the disk generation never decreases |
| BridgeRuns.GenerationRisesOnlyByReload | adapters/frameworks/verl_bridge.py:306-323 | while the process lives the generation changes only when a reload is applied, by one |
| BridgeRuns.StepOfStateFile | adapters/frameworks/verl_bridge.py:657-682 | a step leaves the file alone or writes the current control state with a journal that covers the current one |
| BridgeRuns.TraceSequencesIncrease | adapters/frameworks/verl_bridge.py:537-570 | sequence numbers in the trace file strictly increase across crashes and restarts, no line is removed and a terminated line never changes |
| BridgeRuns.RunIsTruthful | adapters/frameworks/verl_bridge.py:215-267 | in every reachable state accepted journal entries, in memory and on disk, are about completed requests |
| BridgeRuns.AcceptedReplyIsTrue | adapters/frameworks/verl_bridge.py:215-267 | every accepted reply is about a request that completed, in the generation it asked for, and is journaled |
| BridgeRuns.RetryAfterCrash | adapters/frameworks/verl_bridge.py:224-238 | after crash and restart a retry of an applied key is answered from the file and not applied again |
| BridgeRuns.WritesStoreMemory | adapters/frameworks/verl_bridge.py:657-682 | the file changes exactly with a write that reaches the replace, which stores the whole current state |
| BridgeRuns.LagsExactlyWhenUnwritten | adapters/frameworks/verl_bridge.py:232-267 | in every run memory is a generation ahead of the file exactly when the process raised its generation and has not replaced the file since |
| BridgeRuns.SuccessIsDurableExactlyWhen | adapters/frameworks/verl_bridge.py:255-267 | in every run a success is in the file exactly when the process that recorded it replaced the file then or later before crashing, and in memory exactly when it is in the file or that process lives |
| BridgeRuns.AcceptedReplyCanBeForgotten | adapters/frameworks/verl_bridge.py:255-267 | a request whose success is replayed by this process and denied by the next |
| BridgeRuns.LifecycleInvariant | adapters/frameworks/verl_bridge.py:269-347 | in every reachable and restorable state ready implies running and not offloaded, offloaded implies not running and, with nonempty checkpoints, a reference to reload |
| BridgeEffects.StartsExactlyWhen | adapters/frameworks/verl_bridge.py:684-779 | a process starts exactly on a state file of its schema, identity and a known state, or none, and a trace that can be read, and takes over the whole file |
| BridgeEffects.EventTakesNumber | adapters/frameworks/verl_bridge.py:537-570 | every event takes the next sequence number, written or not, and what each outcome of the write leaves in the trace |
| BridgeEffects.EffectOfAction | adapters/frameworks/verl_bridge.py:269-347 | a mutation succeeds exactly when the listed needs of its action are met, and what it then does to each field; a failed one changes nothing but a safe point that was not reached |
| BridgeEffects.AcceptedExactlyWhen | adapters/frameworks/verl_bridge.py:215-347 | a new mutation is accepted exactly when it is admitted, possible, traced and recorded; then every field has the stated value, the answer shows it and the journal holds the answer |
| BridgeEffects.RefusedExactlyWhen | adapters/frameworks/verl_bridge.py:215-267 | which of the five errors a new mutation is refused with, exactly |
| BridgeEffects.DoneExactlyWhen | adapters/frameworks/verl_bridge.py:238-267 | with the intent written the effect takes place exactly when the mutation is possible, and the journal says whether it was traced, whatever the client is told |
| BridgeEffects.OtherAnswers | adapters/frameworks/verl_bridge.py:190-225 | recorded keys, reused keys, status calls and incomplete requests change nothing and are answered as stated |
| BridgeEffects.FieldsAreLatest | adapters/frameworks/verl_bridge.py:269-347 | in every run state, readiness, safe point and offload of a living process are what the last successful mutation that sets them, or the state file at its start, made them |
| BridgeEffects.FileIsLatest | adapters/frameworks/verl_bridge.py:657-682 | in every run the state file holds the control state of the last write that replaced it |
| BridgeEffects.AcceptedReplyTells | adapters/frameworks/verl_bridge.py:215-267 | in every run every accepted answer, also a replay after a crash, names the state its action leads to |
| Supervisor.WorkerSupervisor.constructor | cmd/tgsrl-worker-bootstrap/main.go:289 | a supervisor starts with its worker and no receipts |
| Supervisor.WorkerSupervisor.HandleControl | cmd/tgsrl-worker-bootstrap/main.go:642-746 | one control request: checks in order, cached receipt, forwarded call, adopted worker and receipt |
| Supervisor.SupervisedRuns | cmd/tgsrl-worker-bootstrap/main.go:656-746 | with losses, delays, duplicates, failed writes and crashes callbacks run at most once, cached successes are real, and the supervisor's generation differs by at most one from the file's and from a running bridge's |
| Supervisor.SupervisorNeverAhead | cmd/tgsrl-worker-bootstrap/main.go:656-746 | without a crash the supervisor's generation is the bridge's or one less, and cached successes are accepted entries of the bridge journal |
| Supervisor.SupervisorNeverAheadOfDisk | cmd/tgsrl-worker-bootstrap/main.go:656-746 | the same of the state file when no outcome write is lost, crashes included |
| Supervisor.LostOutcomeThenCrashOvertakes | cmd/tgsrl-worker-bootstrap/main.go:656-746 | a run in which a lost outcome write and a crash leave the supervisor a generation ahead with an unbacked success |
| SupervisorHistory.BridgeOfRun | cmd/tgsrl-worker-bootstrap/main.go:656-746 | in every run with the supervisor the bridge goes through one of its own runs |
| SupervisorHistory.SupervisorAheadExactlyWhen | cmd/tgsrl-worker-bootstrap/main.go:656-746 | in every run the supervisor is ahead of the file exactly when it adopted an accepted answer given while its generation was unwritten and no write stored that generation since; ahead of a running bridge when, besides, that bridge is not ahead of the file itself |
| SupervisorHistory.CrashOvertakesExactlyWhen | cmd/tgsrl-worker-bootstrap/main.go:656-746 | any crash and restart leaves the supervisor ahead exactly under that condition |
| SupervisorHistory.CachedSuccessIsBackedExactlyWhen | cmd/tgsrl-worker-bootstrap/main.go:656-746 | a cached success was one, and has an accepted entry in the bridge's journal exactly when its process saved it or still lives |
| SupervisorAnswers.RefusedByIdentity | cmd/tgsrl-worker-bootstrap/main.go:656-697 | a wrong sandbox or generation, or a missing key, is refused without a change |
| SupervisorAnswers.StatusAnswer | cmd/tgsrl-worker-bootstrap/main.go:664-693 | when a status call is accepted, what the record takes over, and the error otherwise |
| SupervisorAnswers.LostMutation | cmd/tgsrl-worker-bootstrap/main.go:720-725 | a mutation without an answer is not confirmed and changes nothing |
| SupervisorAnswers.RefusedMutation | cmd/tgsrl-worker-bootstrap/main.go:708-746 | a refusal is passed on, leaves the record alone, and is kept unless it says not confirmed |
| SupervisorAnswers.AcceptedMutation | cmd/tgsrl-worker-bootstrap/main.go:708-746 | what the record takes over of an accepted reply, that the answer presents the record, and that it is kept |
| SupervisorAnswers.FullReplyIsPassedOn | cmd/tgsrl-worker-bootstrap/main.go:720-746 | a reply that names everything reaches the client unchanged |
| SupervisorAnswers.RepeatedMutation | cmd/tgsrl-worker-bootstrap/main.go:698-706 | a repeated request gets its cached answer and another request under the key is refused, without a change and whatever the connection does |
| SupervisorAnswers.RepeatedRefusal | cmd/tgsrl-worker-bootstrap/main.go:699-716 | a kept refusal is repeated |
| SupervisorAnswers.UnconfirmedIsForwarded | cmd/tgsrl-worker-bootstrap/main.go:708-717 | an unconfirmed answer is not kept, so the retry is forwarded |
| SupervisorAnswers.UnrecordedSuccessIsRefused | cmd/tgsrl-worker-bootstrap/main.go:699-716 | a mutation that the bridge has done and journaled as a success is refused to the client, now and on the retry, exactly when its outcome write failed |
| SupervisorAnswers.EventsRefineSupervise | cmd/tgsrl-worker-bootstrap/main.go:642-717 | the events of a call answer and leave what the method does |
| SupervisorAnswers.AcceptedAnswerStands | cmd/tgsrl-worker-bootstrap/main.go:699-716 | in every run, after an accepted answer every later answer under its key is the same one to the same request, or a refusal for the generation or for the reused key |
| SupervisorAnswers.ClientIsToldTheTruth | cmd/tgsrl-worker-bootstrap/main.go:656-746 | in every run an accepted answer is about a request the bridge completed and names the state its action leads to |
| ControlSequence.ControlWorker | adapters/frameworks/verl_bridge.py:865-918 | commands without sub-actions succeed, a missing socket is reported, and otherwise the loop issues the specified requests and threads the checkpoint reference |
| ControlSequence.DriveInOrder | adapters/frameworks/verl_bridge.py:892-917 | an attempt sends the sub-actions in order, each with the last checkpoint reference heard, and a success means all were accepted |
| ControlSequence.DriveEnds | adapters/frameworks/verl_bridge.py:892-917 | an attempt ends unknown exactly when the last request or reply was lost, and rejected exactly when the last request was refused |
| ControlSequence.BridgeIsIdempotent | adapters/frameworks/verl_bridge.py:215-267 | without crashes a repeated request leaves the bridge alone and gets the same answer, and an interrupted one happened wholly or not at all |
| ControlSequence.DriveAbsorbs | adapters/frameworks/verl_bridge.py:874-918 | an interrupted attempt followed by a full one equals one full attempt |
| ControlSequence.AttemptsConverge | adapters/frameworks/verl_bridge.py:874-918 | any number of interrupted attempts converge to the uninterrupted one, each sub-action applied once, finished steps rebuilding identical payloads |
| ControlSequence.RetriesConverge | adapters/frameworks/verl_bridge.py:874-918 | the same for the bridge itself |
| ControlSequence.SleepThenWakeRestores | adapters/frameworks/verl_bridge.py:874-918 | sleep then wake, each interrupted any number of times, ends running, ready and not offloaded with the checkpoint taken |
| CommandEffects.CommandsEnd | adapters/frameworks/verl_bridge.py:874-918 | every command that applies to a healthy worker succeeds after any number of interrupted attempts and leaves every field as the command promises |
| CommandEffects.NamesDiffer | adapters/frameworks/verl_bridge.py:895-899 | the sub-actions of a command have different keys |
| PauseHandshake.RunIsSafe | adapters/frameworks/verl_runtime.py:106-184 | the handshake invariants hold in every interleaving |
| PauseHandshake.PauseOverrunIsBounded | adapters/frameworks/verl_runtime.py:353-419 | once prepare_pause returned true the training thread leaves its safe point at most once before it is let go, other than by a raised observation and also when an earlier resume had notified it, and both flags hold it |
| PauseHandshake.CanExitExactlyWhen | adapters/frameworks/verl_runtime.py:353-419 | in every reachable state with the pause in force the thread can still leave without a raise exactly when it is past its check or was notified by a resume |
| PauseHandshake.CanExitAtReturnExactlyWhen | adapters/frameworks/verl_runtime.py:106-113 | so at the return of prepare_pause, by what the thread is doing at that moment |
| PauseHandshake.CanDepartExactlyWhen | adapters/frameworks/verl_runtime.py:353-419 | raised observations counted, the thread can leave exactly when it is not at its check or waiting there unnotified |
| PauseHandshake.ObservedInside | adapters/frameworks/verl_runtime.py:106-113 | when prepare_pause returns true the training thread is inside safe_point or announced itself during this wait |
| PauseHandshake.InsideAtReturnExactlyWhen | adapters/frameworks/verl_runtime.py:106-113 | the thread that ended the wait is still inside however late the wait returns, barring later raises and closes, exactly when no observation has raised since it announced itself and the worker is not stopping |
| PauseHandshake.ReturnsTrueWithThreadOutside | adapters/frameworks/verl_runtime.py:106-113 | a run in which prepare_pause returns true after the thread has raised and left |
| PauseHandshake.WaitIsAlwaysAnswerable | adapters/frameworks/verl_runtime.py:106-113 | a waiting control thread holds no state lock and the training thread alone can reach the safe point |
| PauseHandshake.ObservationIsNeverStuck | adapters/frameworks/verl_runtime.py:400-419 | a training thread that wants the state lock gets it after one step of its holder |
| PauseHandshake.TrainingReachesSafePoint | adapters/frameworks/verl_runtime.py:400-419 | from anywhere the training thread's own steps announce a safe point without a lock |
| PauseHandshake.RestoredPauseDoesNotBlock | adapters/frameworks/verl_runtime.py:342-351 | after a restore no pass through safe_point waits and every check leaves, in every run until a prepare request is accepted |
| PauseHandshake.RestoredFlagStays | adapters/frameworks/verl_runtime.py:342-351 | without a request or a close the resume flag stays as restored, down for a paused worker |
| PauseHandshake.OneExitHappens | adapters/frameworks/verl_runtime.py:353-419 | a run in which the one exit takes place |
| PauseHandshake.LateWakeExits | adapters/frameworks/verl_runtime.py:353-359 | a run in which the one exit is that of a thread notified by an earlier resume |
| PauseHandshake.FailedObservationsAreUnbounded | adapters/frameworks/verl_runtime.py:400-419 | for every number there is a run from the start in which that many passes leave the paused safe point by raised observations |
| PauseCallbacks.FlagsAfterCallback | adapters/frameworks/verl_runtime.py:106-236 | in every interleaving the flags after a callback are what its success or failure demands |
| PauseCallbacks.LetGoLeaves | adapters/frameworks/verl_runtime.py:353-419 | from every reachable state a thread that no flag holds can leave, and leaving a stopped worker sets the stop event |
| PauseCallbacks.CloseLetsGo | adapters/frameworks/verl_runtime.py:424-434 | closing sets the stop event, drops the pause and allows resuming |
| RecordJournal.BodyLength | storage/journal.go:129-146 | succeeds exactly for encodable records, with the length of the body |
| RecordJournal.EncodeRecord | storage/journal.go:148-170 | the buffer filled through the moving offset is the encoding, and errors are those of the length check |
| RecordJournal.DecodeInvertsEncode | storage/journal.go:148-221 | decoding an encoding returns the record and the bytes after it |
| RecordJournal.EncodeInvertsDecode | storage/journal.go:172-221 | a successful decode re-encodes to the bytes it consumed |
| RecordJournal.LayoutOfEncoding | storage/journal.go:148-170 | the wire format byte by byte |
| RecordJournal.DamageIsReported | storage/journal.go:172-221 | which error each kind of damage is reported as, exactly |
| RecordJournal.PrefixReplay | storage/journal.go:86-108 | replaying any prefix visits the records wholly inside it and reports no error exactly on a boundary or 12 bytes past one |
| RecordJournal.WholeRecordsIsLastBoundary | storage/journal.go:86-108 | the number of visited records is the last boundary not beyond the cut |
| RecordJournal.ReplayInvertsEncodings | storage/journal.go:86-108 | a whole journal replays to its records |
| RecordJournal.ReplayVisitsWhatIsThere | storage/journal.go:86-108 | of arbitrary bytes the visited records are what the file starts with, and a clean end is the end or a bare header |
| RecordJournal.Journal.Open | storage/journal.go:37-57 | an empty name or a file that cannot be opened is reported; otherwise an existing file is kept and a new journal holds no records |
| RecordJournal.Journal.Append | storage/journal.go:61-84 | refused records leave the file alone; otherwise the bytes written are appended and success means all of them, synced |
| RecordJournal.Journal.ReplayFile | storage/journal.go:86-108 | the loop visits and ends as the replay function says |
| RecordJournal.TornAppendKeepsEarlierRecords | storage/journal.go:61-108 | a torn append loses at most the new record and is reported except when nothing or just the header was written |
| RecordJournal.AppendAfterTearIsLost | storage/journal.go:61-108 | nothing after the earlier records is visited exactly when the tear is within the first four bytes or the mis-framed bytes do not pass for a record, and then an error is reported |
| RecordJournal.TornBodyIsCompletedBy | storage/journal.go:61-108 | when the torn header is whole they pass exactly when there are enough bytes, the completed body has the lost body's checksum, and it decodes |
| RecordJournal.ValidateReplacement | storage/journal.go:114-127 | succeeds exactly when every record is encodable and their encodings fit |
| RecordJournal.Journal.Replace | storage/journal.go:223-273 | the file holds the new records exactly when they are valid and the rename happened, and is unchanged otherwise |
| PhaseGraph.ReadPhases | adapters/contracts.py:589-611 | accepts exactly nonempty lists of phases with distinct canonical IDs, a display name, a known kind, positive limits and canonical label keys |
| PhaseGraph.UniqueIds | adapters/contracts.py:403-411 | comparing the set's size with the list's decides distinctness |
| PhaseGraph.ReadEdges | adapters/contracts.py:620-633 | accepts exactly distinct edges between different existing phases and tabulates successors and indegrees |
| PhaseGraph.Relax | adapters/contracts.py:643-648 | lowering counts along the outgoing edges queues exactly the phases left without counted edges |
| PhaseGraph.Visit | adapters/contracts.py:638-648 | in any order of removal all phases are visited exactly when the graph is acyclic, and only reachable ones are |
| PhaseGraph.Validate | adapters/contracts.py:589-650 | which check fails, and acceptance exactly for well-formed acyclic graphs whose entries are the roots; then every phase is reachable from an entry |
| PhaseGraph.ChainIsAccepted | adapters/contracts.py:100-104 | the chain of a list of phases is accepted exactly when the list is distinct and canonical |
| PhaseGraph.FieldsOkMeans | adapters/contracts.py:589-608 | what the field checks of a phase amount to, character by character |
| PhaseGraph.EdgesOkAsSets | adapters/contracts.py:620-633 | an edge list is accepted exactly when it lists, each once, edges between different phases |
| PhaseGraph.EntriesAreLeast | adapters/contracts.py:635-650 | the entries of an accepted graph are the least set from which every phase is reachable |
| Versions.ParseComponents | adapters/contracts.py:423-439 | the loop collects the two or three canonical numbers or rejects |
| Versions.ParseVersion | adapters/contracts.py:413-458 | the parser computes the parse function |
| Versions.AcceptedTexts | adapters/contracts.py:413-470 | a text parses to a version exactly when it spells it, with an optional prefix letter and an optional zero patch number |
| Versions.ParseInvertsPrint | adapters/contracts.py:461-470 | printing any valid version parses back to it |
| Versions.NormalizeKeepsVersion | adapters/contracts.py:461-470 | the normal form parses alike and is its own normal form |
| Versions.NormalFormIsComplete | adapters/contracts.py:461-470 | accepted texts have the same normal form exactly when they parse alike |
| Versions.ComparePrereleases | adapters/contracts.py:486-499 | the loop to the first difference decides the order of section 11.4, and gives zero exactly for equal lists |
| Versions.CompareVersions | adapters/contracts.py:473-499 | minus one, zero and one exactly for lower, equal core and prerelease, and higher |
| Versions.PrecedenceIsTotal | adapters/contracts.py:473-499 | exactly one of below, above and same precedence holds |
| Versions.PrecedenceIsTransitive | adapters/contracts.py:473-499 | precedence is transitive |
| Versions.VersionsCompatible | adapters/contracts.py:502-512 | the answer for two texts, or none when one is rejected |
| Versions.CompatibleIsPreorder | adapters/contracts.py:502-512 | compatibility is reflexive and transitive, and mutual exactly for same precedence |
| Versions.CompatibleIsConvex | adapters/contracts.py:502-512 | everything between a compatible pair is compatible with both ends |
| Versions.CompatibilityOfNormalForms | adapters/contracts.py:461-512 | normalizing either argument does not change the answer |
| Versions.BuildTextIsIgnored | adapters/contracts.py:413-512 | accepted texts that agree up to the plus sign answer every question alike |
| Versions.CompatibleIsInterval | adapters/contracts.py:502-512 | the versions compatible with a requirement are exactly those from it up to the next major, or for major zero minor, version |
| Versions.CompatibleReleases | adapters/contracts.py:413-512 | the answer for any two released versions, from their texts to the numbers |
| Versions.PrefixIsOptional | adapters/contracts.py:413-422 | a letter v or V in front changes nothing |
| Versions.TextOrderIsFirstDifference | adapters/contracts.py:486-499 | words are ordered by their first difference |
| Versions.ChainOfTheStandard | adapters/contracts.py:473-499 | the example chain of section 11.4.4 is in order |
| CampaignPlan.AcceptedPlansAreProper | scripts/hardware-campaign-executor.py:192-306 | a plan is accepted exactly when the lifecycle steps are each in place once and every other step is in its window |
| CampaignPlan.VariantBindsOnce | scripts/hardware-campaign-executor.py:307-322 | the only bind of an accepted variant is the one before launch |
| CampaignPlan.AcceptedStepsAreComplete | scripts/hardware-campaign-executor.py:192-243 | every step of an accepted plan is a run operation and names an action or a fault exactly if it needs one |
| CampaignPlan.RequiredActionsAreApplied | scripts/hardware-campaign-executor.py:307-322 | an accepted variant applies every required action exactly once and no action twice |
| CampaignPlan.BaselineOnlyBinds | scripts/hardware-campaign-executor.py:257-266 | an accepted baseline applies no action but bind |
| CampaignPlan.BaselineBindCanStray | scripts/hardware-campaign-executor.py:244-275 | a bind through the worker registry can be inserted into an accepted baseline exactly at the places between provision and stop |
| CampaignPlan.RequiredFaultsAreRecovered | scripts/hardware-campaign-executor.py:323-348 | when declared faults are required each injection has one later recovery before the stop and each recovery one injection |
| CampaignPlan.RecoveryIsGuaranteedExactlyWhen | scripts/gate-tools.py:1463-1467 | the checker guarantees recovery exactly when every declared fault is required |
| CampaignPlan.ShortestIsAccepted | scripts/hardware-campaign-executor.py:192-306 | the plan without optional steps is accepted on both sides |
| CampaignPlan.RunIteration | scripts/hardware-campaign-executor.py:838-931 | the calls issued, the completed operations and the failure reported or the exception let through, for every pattern of caught and uncaught errors |
| CampaignPlan.CleanupAfterFailure | scripts/hardware-campaign-executor.py:838-931 | for every plan, the calls up to the first failure and exactly when one more cleanup follows |
| CampaignPlan.RunsEndInCleanup | scripts/hardware-campaign-executor.py:838-931 | for accepted plans the calls are a plan prefix and, after a caught failure, one more cleanup; the last call is a cleanup exactly when no uncaught exception came before the plan's own |
| CampaignPlan.UnfailedRunsRecover | scripts/hardware-campaign-executor.py:838-931 | an iteration that did not fail has recovered every injected fault |
| EnvironmentDriver.CompactOnce | scripts/hardware_environment_driver.py:182-208 | compaction is idempotent, keeps the attempt's identity and of a cleaned run keeps only the cleanup receipt |
| EnvironmentDriver.HardwareEnvironmentDriver.constructor | scripts/hardware_environment_driver.py:771-775 | a driver starts from the existing state file or without runs |
| EnvironmentDriver.HardwareEnvironmentDriver.FixJob | scripts/hardware_environment_driver.py:1234-1251 | job and job ID are fixed and checkpointed, or the attempt is refused |
| EnvironmentDriver.HardwareEnvironmentDriver.Unlock | scripts/hardware_environment_driver.py:787-794 | leaving the lock writes the state whatever the reply |
| EnvironmentDriver.HardwareEnvironmentDriver.Call | scripts/hardware_environment_driver.py:1252-1262 | the environment call, its receipt and the cleanup's compaction, or a crash |
| EnvironmentDriver.HardwareEnvironmentDriver.Run | scripts/hardware_environment_driver.py:1195-1262 | one invocation with its reply, its create request and the file it leaves |
| EnvironmentDriver.StepAdvances | scripts/hardware_environment_driver.py:1208-1220 | an attempt keeps its identity, and is followed only by the next one, by a provision after its cleanup |
| EnvironmentDriver.OneJobPerAttempt | scripts/hardware_environment_driver.py:215-231 | in every run two create requests carry the same job ID exactly when they belong to the same attempt, then the same job, and retries of a request the same idempotency key |
| EnvironmentDriver.AttemptsNeverDecrease | scripts/hardware_environment_driver.py:1208-1220 | attempt numbers never decrease over runs |
| EnvironmentDriver.AnswerIsRecordedExactlyWhen | scripts/hardware_environment_driver.py:1253-1262 | an answer is found by the next invocation except for other operations on a cleaned run |
| EnvironmentDriver.RecordedIsReplayed | scripts/hardware_environment_driver.py:1221-1233 | a recorded request is answered from the record, without its artifacts, and sends nothing |
| EnvironmentDriver.ReplayedUntilCleanup | scripts/hardware_environment_driver.py:1221-1233 | that stays so over any run without a cleanup of its run |
| EnvironmentDriver.CleanupForgets | scripts/hardware_environment_driver.py:1258-1262 | a cleanup leaves its own receipt and the next provision opens the next attempt |
| EnvironmentDriver.ReusedIdIsRefused | scripts/hardware_environment_driver.py:1221-1228 | a request ID on record for another request is refused and nothing is sent, replayed or answered |
| EnvironmentDriver.NewRequestsAreAnswered | scripts/hardware_environment_driver.py:1234-1262 | exactly which new requests are refused and why, and what the others are answered |
| EnvironmentDriver.GivesWhatItGot | scripts/hardware_environment_driver.py:1252-1262 | a new answer is what the environment returned, or that there was nothing to clean up |
| EnvironmentDriver.ReplaysRepeat | scripts/hardware_environment_driver.py:1221-1233 | in every run a replayed reply repeats, without artifacts, what was answered to the same request in the same attempt |
| LatestBundles.Choose | scripts/hardware_environment_driver.py:2554-2575 | succeeds exactly when no bundle is malformed or repeats the newest generation before it, and picks the one newest bundle of every sandbox |
| LatestBundles.ChooseAmong | scripts/hardware_environment_driver.py:2554-2575 | the loop computes the specification, whose success is characterised by the lemma below |
| LatestBundles.AddAllExactlyWhen | scripts/hardware_environment_driver.py:2554-2575 | after any number of bundles the map holds the newest of every sandbox, or one of them offends |
| LatestBundles.OrderMatters | scripts/hardware_environment_driver.py:2554-2575 | the same bundles succeed or fail depending on their order |
| LatestBundles.OrderMattersExactlyWhen | scripts/hardware_environment_driver.py:2554-2575 | well-formed bundles fail in one order and succeed in another exactly when some sandbox has a generation twice and none its newest |
| LatestBundles.SomeOrderFailsExactlyWhen | scripts/hardware_environment_driver.py:2554-2575 | some order fails exactly when a sandbox has a generation twice |
| LatestBundles.SomeOrderSucceedsExactlyWhen | scripts/hardware_environment_driver.py:2554-2575 | some order succeeds exactly when no sandbox has its newest generation twice |
| ProtoWire.EncodeVarint | scripts/check-proto-roundtrip.py:27-33 | the loop writes the minimal varint |
| ProtoWire.VarintRoundTrip | scripts/check-proto-roundtrip.py:27-54 | a varint reads back with the bytes after it |
| ProtoWire.ReadVarint | scripts/check-proto-roundtrip.py:40-49 | the shift-and-or loop reads the varint at its position or finds it truncated |
| ProtoWire.ReadFrame | scripts/check-proto-roundtrip.py:40-54 | the frame at the position, or which part is truncated |
| ProtoWire.FrameRoundTrip | scripts/check-proto-roundtrip.py:36-54 | reading undoes framing for every payload and whatever follows |
| ProtoWire.ReadContinuation | scripts/check-proto-roundtrip.py:63-73 | the field number keeps the continuation bit of the first byte as bit 4 |
| ProtoWire.ReadKey | scripts/check-proto-roundtrip.py:60-73 | the key as the scanner sees it |
| ProtoWire.SkipVarint | scripts/check-proto-roundtrip.py:76-82 | skips exactly one varint |
| ProtoWire.SkipValue | scripts/check-proto-roundtrip.py:76-103 | skips exactly one value of the wire type or reports how it is truncated |
| ProtoWire.CutValueIsReported | scripts/check-proto-roundtrip.py:76-103 | every proper prefix of every value is reported as the truncation it is |
| ProtoWire.ContainsAllocationPriority | scripts/check-proto-roundtrip.py:57-103 | the scanner computes the scan function, errors included |
| ProtoWire.ScanFindsHits | scripts/check-proto-roundtrip.py:57-103 | on every well-formed message the answer is yes exactly when some field has number 20, or 4 under a padded tag |
| ProtoWire.CleanScanReadsMessage | scripts/check-proto-roundtrip.py:57-103 | a scan that ends with no has read a well-formed message without such fields |
| ProtoWire.MinimalTagsFindField20 | scripts/check-proto-roundtrip.py:57-103 | with minimal tags the answer is yes exactly when some field has number 20 |
| ProtoWire.PaddedFieldFourIsTakenForTwenty | scripts/check-proto-roundtrip.py:63-75 | a message with field 4 only that the scanner answers yes on |
| TraceSink.MinSequence | adapters/trace_transport.py:107 | a sequence number of the batch below which there is none |
| TraceSink.MaxSequence | adapters/trace_transport.py:108 | a sequence number of the batch above which there is none |
| TraceSink.DeliveredExactlyWhen | adapters/trace_transport.py:124-162 | which replies are retried, and delivery exactly when the last attempt made was acknowledged |
| TraceSink.BatchOf | adapters/trace_transport.py:102-110 | a batch carries all events, their identity, and sequence bounds that are attained |
| TraceSink.SettledByReply | adapters/trace_transport.py:124-162 | by the replies alone: how many posts, delivery exactly on a receipt for all events, and the error otherwise |
| TraceSink.Unsettled | adapters/trace_transport.py:124-162 | transient replies to every attempt leave the outcome unknown and the events pending |
| TraceSink.RecordingLeavesRoom | adapters/trace_transport.py:71-79 | when recording raises, what it keeps, and that otherwise there is room for the next event |
| TraceSink.RegistryTraceSink.constructor | adapters/trace_transport.py:36-69 | a sink starts with nothing pending |
| TraceSink.RegistryTraceSink.FlushLocked | adapters/trace_transport.py:88-162 | the error, the identical batches posted, and the pending list, cleared exactly on an acknowledgement |
| TraceSink.RegistryTraceSink.Record | adapters/trace_transport.py:71-79 | what recording an event leaves pending and the error it raises |
| TraceSink.HistoryFollowsSink | adapters/trace_transport.py:71-83 | the run model keeps the same pending list as the sink |
| TraceSink.NothingIsLost | adapters/trace_transport.py:71-162 | in every run the recorded events are the acknowledged batches and then the pending list, which is bounded, and acknowledged batches were posted |
| TraceSink.RepostsAgree | adapters/trace_transport.py:88-162 | posts without an acknowledgement between them are the same batch exactly when nothing was recorded in between, always so after a full batch |
| TraceSink.PendingIsResent | adapters/trace_transport.py:71-162 | the pending list stays or starts the next acknowledged batch; a full list stays as it is until acknowledged |
| TraceSink.FlushCanSucceed | adapters/trace_transport.py:91-101 | a flush can succeed exactly when the pending events share one identity |
| TraceSink.MixedPendingHappens | adapters/trace_transport.py:71-79 | some run leaves such a list exactly when a batch has room for two events |
| TraceSink.MixedPendingIsStuck | adapters/trace_transport.py:91-101 | with two identities pending nothing is posted or acknowledged any more, and nothing recorded once full |

## Left out

- Sockets, HTTP, subprocesses, signals and timeouts: only delivered, lost and delayed messages and succeeded or failed calls are modelled.
- The default state path and the resolution of paths: the bridge is opened with two resolved paths.
- SHA-256, CRC-32 and JSON text: digests are the digested value, the journal's checksum is any function, the 24-digit truncation of job IDs and the `-a`/`-i` text form of idempotency keys are not modelled.
- GPU metrics in bridge responses and the optional execution identity fields of the state file: copied values without influence on control.
- The supervisor's signal mode and its marker files: a status call may report ready while paused, so the bridge invariants do not carry over.
- A supervisor view equal to the bridge state after each accepted call: a replayed older reply can make it stale, so only generations and successes are related.
- PauseHandshake.RunIsSafe: the threads are a state machine and not objects, because their steps interleave; prepare_pause's writes under its lock are single steps; the `_paused` flag is not modelled because the wait does not read it.
- Durability across a machine crash: a completed rename is taken to survive; only process crashes and failed writes are modelled.
- The order in which the phase-graph worklist takes phases: the source sorts, the model takes any.
- The contract's sections other than the phase graph: field checks without state.
- Python's limit on the digits of an integer text: a longer number is an error in the source and a number here.
- Values in plan steps that are not text, and the plan's JSON shape checks.
- State files written without attempt identifiers: runs start from an empty state store.
- EnvironmentDriver.HardwareEnvironmentDriver.Call: the environment's own effects (Kubernetes, gateway, hooks) are a success or a failure that may change the run's details.
- The state lock's refusal of a second invocation: invocations are one after the other.
- The sorted order of the chosen bundles: the model returns a map.
- Retry delays of the trace sink and its locks.
- Gate metrics, adapters, registries, console, gateway, scheduler, operator and job controller: tables, floating point or easy case splits.
