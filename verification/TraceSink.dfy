/**
 The bounded batching sink for trace events (adapters/trace_transport.py).
 A reply function gives the outcome of each delivery attempt. The
 idempotency key is a digest of the batch and is modelled as the batch itself.
 */
module TraceSink {
  import opened Common
  import opened Runs

  datatype Identity =
    Identity(executionId: string, runId: string, traceId: string, sandboxId: string, generation: nat, dataKind: nat)

  datatype Event = Event(identity: Identity, sequence: int, body: string)

  datatype Batch = Batch(identity: Identity, first: int, last: int, events: seq<Event>)

  datatype Error = MixedIdentities | InvalidReceipt | UnexpectedStatus | Rejected(code: nat) | UnknownOutcome

  /** One delivery attempt: a 2xx answer with its receipt, another answer, an HTTP error, or no answer. */
  datatype Reply =
    | Receipt(count: int, cursor: string)
    | BadReceipt
    | OtherStatus
    | HttpError(code: nat)
    | NetworkError

  type Replies = nat -> Reply

  // --------------------------------------------------------------------- one flush

  function MinSequence(es: seq<Event>): (r: int)
    requires es != []
    ensures (exists i :: 0 <= i < |es| && es[i].sequence == r) && forall i :: 0 <= i < |es| ==> r <= es[i].sequence
  {
    if |es| == 1 then assert es[0].sequence == es[0].sequence; es[0].sequence
    else
      var r := MinSequence(es[1..]);
      assert forall i :: 1 <= i < |es| ==> es[i] == es[1..][i - 1];
      if es[0].sequence <= r then es[0].sequence else r
  }

  function MaxSequence(es: seq<Event>): (r: int)
    requires es != []
    ensures (exists i :: 0 <= i < |es| && es[i].sequence == r) && forall i :: 0 <= i < |es| ==> es[i].sequence <= r
  {
    if |es| == 1 then assert es[0].sequence == es[0].sequence; es[0].sequence
    else
      var r := MaxSequence(es[1..]);
      assert forall i :: 1 <= i < |es| ==> es[i] == es[1..][i - 1];
      if es[0].sequence >= r then es[0].sequence else r
  }

  predicate Uniform(es: seq<Event>) {
    forall i :: 0 <= i < |es| ==> es[i].identity == es[0].identity
  }

  function BatchOf(es: seq<Event>): (b: Batch)
    requires es != []
    ensures b.events == es && (Uniform(es) ==> forall i :: 0 <= i < |es| ==> es[i].identity == b.identity)
    ensures forall i :: 0 <= i < |es| ==> b.first <= es[i].sequence <= b.last
    ensures exists i, j :: 0 <= i < |es| && 0 <= j < |es| && es[i].sequence == b.first && es[j].sequence == b.last
  {
    Batch(es[0].identity, MinSequence(es), MaxSequence(es), es)
  }

  predicate Acknowledges(reply: Reply, size: nat) {
    reply.Receipt? && reply.count == size && Strip(reply.cursor) != ""
  }

  /** Only a lost answer or a non-4xx error is tried again. */
  predicate Retried(reply: Reply) {
    reply.NetworkError? || (reply.HttpError? && !(400 <= reply.code < 500))
  }

  function FinalError(reply: Reply): Error {
    match reply
    case Receipt(_, _) => InvalidReceipt
    case BadReceipt => InvalidReceipt
    case OtherStatus => UnexpectedStatus
    case HttpError(code) => Rejected(code)
    case NetworkError => UnknownOutcome
  }

  datatype Outcome = Outcome(error: Option<Error>, attempts: nat)

  /** The attempts from number `attempt` on, of `retries + 1` in all. */
  function Deliver(size: nat, retries: nat, replies: Replies, attempt: nat): (o: Outcome)
    requires attempt <= retries + 1
    ensures attempt <= o.attempts <= retries + 1
    decreases retries + 1 - attempt
  {
    if attempt == retries + 1 then Outcome(Some(UnknownOutcome), attempt)
    else
      var reply := replies(attempt);
      if Acknowledges(reply, size) then Outcome(None, attempt + 1)
      else if Retried(reply) then Deliver(size, retries, replies, attempt + 1)
      else Outcome(Some(FinalError(reply)), attempt + 1)
  }

  function Flush(pending: seq<Event>, retries: nat, replies: Replies): Outcome {
    if pending == [] then Outcome(None, 0)
    else if !Uniform(pending) then Outcome(Some(MixedIdentities), 0)
    else Deliver(|pending|, retries, replies, 0)
  }

  function AfterFlush(pending: seq<Event>, retries: nat, replies: Replies): seq<Event> {
    if Flush(pending, retries, replies).error.None? then [] else pending
  }

  /** The events are gone exactly when the last attempt made was acknowledged and the ones before were retried. */
  lemma {:induction false} DeliveredExactlyWhen(size: nat, retries: nat, replies: Replies, attempt: nat)
    requires attempt <= retries + 1
    ensures
      var o := Deliver(size, retries, replies, attempt);
      && (forall k :: attempt <= k < o.attempts - 1 ==> Retried(replies(k)))
      && (o.error.None? <==> o.attempts > attempt && Acknowledges(replies(o.attempts - 1), size))
      && (o.error == Some(UnknownOutcome) <==>
            o.attempts == retries + 1 && forall k :: attempt <= k <= retries ==> Retried(replies(k)))
    decreases retries + 1 - attempt
  {
    if attempt <= retries && !Acknowledges(replies(attempt), size) && Retried(replies(attempt)) {
      DeliveredExactlyWhen(size, retries, replies, attempt + 1);
    }
  }

  /** No answer, or an answer that the server could not serve the request. */
  predicate Transient(reply: Reply) {
    match reply
    case HttpError(code) => code < 400 || code >= 500
    case NetworkError => true
    case _ => false
  }

  /** A receipt for `size` events with a cursor that is not blank. */
  predicate ReceiptFor(reply: Reply, size: nat) {
    match reply
    case Receipt(count, cursor) => count == size && Strip(cursor) != ""
    case _ => false
  }

  /** The reply to attempt `k` is the last one: those before it were transient, and it is not. */
  ghost predicate Settles(replies: Replies, retries: nat, k: nat) {
    k <= retries && !Transient(replies(k)) && forall j: nat :: j < k ==> Transient(replies(j))
  }

  lemma {:induction false} AttemptsUntilSettled(size: nat, retries: nat, replies: Replies, attempt: nat)
    requires attempt <= retries + 1 && forall j: nat :: j < attempt ==> Transient(replies(j))
    ensures
      var o := Deliver(size, retries, replies, attempt);
      if o.error == Some(UnknownOutcome) && o.attempts == retries + 1 && Transient(replies(retries)) then
        forall k: nat :: !Settles(replies, retries, k)
      else
        o.attempts > 0 && Settles(replies, retries, o.attempts - 1) &&
        match replies(o.attempts - 1)
        case Receipt(_, _) =>
          o.error == if ReceiptFor(replies(o.attempts - 1), size) then None else Some(InvalidReceipt)
        case BadReceipt => o.error == Some(InvalidReceipt)
        case OtherStatus => o.error == Some(UnexpectedStatus)
        case HttpError(code) => o.error == Some(Rejected(code))
        case NetworkError => false
    decreases retries + 1 - attempt
  {
    if attempt <= retries && Transient(replies(attempt)) {
      AttemptsUntilSettled(size, retries, replies, attempt + 1);
    }
  }

  /** By the replies alone: a batch is posted until a reply settles it or the retries are used up. It is delivered
      exactly when the settling reply is a receipt for all of its events; any other reply leaves them pending, and so
      does none. */
  lemma SettledByReply(pending: seq<Event>, retries: nat, replies: Replies, k: nat)
    requires pending != [] && Uniform(pending) && Settles(replies, retries, k)
    ensures
      var o := Flush(pending, retries, replies);
      && o.attempts == k + 1
      && (AfterFlush(pending, retries, replies) == [] <==> ReceiptFor(replies(k), |pending|))
      && (AfterFlush(pending, retries, replies) != [] ==> AfterFlush(pending, retries, replies) == pending)
      && o.error == match replies(k)
                    case Receipt(_, _) => if ReceiptFor(replies(k), |pending|) then None else Some(InvalidReceipt)
                    case BadReceipt => Some(InvalidReceipt)
                    case OtherStatus => Some(UnexpectedStatus)
                    case HttpError(code) => Some(Rejected(code))
                    case NetworkError => None
  {
    AttemptsUntilSettled(|pending|, retries, replies, 0);
    var o := Flush(pending, retries, replies);
    if o.attempts > 0 && Settles(replies, retries, o.attempts - 1) {
      assert o.attempts - 1 == k;
    }
  }

  lemma Unsettled(pending: seq<Event>, retries: nat, replies: Replies)
    requires pending != [] && Uniform(pending) && forall j: nat :: j <= retries ==> Transient(replies(j))
    ensures
      && Flush(pending, retries, replies) == Outcome(Some(UnknownOutcome), retries + 1)
      && AfterFlush(pending, retries, replies) == pending
  {
    AttemptsUntilSettled(|pending|, retries, replies, 0);
  }

  /** What recording an event leaves pending, and the error it raises. */
  function AfterRecord(pending: seq<Event>, event: Event, batchSize: nat, retries: nat, before: Replies, after: Replies)
    : (seq<Event>, Option<Error>)
  {
    var full := |pending| >= batchSize;
    if full && Flush(pending, retries, before).error.Some? then (pending, Flush(pending, retries, before).error)
    else
      var grown := (if full then [] else pending) + [event];
      if |grown| < batchSize then (grown, None)
      else (AfterFlush(grown, retries, after), Flush(grown, retries, after).error)
  }

  /** Recording an event. It raises exactly when a flush it needs fails: before, and the event is not taken; or after,
      and it is kept in a full list. If it does not raise, there is room for the next event. */
  lemma RecordingLeavesRoom(
    pending: seq<Event>, event: Event, batchSize: nat, retries: nat, before: Replies, after: Replies)
    requires 0 < batchSize && |pending| <= batchSize
    ensures
      var (kept, error) := AfterRecord(pending, event, batchSize, retries, before, after);
      var room := if |pending| < batchSize then pending else [];
      var turned := |pending| == batchSize && AfterFlush(pending, retries, before) != [];
      && (turned ==> kept == pending && error.Some?)
      && (!turned && |room| + 1 < batchSize ==> kept == room + [event] && error.None?)
      && (!turned && |room| + 1 == batchSize ==>
            && kept == AfterFlush(room + [event], retries, after)
            && (error.None? <==> kept == []) && (error.Some? ==> kept == room + [event]))
      && (error.None? ==> |kept| < batchSize)
  {
  }

  function Copies<T>(x: T, n: nat): (r: seq<T>)
    ensures |r| == n && forall i :: 0 <= i < n ==> r[i] == x
  {
    if n == 0 then [] else Copies(x, n - 1) + [x]
  }

  /** The batches a flush posts: the same one at every attempt. */
  function Posts(pending: seq<Event>, retries: nat, replies: Replies): seq<Batch> {
    if pending == [] then [] else Copies(BatchOf(pending), Flush(pending, retries, replies).attempts)
  }

  class RegistryTraceSink {
    const maxRetries: nat
    const batchSize: nat
    var pending: seq<Event>

    constructor (maxRetries: nat, batchSize: nat)
      requires batchSize > 0
      ensures this.maxRetries == maxRetries && this.batchSize == batchSize && pending == []
    {
      this.maxRetries, this.batchSize, pending := maxRetries, batchSize, [];
    }

    method FlushLocked(replies: Replies) returns (error: Option<Error>, posted: seq<Batch>)
      modifies this
      ensures error == Flush(old(pending), maxRetries, replies).error
      ensures posted == Posts(old(pending), maxRetries, replies)
      ensures pending == AfterFlush(old(pending), maxRetries, replies)
    {
      posted := [];
      if pending == [] { return None, []; }
      if exists i :: 0 <= i < |pending| && pending[i].identity != pending[0].identity {
        return Some(MixedIdentities), [];
      }
      var batch := BatchOf(pending);
      for attempt := 0 to maxRetries + 1
        invariant posted == Copies(batch, attempt) && pending == old(pending)
        invariant Flush(pending, maxRetries, replies) == Deliver(|pending|, maxRetries, replies, attempt)
      {
        posted := posted + [batch];
        var reply := replies(attempt);
        if reply.Receipt? {
          if reply.count != |pending| || Strip(reply.cursor) == "" { return Some(InvalidReceipt), posted; }
          pending := [];
          return None, posted;
        } else if reply.BadReceipt? {
          return Some(InvalidReceipt), posted;
        } else if reply.OtherStatus? {
          return Some(UnexpectedStatus), posted;
        } else if reply.HttpError? && 400 <= reply.code < 500 {
          return Some(Rejected(reply.code)), posted;
        }
      }
      error := Some(UnknownOutcome);
    }

    /** Records one event: a full list is flushed first, and flushed again when the event fills it. */
    method Record(event: Event, before: Replies, after: Replies) returns (error: Option<Error>)
      modifies this
      ensures (pending, error) == AfterRecord(old(pending), event, batchSize, maxRetries, before, after)
    {
      var posted;
      if |pending| >= batchSize {
        error, posted := FlushLocked(before);
        if error.Some? { return; }
      }
      pending := pending + [event];
      error := None;
      if |pending| >= batchSize { error, posted := FlushLocked(after); }
    }
  }

  // -------------------------------------------------------------------------- runs

  /** A posted batch, with how many events had been recorded and how many batches acknowledged by then. */
  datatype Sent = Sent(events: seq<Event>, recorded: nat, acked: nat)

  datatype History = History(pending: seq<Event>, recorded: seq<Event>, acked: seq<seq<Event>>, sent: seq<Sent>)

  datatype Config = Config(batchSize: nat, retries: nat)

  datatype Command = RecordEvent(event: Event, before: Replies, after: Replies) | FlushNow(replies: Replies)

  function Start(): History {
    History([], [], [], [])
  }

  function PostOnce(h: History): History
    requires h.pending != []
  {
    h.(sent := h.sent + [Sent(h.pending, |h.recorded|, |h.acked|)])
  }

  function PostMany(h: History, n: nat): (r: History)
    requires h.pending != []
    ensures r.pending == h.pending && r.recorded == h.recorded && r.acked == h.acked
  {
    if n == 0 then h else PostOnce(PostMany(h, n - 1))
  }

  function Acknowledge(h: History): History
    requires h.pending != []
  {
    h.(pending := [], acked := h.acked + [h.pending])
  }

  function FlushStep(cfg: Config, h: History, replies: Replies): History {
    if h.pending == [] then h
    else
      var o := Flush(h.pending, cfg.retries, replies);
      var posted := PostMany(h, o.attempts);
      if o.error.None? then Acknowledge(posted) else posted
  }

  function Append(h: History, e: Event): History {
    h.(pending := h.pending + [e], recorded := h.recorded + [e])
  }

  /** Recording into a list that is not full. */
  function RecordWithRoom(cfg: Config, h: History, e: Event, after: Replies): History {
    if |Append(h, e).pending| >= cfg.batchSize then FlushStep(cfg, Append(h, e), after) else Append(h, e)
  }

  function RecordStep(cfg: Config, h: History, e: Event, before: Replies, after: Replies): History {
    if |h.pending| < cfg.batchSize then RecordWithRoom(cfg, h, e, after)
    else
      var flushed := FlushStep(cfg, h, before);
      if Flush(h.pending, cfg.retries, before).error.Some? then flushed else RecordWithRoom(cfg, flushed, e, after)
  }

  function Step(cfg: Config): (History, Command) -> History {
    (h: History, c: Command) =>
      match c
      case RecordEvent(e, before, after) => RecordStep(cfg, h, e, before, after)
      case FlushNow(replies) => FlushStep(cfg, h, replies)
  }

  function After(cfg: Config, cs: seq<Command>): History {
    Run(Step(cfg), Start(), cs)
  }

  /** The history follows the sink: the pending list is what the two operations leave. */
  lemma HistoryFollowsSink(cfg: Config, h: History, c: Command)
    ensures Step(cfg)(h, c).pending ==
      match c
      case RecordEvent(e, before, after) => AfterRecord(h.pending, e, cfg.batchSize, cfg.retries, before, after).0
      case FlushNow(replies) => AfterFlush(h.pending, cfg.retries, replies)
  {
  }

  function Delivered(acked: seq<seq<Event>>): seq<Event> {
    if acked == [] then [] else Delivered(acked[..|acked| - 1]) + acked[|acked| - 1]
  }

  /** A posted batch holds the events recorded since the last acknowledgement before it. */
  ghost predicate SentOk(size: nat, recorded: seq<Event>, acked: seq<seq<Event>>, x: Sent) {
    && x.acked <= |acked|
    && var base := |Delivered(acked[..x.acked])|;
      && base < x.recorded <= |recorded| && x.recorded - base <= size
      && x.events == recorded[base..x.recorded]
  }

  ghost predicate AllSentOk(size: nat, recorded: seq<Event>, acked: seq<seq<Event>>, sent: seq<Sent>) {
    forall i :: 0 <= i < |sent| ==> SentOk(size, recorded, acked, sent[i])
  }

  ghost predicate Rising(sent: seq<Sent>) {
    forall i, j :: 0 <= i < j < |sent| ==> sent[i].recorded <= sent[j].recorded
  }

  ghost predicate WasSent(sent: seq<Sent>, k: nat, b: seq<Event>) {
    exists i :: 0 <= i < |sent| && sent[i].acked == k && sent[i].events == b
  }

  ghost predicate AckedWereSent(acked: seq<seq<Event>>, sent: seq<Sent>) {
    forall k :: 0 <= k < |acked| ==> WasSent(sent, k, acked[k])
  }

  ghost predicate Kept(cfg: Config, h: History) {
    && h.recorded == Delivered(h.acked) + h.pending
    && |h.pending| <= cfg.batchSize
    && AllSentOk(cfg.batchSize, h.recorded, h.acked, h.sent)
    && Rising(h.sent)
    && AckedWereSent(h.acked, h.sent)
  }

  lemma SentOkGrows(size: nat, recorded: seq<Event>, acked: seq<seq<Event>>, sent: seq<Sent>, more: seq<Event>,
      b: seq<seq<Event>>)
    requires AllSentOk(size, recorded, acked, sent)
    ensures AllSentOk(size, recorded + more, acked + b, sent)
  {
    forall i | 0 <= i < |sent| ensures SentOk(size, recorded + more, acked + b, sent[i]) {
      var x := sent[i];
      assert SentOk(size, recorded, acked, x);
      assert (acked + b)[..x.acked] == acked[..x.acked];
      var base := |Delivered(acked[..x.acked])|;
      assert (recorded + more)[base..x.recorded] == recorded[base..x.recorded];
    }
  }

  lemma RisingGrows(size: nat, recorded: seq<Event>, acked: seq<seq<Event>>, sent: seq<Sent>, x: Sent)
    requires Rising(sent) && AllSentOk(size, recorded, acked, sent) && x.recorded == |recorded|
    ensures Rising(sent + [x])
  {
    forall i | 0 <= i < |sent| ensures sent[i].recorded <= |recorded| { assert SentOk(size, recorded, acked, sent[i]); }
  }

  lemma WasSentGrows(sent: seq<Sent>, x: Sent, k: nat, b: seq<Event>)
    requires WasSent(sent, k, b)
    ensures WasSent(sent + [x], k, b)
  {
    var i :| 0 <= i < |sent| && sent[i].acked == k && sent[i].events == b;
    assert (sent + [x])[i] == sent[i];
  }

  lemma PostedIsOk(size: nat, pending: seq<Event>, recorded: seq<Event>, acked: seq<seq<Event>>)
    requires recorded == Delivered(acked) + pending && 0 < |pending| <= size
    ensures SentOk(size, recorded, acked, Sent(pending, |recorded|, |acked|))
  {
    assert acked[..|acked|] == acked && recorded[|Delivered(acked)|..|recorded|] == pending;
  }

  lemma PostKeeps(cfg: Config, h: History, posted: History)
    requires Kept(cfg, h) && h.pending != [] && posted == PostOnce(h)
    ensures Kept(cfg, posted) && WasSent(posted.sent, |posted.acked|, posted.pending)
  {
    var x := Sent(h.pending, |h.recorded|, |h.acked|);
    PostedIsOk(cfg.batchSize, h.pending, h.recorded, h.acked);
    RisingGrows(cfg.batchSize, h.recorded, h.acked, h.sent, x);
    forall k | 0 <= k < |h.acked| ensures WasSent(h.sent + [x], k, h.acked[k]) {
      WasSentGrows(h.sent, x, k, h.acked[k]);
    }
    assert (h.sent + [x])[|h.sent|] == x;
  }

  lemma {:induction false} PostManyKeeps(cfg: Config, h: History, n: nat, posted: History)
    requires Kept(cfg, h) && h.pending != [] && posted == PostMany(h, n)
    ensures Kept(cfg, posted)
    ensures n > 0 ==> WasSent(posted.sent, |posted.acked|, posted.pending)
  {
    if n > 0 {
      var before := PostMany(h, n - 1);
      PostManyKeeps(cfg, h, n - 1, before);
      PostKeeps(cfg, before, posted);
    }
  }

  lemma AcknowledgeKeeps(cfg: Config, h: History)
    requires Kept(cfg, h) && h.pending != [] && WasSent(h.sent, |h.acked|, h.pending)
    ensures Kept(cfg, Acknowledge(h))
  {
    var b := h.pending;
    SentOkGrows(cfg.batchSize, h.recorded, h.acked, h.sent, [], [b]);
    assert h.recorded + [] == h.recorded;
    assert (h.acked + [b])[..|h.acked|] == h.acked;
    assert Delivered(h.acked + [b]) + [] == Delivered(h.acked) + h.pending;
  }

  lemma AppendKeeps(cfg: Config, h: History, e: Event)
    requires Kept(cfg, h) && |h.pending| < cfg.batchSize
    ensures Kept(cfg, Append(h, e))
  {
    SentOkGrows(cfg.batchSize, h.recorded, h.acked, h.sent, [e], []);
    assert h.acked + [] == h.acked;
    assert Delivered(h.acked) + (h.pending + [e]) == h.recorded + [e];
  }

  lemma FlushKeeps(cfg: Config, h: History, replies: Replies)
    requires Kept(cfg, h)
    ensures Kept(cfg, FlushStep(cfg, h, replies))
  {
    if h.pending != [] {
      var o := Flush(h.pending, cfg.retries, replies);
      PostManyKeeps(cfg, h, o.attempts, PostMany(h, o.attempts));
      if o.error.None? {
        DeliveredExactlyWhen(|h.pending|, cfg.retries, replies, 0);
        AcknowledgeKeeps(cfg, PostMany(h, o.attempts));
      }
    }
  }

  lemma RecordWithRoomKeeps(cfg: Config, h: History, e: Event, after: Replies)
    requires Kept(cfg, h) && |h.pending| < cfg.batchSize
    ensures Kept(cfg, RecordWithRoom(cfg, h, e, after))
  {
    AppendKeeps(cfg, h, e);
    FlushKeeps(cfg, Append(h, e), after);
  }

  lemma {:induction false} RecordKeeps(cfg: Config, h: History, e: Event, before: Replies, after: Replies)
    requires cfg.batchSize > 0 && Kept(cfg, h)
    ensures Kept(cfg, RecordStep(cfg, h, e, before, after))
  {
    if |h.pending| < cfg.batchSize {
      RecordWithRoomKeeps(cfg, h, e, after);
    } else {
      FlushThenRecordKeeps(cfg, h, e, before, after);
    }
  }

  lemma {:induction false} FlushThenRecordKeeps(cfg: Config, h: History, e: Event, before: Replies, after: Replies)
    requires cfg.batchSize > 0 && Kept(cfg, h)
    ensures
      var flushed := FlushStep(cfg, h, before);
      Kept(cfg, flushed) && (flushed.pending == [] ==> Kept(cfg, RecordWithRoom(cfg, flushed, e, after)))
  {
    FlushKeeps(cfg, h, before);
    var flushed := FlushStep(cfg, h, before);
    if flushed.pending == [] { RecordWithRoomKeeps(cfg, flushed, e, after); }
  }

  lemma {:induction false} StepKeeps(cfg: Config, h: History, c: Command)
    requires cfg.batchSize > 0 && Kept(cfg, h)
    ensures Kept(cfg, Step(cfg)(h, c))
  {
    if c.FlushNow? {
      FlushKeeps(cfg, h, c.replies);
    } else {
      RecordKeeps(cfg, h, c.event, c.before, c.after);
    }
  }

  lemma {:induction false} RunKeeps(cfg: Config, cs: seq<Command>)
    requires cfg.batchSize > 0
    ensures Kept(cfg, After(cfg, cs))
  {
    if cs != [] {
      RunKeeps(cfg, cs[..|cs| - 1]);
      StepKeeps(cfg, After(cfg, cs[..|cs| - 1]), cs[|cs| - 1]);
    }
  }

  /** In every run: the recorded events are the acknowledged batches followed by the pending list, in order; the
      pending list is bounded; and every acknowledged batch had been posted. */
  lemma NothingIsLost(cfg: Config, cs: seq<Command>)
    requires cfg.batchSize > 0
    ensures
      var h := After(cfg, cs);
      && h.recorded == Delivered(h.acked) + h.pending
      && |h.pending| <= cfg.batchSize
      && forall k :: 0 <= k < |h.acked| ==> WasSent(h.sent, k, h.acked[k])
  {
    RunKeeps(cfg, cs);
  }

  /** Two posts without an acknowledgement between them: the earlier batch is the start of the later one, and they
      are the same batch, so have the same key, exactly when no event was recorded in between. After a full batch
      that is always so. */
  lemma RepostsAgree(cfg: Config, cs: seq<Command>, i: nat, j: nat)
    requires cfg.batchSize > 0
    requires
      var h := After(cfg, cs);
      i < j < |h.sent| && h.sent[i].acked == h.sent[j].acked
    ensures
      var x, y := After(cfg, cs).sent[i], After(cfg, cs).sent[j];
      && [] < x.events <= y.events
      && (BatchOf(x.events) == BatchOf(y.events) <==> x.recorded == y.recorded)
      && (|x.events| == cfg.batchSize ==> BatchOf(x.events) == BatchOf(y.events))
  {
    RunKeeps(cfg, cs);
    var h := After(cfg, cs);
    TwoPosts(cfg.batchSize, h.recorded, h.acked, h.sent[i], h.sent[j]);
  }

  lemma TwoPosts(size: nat, recorded: seq<Event>, acked: seq<seq<Event>>, x: Sent, y: Sent)
    requires SentOk(size, recorded, acked, x) && SentOk(size, recorded, acked, y)
    requires x.acked == y.acked && x.recorded <= y.recorded
    ensures [] < x.events <= y.events
    ensures x.events == y.events <==> x.recorded == y.recorded
    ensures |x.events| == size ==> x.events == y.events
  {
    var base := |Delivered(acked[..x.acked])|;
    assert recorded[base..x.recorded] == recorded[base..y.recorded][..x.recorded - base];
  }

  // ------------------------------------------------------------ what a pending list becomes

  /** Acknowledged batches stay, and the pending list goes on at the front of the pending list or of the next
      acknowledged batch. */
  ghost predicate Carries(h: History, r: History) {
    && h.acked <= r.acked
    && h.pending <= (if |r.acked| == |h.acked| then r.pending else r.acked[|h.acked|])
  }

  lemma CarriesOn(h: History, m: History, r: History)
    requires Carries(h, m) && Carries(m, r)
    ensures Carries(h, r)
  {
    if |m.acked| > |h.acked| { assert r.acked[|h.acked|] == m.acked[|h.acked|]; }
  }

  lemma FlushCarries(cfg: Config, h: History, replies: Replies)
    ensures Carries(h, FlushStep(cfg, h, replies))
  {
  }

  lemma RoomCarries(cfg: Config, h: History, e: Event, after: Replies)
    ensures Carries(h, RecordWithRoom(cfg, h, e, after))
  {
    assert Carries(h, Append(h, e));
    FlushCarries(cfg, Append(h, e), after);
    CarriesOn(h, Append(h, e), FlushStep(cfg, Append(h, e), after));
  }

  lemma StepCarries(cfg: Config, h: History, c: Command)
    ensures Carries(h, Step(cfg)(h, c))
  {
    if c.FlushNow? {
      FlushCarries(cfg, h, c.replies);
    } else if |h.pending| < cfg.batchSize {
      RoomCarries(cfg, h, c.event, c.after);
    } else {
      var flushed := FlushStep(cfg, h, c.before);
      FlushCarries(cfg, h, c.before);
      RoomCarries(cfg, flushed, c.event, c.after);
      CarriesOn(h, flushed, RecordWithRoom(cfg, flushed, c.event, c.after));
    }
  }

  lemma {:induction false} RunCarries(cfg: Config, h: History, cs: seq<Command>)
    ensures Carries(h, Run(Step(cfg), h, cs))
    decreases |cs|
  {
    if cs != [] {
      var m := Run(Step(cfg), h, cs[..|cs| - 1]);
      RunCarries(cfg, h, cs[..|cs| - 1]);
      StepCarries(cfg, m, cs[|cs| - 1]);
      CarriesOn(h, m, Run(Step(cfg), h, cs));
    }
  }

  /** Whatever happens next, the pending list stays or is the start of the next acknowledged batch; a full list
      stays unchanged until it is acknowledged as it is. */
  lemma PendingIsResent(cfg: Config, cs: seq<Command>, ds: seq<Command>)
    requires cfg.batchSize > 0
    ensures
      var h, r := After(cfg, cs), After(cfg, cs + ds);
      && Carries(h, r)
      && (|h.pending| == cfg.batchSize ==>
            h.pending == if |r.acked| == |h.acked| then r.pending else r.acked[|h.acked|])
  {
    var h, r := After(cfg, cs), After(cfg, cs + ds);
    RunConcat(Step(cfg), Start(), cs, ds);
    RunCarries(cfg, h, ds);
    RunKeeps(cfg, cs + ds);
    if |r.acked| > |h.acked| { AckedIsBounded(cfg, r, |h.acked|); }
  }

  lemma AckedIsBounded(cfg: Config, h: History, k: nat)
    requires Kept(cfg, h) && k < |h.acked|
    ensures |h.acked[k]| <= cfg.batchSize
  {
    assert WasSent(h.sent, k, h.acked[k]);
    var i :| 0 <= i < |h.sent| && h.sent[i].acked == k && h.sent[i].events == h.acked[k];
    assert SentOk(cfg.batchSize, h.recorded, h.acked, h.sent[i]);
  }

  /** A flush can succeed exactly when the pending events share one identity. */
  lemma FlushCanSucceed(pending: seq<Event>, retries: nat)
    requires pending != []
    ensures (exists replies :: Flush(pending, retries, replies).error.None?) <==> Uniform(pending)
  {
    var yes := (k: nat) => Receipt(|pending|, "cursor");
    assert Strip("cursor") != "" by { assert "cursor"[0] == 'c' && "cursor"[5] == 'r'; }
    assert Uniform(pending) ==> Flush(pending, retries, yes).error.None?;
  }

  /** A pending list with two identities is never delivered: nothing is posted or acknowledged any more, and once
      the list is full no event is recorded any more either. */
  ghost predicate Stuck(cfg: Config, h: History, r: History) {
    && r.acked == h.acked && r.sent == h.sent && h.pending <= r.pending
    && (|h.pending| >= cfg.batchSize ==> r == h)
  }

  lemma MixedStaysMixed(es: seq<Event>, fs: seq<Event>)
    requires es <= fs && !Uniform(es)
    ensures !Uniform(fs)
  {
    var i :| 0 <= i < |es| && es[i].identity != es[0].identity;
    assert fs[i] == es[i] && fs[0] == es[0];
  }

  lemma StuckStep(cfg: Config, h: History, c: Command)
    requires !Uniform(h.pending)
    ensures Stuck(cfg, h, Step(cfg)(h, c))
  {
    if c.RecordEvent? { MixedStaysMixed(h.pending, Append(h, c.event).pending); }
  }

  lemma {:induction false} MixedPendingIsStuck(cfg: Config, h: History, cs: seq<Command>)
    requires !Uniform(h.pending)
    ensures Stuck(cfg, h, Run(Step(cfg), h, cs))
    decreases |cs|
  {
    if cs != [] {
      var m := Run(Step(cfg), h, cs[..|cs| - 1]);
      MixedPendingIsStuck(cfg, h, cs[..|cs| - 1]);
      MixedStaysMixed(h.pending, m.pending);
      StuckStep(cfg, m, cs[|cs| - 1]);
    }
  }

  /** Recording two events of different identities into a batch with room for both leaves such a list. */
  lemma TwoIdentitiesMix(cfg: Config, a: Event, b: Event, replies: Replies)
    requires cfg.batchSize >= 2 && a.identity != b.identity
    ensures
      var h := After(cfg, [RecordEvent(a, replies, replies), RecordEvent(b, replies, replies)]);
      h.pending == [a, b] && !Uniform(h.pending)
  {
    RunTwo(Step(cfg), Start(), RecordEvent(a, replies, replies), RecordEvent(b, replies, replies));
    var both := Append(Append(Start(), a), b);
    assert both.pending == [a, b] && [a, b][1].identity != [a, b][0].identity;
    assert PostMany(both, 0) == both;
  }

  ghost predicate Mixes(cfg: Config, cs: seq<Command>) {
    !Uniform(After(cfg, cs).pending)
  }

  /** Exactly when such a list can come about, given two identities: when a batch has room for two events. */
  lemma MixedPendingHappens(cfg: Config, a: Event, b: Event)
    requires cfg.batchSize >= 1 && a.identity != b.identity
    ensures (exists cs :: Mixes(cfg, cs)) <==> cfg.batchSize >= 2
  {
    if cfg.batchSize >= 2 {
      var replies: Replies := (k: nat) => Receipt(0, "");
      TwoIdentitiesMix(cfg, a, b, replies);
      assert Mixes(cfg, [RecordEvent(a, replies, replies), RecordEvent(b, replies, replies)]);
    } else if exists cs :: Mixes(cfg, cs) {
      var cs :| Mixes(cfg, cs);
      NothingIsLost(cfg, cs);
    }
  }
}
