/** The ingest queue between the hook handlers, replay requests and the one writer task, up to the end of the
    recording (`daemon/src/ingest/writer.rs`, `daemon/src/main.rs`). The daemon runs on one thread, so whatever
    a task does between two awaits is one step here. */
module IngestQueue {
  import opened Protocol
  import Handler = IngestHandler

  datatype Item = Item(envelope: EventEnvelope, origin: Origin)

  /** Where the writer task stands: waiting for an item or the shutdown, inside `write_item` (as part of the
      shutdown drain or not), or returned, which drops the receiver and so closes the channel. */
  datatype Writer = Selecting | Writing(draining: bool) | Stopped

  datatype Daemon = Daemon(
    capacity: nat,
    queue: seq<Item>,
    /** Every item a sender managed to enqueue, in order. */
    accepted: seq<Item>,
    /** The positions in `accepted` whose sender has been told so: a hook answered 200, a replay line counted. */
    acknowledged: set<nat>,
    /** Every item passed to `write_item`, in order, and how many of those calls have returned. */
    handed: seq<Item>,
    returned: nat,
    writer: Writer,
    sendersGone: bool,
    shutdown: bool,
    recordingEnded: bool)

  function Initial(capacity: nat): Daemon {
    Daemon(capacity, [], [], {}, [], 0, Selecting, false, false, false)
  }

  datatype Step =
    | HookLine(line: Handler.Line)
    | AnswerHook(position: nat)
    | ReplayLine(envelope: EventEnvelope)
    | DropSenders
    | RequestShutdown
    | ReceiveItem
    | ReceiveClosed
    | NoticeShutdown
    | WriteReturns
    | EndRecording

  /** Whether `try_send` finds room: not full, and the receiver not dropped. */
  predicate HasRoom(d: Daemon) {
    !d.writer.Stopped? && |d.queue| < d.capacity
  }

  function Enqueue(d: Daemon, item: Item): Daemon {
    d.(queue := d.queue + [item], accepted := d.accepted + [item])
  }

  function Hand(d: Daemon, draining: bool): Daemon
    requires d.queue != []
  {
    d.(queue := d.queue[1..], handed := d.handed + [d.queue[0]], writer := Writing(draining))
  }

  /** One round of the shutdown drain: take the next item, or find the queue empty and return. */
  function Drain(d: Daemon): Daemon {
    if d.queue != [] then Hand(d, true) else d.(writer := Stopped)
  }

  predicate Enabled(d: Daemon, step: Step) {
    match step
    case HookLine(_) => !d.sendersGone
    case AnswerHook(position) => position < |d.accepted| && d.accepted[position].origin.Live?
    case ReplayLine(_) => !d.sendersGone
    case DropSenders => true
    case RequestShutdown => true
    case ReceiveItem => d.writer.Selecting? && d.queue != []
    case ReceiveClosed => d.writer.Selecting? && d.queue == [] && d.sendersGone
    case NoticeShutdown => d.writer.Selecting? && d.shutdown
    case WriteReturns => d.writer.Writing?
    case EndRecording => d.shutdown && d.writer.Stopped?
  }

  function Next(d: Daemon, step: Step): Daemon
    requires Enabled(d, step)
  {
    match step
    case HookLine(line) =>
      match Handler.Handle(line, HasRoom(d)).1 {
        case None => d
        case Some(env) => Enqueue(d, Item(env, Live))
      }
    case AnswerHook(position) => d.(acknowledged := d.acknowledged + {position})
    case ReplayLine(env) =>
      if HasRoom(d) then Enqueue(d, Item(env, Replay)).(acknowledged := d.acknowledged + {|d.accepted|}) else d
    case DropSenders => d.(sendersGone := true)
    case RequestShutdown => d.(shutdown := true)
    case ReceiveItem => Hand(d, false)
    case ReceiveClosed => d.(writer := Stopped)
    case NoticeShutdown => Drain(d)
    case WriteReturns =>
      var idle := d.(returned := d.returned + 1, writer := Selecting);
      if d.writer.draining then Drain(idle) else idle
    case EndRecording => d.(recordingEnded := true)
  }

  predicate IsRun(d: Daemon, steps: seq<Step>)
    decreases |steps|, 0
  {
    steps == [] || (IsRun(d, steps[..|steps| - 1]) && Enabled(Final(d, steps[..|steps| - 1]), steps[|steps| - 1]))
  }

  function Final(d: Daemon, steps: seq<Step>): Daemon
    requires IsRun(d, steps)
    decreases |steps|, 1
  {
    if steps == [] then d else Next(Final(d, steps[..|steps| - 1]), steps[|steps| - 1])
  }

  // ---- Nothing is lost and nothing is reordered ----

  predicate Orderly(d: Daemon) {
    && d.accepted == d.handed + d.queue
    && |d.queue| <= d.capacity
    && (forall p <- d.acknowledged :: p < |d.accepted|)
    && d.returned == |d.handed| - (if d.writer.Writing? then 1 else 0)
    && (d.writer.Stopped? ==> d.queue == [])
    && (d.recordingEnded ==> d.writer.Stopped?)
  }

  lemma HandKeepsOrder(d: Daemon, draining: bool)
    requires d.queue != [] && d.accepted == d.handed + d.queue
    ensures var after := Hand(d, draining); after.accepted == after.handed + after.queue
  {
    assert d.queue == [d.queue[0]] + d.queue[1..];
  }

  lemma EnqueueKeepsOrder(d: Daemon, item: Item)
    requires d.accepted == d.handed + d.queue
    ensures var after := Enqueue(d, item); after.accepted == after.handed + after.queue
  {
    assert d.accepted + [item] == d.handed + (d.queue + [item]);
  }

  lemma HandKeepsOrderly(d: Daemon, draining: bool)
    requires Orderly(d) && d.writer.Selecting? && d.queue != []
    ensures Orderly(Hand(d, draining))
  {
    HandKeepsOrder(d, draining);
  }

  lemma DrainKeepsOrderly(d: Daemon)
    requires Orderly(d) && d.writer.Selecting?
    ensures Orderly(Drain(d))
  {
    if d.queue != [] { HandKeepsOrderly(d, true); }
  }

  lemma StepKeepsOrderly(d: Daemon, step: Step)
    requires Orderly(d) && Enabled(d, step)
    ensures Orderly(Next(d, step))
  {
    match step
    case HookLine(line) =>
      var item := Handler.Handle(line, HasRoom(d)).1;
      if item.Some? { EnqueueKeepsOrder(d, Item(item.value, Live)); }
    case ReplayLine(env) => EnqueueKeepsOrder(d, Item(env, Replay));
    case ReceiveItem => HandKeepsOrderly(d, false);
    case NoticeShutdown => DrainKeepsOrderly(d);
    case WriteReturns => WriteReturnsKeepsOrderly(d);
    case _ =>
  }

  lemma WriteReturnsKeepsOrderly(d: Daemon)
    requires Orderly(d) && Enabled(d, WriteReturns)
    ensures Orderly(Next(d, WriteReturns))
  {
    var idle := d.(returned := d.returned + 1, writer := Selecting);
    if d.writer.draining {
      DrainKeepsOrderly(idle);
      assert Next(d, WriteReturns) == Drain(idle);
    }
  }

  lemma {:induction false} RunsStayOrderly(capacity: nat, steps: seq<Step>)
    requires IsRun(Initial(capacity), steps)
    ensures Orderly(Final(Initial(capacity), steps))
  {
    if steps != [] {
      RunsStayOrderly(capacity, steps[..|steps| - 1]);
      StepKeepsOrderly(Final(Initial(capacity), steps[..|steps| - 1]), steps[|steps| - 1]);
    }
  }

  /** In every run items reach `write_item` in the order they were accepted. */
  lemma WritesFollowAcceptance(capacity: nat, steps: seq<Step>)
    requires IsRun(Initial(capacity), steps)
    ensures var d := Final(Initial(capacity), steps); d.handed <= d.accepted
  {
    RunsStayOrderly(capacity, steps);
  }

  /** In every run, once the end of the recording is written every accepted item has been through a
      `write_item` call that has returned; so every acknowledged one has, at its own place. */
  lemma ShutdownLosesNothingAccepted(capacity: nat, steps: seq<Step>)
    requires IsRun(Initial(capacity), steps)
    requires Final(Initial(capacity), steps).recordingEnded
    ensures var d := Final(Initial(capacity), steps);
      && d.handed == d.accepted && d.returned == |d.accepted|
      && forall p <- d.acknowledged :: p < |d.handed| && d.handed[p] == d.accepted[p]
  {
    RunsStayOrderly(capacity, steps);
  }

  /** Whether an item gets in: exactly when the writer still listens and the queue is not full. A replay line
      that gets in is counted at once, and a good hook line that does not is told 503. */
  lemma SendSucceedsIff(d: Daemon, envelope: EventEnvelope, line: Handler.Line)
    requires Orderly(d) && Enabled(d, ReplayLine(envelope)) && Enabled(d, HookLine(line)) && Handler.IsGoodLine(line, envelope)
    ensures var open := d.writer != Stopped && |d.queue| < d.capacity;
      var replayed, hooked := Next(d, ReplayLine(envelope)), Next(d, HookLine(line));
      && replayed.queue == d.queue + (if open then [Item(envelope, Replay)] else [])
      && replayed.acknowledged == d.acknowledged + (if open then {|d.accepted|} else {})
      && hooked.queue == d.queue + (if open then [Item(envelope, Live)] else [])
      && hooked.acknowledged == d.acknowledged
      && Handler.Handle(line, HasRoom(d)).0 == Some(if open then Handler.Ok else Handler.Busy)
  {
    Handler.QueuedIffAccepted(line, HasRoom(d));
  }

  /** Along every run: a good hook line is told 200 if and only if fewer items than the capacity the queue was
      made with are accepted and not yet handed over, and the writer has not returned. */
  lemma HooksAreTakenUntilFull(capacity: nat, steps: seq<Step>, line: Handler.Line, env: EventEnvelope)
    requires IsRun(Initial(capacity), steps) && Handler.IsGoodLine(line, env)
    ensures var d := Final(Initial(capacity), steps);
      && d.capacity == capacity
      && (Handler.Handle(line, HasRoom(d)).0 == Some(Handler.Ok) <==>
          !d.writer.Stopped? && |d.accepted| - |d.handed| < capacity)
  {
    RunsStayOrderly(capacity, steps);
    Handler.QueuedIffAccepted(line, HasRoom(Final(Initial(capacity), steps)));
    CapacityStays(capacity, steps);
  }

  lemma {:induction false} CapacityStays(capacity: nat, steps: seq<Step>)
    requires IsRun(Initial(capacity), steps)
    ensures Final(Initial(capacity), steps).capacity == capacity
  {
    if steps != [] { CapacityStays(capacity, steps[..|steps| - 1]); }
  }

  /** Nothing is accepted any more once the writer has returned: later hooks are told 503, later replay
      lines are not counted. */
  lemma StoppedStaysStopped(d: Daemon, step: Step)
    requires Orderly(d) && d.writer.Stopped? && Enabled(d, step)
    ensures var after := Next(d, step);
      after.writer.Stopped? && after.accepted == d.accepted && after.handed == d.handed && after.returned == d.returned
    ensures step.HookLine? ==> Handler.Handle(step.line, HasRoom(d)).0 != Some(Handler.Ok)
  {
  }

  /** Step `i` of the run put the item at position `p` into the queue. */
  ghost predicate EnqueuedBy(capacity: nat, steps: seq<Step>, i: nat, p: nat)
    requires IsRun(Initial(capacity), steps)
  {
    i < |steps| && IsRun(Initial(capacity), steps[..i]) && IsRun(Initial(capacity), steps[..i + 1]) &&
    var before, after := Final(Initial(capacity), steps[..i]), Final(Initial(capacity), steps[..i + 1]);
    && |before.accepted| == p && |after.accepted| == p + 1 && after.accepted <= Final(Initial(capacity), steps).accepted
    && p !in before.acknowledged
    && match steps[i]
       case HookLine(line) =>
         && Handler.Handle(line, HasRoom(before)) == (Some(Handler.Ok), Some(after.accepted[p].envelope))
         && after.accepted[p].origin.Live? && p !in after.acknowledged
       case ReplayLine(env) => HasRoom(before) && after.accepted[p] == Item(env, Replay)
       case _ => false
  }

  /** In every run each accepted item was put into the queue by one step, when the queue had room: that of
      the hook or the replay line that brought it. A hook's item was not acknowledged then, so whenever it
      is acknowledged, that is a later step. */
  lemma {:induction false} AcceptedWasEnqueued(capacity: nat, steps: seq<Step>, p: nat) returns (i: nat)
    requires IsRun(Initial(capacity), steps) && p < |Final(Initial(capacity), steps).accepted|
    ensures EnqueuedBy(capacity, steps, i, p)
  {
    var n := |steps| - 1;
    var before, d, after := steps[..n], Final(Initial(capacity), steps[..n]), Final(Initial(capacity), steps);
    RunsStayOrderly(capacity, before);
    AcceptedGrows(d, steps[n]);
    assert steps[..n + 1] == steps;
    if p < |d.accepted| {
      i := AcceptedWasEnqueued(capacity, before, p);
      assert before[..i] == steps[..i] && before[..i + 1] == steps[..i + 1];
    } else {
      i := n;
    }
  }

  lemma AcceptedGrows(d: Daemon, step: Step)
    requires Orderly(d) && Enabled(d, step)
    ensures d.accepted <= Next(d, step).accepted && |Next(d, step).accepted| <= |d.accepted| + 1
    ensures |Next(d, step).accepted| > |d.accepted| ==>
      var p := |d.accepted|;
      match step
      case HookLine(line) =>
        && Handler.Handle(line, HasRoom(d)) == (Some(Handler.Ok), Some(Next(d, step).accepted[p].envelope))
        && Next(d, step).accepted[p].origin.Live? && Next(d, step).acknowledged == d.acknowledged
      case ReplayLine(env) => HasRoom(d) && Next(d, step).accepted[p] == Item(env, Replay)
      case _ => false
  {
  }

  /** So a 200 written at step `j` answers a hook whose item an earlier step had queued. */
  lemma AnsweredAfterQueued(capacity: nat, steps: seq<Step>, j: nat) returns (i: nat)
    requires IsRun(Initial(capacity), steps) && j < |steps| && steps[j].AnswerHook?
    ensures i < j && steps[i].HookLine? && IsRun(Initial(capacity), steps[..j]) && EnqueuedBy(capacity, steps[..j], i, steps[j].position)
  {
    PrefixIsRun(capacity, steps, j);
    i := AcceptedWasEnqueued(capacity, steps[..j], steps[j].position);
    var p, d, after := steps[j].position, Final(Initial(capacity), steps[..j]), Final(Initial(capacity), steps[..j][..i + 1]);
    assert d.accepted[p] == after.accepted[p];
  }

  lemma {:induction false} PrefixIsRun(capacity: nat, steps: seq<Step>, j: nat)
    requires IsRun(Initial(capacity), steps) && j <= |steps|
    ensures IsRun(Initial(capacity), steps[..j])
    ensures j < |steps| ==> Enabled(Final(Initial(capacity), steps[..j]), steps[j])
  {
    var n := |steps| - 1;
    if j < |steps| {
      if j < n {
        PrefixIsRun(capacity, steps[..n], j);
        assert steps[..n][..j] == steps[..j];
      }
    } else {
      assert steps[..j] == steps;
    }
  }
}
