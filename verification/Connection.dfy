/** One WebSocket connection (`api/ws.rs`, `projection/snapshot.rs`): its subscriptions, the sessions
    it holds current, its delivery cursor and its lag-coalescing state. */
module Connection {
  import opened Protocol
  import opened StateMachine
  import opened Store
  import opened Topic
  import opened Hub

  /** What the client receives. */
  datatype Frame =
    | EventFrame(event: Event)
    | StateFrame(key: Key, state: SessionState)
    | DroppedFrame(count: int, first: int, last: int)
    | CloseFrame(code: int)

  const POLICY_VIOLATION := 1008

  /** `i64::saturating_add` of a non-negative amount. */
  function SaturatingAdd(a: int, b: nat): int {
    if a + b > I64_MAX then I64_MAX else a + b
  }

  function SaturatingAddU64(a: nat, b: nat): nat {
    if a + b > U64_MAX then U64_MAX else a + b
  }

  // ---- Lag coalescing ----

  /** The lag-recovery state. Times are readings of a monotonic clock. */
  datatype LagState = LagState(lastDroppedAt: Option<nat>, pendingCount: nat, pendingFirst: Option<int>)

  const NO_LAG := LagState(None, 0, None)

  datatype CoalesceDecision = Suppress | Emit(count: nat, first: int, last: int)

  function CursorToFirst(cursor: Option<int>): int {
    if cursor.Some? then SaturatingAdd(cursor.value, 1) else 0
  }

  predicate WithinWindow(lag: LagState, now: nat, window: nat) {
    lag.lastDroppedAt.Some? &&
    (if now < lag.lastDroppedAt.value then 0 else now - lag.lastDroppedAt.value) <= window
  }

  function EmittedFirst(lag: LagState, cursor: Option<int>): int {
    if lag.pendingFirst.Some? then lag.pendingFirst.value else CursorToFirst(cursor)
  }

  /** `coalesce_decision`: the decision, and the two fields it writes through. */
  function Coalesce(lag: LagState, cursor: Option<int>, n: nat, now: nat, window: nat): (CoalesceDecision, LagState) {
    if WithinWindow(lag, now, window) then
      (Suppress,
       lag.(pendingFirst := if lag.pendingCount == 0 then Some(CursorToFirst(cursor)) else lag.pendingFirst,
            pendingCount := SaturatingAddU64(lag.pendingCount, n)))
    else
      var count := SaturatingAddU64(lag.pendingCount, n);
      var first := EmittedFirst(lag, cursor);
      var offset := if count == 0 then 0 else if count - 1 > I64_MAX then I64_MAX else count - 1;
      (Emit(count, first, SaturatingAdd(first, offset)), lag)
  }

  /** `DroppedFrame::new`. */
  function NewDroppedFrame(count: nat, first: int, last: int): Option<Frame> {
    if count == 0 || first > last then None else Some(DroppedFrame(count, first, last))
  }

  /** The constructor's checks never fire on what the policy decides for a real lag. */
  lemma EmittedFrameIsAccepted(lag: LagState, cursor: Option<int>, n: nat, now: nat, window: nat)
    requires 1 <= n && lag.pendingCount <= U64_MAX
    requires EmittedFirst(lag, cursor) <= I64_MAX
    ensures var d := Coalesce(lag, cursor, n, now, window).0;
      d.Emit? ==> d.count >= 1 && NewDroppedFrame(d.count, d.first, d.last) == Some(DroppedFrame(d.count, d.first, d.last))
  {
  }

  // ---- The connection as a value ----

  datatype Conn = Conn(
    subscriptions: set<Topic>,
    snapshotted: set<Key>,
    next: nat,
    cursor: Option<int>,
    lag: LagState,
    wire: seq<Frame>)

  function Opened(next: nat): Conn {
    Conn({}, {}, next, None, NO_LAG, [])
  }

  function FrameOf(m: BroadcastEnvelope): Frame {
    match m
    case EventMessage(e) => EventFrame(e)
    case StateMessage(key, state) => StateFrame(key, state)
  }

  /** One envelope taken off the ring: sent if some subscription matches, and then an event moves
      the cursor while a state marks its session as current. */
  function Deliver(c: Conn, m: BroadcastEnvelope): Conn {
    if !AnyMatches(c.subscriptions, m) then c
    else
      var sent := c.(wire := c.wire + [FrameOf(m)]);
      match m
      case EventMessage(e) => sent.(cursor := Some(e.eventId))
      case StateMessage(key, _) => sent.(snapshotted := c.snapshotted + {key})
  }

  /** `emit_dropped_or_coalesce`. */
  function EmitOrCoalesce(c: Conn, n: nat, now: nat, window: nat): Conn {
    var (decision, lag) := Coalesce(c.lag, c.cursor, n, now, window);
    match decision
    case Suppress => c.(lag := lag)
    case Emit(count, first, last) =>
      var frame := NewDroppedFrame(count, first, last);
      if frame.None? then c.(lag := lag)
      else c.(lag := LagState(Some(now), 0, None), wire := c.wire + [frame.value])
  }

  /** A lag of `n` envelopes: ignored without subscriptions, otherwise everything held current is
      forgotten and the loss is reported or folded into a later report. */
  function LagBehind(c: Conn, n: nat, now: nat, window: nat): Conn {
    if c.subscriptions == {} then c
    else EmitOrCoalesce(c.(snapshotted := {}), n, now, window)
  }

  /** One receive. */
  function ReceiveOne(c: Conn, sent: seq<BroadcastEnvelope>, capacity: nat, now: nat, window: nat): Conn
    requires c.next <= |sent|
  {
    var (got, next) := TryRecv(sent, capacity, c.next);
    match got
    case Nothing => c
    case Lagged(n) => LagBehind(c, n, now, window).(next := next)
    case Got(m) => Deliver(c, m).(next := next)
  }

  lemma ReceiveOneMoves(c: Conn, sent: seq<BroadcastEnvelope>, capacity: nat, now: nat, window: nat)
    requires c.next <= |sent| && capacity > 0
    ensures var d := ReceiveOne(c, sent, capacity, now, window);
      d.next == TryRecv(sent, capacity, c.next).1 && d.subscriptions == c.subscriptions &&
      (c.next < |sent| ==> c.next < d.next)
  {
  }

  /** Receiving until nothing is left, with no publication meanwhile. */
  function Drain(c: Conn, sent: seq<BroadcastEnvelope>, capacity: nat, now: nat, window: nat): Conn
    requires c.next <= |sent| && capacity > 0
    decreases |sent| - c.next
  {
    if c.next == |sent| then c
    else
      ReceiveOneMoves(c, sent, capacity, now, window);
      Drain(ReceiveOne(c, sent, capacity, now, window), sent, capacity, now, window)
  }

  // ---- Snapshots ----

  /** `state_matches`: an empty filter lets everything through. */
  predicate PassesFilter(filter: seq<CurrentState>, derived: CurrentState) {
    filter == [] || derived in filter
  }

  /** A row the snapshot has to send. */
  predicate Wanted(row: ListedRow, topic: Topic, already: set<Key>, now: Millis, filter: seq<CurrentState>) {
    && row.key !in already
    && row.state.Some?
    && Matches(topic, StateMessage(row.key, row.state.value))
    && PassesFilter(filter, CurrentStateForRead(row.state.value, now))
  }

  function ReadDerived(row: ListedRow, now: Millis): Frame
    requires row.state.Some?
  {
    StateFrame(row.key, row.state.value.(currentState := CurrentStateForRead(row.state.value, now)))
  }

  /** `snapshot_for_topic`, given the rows its SELECT returned. */
  function SnapshotFrames(rows: seq<ListedRow>, topic: Topic, already: set<Key>, now: Millis,
                          filter: seq<CurrentState>): seq<Frame>
  {
    if !IsStateFamily(topic) || rows == [] then []
    else
      var before, row := SnapshotFrames(rows[..|rows| - 1], topic, already, now, filter), rows[|rows| - 1];
      if Wanted(row, topic, already, now, filter) then before + [ReadDerived(row, now)] else before
  }

  /** A row that has to go into a snapshot: not held current already, readable, of a session the topic is
      about, and read as one of the states asked for, if any are. */
  predicate HasToBeSent(row: ListedRow, topic: Topic, already: set<Key>, now: Millis, filter: seq<CurrentState>) {
    && row.key !in already && row.state.Some?
    && (topic == StateAll || topic == StateSession(row.key.sessionId) || topic == StateSessionCurrent(row.key.sessionId))
    && (filter == [] || exists i :: 0 <= i < |filter| && filter[i] == CurrentStateForRead(row.state.value, now))
  }

  lemma WantedIffHasToBeSent(row: ListedRow, topic: Topic, already: set<Key>, now: Millis, filter: seq<CurrentState>)
    ensures Wanted(row, topic, already, now, filter) <==> HasToBeSent(row, topic, already, now, filter)
  {
    if row.state.Some? { StateTopics(topic, row.key, row.state.value); }
  }

  /** The row as the client is sent it: its own state, but for the state word, which is the read-time one. */
  predicate IsFrameOfRow(f: Frame, row: ListedRow, now: Millis) {
    row.state.Some? && f == StateFrame(row.key, row.state.value.(currentState := CurrentStateForRead(row.state.value, now)))
  }

  /** The snapshot sends the read-derived state of every such row, in row order, and nothing else. */
  lemma {:induction false} SnapshotIsWantedRows(rows: seq<ListedRow>, topic: Topic, already: set<Key>, now: Millis,
                                                filter: seq<CurrentState>)
    returns (at: seq<nat>)
    ensures var frames := SnapshotFrames(rows, topic, already, now, filter);
      && |at| == |frames|
      && (forall i :: 0 <= i < |at| ==>
            at[i] < |rows| && HasToBeSent(rows[at[i]], topic, already, now, filter) && IsFrameOfRow(frames[i], rows[at[i]], now))
      && (forall i, j :: 0 <= i < j < |at| ==> at[i] < at[j])
      && (forall n :: 0 <= n < |rows| && HasToBeSent(rows[n], topic, already, now, filter) ==> n in at)
  {
    if rows == [] || !IsStateFamily(topic) {
      at := [];
    } else {
      var n := |rows| - 1;
      at := SnapshotIsWantedRows(rows[..n], topic, already, now, filter);
      assert forall i :: 0 <= i < |at| ==> rows[..n][at[i]] == rows[at[i]];
      WantedIffHasToBeSent(rows[n], topic, already, now, filter);
      if Wanted(rows[n], topic, already, now, filter) {
        ghost var was := at;
        at := at + [n];
        assert forall m :: m in was ==> m in at;
        assert at[|was|] == n;
      }
      forall m | 0 <= m < |rows| && HasToBeSent(rows[m], topic, already, now, filter) ensures m in at {
        if m < n { assert rows[..n][m] == rows[m]; }
      }
    }
  }

  /** A frame of the snapshot sent, and its session marked as current. */
  function SendSnapshotFrame(c: Conn, f: Frame): Conn
    requires f.StateFrame?
  {
    c.(wire := c.wire + [f], snapshotted := c.snapshotted + {f.key})
  }

  function SendSnapshot(c: Conn, frames: seq<Frame>): Conn
    requires forall i :: 0 <= i < |frames| ==> frames[i].StateFrame?
  {
    if frames == [] then c
    else SendSnapshotFrame(SendSnapshot(c, frames[..|frames| - 1]), frames[|frames| - 1])
  }

  lemma {:induction false} SnapshotFramesAreStates(rows: seq<ListedRow>, topic: Topic, already: set<Key>, now: Millis,
                                                   filter: seq<CurrentState>)
    ensures forall i :: 0 <= i < |SnapshotFrames(rows, topic, already, now, filter)| ==>
      SnapshotFrames(rows, topic, already, now, filter)[i].StateFrame?
  {
    if rows != [] { SnapshotFramesAreStates(rows[..|rows| - 1], topic, already, now, filter); }
  }

  /** The frames go out in order, and exactly their sessions become held current. */
  lemma {:induction false} SendSnapshotSends(c: Conn, frames: seq<Frame>)
    requires forall i :: 0 <= i < |frames| ==> frames[i].StateFrame?
    ensures var d := SendSnapshot(c, frames);
      && d == c.(wire := c.wire + frames, snapshotted := d.snapshotted)
      && (forall k :: k in d.snapshotted <==> k in c.snapshotted || exists f <- frames :: f.key == k)
  {
    if frames != [] {
      var init := frames[..|frames| - 1];
      SendSnapshotSends(c, init);
      assert frames == init + [frames[|frames| - 1]];
    } else {
      assert c.wire + frames == c.wire;
    }
  }

  /** A snapshot asked for again at once, under any topic and filter, repeats no session of the first. */
  lemma NoSessionIsSnapshottedTwice(c: Conn, rows: seq<ListedRow>, topic: Topic, at: Millis, filter: seq<CurrentState>,
                                    topic': Topic, filter': seq<CurrentState>)
    ensures var frames := SnapshotFrames(rows, topic, c.snapshotted, at, filter);
      && (forall i :: 0 <= i < |frames| ==> frames[i].StateFrame?)
      && var again := SnapshotFrames(rows, topic', SendSnapshot(c, frames).snapshotted, at, filter');
      && (forall f <- frames, g <- again :: g.StateFrame? && f.key != g.key)
  {
    SnapshotFramesAreStates(rows, topic, c.snapshotted, at, filter);
    var frames := SnapshotFrames(rows, topic, c.snapshotted, at, filter);
    SendSnapshotSends(c, frames);
    var from := SnapshotIsWantedRows(rows, topic', SendSnapshot(c, frames).snapshotted, at, filter');
  }

  /** An unsubscription, and the sessions no remaining subscription tracks forgotten. */
  function Unsubscribed(c: Conn, topic: Topic): Conn {
    var left := c.subscriptions - {topic};
    c.(subscriptions := left, snapshotted := set k | k in c.snapshotted && AnyCovers(left, k.sessionId))
  }

  // ---- Client messages ----

  /** An inbound text frame after decoding. Each element of `states` is a recognised token or not. */
  datatype ClientMessage =
    | Malformed
    | Subscribe(topic: string, states: seq<Option<CurrentState>>)
    | Unsubscribe(topic: string)

  function Tokens(states: seq<Option<CurrentState>>): Option<seq<CurrentState>> {
    if states == [] then Some([])
    else
      var before := Tokens(states[..|states| - 1]);
      if before.None? || states[|states| - 1].None? then None
      else Some(before.value + [states[|states| - 1].value])
  }

  /** A request the daemon acts on, after its checks; anything else closes the connection. */
  datatype Request = ToSubscribe(topic: Topic, filter: seq<CurrentState>) | ToUnsubscribe(topic: Topic)

  function Accept(m: ClientMessage): Option<Request> {
    match m
    case Malformed => None
    case Subscribe(text, states) =>
      var filter, topic := Tokens(states), Parse(text);
      if filter.None? || topic.None? then None
      else if filter.value != [] && !IsStateFamily(topic.value) then None
      else Some(ToSubscribe(topic.value, filter.value))
    case Unsubscribe(text) =>
      var topic := Parse(text);
      if topic.None? then None else Some(ToUnsubscribe(topic.value))
  }

  /** The filter is exactly the tokens given, if all of them are known. */
  lemma {:induction false} TokensIff(states: seq<Option<CurrentState>>, filter: seq<CurrentState>)
    ensures Tokens(states) == Some(filter) <==>
      |states| == |filter| && forall i :: 0 <= i < |states| ==> states[i] == Some(filter[i])
  {
    if states != [] && filter != [] {
      TokensIff(states[..|states| - 1], filter[..|filter| - 1]);
      assert filter == filter[..|filter| - 1] + [filter[|filter| - 1]];
    }
  }

  /** A subscription is acted on exactly when its topic is spelled right, every token is known, and a filter,
      which can only scope a snapshot, comes with a state topic alone. */
  lemma AcceptIffSpelled(text: string, states: seq<Option<CurrentState>>, topic: Topic, filter: seq<CurrentState>)
    ensures Accept(Subscribe(text, states)) == Some(ToSubscribe(topic, filter)) <==>
      && WellFormed(topic) && text == Render(topic)
      && |states| == |filter| && (forall i :: 0 <= i < |states| ==> states[i] == Some(filter[i]))
      && (filter == [] || topic.StateAll? || topic.StateSession? || topic.StateSessionCurrent?)
    ensures Accept(Unsubscribe(text)) == Some(ToUnsubscribe(topic)) <==> WellFormed(topic) && text == Render(topic)
    ensures Accept(Malformed) == None
  {
    if Parse(text).Some? { ParseIffSpelling(text, Parse(text).value); }
    ParseIffSpelling(text, topic);
    TokensIff(states, filter);
  }

  /** An unsubscription takes away the one topic, and forgets of the sessions held current exactly those that
      no remaining subscription is about. */
  lemma UnsubscribedIff(c: Conn, topic: Topic)
    ensures var d := Unsubscribed(c, topic);
      && (forall t: Topic :: t in d.subscriptions <==> t in c.subscriptions && t != topic)
      && (forall k: Key :: k in d.snapshotted <==>
            k in c.snapshotted &&
            (StateAll in d.subscriptions || StateSession(k.sessionId) in d.subscriptions || StateSessionCurrent(k.sessionId) in d.subscriptions))
      && d.wire == c.wire && d.next == c.next && d.cursor == c.cursor && d.lag == c.lag
  {
    var left := c.subscriptions - {topic};
    forall k: Key ensures AnyCovers(left, k.sessionId) <==>
      StateAll in left || StateSession(k.sessionId) in left || StateSessionCurrent(k.sessionId) in left
    {
      AnyCoversIff(left, k.sessionId);
    }
  }

  /** What answering a request does when nothing else happens meanwhile. `at` and `rows` are the
      clock reading and the rows the snapshot is built from; no rows when the read failed. */
  function Answer(c: Conn, r: Request, sent: seq<BroadcastEnvelope>, capacity: nat, now: nat, window: nat,
                  at: Millis, rows: seq<ListedRow>): Conn
    requires c.next <= |sent| && capacity > 0
  {
    var d := Drain(c, sent, capacity, now, window);
    match r
    case ToUnsubscribe(topic) => Unsubscribed(d, topic)
    case ToSubscribe(topic, filter) =>
      SnapshotFramesAreStates(rows, topic, d.snapshotted, at, filter);
      SendSnapshot(d.(subscriptions := d.subscriptions + {topic}),
                   SnapshotFrames(rows, topic, d.snapshotted, at, filter))
  }

  // ---- The connection as the daemon runs it ----

  class Connection {
    var subscriptions: set<Topic>
    var snapshotted: set<Key>
    var next: nat
    var cursor: Option<int>
    var lastDroppedAt: Option<nat>
    var pendingCount: nat
    var pendingFirst: Option<int>
    var wire: seq<Frame>
    const capacity: nat
    const window: nat

    function Abs(): Conn
      reads this
    {
      Conn(subscriptions, snapshotted, next, cursor, LagState(lastDroppedAt, pendingCount, pendingFirst), wire)
    }

    constructor (tail: nat, capacity: nat, window: nat)
      requires capacity > 0
      ensures Abs() == Opened(tail) && this.capacity == capacity && this.window == window
    {
      subscriptions, snapshotted, next, cursor := {}, {}, tail, None;
      lastDroppedAt, pendingCount, pendingFirst, wire := None, 0, None, [];
      this.capacity, this.window := capacity, window;
    }

    method CoalesceDecision(n: nat, now: nat) returns (d: CoalesceDecision)
      modifies this`pendingCount, this`pendingFirst
      ensures (d, Abs()) == (Coalesce(old(Abs()).lag, cursor, n, now, window).0,
                             old(Abs()).(lag := Coalesce(old(Abs()).lag, cursor, n, now, window).1))
    {
      var withinWindow := lastDroppedAt.Some? &&
        (if now < lastDroppedAt.value then 0 else now - lastDroppedAt.value) <= window;
      if withinWindow {
        if pendingCount == 0 {
          pendingFirst := Some(CursorToFirst(cursor));
        }
        pendingCount := SaturatingAddU64(pendingCount, n);
        return Suppress;
      }
      var count := SaturatingAddU64(pendingCount, n);
      var first := if pendingFirst.Some? then pendingFirst.value else CursorToFirst(cursor);
      var offset := if count == 0 then 0 else if count - 1 > I64_MAX then I64_MAX else count - 1;
      return Emit(count, first, SaturatingAdd(first, offset));
    }

    method EmitDroppedOrCoalesce(n: nat, now: nat)
      modifies this`lastDroppedAt, this`pendingCount, this`pendingFirst, this`wire
      ensures Abs() == EmitOrCoalesce(old(Abs()), n, now, window)
    {
      var decision := CoalesceDecision(n, now);
      if decision.Suppress? { return; }
      var frame := NewDroppedFrame(decision.count, decision.first, decision.last);
      if frame.None? { return; }
      wire := wire + [frame.value];
      lastDroppedAt := Some(now);
      pendingCount := 0;
      pendingFirst := None;
    }

    method DispatchEnvelope(m: BroadcastEnvelope) returns (sent: bool)
      modifies this`wire
      ensures sent <==> Reaches(subscriptions, m)
      ensures wire == old(wire) + if sent then [FrameOf(m)] else []
    {
      AnyMatchesIffReaches(subscriptions, m);
      if !AnyMatches(subscriptions, m) { return false; }
      wire := wire + [FrameOf(m)];
      return true;
    }

    /** The receive arm of the main loop. Returns whether there was anything to receive. */
    method Receive(ring: seq<BroadcastEnvelope>, now: nat) returns (any: bool)
      requires next <= |ring|
      modifies this
      ensures Abs() == ReceiveOne(old(Abs()), ring, capacity, now, window)
      ensures any <==> old(next) < |ring|
    {
      var (got, after) := TryRecv(ring, capacity, next);
      next := after;
      match got
      case Nothing => return false;
      case Lagged(n) =>
        if subscriptions == {} { return true; }
        snapshotted := {};
        EmitDroppedOrCoalesce(n, now);
        return true;
      case Got(m) =>
        var sent := DispatchEnvelope(m);
        AnyMatchesIffReaches(subscriptions, m);
        if sent {
          match m {
            case EventMessage(e) => cursor := Some(e.eventId);
            case StateMessage(key, _) => snapshotted := snapshotted + {key};
          }
        }
        return true;
    }

    method DrainBacklogUnderState(ring: seq<BroadcastEnvelope>, now: nat)
      requires next <= |ring| && capacity > 0
      modifies this
      ensures Abs() == Drain(old(Abs()), ring, capacity, now, window)
      ensures next == |ring|
    {
      var more := true;
      while more
        invariant next <= |ring|
        invariant Drain(Abs(), ring, capacity, now, window) == Drain(old(Abs()), ring, capacity, now, window)
        invariant !more ==> next == |ring|
        decreases |ring| - next, more
      {
        ReceiveOneMoves(Abs(), ring, capacity, now, window);
        more := Receive(ring, now);
      }
    }

    static method SnapshotForTopic(rows: seq<ListedRow>, topic: Topic, already: set<Key>, now: Millis,
                                   filter: seq<CurrentState>)
      returns (out: seq<Frame>)
      ensures out == SnapshotFrames(rows, topic, already, now, filter)
      ensures forall i :: 0 <= i < |out| ==> out[i].StateFrame?
    {
      out := [];
      if !IsStateFamily(topic) { return; }
      for n := 0 to |rows|
        invariant out == SnapshotFrames(rows[..n], topic, already, now, filter)
        invariant forall i :: 0 <= i < |out| ==> out[i].StateFrame?
      {
        assert rows[..n + 1][..n] == rows[..n];
        var row := rows[n];
        if row.key in already { continue; }
        if row.state.None? { continue; }
        var stored := row.state.value;
        if !Matches(topic, StateMessage(row.key, stored)) { continue; }
        var derived := CurrentStateForRead(stored, now);
        if !PassesFilter(filter, derived) { continue; }
        out := out + [StateFrame(row.key, stored.(currentState := derived))];
      }
      assert rows[..|rows|] == rows;
    }

    method SendSnapshotFrames(frames: seq<Frame>)
      requires forall i :: 0 <= i < |frames| ==> frames[i].StateFrame?
      modifies this`wire, this`snapshotted
      ensures Abs() == SendSnapshot(old(Abs()), frames)
    {
      for n := 0 to |frames|
        invariant Abs() == SendSnapshot(old(Abs()), frames[..n])
      {
        assert frames[..n + 1][..n] == frames[..n];
        snapshotted := snapshotted + {frames[n].key};
        wire := wire + [frames[n]];
      }
      assert frames[..|frames|] == frames;
    }

    /** One inbound frame. Returns whether the connection stays open. */
    method HandleTextFrame(m: ClientMessage, ring: seq<BroadcastEnvelope>, now: nat, at: Millis, rows: seq<ListedRow>)
      returns (open: bool)
      requires next <= |ring| && capacity > 0
      modifies this
      ensures open <==> Accept(m).Some?
      ensures open ==> Abs() == Answer(old(Abs()), Accept(m).value, ring, capacity, now, window, at, rows)
      ensures !open ==> Abs() == old(Abs()).(wire := old(wire) + [CloseFrame(1008)])
    {
      match m
      case Malformed =>
        wire := wire + [CloseFrame(POLICY_VIOLATION)];
        return false;
      case Subscribe(text, states) =>
        var filter, topic := Tokens(states), Parse(text);
        if filter.None? || topic.None? || (filter.value != [] && !IsStateFamily(topic.value)) {
          wire := wire + [CloseFrame(POLICY_VIOLATION)];
          return false;
        }
        DrainBacklogUnderState(ring, now);
        var frames := SnapshotForTopic(rows, topic.value, snapshotted, at, filter.value);
        subscriptions := subscriptions + {topic.value};
        SendSnapshotFrames(frames);
        return true;
      case Unsubscribe(text) =>
        var topic := Parse(text);
        if topic.None? {
          wire := wire + [CloseFrame(POLICY_VIOLATION)];
          return false;
        }
        DrainBacklogUnderState(ring, now);
        subscriptions := subscriptions - {topic.value};
        snapshotted := set k | k in snapshotted && AnyCovers(subscriptions, k.sessionId);
        return true;
    }
  }
}
