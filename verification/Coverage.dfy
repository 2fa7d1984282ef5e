/** A connection next to the running daemon: every interleaving of commits, publications, receives
    and requests. What a connection believes it holds current is never stale. */
module Coverage {
  import opened Protocol
  import opened StateMachine
  import opened Projection
  import opened Store
  import opened DaemonRuns
  import opened GatedStream
  import opened Topic
  import opened Hub
  import opened Connection
  import History

  /** Where the connection task stands inside a request. */
  datatype Phase =
    | Serving
    | Draining(request: Request)
    | Reading(topic: Topic, filter: seq<CurrentState>, at: Millis)
    | Emitting(frames: seq<Frame>)

  datatype World = World(d: Daemon, c: Conn, phase: Phase, capacity: nat, window: nat)

  datatype WorldStep =
    | DaemonStep(step: Step)
    | Receives(now: nat)
    | Begins(request: Request)
    | Drains(now: nat)
    | Drained(clockReadable: bool)
    | ReadsRows(rows: seq<ListedRow>)
    | ReadFails
    | EmitsNext
    | Finishes

  ghost predicate CanStep(w: World, s: WorldStep) {
    match s
    case DaemonStep(step) => Enabled(w.d, step)
    case Receives(_) => w.phase.Serving? && w.c.next < |w.d.hub|
    case Begins(_) => w.phase.Serving?
    case Drains(_) => w.phase.Draining? && w.c.next < |w.d.hub|
    case Drained(_) => w.phase.Draining? && w.c.next == |w.d.hub|
    case ReadsRows(rows) => w.phase.Reading? && Lists(rows, w.d.db.table)
    case ReadFails => w.phase.Reading?
    case EmitsNext => w.phase.Emitting? && w.phase.frames != [] && w.phase.frames[0].StateFrame?
    case Finishes => w.phase.Emitting? && w.phase.frames == []
  }

  ghost function Steps(w: World, s: WorldStep): World
    requires CanStep(w, s)
  {
    match s
    case DaemonStep(step) => w.(d := After(w.d, step))
    case Receives(now) => w.(c := ReceiveOne(w.c, w.d.hub, w.capacity, now, w.window))
    case Begins(request) => w.(phase := Draining(request))
    case Drains(now) => w.(c := ReceiveOne(w.c, w.d.hub, w.capacity, now, w.window))
    case Drained(clockReadable) => (
      match w.phase.request
      case ToUnsubscribe(topic) => w.(c := Unsubscribed(w.c, topic), phase := Serving)
      // An unreadable clock counts as time zero.
      case ToSubscribe(topic, filter) =>
        w.(phase := Reading(topic, filter, if clockReadable then w.d.clock else 0)))
    case ReadsRows(rows) =>
      w.(c := w.c.(subscriptions := w.c.subscriptions + {w.phase.topic}),
         phase := Emitting(SnapshotFrames(rows, w.phase.topic, w.c.snapshotted, w.phase.at, w.phase.filter)))
    case ReadFails =>
      w.(c := w.c.(subscriptions := w.c.subscriptions + {w.phase.topic}), phase := Emitting([]))
    case EmitsNext => w.(c := SendSnapshotFrame(w.c, w.phase.frames[0]), phase := Emitting(w.phase.frames[1..]))
    case Finishes => w.(phase := Serving)
  }

  /** A connection is opened at the tail of the stream, at any moment of the daemon's life. */
  ghost predicate Opening(w: World, base: nat) {
    InStep(w.d, base) && 0 <= w.d.clock && w.capacity >= MIN_CAPACITY && w.c == Opened(|w.d.hub|) && w.phase.Serving?
  }

  ghost predicate IsWorldRun(w: World, steps: seq<WorldStep>)
    decreases |steps|, 0
  {
    steps == [] ||
    (IsWorldRun(w, steps[..|steps| - 1]) && CanStep(WorldAfter(w, steps[..|steps| - 1]), steps[|steps| - 1]))
  }

  ghost function WorldAfter(w: World, steps: seq<WorldStep>): World
    requires IsWorldRun(w, steps)
    decreases |steps|, 1
  {
    if steps == [] then w else Steps(WorldAfter(w, steps[..|steps| - 1]), steps[|steps| - 1])
  }

  // ---- What the client shows ----

  /** The last state the client received for a session. */
  function LastShown(wire: seq<Frame>, key: Key): Option<CurrentState> {
    if wire == [] then None
    else
      var f := wire[|wire| - 1];
      if f.StateFrame? && f.key == key then Some(f.state.currentState) else LastShown(wire[..|wire| - 1], key)
  }

  /** Everything committed and published or about to be, in order. */
  function Stream(d: Daemon): seq<BroadcastEnvelope> {
    d.hub + d.inflight
  }

  /** What lies after this connection's position in the stream: what it will be offered as long as the
      ring still holds it, and what its daemon is about to publish. */
  function Pending(w: World): seq<BroadcastEnvelope>
    requires w.c.next <= |w.d.hub|
  {
    Stream(w.d)[w.c.next..]
  }

  /** Showing `view` now and applying what is pending leads to the stored state, or to its read-time
      reading. */
  ghost predicate Current(d: Daemon, pending: seq<BroadcastEnvelope>, view: Option<CurrentState>, key: Key) {
    var stored, shown := StoredState(d.db.table, key), ViewAfter(view, pending, key);
    stored.Some? && shown.Some? &&
    (shown.value == stored.value.currentState || shown.value == CurrentStateForRead(stored.value, d.clock))
  }

  ghost predicate Covered(w: World) {
    && w.c.next <= |w.d.hub|
    && (w.phase.Reading? ==> w.phase.at <= w.d.clock)
    && (forall k :: k in w.c.snapshotted ==> AnyCovers(w.c.subscriptions, k.sessionId))
    && (forall k :: k in w.c.snapshotted && k != SENTINEL_KEY ==>
          Current(w.d, Pending(w), LastShown(w.c.wire, k), k))
    && (w.phase.Emitting? ==> forall i :: 0 <= i < |w.phase.frames| ==>
          var f := w.phase.frames[i];
          f.StateFrame? && AnyCovers(w.c.subscriptions, f.key.sessionId) &&
          (f.key != SENTINEL_KEY ==> Current(w.d, Pending(w), Some(f.state.currentState), f.key)))
  }

  // ---- Daemon steps keep every view current ----

  lemma TickKeepsCurrent(d: Daemon, now: Millis, pending: seq<BroadcastEnvelope>, view: Option<CurrentState>, key: Key)
    requires d.clock <= now && Current(d, pending, view, key)
    ensures Current(d.(clock := now), pending, view, key)
  {
    var stored := StoredState(d.db.table, key).value;
    if CurrentStateForRead(stored, d.clock) != stored.currentState {
      StaleStaysStale(stored, d.clock, now);
    }
  }

  lemma CommitKeepsCurrent(d: Daemon, w: Option<GuardedWrite>, attempt: Attempt, pending: seq<BroadcastEnvelope>,
                           view: Option<CurrentState>, key: Key)
    requires d.inflight == [] && Current(d, pending, view, key)
    requires attempt.At? ==> attempt.now == d.clock
    requires w.Some? ==> WellTyped(w.value.env)
    ensures var e := Commits(d, w, attempt);
      Current(e, pending + e.inflight, view, key)
  {
    var e := Commits(d, w, attempt);
    if w.None? || e.db == d.db {
      assert pending + e.inflight == pending;
    } else {
      var env := w.value.env;
      var prev := StoredState(d.db.table, env.key);
      var event := EventOf(env, |d.db.log| + 1, attempt.now);
      var next := History.Apply(prev, event);
      assert e.inflight == Announce(prev, next, event);
      ViewAfterAppend(view, pending, e.inflight, key);
      ViewAfterAnnounce(ViewAfter(view, pending, key), prev, next, event, key);
      if key == env.key {
        QuietCommitChangesNothingShown(ViewAfter(view, pending, key).value, prev.value, event, d.clock);
      }
    }
  }

  /** What a daemon step adds to the stream; everything a connection holds current stays so. */
  lemma DaemonStepKeepsCurrent(d: Daemon, step: Step, pending: seq<BroadcastEnvelope>, view: Option<CurrentState>, key: Key)
    requires Enabled(d, step) && Current(d, pending, view, key) && key != SENTINEL_KEY
    ensures Stream(d) <= Stream(After(d, step)) && |d.hub| <= |After(d, step).hub|
    ensures Current(After(d, step), pending + Stream(After(d, step))[|Stream(d)|..], view, key)
  {
    var e := After(d, step);
    match step
    case Tick(now) =>
      TickKeepsCurrent(d, now, pending, view, key);
      assert pending + Stream(e)[|Stream(d)|..] == pending;
    case PublishNext =>
      assert Stream(e) == Stream(d);
      assert pending + Stream(e)[|Stream(d)|..] == pending;
    case Primary(env, _) =>
      CommitKeepsCurrent(d, Some(GuardedWrite(env, None)), At(d.clock), pending, view, key);
      assert Stream(e)[|Stream(d)|..] == e.inflight;
    case SupersedeNext(commits) =>
      CommitKeepsCurrent(d, SupersedeWrite(d.ingest.rows[0], d.ingest.successor, d.ingest.pid, d.ingest.observedAt),
                         Attempted(d, commits), pending, view, key);
      assert Stream(e)[|Stream(d)|..] == e.inflight;
    case ProbeNext(signalable, commits) =>
      CommitKeepsCurrent(d, ProbeWrite(d.probe.rows[0], signalable, d.probe.observedAt), Attempted(d, commits), pending, view, key);
      assert Stream(e)[|Stream(d)|..] == e.inflight;
    case _ => assert pending + Stream(e)[|Stream(d)|..] == pending;
  }

  lemma StreamOnlyGrows(d: Daemon, step: Step)
    requires Enabled(d, step)
    ensures Stream(d) <= Stream(After(d, step)) && |d.hub| <= |After(d, step).hub|
    ensures d.clock <= After(d, step).clock
  {
    if step.PublishNext? { assert Stream(After(d, step)) == Stream(d); }
  }

  lemma DaemonStepKeepsCovered(w: World, step: Step)
    requires Covered(w) && Enabled(w.d, step)
    ensures Covered(w.(d := After(w.d, step)))
  {
    var v := w.(d := After(w.d, step));
    StreamOnlyGrows(w.d, step);
    assert Pending(v) == Pending(w) + Stream(v.d)[|Stream(w.d)|..];
    forall k | k in w.c.snapshotted && k != SENTINEL_KEY
      ensures Current(v.d, Pending(v), LastShown(v.c.wire, k), k)
    {
      DaemonStepKeepsCurrent(w.d, step, Pending(w), LastShown(w.c.wire, k), k);
    }
    if w.phase.Emitting? {
      forall i | 0 <= i < |w.phase.frames| && w.phase.frames[i].key != SENTINEL_KEY
        ensures Current(v.d, Pending(v), Some(w.phase.frames[i].state.currentState), w.phase.frames[i].key)
      {
        var f := w.phase.frames[i];
        DaemonStepKeepsCurrent(w.d, step, Pending(w), Some(f.state.currentState), f.key);
      }
    }
  }

  // ---- Connection steps ----

  /** A pending state for a session makes any view of it current: it ends at the stored state. */
  lemma PendingStateDecides(d: Daemon, base: nat, from: nat, view: Option<CurrentState>, key: Key)
    requires InStep(d, base) && from <= |Stream(d)| && key != SENTINEL_KEY
    requires MentionsState(Stream(d)[from..], key)
    ensures StoredState(d.db.table, key).Some?
    ensures ViewAfter(view, Stream(d)[from..], key) == Some(StoredState(d.db.table, key).value.currentState)
  {
    LastPublishedStateIsStored(d.db.log, base, key);
    var before := Stream(d)[..from];
    assert before + Stream(d)[from..] == Stream(d);
    ViewAfterAppend(None, before, Stream(d)[from..], key);
    ViewDependsOnLastState(view, ViewAfter(None, before, key), Stream(d)[from..], key);
    ViewDependsOnLastState(ViewAfter(None, before, key), view, Stream(d)[from..], key);
  }

  lemma LastShownSnoc(wire: seq<Frame>, f: Frame, key: Key)
    ensures LastShown(wire + [f], key) ==
      if f.StateFrame? && f.key == key then Some(f.state.currentState) else LastShown(wire, key)
  {
    assert (wire + [f])[..|wire|] == wire;
  }

  lemma ViewAfterCons(view: Option<CurrentState>, m: BroadcastEnvelope, rest: seq<BroadcastEnvelope>, key: Key)
    ensures ViewAfter(view, [m] + rest, key) ==
      ViewAfter(if m.StateMessage? && m.key == key then Some(m.state.currentState) else view, rest, key)
  {
    ViewAfterAppend(view, [m], rest, key);
    assert [m][..0] == [];
    assert ViewAfter(view, [], key) == view;
  }

  lemma DeliverKeepsCovered(w: World, base: nat)
    requires InStep(w.d, base) && Covered(w) && !w.phase.Emitting? && w.c.next < |w.d.hub|
    ensures Covered(w.(c := Deliver(w.c, w.d.hub[w.c.next]).(next := w.c.next + 1)))
  {
    var m := w.d.hub[w.c.next];
    var v := w.(c := Deliver(w.c, m).(next := w.c.next + 1));
    assert Pending(w) == [m] + Pending(v);
    if m.StateMessage? { CoverageIsStateDelivery(w.c.subscriptions, m.key, m.state); }
    forall k | k in v.c.snapshotted && k != SENTINEL_KEY
      ensures Current(v.d, Pending(v), LastShown(v.c.wire, k), k)
    {
      LastShownSnoc(w.c.wire, FrameOf(m), k);
      ViewAfterCons(LastShown(w.c.wire, k), m, Pending(v), k);
      if k !in w.c.snapshotted {
        assert Pending(w)[0] == m;
        PendingStateDecides(w.d, base, w.c.next, LastShown(w.c.wire, k), k);
      }
    }
  }

  lemma LagKeepsCovered(w: World, n: nat, now: nat, next: nat)
    requires Covered(w) && !w.phase.Emitting? && next <= |w.d.hub|
    ensures Covered(w.(c := LagBehind(w.c, n, now, w.window).(next := next)))
  {
    if w.c.subscriptions == {} {
      forall k ensures k !in w.c.snapshotted {}
    }
  }

  lemma ReceiveKeepsCovered(w: World, now: nat, base: nat)
    requires InStep(w.d, base) && Covered(w) && !w.phase.Emitting? && w.c.next < |w.d.hub|
    ensures Covered(w.(c := ReceiveOne(w.c, w.d.hub, w.capacity, now, w.window)))
  {
    var (got, next) := TryRecv(w.d.hub, w.capacity, w.c.next);
    if got.Lagged? {
      LagKeepsCovered(w, got.missed, now, next);
    } else {
      DeliverKeepsCovered(w, base);
    }
  }

  lemma UnsubscribeKeepsCovered(w: World, topic: Topic)
    requires Covered(w) && !w.phase.Emitting?
    ensures Covered(w.(c := Unsubscribed(w.c, topic), phase := Serving))
  {
  }

  /** A row as the snapshot reads it is a current view of its session. */
  lemma SnapshotRowIsCurrent(w: World, base: nat, row: ListedRow, at: Millis)
    requires InStep(w.d, base) && w.c.next <= |w.d.hub| && row.key != SENTINEL_KEY
    requires row.state.Some? && StoredState(w.d.db.table, row.key) == row.state && at <= w.d.clock
    ensures Current(w.d, Pending(w), Some(CurrentStateForRead(row.state.value, at)), row.key)
  {
    var view := Some(CurrentStateForRead(row.state.value, at));
    if MentionsState(Pending(w), row.key) {
      PendingStateDecides(w.d, base, w.c.next, view, row.key);
    } else {
      ViewDependsOnLastState(view, None, Pending(w), row.key);
      if view.value != row.state.value.currentState {
        StaleStaysStale(row.state.value, at, w.d.clock);
      }
    }
  }

  lemma SnapshotKeepsCovered(w: World, base: nat, rows: seq<ListedRow>)
    requires InStep(w.d, base) && Covered(w) && CanStep(w, ReadsRows(rows))
    ensures Covered(Steps(w, ReadsRows(rows)))
  {
    var v := Steps(w, ReadsRows(rows));
    var topic, at, filter := w.phase.topic, w.phase.at, w.phase.filter;
    forall k | k in w.c.snapshotted ensures AnyCovers(v.c.subscriptions, k.sessionId) {
      var t :| t in w.c.subscriptions && Covers(t, k.sessionId);
      assert t in v.c.subscriptions;
    }
    if IsStateFamily(topic) {
      var from := SnapshotIsWantedRows(rows, topic, w.c.snapshotted, at, filter);
      forall i | 0 <= i < |v.phase.frames|
        ensures var f := v.phase.frames[i];
          f.StateFrame? && AnyCovers(v.c.subscriptions, f.key.sessionId) &&
          (f.key != SENTINEL_KEY ==> Current(v.d, Pending(v), Some(f.state.currentState), f.key))
      {
        var row := rows[from[i]];
        CoverageIsStateDelivery({topic}, row.key, row.state.value);
        assert topic in {topic} && Matches(topic, StateMessage(row.key, row.state.value));
        assert topic in v.c.subscriptions;
        if row.key != SENTINEL_KEY { SnapshotRowIsCurrent(w, base, row, at); }
      }
    }
  }

  lemma EmitKeepsCovered(w: World)
    requires Covered(w) && CanStep(w, EmitsNext)
    ensures Covered(Steps(w, EmitsNext))
  {
    var v, f := Steps(w, EmitsNext), w.phase.frames[0];
    forall k | k in v.c.snapshotted && k != SENTINEL_KEY
      ensures Current(v.d, Pending(v), LastShown(v.c.wire, k), k)
    {
      LastShownSnoc(w.c.wire, f, k);
    }
  }

  lemma StepKeepsCovered(w: World, s: WorldStep, base: nat)
    requires InStep(w.d, base) && 0 <= w.d.clock && Covered(w) && CanStep(w, s)
    ensures Covered(Steps(w, s))
  {
    match s
    case DaemonStep(step) => DaemonStepKeepsCovered(w, step);
    case Receives(now) => ReceiveKeepsCovered(w, now, base);
    case Drains(now) => ReceiveKeepsCovered(w, now, base);
    case Drained(_) =>
      if w.phase.request.ToUnsubscribe? { UnsubscribeKeepsCovered(w, w.phase.request.topic); }
    case ReadsRows(rows) => SnapshotKeepsCovered(w, base, rows);
    case ReadFails =>
      forall k | k in w.c.snapshotted ensures AnyCovers(w.c.subscriptions + {w.phase.topic}, k.sessionId) {
        var t :| t in w.c.subscriptions && Covers(t, k.sessionId);
        assert t in w.c.subscriptions + {w.phase.topic};
      }
    case EmitsNext => EmitKeepsCovered(w);
    case _ =>
  }

  lemma {:induction false} RunsStayCovered(w: World, steps: seq<WorldStep>, base: nat)
    requires Opening(w, base) && IsWorldRun(w, steps)
    ensures InStep(WorldAfter(w, steps).d, base) && 0 <= WorldAfter(w, steps).d.clock
    ensures Covered(WorldAfter(w, steps))
  {
    if steps != [] {
      var before, s := steps[..|steps| - 1], steps[|steps| - 1];
      RunsStayCovered(w, before, base);
      StepKeepsCovered(WorldAfter(w, before), s, base);
      if s.DaemonStep? {
        StepKeepsInStep(WorldAfter(w, before).d, s.step, base);
        StreamOnlyGrows(WorldAfter(w, before).d, s.step);
      }
    }
  }

  // ---- What draining brings, and what an eviction takes ----

  /** The ring has evicted something this connection has not read. */
  predicate EvictionOutstanding(w: World) {
    |w.d.hub| - w.c.next > w.capacity
  }

  /** The frames of a stretch of the stream that the subscriptions want. */
  function WantedOf(subscriptions: set<Topic>, stream: seq<BroadcastEnvelope>): seq<Frame> {
    if stream == [] then []
    else
      var before, m := WantedOf(subscriptions, stream[..|stream| - 1]), stream[|stream| - 1];
      if Reaches(subscriptions, m) then before + [FrameOf(m)] else before
  }

  lemma {:induction false} WantedOfCons(subscriptions: set<Topic>, m: BroadcastEnvelope, rest: seq<BroadcastEnvelope>)
    ensures WantedOf(subscriptions, [m] + rest) ==
      (if Reaches(subscriptions, m) then [FrameOf(m)] else []) + WantedOf(subscriptions, rest)
  {
    var all := [m] + rest;
    if rest == [] {
      assert all[..0] == [] && all[0] == m;
    } else {
      assert all[..|all| - 1] == [m] + rest[..|rest| - 1];
      WantedOfCons(subscriptions, m, rest[..|rest| - 1]);
    }
  }

  /** With nothing evicted, draining puts exactly the wanted frames after the position on the wire, in
      order, and what is held current grows by exactly the sessions whose state went out. */
  lemma {:induction false} DrainDelivers(c: Conn, sent: seq<BroadcastEnvelope>, capacity: nat, now: nat, window: nat)
    requires c.next <= |sent| && capacity > 0 && |sent| - c.next <= capacity
    ensures var d := Drain(c, sent, capacity, now, window);
      && d.next == |sent| && d.subscriptions == c.subscriptions
      && d.wire == c.wire + WantedOf(c.subscriptions, sent[c.next..])
      && (forall k :: k in d.snapshotted <==> k in c.snapshotted || Shows(WantedOf(c.subscriptions, sent[c.next..]), k))
    decreases |sent| - c.next
  {
    if c.next == |sent| {
      assert sent[c.next..] == [];
    } else {
      var m, e := sent[c.next], ReceiveOne(c, sent, capacity, now, window);
      AnyMatchesIffReaches(c.subscriptions, m);
      DrainDelivers(e, sent, capacity, now, window);
      assert sent[c.next..] == [m] + sent[c.next + 1..];
      WantedOfCons(c.subscriptions, m, sent[c.next + 1..]);
    }
  }

  /** Some frame tells a state of the session. */
  predicate Shows(frames: seq<Frame>, key: Key) {
    exists f <- frames :: f.StateFrame? && f.key == key
  }

  /** A session whose state went out while draining is left out of the snapshot that follows, and no other
      session is left out that was not held current before. */
  lemma DrainedStatesAreNotRepeated(c: Conn, sent: seq<BroadcastEnvelope>, capacity: nat, now: nat, window: nat,
                                    rows: seq<ListedRow>, topic: Topic, at: Millis, row: ListedRow)
    requires c.next <= |sent| && capacity > 0 && |sent| - c.next <= capacity
    requires row in rows && HasToBeSent(row, topic, {}, at, [])
    ensures var d := Drain(c, sent, capacity, now, window);
      && c.wire <= d.wire
      && (Shows(SnapshotFrames(rows, topic, d.snapshotted, at, []), row.key) <==>
          row.key !in c.snapshotted && !Shows(d.wire[|c.wire|..], row.key))
  {
    var d := Drain(c, sent, capacity, now, window);
    DrainDelivers(c, sent, capacity, now, window);
    assert d.wire[|c.wire|..] == WantedOf(c.subscriptions, sent[c.next..]);
    var frames := SnapshotFrames(rows, topic, d.snapshotted, at, []);
    var from := SnapshotIsWantedRows(rows, topic, d.snapshotted, at, []);
    var n :| 0 <= n < |rows| && rows[n] == row;
    if row.key !in d.snapshotted {
      assert HasToBeSent(rows[n], topic, d.snapshotted, at, []);
      var i :| 0 <= i < |from| && from[i] == n;
      assert frames[i].StateFrame? && frames[i].key == row.key;
    }
  }

  /** So an event goes out if and only if it is there and one of its three topics is subscribed. */
  lemma {:induction false} WantedEvents(subscriptions: set<Topic>, stream: seq<BroadcastEnvelope>, e: Event)
    ensures EventFrame(e) in WantedOf(subscriptions, stream) <==>
      EventMessage(e) in stream &&
      (EventsAll in subscriptions || EventsBySource(e.key.source) in subscriptions ||
       EventsBySourceSession(e.key.source, e.key.sessionId) in subscriptions)
  {
    if stream != [] {
      var before, m := stream[..|stream| - 1], stream[|stream| - 1];
      WantedEvents(subscriptions, before, e);
      assert stream == before + [m];
    }
  }

  /** And a state if and only if it is there and one of the three topics of its session is. */
  lemma {:induction false} WantedStates(subscriptions: set<Topic>, stream: seq<BroadcastEnvelope>, key: Key, state: SessionState)
    ensures StateFrame(key, state) in WantedOf(subscriptions, stream) <==>
      StateMessage(key, state) in stream &&
      (StateAll in subscriptions || StateSession(key.sessionId) in subscriptions ||
       StateSessionCurrent(key.sessionId) in subscriptions)
  {
    if stream != [] {
      var before, m := stream[..|stream| - 1], stream[|stream| - 1];
      WantedStates(subscriptions, before, key, state);
      assert stream == before + [m];
    }
  }

  /** For a covered session those frames lead the client where the stream leads. */
  lemma {:induction false} WantedShowsView(subscriptions: set<Topic>, wire: seq<Frame>, stream: seq<BroadcastEnvelope>, key: Key)
    requires AnyCovers(subscriptions, key.sessionId)
    ensures LastShown(wire + WantedOf(subscriptions, stream), key) == ViewAfter(LastShown(wire, key), stream, key)
  {
    if stream == [] {
      assert wire + [] == wire;
    } else {
      var before, m := stream[..|stream| - 1], stream[|stream| - 1];
      WantedShowsView(subscriptions, wire, before, key);
      if m.StateMessage? { CoverageIsStateDelivery(subscriptions, m.key, m.state); }
      AnyMatchesIffReaches(subscriptions, m);
      var frames := WantedOf(subscriptions, before);
      if Reaches(subscriptions, m) {
        assert wire + (frames + [FrameOf(m)]) == wire + frames + [FrameOf(m)];
        LastShownSnoc(wire + frames, FrameOf(m), key);
      }
    }
  }

  /** With an eviction outstanding, the next receive tells the client nothing of any session's state, and
      leaves nothing held current. */
  lemma EvictionClearsCoverage(c: Conn, sent: seq<BroadcastEnvelope>, capacity: nat, now: nat, window: nat, key: Key)
    requires c.next <= |sent| && |sent| - c.next > capacity && c.subscriptions != {}
    ensures var d := ReceiveOne(c, sent, capacity, now, window);
      d.next == |sent| - capacity && d.snapshotted == {} && LastShown(d.wire, key) == LastShown(c.wire, key)
  {
    var d := ReceiveOne(c, sent, capacity, now, window);
    if d.wire != c.wire {
      var f := d.wire[|c.wire|];
      assert d.wire == c.wire + [f] && f.DroppedFrame?;
      LastShownSnoc(c.wire, f, key);
    }
  }

  /** Draining then shows the client what the ring still holds, and no more. */
  lemma DrainAfterEviction(c: Conn, sent: seq<BroadcastEnvelope>, capacity: nat, now: nat, window: nat, key: Key)
    requires c.next <= |sent| && 0 < capacity < |sent| - c.next && AnyCovers(c.subscriptions, key.sessionId)
    ensures LastShown(Drain(c, sent, capacity, now, window).wire, key)
         == ViewAfter(LastShown(c.wire, key), sent[|sent| - capacity..], key)
  {
    var e := ReceiveOne(c, sent, capacity, now, window);
    EvictionClearsCoverage(c, sent, capacity, now, window, key);
    DrainDelivers(e, sent, capacity, now, window);
    WantedShowsView(e.subscriptions, e.wire, sent[|sent| - capacity..], key);
  }

  lemma {:induction false} CapacityStays(w: World, steps: seq<WorldStep>)
    requires IsWorldRun(w, steps)
    ensures WorldAfter(w, steps).capacity == w.capacity
  {
    if steps != [] { CapacityStays(w, steps[..|steps| - 1]); }
  }

  // ---- Snapshot coverage is sound ----

  /** The client shows the session's stored state, or its read-time reading. */
  predicate ShowsCurrent(d: Daemon, shown: Option<CurrentState>, key: Key) {
    var stored := StoredState(d.db.table, key);
    stored.Some? && (shown == Some(stored.value.currentState) || shown == Some(CurrentStateForRead(stored.value, d.clock)))
  }

  /** What it is worth that the connection holds a session current. It is tracked by an active
      subscription. If the ring still holds everything unread, draining and then applying what is in
      flight leaves the client showing the stored state or its read-time reading, and exactly the stored
      state if any state of the session was among that. If something was evicted, the next receive
      forgets that the session was held current, so that no later snapshot skips it; until then the
      client ends at the stored state if the ring still holds a state of the session, and otherwise
      stays with what it shows. */
  ghost predicate SkipIsSound(v: World, key: Key, now: nat) {
    && v.capacity > 0 && v.c.next <= |v.d.hub| && AnyCovers(v.c.subscriptions, key.sessionId)
    && StoredState(v.d.db.table, key).Some?
    && var stored, drained := StoredState(v.d.db.table, key).value, Drain(v.c, v.d.hub, v.capacity, now, v.window);
    var shown := ViewAfter(LastShown(drained.wire, key), v.d.inflight, key);
    if EvictionOutstanding(v)
    then
      var held := v.d.hub[|v.d.hub| - v.capacity..] + v.d.inflight;
      && ReceiveOne(v.c, v.d.hub, v.capacity, now, v.window).snapshotted == {}
      && shown == if MentionsState(held, key) then Some(stored.currentState) else LastShown(v.c.wire, key)
    else
      && drained.wire == v.c.wire + WantedOf(v.c.subscriptions, v.d.hub[v.c.next..])
      && key in drained.snapshotted && ShowsCurrent(v.d, shown, key)
      && (MentionsState(Pending(v), key) ==> shown == Some(stored.currentState))
  }

  /** In every reachable state, a session the connection would skip in a snapshot is soundly skipped. */
  lemma SkippedSessionsAreCurrent(w: World, steps: seq<WorldStep>, base: nat, key: Key, now: nat)
    requires Opening(w, base) && IsWorldRun(w, steps) && key != SENTINEL_KEY
    requires key in WorldAfter(w, steps).c.snapshotted
    ensures SkipIsSound(WorldAfter(w, steps), key, now)
  {
    RunsStayCovered(w, steps, base);
    CapacityStays(w, steps);
    CoveredSkipIsSound(WorldAfter(w, steps), base, key, now);
  }

  lemma CoveredSkipIsSound(v: World, base: nat, key: Key, now: nat)
    requires InStep(v.d, base) && Covered(v) && v.capacity > 0 && key in v.c.snapshotted && key != SENTINEL_KEY
    ensures SkipIsSound(v, key, now)
  {
    assert Current(v.d, Pending(v), LastShown(v.c.wire, key), key);
    if EvictionOutstanding(v) {
      EvictionClearsCoverage(v.c, v.d.hub, v.capacity, now, v.window, key);
      EvictedViewIsWhatIsHeld(v, base, key, now);
    } else {
      DrainDelivers(v.c, v.d.hub, v.capacity, now, v.window);
      DrainedViewIsCurrent(v, base, key);
    }
  }

  lemma EvictedViewIsWhatIsHeld(v: World, base: nat, key: Key, now: nat)
    requires InStep(v.d, base) && Covered(v) && key in v.c.snapshotted && key != SENTINEL_KEY
    requires v.capacity > 0 && EvictionOutstanding(v) && StoredState(v.d.db.table, key).Some?
    ensures var held := v.d.hub[|v.d.hub| - v.capacity..] + v.d.inflight;
      ViewAfter(LastShown(Drain(v.c, v.d.hub, v.capacity, now, v.window).wire, key), v.d.inflight, key)
      == if MentionsState(held, key) then Some(StoredState(v.d.db.table, key).value.currentState) else LastShown(v.c.wire, key)
  {
    var shown, from := LastShown(v.c.wire, key), |v.d.hub| - v.capacity;
    var held := v.d.hub[from..] + v.d.inflight;
    DrainAfterEviction(v.c, v.d.hub, v.capacity, now, v.window, key);
    ViewAfterAppend(shown, v.d.hub[from..], v.d.inflight, key);
    assert held == Stream(v.d)[from..];
    if MentionsState(held, key) {
      PendingStateDecides(v.d, base, from, shown, key);
    } else {
      ViewDependsOnLastState(shown, None, held, key);
    }
  }

  lemma DrainedViewIsCurrent(v: World, base: nat, key: Key)
    requires InStep(v.d, base) && Covered(v) && key in v.c.snapshotted && key != SENTINEL_KEY
    ensures var shown := ViewAfter(LastShown(v.c.wire + WantedOf(v.c.subscriptions, v.d.hub[v.c.next..]), key), v.d.inflight, key);
      && ShowsCurrent(v.d, shown, key)
      && (MentionsState(Pending(v), key) ==> shown == Some(StoredState(v.d.db.table, key).value.currentState))
  {
    var shown, unread := LastShown(v.c.wire, key), v.d.hub[v.c.next..];
    WantedShowsView(v.c.subscriptions, v.c.wire, unread, key);
    assert Pending(v) == unread + v.d.inflight;
    ViewAfterAppend(shown, unread, v.d.inflight, key);
    assert Current(v.d, Pending(v), shown, key);
    if MentionsState(Pending(v), key) {
      PendingStateDecides(v.d, base, v.c.next, shown, key);
    }
  }

  /** A connection that has read everything, while nothing is in flight, holds nothing current that it
      does not show as it is. */
  lemma CaughtUpSessionsAreCurrent(w: World, steps: seq<WorldStep>, base: nat, key: Key)
    requires Opening(w, base) && IsWorldRun(w, steps) && key != SENTINEL_KEY
    requires key in WorldAfter(w, steps).c.snapshotted
    requires WorldAfter(w, steps).c.next == |WorldAfter(w, steps).d.hub| && WorldAfter(w, steps).d.inflight == []
    ensures ShowsCurrent(WorldAfter(w, steps).d, LastShown(WorldAfter(w, steps).c.wire, key), key)
  {
    RunsStayCovered(w, steps, base);
    var v := WorldAfter(w, steps);
    assert Pending(v) == [];
    assert Current(v.d, Pending(v), LastShown(v.c.wire, key), key);
  }

  /** An unfiltered subscription to every session leaves out nothing: each readable row is in the
      snapshot, as read now, or was already current on the connection. */
  lemma WildcardSnapshotIsComplete(rows: seq<ListedRow>, already: set<Key>, at: Millis, row: ListedRow)
    requires row in rows && row.state.Some?
    ensures row.key in already || exists f <- SnapshotFrames(rows, StateAll, already, at, []) :: IsFrameOfRow(f, row, at)
  {
    if row.key !in already {
      var from := SnapshotIsWantedRows(rows, StateAll, already, at, []);
      var n :| 0 <= n < |rows| && rows[n] == row;
      assert HasToBeSent(rows[n], StateAll, already, at, []);
      var i :| 0 <= i < |from| && from[i] == n;
      assert IsFrameOfRow(SnapshotFrames(rows, StateAll, already, at, [])[i], row, at);
    }
  }

  // ---- A request is its steps with nothing in between ----

  lemma WorldSnoc(w: World, steps: seq<WorldStep>, s: WorldStep)
    requires IsWorldRun(w, steps) && CanStep(WorldAfter(w, steps), s)
    ensures IsWorldRun(w, steps + [s]) && WorldAfter(w, steps + [s]) == Steps(WorldAfter(w, steps), s)
  {
    assert (steps + [s])[..|steps|] == steps;
  }

  lemma {:induction false} DrainIsARun(w: World, steps: seq<WorldStep>, now: nat) returns (all: seq<WorldStep>)
    requires IsWorldRun(w, steps)
    requires var m := WorldAfter(w, steps); m.phase.Draining? && m.c.next <= |m.d.hub| && m.capacity > 0
    ensures IsWorldRun(w, all)
    ensures var m := WorldAfter(w, steps); WorldAfter(w, all) == m.(c := Drain(m.c, m.d.hub, m.capacity, now, m.window))
    decreases |WorldAfter(w, steps).d.hub| - WorldAfter(w, steps).c.next
  {
    var m := WorldAfter(w, steps);
    all := steps;
    if m.c.next < |m.d.hub| {
      WorldSnoc(w, steps, Drains(now));
      ReceiveOneMoves(m.c, m.d.hub, m.capacity, now, m.window);
      all := DrainIsARun(w, steps + [Drains(now)], now);
    }
  }

  lemma {:induction false} SendSnapshotFromFront(c: Conn, frames: seq<Frame>)
    requires frames != [] && forall i :: 0 <= i < |frames| ==> frames[i].StateFrame?
    ensures SendSnapshot(c, frames) == SendSnapshot(SendSnapshotFrame(c, frames[0]), frames[1..])
  {
    var init := frames[..|frames| - 1];
    if init != [] {
      SendSnapshotFromFront(c, init);
      assert frames[1..][..|frames| - 2] == init[1..] && init[0] == frames[0];
    } else {
      assert frames[1..] == [];
    }
  }

  lemma {:induction false} EmissionIsARun(w: World, steps: seq<WorldStep>) returns (all: seq<WorldStep>)
    requires IsWorldRun(w, steps)
    requires var m := WorldAfter(w, steps);
      m.phase.Emitting? && forall i :: 0 <= i < |m.phase.frames| ==> m.phase.frames[i].StateFrame?
    ensures IsWorldRun(w, all)
    ensures var m := WorldAfter(w, steps); WorldAfter(w, all) == m.(c := SendSnapshot(m.c, m.phase.frames), phase := Serving)
    decreases |WorldAfter(w, steps).phase.frames|
  {
    var m := WorldAfter(w, steps);
    if m.phase.frames == [] {
      WorldSnoc(w, steps, Finishes);
      all := steps + [Finishes];
    } else {
      WorldSnoc(w, steps, EmitsNext);
      SendSnapshotFromFront(m.c, m.phase.frames);
      all := EmissionIsARun(w, steps + [EmitsNext]);
    }
  }

  /** What the connection does on a request, when the daemon stands still: the drain, the snapshot of the rows
      listed (or none, when the read fails), the subscription and the frames, or the drain and the
      unsubscription, as steps of a run. */
  lemma AnswerIsARun(w: World, request: Request, now: nat, clockReadable: bool, rows: Option<seq<ListedRow>>)
    returns (all: seq<WorldStep>)
    requires w.phase.Serving? && w.c.next <= |w.d.hub| && w.capacity > 0
    requires rows.Some? ==> Lists(rows.value, w.d.db.table)
    ensures IsWorldRun(w, all)
    ensures WorldAfter(w, all) == w.(c := Answer(w.c, request, w.d.hub, w.capacity, now, w.window,
      if clockReadable then w.d.clock else 0, if rows.Some? then rows.value else []))
  {
    WorldSnoc(w, [], Begins(request));
    all := DrainIsARun(w, [] + [Begins(request)], now);
    DrainEndsAtTail(w.c, w.d.hub, w.capacity, now, w.window);
    var drained := WorldAfter(w, all);
    WorldSnoc(w, all, Drained(clockReadable));
    all := all + [Drained(clockReadable)];
    if request.ToSubscribe? {
      var at: Millis := if clockReadable then w.d.clock else 0;
      var listed := if rows.Some? then rows.value else [];
      SnapshotFramesAreStates(listed, request.topic, drained.c.snapshotted, at, request.filter);
      var read := if rows.Some? then ReadsRows(listed) else ReadFails;
      WorldSnoc(w, all, read);
      all := EmissionIsARun(w, all + [read]);
    }
  }

  lemma {:induction false} DrainEndsAtTail(c: Conn, sent: seq<BroadcastEnvelope>, capacity: nat, now: nat, window: nat)
    requires c.next <= |sent| && capacity > 0
    ensures Drain(c, sent, capacity, now, window).next == |sent|
    decreases |sent| - c.next
  {
    if c.next < |sent| {
      ReceiveOneMoves(c, sent, capacity, now, window);
      DrainEndsAtTail(ReceiveOne(c, sent, capacity, now, window), sent, capacity, now, window);
    }
  }
}
