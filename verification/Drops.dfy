/** What a connection says about messages it lost: the accounting behind `Dropped` frames over whole
    runs of one connection. */
module Drops {
  import opened Protocol
  import opened Topic
  import opened Hub
  import opened Connection

  /** What became of one position of the ring that the connection has passed. */
  datatype Fate = Sent | Filtered | Lost | LostUnheard

  /** A `Dropped` frame, with the time it was sent and the ring positions folded into its count. */
  datatype Emission = Emission(at: nat, count: nat, first: int, last: int, positions: seq<nat>)

  /** A connection with its history: the ring so far, where the connection joined it, the fate of every
      position passed since, the positions lost but not reported yet, and the reports. */
  datatype Ledger = Ledger(
    ring: seq<BroadcastEnvelope>,
    c: Conn,
    start: nat,
    fates: seq<Fate>,
    unreported: seq<nat>,
    emissions: seq<Emission>,
    clock: nat)

  /** Publications, receives at non-decreasing times, and whatever requests do to the subscriptions
      and to the sessions held current, with the snapshot frames they send. */
  datatype LedgerStep =
    | Publishes(m: BroadcastEnvelope)
    | Takes(now: nat)
    | Reconfigures(subscriptions: set<Topic>, snapshotted: set<Key>, snapshot: seq<Frame>)

  /** Events enter the ring with increasing positive ids. */
  ghost predicate FreshId(ring: seq<BroadcastEnvelope>, m: BroadcastEnvelope) {
    m.EventMessage? ==>
      0 < m.event.eventId <= I64_MAX &&
      forall i :: 0 <= i < |ring| && ring[i].EventMessage? ==> ring[i].event.eventId < m.event.eventId
  }

  ghost predicate CanTake(l: Ledger, s: LedgerStep, capacity: nat) {
    match s
    case Publishes(m) => FreshId(l.ring, m)
    case Takes(now) => l.c.next < |l.ring| && l.clock <= now
    case Reconfigures(_, _, snapshot) => forall i :: 0 <= i < |snapshot| ==> snapshot[i].StateFrame?
  }

  function Range(from: nat, to: nat): seq<nat>
    requires from <= to
  {
    seq(to - from, i requires 0 <= i => from + i)
  }

  function Repeated(f: Fate, n: nat): seq<Fate> {
    seq(n, i => f)
  }

  /** A lag: every position skipped is lost; with subscriptions it is reported or kept for later. */
  function LagLedger(l: Ledger, n: nat, next: nat, now: nat, window: nat): Ledger
    requires l.c.next <= next
  {
    var c := LagBehind(l.c, n, now, window).(next := next);
    var moved := l.(c := c, clock := now);
    if l.c.subscriptions == {} then
      moved.(fates := l.fates + Repeated(LostUnheard, next - l.c.next))
    else
      var folded := l.unreported + Range(l.c.next, next);
      var (decision, _) := Coalesce(l.c.lag, l.c.cursor, n, now, window);
      var counted := moved.(fates := l.fates + Repeated(Lost, next - l.c.next));
      match decision
      case Suppress => counted.(unreported := folded)
      case Emit(count, first, last) =>
        counted.(unreported := [], emissions := l.emissions + [Emission(now, count, first, last, folded)])
  }

  function TakeStep(l: Ledger, s: LedgerStep, capacity: nat, window: nat): Ledger
    requires l.c.next <= |l.ring|
  {
    match s
    case Publishes(m) => l.(ring := l.ring + [m])
    case Reconfigures(subscriptions, snapshotted, snapshot) =>
      l.(c := l.c.(subscriptions := subscriptions, snapshotted := snapshotted, wire := l.c.wire + snapshot))
    case Takes(now) =>
      var (got, next) := TryRecv(l.ring, capacity, l.c.next);
      match got
      case Nothing => l.(clock := now)
      case Got(m) =>
        l.(c := Deliver(l.c, m).(next := next), clock := now,
           fates := l.fates + [if Reaches(l.c.subscriptions, m) then Sent else Filtered])
      case Lagged(n) => LagLedger(l, n, next, now, window)
  }

  /** The history is only bookkeeping: the connection itself takes the daemon's step. */
  lemma LedgerFollowsConnection(l: Ledger, now: nat, capacity: nat, window: nat)
    requires l.c.next <= |l.ring|
    ensures TakeStep(l, Takes(now), capacity, window).c == ReceiveOne(l.c, l.ring, capacity, now, window)
  {
  }

  ghost predicate IsLedgerRun(l: Ledger, steps: seq<LedgerStep>, capacity: nat, window: nat)
    decreases |steps|, 0
  {
    steps == [] ||
    (IsLedgerRun(l, steps[..|steps| - 1], capacity, window) &&
     var m := LedgerAfter(l, steps[..|steps| - 1], capacity, window);
     m.c.next <= |m.ring| && CanTake(m, steps[|steps| - 1], capacity))
  }

  ghost function LedgerAfter(l: Ledger, steps: seq<LedgerStep>, capacity: nat, window: nat): Ledger
    requires IsLedgerRun(l, steps, capacity, window)
    decreases |steps|, 1
  {
    if steps == [] then l
    else TakeStep(LedgerAfter(l, steps[..|steps| - 1], capacity, window), steps[|steps| - 1], capacity, window)
  }

  /** A connection that has just joined the ring. */
  ghost predicate Joined(l: Ledger) {
    && l.c == Opened(|l.ring|) && l.start == |l.ring| && l.fates == [] && l.unreported == [] && l.emissions == []
    && IdsIncrease(l.ring)
  }

  ghost predicate IdsIncrease(ring: seq<BroadcastEnvelope>) {
    && (forall i :: 0 <= i < |ring| && ring[i].EventMessage? ==> 0 < ring[i].event.eventId <= I64_MAX)
    && (forall i, j :: 0 <= i < j < |ring| && ring[i].EventMessage? && ring[j].EventMessage? ==>
          ring[i].event.eventId < ring[j].event.eventId)
  }

  // ---- Lower bound ----

  /** Every event at these positions has an id of at least `first`. */
  ghost predicate AtLeast(ring: seq<BroadcastEnvelope>, positions: seq<nat>, first: int) {
    forall i :: 0 <= i < |positions| ==>
      positions[i] < |ring| && (ring[positions[i]].EventMessage? ==> ring[positions[i]].event.eventId >= first)
  }

  ghost predicate FromNextAtLeast(ring: seq<BroadcastEnvelope>, next: nat, first: int) {
    forall p :: next <= p < |ring| && ring[p].EventMessage? ==> ring[p].event.eventId >= first
  }

  ghost predicate Bounded(l: Ledger) {
    && l.c.next <= |l.ring|
    && IdsIncrease(l.ring)
    && (l.c.cursor.Some? ==>
          l.c.cursor.value <= I64_MAX &&
          exists p :: 0 <= p < l.c.next && l.ring[p].EventMessage? && l.ring[p].event.eventId == l.c.cursor.value)
    && l.c.lag.pendingCount <= U64_MAX
    && (l.c.lag.pendingCount == 0 <==> l.unreported == [])
    && (l.c.lag.pendingFirst.Some? <==> l.c.lag.pendingCount > 0)
    && (l.c.lag.pendingFirst.Some? ==>
          && l.c.lag.pendingFirst.value <= I64_MAX
          && AtLeast(l.ring, l.unreported, l.c.lag.pendingFirst.value)
          // What is published later has a larger id than anything now in the ring, so this survives.
          && BelowEverythingFrom(l.ring, l.c.next, l.c.lag.pendingFirst.value))
    && (forall i :: 0 <= i < |l.emissions| ==> AtLeast(l.ring, l.emissions[i].positions, l.emissions[i].first))
  }

  /** `first` is at most one more than some id already in the ring before `next`, or zero. */
  ghost predicate BelowEverythingFrom(ring: seq<BroadcastEnvelope>, next: nat, first: int) {
    first == 0 ||
    exists p :: 0 <= p < next && p < |ring| && ring[p].EventMessage? && first <= ring[p].event.eventId + 1
  }

  lemma BelowMeansAtLeast(ring: seq<BroadcastEnvelope>, next: nat, first: int)
    requires IdsIncrease(ring) && BelowEverythingFrom(ring, next, first)
    ensures FromNextAtLeast(ring, next, first)
  {
  }

  lemma CursorIsBelow(l: Ledger)
    requires Bounded(l)
    ensures BelowEverythingFrom(l.ring, l.c.next, CursorToFirst(l.c.cursor)) && CursorToFirst(l.c.cursor) <= I64_MAX
  {
  }

  lemma AtLeastAppend(ring: seq<BroadcastEnvelope>, a: seq<nat>, from: nat, to: nat, first: int)
    requires AtLeast(ring, a, first) && FromNextAtLeast(ring, from, first) && from <= to <= |ring|
    ensures AtLeast(ring, a + Range(from, to), first)
  {
  }

  lemma AtLeastGrows(ring: seq<BroadcastEnvelope>, m: BroadcastEnvelope, positions: seq<nat>, first: int)
    requires AtLeast(ring, positions, first)
    ensures AtLeast(ring + [m], positions, first)
  {
  }

  lemma PublishKeepsBounded(l: Ledger, m: BroadcastEnvelope)
    requires Bounded(l) && FreshId(l.ring, m)
    ensures Bounded(l.(ring := l.ring + [m]))
  {
    var ring := l.ring + [m];
    if l.c.lag.pendingFirst.Some? {
      AtLeastGrows(l.ring, m, l.unreported, l.c.lag.pendingFirst.value);
      if l.c.lag.pendingFirst.value != 0 {
        var p :| 0 <= p < l.c.next && p < |l.ring| && l.ring[p].EventMessage? &&
          l.c.lag.pendingFirst.value <= l.ring[p].event.eventId + 1;
        assert ring[p] == l.ring[p];
      }
    }
    if l.c.cursor.Some? {
      var p :| 0 <= p < l.c.next && l.ring[p].EventMessage? && l.ring[p].event.eventId == l.c.cursor.value;
      assert ring[p] == l.ring[p];
    }
    forall i | 0 <= i < |l.emissions| ensures AtLeast(ring, l.emissions[i].positions, l.emissions[i].first) {
      AtLeastGrows(l.ring, m, l.emissions[i].positions, l.emissions[i].first);
    }
  }

  lemma LagKeepsBounded(l: Ledger, n: nat, next: nat, now: nat, window: nat)
    requires Bounded(l) && l.c.next < next <= |l.ring| && n == next - l.c.next
    ensures Bounded(LagLedger(l, n, next, now, window))
  {
    var m := LagLedger(l, n, next, now, window);
    CursorIsBelow(l);
    if l.c.subscriptions != {} {
      var first := EmittedFirst(l.c.lag, l.c.cursor);
      BelowMeansAtLeast(l.ring, l.c.next, first);
      AtLeastAppend(l.ring, l.unreported, l.c.next, next, first);
      EmittedFrameIsAccepted(l.c.lag, l.c.cursor, n, now, window);
      assert Range(l.c.next, next)[0] == l.c.next;
    }
  }

  lemma TakeKeepsBounded(l: Ledger, s: LedgerStep, capacity: nat, window: nat)
    requires Bounded(l) && CanTake(l, s, capacity)
    ensures Bounded(TakeStep(l, s, capacity, window))
  {
    match s
    case Publishes(m) => PublishKeepsBounded(l, m);
    case Reconfigures(_, _, _) =>
    case Takes(now) =>
      var (got, next) := TryRecv(l.ring, capacity, l.c.next);
      match got {
        case Lagged(n) => LagKeepsBounded(l, n, next, now, window);
        case Got(m) =>
        case Nothing =>
      }
  }

  lemma {:induction false} RunsStayBounded(l: Ledger, steps: seq<LedgerStep>, capacity: nat, window: nat)
    requires Joined(l) && IsLedgerRun(l, steps, capacity, window)
    ensures Bounded(LedgerAfter(l, steps, capacity, window))
  {
    if steps != [] {
      RunsStayBounded(l, steps[..|steps| - 1], capacity, window);
      TakeKeepsBounded(LedgerAfter(l, steps[..|steps| - 1], capacity, window), steps[|steps| - 1], capacity, window);
    }
  }

  /** No report ever names a first lost event beyond one it stands for, even when deliveries moved the
      cursor between a loss and its report. */
  lemma ReportsBoundTheirLossesFromBelow(l: Ledger, steps: seq<LedgerStep>, capacity: nat, window: nat)
    requires Joined(l) && IsLedgerRun(l, steps, capacity, window)
    ensures var end := LedgerAfter(l, steps, capacity, window);
      forall i, j :: 0 <= i < |end.emissions| && 0 <= j < |end.emissions[i].positions| ==>
        var p := end.emissions[i].positions[j];
        p < |end.ring| && (end.ring[p].EventMessage? ==> end.ring[p].event.eventId >= end.emissions[i].first)
  {
    RunsStayBounded(l, steps, capacity, window);
    var end := LedgerAfter(l, steps, capacity, window);
    forall i, j | 0 <= i < |end.emissions| && 0 <= j < |end.emissions[i].positions|
      ensures var p := end.emissions[i].positions[j];
        p < |end.ring| && (end.ring[p].EventMessage? ==> end.ring[p].event.eventId >= end.emissions[i].first)
    {
      assert AtLeast(end.ring, end.emissions[i].positions, end.emissions[i].first);
    }
  }

  // ---- Conservation ----

  function CountFate(fates: seq<Fate>, f: Fate): nat {
    if fates == [] then 0 else CountFate(fates[..|fates| - 1], f) + if fates[|fates| - 1] == f then 1 else 0
  }

  function Reported(emissions: seq<Emission>): nat {
    if emissions == [] then 0 else Reported(emissions[..|emissions| - 1]) + emissions[|emissions| - 1].count
  }

  /** The frames of the ring positions that were sent, in ring order. */
  function SentFrames(ring: seq<BroadcastEnvelope>, start: nat, fates: seq<Fate>): seq<Frame>
    requires start + |fates| <= |ring|
  {
    if fates == [] then []
    else
      var before := SentFrames(ring, start, fates[..|fates| - 1]);
      if fates[|fates| - 1].Sent? then before + [FrameOf(ring[start + |fates| - 1])] else before
  }

  /** The `Dropped` frames on the wire. */
  function DroppedFrames(wire: seq<Frame>): seq<Frame> {
    if wire == [] then []
    else
      var before, f := DroppedFrames(wire[..|wire| - 1]), wire[|wire| - 1];
      if f.DroppedFrame? then before + [f] else before
  }

  /** The event frames on the wire. */
  function EventFrames(wire: seq<Frame>): seq<Frame> {
    if wire == [] then []
    else
      var before, f := EventFrames(wire[..|wire| - 1]), wire[|wire| - 1];
      if f.EventFrame? then before + [f] else before
  }

  function FrameOfEmission(e: Emission): Frame {
    DroppedFrame(e.count, e.first, e.last)
  }

  ghost predicate Accounted(l: Ledger) {
    && l.start + |l.fates| == l.c.next <= |l.ring|
    && |DroppedFrames(l.c.wire)| == |l.emissions|
    && (forall i :: 0 <= i < |l.emissions| ==> DroppedFrames(l.c.wire)[i] == FrameOfEmission(l.emissions[i]))
    && EventFrames(l.c.wire) == EventFrames(SentFrames(l.ring, l.start, l.fates))
  }

  /** A count in a 64-bit saturating counter. */
  function Capped(n: nat): nat {
    if n > U64_MAX then U64_MAX else n
  }

  /** The ring positions lost under a subscription, in order. */
  function LostPositions(start: nat, fates: seq<Fate>): seq<nat> {
    if fates == [] then []
    else
      var before := LostPositions(start, fates[..|fates| - 1]);
      if fates[|fates| - 1].Lost? then before + [start + |fates| - 1] else before
  }

  function ReportedPositions(emissions: seq<Emission>): seq<nat> {
    if emissions == [] then []
    else ReportedPositions(emissions[..|emissions| - 1]) + emissions[|emissions| - 1].positions
  }

  /** Every lost position is in exactly one report or still unreported, in order, and every count is
      the number of positions it stands for. */
  ghost predicate Itemised(l: Ledger) {
    && ReportedPositions(l.emissions) + l.unreported == LostPositions(l.start, l.fates)
    && (forall i :: 0 <= i < |l.emissions| ==> l.emissions[i].count == Capped(|l.emissions[i].positions|))
    && l.c.lag.pendingCount == Capped(|l.unreported|)
  }

  lemma {:induction false} LostAppend(start: nat, fates: seq<Fate>, more: seq<Fate>)
    ensures LostPositions(start, fates + more) == LostPositions(start, fates) + LostPositions(start + |fates|, more)
  {
    if more == [] {
      assert fates + more == fates;
    } else {
      var init := more[..|more| - 1];
      LostAppend(start, fates, init);
      assert (fates + more)[..|fates| + |init|] == fates + init;
    }
  }

  lemma {:induction false} LostBurst(start: nat, f: Fate, n: nat)
    ensures LostPositions(start, Repeated(f, n)) == if f.Lost? then Range(start, start + n) else []
  {
    if n > 0 {
      LostBurst(start, f, n - 1);
      assert Repeated(f, n)[..n - 1] == Repeated(f, n - 1);
      RangeSnoc(start, start + n - 1);
    }
  }

  lemma LostRepeated(start: nat, fates: seq<Fate>, f: Fate, n: nat)
    ensures LostPositions(start, fates + Repeated(f, n)) ==
      LostPositions(start, fates) + if f.Lost? then Range(start + |fates|, start + |fates| + n) else []
  {
    LostAppend(start, fates, Repeated(f, n));
    LostBurst(start + |fates|, f, n);
  }

  lemma RangeSnoc(from: nat, to: nat)
    requires from <= to
    ensures Range(from, to + 1) == Range(from, to) + [to]
  {
  }

  lemma ReportedPositionsSnoc(emissions: seq<Emission>, e: Emission)
    ensures ReportedPositions(emissions + [e]) == ReportedPositions(emissions) + e.positions
  {
    assert (emissions + [e])[..|emissions|] == emissions;
  }

  /** Folding a burst into the pending count keeps it the capped number of unreported positions. */
  lemma FoldingCaps(pending: seq<nat>, burst: seq<nat>)
    ensures SaturatingAddU64(Capped(|pending|), |burst|) == Capped(|pending + burst|)
  {
  }

  lemma ItemiseBurst(emissions: seq<Emission>, unreported: seq<nat>, lost: seq<nat>, burst: seq<nat>, e: Emission)
    requires ReportedPositions(emissions) + unreported == lost && e.positions == unreported + burst
    ensures ReportedPositions(emissions) + (unreported + burst) == lost + burst
    ensures ReportedPositions(emissions + [e]) + [] == lost + burst
  {
    ReportedPositionsSnoc(emissions, e);
  }

  /** What a lag under a subscription leaves in the books. */
  lemma HeardLagEffect(l: Ledger, n: nat, next: nat, now: nat, window: nat)
    requires Bounded(l) && l.c.subscriptions != {} && l.c.next <= next && 1 <= n
    ensures var t := LagLedger(l, n, next, now, window);
      var d := Coalesce(l.c.lag, l.c.cursor, n, now, window).0;
      var folded := l.unreported + Range(l.c.next, next);
      && t.start == l.start && t.fates == l.fates + Repeated(Lost, next - l.c.next)
      && (d.Suppress? ==>
            t.unreported == folded && t.emissions == l.emissions &&
            t.c.lag.pendingCount == SaturatingAddU64(l.c.lag.pendingCount, n))
      && (d.Emit? ==>
            t.unreported == [] && t.c.lag.pendingCount == 0 &&
            d.count == SaturatingAddU64(l.c.lag.pendingCount, n) &&
            t.emissions == l.emissions + [Emission(now, d.count, d.first, d.last, folded)])
  {
    CursorIsBelow(l);
    EmittedFrameIsAccepted(l.c.lag, l.c.cursor, n, now, window);
  }

  lemma HeardLagIsItemised(l: Ledger, t: Ledger, burst: seq<nat>, e: Emission)
    requires Itemised(l)
    requires LostPositions(t.start, t.fates) == LostPositions(l.start, l.fates) + burst
    requires e.positions == l.unreported + burst && e.count == SaturatingAddU64(l.c.lag.pendingCount, |burst|)
    requires
      || (t.unreported == l.unreported + burst && t.emissions == l.emissions && t.c.lag.pendingCount == e.count)
      || (t.unreported == [] && t.emissions == l.emissions + [e] && t.c.lag.pendingCount == 0)
    ensures Itemised(t)
  {
    FoldingCaps(l.unreported, burst);
    ItemiseBurst(l.emissions, l.unreported, LostPositions(l.start, l.fates), burst, e);
  }

  lemma LagKeepsItemised(l: Ledger, n: nat, next: nat, now: nat, window: nat)
    requires Itemised(l) && Bounded(l) && l.start + |l.fates| == l.c.next
    requires l.c.next < next && n == next - l.c.next
    ensures Itemised(LagLedger(l, n, next, now, window))
  {
    if l.c.subscriptions == {} {
      LostRepeated(l.start, l.fates, LostUnheard, n);
    } else {
      LostRepeated(l.start, l.fates, Lost, n);
      HeardLagEffect(l, n, next, now, window);
      var t := LagLedger(l, n, next, now, window);
      var burst := Range(l.c.next, next);
      var count := SaturatingAddU64(l.c.lag.pendingCount, n);
      var e := if |t.emissions| > |l.emissions| then t.emissions[|l.emissions|]
               else Emission(now, count, 0, 0, l.unreported + burst);
      HeardLagIsItemised(l, t, burst, e);
    }
  }

  lemma TakeKeepsItemised(l: Ledger, s: LedgerStep, capacity: nat, window: nat)
    requires Itemised(l) && Bounded(l) && CanTake(l, s, capacity)
    requires l.start + |l.fates| == l.c.next
    ensures Itemised(TakeStep(l, s, capacity, window))
  {
    if s.Takes? {
      var (got, next) := TryRecv(l.ring, capacity, l.c.next);
      if got.Lagged? {
        LagKeepsItemised(l, got.missed, next, s.now, window);
      } else {
        var fate := if Reaches(l.c.subscriptions, got.message) then Sent else Filtered;
        LostRepeated(l.start, l.fates, fate, 1);
        assert Repeated(fate, 1) == [fate];
      }
    }
  }

  lemma {:induction false} LostPositionsCount(start: nat, fates: seq<Fate>)
    ensures |LostPositions(start, fates)| == CountFate(fates, Lost)
  {
    if fates != [] { LostPositionsCount(start, fates[..|fates| - 1]); }
  }

  /** No report stands for more positions than a 64-bit counter can count. */
  ghost predicate ReportsFit(emissions: seq<Emission>) {
    forall i :: 0 <= i < |emissions| ==> |emissions[i].positions| <= U64_MAX
  }

  lemma {:induction false} ReportedCount(emissions: seq<Emission>)
    requires forall i :: 0 <= i < |emissions| ==> emissions[i].count == Capped(|emissions[i].positions|)
    ensures Reported(emissions) <= |ReportedPositions(emissions)|
    ensures Reported(emissions) == |ReportedPositions(emissions)| <==> ReportsFit(emissions)
  {
    if emissions != [] {
      var before, last := emissions[..|emissions| - 1], emissions[|emissions| - 1];
      ReportedCount(before);
      assert forall i :: 0 <= i < |before| ==> before[i] == emissions[i];
      assert ReportsFit(emissions) <==> ReportsFit(before) && |last.positions| <= U64_MAX;
    }
  }

  lemma SentRepeated(ring: seq<BroadcastEnvelope>, start: nat, fates: seq<Fate>, f: Fate, n: nat)
    requires start + |fates| + n <= |ring| && !f.Sent?
    ensures SentFrames(ring, start, fates + Repeated(f, n)) == SentFrames(ring, start, fates)
    decreases n
  {
    if n == 0 {
      assert fates + Repeated(f, 0) == fates;
    } else {
      SentRepeated(ring, start, fates, f, n - 1);
      var all := fates + Repeated(f, n);
      assert all[..|all| - 1] == fates + Repeated(f, n - 1);
    }
  }

  lemma SentFramesGrow(ring: seq<BroadcastEnvelope>, m: BroadcastEnvelope, start: nat, fates: seq<Fate>)
    requires start + |fates| <= |ring|
    ensures SentFrames(ring + [m], start, fates) == SentFrames(ring, start, fates)
  {
    if fates != [] { SentFramesGrow(ring, m, start, fates[..|fates| - 1]); }
  }

  lemma WireSnoc(wire: seq<Frame>, f: Frame)
    ensures DroppedFrames(wire + [f]) == DroppedFrames(wire) + if f.DroppedFrame? then [f] else []
    ensures EventFrames(wire + [f]) == EventFrames(wire) + if f.EventFrame? then [f] else []
  {
    assert (wire + [f])[..|wire|] == wire;
  }

  lemma {:induction false} WireSnapshot(wire: seq<Frame>, snapshot: seq<Frame>)
    requires forall i :: 0 <= i < |snapshot| ==> snapshot[i].StateFrame?
    ensures DroppedFrames(wire + snapshot) == DroppedFrames(wire)
    ensures EventFrames(wire + snapshot) == EventFrames(wire)
  {
    if snapshot == [] {
      assert wire + snapshot == wire;
    } else {
      var n := |snapshot| - 1;
      WireSnapshot(wire, snapshot[..n]);
      WireSnoc(wire + snapshot[..n], snapshot[n]);
      assert wire + snapshot == wire + snapshot[..n] + [snapshot[n]];
    }
  }

  lemma DeliverKeepsAccounted(l: Ledger, now: nat, capacity: nat, window: nat)
    requires Accounted(l) && l.c.next < |l.ring| && |l.ring| - l.c.next <= capacity
    ensures Accounted(TakeStep(l, Takes(now), capacity, window))
  {
    var m := l.ring[l.c.next];
    AnyMatchesIffReaches(l.c.subscriptions, m);
    var sent := Reaches(l.c.subscriptions, m);
    var fate := if sent then Sent else Filtered;
    var t := TakeStep(l, Takes(now), capacity, window);
    assert t.fates == l.fates + [fate];
    assert t.fates[..|l.fates|] == l.fates;
    if sent {
      WireSnoc(l.c.wire, FrameOf(m));
      WireSnoc(SentFrames(l.ring, l.start, l.fates), FrameOf(m));
    }
  }

  lemma LagKeepsAccounted(l: Ledger, n: nat, next: nat, now: nat, window: nat)
    requires Accounted(l) && Bounded(l) && l.c.next < next <= |l.ring| && n == next - l.c.next
    ensures Accounted(LagLedger(l, n, next, now, window))
  {
    var t := LagLedger(l, n, next, now, window);
    var fate := if l.c.subscriptions == {} then LostUnheard else Lost;
    SentRepeated(l.ring, l.start, l.fates, fate, n);
    if l.c.subscriptions != {} {
      CursorIsBelow(l);
      EmittedFrameIsAccepted(l.c.lag, l.c.cursor, n, now, window);
      var (decision, _) := Coalesce(l.c.lag, l.c.cursor, n, now, window);
      if decision.Emit? {
        var e := Emission(now, decision.count, decision.first, decision.last, l.unreported + Range(l.c.next, next));
        WireSnoc(l.c.wire, FrameOfEmission(e));
      }
    }
  }

  lemma TakeKeepsAccounted(l: Ledger, s: LedgerStep, capacity: nat, window: nat)
    requires Accounted(l) && Bounded(l) && CanTake(l, s, capacity)
    ensures Accounted(TakeStep(l, s, capacity, window))
  {
    match s
    case Publishes(m) => SentFramesGrow(l.ring, m, l.start, l.fates);
    case Reconfigures(_, _, snapshot) => WireSnapshot(l.c.wire, snapshot);
    case Takes(now) =>
      var (got, next) := TryRecv(l.ring, capacity, l.c.next);
      match got {
        case Lagged(n) => LagKeepsAccounted(l, n, next, now, window);
        case Got(m) => DeliverKeepsAccounted(l, now, capacity, window);
        case Nothing =>
      }
  }

  lemma {:induction false} RunsStayAccounted(l: Ledger, steps: seq<LedgerStep>, capacity: nat, window: nat)
    requires Joined(l) && IsLedgerRun(l, steps, capacity, window)
    ensures Accounted(LedgerAfter(l, steps, capacity, window)) && Itemised(LedgerAfter(l, steps, capacity, window))
  {
    if steps == [] {
      assert SentFrames(l.ring, l.start, []) == [];
    } else {
      var before := LedgerAfter(l, steps[..|steps| - 1], capacity, window);
      RunsStayAccounted(l, steps[..|steps| - 1], capacity, window);
      RunsStayBounded(l, steps[..|steps| - 1], capacity, window);
      TakeKeepsAccounted(before, steps[|steps| - 1], capacity, window);
      TakeKeepsItemised(before, steps[|steps| - 1], capacity, window);
    }
  }

  /** Nothing is lost silently from the books. Every ring position passed has exactly one fate; the
      events on the wire are exactly the sent ones, in ring order; the `Dropped` frames are exactly the
      reports; every position lost under a subscription is in exactly one report or still pending. What
      was reported plus what is pending never exceeds what was lost, and it is what was lost if and only
      if neither any one report nor what is pending stands for more positions than 64 bits can count. */
  lemma LossesAreAccountedFor(l: Ledger, steps: seq<LedgerStep>, capacity: nat, window: nat)
    requires Joined(l) && IsLedgerRun(l, steps, capacity, window)
    ensures var end := LedgerAfter(l, steps, capacity, window);
      && Accounted(end) && Itemised(end)
      && Reported(end.emissions) + end.c.lag.pendingCount <= CountFate(end.fates, Lost)
      && (Reported(end.emissions) + end.c.lag.pendingCount == CountFate(end.fates, Lost) <==>
            ReportsFit(end.emissions) && |end.unreported| <= U64_MAX)
  {
    RunsStayAccounted(l, steps, capacity, window);
    var end := LedgerAfter(l, steps, capacity, window);
    LostPositionsCount(end.start, end.fates);
    ReportedCount(end.emissions);
  }

  // ---- No frame storm ----

  ghost predicate Spaced(l: Ledger, window: nat) {
    AreSpaced(l.emissions, l.c.lag.lastDroppedAt, l.clock, window)
  }

  /** These reports lie apart, the last one at the time noted, which has passed. */
  ghost predicate AreSpaced(emissions: seq<Emission>, lastAt: Option<nat>, clock: nat, window: nat) {
    && (forall i :: 0 < i < |emissions| ==> emissions[i].at > emissions[i - 1].at + window)
    && (if emissions == [] then lastAt.None?
        else lastAt == Some(emissions[|emissions| - 1].at) && emissions[|emissions| - 1].at <= clock)
  }

  lemma OneMoreIsSpaced(emissions: seq<Emission>, lag: LagState, clock: nat, now: nat, window: nat, e: Emission)
    requires AreSpaced(emissions, lag.lastDroppedAt, clock, window) && clock <= now
    requires !WithinWindow(lag, now, window) && e.at == now
    ensures AreSpaced(emissions + [e], Some(now), now, window)
  {
  }

  lemma LagKeepsSpaced(l: Ledger, n: nat, next: nat, now: nat, window: nat)
    requires Spaced(l, window) && Bounded(l) && l.c.next <= next && l.clock <= now && 1 <= n
    ensures Spaced(LagLedger(l, n, next, now, window), window)
  {
    CursorIsBelow(l);
    EmittedFrameIsAccepted(l.c.lag, l.c.cursor, n, now, window);
    var t := LagLedger(l, n, next, now, window);
    if t.emissions != l.emissions {
      OneMoreIsSpaced(l.emissions, l.c.lag, l.clock, now, window, t.emissions[|l.emissions|]);
    }
  }

  lemma TakeKeepsSpaced(l: Ledger, s: LedgerStep, capacity: nat, window: nat)
    requires Spaced(l, window) && Bounded(l) && CanTake(l, s, capacity)
    ensures Spaced(TakeStep(l, s, capacity, window), window)
  {
    if s.Takes? {
      var (got, next) := TryRecv(l.ring, capacity, l.c.next);
      if got.Lagged? { LagKeepsSpaced(l, got.missed, next, s.now, window); }
    }
  }

  lemma {:induction false} RunsStaySpaced(l: Ledger, steps: seq<LedgerStep>, capacity: nat, window: nat)
    requires Joined(l) && IsLedgerRun(l, steps, capacity, window)
    ensures Spaced(LedgerAfter(l, steps, capacity, window), window)
  {
    if steps != [] {
      RunsStaySpaced(l, steps[..|steps| - 1], capacity, window);
      RunsStayBounded(l, steps[..|steps| - 1], capacity, window);
      TakeKeepsSpaced(LedgerAfter(l, steps[..|steps| - 1], capacity, window), steps[|steps| - 1], capacity, window);
    }
  }

  lemma {:induction false} SpacedSpan(emissions: seq<Emission>, window: nat, i: nat, k: nat)
    requires forall j :: 0 < j < |emissions| ==> emissions[j].at > emissions[j - 1].at + window
    requires 2 <= k && i + k <= |emissions|
    ensures emissions[i + k - 1].at - emissions[i].at > (k - 1) * window
    decreases k
  {
    if k > 2 {
      SpacedSpan(emissions, window, i, k - 1);
      assert (k - 1) * window == (k - 2) * window + window;
    }
  }

  /** Over any horizon, any `k >= 2` consecutive reports of a connection span strictly more than
      `k - 1` coalescing windows, however the lags arrive. */
  lemma NoFrameStorm(l: Ledger, steps: seq<LedgerStep>, capacity: nat, window: nat, i: nat, k: nat)
    requires Joined(l) && IsLedgerRun(l, steps, capacity, window)
    requires 2 <= k && i + k <= |LedgerAfter(l, steps, capacity, window).emissions|
    ensures var e := LedgerAfter(l, steps, capacity, window).emissions;
      e[i + k - 1].at - e[i].at > (k - 1) * window
  {
    RunsStaySpaced(l, steps, capacity, window);
    SpacedSpan(LedgerAfter(l, steps, capacity, window).emissions, window, i, k);
  }

  // ---- What a report says, exactly ----

  /** The number of a frame's last lost event: counted on from the first, as far as 64 bits go. */
  function CountedOn(first: int, count: nat): int {
    if first + count - 1 > I64_MAX then I64_MAX else first + count - 1
  }

  /** The id of the last event sent. */
  function LastSentId(ring: seq<BroadcastEnvelope>, start: nat, fates: seq<Fate>): Option<int>
    requires start + |fates| <= |ring|
  {
    if fates == [] then None
    else
      var at := start + |fates| - 1;
      if fates[|fates| - 1].Sent? && ring[at].EventMessage? then Some(ring[at].event.eventId)
      else LastSentId(ring, start, fates[..|fates| - 1])
  }

  /** The id after it, as far as 64 bits go; zero if there is none. */
  function IdAfter(last: Option<int>): int {
    match last
    case None => 0
    case Some(id) => if id + 1 > I64_MAX then I64_MAX else id + 1
  }

  /** `first` is the id after the last event sent before the first of these positions. */
  ghost predicate StartsRight(l: Ledger, positions: seq<nat>, first: int) {
    && positions != [] && l.start <= positions[0] <= l.start + |l.fates| <= |l.ring|
    && first == IdAfter(LastSentId(l.ring, l.start, l.fates[..positions[0] - l.start]))
  }

  ghost predicate Tight(l: Ledger) {
    && l.start + |l.fates| == l.c.next <= |l.ring|
    && l.c.cursor == LastSentId(l.ring, l.start, l.fates)
    && (l.c.lag.pendingFirst.Some? ==> StartsRight(l, l.unreported, l.c.lag.pendingFirst.value))
    && (forall i :: 0 <= i < |l.emissions| ==> StartsRight(l, l.emissions[i].positions, l.emissions[i].first))
  }

  lemma {:induction false} LastSentGrows(ring: seq<BroadcastEnvelope>, m: BroadcastEnvelope, start: nat, fates: seq<Fate>)
    requires start + |fates| <= |ring|
    ensures LastSentId(ring + [m], start, fates) == LastSentId(ring, start, fates)
  {
    if fates != [] { LastSentGrows(ring, m, start, fates[..|fates| - 1]); }
  }

  lemma LastSentSnoc(ring: seq<BroadcastEnvelope>, start: nat, fates: seq<Fate>, f: Fate)
    requires start + |fates| < |ring|
    ensures LastSentId(ring, start, fates + [f]) ==
      if f.Sent? && ring[start + |fates|].EventMessage? then Some(ring[start + |fates|].event.eventId)
      else LastSentId(ring, start, fates)
  {
    assert (fates + [f])[..|fates|] == fates;
  }

  lemma {:induction false} LastSentBurst(ring: seq<BroadcastEnvelope>, start: nat, fates: seq<Fate>, f: Fate, n: nat)
    requires start + |fates| + n <= |ring| && !f.Sent?
    ensures LastSentId(ring, start, fates + Repeated(f, n)) == LastSentId(ring, start, fates)
  {
    if n == 0 {
      assert fates + Repeated(f, 0) == fates;
    } else {
      LastSentBurst(ring, start, fates, f, n - 1);
      LastSentSnoc(ring, start, fates + Repeated(f, n - 1), f);
      assert fates + Repeated(f, n) == fates + Repeated(f, n - 1) + [f];
    }
  }

  /** What started right stays so as the ring and the history grow. */
  lemma StaysRight(l: Ledger, t: Ledger, positions: seq<nat>, first: int)
    requires StartsRight(l, positions, first) && t.start == l.start
    requires l.fates <= t.fates && l.start + |t.fates| <= |t.ring|
    requires t.ring == l.ring || (|t.ring| == |l.ring| + 1 && t.ring[..|l.ring|] == l.ring)
    ensures StartsRight(t, positions, first)
  {
    var k := positions[0] - l.start;
    assert t.fates[..k] == l.fates[..k];
    if t.ring != l.ring {
      assert t.ring == l.ring + [t.ring[|l.ring|]];
      LastSentGrows(l.ring, t.ring[|l.ring|], l.start, l.fates[..k]);
    }
  }

  lemma AllStayRight(l: Ledger, t: Ledger)
    requires Tight(l) && t.start == l.start && l.fates <= t.fates && l.start + |t.fates| <= |t.ring|
    requires t.ring == l.ring || (|t.ring| == |l.ring| + 1 && t.ring[..|l.ring|] == l.ring)
    ensures forall i :: 0 <= i < |l.emissions| ==> StartsRight(t, l.emissions[i].positions, l.emissions[i].first)
    ensures l.c.lag.pendingFirst.Some? ==> StartsRight(t, l.unreported, l.c.lag.pendingFirst.value)
  {
    forall i | 0 <= i < |l.emissions| ensures StartsRight(t, l.emissions[i].positions, l.emissions[i].first) {
      StaysRight(l, t, l.emissions[i].positions, l.emissions[i].first);
    }
    if l.c.lag.pendingFirst.Some? { StaysRight(l, t, l.unreported, l.c.lag.pendingFirst.value); }
  }

  lemma UnheardLagKeepsTight(l: Ledger, next: nat, now: nat, window: nat)
    requires Tight(l) && l.c.next < next <= |l.ring| && l.c.subscriptions == {}
    ensures Tight(LagLedger(l, next - l.c.next, next, now, window))
  {
    var t := LagLedger(l, next - l.c.next, next, now, window);
    LastSentBurst(l.ring, l.start, l.fates, LostUnheard, next - l.c.next);
    assert t.fates == l.fates + Repeated(LostUnheard, next - l.c.next);
    AllStayRight(l, t);
  }

  /** The positions a lag under a subscription leaves to report, and the first id to report them with. */
  lemma FoldedStartsRight(l: Ledger, t: Ledger, next: nat)
    requires Tight(l) && Bounded(l) && l.c.next < next <= |l.ring|
    requires t.start == l.start && t.ring == l.ring && t.fates == l.fates + Repeated(Lost, next - l.c.next)
    ensures StartsRight(t, l.unreported + Range(l.c.next, next), EmittedFirst(l.c.lag, l.c.cursor))
  {
    var all := l.unreported + Range(l.c.next, next);
    assert t.fates[..|l.fates|] == l.fates;
    if l.unreported == [] {
      assert all[0] == l.c.next;
    } else {
      AllStayRight(l, t);
      assert all[0] == l.unreported[0];
    }
  }

  lemma HeardLagKeepsTight(l: Ledger, next: nat, now: nat, window: nat)
    requires Tight(l) && Bounded(l) && l.c.next < next <= |l.ring| && l.c.subscriptions != {}
    ensures Tight(LagLedger(l, next - l.c.next, next, now, window))
  {
    var n := next - l.c.next;
    var t := LagLedger(l, n, next, now, window);
    HeardLagEffect(l, n, next, now, window);
    HeardLagFields(l, n, next, now, window);
    LastSentBurst(l.ring, l.start, l.fates, Lost, n);
    FoldedStartsRight(l, t, next);
    AllStayRight(l, t);
  }

  lemma HeardLagFields(l: Ledger, n: nat, next: nat, now: nat, window: nat)
    requires Bounded(l) && l.c.subscriptions != {} && l.c.next <= next && 1 <= n
    ensures var t := LagLedger(l, n, next, now, window);
      var d := Coalesce(l.c.lag, l.c.cursor, n, now, window).0;
      && t.ring == l.ring && t.c.cursor == l.c.cursor && t.c.next == next
      && (d.Emit? ==> t.c.lag.pendingFirst.None? && d.first == EmittedFirst(l.c.lag, l.c.cursor))
      && (d.Suppress? ==> t.c.lag.pendingFirst == Some(EmittedFirst(l.c.lag, l.c.cursor)))
  {
    CursorIsBelow(l);
    EmittedFrameIsAccepted(l.c.lag, l.c.cursor, n, now, window);
  }

  lemma LagKeepsTight(l: Ledger, next: nat, now: nat, window: nat)
    requires Tight(l) && Bounded(l) && l.c.next < next <= |l.ring|
    ensures Tight(LagLedger(l, next - l.c.next, next, now, window))
  {
    if l.c.subscriptions == {} {
      UnheardLagKeepsTight(l, next, now, window);
    } else {
      HeardLagKeepsTight(l, next, now, window);
    }
  }

  lemma DeliverKeepsTight(l: Ledger, now: nat, capacity: nat, window: nat)
    requires Tight(l) && l.c.next < |l.ring| && |l.ring| - l.c.next <= capacity
    ensures Tight(TakeStep(l, Takes(now), capacity, window))
  {
    var m, t := l.ring[l.c.next], TakeStep(l, Takes(now), capacity, window);
    var fate := if Reaches(l.c.subscriptions, m) then Sent else Filtered;
    AnyMatchesIffReaches(l.c.subscriptions, m);
    LastSentSnoc(l.ring, l.start, l.fates, fate);
    assert t.fates == l.fates + [fate] && t.c.lag == l.c.lag && t.emissions == l.emissions && t.unreported == l.unreported;
    AllStayRight(l, t);
  }

  lemma ReceiveKeepsTight(l: Ledger, now: nat, capacity: nat, window: nat)
    requires Tight(l) && Bounded(l) && l.c.next <= |l.ring|
    ensures Tight(TakeStep(l, Takes(now), capacity, window))
  {
    var (got, next) := TryRecv(l.ring, capacity, l.c.next);
    match got
    case Lagged(n) => LagKeepsTight(l, next, now, window);
    case Got(m) => DeliverKeepsTight(l, now, capacity, window);
    case Nothing => AllStayRight(l, l.(clock := now));
  }

  lemma PublishKeepsTight(l: Ledger, m: BroadcastEnvelope)
    requires Tight(l)
    ensures Tight(l.(ring := l.ring + [m]))
  {
    AllStayRight(l, l.(ring := l.ring + [m]));
    LastSentGrows(l.ring, m, l.start, l.fates);
  }

  lemma ReconfigureKeepsTight(l: Ledger, s: LedgerStep, capacity: nat, window: nat)
    requires Tight(l) && s.Reconfigures? && CanTake(l, s, capacity)
    ensures Tight(TakeStep(l, s, capacity, window))
  {
    AllStayRight(l, TakeStep(l, s, capacity, window));
  }

  lemma TakeKeepsTight(l: Ledger, s: LedgerStep, capacity: nat, window: nat)
    requires Tight(l) && Bounded(l) && CanTake(l, s, capacity)
    ensures Tight(TakeStep(l, s, capacity, window))
  {
    match s
    case Publishes(m) => PublishKeepsTight(l, m);
    case Reconfigures(_, _, _) => ReconfigureKeepsTight(l, s, capacity, window);
    case Takes(now) => ReceiveKeepsTight(l, now, capacity, window);
  }

  lemma {:induction false} RunsStayTight(l: Ledger, steps: seq<LedgerStep>, capacity: nat, window: nat)
    requires Joined(l) && IsLedgerRun(l, steps, capacity, window)
    ensures Tight(LedgerAfter(l, steps, capacity, window))
  {
    if steps != [] {
      RunsStayTight(l, steps[..|steps| - 1], capacity, window);
      RunsStayBounded(l, steps[..|steps| - 1], capacity, window);
      TakeKeepsTight(LedgerAfter(l, steps[..|steps| - 1], capacity, window), steps[|steps| - 1], capacity, window);
    }
  }

  lemma {:induction false} LastSentIsPositive(ring: seq<BroadcastEnvelope>, start: nat, fates: seq<Fate>)
    requires start + |fates| <= |ring| && IdsIncrease(ring)
    ensures LastSentId(ring, start, fates).Some? ==> 0 < LastSentId(ring, start, fates).value <= I64_MAX
  {
    if fates != [] { LastSentIsPositive(ring, start, fates[..|fates| - 1]); }
  }

  lemma FirstIsInRange(l: Ledger)
    requires Tight(l) && Bounded(l)
    ensures 0 <= EmittedFirst(l.c.lag, l.c.cursor) <= I64_MAX
  {
    LastSentIsPositive(l.ring, l.start, l.fates);
    if l.c.lag.pendingFirst.Some? {
      LastSentIsPositive(l.ring, l.start, l.fates[..l.unreported[0] - l.start]);
    }
  }

  lemma WithinWindowIff(lag: LagState, now: nat, window: nat)
    requires lag.lastDroppedAt.Some? ==> lag.lastDroppedAt.value <= now
    ensures WithinWindow(lag, now, window) <==> lag.lastDroppedAt.Some? && now <= lag.lastDroppedAt.value + window
  {
  }

  /** The numbers of a report, when the decision is to make one. */
  lemma EmittedNumbers(lag: LagState, cursor: Option<int>, n: nat, now: nat, window: nat)
    requires 1 <= n && lag.pendingCount <= U64_MAX && 0 <= EmittedFirst(lag, cursor) <= I64_MAX
    ensures var d := Coalesce(lag, cursor, n, now, window).0; var first := EmittedFirst(lag, cursor);
      && (d.Suppress? <==> WithinWindow(lag, now, window))
      && (d.Emit? ==> d.first == first && d.count >= 1 && d.last == CountedOn(first, d.count))
  {
  }

  /** What a lag under a subscription leaves in the books. */
  ghost predicate ReportsIff(m: Ledger, after: Ledger, next: nat, now: nat, window: nat)
    requires m.c.next <= next
  {
    var all := m.unreported + Range(m.c.next, next);
    if m.emissions == [] || now > m.emissions[|m.emissions| - 1].at + window
    then
      && after.unreported == [] && |after.emissions| == |m.emissions| + 1 && m.emissions <= after.emissions
      && var e := after.emissions[|m.emissions|];
         e.at == now && e.positions == all && e.count == Capped(|all|) && e.last == CountedOn(e.first, e.count)
    else after.emissions == m.emissions && after.unreported == all
  }

  lemma HeardLagReportsIff(m: Ledger, next: nat, now: nat, window: nat)
    requires Bounded(m) && Tight(m) && Spaced(m, window) && m.c.lag.pendingCount == Capped(|m.unreported|)
    requires m.c.subscriptions != {} && m.c.next < next && m.clock <= now
    ensures ReportsIff(m, LagLedger(m, next - m.c.next, next, now, window), next, now, window)
  {
    FirstIsInRange(m);
    FoldingCaps(m.unreported, Range(m.c.next, next));
    WithinWindowIff(m.c.lag, now, window);
    HeardLagEffect(m, next - m.c.next, next, now, window);
    EmittedNumbers(m.c.lag, m.c.cursor, next - m.c.next, now, window);
  }

  /** A lag under a subscription is reported at once if and only if no report has gone out within the window;
      a report stands for everything unreported so far and this lag, and what is not reported is kept. */
  lemma LagIsReportedIff(l: Ledger, steps: seq<LedgerStep>, capacity: nat, window: nat, m: Ledger, now: nat)
    requires Joined(l) && IsLedgerRun(l, steps, capacity, window) && m == LedgerAfter(l, steps, capacity, window)
    requires m.c.next <= |m.ring| && m.clock <= now && m.c.subscriptions != {} && |m.ring| - m.c.next > capacity
    ensures ReportsIff(m, TakeStep(m, Takes(now), capacity, window), |m.ring| - capacity, now, window)
  {
    RunsStayInOrder(l, steps, capacity, window);
    LagStep(m, capacity, now, window);
    HeardLagReportsIff(m, |m.ring| - capacity, now, window);
  }

  lemma LagStep(m: Ledger, capacity: nat, now: nat, window: nat)
    requires m.c.next <= |m.ring| && |m.ring| - m.c.next > capacity
    ensures var next := |m.ring| - capacity;
      TakeStep(m, Takes(now), capacity, window) == LagLedger(m, next - m.c.next, next, now, window)
  {
  }

  lemma RunsStayInOrder(l: Ledger, steps: seq<LedgerStep>, capacity: nat, window: nat)
    requires Joined(l) && IsLedgerRun(l, steps, capacity, window)
    ensures var m := LedgerAfter(l, steps, capacity, window);
      Bounded(m) && Tight(m) && Spaced(m, window) && m.c.lag.pendingCount == Capped(|m.unreported|)
  {
    RunsStayBounded(l, steps, capacity, window);
    RunsStaySpaced(l, steps, capacity, window);
    RunsStayAccounted(l, steps, capacity, window);
    RunsStayTight(l, steps, capacity, window);
  }

  /** The first id a report names is exactly the one after the last event the client was sent before the
      loss began, and zero if it had been sent none; so a client that asks for what follows that event
      misses nothing and repeats nothing it had. */
  lemma ReportsStartAfterTheLastSent(l: Ledger, steps: seq<LedgerStep>, capacity: nat, window: nat, i: nat)
    requires Joined(l) && IsLedgerRun(l, steps, capacity, window)
    requires i < |LedgerAfter(l, steps, capacity, window).emissions|
    ensures var end := LedgerAfter(l, steps, capacity, window);
      var e := end.emissions[i];
      && e.positions != [] && end.start <= e.positions[0] <= end.start + |end.fates| <= |end.ring|
      && e.first == IdAfter(LastSentId(end.ring, end.start, end.fates[..e.positions[0] - end.start]))
  {
    RunsStayTight(l, steps, capacity, window);
    var end := LedgerAfter(l, steps, capacity, window);
    assert StartsRight(end, end.emissions[i].positions, end.emissions[i].first);
  }
}
