/** Whole runs of the daemon: the ingest task, the liveness probe and the lifecycle markers share the
    one writer connection, and their steps interleave in every possible way. */
module DaemonRuns {
  import opened Protocol
  import opened StateMachine
  import opened Projection
  import opened Store
  import History

  /** Where the ingest task stands: between items, about to scan for predecessors of the event it
      just committed, or working through the rows of that scan. */
  datatype Ingest =
    | Receiving
    | Scanning(successor: Key, pid: Pid)
    | Superseding(successor: Key, pid: Pid, observedAt: Millis, rows: seq<ListedRow>)

  datatype Probe = Resting | Probing(observedAt: Millis, rows: seq<ListedRow>)

  /** The shared state. `inflight` is what the holder of the writer connection has committed and
      not yet published; the connection is free exactly when it is empty. */
  datatype Daemon = Daemon(
    db: Db,
    inflight: seq<BroadcastEnvelope>,
    hub: seq<BroadcastEnvelope>,
    clock: Millis,
    ingest: Ingest,
    probe: Probe)

  datatype Step =
    | Tick(now: Millis)
    | PublishNext
    | Primary(env: EventEnvelope, origin: Origin)
    | Scan(rows: seq<ListedRow>)
    | ScanFails
    | SupersedeNext(commits: bool)
    | SupersedeDone
    | ProbeScan(rows: seq<ListedRow>)
    | ProbeNext(signalable: bool, commits: bool)
    | ProbeStop
    | Marker(kind: EventKind)

  predicate HookKind(kind: EventKind) {
    HookName(kind).Some?
  }

  /** What the source adapter can produce. */
  predicate FromAdapter(env: EventEnvelope) {
    env.key.source == "claude" && HookKind(env.kind) && WellTyped(env)
  }

  /** What the replay endpoint can forward. */
  predicate FromReplay(env: EventEnvelope) {
    !IsSentinelKind(env.kind) && !env.kind.UnknownKind? && WellTyped(env)
  }

  ghost predicate Enabled(d: Daemon, step: Step) {
    match step
    case Tick(now) => d.clock <= now
    case PublishNext => d.inflight != []
    case Primary(env, origin) =>
      d.inflight == [] && d.ingest.Receiving? && if origin.Live? then FromAdapter(env) else FromReplay(env)
    case Scan(rows) => d.inflight == [] && d.ingest.Scanning? && Lists(rows, d.db.table)
    case ScanFails => d.ingest.Scanning?
    case SupersedeNext(_) => d.inflight == [] && d.ingest.Superseding? && d.ingest.rows != []
    case SupersedeDone => d.ingest.Superseding? && d.ingest.rows == []
    case ProbeScan(rows) => d.inflight == [] && d.probe.Resting? && Lists(rows, d.db.table)
    case ProbeNext(_, _) => d.inflight == [] && d.probe.Probing? && d.probe.rows != []
    case ProbeStop => d.probe.Probing?
    case Marker(kind) => d.inflight == [] && IsSentinelKind(kind)
  }

  /** Every hook of the adapter, of each of the five kinds, and every replayed event of a known kind can be a
      step as soon as the ingest task is free, and nothing else can. */
  lemma PrimaryEnabledIff(d: Daemon, env: EventEnvelope)
    ensures Enabled(d, Primary(env, Live)) <==>
      && d.inflight == [] && d.ingest == Receiving && env.key.source == "claude"
      && env.kind in {UserPromptSubmit, PreToolUse, PostToolUse, Stop, Notification}
      && env.notificationType == NotificationTypeOf(env.kind, env.payload)
    ensures Enabled(d, Primary(env, Replay)) <==>
      && d.inflight == [] && d.ingest == Receiving
      && (env.kind in {UserPromptSubmit, PreToolUse, PostToolUse, Stop, Notification} || env.kind == SessionEnded)
      && env.notificationType == NotificationTypeOf(env.kind, env.payload)
  {
  }

  function Attempted(d: Daemon, commits: bool): Attempt {
    if commits then At(d.clock) else Fails
  }

  /** The writes each kind of step makes, if any. */
  datatype GuardedWrite = GuardedWrite(env: EventEnvelope, guard: Option<Precondition>)

  function SupersedeWrite(row: ListedRow, successor: Key, pid: Pid, observedAt: Millis): Option<GuardedWrite> {
    if !IsVictim(row.key, row.state, successor, pid) then None
    else Some(GuardedWrite(EndedEnvelope(row.key, PidSuperseded, Some(pid), observedAt),
                           Some(VictimGuard(row.state.value, pid))))
  }

  function ProbeWrite(row: ListedRow, signalable: bool, observedAt: Millis): Option<GuardedWrite> {
    if !ProbeEnds(row.state, signalable) then None
    else Some(GuardedWrite(EndedEnvelope(row.key, ProbeReason(row.state.value), row.state.value.lastPid, observedAt),
                           Some(ProbeGuard(row.state.value))))
  }

  /** Clock read and transaction, with the publications left to the steps that follow. */
  function Commits(d: Daemon, w: Option<GuardedWrite>, attempt: Attempt): Daemon {
    if w.None? then d
    else
      var c := WriteInner(d.db, w.value.env, w.value.guard, attempt);
      d.(db := c.db, inflight := d.inflight + c.published)
  }

  ghost function After(d: Daemon, step: Step): Daemon
    requires Enabled(d, step)
  {
    match step
    case Tick(now) => d.(clock := now)
    case PublishNext => d.(hub := d.hub + [d.inflight[0]], inflight := d.inflight[1..])
    case Primary(env, origin) =>
      Commits(d, Some(GuardedWrite(env, None)), At(d.clock)).(ingest :=
        if origin.Live? && env.pid.Some? && !env.kind.SessionEnded? then Scanning(env.key, env.pid.value) else Receiving)
    case Scan(rows) => d.(ingest := Superseding(d.ingest.successor, d.ingest.pid, d.clock, rows))
    case ScanFails => d.(ingest := Receiving)
    case SupersedeNext(commits) =>
      Commits(d, SupersedeWrite(d.ingest.rows[0], d.ingest.successor, d.ingest.pid, d.ingest.observedAt),
              Attempted(d, commits)).(ingest := d.ingest.(rows := d.ingest.rows[1..]))
    case SupersedeDone => d.(ingest := Receiving)
    case ProbeScan(rows) => d.(probe := Probing(d.clock, rows))
    case ProbeNext(signalable, commits) =>
      Commits(d, ProbeWrite(d.probe.rows[0], signalable, d.probe.observedAt),
              Attempted(d, commits)).(probe := d.probe.(rows := d.probe.rows[1..]))
    case ProbeStop => d.(probe := Resting)
    case Marker(kind) => d.(db := WriteSentinel(d.db, kind, d.clock))
  }

  /** A freshly started daemon over tables that agree. */
  ghost predicate Initial(d: Daemon) {
    Consistent(d.db) && d.inflight == [] && d.hub == [] && d.ingest.Receiving? && d.probe.Resting?
  }

  ghost predicate IsRun(d: Daemon, steps: seq<Step>)
    decreases |steps|, 0
  {
    steps == [] ||
    (IsRun(d, steps[..|steps| - 1]) && Enabled(Final(d, steps[..|steps| - 1]), steps[|steps| - 1]))
  }

  /** The state a run ends in. Every prefix of a run is a run, so what holds of all final states
      holds throughout. */
  ghost function Final(d: Daemon, steps: seq<Step>): Daemon
    requires IsRun(d, steps)
    decreases |steps|, 1
  {
    if steps == [] then d else After(Final(d, steps[..|steps| - 1]), steps[|steps| - 1])
  }

  // ---- The cache agrees with the log, and the stream with both ----

  ghost predicate InStep(d: Daemon, base: nat) {
    Consistent(d.db) && base <= |d.db.log| && d.hub + d.inflight == Published(d.db.log, base) && |d.inflight| <= 2
    && |EventsIn(d.inflight)| <= 1
  }

  lemma CommitsInStep(d: Daemon, w: Option<GuardedWrite>, attempt: Attempt, base: nat)
    requires InStep(d, base) && d.inflight == []
    requires w.Some? ==> WellTyped(w.value.env)
    ensures InStep(Commits(d, w, attempt), base)
  {
    if w.Some? {
      WriteInnerKeepsConsistent(d.db, w.value.env, w.value.guard, attempt);
      WriteInnerPublishes(d.db, w.value.env, w.value.guard, attempt, base);
      var c := WriteInner(d.db, w.value.env, w.value.guard, attempt);
      if c.outcome.Written? {
        var prev := StoredState(d.db.table, w.value.env.key);
        var next := Transition(prev, w.value.env.kind, w.value.env.notificationType, w.value.env.pid, w.value.env.cwd, attempt.now);
        AnnounceEvents(prev, next, EventOf(w.value.env, |d.db.log| + 1, attempt.now));
      } else {
        assert c.published == [];
      }
      assert d.inflight + c.published == c.published;
      assert d.hub + d.inflight == d.hub;
    }
  }

  lemma StepKeepsInStep(d: Daemon, step: Step, base: nat)
    requires InStep(d, base) && Enabled(d, step)
    ensures InStep(After(d, step), base)
  {
    match step
    case Primary(env, origin) => CommitsInStep(d, Some(GuardedWrite(env, None)), At(d.clock), base);
    case SupersedeNext(commits) =>
      CommitsInStep(d, SupersedeWrite(d.ingest.rows[0], d.ingest.successor, d.ingest.pid, d.ingest.observedAt),
                    Attempted(d, commits), base);
    case ProbeNext(signalable, commits) =>
      CommitsInStep(d, ProbeWrite(d.probe.rows[0], signalable, d.probe.observedAt), Attempted(d, commits), base);
    case PublishNext =>
      assert d.hub + [d.inflight[0]] + d.inflight[1..] == d.hub + d.inflight;
      EventsInAppend([d.inflight[0]], d.inflight[1..]);
      assert [d.inflight[0]] + d.inflight[1..] == d.inflight;
    case Marker(kind) =>
      WriteSentinelKeepsConsistent(d.db, kind, d.clock);
      WriteSentinelPublishesNothing(d.db, kind, d.clock, base);
    case _ =>
  }

  /** In every reachable state the projection table is exactly what the event log calls for, and the
      stream together with what is in flight is exactly what the log owes its subscribers. */
  lemma {:induction false} RunsStayInStep(d: Daemon, steps: seq<Step>)
    requires Initial(d) && IsRun(d, steps)
    ensures InStep(Final(d, steps), |d.db.log|)
  {
    if steps == [] {
      assert Published(d.db.log, |d.db.log|) == [];
    } else {
      RunsStayInStep(d, steps[..|steps| - 1]);
      StepKeepsInStep(Final(d, steps[..|steps| - 1]), steps[|steps| - 1], |d.db.log|);
    }
  }

  /** Every user-facing row is the fold of its session's history, at every moment of every run. */
  lemma ProjectionEqualsFold(d: Daemon, steps: seq<Step>, key: Key)
    requires Initial(d) && IsRun(d, steps) && key != SENTINEL_KEY
    ensures var db := Final(d, steps).db; var h := SessionLog(db.log, key);
      if h == [] then key !in db.table
      else key in db.table && db.table[key] == RowOfHistory(h)
  {
    RunsStayInStep(d, steps);
    RowIsFoldOfHistory(Final(d, steps).db.log, key);
  }

  /** The stream carries the committed events in commit order with increasing ids, short of at most
      the one its committer has not published yet, and each state directly follows its event. */
  lemma PublishOrderIsCommitOrder(d: Daemon, steps: seq<Step>)
    requires Initial(d) && IsRun(d, steps)
    ensures var end := Final(d, steps); var base := |d.db.log|;
      && base <= |end.db.log|
      && EventsIn(end.hub) <= NonSentinel(end.db.log[base..])
      && |NonSentinel(end.db.log[base..])| - |EventsIn(end.hub)| <= (if end.inflight == [] then 0 else 1)
      && (forall i, j :: 0 <= i < j < |EventsIn(end.hub)| ==> EventsIn(end.hub)[i].eventId < EventsIn(end.hub)[j].eventId)
      && StatesFollowTheirEvents(end.hub)
  {
    RunsStayInStep(d, steps);
    var end, base := Final(d, steps), |d.db.log|;
    PublishedShape(end.db.log, base);
    NonSentinelIdsIncrease(end.db.log, base);
    EventsInAppend(end.hub, end.inflight);
    var all := end.hub + end.inflight;
    forall i | 0 <= i < |end.hub| ensures end.hub[i] == all[i] {}
  }

  // ---- A synthetic end yields to whatever came in between ----

  /** The row still is as a scan listed it, as far as the probe looks: live, in the same state, with the
      same pid. */
  predicate StillListed(d: Daemon, row: ListedRow) {
    var now := StoredState(d.db.table, row.key);
    now.Some? && row.state.Some? && row.state.value.currentState != Ended
    && now.value.currentState == row.state.value.currentState && now.value.lastPid == row.state.value.lastPid
  }

  /** The end the probe writes, in full: it commits if and only if the write goes through, the listed row
      was live without a pid or on a process that does not answer or cannot exist, and neither its state
      nor its pid has changed since. */
  lemma ProbeEndsIff(d: Daemon, signalable: bool, commits: bool)
    requires Enabled(d, ProbeNext(signalable, commits))
    ensures var row, e := d.probe.rows[0], After(d, ProbeNext(signalable, commits));
      && (|e.db.log| > |d.db.log| <==>
            commits && StillListed(d, row) &&
            (row.state.value.lastPid.None? || row.state.value.lastPid.value > 0x7FFF_FFFF || !signalable))
      && (|e.db.log| > |d.db.log| ==>
            e.db.log == d.db.log + [SyntheticEnd(d, row, if row.state.value.lastPid.None? then NoPidAtUpgrade else PidDead, d.probe.observedAt)])
      && (|e.db.log| <= |d.db.log| ==> e.db == d.db && e.inflight == d.inflight)
  {
  }

  /** The end supersession writes: it commits if and only if the write goes through, the listed row was
      another live session on the pid, and neither its state nor its pid nor the time of its last event has
      changed since. */
  lemma SupersessionEndsIff(d: Daemon, commits: bool)
    requires Enabled(d, SupersedeNext(commits))
    ensures var row, e := d.ingest.rows[0], After(d, SupersedeNext(commits));
      && (|e.db.log| > |d.db.log| <==>
            commits && StillListed(d, row) && row.key != d.ingest.successor && row.state.value.lastPid == Some(d.ingest.pid) &&
            StoredState(d.db.table, row.key).value.lastEventAt == row.state.value.lastEventAt)
      && (|e.db.log| > |d.db.log| ==>
            e.db.log == d.db.log + [SyntheticEnd(d, row, PidSuperseded, d.ingest.observedAt)])
      && (|e.db.log| <= |d.db.log| ==> e.db == d.db && e.inflight == d.inflight)
  {
  }

  /** The event a synthetic end is stored as: it repeats the listed pid and says nothing else of the session. */
  function SyntheticEnd(d: Daemon, row: ListedRow, reason: EndedReason, observedAt: Millis): Event
    requires row.state.Some?
  {
    var pid := row.state.value.lastPid;
    Event(|d.db.log| + 1, row.key, SessionEnded, None, EndedPayload(reason, pid, observedAt), d.clock, pid, None)
  }

  /** In every run, an end that the probe or supersession adds ends a session that had not ended, and carries
      the pid that session last reported. */
  lemma SyntheticEndsCarryTheLastPid(d: Daemon, steps: seq<Step>, step: Step)
    requires Initial(d) && IsRun(d, steps) && Enabled(Final(d, steps), step)
    requires step.ProbeNext? || step.SupersedeNext?
    requires |After(Final(d, steps), step).db.log| > |Final(d, steps).db.log|
    ensures var log := Final(d, steps).db.log;
      var end := After(Final(d, steps), step).db.log[|log|];
      && After(Final(d, steps), step).db.log == log + [end]
      && end.kind.SessionEnded? && end.key.source != DAEMON_SENTINEL
      && SessionLog(log, end.key) != [] && !History.EndedAtEnd(SessionLog(log, end.key))
      && History.LastReportedPid(SessionLog(log, end.key), end.pid)
  {
    var m := Final(d, steps);
    RunsStayInStep(d, steps);
    ListedRowsAreSessions(d, steps);
    var row := if step.ProbeNext? then m.probe.rows[0] else m.ingest.rows[0];
    match step {
      case ProbeNext(signalable, commits) => ProbeEndsIff(m, signalable, commits);
      case SupersedeNext(commits) => SupersessionEndsIff(m, commits);
    }
    RowIsFoldOfHistory(m.db.log, row.key);
    History.HistoryFacts(SessionLog(m.db.log, row.key));
    History.HistoryCharacterisation(SessionLog(m.db.log, row.key));
  }

  predicate AreSessions(rows: seq<ListedRow>) {
    forall i :: 0 <= i < |rows| ==> rows[i].key.source != DAEMON_SENTINEL
  }

  predicate ListsSessions(d: Daemon) {
    (d.probe.Probing? ==> AreSessions(d.probe.rows)) && (d.ingest.Superseding? ==> AreSessions(d.ingest.rows))
  }

  lemma StepListsSessions(d: Daemon, step: Step)
    requires ListsSessions(d) && Enabled(d, step)
    ensures ListsSessions(After(d, step))
  {
  }

  /** Scans list sessions outside the sentinel source alone. */
  lemma {:induction false} ListedRowsAreSessions(d: Daemon, steps: seq<Step>)
    requires Initial(d) && IsRun(d, steps)
    ensures ListsSessions(Final(d, steps))
  {
    if steps != [] {
      ListedRowsAreSessions(d, steps[..|steps| - 1]);
      StepListsSessions(Final(d, steps[..|steps| - 1]), steps[|steps| - 1]);
    }
  }

  // ---- Who holds a pid ----

  /** The session of the most recent event, other than an end, that carried the pid. */
  function LastEmitter(log: seq<Event>, pid: Pid): Option<Key> {
    if log == [] then None
    else
      var e := log[|log| - 1];
      if e.pid == Some(pid) && !e.kind.SessionEnded? then Some(e.key)
      else LastEmitter(log[..|log| - 1], pid)
  }

  predicate Claims(db: Db, key: Key, pid: Pid) {
    key.source != DAEMON_SENTINEL && IsLive(StoredState(db.table, key)) &&
    StoredState(db.table, key).value.lastPid == Some(pid)
  }

  /** A claimant that is not the last emitter is only there because supersession has not reached it
      yet: the scan is still to come, or lists it exactly as it now is. */
  ghost predicate AwaitsSupersession(d: Daemon, key: Key, pid: Pid) {
    && !d.ingest.Receiving? && d.ingest.pid == pid && key != d.ingest.successor
    && (d.ingest.Superseding? ==>
          exists i :: 0 <= i < |d.ingest.rows| && d.ingest.rows[i].key == key &&
            d.ingest.rows[i].state == StoredState(d.db.table, key))
  }

  ghost predicate PidDiscipline(d: Daemon) {
    forall key: Key, pid: Pid :: Claims(d.db, key, pid) ==>
      LastEmitter(d.db.log, pid) == Some(key) || AwaitsSupersession(d, key, pid)
  }

  /** The session has ended on a pid that another session's events have used since: a sign of life
      without a pid would make it claim that pid again. */
  predicate Revives(db: Db, key: Key) {
    && key.source != DAEMON_SENTINEL && IsEnded(StoredState(db.table, key))
    && StoredState(db.table, key).value.lastPid.Some?
    && LastEmitter(db.log, StoredState(db.table, key).value.lastPid.value) != Some(key)
  }

  /** The events that upset who holds a pid: one without a pid that revives such a session, and a
      replayed one, which no supersession follows, on a pid that another session claims. */
  ghost predicate Disrupts(db: Db, env: EventEnvelope, origin: Origin) {
    !env.kind.SessionEnded? &&
    match env.pid
    case None => Revives(db, env.key)
    case Some(pid) => origin.Replay? && exists k: Key :: k != env.key && Claims(db, k, pid)
  }

  /** Steps that upset nothing: no disruptive event, and no failed scan or write of the supersession
      that still has a predecessor to end. */
  ghost predicate Harmless(d: Daemon, step: Step)
    requires Enabled(d, step)
  {
    match step
    case Primary(env, origin) => !Disrupts(d.db, env, origin)
    case ScanFails => NoVictims(d.db.table, d.ingest.successor, d.ingest.pid)
    case SupersedeNext(commits) =>
      commits || !IsVictim(d.ingest.rows[0].key, d.ingest.rows[0].state, d.ingest.successor, d.ingest.pid)
    case _ => true
  }

  ghost predicate HarmlessRun(d: Daemon, steps: seq<Step>)
    requires IsRun(d, steps)
  {
    steps == [] ||
    (HarmlessRun(d, steps[..|steps| - 1]) && Harmless(Final(d, steps[..|steps| - 1]), steps[|steps| - 1]))
  }

  lemma EndKeepsPidDiscipline(d: Daemon, w: Option<GuardedWrite>, attempt: Attempt)
    requires PidDiscipline(d)
    requires w.Some? ==> w.value.env.kind.SessionEnded?
    ensures var e := Commits(d, w, attempt);
      && PidDiscipline(e)
      && (w.Some? ==> forall k :: k != w.value.env.key ==> StoredState(e.db.table, k) == StoredState(d.db.table, k))
      && (forall k, pid :: Claims(e.db, k, pid) ==> Claims(d.db, k, pid) && StoredState(e.db.table, k) == StoredState(d.db.table, k))
      && (forall pid :: LastEmitter(e.db.log, pid) == LastEmitter(d.db.log, pid))
  {
    var e := Commits(d, w, attempt);
    if w.Some? && e.db != d.db {
      assert e.db.log[..|d.db.log|] == d.db.log;
    }
    assert forall pid :: LastEmitter(e.db.log, pid) == LastEmitter(d.db.log, pid);
    forall k: Key, pid: Pid | Claims(e.db, k, pid)
      ensures Claims(d.db, k, pid) && StoredState(e.db.table, k) == StoredState(d.db.table, k)
      ensures LastEmitter(e.db.log, pid) == Some(k) || AwaitsSupersession(e, k, pid)
    {
      assert StoredState(e.db.table, k) == StoredState(d.db.table, k);
      assert Claims(d.db, k, pid);
      if AwaitsSupersession(d, k, pid) { assert AwaitsSupersession(e, k, pid); }
    }
  }

  lemma PrimaryEffect(d: Daemon, env: EventEnvelope, origin: Origin)
    requires Enabled(d, Primary(env, origin))
    ensures var e := After(d, Primary(env, origin));
      && e.db.log[..|d.db.log|] == d.db.log && |e.db.log| == |d.db.log| + 1
      && (forall pid: Pid :: LastEmitter(e.db.log, pid) ==
            if env.pid == Some(pid) && !env.kind.SessionEnded? then Some(env.key) else LastEmitter(d.db.log, pid))
      && (forall k: Key :: k != env.key ==> StoredState(e.db.table, k) == StoredState(d.db.table, k))
      && StoredState(e.db.table, env.key).Some?
      && var prev, next := StoredState(d.db.table, env.key), StoredState(e.db.table, env.key).value;
      && (next.currentState.Ended? <==> env.kind.SessionEnded?)
      && next.lastPid == OrElse(env.pid, if prev.Some? then prev.value.lastPid else None)
  {
  }

  /** The exact condition for the primary write of any event, live or replayed, with a pid or without:
      it keeps the discipline if and only if it is not disruptive. */
  lemma PrimaryKeepsPidDisciplineIff(d: Daemon, env: EventEnvelope, origin: Origin)
    requires PidDiscipline(d) && Enabled(d, Primary(env, origin))
    ensures PidDiscipline(After(d, Primary(env, origin))) <==> !Disrupts(d.db, env, origin)
  {
    var e := After(d, Primary(env, origin));
    PrimaryEffect(d, env, origin);
    if Disrupts(d.db, env, origin) {
      DisruptionBreaksDiscipline(d, env, origin);
    } else {
      forall k: Key, pid: Pid | Claims(e.db, k, pid)
        ensures LastEmitter(e.db.log, pid) == Some(k) || AwaitsSupersession(e, k, pid)
      {
        if k != env.key { assert Claims(d.db, k, pid); }
      }
    }
  }

  lemma DisruptionBreaksDiscipline(d: Daemon, env: EventEnvelope, origin: Origin)
    requires PidDiscipline(d) && Enabled(d, Primary(env, origin)) && Disrupts(d.db, env, origin)
    ensures !PidDiscipline(After(d, Primary(env, origin)))
  {
    var e := After(d, Primary(env, origin));
    PrimaryEffect(d, env, origin);
    if env.pid.None? {
      var pid := StoredState(d.db.table, env.key).value.lastPid.value;
      assert Claims(e.db, env.key, pid) && LastEmitter(e.db.log, pid) != Some(env.key);
    } else {
      var k: Key :| k != env.key && Claims(d.db, k, env.pid.value);
      assert Claims(e.db, k, env.pid.value) && LastEmitter(e.db.log, env.pid.value) == Some(env.key);
    }
  }

  /** A failed scan keeps it if and only if it had nothing to find. */
  lemma ScanFailsKeepsPidDisciplineIff(d: Daemon)
    requires PidDiscipline(d) && Enabled(d, ScanFails) && LastEmitter(d.db.log, d.ingest.pid) == Some(d.ingest.successor)
    ensures PidDiscipline(After(d, ScanFails)) <==> NoVictims(d.db.table, d.ingest.successor, d.ingest.pid)
  {
    var e := After(d, ScanFails);
    if NoVictims(d.db.table, d.ingest.successor, d.ingest.pid) {
      ScanFailsHarmlessly(d);
    } else {
      var k: Key :| k.source != DAEMON_SENTINEL && IsVictim(k, StoredState(d.db.table, k), d.ingest.successor, d.ingest.pid);
      assert Claims(e.db, k, d.ingest.pid);
    }
  }

  lemma ScanFailsHarmlessly(d: Daemon)
    requires PidDiscipline(d) && Enabled(d, ScanFails) && NoVictims(d.db.table, d.ingest.successor, d.ingest.pid)
    ensures PidDiscipline(After(d, ScanFails))
  {
    var e := After(d, ScanFails);
    forall k: Key, pid: Pid | Claims(e.db, k, pid) ensures LastEmitter(e.db.log, pid) == Some(k) {
      assert Claims(d.db, k, pid);
      assert !IsVictim(k, StoredState(d.db.table, k), d.ingest.successor, d.ingest.pid);
    }
  }

  /** A listed row that still is as listed does not claim the pid once its turn is over. */
  lemma ListedRowGivesWay(d: Daemon, commits: bool)
    requires Enabled(d, SupersedeNext(commits)) && Harmless(d, SupersedeNext(commits))
    requires d.ingest.rows[0].key != d.ingest.successor
    requires d.ingest.rows[0].state == StoredState(d.db.table, d.ingest.rows[0].key)
    ensures !Claims(After(d, SupersedeNext(commits)).db, d.ingest.rows[0].key, d.ingest.pid)
  {
  }

  lemma SupersedeNextKeepsPidDiscipline(d: Daemon, commits: bool)
    requires PidDiscipline(d) && Enabled(d, SupersedeNext(commits)) && Harmless(d, SupersedeNext(commits))
    ensures PidDiscipline(After(d, SupersedeNext(commits)))
  {
    var w := SupersedeWrite(d.ingest.rows[0], d.ingest.successor, d.ingest.pid, d.ingest.observedAt);
    var m, e := Commits(d, w, Attempted(d, commits)), After(d, SupersedeNext(commits));
    EndKeepsPidDiscipline(d, w, Attempted(d, commits));
    assert e.db == m.db && e.ingest == d.ingest.(rows := d.ingest.rows[1..]);
    forall k: Key, pid: Pid | Claims(e.db, k, pid)
      ensures LastEmitter(e.db.log, pid) == Some(k) || AwaitsSupersession(e, k, pid)
    {
      if LastEmitter(d.db.log, pid) != Some(k) {
        assert Claims(d.db, k, pid) && AwaitsSupersession(d, k, pid);
        var i :| 0 <= i < |d.ingest.rows| && d.ingest.rows[i].key == k &&
          d.ingest.rows[i].state == StoredState(d.db.table, k);
        if i == 0 {
          ListedRowGivesWay(d, commits);
          assert false;
        } else {
          assert e.ingest.rows[i - 1] == d.ingest.rows[i];
        }
      }
    }
  }

  lemma StepKeepsPidDiscipline(d: Daemon, step: Step)
    requires PidDiscipline(d) && Enabled(d, step) && Harmless(d, step)
    ensures PidDiscipline(After(d, step))
  {
    var e := After(d, step);
    match step
    case Primary(env, origin) => PrimaryKeepsPidDisciplineIff(d, env, origin);
    case ScanFails => ScanFailsHarmlessly(d);
    case SupersedeNext(commits) => SupersedeNextKeepsPidDiscipline(d, commits);
    case ProbeNext(signalable, commits) =>
      var w := ProbeWrite(d.probe.rows[0], signalable, d.probe.observedAt);
      EndKeepsPidDiscipline(d, w, Attempted(d, commits));
      SameTablesSameDiscipline(Commits(d, w, Attempted(d, commits)), e);
    case Scan(rows) => ScanKeepsPidDiscipline(d, rows);
    case SupersedeDone =>
      forall k: Key, pid: Pid | Claims(e.db, k, pid) ensures LastEmitter(e.db.log, pid) == Some(k) {
        assert Claims(d.db, k, pid);
      }
    case Marker(kind) => MarkerKeepsPidDiscipline(d, kind);
    case _ => SameTablesSameDiscipline(d, e);
  }

  lemma ScanKeepsPidDiscipline(d: Daemon, rows: seq<ListedRow>)
    requires PidDiscipline(d) && Enabled(d, Scan(rows))
    ensures PidDiscipline(After(d, Scan(rows)))
  {
    var e := After(d, Scan(rows));
    forall k: Key, pid: Pid | Claims(e.db, k, pid)
      ensures LastEmitter(e.db.log, pid) == Some(k) || AwaitsSupersession(e, k, pid)
    {
      assert Claims(d.db, k, pid);
      assert Mentions(rows, k);
    }
  }

  lemma MarkerKeepsPidDiscipline(d: Daemon, kind: EventKind)
    requires PidDiscipline(d) && Enabled(d, Marker(kind))
    ensures PidDiscipline(After(d, Marker(kind)))
  {
    var e := After(d, Marker(kind));
    assert e.db.log[..|d.db.log|] == d.db.log;
    forall k: Key, pid: Pid | Claims(e.db, k, pid)
      ensures LastEmitter(e.db.log, pid) == Some(k) || AwaitsSupersession(e, k, pid)
    {
      assert Claims(d.db, k, pid);
      assert StoredState(e.db.table, k) == StoredState(d.db.table, k);
    }
  }

  lemma SameTablesSameDiscipline(d: Daemon, e: Daemon)
    requires PidDiscipline(d) && d.db == e.db && d.ingest == e.ingest
    ensures PidDiscipline(e)
  {
    forall k: Key, pid: Pid | Claims(e.db, k, pid)
      ensures LastEmitter(e.db.log, pid) == Some(k) || AwaitsSupersession(e, k, pid)
    {
      assert Claims(d.db, k, pid);
    }
  }

  lemma {:induction false} RunsKeepPidDiscipline(d: Daemon, steps: seq<Step>)
    requires PidDiscipline(d) && IsRun(d, steps) && HarmlessRun(d, steps)
    ensures PidDiscipline(Final(d, steps))
  {
    if steps != [] {
      RunsKeepPidDiscipline(d, steps[..|steps| - 1]);
      StepKeepsPidDiscipline(Final(d, steps[..|steps| - 1]), steps[|steps| - 1]);
    }
  }

  /** Whenever the ingest task is between items, a session that is not ended and claims a pid is the
      session of the most recent hook event carrying that pid; so a pid has at most one live holder.
      The run starts from an empty database and has no disruptive step. */
  lemma PidHolderIsLastEmitter(d: Daemon, steps: seq<Step>)
    requires Initial(d) && d.db == EMPTY_DB && IsRun(d, steps) && HarmlessRun(d, steps)
    requires Final(d, steps).ingest.Receiving?
    ensures forall key: Key, pid: Pid :: Claims(Final(d, steps).db, key, pid) ==>
      LastEmitter(Final(d, steps).db.log, pid) == Some(key)
    ensures forall a: Key, b: Key, pid: Pid :: Claims(Final(d, steps).db, a, pid) && Claims(Final(d, steps).db, b, pid) ==> a == b
  {
    RunsKeepPidDiscipline(d, steps);
  }

  /** In particular, where every hook reports its pid, nothing is replayed and no write that supersession
      depends on fails, no step is disruptive. */
  predicate Attributed(step: Step) {
    match step
    case Primary(env, origin) => origin.Live? && env.pid.Some?
    case ScanFails => false
    case SupersedeNext(commits) => commits
    case _ => true
  }

  lemma {:induction false} AttributedRunsAreHarmless(d: Daemon, steps: seq<Step>)
    requires IsRun(d, steps) && forall i :: 0 <= i < |steps| ==> Attributed(steps[i])
    ensures HarmlessRun(d, steps)
  {
    if steps != [] {
      var before := steps[..|steps| - 1];
      assert forall i :: 0 <= i < |before| ==> before[i] == steps[i];
      AttributedRunsAreHarmless(d, before);
      assert Attributed(steps[|steps| - 1]);
    }
  }

  // ---- A session ends once ----

  ghost predicate EndsOnce(log: seq<Event>) {
    forall key: Key :: key != SENTINEL_KEY ==> NoDoubleEnd(SessionLog(log, key))
  }

  /** No end directly follows an end; between any two ends there is another event. */
  ghost predicate NoDoubleEnd(h: seq<Event>) {
    forall i :: 0 <= i < |h| - 1 ==> !(h[i].kind.SessionEnded? && h[i + 1].kind.SessionEnded?)
  }

  /** An end for a session whose last event already is one. Hooks cannot bring it, a replay can. */
  predicate RepeatsEnd(db: Db, env: EventEnvelope) {
    var h := SessionLog(db.log, env.key);
    env.kind.SessionEnded? && env.key != SENTINEL_KEY && h != [] && h[|h| - 1].kind.SessionEnded?
  }

  predicate RepeatsNoEnd(d: Daemon, step: Step) {
    step.Primary? ==> !RepeatsEnd(d.db, step.env)
  }

  ghost predicate RepeatsNoEndEver(d: Daemon, steps: seq<Step>)
    requires IsRun(d, steps)
  {
    steps == [] ||
    (RepeatsNoEndEver(d, steps[..|steps| - 1]) && RepeatsNoEnd(Final(d, steps[..|steps| - 1]), steps[|steps| - 1]))
  }

  /** A live row means the last event of the session's history is not an end. */
  lemma LiveMeansNotEndedLast(db: Db, key: Key)
    requires Consistent(db) && key != SENTINEL_KEY && IsLive(StoredState(db.table, key))
    ensures var h := SessionLog(db.log, key); h != [] && !h[|h| - 1].kind.SessionEnded?
  {
    var h := SessionLog(db.log, key);
    RowIsFoldOfHistory(db.log, key);
    History.HistoryCharacterisation(h);
    assert !History.InState(History.Fold(h), Ended);
    assert h == h[..|h| - 1] + [h[|h| - 1]];
    History.EndedSnoc(h[..|h| - 1], h[|h| - 1]);
  }

  /** Appending keeps it, unless the event repeats an end. */
  lemma AppendKeepsEndsOnce(log: seq<Event>, e: Event)
    requires EndsOnce(log)
    requires var h := SessionLog(log, e.key);
      e.kind.SessionEnded? && e.key != SENTINEL_KEY && h != [] ==> !h[|h| - 1].kind.SessionEnded?
    ensures EndsOnce(log + [e])
  {
    ProjectSnoc(log, e);
    forall key: Key | key != SENTINEL_KEY ensures NoDoubleEnd(SessionLog(log + [e], key)) {
      assert NoDoubleEnd(SessionLog(log, key));
    }
  }

  lemma CommitKeepsEndsOnce(d: Daemon, w: Option<GuardedWrite>, attempt: Attempt)
    requires Consistent(d.db) && EndsOnce(d.db.log)
    requires w.Some? && w.value.env.kind.SessionEnded? ==>
      !RepeatsEnd(d.db, w.value.env) || (w.value.guard.Some? && !w.value.guard.value.currentState.Ended?)
    ensures EndsOnce(Commits(d, w, attempt).db.log)
  {
    var log := Commits(d, w, attempt).db.log;
    if w.Some? && log != d.db.log {
      var event := EventOf(w.value.env, |d.db.log| + 1, attempt.now);
      assert log == d.db.log + [event];
      if RepeatsEnd(d.db, w.value.env) { LiveMeansNotEndedLast(d.db, event.key); }
      AppendKeepsEndsOnce(d.db.log, event);
    }
  }

  /** The exact condition for the primary write of any event, live or replayed. */
  lemma PrimaryEndsOnceIff(d: Daemon, env: EventEnvelope, origin: Origin)
    requires Consistent(d.db) && EndsOnce(d.db.log) && Enabled(d, Primary(env, origin))
    ensures EndsOnce(After(d, Primary(env, origin)).db.log) <==> !RepeatsEnd(d.db, env)
  {
    if RepeatsEnd(d.db, env) {
      var h, event := SessionLog(d.db.log, env.key), EventOf(env, |d.db.log| + 1, d.clock);
      ProjectSnoc(d.db.log, event);
      assert (h + [event])[|h| - 1].kind.SessionEnded? && (h + [event])[|h|].kind.SessionEnded?;
      assert !NoDoubleEnd(SessionLog(After(d, Primary(env, origin)).db.log, env.key));
    } else {
      CommitKeepsEndsOnce(d, Some(GuardedWrite(env, None)), At(d.clock));
    }
  }

  lemma StepKeepsEndsOnce(d: Daemon, step: Step)
    requires Consistent(d.db) && EndsOnce(d.db.log) && Enabled(d, step) && RepeatsNoEnd(d, step)
    ensures EndsOnce(After(d, step).db.log)
  {
    match step
    case Primary(env, origin) => PrimaryEndsOnceIff(d, env, origin);
    case SupersedeNext(commits) =>
      CommitKeepsEndsOnce(d, SupersedeWrite(d.ingest.rows[0], d.ingest.successor, d.ingest.pid, d.ingest.observedAt),
                          Attempted(d, commits));
    case ProbeNext(signalable, commits) =>
      CommitKeepsEndsOnce(d, ProbeWrite(d.probe.rows[0], signalable, d.probe.observedAt), Attempted(d, commits));
    case Marker(kind) =>
      ProjectSnoc(d.db.log, WriteSentinel(d.db, kind, d.clock).log[|d.db.log|]);
      forall key: Key | key != SENTINEL_KEY ensures NoDoubleEnd(SessionLog(After(d, step).db.log, key)) {
        assert NoDoubleEnd(SessionLog(d.db.log, key));
      }
    case _ =>
  }

  /** However ingest, replay, supersession and the probe interleave, and whatever fails, a session that
      was ended is not ended again until it has shown life, unless a replayed end says so itself. */
  lemma {:induction false} NoSessionEndsTwice(d: Daemon, steps: seq<Step>)
    requires Initial(d) && EndsOnce(d.db.log) && IsRun(d, steps) && RepeatsNoEndEver(d, steps)
    ensures EndsOnce(Final(d, steps).db.log)
  {
    if steps != [] {
      NoSessionEndsTwice(d, steps[..|steps| - 1]);
      RunsStayInStep(d, steps[..|steps| - 1]);
      StepKeepsEndsOnce(Final(d, steps[..|steps| - 1]), steps[|steps| - 1]);
    }
  }

  /** Without replay that never happens. */
  lemma {:induction false} LiveRunsRepeatNoEnd(d: Daemon, steps: seq<Step>)
    requires IsRun(d, steps) && forall i :: 0 <= i < |steps| && steps[i].Primary? ==> steps[i].origin.Live?
    ensures RepeatsNoEndEver(d, steps)
  {
    if steps != [] {
      var before := steps[..|steps| - 1];
      assert forall i :: 0 <= i < |before| ==> before[i] == steps[i];
      LiveRunsRepeatNoEnd(d, before);
      assert Enabled(Final(d, before), steps[|steps| - 1]);
    }
  }

  // ---- A sweep is its steps with nothing in between ----

  lemma RunSnoc(d: Daemon, steps: seq<Step>, step: Step)
    requires IsRun(d, steps) && Enabled(Final(d, steps), step)
    ensures IsRun(d, steps + [step]) && Final(d, steps + [step]) == After(Final(d, steps), step)
  {
    assert (steps + [step])[..|steps|] == steps;
  }

  function Settled(d: Daemon): Daemon {
    d.(hub := d.hub + d.inflight, inflight := [])
  }

  lemma {:induction false} PublishAll(d: Daemon, steps: seq<Step>) returns (all: seq<Step>)
    requires IsRun(d, steps)
    ensures IsRun(d, all) && Final(d, all) == Settled(Final(d, steps))
    decreases |Final(d, steps).inflight|
  {
    var m := Final(d, steps);
    if m.inflight == [] {
      assert m.hub + [] == m.hub;
      all := steps;
    } else {
      RunSnoc(d, steps, PublishNext);
      all := PublishAll(d, steps + [PublishNext]);
      assert m.hub + [m.inflight[0]] + m.inflight[1..] == m.hub + m.inflight;
    }
  }

  /** The clock advances to the attempt's time, the sweep's step runs, and what it owes is published. */
  ghost function RowDone(d: Daemon, step: Step, attempt: Attempt): Daemon
    requires d.inflight == [] && (step.SupersedeNext? || step.ProbeNext?) && Enabled(d, step)
  {
    var k := if attempt.At? then d.(clock := attempt.now) else d;
    Settled(After(k, step))
  }

  lemma RowIsRun(d: Daemon, steps: seq<Step>, step: Step, attempt: Attempt) returns (all: seq<Step>)
    requires IsRun(d, steps) && Final(d, steps).inflight == [] && Enabled(Final(d, steps), step)
    requires step.SupersedeNext? || step.ProbeNext?
    requires attempt.At? ==> Final(d, steps).clock <= attempt.now
    ensures IsRun(d, all) && Final(d, all) == RowDone(Final(d, steps), step, attempt)
  {
    all := steps;
    if attempt.At? {
      RunSnoc(d, all, Tick(attempt.now));
      all := all + [Tick(attempt.now)];
    }
    RunSnoc(d, all, step);
    all := PublishAll(d, all + [step]);
  }

  /** From attempt `used` on no attempt runs at a time before `clock` or before an earlier attempt's. */
  ghost predicate InTime(attempts: nat -> Attempt, used: nat, clock: Millis) {
    && (forall i :: used <= i && attempts(i).At? ==> clock <= attempts(i).now)
    && (forall i, j :: used <= i <= j && attempts(i).At? && attempts(j).At? ==> attempts(i).now <= attempts(j).now)
  }

  /** The daemon stands where the sweep does. */
  ghost predicate StandsAt(d: Daemon, s: Sweep, attempts: nat -> Attempt) {
    d.db == s.db && d.hub == s.published && d.inflight == [] && InTime(attempts, s.used, d.clock)
  }

  lemma SupersedeRowIsStep(d: Daemon, s: Sweep, attempts: nat -> Attempt)
    requires StandsAt(d, s, attempts) && Enabled(d, SupersedeNext(attempts(s.used).At?))
    ensures var row := d.ingest.rows[0];
      var e := RowDone(d, SupersedeNext(attempts(s.used).At?), if IsVictim(row.key, row.state, d.ingest.successor, d.ingest.pid) then attempts(s.used) else Fails);
      && StandsAt(e, SupersedeRow(s, row, d.ingest.successor, d.ingest.pid, d.ingest.observedAt, attempts), attempts)
      && e.ingest == d.ingest.(rows := d.ingest.rows[1..]) && e.probe == d.probe
  {
  }

  lemma ProbeRowIsStep(d: Daemon, s: Sweep, signalable: bool, attempts: nat -> Attempt)
    requires StandsAt(d, s, attempts) && Enabled(d, ProbeNext(signalable, attempts(s.used).At?))
    ensures var row := d.probe.rows[0];
      var e := RowDone(d, ProbeNext(signalable, attempts(s.used).At?), if ProbeEnds(row.state, signalable) then attempts(s.used) else Fails);
      && StandsAt(e, ProbeRow(s, row, signalable, d.probe.observedAt, attempts), attempts)
      && e.probe == d.probe.(rows := d.probe.rows[1..]) && e.ingest == d.ingest
  {
  }

  /** The store's supersession loop over the first `n` listed rows does what a run of the daemon does that
      takes those rows one after the other, whichever attempts fail. */
  lemma {:induction false} SupersessionIsARun(d: Daemon, s: Sweep, attempts: nat -> Attempt, n: nat) returns (steps: seq<Step>)
    requires StandsAt(d, s, attempts) && d.ingest.Superseding? && n <= |d.ingest.rows|
    ensures IsRun(d, steps)
    ensures StandsAt(Final(d, steps), SupersedeRows(s, d.ingest.rows[..n], d.ingest.successor, d.ingest.pid, d.ingest.observedAt, attempts), attempts)
    ensures Final(d, steps).ingest == d.ingest.(rows := d.ingest.rows[n..]) && Final(d, steps).probe == d.probe
  {
    steps := [];
    if n > 0 {
      steps := SupersessionIsARun(d, s, attempts, n - 1);
      var rows, m := d.ingest.rows, Final(d, steps);
      assert rows[..n][..n - 1] == rows[..n - 1] && rows[n - 1..][0] == rows[n - 1] && rows[n - 1..][1..] == rows[n..];
      var t := SupersedeRows(s, rows[..n - 1], d.ingest.successor, d.ingest.pid, d.ingest.observedAt, attempts);
      var row, attempt := rows[n - 1], attempts(t.used);
      SupersedeRowIsStep(m, t, attempts);
      steps := RowIsRun(d, steps, SupersedeNext(attempt.At?),
                        if IsVictim(row.key, row.state, d.ingest.successor, d.ingest.pid) then attempt else Fails);
    } else {
      assert d.ingest.rows[0..] == d.ingest.rows;
    }
  }

  /** Likewise the probe's loop. */
  lemma {:induction false} ProbeIsARun(d: Daemon, s: Sweep, signalable: nat -> bool, attempts: nat -> Attempt, n: nat) returns (steps: seq<Step>)
    requires StandsAt(d, s, attempts) && d.probe.Probing? && n <= |d.probe.rows|
    ensures IsRun(d, steps)
    ensures StandsAt(Final(d, steps), ProbeRows(s, d.probe.rows[..n], signalable, d.probe.observedAt, attempts), attempts)
    ensures Final(d, steps).probe == d.probe.(rows := d.probe.rows[n..]) && Final(d, steps).ingest == d.ingest
  {
    steps := [];
    if n > 0 {
      steps := ProbeIsARun(d, s, signalable, attempts, n - 1);
      var rows, m := d.probe.rows, Final(d, steps);
      assert rows[..n][..n - 1] == rows[..n - 1] && rows[n - 1..][0] == rows[n - 1] && rows[n - 1..][1..] == rows[n..];
      var t := ProbeRows(s, rows[..n - 1], signalable, d.probe.observedAt, attempts);
      var attempt := attempts(t.used);
      ProbeRowIsStep(m, t, signalable(n - 1), attempts);
      steps := RowIsRun(d, steps, ProbeNext(signalable(n - 1), attempt.At?),
                        if ProbeEnds(rows[n - 1].state, signalable(n - 1)) then attempt else Fails);
    } else {
      assert d.probe.rows[0..] == d.probe.rows;
    }
  }
}
