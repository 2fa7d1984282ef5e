/** The projection store as the daemon runs it (`projection/session.rs`, `projection/liveness.rs`):
    tables updated in place, publications after each commit, and the loops over many rows. */
module Store {
  import opened Protocol
  import opened StateMachine
  import opened Projection
  import opened Hub
  import History

  /** A row as the session SELECTs return it. */
  datatype ListedRow = ListedRow(key: Key, state: Option<SessionState>)

  datatype EndedReason = NoPidAtUpgrade | PidDead | PidSuperseded

  function Decimal(n: nat): string {
    if n < 10 then ["0123456789"[n]] else Decimal(n / 10) + ["0123456789"[n % 10]]
  }

  function ReasonText(r: EndedReason): string {
    match r
    case NoPidAtUpgrade => "no_pid_at_upgrade"
    case PidDead => "pid_dead"
    case PidSuperseded => "pid_superseded"
  }

  /** The payload of a synthetic `SessionEnded`. It spells no notification type. */
  function EndedPayload(reason: EndedReason, pid: Option<Pid>, observedAt: Millis): Payload {
    var p := if pid.Some? then Decimal(pid.value) else "null";
    var ms: int := observedAt;
    var t := if ms < 0 then "-" + Decimal(-ms) else Decimal(ms);
    Payload("{\"reason\":\"" + ReasonText(reason) + "\",\"pid\":" + p + ",\"observed_at_ms\":" + t + "}", None)
  }

  /** The synthetic `SessionEnded` that the probe and supersession write: it repeats the pid it
      observed and leaves the directory to carry-forward. */
  function EndedEnvelope(key: Key, reason: EndedReason, pid: Option<Pid>, observedAt: Millis): (env: EventEnvelope)
    ensures WellTyped(env)
  {
    EventEnvelope(key, SessionEnded, None, EndedPayload(reason, pid, observedAt), pid, None, None)
  }

  /** A predecessor still claiming the pid: some other session, not ended, on that pid. */
  predicate IsVictim(key: Key, state: Option<SessionState>, successor: Key, pid: Pid) {
    key != successor && state.Some? && !state.value.currentState.Ended? && state.value.lastPid == Some(pid)
  }

  /** No session outside the sentinel source is a victim any more. */
  ghost predicate NoVictims(table: map<Key, Row>, successor: Key, pid: Pid) {
    forall k: Key :: k.source != DAEMON_SENTINEL ==> !IsVictim(k, StoredState(table, k), successor, pid)
  }

  predicate IsEnded(state: Option<SessionState>) {
    state.Some? && state.value.currentState.Ended?
  }

  /** None of the attempts in the range failed. */
  ghost predicate NoFaults(attempts: nat -> Attempt, from: nat, to: nat) {
    forall n :: from <= n < to ==> attempts(n).At?
  }

  /** The guard of supersession pins the time of the victim's last event as well. */
  function VictimGuard(stored: SessionState, pid: Pid): Precondition {
    Precondition(stored.currentState, Some(pid), Some(stored.lastEventAt))
  }

  /** The guard of the liveness probe does not. */
  function ProbeGuard(stored: SessionState): Precondition {
    Precondition(stored.currentState, stored.lastPid, None)
  }

  const I32_MAX := 0x7FFF_FFFF

  /** `kill(pid, 0)`: a pid beyond `i32` counts as dead without asking the system. */
  predicate IsPidAlive(pid: Pid, signalable: bool) {
    pid <= I32_MAX && signalable
  }

  /** Whether the probe ends a row, given what the system says about its pid. */
  predicate ProbeEnds(state: Option<SessionState>, signalable: bool) {
    state.Some? && !state.value.currentState.Ended? &&
    (state.value.lastPid.Some? ==> !IsPidAlive(state.value.lastPid.value, signalable))
  }

  function ProbeReason(stored: SessionState): EndedReason {
    if stored.lastPid.None? then NoPidAtUpgrade else PidDead
  }

  /** The rows of `table` outside the sentinel source, each exactly once, in some order. */
  ghost predicate Lists(rows: seq<ListedRow>, table: map<Key, Row>) {
    && (forall i :: 0 <= i < |rows| ==>
          rows[i].key in table && rows[i].key.source != DAEMON_SENTINEL && rows[i].state == table[rows[i].key].state)
    && (forall k :: k in table && k.source != DAEMON_SENTINEL ==> Mentions(rows, k))
    && (forall i, j :: 0 <= i < j < |rows| ==> rows[i].key != rows[j].key)
  }

  predicate IsLive(state: Option<SessionState>) {
    state.Some? && !state.value.currentState.Ended?
  }

  // ---- Sweeps: many guarded writes, one row after the other ----

  /** The counters of a sweep. */
  datatype Report = Report(emitted: nat, failed: nat, skippedStale: nat)

  function Count(r: Report, outcome: WriteOutcome): Report {
    match outcome
    case Written(_) => r.(emitted := r.emitted + 1)
    case Skipped => r.(skippedStale := r.skippedStale + 1)
    case _ => r.(failed := r.failed + 1)
  }

  /** The tables, everything published so far, and the counters, part way through a sweep. */
  datatype Sweep = Sweep(db: Db, published: seq<BroadcastEnvelope>, used: nat,
                         report: Report)

  function StartSweep(db: Db, published: seq<BroadcastEnvelope>, used: nat): Sweep {
    Sweep(db, published, used, Report(0, 0, 0))
  }

  /** One guarded synthetic end. */
  function EndGuarded(s: Sweep, env: EventEnvelope, guard: Precondition, attempts: nat -> Attempt): Sweep {
    var c := WriteInner(s.db, env, Some(guard), attempts(s.used));
    Sweep(c.db, s.published + c.published, s.used + 1, Count(s.report, c.outcome))
  }

  /** Supersession's treatment of one row of its scan. */
  function SupersedeRow(s: Sweep, row: ListedRow, successor: Key, pid: Pid, observedAt: Millis,
                        attempts: nat -> Attempt): Sweep
  {
    if !IsVictim(row.key, row.state, successor, pid) then s
    else EndGuarded(s, EndedEnvelope(row.key, PidSuperseded, Some(pid), observedAt),
                    VictimGuard(row.state.value, pid), attempts)
  }

  function SupersedeRows(s: Sweep, rows: seq<ListedRow>, successor: Key, pid: Pid, observedAt: Millis,
                         attempts: nat -> Attempt): Sweep
  {
    if rows == [] then s
    else SupersedeRow(SupersedeRows(s, rows[..|rows| - 1], successor, pid, observedAt, attempts),
                      rows[|rows| - 1], successor, pid, observedAt, attempts)
  }

  /** The probe's treatment of one row of its scan. */
  function ProbeRow(s: Sweep, row: ListedRow, signalable: bool, observedAt: Millis, attempts: nat -> Attempt): Sweep {
    if !ProbeEnds(row.state, signalable) then s
    else EndGuarded(s, EndedEnvelope(row.key, ProbeReason(row.state.value), row.state.value.lastPid, observedAt),
                    ProbeGuard(row.state.value), attempts)
  }

  function ProbeRows(s: Sweep, rows: seq<ListedRow>, signalable: nat -> bool, observedAt: Millis,
                     attempts: nat -> Attempt): Sweep
  {
    if rows == [] then s
    else ProbeRow(ProbeRows(s, rows[..|rows| - 1], signalable, observedAt, attempts),
                  rows[|rows| - 1], signalable(|rows| - 1), observedAt, attempts)
  }

  lemma EndGuardedEffect(s: Sweep, env: EventEnvelope, guard: Precondition, attempts: nat -> Attempt)
    requires env.kind.SessionEnded?
    ensures var t := EndGuarded(s, env, guard, attempts);
      && t.report.emitted + t.report.skippedStale + t.report.failed == s.report.emitted + s.report.skippedStale + s.report.failed + 1
      && (t.report.failed > s.report.failed <==> attempts(s.used).Fails?)
      && (t.report.emitted == s.report.emitted ==> t.db == s.db && t.published == s.published)
      && (t.report.emitted > s.report.emitted ==>
            t.report.emitted == s.report.emitted + 1 && IsEnded(StoredState(t.db.table, env.key)) &&
            |t.db.log| == |s.db.log| + 1 && s.db.log <= t.db.log &&
            t.db.log[|s.db.log|] == EventOf(env, |s.db.log| + 1, attempts(s.used).now))
      && (forall k :: k != env.key ==> StoredState(t.db.table, k) == StoredState(s.db.table, k))
      && (t.report.skippedStale > s.report.skippedStale <==>
            attempts(s.used).At? && !Allows(Some(guard), StoredState(s.db.table, env.key)))
  {
  }

  /** The rows a scan returned are still what the tables hold, and no session is listed twice. */
  ghost predicate Scanned(db: Db, rows: seq<ListedRow>) {
    && (forall i :: 0 <= i < |rows| ==> StoredState(db.table, rows[i].key) == rows[i].state)
    && (forall i, j :: 0 <= i < j < |rows| ==> rows[i].key != rows[j].key)
  }

  predicate Mentions(rows: seq<ListedRow>, key: Key) {
    exists i :: 0 <= i < |rows| && rows[i].key == key
  }

  lemma ScannedPrefix(db: Db, rows: seq<ListedRow>)
    requires Scanned(db, rows) && rows != []
    ensures Scanned(db, rows[..|rows| - 1]) && !Mentions(rows[..|rows| - 1], rows[|rows| - 1].key)
    ensures forall k :: Mentions(rows, k) <==> Mentions(rows[..|rows| - 1], k) || k == rows[|rows| - 1].key
  {
    forall k ensures Mentions(rows, k) <==> Mentions(rows[..|rows| - 1], k) || k == rows[|rows| - 1].key {
      if Mentions(rows[..|rows| - 1], k) {
        var i :| 0 <= i < |rows| - 1 && rows[..|rows| - 1][i].key == k;
        assert rows[i].key == k;
      }
      if Mentions(rows, k) && k != rows[|rows| - 1].key {
        var i :| 0 <= i < |rows| && rows[i].key == k;
        assert rows[..|rows| - 1][i].key == k;
      }
    }
  }

  /** A supersession scan leaves alone every session that is not a listed victim, and ends each
      listed victim unless one of its attempts failed; it never meets a stale row. */
  lemma {:induction false} SupersedeRowsEffect(s: Sweep, rows: seq<ListedRow>, successor: Key, pid: Pid,
                                               observedAt: Millis, attempts: nat -> Attempt)
    requires Scanned(s.db, rows)
    ensures var t := SupersedeRows(s, rows, successor, pid, observedAt, attempts);
      && t.report.skippedStale == s.report.skippedStale
      && t.used >= s.used
      && (forall k :: StoredState(t.db.table, k) != StoredState(s.db.table, k) ==>
            Mentions(rows, k) && IsVictim(k, StoredState(s.db.table, k), successor, pid) && IsEnded(StoredState(t.db.table, k)))
      && (NoFaults(attempts, s.used, t.used) ==>
            forall k :: Mentions(rows, k) ==> !IsVictim(k, StoredState(t.db.table, k), successor, pid))
  {
    if rows != [] {
      var init, row := rows[..|rows| - 1], rows[|rows| - 1];
      ScannedPrefix(s.db, rows);
      SupersedeRowsEffect(s, init, successor, pid, observedAt, attempts);
      var m := SupersedeRows(s, init, successor, pid, observedAt, attempts);
      assert StoredState(m.db.table, row.key) == row.state;
      if IsVictim(row.key, row.state, successor, pid) {
        EndGuardedEffect(m, EndedEnvelope(row.key, PidSuperseded, Some(pid), observedAt),
                         VictimGuard(row.state.value, pid), attempts);
      }
    }
  }

  /** Every event a supersession scan adds ends a victim, on the shared pid. */
  lemma {:induction false} SupersedeRowsOnlyEnds(s: Sweep, rows: seq<ListedRow>, successor: Key, pid: Pid,
                                                 observedAt: Millis, attempts: nat -> Attempt)
    requires Scanned(s.db, rows)
    ensures var t := SupersedeRows(s, rows, successor, pid, observedAt, attempts);
      && s.db.log <= t.db.log && |t.db.log| - |s.db.log| == t.report.emitted - s.report.emitted
      && (forall i :: |s.db.log| <= i < |t.db.log| ==>
            t.db.log[i].kind.SessionEnded? && t.db.log[i].pid == Some(pid) &&
            IsVictim(t.db.log[i].key, StoredState(s.db.table, t.db.log[i].key), successor, pid))
  {
    if rows != [] {
      var init, row := rows[..|rows| - 1], rows[|rows| - 1];
      ScannedPrefix(s.db, rows);
      SupersedeRowsOnlyEnds(s, init, successor, pid, observedAt, attempts);
      var m := SupersedeRows(s, init, successor, pid, observedAt, attempts);
      if IsVictim(row.key, row.state, successor, pid) {
        assert StoredState(s.db.table, row.key) == row.state;
        EndGuardedEffect(m, EndedEnvelope(row.key, PidSuperseded, Some(pid), observedAt),
                         VictimGuard(row.state.value, pid), attempts);
      }
    }
  }

  /** What a probe does to one row that still is as it was listed. */
  lemma ProbeRowEffect(s: Sweep, row: ListedRow, signalable: bool, observedAt: Millis, attempts: nat -> Attempt)
    requires StoredState(s.db.table, row.key) == row.state
    ensures var t := ProbeRow(s, row, signalable, observedAt, attempts);
      && t.report.skippedStale == s.report.skippedStale && t.report.failed >= s.report.failed
      && (forall k :: k != row.key ==> StoredState(t.db.table, k) == StoredState(s.db.table, k))
      && (!ProbeEnds(row.state, signalable) ==> t == s)
      && (ProbeEnds(row.state, signalable) ==>
            IsEnded(StoredState(t.db.table, row.key)) ||
            (t.report.failed > s.report.failed && StoredState(t.db.table, row.key) == row.state))
  {
    if ProbeEnds(row.state, signalable) {
      EndGuardedEffect(s, EndedEnvelope(row.key, ProbeReason(row.state.value), row.state.value.lastPid, observedAt),
                       ProbeGuard(row.state.value), attempts);
    }
  }

  /** What a probe changes: listed live rows, to ended. It never meets a stale row. */
  lemma {:induction false} ProbeRowsChanges(s: Sweep, rows: seq<ListedRow>, signalable: nat -> bool,
                                            observedAt: Millis, attempts: nat -> Attempt)
    requires Scanned(s.db, rows)
    ensures var t := ProbeRows(s, rows, signalable, observedAt, attempts);
      && t.report.skippedStale == s.report.skippedStale
      && t.report.failed >= s.report.failed
      && (forall k :: StoredState(t.db.table, k) != StoredState(s.db.table, k) ==>
            Mentions(rows, k) && IsLive(StoredState(s.db.table, k)) && IsEnded(StoredState(t.db.table, k)))
  {
    if rows != [] {
      var init, row := rows[..|rows| - 1], rows[|rows| - 1];
      ScannedPrefix(s.db, rows);
      ProbeRowsChanges(s, init, signalable, observedAt, attempts);
      var m := ProbeRows(s, init, signalable, observedAt, attempts);
      assert StoredState(m.db.table, row.key) == row.state;
      ProbeRowEffect(m, row, signalable(|rows| - 1), observedAt, attempts);
    }
  }

  /** Rows it spares stay as they are, and every row it does not spare is ended unless an attempt failed. */
  lemma {:induction false} ProbeRowsOutcome(s: Sweep, rows: seq<ListedRow>, signalable: nat -> bool,
                                            observedAt: Millis, attempts: nat -> Attempt)
    requires Scanned(s.db, rows)
    ensures var t := ProbeRows(s, rows, signalable, observedAt, attempts);
      && (forall i :: 0 <= i < |rows| && !ProbeEnds(rows[i].state, signalable(i)) ==>
            StoredState(t.db.table, rows[i].key) == rows[i].state)
      && (t.report.failed == s.report.failed ==> ProbedAll(rows, signalable, t.db.table))
  {
    if rows != [] {
      var init, row := rows[..|rows| - 1], rows[|rows| - 1];
      ScannedPrefix(s.db, rows);
      ProbeRowsOutcome(s, init, signalable, observedAt, attempts);
      ProbeRowsChanges(s, init, signalable, observedAt, attempts);
      var m, t := ProbeRows(s, init, signalable, observedAt, attempts), ProbeRows(s, rows, signalable, observedAt, attempts);
      assert StoredState(m.db.table, row.key) == row.state;
      ProbeRowEffect(m, row, signalable(|rows| - 1), observedAt, attempts);
      forall i | 0 <= i < |rows|
        ensures !ProbeEnds(rows[i].state, signalable(i)) ==> StoredState(t.db.table, rows[i].key) == rows[i].state
        ensures t.report.failed == s.report.failed && ProbeEnds(rows[i].state, signalable(i)) ==>
          IsEnded(StoredState(t.db.table, rows[i].key))
      {
        if i < |init| { assert init[i] == rows[i] && rows[i].key != row.key; }
      }
    }
  }

  /** What a probe without failures leaves of the rows it took: sessions without a readable state, ended ones,
      and live ones whose pid is a possible process id that answers, are as they were listed; live ones
      without a pid, with a pid that does not answer, or with one beyond 2^31 - 1, are ended. */
  ghost predicate ProbedAll(rows: seq<ListedRow>, signalable: nat -> bool, table: map<Key, Row>) {
    forall i :: 0 <= i < |rows| ==>
      var listed, now := rows[i].state, StoredState(table, rows[i].key);
      if listed.None? || listed.value.currentState == Ended then now == listed
      else
        match listed.value.lastPid
        case None => now.Some? && now.value.currentState == Ended
        case Some(pid) =>
          if pid <= 0x7FFF_FFFF && signalable(i) then now == listed else now.Some? && now.value.currentState == Ended
  }

  /** Whatever fails, a session whose pid is a possible process id that answers stays as it was listed. */
  ghost predicate SparesTheLiving(rows: seq<ListedRow>, signalable: nat -> bool, table: map<Key, Row>) {
    forall i :: 0 <= i < |rows| && rows[i].state.Some? && rows[i].state.value.lastPid.Some? && signalable(i) ==>
      rows[i].state.value.lastPid.value <= 0x7FFF_FFFF ==> StoredState(table, rows[i].key) == rows[i].state
  }

  /** The only rows that changed were victims and are now ended. */
  ghost predicate OnlyEndsVictims(before: map<Key, Row>, after: map<Key, Row>, successor: Key, pid: Pid) {
    forall k :: StoredState(after, k) != StoredState(before, k) ==>
      IsVictim(k, StoredState(before, k), successor, pid) && IsEnded(StoredState(after, k))
  }

  /** Every event from `from` on ends a session that was a victim in `before`. */
  ghost predicate AddsOnlyVictimEnds(log: seq<Event>, from: nat, before: map<Key, Row>, successor: Key, pid: Pid) {
    forall i :: from <= i < |log| ==>
      log[i].kind.SessionEnded? && log[i].pid == Some(pid) &&
      IsVictim(log[i].key, StoredState(before, log[i].key), successor, pid)
  }

  lemma SupersedeSummary(s: Sweep, rows: seq<ListedRow>, successor: Key, pid: Pid,
                         observedAt: Millis, attempts: nat -> Attempt)
    requires Lists(rows, s.db.table)
    ensures var t := SupersedeRows(s, rows, successor, pid, observedAt, attempts);
      && t.used >= s.used && s.db.log <= t.db.log
      && AddsOnlyVictimEnds(t.db.log, |s.db.log|, s.db.table, successor, pid)
      && OnlyEndsVictims(s.db.table, t.db.table, successor, pid)
      && (NoFaults(attempts, s.used, t.used) ==> NoVictims(t.db.table, successor, pid))
  {
    SupersedeRowsEffect(s, rows, successor, pid, observedAt, attempts);
    SupersedeRowsOnlyEnds(s, rows, successor, pid, observedAt, attempts);
    var t := SupersedeRows(s, rows, successor, pid, observedAt, attempts);
    if NoFaults(attempts, s.used, t.used) {
      forall k: Key | k.source != DAEMON_SENTINEL ensures !IsVictim(k, StoredState(t.db.table, k), successor, pid) {
        assert k in s.db.table ==> Mentions(rows, k);
      }
    }
  }

  /** The only rows that changed were live and are now ended. */
  ghost predicate OnlyEndsLiveRows(before: map<Key, Row>, after: map<Key, Row>) {
    forall k :: StoredState(after, k) != StoredState(before, k) ==>
      IsLive(StoredState(before, k)) && IsEnded(StoredState(after, k))
  }

  lemma ProbeSummary(s: Sweep, rows: seq<ListedRow>, signalable: nat -> bool,
                     observedAt: Millis, attempts: nat -> Attempt)
    requires Scanned(s.db, rows)
    ensures var t := ProbeRows(s, rows, signalable, observedAt, attempts);
      && t.report.skippedStale == s.report.skippedStale
      && OnlyEndsLiveRows(s.db.table, t.db.table)
      && SparesTheLiving(rows, signalable, t.db.table)
      && (t.report.failed == s.report.failed ==> ProbedAll(rows, signalable, t.db.table))
  {
    ProbeRowsChanges(s, rows, signalable, observedAt, attempts);
    ProbeRowsOutcome(s, rows, signalable, observedAt, attempts);
  }

  lemma ScannedTake(db: Db, rows: seq<ListedRow>, n: nat)
    requires Lists(rows, db.table) && n <= |rows|
    ensures Scanned(db, rows[..n])
  {
  }

  /** A guarded end keeps the cache in step with the log, and publishes what the log says. */
  ghost predicate Faithful(s: Sweep, base: nat) {
    Consistent(s.db) && base <= |s.db.log| && s.published == Published(s.db.log, base)
  }

  lemma EndGuardedFaithful(s: Sweep, env: EventEnvelope, guard: Precondition, attempts: nat -> Attempt, base: nat)
    requires Faithful(s, base) && WellTyped(env)
    ensures Faithful(EndGuarded(s, env, guard, attempts), base)
  {
    WriteInnerKeepsConsistent(s.db, env, Some(guard), attempts(s.used));
    WriteInnerPublishes(s.db, env, Some(guard), attempts(s.used), base);
  }

  lemma {:induction false} SupersedeRowsFaithful(s: Sweep, rows: seq<ListedRow>, successor: Key, pid: Pid,
                                                 observedAt: Millis, attempts: nat -> Attempt, base: nat)
    requires Faithful(s, base)
    ensures Faithful(SupersedeRows(s, rows, successor, pid, observedAt, attempts), base)
  {
    if rows != [] {
      var init, row := rows[..|rows| - 1], rows[|rows| - 1];
      SupersedeRowsFaithful(s, init, successor, pid, observedAt, attempts, base);
      if IsVictim(row.key, row.state, successor, pid) {
        EndGuardedFaithful(SupersedeRows(s, init, successor, pid, observedAt, attempts),
                           EndedEnvelope(row.key, PidSuperseded, Some(pid), observedAt),
                           VictimGuard(row.state.value, pid), attempts, base);
      }
    }
  }

  lemma {:induction false} ProbeRowsFaithful(s: Sweep, rows: seq<ListedRow>, signalable: nat -> bool,
                                             observedAt: Millis, attempts: nat -> Attempt, base: nat)
    requires Faithful(s, base)
    ensures Faithful(ProbeRows(s, rows, signalable, observedAt, attempts), base)
  {
    if rows != [] {
      var init, row := rows[..|rows| - 1], rows[|rows| - 1];
      ProbeRowsFaithful(s, init, signalable, observedAt, attempts, base);
      if ProbeEnds(row.state, signalable(|rows| - 1)) {
        EndGuardedFaithful(ProbeRows(s, init, signalable, observedAt, attempts),
                           EndedEnvelope(row.key, ProbeReason(row.state.value), row.state.value.lastPid, observedAt),
                           ProbeGuard(row.state.value), attempts, base);
      }
    }
  }

  /** The new table keeps every old row and adds the missing row of every session in the log
      outside the sentinel source. */
  ghost predicate Rebuilt(before: map<Key, Row>, log: seq<Event>, after: map<Key, Row>) {
    && (forall k :: k in after <==> k in before || (k.source != DAEMON_SENTINEL && SessionLog(log, k) != []))
    && (forall k :: k in before ==> k in after && after[k] == before[k])
    && (forall k :: k in after && k !in before ==>
          SessionLog(log, k) != [] && after[k] == RowOfHistory(SessionLog(log, k)))
  }

  /** `Rebuilt` part way: only the sessions of `done` have been visited. */
  ghost predicate RebuiltFrom(before: map<Key, Row>, log: seq<Event>, done: set<Key>, after: map<Key, Row>) {
    && after.Keys == before.Keys + done
    && (forall k :: k in before ==> k in after && after[k] == before[k])
    && (forall k :: k in after && k !in before ==>
          SessionLog(log, k) != [] && after[k] == RowOfHistory(SessionLog(log, k)))
  }

  lemma RebuiltFromStep(before: map<Key, Row>, log: seq<Event>, done: set<Key>, table: map<Key, Row>, key: Key, row: Row)
    requires RebuiltFrom(before, log, done, table) && key !in table
    requires SessionLog(log, key) != [] && row == RowOfHistory(SessionLog(log, key))
    ensures RebuiltFrom(before, log, done + {key}, table[key := row])
  {
    var after := table[key := row];
    assert after.Keys == table.Keys + {key};
    forall k | k in after && k !in before
      ensures SessionLog(log, k) != [] && after[k] == RowOfHistory(SessionLog(log, k))
    {
      if k != key { assert k in table; }
    }
  }

  /** How many rows a table has beyond another. */
  function Added(before: map<Key, Row>, after: map<Key, Row>): nat {
    |after.Keys - before.Keys|
  }

  lemma OneMoreAdded(before: map<Key, Row>, after: map<Key, Row>, key: Key, row: Row)
    requires key !in after && before.Keys <= after.Keys
    ensures Added(before, after[key := row]) == Added(before, after) + 1
  {
    var more := after.Keys - before.Keys;
    assert key !in more && after[key := row].Keys - before.Keys == more + {key};
  }

  lemma RebuiltFromVisit(before: map<Key, Row>, log: seq<Event>, done: set<Key>, table: map<Key, Row>, key: Key)
    requires RebuiltFrom(before, log, done, table) && key in table
    ensures RebuiltFrom(before, log, done + {key}, table)
  {
  }

  /** A table being filled, and how many rows were added. */
  datatype Filling = Filling(table: map<Key, Row>, rebuilt: nat)

  function RowFor(log: seq<Event>, key: Key): Option<Row> {
    var h := SessionLog(log, key);
    if h == [] then None else Some(RowOfHistory(h))
  }

  function FillRow(log: seq<Event>, f: Filling, key: Key): Filling {
    if key in f.table then f
    else
      match RowFor(log, key)
      case None => f
      case Some(row) => Filling(f.table[key := row], f.rebuilt + 1)
  }

  function FillRows(log: seq<Event>, table: map<Key, Row>, pairs: seq<Key>): Filling {
    if pairs == [] then Filling(table, 0)
    else FillRow(log, FillRows(log, table, pairs[..|pairs| - 1]), pairs[|pairs| - 1])
  }

  ghost predicate FilledFor(log: seq<Event>, table: map<Key, Row>, done: set<Key>, f: Filling) {
    RebuiltFrom(table, log, done, f.table) && f.rebuilt == Added(table, f.table)
  }

  lemma FillRowAdds(log: seq<Event>, table: map<Key, Row>, done: set<Key>, f: Filling, key: Key)
    requires FilledFor(log, table, done, f) && SessionLog(log, key) != []
    ensures FilledFor(log, table, done + {key}, FillRow(log, f, key))
  {
    if key in f.table {
      RebuiltFromVisit(table, log, done, f.table, key);
    } else {
      RebuiltFromStep(table, log, done, f.table, key, RowFor(log, key).value);
      OneMoreAdded(table, f.table, key, RowFor(log, key).value);
    }
  }

  function KeySet(pairs: seq<Key>): set<Key> {
    if pairs == [] then {} else KeySet(pairs[..|pairs| - 1]) + {pairs[|pairs| - 1]}
  }

  lemma {:induction false} KeySetHolds(pairs: seq<Key>)
    ensures forall k :: k in KeySet(pairs) <==> k in pairs
  {
    if pairs != [] {
      KeySetHolds(pairs[..|pairs| - 1]);
      assert pairs == pairs[..|pairs| - 1] + [pairs[|pairs| - 1]];
    }
  }

  lemma {:induction false} FillRowsRebuilds(log: seq<Event>, table: map<Key, Row>, pairs: seq<Key>)
    requires forall k <- pairs :: SessionLog(log, k) != []
    ensures FilledFor(log, table, KeySet(pairs), FillRows(log, table, pairs))
  {
    if pairs == [] {
      assert Added(table, table) == 0 by { assert table.Keys - table.Keys == {}; }
    } else {
      var before, key := pairs[..|pairs| - 1], pairs[|pairs| - 1];
      assert key in pairs && forall k <- before :: k in pairs;
      FillRowsRebuilds(log, table, before);
      FillRowAdds(log, table, KeySet(before), FillRows(log, table, before), key);
    }
  }

  /** The sessions of the log outside the sentinel source, each once. */
  function Sessions(log: seq<Event>): seq<Key> {
    if log == [] then []
    else
      var before, key := Sessions(log[..|log| - 1]), log[|log| - 1].key;
      if key.source != DAEMON_SENTINEL && key !in before then before + [key] else before
  }

  lemma {:induction false} SessionsHaveEvents(log: seq<Event>)
    ensures forall k :: k in Sessions(log) <==> k.source != DAEMON_SENTINEL && SessionLog(log, k) != []
  {
    if log != [] { SessionsHaveEvents(log[..|log| - 1]); }
  }

  lemma FillRowsOfAllSessions(log: seq<Event>, table: map<Key, Row>)
    ensures var f := FillRows(log, table, Sessions(log));
      Rebuilt(table, log, f.table) && f.rebuilt == Added(table, f.table)
  {
    SessionsHaveEvents(log);
    FillRowsRebuilds(log, table, Sessions(log));
    KeySetHolds(Sessions(log));
  }

  /** Losing any set of user-facing rows is repaired exactly: the rebuild restores the table. */
  lemma RebuildRestoresLostRows(db: Db, lost: set<Key>, after: map<Key, Row>)
    requires Consistent(db)
    requires forall k :: k in lost ==> k.source != DAEMON_SENTINEL
    requires Rebuilt(db.table - lost, db.log, after)
    ensures after == db.table
  {
    forall k ensures k in after <==> k in db.table
      ensures k in after ==> after[k] == db.table[k]
    {
      if k.source != DAEMON_SENTINEL { RowIsFoldOfHistory(db.log, k); }
    }
  }

  class ProjectionStore {
    var log: seq<Event>
    var table: map<Key, Row>
    /** Everything published goes through the hub. */
    const broadcaster: BroadcastHub
    /** How many attempts to use the writer connection have been made. */
    var used: nat
    /** What the environment makes of each of them. */
    const attempts: nat -> Attempt
    /** The length of the log when this daemon started. */
    const base: nat

    function Tables(): Db
      reads this
    {
      Db(log, table)
    }

    /** The cache agrees with the log, and subscribers were told exactly what the log says. */
    ghost predicate Valid()
      reads this, broadcaster
    {
      Consistent(Tables()) && base <= |log| && broadcaster.sent == Published(log, base)
    }

    constructor (log: seq<Event>, table: map<Key, Row>, attempts: nat -> Attempt, broadcaster: BroadcastHub)
      ensures this.log == log && this.table == table && this.attempts == attempts && this.broadcaster == broadcaster
      ensures used == 0 && base == |log|
      ensures Consistent(Db(log, table)) && broadcaster.sent == [] ==> Valid()
    {
      this.log, this.table, this.used, this.broadcaster := log, table, 0, broadcaster;
      this.attempts, this.base := attempts, |log|;
    }

    /** The sole writer of user-facing events. */
    method WriteInner(env: EventEnvelope, pre: Option<Precondition>) returns (outcome: WriteOutcome)
      modifies this`log, this`table, this`used, broadcaster
      ensures used == old(used) + if IsSentinelKind(env.kind) then 0 else 1
      ensures var c := Projection.WriteInner(old(Tables()), env, pre, attempts(old(used)));
        Tables() == c.db && broadcaster.sent == old(broadcaster.sent) + c.published && outcome == c.outcome
      ensures old(Valid()) && WellTyped(env) ==> Valid()
    {
      ghost var c := Projection.WriteInner(Tables(), env, pre, attempts(used));
      if Valid() && WellTyped(env) {
        WriteInnerKeepsConsistent(Tables(), env, pre, attempts(used));
        WriteInnerPublishes(Tables(), env, pre, attempts(used), base);
      }
      if IsSentinelKind(env.kind) { return Refused; }
      used := used + 1;
      if attempts(used - 1).Fails? { return Failed; }
      var now := attempts(used - 1).now;
      var prev := StoredState(table, env.key);
      if !Allows(pre, prev) { return Skipped; }
      var prevRaw := if prev.Some? then Some(prev.value.currentState) else None;
      var prevRead := if prev.Some? then Some(CurrentStateForRead(prev.value, now)) else None;
      var next := StateMachine.Transition(prev, env.kind, env.notificationType, env.pid, env.cwd, now);
      table := table[env.key := Row(Some(next), now)];
      var e := EventOf(env, |log| + 1, now);
      log := log + [e];
      broadcaster.Publish(EventMessage(e));
      if prevRaw != Some(next.currentState) || prevRead != Some(next.currentState) {
        broadcaster.Publish(StateMessage(env.key, next));
      }
      assert broadcaster.sent == old(broadcaster.sent) + c.published;
      return Written(e.eventId);
    }

    /** SELECT over the non-sentinel rows, in whatever order the query returns them. */
    method SelectNonSentinelSessions() returns (rows: seq<ListedRow>)
      ensures Lists(rows, table)
    {
      var todo := table.Keys;
      rows := [];
      while todo != {}
        invariant todo <= table.Keys
        invariant forall i :: 0 <= i < |rows| ==>
          rows[i].key in table && rows[i].key.source != DAEMON_SENTINEL && rows[i].state == table[rows[i].key].state
        invariant forall i :: 0 <= i < |rows| ==> rows[i].key !in todo
        invariant forall k :: k in table && k.source != DAEMON_SENTINEL && k !in todo ==> Mentions(rows, k)
        invariant forall i, j :: 0 <= i < j < |rows| ==> rows[i].key != rows[j].key
        decreases todo
      {
        var k :| k in todo;
        todo := todo - {k};
        if k.source != DAEMON_SENTINEL {
          ghost var before := rows;
          rows := rows + [ListedRow(k, table[k].state)];
          assert rows[|before|].key == k;
          assert forall i :: 0 <= i < |before| ==> rows[i] == before[i];
        }
      }
    }

    method SupersedeOne(row: ListedRow, successor: Key, pid: Pid, observedAt: Millis, report: Report)
      returns (next: Report)
      modifies this`log, this`table, this`used, broadcaster
      ensures Sweep(Tables(), broadcaster.sent, used, next) ==
        SupersedeRow(Sweep(old(Tables()), old(broadcaster.sent), old(used), report), row, successor, pid, observedAt, attempts)
    {
      if row.key == successor { return report; }
      if row.state.None? { return report; }
      var stored := row.state.value;
      if stored.currentState.Ended? || stored.lastPid != Some(pid) { return report; }
      var env := EndedEnvelope(row.key, PidSuperseded, Some(pid), observedAt);
      var outcome := WriteInner(env, Some(VictimGuard(stored, pid)));
      return Count(report, outcome);
    }

    /** Ends every other live session still claiming `pid`. Nothing else writes meanwhile here; the
        interleaved version is the step relation of module `DaemonRuns`. */
    method SupersedePredecessors(successor: Key, pid: Pid)
      modifies this`log, this`table, this`used, broadcaster
      ensures old(Valid()) ==> Valid()
      ensures used > old(used) && old(log) <= log
      ensures AddsOnlyVictimEnds(log, |old(log)|, old(table), successor, pid)
      ensures OnlyEndsVictims(old(table), table, successor, pid)
      ensures NoFaults(attempts, old(used), used) ==> NoVictims(table, successor, pid)
    {
      var scan := attempts(used);
      used := used + 1;
      if scan.Fails? {
        assert !NoFaults(attempts, old(used), used);
        return;
      }
      var rows := SelectNonSentinelSessions();
      var observedAt := scan.now;
      var report := Report(0, 0, 0);
      ghost var start := StartSweep(Tables(), broadcaster.sent, used);
      for n := 0 to |rows|
        invariant Sweep(Tables(), broadcaster.sent, used, report) ==
          SupersedeRows(start, rows[..n], successor, pid, observedAt, attempts)
      {
        assert rows[..n + 1][..n] == rows[..n];
        report := SupersedeOne(rows[n], successor, pid, observedAt, report);
      }
      assert rows[..|rows|] == rows;
      SupersedeSummary(start, rows, successor, pid, observedAt, attempts);
      if old(Valid()) {
        SupersedeRowsFaithful(start, rows, successor, pid, observedAt, attempts, base);
      }
      assert NoFaults(attempts, old(used), used) ==> NoFaults(attempts, start.used, used);
    }

    /** Live ingest: the primary write, then supersession when the event proves who holds its pid. */
    method Write(env: EventEnvelope) returns (outcome: WriteOutcome)
      modifies this`log, this`table, this`used, broadcaster
      ensures old(Valid()) && WellTyped(env) ==> Valid()
      ensures outcome == Projection.WriteInner(old(Tables()), env, None, attempts(old(used))).outcome
      ensures !outcome.Written? ==> Tables() == old(Tables()) && broadcaster.sent == old(broadcaster.sent)
      ensures outcome.Written? ==>
        && old(log) + [EventOf(env, |old(log)| + 1, attempts(old(used)).now)] <= log
        && (forall i :: |old(log)| < i < |log| ==>
              env.pid.Some? && !env.kind.SessionEnded? && log[i].kind.SessionEnded? && log[i].pid == env.pid &&
              log[i].key != env.key)
      // With no failure on the way, the session that just spoke is the only live claimant of its pid.
      ensures outcome.Written? && env.pid.Some? && !env.kind.SessionEnded? && NoFaults(attempts, old(used), used)
        ==> NoVictims(table, env.key, env.pid.value)
    {
      outcome := WriteInner(env, None);
      if outcome.Written? && env.pid.Some? && !env.kind.SessionEnded? {
        ghost var was := used;
        SupersedePredecessors(env.key, env.pid.value);
        assert NoFaults(attempts, old(used), used) ==> NoFaults(attempts, was, used);
      }
    }

    /** Replay: the primary write alone. */
    method WriteReplayed(env: EventEnvelope) returns (outcome: WriteOutcome)
      modifies this`log, this`table, this`used, broadcaster
      ensures old(Valid()) && WellTyped(env) ==> Valid()
      ensures used == old(used) + if IsSentinelKind(env.kind) then 0 else 1
      ensures var c := Projection.WriteInner(old(Tables()), env, None, attempts(old(used)));
        Tables() == c.db && broadcaster.sent == old(broadcaster.sent) + c.published && outcome == c.outcome
    {
      outcome := WriteInner(env, None);
    }

    method ProbeOne(row: ListedRow, signalable: bool, observedAt: Millis, report: Report) returns (next: Report)
      modifies this`log, this`table, this`used, broadcaster
      ensures Sweep(Tables(), broadcaster.sent, used, next) ==
        ProbeRow(Sweep(old(Tables()), old(broadcaster.sent), old(used), report), row, signalable, observedAt, attempts)
    {
      if row.state.None? { return report; }
      var stored := row.state.value;
      if stored.currentState.Ended? { return report; }
      if stored.lastPid.Some? && IsPidAlive(stored.lastPid.value, signalable) { return report; }
      var env := EndedEnvelope(row.key, ProbeReason(stored), stored.lastPid, observedAt);
      var outcome := WriteInner(env, Some(ProbeGuard(stored)));
      return Count(report, outcome);
    }

    /** One liveness probe. `signalable(i)` is what the system answers for the row at position `i` of
        the scan; `cancelledAt(i)` whether shutdown was requested by then. `rows` is the scan and `visited`
        how many of its rows were taken up. */
    method ProbeOnce(signalable: nat -> bool, cancelledAt: nat -> bool)
      returns (ran: bool, report: Report, ghost rows: seq<ListedRow>, ghost visited: nat)
      modifies this`log, this`table, this`used, broadcaster
      ensures old(Valid()) ==> Valid()
      ensures ran <==> attempts(old(used)).At?
      ensures !ran ==> Tables() == old(Tables()) && broadcaster.sent == old(broadcaster.sent) && report == Report(0, 0, 0)
      // The probe takes the rows in order up to the first one at which it finds itself cancelled, and
      // writes for those alone.
      ensures ran ==> Lists(rows, old(table)) && visited <= |rows| && (visited == |rows| || cancelledAt(visited))
      ensures ran ==> forall n :: 0 <= n < visited ==> !cancelledAt(n)
      ensures ran ==> (Sweep(Tables(), broadcaster.sent, used, report) ==
        ProbeRows(StartSweep(old(Tables()), old(broadcaster.sent), old(used) + 1), rows[..visited], signalable, attempts(old(used)).now, attempts))
      ensures report.skippedStale == 0
      ensures OnlyEndsLiveRows(old(table), table)
      ensures ran ==> SparesTheLiving(rows[..visited], signalable, table)
      // Without failures it ends exactly those of them whose pid is missing or dead.
      ensures ran && report.failed == 0 ==> ProbedAll(rows[..visited], signalable, table)
    {
      ran, report, rows, visited := false, Report(0, 0, 0), [], 0;
      var scan := attempts(used);
      used := used + 1;
      if scan.Fails? { return; }
      var listed := SelectNonSentinelSessions();
      ghost var start := StartSweep(Tables(), broadcaster.sent, used);
      var counted, n := ProbeListed(listed, signalable, cancelledAt, scan.now);
      ran, report, rows, visited := true, counted, listed, n;
      ScannedTake(start.db, listed, n);
      ProbeSummary(start, listed[..n], signalable, scan.now, attempts);
      if old(Valid()) {
        ProbeRowsFaithful(start, listed[..n], signalable, scan.now, attempts, base);
      }
    }

    /** The loop over the listed rows. */
    method ProbeListed(rows: seq<ListedRow>, signalable: nat -> bool, cancelledAt: nat -> bool, observedAt: Millis)
      returns (report: Report, n: nat)
      modifies this`log, this`table, this`used, broadcaster
      ensures n <= |rows| && (n == |rows| || cancelledAt(n)) && forall m :: 0 <= m < n ==> !cancelledAt(m)
      ensures Sweep(Tables(), broadcaster.sent, used, report) ==
        ProbeRows(StartSweep(old(Tables()), old(broadcaster.sent), old(used)), rows[..n], signalable, observedAt, attempts)
    {
      report, n := Report(0, 0, 0), 0;
      ghost var start := StartSweep(Tables(), broadcaster.sent, used);
      while n < |rows| && !cancelledAt(n)
        invariant n <= |rows|
        invariant forall m :: 0 <= m < n ==> !cancelledAt(m)
        invariant Sweep(Tables(), broadcaster.sent, used, report) == ProbeRows(start, rows[..n], signalable, observedAt, attempts)
      {
        assert rows[..n + 1][..n] == rows[..n];
        report := ProbeOne(rows[n], signalable(n), observedAt, report);
        n := n + 1;
      }
    }

    /** Folds one session's events, re-reading notification types from the stored payloads. */
    static method RecomputeRow(log: seq<Event>, key: Key) returns (row: Option<Row>)
      ensures row == RowFor(log, key)
    {
      var kinds := SessionLog(log, key);
      var state: Option<SessionState> := None;
      var lastCreatedAt := 0;
      for n := 0 to |kinds|
        invariant state == History.Fold(kinds[..n])
        invariant n > 0 ==> lastCreatedAt == kinds[n - 1].createdAt
      {
        var e := kinds[n];
        lastCreatedAt := e.createdAt;
        var notification := NotificationTypeOf(e.kind, e.payload);
        assert kinds[..n + 1][..n] == kinds[..n];
        state := Some(StateMachine.Transition(state, e.kind, notification, e.pid, e.cwd, e.createdAt));
      }
      assert kinds[..|kinds|] == kinds;
      return if state.None? then None else Some(Row(state, lastCreatedAt));
    }

    /** Adds the missing row of every listed session, and counts them. */
    static method FillMissingRows(log: seq<Event>, table: map<Key, Row>, pairs: seq<Key>)
      returns (rows: map<Key, Row>, rebuilt: nat)
      ensures Filling(rows, rebuilt) == FillRows(log, table, pairs)
    {
      rows, rebuilt := table, 0;
      for n := 0 to |pairs|
        invariant Filling(rows, rebuilt) == FillRows(log, table, pairs[..n])
      {
        assert pairs[..n + 1][..n] == pairs[..n];
        if pairs[n] in rows { continue; }
        var row := RecomputeRow(log, pairs[n]);
        if row.None? { continue; }
        rows := rows[pairs[n] := row.value];
        rebuilt := rebuilt + 1;
      }
      assert pairs[..|pairs|] == pairs;
    }

    /** Recomputes the missing rows from the log, in one transaction. */
    method RebuildMissingProjections() returns (rebuilt: nat)
      modifies this`table
      ensures Rebuilt(old(table), log, table)
      ensures rebuilt == Added(old(table), table)
    {
      FillRowsOfAllSessions(log, table);
      var rows, count := FillMissingRows(log, table, Sessions(log));
      table, rebuilt := rows, count;
    }
  }
}
