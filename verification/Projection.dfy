/** The event log, the projection table that caches its fold, and the one transaction that writes
    both (`projection/session.rs`). */
module Projection {
  import opened Protocol
  import opened StateMachine
  import History

  /** A `session_projections` row. `state` is `None` for the placeholder `{}` that the lifecycle
      sentinels store, which does not deserialize as a session state. */
  datatype Row = Row(state: Option<SessionState>, updatedAt: Millis)

  /** The `events` and `session_projections` tables. Event ids are `AUTOINCREMENT`, so the event
      at position `i` of the log has id `i + 1`. */
  datatype Db = Db(log: seq<Event>, table: map<Key, Row>)

  const EMPTY_DB := Db([], map[])

  /** What a conditional write requires of the row it is about to overwrite. */
  datatype Precondition = Precondition(
    currentState: CurrentState,
    lastPid: Option<Pid>,
    lastEventAt: Option<Millis>)

  /** What the environment makes of one attempt to write: no connection, an unreadable clock or a
      transaction that rolls back; or a transaction run at the given clock reading. */
  datatype Attempt = Fails | At(now: Millis)

  datatype WriteOutcome = Written(eventId: int) | Skipped | Refused | Failed

  /** The effect of one write: the tables after it, and what it owes the broadcast channel. */
  datatype Commit = Commit(db: Db, published: seq<BroadcastEnvelope>, outcome: WriteOutcome)

  function StoredState(table: map<Key, Row>, key: Key): Option<SessionState> {
    if key in table then table[key].state else None
  }

  predicate Allows(pre: Option<Precondition>, prev: Option<SessionState>) {
    pre.Some? ==>
      && prev.Some?
      && prev.value.currentState == pre.value.currentState
      && prev.value.lastPid == pre.value.lastPid
      && (pre.value.lastEventAt.Some? ==> prev.value.lastEventAt == pre.value.lastEventAt.value)
  }

  function EventOf(env: EventEnvelope, id: int, now: Millis): Event {
    Event(id, env.key, env.kind, env.reaction, env.payload, now, env.pid, env.cwd)
  }

  /** The event, then the new state if either the stored or the read-time view of it moved. */
  function Announce(prev: Option<SessionState>, next: SessionState, e: Event): seq<BroadcastEnvelope> {
    [EventMessage(e)] +
    if prev.None?
       || prev.value.currentState != next.currentState
       || CurrentStateForRead(prev.value, e.createdAt) != next.currentState
    then [StateMessage(e.key, next)] else []
  }

  /** `write_inner`: one transaction and the publications that follow its commit. */
  function WriteInner(db: Db, env: EventEnvelope, pre: Option<Precondition>, attempt: Attempt): Commit {
    if IsSentinelKind(env.kind) then Commit(db, [], Refused)
    else if attempt.Fails? then Commit(db, [], Failed)
    else
      var prev := StoredState(db.table, env.key);
      if !Allows(pre, prev) then Commit(db, [], Skipped)
      else
        var e := EventOf(env, |db.log| + 1, attempt.now);
        var next := Transition(prev, env.kind, env.notificationType, env.pid, env.cwd, attempt.now);
        Commit(Db(db.log + [e], db.table[env.key := Row(Some(next), attempt.now)]),
               Announce(prev, next, e),
               Written(e.eventId))
  }

  /** The lifecycle markers: an event and a placeholder row under the sentinel key, never published. */
  function WriteSentinel(db: Db, kind: EventKind, now: Millis): Db
    requires IsSentinelKind(kind)
  {
    var e := Event(|db.log| + 1, SENTINEL_KEY, kind, None, Payload("{}", None), now, None, None);
    Db(db.log + [e], db.table[SENTINEL_KEY := Row(None, now)])
  }

  // ---- The log determines the table ----

  /** One event's effect on its own row. A lifecycle marker leaves the placeholder. */
  function RowStep(prev: Option<SessionState>, e: Event): Option<SessionState> {
    if IsSentinelKind(e.kind) then None else Some(History.Apply(prev, e))
  }

  /** The table a log calls for. */
  function Project(log: seq<Event>): map<Key, Row> {
    if log == [] then map[]
    else
      var before, e := Project(log[..|log| - 1]), log[|log| - 1];
      before[e.key := Row(RowStep(StoredState(before, e.key), e), e.createdAt)]
  }

  function SessionLog(log: seq<Event>, key: Key): seq<Event> {
    if log == [] then []
    else
      var before, e := SessionLog(log[..|log| - 1], key), log[|log| - 1];
      if e.key == key then before + [e] else before
  }

  lemma ProjectSnoc(log: seq<Event>, e: Event)
    ensures Project(log + [e]) ==
      Project(log)[e.key := Row(RowStep(StoredState(Project(log), e.key), e), e.createdAt)]
    ensures forall k :: SessionLog(log + [e], k) == (if e.key == k then SessionLog(log, k) + [e] else SessionLog(log, k))
  {
    assert (log + [e])[..|log|] == log;
  }

  /** Ids count the events, and lifecycle markers live under the sentinel key alone. */
  ghost predicate WellFormedLog(log: seq<Event>) {
    forall i :: 0 <= i < |log| ==>
      log[i].eventId == i + 1 && (IsSentinelKind(log[i].kind) ==> log[i].key == SENTINEL_KEY)
  }

  /** The two tables agree: the cache is exactly what the log calls for. */
  ghost predicate Consistent(db: Db) {
    WellFormedLog(db.log) && db.table == Project(db.log)
  }

  lemma WriteInnerKeepsConsistent(db: Db, env: EventEnvelope, pre: Option<Precondition>, attempt: Attempt)
    requires Consistent(db) && WellTyped(env)
    ensures Consistent(WriteInner(db, env, pre, attempt).db)
  {
    var c := WriteInner(db, env, pre, attempt);
    if c.outcome.Written? {
      ProjectSnoc(db.log, EventOf(env, |db.log| + 1, attempt.now));
    }
  }

  /** `e` is the stored form of a lifecycle marker: an empty object from no process and no directory. */
  predicate IsMarker(e: Event, kind: EventKind, now: Millis) {
    e.key.source == DAEMON_SENTINEL && e.key.sessionId == DAEMON_SENTINEL && e.kind == kind && e.createdAt == now &&
    e.payload.text == "{}" && e.reaction.None? && e.pid.None? && e.cwd.None?
  }

  lemma WriteSentinelKeepsConsistent(db: Db, kind: EventKind, now: Millis)
    requires Consistent(db) && IsSentinelKind(kind)
    ensures Consistent(WriteSentinel(db, kind, now))
    ensures var after := WriteSentinel(db, kind, now);
      |after.log| == |db.log| + 1 && db.log <= after.log && IsMarker(after.log[|db.log|], kind, now) &&
      after.table - {SENTINEL_KEY} == db.table - {SENTINEL_KEY}
  {
    ProjectSnoc(db.log, WriteSentinel(db, kind, now).log[|db.log|]);
  }

  lemma {:induction false} SessionLogMembers(log: seq<Event>, key: Key)
    requires WellFormedLog(log) && key != SENTINEL_KEY
    ensures forall i :: 0 <= i < |SessionLog(log, key)| ==>
      SessionLog(log, key)[i].key == key && !IsSentinelKind(SessionLog(log, key)[i].kind)
  {
    if log != [] { SessionLogMembers(log[..|log| - 1], key); }
  }

  /** The row a session's own events call for. */
  function RowOfHistory(h: seq<Event>): Row
    requires h != []
  {
    Row(History.Fold(h), h[|h| - 1].createdAt)
  }

  /** A row exists exactly for sessions with events; it stores the fold of the session's own events
      and the time of the last one. */
  lemma {:induction false} RowIsFoldOfHistory(log: seq<Event>, key: Key)
    requires WellFormedLog(log) && key != SENTINEL_KEY
    ensures key in Project(log) <==> SessionLog(log, key) != []
    ensures key in Project(log) ==>
      Project(log)[key] == RowOfHistory(SessionLog(log, key))
  {
    if log != [] {
      var before, e := log[..|log| - 1], log[|log| - 1];
      RowIsFoldOfHistory(before, key);
      ProjectSnoc(before, e);
      assert log == before + [e];
      if e.key == key {
        var h := SessionLog(before, key);
        assert (h + [e])[..|h|] == h;
        assert StoredState(Project(before), key) == History.Fold(h);
      }
    }
  }

  // ---- The log determines the broadcast stream ----

  /** What the daemon owes its subscribers for the events it wrote after position `base`. */
  function Published(log: seq<Event>, base: nat): seq<BroadcastEnvelope>
    requires base <= |log|
  {
    if |log| == base then []
    else
      var before, e := log[..|log| - 1], log[|log| - 1];
      Published(before, base) +
      if IsSentinelKind(e.kind) then []
      else var prev := StoredState(Project(before), e.key);
           Announce(prev, History.Apply(prev, e), e)
  }

  lemma WriteInnerPublishes(db: Db, env: EventEnvelope, pre: Option<Precondition>, attempt: Attempt, base: nat)
    requires Consistent(db) && WellTyped(env) && base <= |db.log|
    ensures var c := WriteInner(db, env, pre, attempt);
      |c.db.log| >= |db.log| && Published(c.db.log, base) == Published(db.log, base) + c.published
  {
    var c := WriteInner(db, env, pre, attempt);
    if c.outcome.Written? {
      assert c.db.log[..|db.log|] == db.log;
    }
  }

  lemma WriteSentinelPublishesNothing(db: Db, kind: EventKind, now: Millis, base: nat)
    requires IsSentinelKind(kind) && base <= |db.log|
    ensures Published(WriteSentinel(db, kind, now).log, base) == Published(db.log, base)
  {
    assert WriteSentinel(db, kind, now).log[..|db.log|] == db.log;
  }

  /** The events of a broadcast stream, in order. */
  function EventsIn(stream: seq<BroadcastEnvelope>): seq<Event> {
    if stream == [] then []
    else
      var before, m := EventsIn(stream[..|stream| - 1]), stream[|stream| - 1];
      if m.EventMessage? then before + [m.event] else before
  }

  function NonSentinel(log: seq<Event>): seq<Event> {
    if log == [] then []
    else
      var before, e := NonSentinel(log[..|log| - 1]), log[|log| - 1];
      if IsSentinelKind(e.kind) then before else before + [e]
  }

  lemma NonSentinelSnoc(log: seq<Event>, e: Event)
    ensures NonSentinel(log + [e]) == NonSentinel(log) + if IsSentinelKind(e.kind) then [] else [e]
  {
    assert (log + [e])[..|log|] == log;
  }

  /** Every state in the stream directly follows the event that caused it: same session, and the
      state is stamped with that event's time and kind unless the event is inert. */
  ghost predicate StatesFollowTheirEvents(stream: seq<BroadcastEnvelope>) {
    forall i :: 0 <= i < |stream| && stream[i].StateMessage? ==>
      && i > 0 && stream[i - 1].EventMessage?
      && stream[i].key == stream[i - 1].event.key
      && (History.Inert(stream[i - 1].event) ||
          (stream[i].state.lastEventKind == stream[i - 1].event.kind &&
           stream[i].state.lastEventAt == stream[i - 1].event.createdAt))
  }

  lemma EventsInAppend(a: seq<BroadcastEnvelope>, b: seq<BroadcastEnvelope>)
    ensures EventsIn(a + b) == EventsIn(a) + EventsIn(b)
  {
    if b == [] {
      assert a + b == a;
    } else {
      EventsInAppend(a, b[..|b| - 1]);
      assert (a + b)[..|a + b| - 1] == a + b[..|b| - 1];
    }
  }

  /** The stream is the committed events in commit order, each state right behind its event. */
  lemma {:induction false} PublishedShape(log: seq<Event>, base: nat)
    requires base <= |log|
    ensures EventsIn(Published(log, base)) == NonSentinel(log[base..])
    ensures StatesFollowTheirEvents(Published(log, base))
  {
    if |log| == base {
      assert log[base..] == [];
    } else {
      var before, e := log[..|log| - 1], log[|log| - 1];
      PublishedShape(before, base);
      assert log[base..] == before[base..] + [e];
      NonSentinelSnoc(before[base..], e);
      if !IsSentinelKind(e.kind) {
        var prev := StoredState(Project(before), e.key);
        AppendAnnouncement(Published(before, base), prev, e);
      } else {
        assert Published(log, base) == Published(before, base);
      }
    }
  }

  lemma AppendAnnouncement(stream: seq<BroadcastEnvelope>, prev: Option<SessionState>, e: Event)
    requires StatesFollowTheirEvents(stream)
    ensures EventsIn(stream + Announce(prev, History.Apply(prev, e), e)) == EventsIn(stream) + [e]
    ensures StatesFollowTheirEvents(stream + Announce(prev, History.Apply(prev, e), e))
  {
    var next := History.Apply(prev, e);
    var more := Announce(prev, next, e);
    EventsInAppend(stream, more);
    AnnounceEvents(prev, next, e);
    var all := stream + more;
    forall i | 0 <= i < |all| && all[i].StateMessage?
      ensures i > 0 && all[i - 1].EventMessage? && all[i].key == all[i - 1].event.key
      ensures History.Inert(all[i - 1].event) ||
          (all[i].state.lastEventKind == all[i - 1].event.kind &&
           all[i].state.lastEventAt == all[i - 1].event.createdAt)
    {
      if i < |stream| { assert all[i] == stream[i] && all[i - 1] == stream[i - 1]; }
    }
  }

  lemma AnnounceEvents(prev: Option<SessionState>, next: SessionState, e: Event)
    ensures EventsIn(Announce(prev, next, e)) == [e]
  {
    var a := Announce(prev, next, e);
    assert a[..1] == [EventMessage(e)];
    assert EventsIn([EventMessage(e)]) == [e] by { assert [EventMessage(e)][..0] == []; }
  }

  lemma {:induction false} NonSentinelIdsIncrease(log: seq<Event>, base: nat)
    requires WellFormedLog(log) && base <= |log|
    ensures forall i :: 0 <= i < |NonSentinel(log[base..])| ==> base < NonSentinel(log[base..])[i].eventId <= |log|
    ensures forall i, j :: 0 <= i < j < |NonSentinel(log[base..])| ==>
      NonSentinel(log[base..])[i].eventId < NonSentinel(log[base..])[j].eventId
  {
    if |log| > base {
      NonSentinelIdsIncrease(log[..|log| - 1], base);
      assert log[base..][..|log| - base - 1] == log[..|log| - 1][base..];
    } else {
      assert log[base..] == [];
    }
  }
}
