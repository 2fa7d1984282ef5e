/** Why a subscriber that sees only the gated `State` frames is never wrong about a session. */
module GatedStream {
  import opened Protocol
  import opened StateMachine
  import opened Projection
  import History

  /** What a client shows for a session after a stretch of the broadcast stream: the last state
      frame for it, or what it showed before. */
  function ViewAfter(view: Option<CurrentState>, stream: seq<BroadcastEnvelope>, key: Key): Option<CurrentState> {
    if stream == [] then view
    else
      var m := stream[|stream| - 1];
      if m.StateMessage? && m.key == key then Some(m.state.currentState)
      else ViewAfter(view, stream[..|stream| - 1], key)
  }

  /** The read-derived snapshot of one session at time `at`. */
  function SnapshotView(table: map<Key, Row>, key: Key, at: Millis): Option<CurrentState> {
    var s := StoredState(table, key);
    if s.None? then None else Some(CurrentStateForRead(s.value, at))
  }

  lemma {:induction false} ViewAfterAppend(view: Option<CurrentState>, a: seq<BroadcastEnvelope>, b: seq<BroadcastEnvelope>, key: Key)
    ensures ViewAfter(view, a + b, key) == ViewAfter(ViewAfter(view, a, key), b, key)
  {
    if b == [] {
      assert a + b == a;
    } else {
      ViewAfterAppend(view, a, b[..|b| - 1], key);
      assert (a + b)[..|a + b| - 1] == a + b[..|b| - 1];
    }
  }

  lemma ViewAfterAnnounce(view: Option<CurrentState>, prev: Option<SessionState>, next: SessionState, e: Event, key: Key)
    ensures ViewAfter(view, Announce(prev, next, e), key) ==
      if e.key == key && |Announce(prev, next, e)| == 2 then Some(next.currentState) else view
  {
    var a := Announce(prev, next, e);
    assert a[..1] == [EventMessage(e)];
    assert ViewAfter(view, [EventMessage(e)], key) == view by { assert [EventMessage(e)][..0] == []; }
  }

  /** One commit: either it is announced, or the client already shows the new state. */
  lemma QuietCommitChangesNothingShown(shown: CurrentState, prev: SessionState, e: Event, at: Millis)
    requires shown == prev.currentState || shown == CurrentStateForRead(prev, at)
    requires at <= e.createdAt
    ensures |Announce(Some(prev), History.Apply(Some(prev), e), e)| == 2
      || shown == History.Apply(Some(prev), e).currentState
  {
    if CurrentStateForRead(prev, at) != prev.currentState {
      StaleStaysStale(prev, at, e.createdAt);
    }
  }

  // ---- When the gate is right ----

  /** The gate stays shut: neither the stored nor the read-time state moves with this commit. */
  predicate IsQuiet(prev: Option<SessionState>, e: Event) {
    prev.Some? &&
    History.Apply(prev, e).currentState == prev.value.currentState == CurrentStateForRead(prev.value, e.createdAt)
  }

  /** Every commit to the session after position `base` was quiet. */
  predicate AllQuiet(log: seq<Event>, base: nat, key: Key)
    requires base <= |log|
  {
    |log| == base ||
    var before, e := log[..|log| - 1], log[|log| - 1];
    AllQuiet(before, base, key) && (e.key == key ==> IsQuiet(StoredState(Project(before), key), e))
  }

  /** A snapshot at time `at` shows a stored `Working` as `Idle`. */
  predicate StaleAt(log: seq<Event>, key: Key, at: Millis) {
    var stored := StoredState(Project(log), key);
    stored.Some? && CurrentStateForRead(stored.value, at) != stored.value.currentState
  }

  lemma QuietMeansUnannounced(prev: Option<SessionState>, e: Event)
    ensures IsQuiet(prev, e) <==> |Announce(prev, History.Apply(prev, e), e)| == 1
    ensures !IsQuiet(prev, e) <==> |Announce(prev, History.Apply(prev, e), e)| == 2
  {
  }

  lemma SplitLast(log: seq<Event>, base: nat)
    requires base < |log|
    ensures var before, e := log[..|log| - 1], log[|log| - 1];
      log == before + [e] && before[..base] == log[..base] && log[base..] == before[base..] + [e]
  {
  }

  /** One more commit, seen through the stream. */
  lemma ViewAfterCommit(view: Option<CurrentState>, before: seq<Event>, e: Event, base: nat, key: Key)
    requires base <= |before| && key != SENTINEL_KEY && (IsSentinelKind(e.kind) ==> e.key == SENTINEL_KEY)
    ensures var prev := StoredState(Project(before), e.key);
      ViewAfter(view, Published(before + [e], base), key) ==
        if e.key == key && !IsQuiet(prev, e) then Some(History.Apply(prev, e).currentState)
        else ViewAfter(view, Published(before, base), key)
  {
    assert (before + [e])[..|before|] == before;
    if IsSentinelKind(e.kind) {
      assert Published(before + [e], base) == Published(before, base);
    } else {
      var prev := StoredState(Project(before), e.key);
      var next := History.Apply(prev, e);
      ViewAfterAppend(view, Published(before, base), Announce(prev, next, e), key);
      ViewAfterAnnounce(ViewAfter(view, Published(before, base), key), prev, next, e, key);
      QuietMeansUnannounced(prev, e);
    }
  }

  /** What a client of the gated stream shows, with no assumption on the clock: its snapshot while the
      session's commits are all quiet, and the stored state from the first one that is not. */
  lemma {:induction false} GateDecidesView(log: seq<Event>, base: nat, at: Millis, key: Key)
    requires WellFormedLog(log) && base <= |log| && key != SENTINEL_KEY
    ensures var view, was, now := SnapshotView(Project(log[..base]), key, at), StoredState(Project(log[..base]), key), StoredState(Project(log), key);
      var shown := ViewAfter(view, Published(log, base), key);
      if AllQuiet(log, base, key)
      then shown == view && (was.None? ==> now.None? && SessionLog(log[base..], key) == []) &&
           (was.Some? ==> now.Some? && now.value.currentState == was.value.currentState)
      else now.Some? && shown == Some(now.value.currentState)
    ensures SessionLog(log[base..], key) == [] ==> StoredState(Project(log), key) == StoredState(Project(log[..base]), key)
    ensures SessionLog(log[base..], key) == [] ==> AllQuiet(log, base, key)
  {
    if |log| == base {
      assert log[..base] == log && log[base..] == [];
    } else {
      var before, e := log[..|log| - 1], log[|log| - 1];
      GateDecidesView(before, base, at, key);
      SplitLast(log, base);
      ProjectSnoc(before[base..], e);
      ProjectSnoc(before, e);
      ViewAfterCommit(SnapshotView(Project(log[..base]), key, at), before, e, base, key);
    }
  }

  /** The exact condition, with no assumption on the clock. After at least one later commit to a session,
      a client that snapshots at time `at` and then applies every state frame shows the stored state,
      unless the snapshot read a stale `Working` as `Idle` and every later commit was quiet. */
  lemma GatedStreamIsRightIff(log: seq<Event>, base: nat, at: Millis, key: Key)
    requires WellFormedLog(log) && base <= |log| && key != SENTINEL_KEY
    requires SessionLog(log[base..], key) != []
    ensures StoredState(Project(log), key).Some?
    ensures ViewAfter(SnapshotView(Project(log[..base]), key, at), Published(log, base), key)
         == Some(StoredState(Project(log), key).value.currentState)
      <==> !(StaleAt(log[..base], key, at) && AllQuiet(log, base, key))
  {
    GateDecidesView(log, base, at, key);
  }

  /** A stale session cannot stay quiet while the clock does not go back: its first commit reads it as
      stale still. */
  lemma {:induction false} StaleIsNotQuiet(log: seq<Event>, base: nat, at: Millis, key: Key)
    requires WellFormedLog(log) && base <= |log| && key != SENTINEL_KEY
    requires forall i :: base <= i < |log| ==> at <= log[i].createdAt
    requires StaleAt(log[..base], key, at) && AllQuiet(log, base, key)
    ensures SessionLog(log[base..], key) == []
  {
    if |log| == base {
      assert log[base..] == [];
    } else {
      var before, e := log[..|log| - 1], log[|log| - 1];
      SplitLast(log, base);
      StaleIsNotQuiet(before, base, at, key);
      ProjectSnoc(before[base..], e);
      if e.key == key {
        GateDecidesView(before, base, at, key);
        StaleStaysStale(StoredState(Project(before), key).value, at, e.createdAt);
      }
    }
  }

  /** So if no later commit is stamped before the snapshot was taken, the client shows the stored state
      from the session's first later commit on, and its snapshot until then. */
  lemma GatedStreamRefinesTable(log: seq<Event>, base: nat, at: Millis, key: Key)
    requires WellFormedLog(log) && base <= |log| && key != SENTINEL_KEY
    requires forall i :: base <= i < |log| ==> at <= log[i].createdAt
    ensures var shown := ViewAfter(SnapshotView(Project(log[..base]), key, at), Published(log, base), key);
      if SessionLog(log[base..], key) == []
      then shown == SnapshotView(Project(log[..base]), key, at) &&
           StoredState(Project(log), key) == StoredState(Project(log[..base]), key)
      else StoredState(Project(log), key).Some? && shown == Some(StoredState(Project(log), key).value.currentState)
  {
    GateDecidesView(log, base, at, key);
    if SessionLog(log[base..], key) != [] {
      GatedStreamIsRightIff(log, base, at, key);
      if StaleAt(log[..base], key, at) && AllQuiet(log, base, key) {
        StaleIsNotQuiet(log, base, at, key);
      }
    }
  }

  ghost predicate MentionsState(stream: seq<BroadcastEnvelope>, key: Key) {
    exists i :: 0 <= i < |stream| && stream[i].StateMessage? && stream[i].key == key
  }

  /** Without a state for the session in it a stretch of the stream changes nothing shown; with one,
      what was shown before no longer matters. */
  lemma {:induction false} ViewDependsOnLastState(view: Option<CurrentState>, other: Option<CurrentState>,
                                                  stream: seq<BroadcastEnvelope>, key: Key)
    ensures !MentionsState(stream, key) ==> ViewAfter(view, stream, key) == view
    ensures MentionsState(stream, key) ==>
      ViewAfter(view, stream, key) == ViewAfter(other, stream, key) && ViewAfter(view, stream, key).Some?
  {
    if stream != [] {
      var before, m := stream[..|stream| - 1], stream[|stream| - 1];
      ViewDependsOnLastState(view, other, before, key);
      if m.StateMessage? && m.key == key {
        assert stream[|stream| - 1] == m;
      } else if MentionsState(stream, key) {
        var i :| 0 <= i < |stream| && stream[i].StateMessage? && stream[i].key == key;
        assert before[i] == stream[i];
      } else {
        assert forall i :: 0 <= i < |before| ==> before[i] == stream[i];
      }
    }
  }

  /** Whatever the clock does, the last state published for a session is its stored state. */
  lemma {:induction false} LastPublishedStateIsStored(log: seq<Event>, base: nat, key: Key)
    requires WellFormedLog(log) && base <= |log| && key != SENTINEL_KEY
    ensures var shown := ViewAfter(None, Published(log, base), key);
      shown.Some? ==> StoredState(Project(log), key).Some? && shown == Some(StoredState(Project(log), key).value.currentState)
  {
    if |log| > base {
      var before, e := log[..|log| - 1], log[|log| - 1];
      LastPublishedStateIsStored(before, base, key);
      assert log == before + [e];
      ProjectSnoc(before, e);
      ViewAfterCommit(None, before, e, base, key);
    }
  }

  /** The other side of the condition does occur: if the clock steps back after the snapshot, a session
      shown as `Idle` because its `Working` was stale can become busy again without a frame. */
  lemma ClockStepBackLeavesClientStale()
    ensures exists log: seq<Event>, at: Millis, key: Key ::
      && WellFormedLog(log) && |log| == 2 && key != SENTINEL_KEY && log[1].createdAt < at
      && ViewAfter(SnapshotView(Project(log[..1]), key, at), Published(log, 1), key) == Some(Idle)
      && StoredState(Project(log), key).Some?
      && StoredState(Project(log), key).value.currentState == Working
  {
    var key := Key("claude", "s");
    var first := Event(1, key, PreToolUse, None, Payload("{}", None), 0, None, None);
    var second := Event(2, key, PostToolUse, None, Payload("{}", None), 1, None, None);
    var log, at := [first, second], 300_001;
    assert log[..1] == [first] && log == [first] + [second] && WellFormedLog(log);
    assert Project([first]) == map[key := Row(Some(History.Apply(None, first)), 0)] by { assert [first][..0] == []; }
    assert AllQuiet([first], 1, key) && AllQuiet(log, 1, key) && StaleAt(log[..1], key, at);
    GateDecidesView(log, 1, at, key);
  }
}
