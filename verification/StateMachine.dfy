/** The session state machine (`projection/state.rs`): the pure step that folds one event into a
    session's projection, the read-time view of a stored state, and what a whole history means. */
module StateMachine {
  import opened Protocol

  /** Age in milliseconds beyond which a stored `Working` reads as `Idle`. */
  const STALE_WORKING_MS := 300_000

  function OrElse<T>(first: Option<T>, second: Option<T>): Option<T> {
    if first.Some? then first else second
  }

  function NotificationState(prev: Option<SessionState>, notification: Option<NotificationType>): CurrentState {
    match notification
    case Some(PermissionPrompt) => WaitingInput
    case Some(ElicitationDialog) => WaitingInput
    case Some(IdlePrompt) =>
      if prev.Some? && prev.value.currentState.WaitingInput? then WaitingInput else Idle
    case _ =>
      if prev.None? || prev.value.currentState.Ended? then Idle else prev.value.currentState
  }

  function Transition(prev: Option<SessionState>, kind: EventKind, notification: Option<NotificationType>,
                      pid: Option<Pid>, cwd: Option<string>, now: Millis): SessionState
  {
    var nextPid := OrElse(pid, if prev.Some? then prev.value.lastPid else None);
    var nextCwd := OrElse(cwd, if prev.Some? then prev.value.cwd else None);
    var nextStarted := OrElse(if prev.Some? then prev.value.startedAt else None, Some(now));
    match kind
    case UserPromptSubmit => SessionState(Working, kind, now, nextPid, nextCwd, nextStarted)
    case PreToolUse => SessionState(Working, kind, now, nextPid, nextCwd, nextStarted)
    case PostToolUse => SessionState(Working, kind, now, nextPid, nextCwd, nextStarted)
    case Stop => SessionState(Idle, kind, now, nextPid, nextCwd, nextStarted)
    case Notification =>
      SessionState(NotificationState(prev, notification), kind, now, nextPid, nextCwd, nextStarted)
    case SessionEnded => SessionState(Ended, kind, now, nextPid, nextCwd, nextStarted)
    case _ =>
      if prev.Some? then
        prev.value.(lastPid := nextPid, cwd := nextCwd, startedAt := nextStarted)
      else
        SessionState(Idle, kind, now, nextPid, nextCwd, nextStarted)
  }

  /** The read-time view: a stored `Working` older than the threshold reads as `Idle`. */
  function CurrentStateForRead(stored: SessionState, now: Millis): CurrentState {
    if stored.currentState.Working? && SaturatingSub(now, stored.lastEventAt) > STALE_WORKING_MS
    then Idle else stored.currentState
  }

  /** The read-time view in plain numbers: idle instead of working once the last event is more than five
      minutes old, and otherwise as stored, at every pair of 64-bit times. */
  lemma ReadsIdleAfterFiveMinutes(stored: SessionState, now: Millis)
    ensures var age: int := now as int - stored.lastEventAt as int;
      CurrentStateForRead(stored, now) == if stored.currentState == Working && age > 5 * 60 * 1000 then Idle else stored.currentState
  {
  }

  /** Once a stored state reads as stale it keeps reading so at every later clock value. */
  lemma StaleStaysStale(stored: SessionState, earlier: Millis, later: Millis)
    requires earlier <= later
    requires CurrentStateForRead(stored, earlier) != stored.currentState
    ensures CurrentStateForRead(stored, later) == CurrentStateForRead(stored, earlier) == Idle
    ensures stored.currentState == Working
  {
  }
}

/** What a session's stored state says about its whole history, without mentioning the fold. */
module History {
  import opened Protocol
  import opened StateMachine

  /** One step of the projection: an event folded into the previous state. */
  function Apply(prev: Option<SessionState>, e: Event): SessionState {
    Transition(prev, e.kind, NotificationTypeOf(e.kind, e.payload), e.pid, e.cwd, e.createdAt)
  }

  /** The projection of a history: `Apply` folded over it, oldest event first. */
  function Fold(h: seq<Event>): Option<SessionState> {
    if h == [] then None else Some(Apply(Fold(h[..|h| - 1]), h[|h| - 1]))
  }

  /** Kinds that leave the state machine alone: the lifecycle sentinels and the decode-only catch-all. */
  predicate Inert(e: Event) {
    IsSentinelKind(e.kind) || e.kind.UnknownKind?
  }

  predicate Active(e: Event) {
    e.kind.UserPromptSubmit? || e.kind.PreToolUse? || e.kind.PostToolUse?
  }

  /** A notification whose payload spells a permission prompt or an elicitation dialog. */
  predicate HardBlock(e: Event) {
    e.kind.Notification? &&
    (e.payload.notificationTag == Some(Spelling(PermissionPrompt)) ||
     e.payload.notificationTag == Some(Spelling(ElicitationDialog)))
  }

  /** A notification whose payload spells an idle prompt. */
  predicate IdleNudge(e: Event) {
    e.kind.Notification? && e.payload.notificationTag == Some(Spelling(IdlePrompt))
  }

  lemma NotificationsBySpelling(e: Event)
    ensures var n := NotificationTypeOf(e.kind, e.payload);
      (HardBlock(e) <==> n == Some(PermissionPrompt) || n == Some(ElicitationDialog)) && (IdleNudge(e) <==> n == Some(IdlePrompt))
  {
    if e.payload.notificationTag.Some? { TagIffSpelling(e.payload.notificationTag.value); }
  }

  predicate Notice(e: Event) {
    e.kind.Notification? || Inert(e)
  }

  /** The trailing run of notifications holds a permission prompt or an elicitation dialog. */
  ghost predicate BlockedAtEnd(h: seq<Event>) {
    exists i :: 0 <= i < |h| && HardBlock(h[i]) && forall j :: i < j < |h| ==> Notice(h[j])
  }

  /** The last event that is not inert ended the session. */
  ghost predicate EndedAtEnd(h: seq<Event>) {
    exists i :: 0 <= i < |h| && h[i].kind.SessionEnded? && forall j :: i < j < |h| ==> Inert(h[j])
  }

  /** A prompt or tool event is followed only by notifications that neither block nor nudge. */
  ghost predicate ActiveAtEnd(h: seq<Event>) {
    exists i :: 0 <= i < |h| && Active(h[i]) &&
      forall j :: i < j < |h| ==> Notice(h[j]) && !HardBlock(h[j]) && !IdleNudge(h[j])
  }

  lemma BlockedSnoc(h: seq<Event>, e: Event)
    ensures BlockedAtEnd(h + [e]) <==> HardBlock(e) || (Notice(e) && BlockedAtEnd(h))
  {
    var g := h + [e];
    if HardBlock(e) { assert HardBlock(g[|h|]); }
    if Notice(e) && BlockedAtEnd(h) {
      var i :| 0 <= i < |h| && HardBlock(h[i]) && forall j :: i < j < |h| ==> Notice(h[j]);
      assert HardBlock(g[i]) && forall j :: i < j < |g| ==> Notice(g[j]);
    }
    if BlockedAtEnd(g) && !HardBlock(e) {
      var i :| 0 <= i < |g| && HardBlock(g[i]) && forall j :: i < j < |g| ==> Notice(g[j]);
      assert g[|h|] == e && i < |h|;
      assert HardBlock(h[i]) && forall j :: i < j < |h| ==> Notice(h[j]) by {
        forall j | i < j < |h| ensures Notice(h[j]) { assert h[j] == g[j]; }
      }
    }
  }

  lemma EndedSnoc(h: seq<Event>, e: Event)
    ensures EndedAtEnd(h + [e]) <==> e.kind.SessionEnded? || (Inert(e) && EndedAtEnd(h))
  {
    var g := h + [e];
    if e.kind.SessionEnded? { assert g[|h|].kind.SessionEnded?; }
    if Inert(e) && EndedAtEnd(h) {
      var i :| 0 <= i < |h| && h[i].kind.SessionEnded? && forall j :: i < j < |h| ==> Inert(h[j]);
      assert g[i].kind.SessionEnded? && forall j :: i < j < |g| ==> Inert(g[j]);
    }
    if EndedAtEnd(g) && !e.kind.SessionEnded? {
      var i :| 0 <= i < |g| && g[i].kind.SessionEnded? && forall j :: i < j < |g| ==> Inert(g[j]);
      assert g[|h|] == e && i < |h|;
      assert h[i].kind.SessionEnded? && forall j :: i < j < |h| ==> Inert(h[j]) by {
        forall j | i < j < |h| ensures Inert(h[j]) { assert h[j] == g[j]; }
      }
    }
  }

  lemma ActiveSnoc(h: seq<Event>, e: Event)
    ensures ActiveAtEnd(h + [e]) <==>
      Active(e) || (Notice(e) && !HardBlock(e) && !IdleNudge(e) && ActiveAtEnd(h))
  {
    var g := h + [e];
    if Active(e) { assert Active(g[|h|]); }
    if Notice(e) && !HardBlock(e) && !IdleNudge(e) && ActiveAtEnd(h) {
      var i :| 0 <= i < |h| && Active(h[i]) &&
        forall j :: i < j < |h| ==> Notice(h[j]) && !HardBlock(h[j]) && !IdleNudge(h[j]);
      assert Active(g[i]) && forall j :: i < j < |g| ==> Notice(g[j]) && !HardBlock(g[j]) && !IdleNudge(g[j]);
    }
    if ActiveAtEnd(g) && !Active(e) {
      var i :| 0 <= i < |g| && Active(g[i]) &&
        forall j :: i < j < |g| ==> Notice(g[j]) && !HardBlock(g[j]) && !IdleNudge(g[j]);
      assert g[|h|] == e && i < |h|;
      assert Active(h[i]);
      forall j | i < j < |h| ensures Notice(h[j]) && !HardBlock(h[j]) && !IdleNudge(h[j]) {
        assert h[j] == g[j];
      }
    }
  }

  predicate InState(s: Option<SessionState>, c: CurrentState) {
    s.Some? && s.value.currentState == c
  }

  lemma ApplyState(prev: Option<SessionState>, e: Event)
    requires !InState(prev, UnknownState)
    ensures Apply(prev, e).currentState != UnknownState
    ensures Apply(prev, e).currentState == WaitingInput <==>
      HardBlock(e) || (Notice(e) && InState(prev, WaitingInput))
    ensures Apply(prev, e).currentState == Ended <==>
      e.kind.SessionEnded? || (Inert(e) && InState(prev, Ended))
    ensures Apply(prev, e).currentState == Working <==>
      Active(e) || (Notice(e) && !HardBlock(e) && !IdleNudge(e) && InState(prev, Working))
  {
    NotificationsBySpelling(e);
  }

  /** Which of the four states a history leaves, read off the history itself: the state is `Idle`
      exactly when there is a history and none of the other three descriptions fits. */
  lemma {:induction false} HistoryCharacterisation(h: seq<Event>)
    ensures Fold(h).Some? <==> h != []
    ensures InState(Fold(h), WaitingInput) <==> BlockedAtEnd(h)
    ensures InState(Fold(h), Ended) <==> EndedAtEnd(h)
    ensures InState(Fold(h), Working) <==> ActiveAtEnd(h)
    ensures InState(Fold(h), Idle) <==> h != [] && !BlockedAtEnd(h) && !EndedAtEnd(h) && !ActiveAtEnd(h)
  {
    if h != [] {
      var g, e := h[..|h| - 1], h[|h| - 1];
      HistoryCharacterisation(g);
      FoldNeverUnknown(g);
      ApplyState(Fold(g), e);
      BlockedSnoc(g, e);
      EndedSnoc(g, e);
      ActiveSnoc(g, e);
      assert h == g + [e];
      FoldNeverUnknown(h);
      assert Fold(h) == Some(Apply(Fold(g), e));
    }
  }

  lemma {:induction false} FoldNeverUnknown(h: seq<Event>)
    ensures !InState(Fold(h), UnknownState)
  {
    if h != [] { FoldNeverUnknown(h[..|h| - 1]); }
  }

  /** `pid` is the last process id any event of `h` reported. */
  ghost predicate LastReportedPid(h: seq<Event>, pid: Option<Pid>) {
    if pid.None? then forall i :: 0 <= i < |h| ==> h[i].pid.None?
    else exists i :: 0 <= i < |h| && h[i].pid == pid && forall j :: i < j < |h| ==> h[j].pid.None?
  }

  /** `cwd` is the last working directory any event of `h` reported. */
  ghost predicate LastReportedCwd(h: seq<Event>, cwd: Option<string>) {
    if cwd.None? then forall i :: 0 <= i < |h| ==> h[i].cwd.None?
    else exists i :: 0 <= i < |h| && h[i].cwd == cwd && forall j :: i < j < |h| ==> h[j].cwd.None?
  }

  lemma LastPidSnoc(h: seq<Event>, e: Event, pid: Option<Pid>)
    requires LastReportedPid(h, pid)
    ensures LastReportedPid(h + [e], OrElse(e.pid, pid))
  {
    var g := h + [e];
    if e.pid.Some? {
      assert g[|h|].pid == e.pid;
    } else if pid.Some? {
      var i :| 0 <= i < |h| && h[i].pid == pid && forall j :: i < j < |h| ==> h[j].pid.None?;
      assert g[i].pid == pid && forall j :: i < j < |g| ==> g[j].pid.None?;
    }
  }

  lemma LastCwdSnoc(h: seq<Event>, e: Event, cwd: Option<string>)
    requires LastReportedCwd(h, cwd)
    ensures LastReportedCwd(h + [e], OrElse(e.cwd, cwd))
  {
    var g := h + [e];
    if e.cwd.Some? {
      assert g[|h|].cwd == e.cwd;
    } else if cwd.Some? {
      var i :| 0 <= i < |h| && h[i].cwd == cwd && forall j :: i < j < |h| ==> h[j].cwd.None?;
      assert g[i].cwd == cwd && forall j :: i < j < |g| ==> g[j].cwd.None?;
    }
  }

  lemma ApplyFacts(prev: Option<SessionState>, e: Event)
    ensures Apply(prev, e).lastPid == OrElse(e.pid, if prev.Some? then prev.value.lastPid else None)
    ensures Apply(prev, e).cwd == OrElse(e.cwd, if prev.Some? then prev.value.cwd else None)
    ensures Apply(prev, e).startedAt == OrElse(if prev.Some? then prev.value.startedAt else None, Some(e.createdAt))
  {
  }

  /** The three facts a state carries besides the machine: the last process id and directory any
      event reported, and the time of the first event. */
  lemma {:induction false} HistoryFacts(h: seq<Event>)
    requires h != []
    ensures LastReportedPid(h, Fold(h).value.lastPid)
    ensures LastReportedCwd(h, Fold(h).value.cwd)
    ensures Fold(h).value.startedAt == Some(h[0].createdAt)
  {
    var g, e := h[..|h| - 1], h[|h| - 1];
    assert h == g + [e];
    if g != [] { HistoryFacts(g); }
    var prev := Fold(g);
    ApplyFacts(prev, e);
    LastPidSnoc(g, e, if prev.Some? then prev.value.lastPid else None);
    LastCwdSnoc(g, e, if prev.Some? then prev.value.cwd else None);
  }

  /** `s` is stamped with the last event that is not inert, or with the first event of a wholly
      inert history. */
  ghost predicate StampedByLast(h: seq<Event>, s: SessionState) {
    exists i :: 0 <= i < |h| && (Inert(h[i]) ==> i == 0) && (forall j :: i < j < |h| ==> Inert(h[j])) &&
      s.lastEventKind == h[i].kind && s.lastEventAt == h[i].createdAt
  }

  lemma {:induction false} HistoryStamp(h: seq<Event>)
    requires h != []
    ensures StampedByLast(h, Fold(h).value)
  {
    var g, e := h[..|h| - 1], h[|h| - 1];
    assert h == g + [e];
    if g == [] || !Inert(e) {
      assert h[|h| - 1] == e;
    } else {
      HistoryStamp(g);
      var s := Fold(g).value;
      var i :| 0 <= i < |g| && (Inert(g[i]) ==> i == 0) && (forall j :: i < j < |g| ==> Inert(g[j])) &&
        s.lastEventKind == g[i].kind && s.lastEventAt == g[i].createdAt;
      assert g[i] == h[i] && forall j :: i < j < |h| ==> Inert(h[j]);
    }
  }
}
