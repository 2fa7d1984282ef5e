/** Replaying an exported session (`daemon/src/api/replay.rs`), and what survives the round trip. */
module Replay {
  import opened Protocol
  import opened Projection
  import History
  import Export

  // ---- The request body as lines ----

  function Lines(body: string): (r: seq<string>)
    ensures r != []
  {
    if body == "" then [""]
    else if body[0] == '\n' then [""] + Lines(body[1..])
    else var rest := Lines(body[1..]); [[body[0]] + rest[0]] + rest[1..]
  }

  predicate IsAsciiWhiteSpace(c: char) {
    c == ' ' || c == '\t' || c == '\n' || c as int == 0x0C || c == '\r'
  }

  /** `trim_ascii`, at the front; what is left is empty exactly when the whole line is white space. */
  function TrimStart(s: string): string {
    if s != "" && IsAsciiWhiteSpace(s[0]) then TrimStart(s[1..]) else s
  }

  /** Blank lines and `#` comments are skipped. */
  predicate IsSkipped(line: string) {
    var trimmed := TrimStart(line);
    trimmed == "" || trimmed[0] == '#'
  }

  // ---- One line ----

  /** What the JSON reader makes of a line; the reader itself is not modelled. */
  datatype Parsed = Malformed(error: string) | Parsed(event: Event)

  datatype TrySend = Sent | Full | Closed

  datatype Reason = NotAnEvent(error: string) | SentinelKind | UnknownEventKind | ChannelFull | ChannelClosed

  datatype LineError = LineError(line: nat, reason: Reason)

  /** The envelope rebuilt from a stored event: its id and time are dropped, and the typed notification is
      read out of the payload again. */
  function Rebuild(e: Event): EventEnvelope {
    EventEnvelope(e.key, e.kind, e.reaction, e.payload, e.pid, NotificationTypeOf(e.kind, e.payload), e.cwd)
  }

  /** What became of the request so far. */
  datatype Outcome = Outcome(replayed: nat, errors: seq<LineError>, queued: seq<EventEnvelope>)

  function Reject(o: Outcome, line: nat, reason: Reason): Outcome {
    o.(errors := o.errors + [LineError(line, reason)])
  }

  /** The fate of one line, numbered from 1. */
  function TakeLine(o: Outcome, number: nat, line: string, parse: string -> Parsed, sent: TrySend): Outcome {
    if IsSkipped(line) then o
    else
      match parse(line)
      case Malformed(error) => Reject(o, number, NotAnEvent(error))
      case Parsed(e) =>
        if IsSentinelKind(e.kind) then Reject(o, number, SentinelKind)
        else if e.kind.UnknownKind? then Reject(o, number, UnknownEventKind)
        else
          match sent
          case Sent => Outcome(o.replayed + 1, o.errors, o.queued + [Rebuild(e)])
          case Full => Reject(o, number, ChannelFull)
          case Closed => Reject(o, number, ChannelClosed)
  }

  function TakeLines(lines: seq<string>, parse: string -> Parsed, sends: nat -> TrySend): Outcome {
    if lines == [] then Outcome(0, [], [])
    else
      var n := |lines| - 1;
      TakeLine(TakeLines(lines[..n], parse, sends), n + 1, lines[n], parse, sends(n))
  }

  /** `run`: `sends(i)` is what the queue would answer for line `i`. */
  method ReplayBody(body: string, parse: string -> Parsed, sends: nat -> TrySend)
    returns (replayed: nat, errors: seq<LineError>, queued: seq<EventEnvelope>)
    ensures Outcome(replayed, errors, queued) == TakeLines(Lines(body), parse, sends)
  {
    var lines := Lines(body);
    replayed, errors, queued := 0, [], [];
    for i := 0 to |lines|
      invariant Outcome(replayed, errors, queued) == TakeLines(lines[..i], parse, sends)
    {
      assert lines[..i + 1][..i] == lines[..i];
      if IsSkipped(lines[i]) { continue; }
      var parsed := parse(lines[i]);
      if parsed.Malformed? {
        errors := errors + [LineError(i + 1, NotAnEvent(parsed.error))];
        continue;
      }
      var event := parsed.event;
      if event.kind.RecordingStarted? || event.kind.RecordingEnded? {
        errors := errors + [LineError(i + 1, SentinelKind)];
        continue;
      }
      if event.kind.UnknownKind? {
        errors := errors + [LineError(i + 1, UnknownEventKind)];
        continue;
      }
      var sent := sends(i);
      if sent.Sent? {
        replayed := replayed + 1;
        queued := queued + [Rebuild(event)];
      } else if sent.Full? {
        errors := errors + [LineError(i + 1, ChannelFull)];
      } else {
        errors := errors + [LineError(i + 1, ChannelClosed)];
      }
    }
    assert lines[..|lines|] == lines;
  }

  // ---- What an export's text replays to ----

  /** A JSON printer and reader that lose nothing, and print an event as one line that starts with a brace. */
  ghost predicate IsLossless(render: Event -> string, parse: string -> Parsed) {
    forall e :: parse(render(e)) == Parsed(e) && IsObjectLine(render(e))
  }

  predicate IsObjectLine(line: string) {
    '\n' !in line && line != "" && line[0] == '{'
  }

  /** The exported file: one event a line. */
  function ExportText(events: seq<Event>, render: Event -> string): string {
    if events == [] then "" else render(events[0]) + "\n" + ExportText(events[1..], render)
  }

  function RenderAll(events: seq<Event>, render: Event -> string): seq<string> {
    seq(|events|, i requires 0 <= i < |events| => render(events[i]))
  }

  lemma {:induction false} LinesOfLine(line: string, rest: string)
    requires '\n' !in line
    ensures Lines(line + "\n" + rest) == [line] + Lines(rest)
  {
    var s := line + "\n" + rest;
    if line == "" {
      assert s[1..] == rest;
    } else {
      assert s[1..] == line[1..] + "\n" + rest;
      LinesOfLine(line[1..], rest);
      assert line == [line[0]] + line[1..];
    }
  }

  lemma {:induction false} LinesOfExport(events: seq<Event>, render: Event -> string)
    requires forall e <- events :: IsObjectLine(render(e))
    ensures Lines(ExportText(events, render)) == RenderAll(events, render) + [""]
  {
    if events != [] {
      LinesOfExport(events[1..], render);
      assert events[0] in events;
      LinesOfLine(render(events[0]), ExportText(events[1..], render));
      assert RenderAll(events, render) == [render(events[0])] + RenderAll(events[1..], render);
    }
  }

  /** The events a replay takes: those whose kind this build knows. */
  function Known(events: seq<Event>): seq<Event> {
    if events == [] then []
    else
      var before, e := Known(events[..|events| - 1]), events[|events| - 1];
      if e.kind.UnknownKind? then before else before + [e]
  }

  /** One complaint for each of the others, by line number. */
  function UnknownKinds(events: seq<Event>): seq<LineError> {
    if events == [] then []
    else
      var before, e := UnknownKinds(events[..|events| - 1]), events[|events| - 1];
      if e.kind.UnknownKind? then before + [LineError(|events|, UnknownEventKind)] else before
  }

  function RebuildAll(events: seq<Event>): seq<EventEnvelope> {
    seq(|events|, i requires 0 <= i < |events| => Rebuild(events[i]))
  }

  lemma {:induction false} ReplayOfRendered(events: seq<Event>, render: Event -> string, parse: string -> Parsed, sends: nat -> TrySend)
    requires IsLossless(render, parse) && forall i :: sends(i).Sent?
    requires forall e <- events :: !IsSentinelKind(e.kind)
    ensures TakeLines(RenderAll(events, render), parse, sends) ==
      Outcome(|Known(events)|, UnknownKinds(events), RebuildAll(Known(events)))
  {
    if events != [] {
      var n := |events| - 1;
      var before, e := events[..n], events[n];
      ReplayOfRendered(before, render, parse, sends);
      assert RenderAll(events, render)[..n] == RenderAll(before, render);
      assert e in events && IsObjectLine(render(e)) && sends(n).Sent?;
      assert RebuildAll(Known(before) + [e]) == RebuildAll(Known(before)) + [Rebuild(e)];
    }
  }

  lemma {:induction false} AllKnown(events: seq<Event>)
    ensures (forall e <- events :: !e.kind.UnknownKind?) <==> UnknownKinds(events) == []
    ensures (forall e <- events :: !e.kind.UnknownKind?) <==> |Known(events)| == |events|
    ensures |Known(events)| <= |events| && (|Known(events)| == |events| ==> Known(events) == events)
  {
    if events != [] {
      var before, e := events[..|events| - 1], events[|events| - 1];
      AllKnown(before);
      assert events == before + [e];
      assert forall x :: x in events <==> x in before || x == e;
    }
  }

  /** Replaying an export with room in the queue: every line is taken exactly when no kind is unknown, and
      the lines of unknown kinds are the ones complained about. */
  lemma ExportedLinesAreAccepted(events: seq<Event>, render: Event -> string, parse: string -> Parsed, sends: nat -> TrySend)
    requires IsLossless(render, parse) && forall i :: sends(i).Sent?
    requires forall e <- events :: !IsSentinelKind(e.kind)
    ensures var o := TakeLines(Lines(ExportText(events, render)), parse, sends);
      && o == Outcome(|Known(events)|, UnknownKinds(events), RebuildAll(Known(events)))
      && (o.errors == [] <==> forall e <- events :: !e.kind.UnknownKind?)
      && (o.replayed == |events| <==> forall e <- events :: !e.kind.UnknownKind?)
  {
    forall e <- events ensures IsObjectLine(render(e)) {
      assert parse(render(e)) == Parsed(e);
    }
    LinesOfExport(events, render);
    var lines := RenderAll(events, render) + [""];
    assert lines[..|lines| - 1] == RenderAll(events, render);
    ReplayOfRendered(events, render, parse, sends);
    AllKnown(events);
  }

  /** ASCII white space up to position `i`, and there the line ends or a `#` stands. */
  predicate IsEmptyUpTo(line: string, i: nat) {
    && i <= |line| && (forall j :: 0 <= j < i ==> line[j] as int in {0x09, 0x0A, 0x0C, 0x0D, 0x20})
    && (i == |line| || line[i] == '#')
  }

  lemma EmptyUpToShift(line: string, i: nat)
    requires line != "" && IsAsciiWhiteSpace(line[0])
    ensures IsEmptyUpTo(line, i + 1) <==> IsEmptyUpTo(line[1..], i)
    ensures !IsEmptyUpTo(line, 0)
  {
    var rest := line[1..];
    if IsEmptyUpTo(rest, i) {
      forall j | 0 <= j < i + 1 ensures line[j] as int in {0x09, 0x0A, 0x0C, 0x0D, 0x20} {
        if j > 0 { assert line[j] == rest[j - 1]; }
      }
    }
    if IsEmptyUpTo(line, i + 1) {
      forall j | 0 <= j < i ensures rest[j] as int in {0x09, 0x0A, 0x0C, 0x0D, 0x20} {
        assert rest[j] == line[j + 1];
      }
    }
  }

  /** A line is skipped exactly when it is blank or a comment. */
  lemma {:induction false} SkippedIff(line: string)
    ensures IsSkipped(line) <==> exists i :: IsEmptyUpTo(line, i)
  {
    if line != "" && IsAsciiWhiteSpace(line[0]) {
      SkippedIff(line[1..]);
      if IsSkipped(line[1..]) {
        var i :| IsEmptyUpTo(line[1..], i);
        EmptyUpToShift(line, i);
      }
      forall i: nat | IsEmptyUpTo(line, i) ensures exists k :: IsEmptyUpTo(line[1..], k) {
        EmptyUpToShift(line, if i > 0 then i - 1 else 0);
        assert IsEmptyUpTo(line[1..], i - 1);
      }
    } else {
      assert IsSkipped(line) <==> IsEmptyUpTo(line, 0);
      forall i: nat | IsEmptyUpTo(line, i) ensures i == 0 {
        assert line != "" ==> line[0] as int !in {0x09, 0x0A, 0x0C, 0x0D, 0x20};
      }
    }
  }

  /** What is wrong with a line that is not skipped, if anything: it is no event; its kind is a lifecycle
      marker's or unknown; or it is fine and the queue is full or closed. */
  function Complaint(line: string, parse: string -> Parsed, sent: TrySend): Option<Reason> {
    match (parse(line), sent)
    case (Malformed(error), _) => Some(NotAnEvent(error))
    case (Parsed(e), _) =>
      if e.kind == RecordingStarted || e.kind == RecordingEnded then Some(SentinelKind)
      else if e.kind == EventKind.UnknownKind then Some(UnknownEventKind)
      else if sent == Full then Some(ChannelFull)
      else if sent == Closed then Some(ChannelClosed)
      else None
  }

  /** Every complaint is about its own line and says what is wrong with it, and no line that has something
      wrong with it goes without; the lines with nothing wrong are the ones replayed. */
  lemma {:induction false} ComplaintsAreRight(lines: seq<string>, parse: string -> Parsed, sends: nat -> TrySend)
    ensures var o := TakeLines(lines, parse, sends);
      && (forall c :: c in o.errors <==>
            1 <= c.line <= |lines| && !IsSkipped(lines[c.line - 1]) &&
            Complaint(lines[c.line - 1], parse, sends(c.line - 1)) == Some(c.reason))
      && o.replayed == Fine(lines, parse, sends)
  {
    if lines != [] {
      var n := |lines| - 1;
      ComplaintsAreRight(lines[..n], parse, sends);
      var o, after := TakeLines(lines[..n], parse, sends), TakeLines(lines, parse, sends);
      forall c
        ensures c in after.errors <==>
          1 <= c.line <= |lines| && !IsSkipped(lines[c.line - 1]) &&
          Complaint(lines[c.line - 1], parse, sends(c.line - 1)) == Some(c.reason)
      {
        var here := c.line == n + 1 && !IsSkipped(lines[n]) && Complaint(lines[n], parse, sends(n)) == Some(c.reason);
        assert c in after.errors <==> c in o.errors || here;
      }
    }
  }

  function Fine(lines: seq<string>, parse: string -> Parsed, sends: nat -> TrySend): nat {
    if lines == [] then 0
    else
      var n := |lines| - 1;
      Fine(lines[..n], parse, sends) + (if !IsSkipped(lines[n]) && Complaint(lines[n], parse, sends(n)) == None then 1 else 0)
  }

  /** Whatever the lines and the queue, what is queued has a known kind and the notification type its
      payload spells; the count is exact, and every line is skipped, complained about or queued. */
  lemma {:induction false} QueuedIsReplayable(lines: seq<string>, parse: string -> Parsed, sends: nat -> TrySend)
    ensures var o := TakeLines(lines, parse, sends);
      && o.replayed == |o.queued|
      && |o.queued| + |o.errors| + Skipped(lines) == |lines|
      && (forall i :: 0 <= i < |o.queued| ==> Replayable(o.queued[i]))
      && (forall i :: 0 <= i < |o.errors| ==> 1 <= o.errors[i].line <= |lines|)
  {
    if lines != [] { QueuedIsReplayable(lines[..|lines| - 1], parse, sends); }
  }

  predicate Replayable(env: EventEnvelope) {
    WellTyped(env) && !IsSentinelKind(env.kind) && !env.kind.UnknownKind?
  }

  function Skipped(lines: seq<string>): nat {
    if lines == [] then 0
    else Skipped(lines[..|lines| - 1]) + if IsSkipped(lines[|lines| - 1]) then 1 else 0
  }

  // ---- The tables after the replay ----

  /** The queued envelopes written in order, the `i`-th at `times(i)`, none failing. */
  function WriteAll(db: Db, envs: seq<EventEnvelope>, times: nat -> Millis): Db {
    if envs == [] then db
    else
      var n := |envs| - 1;
      WriteInner(WriteAll(db, envs[..n], times), envs[n], None, At(times(n))).db
  }

  /** The events with new ids and times. */
  function Restamp(events: seq<Event>, times: nat -> Millis): seq<Event> {
    seq(|events|, i requires 0 <= i < |events| => events[i].(eventId := i + 1, createdAt := times(i)))
  }

  lemma {:induction false} ReplayedLog(events: seq<Event>, times: nat -> Millis)
    requires forall e <- events :: !IsSentinelKind(e.kind)
    ensures var db := WriteAll(EMPTY_DB, RebuildAll(events), times);
      Consistent(db) && db.log == Restamp(events, times)
  {
    if events != [] {
      var n := |events| - 1;
      var before, e := events[..n], events[n];
      ReplayedLog(before, times);
      assert RebuildAll(events)[..n] == RebuildAll(before);
      assert e in events;
      WriteInnerKeepsConsistent(WriteAll(EMPTY_DB, RebuildAll(before), times), Rebuild(e), None, At(times(n)));
      assert Restamp(events, times) == Restamp(before, times) + [e.(eventId := n + 1, createdAt := times(n))];
    }
  }

  /** Events that differ at most in id and time. */
  predicate SameEvent(a: Event, b: Event) {
    a.(eventId := 0, createdAt := 0) == b.(eventId := 0, createdAt := 0)
  }

  predicate SameEvents(a: seq<Event>, b: seq<Event>) {
    |a| == |b| && forall i :: 0 <= i < |a| ==> SameEvent(a[i], b[i])
  }

  /** States that differ at most in their times. */
  predicate SameState(a: Option<SessionState>, b: Option<SessionState>) {
    match (a, b)
    case (None, None) => true
    case (Some(s), Some(t)) =>
      s.currentState == t.currentState && s.lastEventKind == t.lastEventKind && s.lastPid == t.lastPid && s.cwd == t.cwd
      && s.startedAt.Some? == t.startedAt.Some?
    case (_, _) => false
  }

  lemma ApplyIgnoresStamps(p: Option<SessionState>, q: Option<SessionState>, e: Event, f: Event)
    requires SameState(p, q) && SameEvent(e, f)
    ensures SameState(Some(History.Apply(p, e)), Some(History.Apply(q, f)))
  {
    assert e.kind == f.kind && e.payload == f.payload && e.pid == f.pid && e.cwd == f.cwd;
  }

  /** The fold sees nothing of ids, and nothing of times but the times it stores. */
  lemma {:induction false} FoldIgnoresStamps(a: seq<Event>, b: seq<Event>)
    requires SameEvents(a, b)
    ensures SameState(History.Fold(a), History.Fold(b))
  {
    if a != [] {
      var n := |a| - 1;
      FoldIgnoresStamps(a[..n], b[..n]);
      ApplyIgnoresStamps(History.Fold(a[..n]), History.Fold(b[..n]), a[n], b[n]);
    }
  }

  lemma {:induction false} SessionLogIgnoresStamps(a: seq<Event>, b: seq<Event>, key: Key)
    requires SameEvents(a, b)
    ensures SameEvents(SessionLog(a, key), SessionLog(b, key))
  {
    if a != [] {
      var n := |a| - 1;
      SessionLogIgnoresStamps(a[..n], b[..n], key);
      assert SameEvent(a[n], b[n]);
    }
  }

  /** An export holds the whole history of each session key it covers, and nothing of any other. */
  lemma {:induction false} SelectKeepsSessions(log: seq<Event>, sessionId: string, key: Key)
    requires WellFormedLog(log)
    ensures SessionLog(Export.SelectSince(log, sessionId, 0), key) == if key.sessionId == sessionId && key.source != DAEMON_SENTINEL then SessionLog(log, key) else []
  {
    if log != [] {
      var before, e := log[..|log| - 1], log[|log| - 1];
      var s := Export.SelectSince(before, sessionId, 0);
      SelectKeepsSessions(before, sessionId, key);
      assert (s + [e])[..|s|] == s;
    }
  }

  /** Exporting a session with any page size and replaying the file into an empty store: every event of a
      known kind once, the same but for id and time, in the same order; no other event, so no
      `SessionEnded` more. The file is accepted whole if and only if no kind is unknown, and then every
      session key of the export has the same row but for its times, and there is no row besides. */
  lemma ExportReplayRoundTrip(db: Db, sessionId: string, limit: nat, render: Event -> string, parse: string -> Parsed,
                              sends: nat -> TrySend, times: nat -> Millis)
    requires Consistent(db) && |db.log| <= I64_MAX && limit > 0
    requires IsLossless(render, parse) && forall i :: sends(i).Sent?
    ensures var exported := Export.Pages(Export.Server(db, sessionId, limit), 0).0;
      var o := TakeLines(Lines(ExportText(exported, render)), parse, sends);
      var copy := WriteAll(EMPTY_DB, o.queued, times);
      && Consistent(copy) && SameEvents(Known(exported), copy.log) && o.replayed == |copy.log|
      && (o.errors == [] <==> forall e <- exported :: !e.kind.UnknownKind?)
      && (o.errors == [] ==> SameEvents(exported, copy.log) && SameRows(db, copy, sessionId))
  {
    Export.ExportIsSelected(db, sessionId, limit);
    var exported := Export.SelectSince(db.log, sessionId, 0);
    ExportIsSentinelFree(db.log, sessionId);
    ExportedLinesAreAccepted(exported, render, parse, sends);
    AllKnown(exported);
    KnownAreAmong(exported);
    ReplayedLog(Known(exported), times);
    var copied := Restamp(Known(exported), times);
    assert SameEvents(Known(exported), copied);
    if forall e <- exported :: !e.kind.UnknownKind? {
      RowsSurvive(db, sessionId, copied);
    }
  }

  /** The rows of the session's keys are the same but for their times, and there are no others. */
  ghost predicate SameRows(db: Db, copy: Db, sessionId: string) {
    forall key :: key != SENTINEL_KEY ==>
      if key.sessionId == sessionId && key.source != DAEMON_SENTINEL
      then SameState(StoredState(copy.table, key), StoredState(db.table, key)) && (key in copy.table <==> key in db.table)
      else key !in copy.table
  }

  lemma RowsSurvive(db: Db, sessionId: string, copied: seq<Event>)
    requires Consistent(db) && WellFormedLog(copied) && SameEvents(Export.SelectSince(db.log, sessionId, 0), copied)
    ensures SameRows(db, Db(copied, Project(copied)), sessionId)
  {
    forall key | key != SENTINEL_KEY
      ensures
        if key.sessionId == sessionId && key.source != DAEMON_SENTINEL
        then SameState(StoredState(Project(copied), key), StoredState(db.table, key)) && (key in Project(copied) <==> key in db.table)
        else key !in Project(copied)
    {
      RowSurvives(db, sessionId, copied, key);
    }
  }

  lemma {:induction false} KnownAreAmong(events: seq<Event>)
    ensures forall e <- Known(events) :: e in events
  {
    if events != [] {
      KnownAreAmong(events[..|events| - 1]);
      assert events == events[..|events| - 1] + [events[|events| - 1]];
    }
  }

  lemma ExportIsSentinelFree(log: seq<Event>, sessionId: string)
    requires WellFormedLog(log)
    ensures forall e <- Export.SelectSince(log, sessionId, 0) :: !IsSentinelKind(e.kind)
  {
    Export.SelectedIds(log, sessionId, 0);
    var s := Export.SelectSince(log, sessionId, 0);
    forall e <- s ensures !IsSentinelKind(e.kind) {
      var i :| 0 <= i < |s| && s[i] == e;
      assert Export.Selected(s[i], sessionId, 0, |log|);
    }
  }

  lemma RowSurvives(db: Db, sessionId: string, copied: seq<Event>, key: Key)
    requires Consistent(db) && WellFormedLog(copied) && key != SENTINEL_KEY
    requires SameEvents(Export.SelectSince(db.log, sessionId, 0), copied)
    ensures
      if key.sessionId == sessionId && key.source != DAEMON_SENTINEL
      then SameState(StoredState(Project(copied), key), StoredState(db.table, key)) && (key in Project(copied) <==> key in db.table)
      else key !in Project(copied)
  {
    var exported := Export.SelectSince(db.log, sessionId, 0);
    SessionLogIgnoresStamps(exported, copied, key);
    SelectKeepsSessions(db.log, sessionId, key);
    FoldIgnoresStamps(SessionLog(exported, key), SessionLog(copied, key));
    RowIsFoldOfHistory(copied, key);
    RowIsFoldOfHistory(db.log, key);
  }
}
