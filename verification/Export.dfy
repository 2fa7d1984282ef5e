/** Exporting a session's events page by page (`src/commands/export.rs`) from the events endpoint
    (`daemon/src/api/events.rs`). */
module Export {
  import opened Protocol
  import opened Projection

  type Cursor = x: int | I64_MIN <= x <= I64_MAX

  /** The endpoint's answer to one request. */
  datatype Answer = Page(events: seq<Event>, cursor: Option<Cursor>) | NotServed(error: string)

  datatype Ending = Done | NonIncreasingCursor(since: Cursor, next: Cursor) | FetchFailed(error: string)

  /** What an export wrote, and how it ended. `touched` tells whether the output was opened, which empties
      a file that was there. */
  datatype Run = Run(touched: bool, events: seq<Event>, ending: Ending)

  /** The pages from `since` on. */
  function Pages(fetch: Cursor -> Answer, since: Cursor): (seq<Event>, Ending)
    decreases I64_MAX - since
  {
    match fetch(since)
    case NotServed(error) => ([], FetchFailed(error))
    case Page(events, None) => (events, Done)
    case Page(events, Some(next)) =>
      if next <= since then (events, NonIncreasingCursor(since, next))
      else var (more, ending) := Pages(fetch, next); (events + more, ending)
  }

  /** `run`: whatever the daemon answers, the loop ends. The output stays closed when the first request
      fails; a cursor that does not advance ends the export with an error. */
  method ExportSession(fetch: Cursor -> Answer) returns (r: Run)
    ensures r.touched <==> fetch(0).Page?
    ensures (r.events, r.ending) == Pages(fetch, 0)
  {
    var since: Cursor := 0;
    var page := fetch(since);
    if page.NotServed? {
      return Run(false, [], FetchFailed(page.error));
    }
    var written: seq<Event> := [];
    assert [] + Pages(fetch, since).0 == Pages(fetch, since).0;
    while true
      invariant page == fetch(since) && page.Page?
      invariant Pages(fetch, 0) == (written + Pages(fetch, since).0, Pages(fetch, since).1)
      decreases I64_MAX - since
    {
      ghost var before := written;
      written := written + page.events;
      if page.cursor.None? {
        return Run(true, written, Done);
      }
      var next := page.cursor.value;
      if next <= since {
        return Run(true, written, NonIncreasingCursor(since, next));
      }
      assert before + (page.events + Pages(fetch, next).0) == written + Pages(fetch, next).0;
      since := next;
      page := fetch(since);
      if page.NotServed? {
        assert written + [] == written;
        return Run(true, written, FetchFailed(page.error));
      }
    }
  }

  // ---- The endpoint over a fixed log ----

  predicate Belongs(key: Key, sessionId: string) {
    key.source != DAEMON_SENTINEL && key.sessionId == sessionId
  }

  /** The rows of `SELECT_EVENTS_FOR_SESSION_SINCE`. */
  function SelectSince(log: seq<Event>, sessionId: string, since: int): seq<Event> {
    if log == [] then []
    else
      var before, e := SelectSince(log[..|log| - 1], sessionId, since), log[|log| - 1];
      if Belongs(e.key, sessionId) && e.eventId > since then before + [e] else before
  }

  predicate SessionExists(db: Db, sessionId: string) {
    exists k <- db.table :: Belongs(k, sessionId)
  }

  function FirstPage(events: seq<Event>, limit: nat): seq<Event> {
    if |events| <= limit then events else events[..limit]
  }

  /** The endpoint, with pages of at most `limit` events. */
  function Serve(db: Db, sessionId: string, limit: nat, since: int): Answer
    requires |db.log| <= I64_MAX && WellFormedLog(db.log)
  {
    if !SessionExists(db, sessionId) then NotServed("session not found")
    else
      SelectedIds(db.log, sessionId, since);
      var selected := SelectSince(db.log, sessionId, since);
      var events := FirstPage(selected, limit);
      assert events != [] ==> Selected(selected[|events| - 1], sessionId, since, |db.log|);
      Page(events, if events == [] then None else Some(events[|events| - 1].eventId as Cursor))
  }

  /** The endpoint as the exporter sees it. */
  function Server(db: Db, sessionId: string, limit: nat): Cursor -> Answer
    requires |db.log| <= I64_MAX && WellFormedLog(db.log)
  {
    (since: Cursor) => Serve(db, sessionId, limit, since)
  }

  predicate Selected(e: Event, sessionId: string, since: int, last: nat) {
    since < e.eventId && 0 < e.eventId <= last && Belongs(e.key, sessionId) && !IsSentinelKind(e.kind)
  }

  predicate Ascending(events: seq<Event>) {
    forall i, j :: 0 <= i < j < |events| ==> events[i].eventId < events[j].eventId
  }

  lemma {:induction false} SelectedIds(log: seq<Event>, sessionId: string, since: int)
    requires WellFormedLog(log)
    ensures forall i :: 0 <= i < |SelectSince(log, sessionId, since)| ==>
      Selected(SelectSince(log, sessionId, since)[i], sessionId, since, |log|)
    ensures Ascending(SelectSince(log, sessionId, since))
  {
    if log != [] {
      var before, e := log[..|log| - 1], log[|log| - 1];
      assert e.eventId == |log| && (IsSentinelKind(e.kind) ==> e.key == SENTINEL_KEY);
      SelectedIds(before, sessionId, since);
      assert SelectSince(log, sessionId, since) == SelectSince(before, sessionId, since) ||
             SelectSince(log, sessionId, since) == SelectSince(before, sessionId, since) + [e];
    }
  }

  /** Asking again from the id of a selected event gives what came after it. */
  lemma {:induction false} SelectAfter(log: seq<Event>, sessionId: string, since: int, n: nat)
    requires WellFormedLog(log) && 0 < n <= |SelectSince(log, sessionId, since)|
    ensures var s := SelectSince(log, sessionId, since);
      SelectSince(log, sessionId, s[n - 1].eventId) == s[n..]
  {
    var s := SelectSince(log, sessionId, since);
    var before, e := log[..|log| - 1], log[|log| - 1];
    var t := SelectSince(before, sessionId, since);
    SelectedIds(log, sessionId, since);
    SelectedIds(before, sessionId, since);
    if n <= |t| {
      SelectAfter(before, sessionId, since, n);
      assert s[n - 1] == t[n - 1];
    } else {
      assert s == t + [e] && s[n - 1] == e;
      NothingAfter(before, sessionId, e.eventId);
    }
  }

  lemma {:induction false} NothingAfter(log: seq<Event>, sessionId: string, since: int)
    requires WellFormedLog(log) && since >= |log|
    ensures SelectSince(log, sessionId, since) == []
  {
    if log != [] { NothingAfter(log[..|log| - 1], sessionId, since); }
  }

  /** The session has a row exactly when it has an event to export. */
  lemma {:induction false} ExistsIffExports(log: seq<Event>, sessionId: string)
    requires WellFormedLog(log)
    ensures SessionExists(Db(log, Project(log)), sessionId) <==> SelectSince(log, sessionId, 0) != []
  {
    if log != [] {
      var before, e := log[..|log| - 1], log[|log| - 1];
      assert log == before + [e];
      ProjectSnoc(before, e);
      ExistsIffExports(before, sessionId);
      assert forall k :: k in Project(log) <==> k in Project(before) || k == e.key;
      if Belongs(e.key, sessionId) {
        assert e.key in Project(log);
      }
    }
  }

  lemma PageIsNext(db: Db, sessionId: string, limit: nat, since: Cursor) returns (n: nat, next: Cursor)
    requires |db.log| <= I64_MAX && WellFormedLog(db.log) && limit > 0 && SessionExists(db, sessionId)
    requires SelectSince(db.log, sessionId, since) != []
    ensures var selected := SelectSince(db.log, sessionId, since);
      && 0 < n <= |selected| && next == selected[n - 1].eventId > since
      && Server(db, sessionId, limit)(since) == Page(selected[..n], Some(next))
  {
    var selected := SelectSince(db.log, sessionId, since);
    SelectedIds(db.log, sessionId, since);
    n := |FirstPage(selected, limit)|;
    assert FirstPage(selected, limit) == selected[..n];
    assert Selected(selected[n - 1], sessionId, since, |db.log|);
    next := selected[n - 1].eventId as Cursor;
  }

  /** A page never exceeds the limit, and is the last one unless it is full. */
  lemma PagesAreBounded(db: Db, sessionId: string, limit: nat, since: Cursor)
    requires |db.log| <= I64_MAX && WellFormedLog(db.log)
    ensures var page := Server(db, sessionId, limit)(since); page.Page? ==>
      && |page.events| <= limit
      && (|page.events| < limit ==> AreTheSessionsEvents(page.events, db.log, sessionId, since))
      && (page.cursor.Some? <==> page.events != [])
  {
    SelectsTheSessionsEvents(db.log, sessionId, since);
  }

  lemma PagesStep(fetch: Cursor -> Answer, since: Cursor, events: seq<Event>, next: Cursor)
    requires fetch(since) == Page(events, Some(next)) && next > since
    ensures Pages(fetch, since) == (events + Pages(fetch, next).0, Pages(fetch, next).1)
  {
  }

  /** These events, by increasing id: the log's events of the session after `since`, whatever their source
      but for the daemon's own. */
  ghost predicate AreTheSessionsEvents(events: seq<Event>, log: seq<Event>, sessionId: string, since: int) {
    && (forall i, j :: 0 <= i < j < |events| ==> events[i].eventId < events[j].eventId)
    && forall e :: e in events <==>
         e in log && e.key.sessionId == sessionId && e.key.source != DAEMON_SENTINEL && e.eventId > since
  }

  lemma {:induction false} SelectsTheSessionsEvents(log: seq<Event>, sessionId: string, since: int)
    requires WellFormedLog(log)
    ensures AreTheSessionsEvents(SelectSince(log, sessionId, since), log, sessionId, since)
  {
    SelectedIds(log, sessionId, since);
    if log != [] {
      var before, e := log[..|log| - 1], log[|log| - 1];
      SelectsTheSessionsEvents(before, sessionId, since);
      assert log == before + [e];
    }
  }

  /** No other source has events under this key's session id. */
  ghost predicate IsAloneOnItsId(log: seq<Event>, key: Key) {
    key.source != DAEMON_SENTINEL &&
    forall e <- log :: e.key.sessionId == key.sessionId && e.key.source != DAEMON_SENTINEL ==> e.key == key
  }

  /** If the session id belongs to one source alone, that is the session's own log. */
  lemma {:induction false} SelectsTheSessionLog(log: seq<Event>, key: Key)
    requires WellFormedLog(log) && IsAloneOnItsId(log, key)
    ensures SelectSince(log, key.sessionId, 0) == SessionLog(log, key)
  {
    if log != [] {
      var before, e := log[..|log| - 1], log[|log| - 1];
      assert log == before + [e] && e in log && e.eventId == |log|;
      assert forall x <- before :: x in log;
      SelectsTheSessionLog(before, key);
    }
  }

  /** Over a fixed log and any page size, the pages hold each of the session's events once, in order. */
  lemma PagesAreComplete(db: Db, sessionId: string, limit: nat, since: Cursor)
    requires |db.log| <= I64_MAX && WellFormedLog(db.log) && limit > 0 && SessionExists(db, sessionId)
    ensures var (events, ending) := Pages(Server(db, sessionId, limit), since);
      ending == Done && AreTheSessionsEvents(events, db.log, sessionId, since)
  {
    PagesAreSelected(db, sessionId, limit, since);
    SelectsTheSessionsEvents(db.log, sessionId, since);
  }

  lemma {:induction false} PagesAreSelected(db: Db, sessionId: string, limit: nat, since: Cursor)
    requires |db.log| <= I64_MAX && WellFormedLog(db.log) && limit > 0 && SessionExists(db, sessionId)
    ensures Pages(Server(db, sessionId, limit), since) == (SelectSince(db.log, sessionId, since), Done)
    decreases I64_MAX - since
  {
    var selected := SelectSince(db.log, sessionId, since);
    if selected == [] {
      assert Server(db, sessionId, limit)(since) == Page([], None);
    } else {
      var n, next := PageIsNext(db, sessionId, limit, since);
      SelectAfter(db.log, sessionId, since, n);
      PagesAreSelected(db, sessionId, limit, next);
      PagesStep(Server(db, sessionId, limit), since, selected[..n], next);
      assert selected == selected[..n] + selected[n..];
    }
  }

  lemma ExportIsSelected(db: Db, sessionId: string, limit: nat)
    requires |db.log| <= I64_MAX && Consistent(db) && limit > 0
    ensures var fetch := Server(db, sessionId, limit);
      var events := SelectSince(db.log, sessionId, 0);
      && (fetch(0).Page? <==> events != [])
      && Pages(fetch, 0) == (events, if events != [] then Done else FetchFailed("session not found"))
  {
    ExistsIffExports(db.log, sessionId);
    if SessionExists(db, sessionId) {
      PagesAreSelected(db, sessionId, limit, 0);
    }
  }

  /** An export of a known session writes exactly its events; of an unknown one it fails before touching
      the output. Unknown means that the log has nothing of it. Where the session id belongs to one source
      alone, what is written is that session's log. */
  lemma ExportIsTheSessionLog(db: Db, sessionId: string, limit: nat)
    requires |db.log| <= I64_MAX && Consistent(db) && limit > 0
    ensures var fetch := Server(db, sessionId, limit);
      var (events, ending) := Pages(fetch, 0);
      && AreTheSessionsEvents(events, db.log, sessionId, 0)
      && (fetch(0).Page? <==> exists e <- db.log :: e.key.sessionId == sessionId && e.key.source != DAEMON_SENTINEL)
      && (fetch(0).Page? <==> ending == Done) && (!fetch(0).Page? ==> ending == FetchFailed("session not found"))
    ensures forall key: Key :: key.sessionId == sessionId && IsAloneOnItsId(db.log, key) ==>
      Pages(Server(db, sessionId, limit), 0).0 == SessionLog(db.log, key)
  {
    ExportIsSelected(db, sessionId, limit);
    SelectsTheSessionsEvents(db.log, sessionId, 0);
    var events := SelectSince(db.log, sessionId, 0);
    SomethingSelectedIff(db.log, sessionId);
    forall key: Key | key.sessionId == sessionId && IsAloneOnItsId(db.log, key) ensures events == SessionLog(db.log, key) {
      SelectsTheSessionLog(db.log, key);
    }
  }

  lemma SomethingSelectedIff(log: seq<Event>, sessionId: string)
    requires WellFormedLog(log)
    ensures SelectSince(log, sessionId, 0) != [] <==>
      exists e <- log :: e.key.sessionId == sessionId && e.key.source != DAEMON_SENTINEL
  {
    var events := SelectSince(log, sessionId, 0);
    SelectsTheSessionsEvents(log, sessionId, 0);
    if events != [] {
      assert events[0] in events;
    }
    if e :| e in log && e.key.sessionId == sessionId && e.key.source != DAEMON_SENTINEL {
      var i :| 0 <= i < |log| && log[i] == e;
      assert e in events;
    }
  }
}
