/** Subscription topics (`broadcast/event.rs`): their exact grammar, what they deliver, and which
    sessions' state they cover. */
module Topic {
  import opened Protocol

  datatype Topic =
    | EventsAll
    | EventsBySource(source: string)
    | EventsBySourceSession(source: string, sessionId: string)
    | StateAll
    | StateSession(sessionId: string)
    | StateSessionCurrent(sessionId: string)

  /** `str::split('.')`. */
  function Split(s: string): (parts: seq<string>)
    ensures |parts| >= 1
  {
    if s == "" then [""]
    else
      var rest := Split(s[1..]);
      if s[0] == '.' then [""] + rest else [[s[0]] + rest[0]] + rest[1..]
  }

  function Join(parts: seq<string>): string
    requires |parts| >= 1
  {
    if |parts| == 1 then parts[0] else parts[0] + "." + Join(parts[1..])
  }

  function FromSegments(parts: seq<string>): Option<Topic> {
    if parts == ["events", "*"] then Some(EventsAll)
    else if |parts| == 3 && parts[0] == "events" && parts[2] == "*" && parts[1] != "*" then
      Some(EventsBySource(parts[1]))
    else if |parts| == 3 && parts[0] == "events" && parts[1] != "*" && parts[2] != "*" then
      Some(EventsBySourceSession(parts[1], parts[2]))
    else if parts == ["state", "session", "*"] then Some(StateAll)
    else if |parts| == 3 && parts[0] == "state" && parts[1] == "session" && parts[2] != "*" then
      Some(StateSession(parts[2]))
    else if |parts| == 4 && parts[0] == "state" && parts[1] == "session" && parts[3] == "current_state" && parts[2] != "*" then
      Some(StateSessionCurrent(parts[2]))
    else None
  }

  /** `Topic::parse`. */
  function Parse(s: string): Option<Topic> {
    if s == "" then None
    else if s[|s| - 1] == '.' then None
    else
      var parts := Split(s);
      if exists i :: 0 <= i < |parts| && parts[i] == "" then None else FromSegments(parts)
  }

  function Segments(t: Topic): seq<string> {
    match t
    case EventsAll => ["events", "*"]
    case EventsBySource(source) => ["events", source, "*"]
    case EventsBySourceSession(source, sessionId) => ["events", source, sessionId]
    case StateAll => ["state", "session", "*"]
    case StateSession(sessionId) => ["state", "session", sessionId]
    case StateSessionCurrent(sessionId) => ["state", "session", sessionId, "current_state"]
  }

  function Render(t: Topic): string {
    Join(Segments(t))
  }

  /** A name a topic can spell: not empty, not the wildcard, and without the separator. */
  predicate Nameable(name: string) {
    name != "" && name != "*" && '.' !in name
  }

  predicate WellFormed(t: Topic) {
    match t
    case EventsBySource(source) => Nameable(source)
    case EventsBySourceSession(source, sessionId) => Nameable(source) && Nameable(sessionId)
    case StateSession(sessionId) => Nameable(sessionId)
    case StateSessionCurrent(sessionId) => Nameable(sessionId)
    case _ => true
  }

  lemma {:induction false} JoinSplit(s: string)
    ensures Join(Split(s)) == s
    ensures forall i :: 0 <= i < |Split(s)| ==> '.' !in Split(s)[i]
  {
    if s != "" {
      JoinSplit(s[1..]);
      var rest := Split(s[1..]);
      if s[0] == '.' {
        assert ([""] + rest)[1..] == rest;
      } else {
        var parts := [[s[0]] + rest[0]] + rest[1..];
        assert parts[1..] == rest[1..];
        assert s == [s[0]] + s[1..];
      }
    }
  }

  lemma {:induction false} SplitWord(word: string, tail: string)
    requires '.' !in word
    ensures Split(word) == [word]
    ensures Split(word + "." + tail) == [word] + Split(tail)
  {
    if word == "" {
      assert word + "." + tail == "." + tail;
      assert ("." + tail)[1..] == tail;
    } else {
      SplitWord(word[1..], tail);
      assert (word + "." + tail)[1..] == word[1..] + "." + tail;
      assert word == [word[0]] + word[1..];
    }
  }

  lemma {:induction false} SplitJoin(parts: seq<string>)
    requires |parts| >= 1 && forall i :: 0 <= i < |parts| ==> '.' !in parts[i]
    ensures Split(Join(parts)) == parts
  {
    if |parts| == 1 {
      SplitWord(parts[0], "");
    } else {
      SplitJoin(parts[1..]);
      SplitWord(parts[0], Join(parts[1..]));
    }
  }

  lemma FromSegmentsInverse(parts: seq<string>, t: Topic)
    ensures FromSegments(parts) == Some(t) ==> Segments(t) == parts
    ensures WellFormed(t) ==> FromSegments(Segments(t)) == Some(t)
  {
  }

  lemma SegmentsPlain(t: Topic)
    requires WellFormed(t)
    ensures forall i :: 0 <= i < |Segments(t)| ==> Segments(t)[i] != "" && '.' !in Segments(t)[i]
  {
  }

  lemma LastSegmentNonEmpty(parts: seq<string>)
    requires |parts| >= 1 && parts[|parts| - 1] != "" && '.' !in parts[|parts| - 1]
    ensures var s := Join(parts); s != "" && s[|s| - 1] != '.'
  {
    if |parts| > 1 { LastSegmentNonEmpty(parts[1..]); }
  }

  /** The grammar, exactly: a string parses to a topic if and only if it is that topic's spelling. */
  lemma ParseIffSpelling(s: string, t: Topic)
    ensures Parse(s) == Some(t) <==> WellFormed(t) && s == Render(t)
  {
    FromSegmentsInverse(Split(s), t);
    JoinSplit(s);
    if Parse(s) == Some(t) {
      var parts := Split(s);
      assert forall i :: 0 <= i < |parts| ==> parts[i] != "" && '.' !in parts[i];
      assert parts == Segments(t);
      NamesOfSegments(t);
    }
    if WellFormed(t) && s == Render(t) {
      SegmentsPlain(t);
      SplitJoin(Segments(t));
      LastSegmentNonEmpty(Segments(t));
    }
  }

  /** The names in a topic are among its segments. */
  lemma NamesOfSegments(t: Topic)
    requires FromSegments(Segments(t)) == Some(t)
    requires forall i :: 0 <= i < |Segments(t)| ==> Segments(t)[i] != "" && '.' !in Segments(t)[i]
    ensures WellFormed(t)
  {
    match t
    case EventsBySource(source) => assert Segments(t)[1] == source;
    case EventsBySourceSession(source, sessionId) => assert Segments(t)[1] == source && Segments(t)[2] == sessionId;
    case StateSession(sessionId) => assert Segments(t)[2] == sessionId;
    case StateSessionCurrent(sessionId) => assert Segments(t)[2] == sessionId;
    case _ =>
  }

  /** `Topic::matches`. */
  predicate Matches(t: Topic, m: BroadcastEnvelope) {
    match m
    case EventMessage(e) => (
      match t
      case EventsAll => true
      case EventsBySource(source) => e.key.source == source
      case EventsBySourceSession(source, sessionId) => e.key == Key(source, sessionId)
      case _ => false)
    case StateMessage(key, _) => (
      match t
      case StateAll => true
      case StateSession(sessionId) => key.sessionId == sessionId
      case StateSessionCurrent(sessionId) => key.sessionId == sessionId
      case _ => false)
  }

  /** `Topic::covers_state_session`. */
  predicate Covers(t: Topic, sessionId: string) {
    match t
    case StateAll => true
    case StateSession(want) => want == sessionId
    case StateSessionCurrent(want) => want == sessionId
    case _ => false
  }

  predicate IsStateFamily(t: Topic) {
    t.StateAll? || t.StateSession? || t.StateSessionCurrent?
  }

  predicate AnyMatches(topics: set<Topic>, m: BroadcastEnvelope) {
    exists t :: t in topics && Matches(t, m)
  }

  predicate AnyCovers(topics: set<Topic>, sessionId: string) {
    exists t :: t in topics && Covers(t, sessionId)
  }

  /** The two tables agree on state frames, and only state topics have coverage. */
  lemma CoverageIsStateDelivery(topics: set<Topic>, key: Key, state: SessionState)
    ensures AnyMatches(topics, StateMessage(key, state)) <==> AnyCovers(topics, key.sessionId)
    ensures AnyCovers(topics, key.sessionId) ==> exists t :: t in topics && IsStateFamily(t)
  {
    forall t ensures Matches(t, StateMessage(key, state)) <==> Covers(t, key.sessionId) {}
    if AnyMatches(topics, StateMessage(key, state)) {
      var t :| t in topics && Matches(t, StateMessage(key, state));
      assert Covers(t, key.sessionId);
    }
    if AnyCovers(topics, key.sessionId) {
      var t :| t in topics && Covers(t, key.sessionId);
      assert Matches(t, StateMessage(key, state)) && IsStateFamily(t);
    }
  }

  /** The topics an event goes to: every event's, its source's, and its session's under its source. */
  lemma EventTopics(t: Topic, e: Event)
    ensures Matches(t, EventMessage(e)) <==>
      t in {EventsAll, EventsBySource(e.key.source), EventsBySourceSession(e.key.source, e.key.sessionId)}
  {
  }

  /** The topics a state goes to: every session's, and the two spellings of its own session's, whatever its
      source. They are the topics whose names start with `state`. */
  lemma StateTopics(t: Topic, key: Key, state: SessionState)
    ensures Matches(t, StateMessage(key, state)) <==>
      t in {StateAll, StateSession(key.sessionId), StateSessionCurrent(key.sessionId)}
    ensures Covers(t, key.sessionId) <==> Matches(t, StateMessage(key, state))
    ensures IsStateFamily(t) <==> Segments(t)[0] == "state"
  {
  }

  /** The subscriptions that bring a message: for an event every event's, its source's or its session's; for
      a state every session's or its own session's, in either spelling. */
  predicate Reaches(topics: set<Topic>, m: BroadcastEnvelope) {
    match m
    case EventMessage(e) =>
      EventsAll in topics || EventsBySource(e.key.source) in topics || EventsBySourceSession(e.key.source, e.key.sessionId) in topics
    case StateMessage(key, _) =>
      StateAll in topics || StateSession(key.sessionId) in topics || StateSessionCurrent(key.sessionId) in topics
  }

  /** Some subscription matches a message exactly when it is one of those. */
  lemma AnyMatchesIffReaches(topics: set<Topic>, m: BroadcastEnvelope)
    ensures AnyMatches(topics, m) <==> Reaches(topics, m)
  {
    match m
    case EventMessage(e) =>
      forall t ensures Matches(t, m) <==> t in {EventsAll, EventsBySource(e.key.source), EventsBySourceSession(e.key.source, e.key.sessionId)} {
        EventTopics(t, e);
      }
      assert Matches(EventsAll, m) && Matches(EventsBySource(e.key.source), m);
      assert Matches(EventsBySourceSession(e.key.source, e.key.sessionId), m);
    case StateMessage(key, state) =>
      forall t ensures Matches(t, m) <==> t in {StateAll, StateSession(key.sessionId), StateSessionCurrent(key.sessionId)} {
        StateTopics(t, key, state);
      }
      assert Matches(StateAll, m) && Matches(StateSession(key.sessionId), m) && Matches(StateSessionCurrent(key.sessionId), m);
  }

  lemma AnyCoversIff(topics: set<Topic>, sessionId: string)
    ensures AnyCovers(topics, sessionId) <==>
      StateAll in topics || StateSession(sessionId) in topics || StateSessionCurrent(sessionId) in topics
  {
    assert Covers(StateAll, sessionId) && Covers(StateSession(sessionId), sessionId) && Covers(StateSessionCurrent(sessionId), sessionId);
  }
}
