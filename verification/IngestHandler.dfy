/** The daemon's side of one hook connection (`daemon/src/ingest/handler.rs`): what a payload line is
    answered, and what the shim reads out of the answer. */
module IngestHandler {
  import opened Protocol
  import opened Text
  import opened Utf8
  import Shim = ShimSocket

  const WIRE_REASON_CHARS := 512

  /** `sanitize_for_wire`. */
  function SanitizeForWire(s: string): string {
    var kept := if |s| > WIRE_REASON_CHARS then s[..WIRE_REASON_CHARS] else s;
    seq(|kept|, i requires 0 <= i < |kept| => if kept[i] == '\n' || kept[i] == '\r' then ' ' else kept[i])
  }

  /** What the adapter makes of a JSON object with a hook kind. */
  datatype Normalized = Envelope(env: EventEnvelope) | UnknownHook(kind: string) | Unusable(error: string)

  /** A payload line, as the JSON reader and the adapter see it; neither is modelled. */
  datatype Line =
    | Disconnected
    | NotJson(error: string)
    | NotObject
    | Object(hookKind: Option<string>, normalized: Normalized)

  datatype Reply =
    | Ok
    | Busy
    | BadRequest(reason: string)

  datatype Refusal =
    | InvalidJson(error: string)
    | ExpectedObject
    | MissingHookKind
    | UnknownHookKind(kind: string)
    | NormalizeError(error: string)
    | EmptySessionId
    | NullBytes

  /** Why a line is refused before it reaches the queue. */
  function RefusalOf(line: Line): Option<Refusal>
    requires !line.Disconnected?
  {
    match line
    case NotJson(e) => Some(InvalidJson(e))
    case NotObject => Some(ExpectedObject)
    case Object(None, _) => Some(MissingHookKind)
    case Object(Some(_), UnknownHook(k)) => Some(UnknownHookKind(k))
    case Object(Some(_), Unusable(e)) => Some(NormalizeError(e))
    case Object(Some(_), Envelope(env)) =>
      if IsBlank(env.key.sessionId) then Some(EmptySessionId)
      else if '\0' in env.payload.text then Some(NullBytes)
      else None
  }

  /** The words a refusal starts with; all of them when nothing of the caller's is echoed. */
  function Words(r: Refusal): string {
    match r
    case InvalidJson(_) => "invalid JSON: "
    case ExpectedObject => "expected JSON object"
    case MissingHookKind => "missing hook_kind"
    case UnknownHookKind(_) => "unknown hook_kind: "
    case NormalizeError(_) => "normalize error: "
    case EmptySessionId => "session_id must not be empty"
    case NullBytes => "payload must not contain null bytes"
  }

  /** The words, once more, by refusal. */
  lemma WordsAre(text: string)
    ensures Words(InvalidJson(text)) == "invalid JSON: " && Words(UnknownHookKind(text)) == "unknown hook_kind: "
    ensures Words(NormalizeError(text)) == "normalize error: " && Words(ExpectedObject) == "expected JSON object"
    ensures Words(MissingHookKind) == "missing hook_kind" && Words(EmptySessionId) == "session_id must not be empty"
    ensures Words(NullBytes) == "payload must not contain null bytes"
  {
  }

  /** What of the caller's text is echoed. */
  function Echo(r: Refusal): string {
    match r
    case InvalidJson(e) => SanitizeForWire(e)
    case UnknownHookKind(k) => SanitizeForWire(k)
    case NormalizeError(e) => SanitizeForWire(e)
    case _ => ""
  }

  function Reason(r: Refusal): string {
    Words(r) + Echo(r)
  }

  /** `handle`, against a queue that has room or not: the reply written, if any, and the item queued, if any. */
  function Handle(line: Line, room: bool): (Option<Reply>, Option<EventEnvelope>) {
    if line.Disconnected? then (None, None)
    else
      match RefusalOf(line)
      case Some(r) => (Some(BadRequest(Reason(r))), None)
      case None => if room then (Some(Ok), Some(line.normalized.env)) else (Some(Busy), None)
  }

  function ReplyText(reply: Reply): string {
    match reply
    case Ok => "200" + "\n"
    case Busy => "503" + "\n"
    case BadRequest(reason) => "400 " + reason + "\n"
  }

  function Meaning(reply: Reply): Shim.Response {
    match reply
    case Ok => Shim.Accepted
    case Busy => Shim.Backpressure
    case BadRequest(reason) => Shim.DaemonError(reason)
  }

  // ---- Replies fit the shim's buffer and parse back ----

  /** A line's text: no line break in it. */
  predicate OneLine(s: string) {
    '\n' !in s && '\r' !in s
  }

  lemma SanitizedIsOneLine(s: string)
    ensures OneLine(SanitizeForWire(s)) && |SanitizeForWire(s)| <= WIRE_REASON_CHARS
  {
  }

  predicate Printable(s: string) {
    forall i :: 0 <= i < |s| ==> ' ' <= s[i] <= '~'
  }

  predicate Echoes(r: Refusal) {
    r.InvalidJson? || r.UnknownHookKind? || r.NormalizeError?
  }

  lemma LeadsArePrintable(r: Refusal)
    requires Echoes(r)
    ensures Printable(Words(r)) && |Words(r)| <= 19
  {
    match r
    case InvalidJson(_) => assert Printable("invalid JSON: ");
    case UnknownHookKind(_) => assert Printable("unknown hook_kind: ");
    case NormalizeError(_) => assert Printable("normalize error: ");
  }

  lemma FixedWordsArePrintable(r: Refusal)
    requires !Echoes(r)
    ensures Printable(Words(r)) && |Words(r)| <= 35 && Echo(r) == ""
  {
    match r
    case ExpectedObject => assert Printable("expected JSON object");
    case MissingHookKind => assert Printable("missing hook_kind");
    case EmptySessionId => assert Printable("session_id must not be empty");
    case NullBytes => assert Printable("payload must not contain null bytes");
  }

  /** No reason the daemon gives breaks the line or outgrows its longest words and 512 characters. */
  lemma ReasonIsShort(r: Refusal)
    ensures OneLine(Reason(r)) && 4 + |Encode(Reason(r))| + 1 <= 2072
  {
    if Echoes(r) { LeadsArePrintable(r); } else { FixedWordsArePrintable(r); }
    assert forall c <- Words(r) :: ' ' <= c <= '~';
    EchoIsShort(r);
    EncodeAppend(Words(r), Echo(r));
    AsciiSize(Words(r));
    EncodedSize(Echo(r));
  }

  lemma EchoIsShort(r: Refusal)
    ensures OneLine(Echo(r)) && |Echo(r)| <= WIRE_REASON_CHARS
  {
    match r
    case InvalidJson(e) => SanitizedIsOneLine(e);
    case UnknownHookKind(k) => SanitizedIsOneLine(k);
    case NormalizeError(e) => SanitizedIsOneLine(e);
    case _ =>
  }

  lemma LineIsParsed(text: string, tail: seq<byte>)
    requires OneLine(text) && |Encode(text)| < Shim.REPLY_BUF_BYTES
    ensures Shim.ReplyOf(Encode(text + "\n") + tail) == Shim.ParseLine(Encode(text))
    ensures text != "" ==> Decode(Encode(text)) == Some(text) && Shim.TrimCarriageReturns(text) == text
  {
    AsciiByteIsChar(text, 10);
    EncodeAppend(text, "\n");
    assert Encode("\n") == [10];
    Shim.OnlyTheFirstLineMatters(Encode(text), tail);
    DecodeInvertsEncode(text);
  }

  /** Every reply the daemon can write fits the shim's buffer, and the shim reads back the status and the
      reason, whatever line was sent. */
  lemma ReplyRoundTrip(line: Line, room: bool, tail: seq<byte>)
    requires Handle(line, room).0.Some?
    ensures var reply := Handle(line, room).0.value;
      && |Encode(ReplyText(reply))| <= 2072 < Shim.REPLY_BUF_BYTES
      && Shim.ReplyOf(Encode(ReplyText(reply)) + tail) == Shim.Success(Meaning(reply))
  {
    match Handle(line, room).0.value
    case Ok => StatusRoundTrip("200", tail);
    case Busy => StatusRoundTrip("503", tail);
    case BadRequest(reason) =>
      ReasonIsShort(RefusalOf(line).value);
      BadRequestRoundTrip(reason, tail);
  }

  lemma StatusRoundTrip(status: string, tail: seq<byte>)
    requires status == "200" || status == "503"
    ensures |Encode(status + "\n")| <= 16
    ensures Shim.ReplyOf(Encode(status + "\n") + tail) == Shim.Success(if status == "200" then Shim.Accepted else Shim.Backpressure)
  {
    EncodedSize(status);
    EncodedSize(status + "\n");
    LineIsParsed(status, tail);
  }

  lemma BadRequestRoundTrip(reason: string, tail: seq<byte>)
    requires OneLine(reason) && 4 + |Encode(reason)| + 1 <= 2072
    ensures |Encode("400 " + reason + "\n")| <= 2072
    ensures Shim.ReplyOf(Encode("400 " + reason + "\n") + tail) == Shim.Success(Shim.DaemonError(reason))
  {
    var text := "400 " + reason;
    EncodeAppend("400 ", reason);
    AsciiSize("400 ");
    EncodeAppend(text, "\n");
    assert Encode("\n") == [10];
    LineIsParsed(text, tail);
    assert text[..4] == "400 " && text[4..] == reason;
  }

  /** Every check a line has to pass, at once: a JSON object with a hook kind that the adapter can normalise,
      a session id that is not blank, and a payload without null characters. */
  predicate IsGoodLine(line: Line, env: EventEnvelope) {
    && line.Object? && line.hookKind.Some? && line.normalized == Envelope(env)
    && (exists c <- env.key.sessionId :: !IsWhiteSpace(c)) && '\0' !in env.payload.text
  }

  /** An item is queued exactly when the shim is told 200, and that is exactly when the line is good and the
      queue has room; a good line that finds no room is told 503; every other line is refused with 400, and
      only a caller that hangs up is told nothing. */
  lemma QueuedIffAccepted(line: Line, room: bool)
    ensures forall env: EventEnvelope :: Handle(line, room).1 == Some(env) <==> IsGoodLine(line, env) && room
    ensures Handle(line, room).1.Some? <==> Handle(line, room).0 == Some(Ok)
    ensures Handle(line, room).0 == Some(Busy) <==> !room && exists env :: IsGoodLine(line, env)
    ensures Handle(line, room).0 == None <==> line == Disconnected
  {
    if line.Object? && line.normalized.Envelope? && RefusalOf(line).None? {
      assert IsGoodLine(line, line.normalized.env);
    }
  }

  /** The first check that fails decides: not JSON, no object, no hook kind, a kind the adapter does not know,
      one it cannot normalise, a blank session id, a null character. */
  lemma FirstFailureDecides(line: Line)
    requires !line.Disconnected?
    ensures forall e :: RefusalOf(line) == Some(InvalidJson(e)) <==> line == NotJson(e)
    ensures RefusalOf(line) == Some(ExpectedObject) <==> line.NotObject?
    ensures RefusalOf(line) == Some(MissingHookKind) <==> line.Object? && line.hookKind.None?
    ensures forall k :: RefusalOf(line) == Some(UnknownHookKind(k)) <==>
      line.Object? && line.hookKind.Some? && line.normalized == UnknownHook(k)
    ensures forall e :: RefusalOf(line) == Some(NormalizeError(e)) <==>
      line.Object? && line.hookKind.Some? && line.normalized == Unusable(e)
    ensures RefusalOf(line) == Some(EmptySessionId) <==>
      line.Object? && line.hookKind.Some? && line.normalized.Envelope? && (forall c <- line.normalized.env.key.sessionId :: IsWhiteSpace(c))
    ensures RefusalOf(line) == Some(NullBytes) <==>
      line.Object? && line.hookKind.Some? && line.normalized.Envelope? &&
      (exists c <- line.normalized.env.key.sessionId :: !IsWhiteSpace(c)) && '\0' in line.normalized.env.payload.text
  {
  }

  /** What a refusal is answered: status 400, its words, what the caller sent with its line breaks blanked and
      cut after 512 characters if the refusal echoes anything, and the end of the line. */
  lemma RefusalIsSaid(line: Line, room: bool)
    requires !line.Disconnected? && RefusalOf(line).Some?
    ensures var r, reply := RefusalOf(line).value, Handle(line, room).0;
      reply.Some? && exists echo :: ReplyText(reply.value) == "400 " + Words(r) + echo + "\n" && IsBlanked(CallersText(r), echo)
  {
    var r := RefusalOf(line).value;
    EchoIsBlanked(r);
    RegroupReply("400 ", Words(r), Echo(r), "\n");
    assert ReplyText(BadRequest(Reason(r))) == "400 " + Words(r) + Echo(r) + "\n";
  }

  lemma RegroupReply(a: string, b: string, c: string, d: string)
    ensures a + (b + c) + d == a + b + c + d
  {
  }

  lemma EchoIsBlanked(r: Refusal)
    ensures IsBlanked(CallersText(r), Echo(r))
  {
    SanitizedIsBlanked(CallersText(r));
  }

  /** What of the caller's a refusal echoes. */
  function CallersText(r: Refusal): string {
    match r
    case InvalidJson(error) => error
    case UnknownHookKind(kind) => kind
    case NormalizeError(error) => error
    case _ => ""
  }

  function Kept(s: string): nat {
    if |s| > 512 then 512 else |s|
  }

  /** The first 512 characters, each as it was but for line breaks, which are blanks. */
  predicate IsBlanked(s: string, r: string) {
    |r| == Kept(s) && forall i :: 0 <= i < |r| ==> r[i] == if s[i] == '\n' || s[i] == '\r' then ' ' else s[i]
  }

  lemma SanitizedIsBlanked(s: string)
    ensures IsBlanked(s, SanitizeForWire(s))
  {
  }

  /** All the daemon sends before it closes the connection. */
  function Sent(line: Line, room: bool): seq<byte> {
    match Handle(line, room).0
    case None => []
    case Some(reply) => Encode(ReplyText(reply))
  }

  /** One hook's exchange, end to end: however the reply is cut up on its way, the shim learns exactly what
      became of its line, or names an error or a timeout of the read. */
  method Exchange(line: Line, room: bool, budget: Shim.Duration, script: seq<Shim.ReadTick>) returns (r: Shim.Result<Shim.Response>)
    ensures r.Success? ==> Handle(line, room).0.Some? && r.value == Meaning(Handle(line, room).0.value)
    ensures r == Shim.Success(Shim.Accepted) ==> Handle(line, room).1.Some?
    ensures Shim.Clean(script, budget, Sent(line, room)) ==>
      r == if line.Disconnected? then Shim.Failure(Shim.BadResponse(Shim.Empty)) else Shim.Success(Meaning(Handle(line, room).0.value))
  {
    r := Shim.ReceiveReply(Sent(line, room), budget, script);
    if !line.Disconnected? {
      ReplyRoundTrip(line, room, []);
      assert Sent(line, room) + [] == Sent(line, room);
    }
    QueuedIffAccepted(line, room);
  }
}
