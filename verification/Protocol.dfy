/** The wire and storage types that every other module shares: events, envelopes,
    the per-session projection and the identifiers they carry. */
module Protocol {

  datatype Option<+T> = None | Some(value: T)

  const I64_MIN := -0x8000_0000_0000_0000
  const I64_MAX := 0x7FFF_FFFF_FFFF_FFFF
  const U64_MAX := 0xFFFF_FFFF_FFFF_FFFF

  /** Milliseconds since the Unix epoch, an `i64` in the daemon. */
  type Millis = t: int | I64_MIN <= t <= I64_MAX

  /** `i64::saturating_sub`. */
  function SaturatingSub(a: Millis, b: Millis): Millis {
    if a - b > I64_MAX then I64_MAX else if a - b < I64_MIN then I64_MIN else a - b
  }

  /** An OS process id, a `u32`. */
  type Pid = p: int | 0 <= p < 0x1_0000_0000

  datatype EventKind =
    | UserPromptSubmit
    | PreToolUse
    | PostToolUse
    | Stop
    | Notification
    | SessionEnded
    | RecordingStarted
    | RecordingEnded
    | UnknownKind

  datatype NotificationType =
    | PermissionPrompt
    | IdlePrompt
    | AuthSuccess
    | ElicitationDialog
    | ElicitationResponse
    | ElicitationComplete
    | UnknownNotification

  datatype Reaction = Pause | Continue | UnknownReaction | Vendor(code: int)

  datatype CurrentState = Idle | Working | WaitingInput | Ended | UnknownState

  datatype SessionState = SessionState(
    currentState: CurrentState,
    lastEventKind: EventKind,
    lastEventAt: Millis,
    lastPid: Option<Pid>,
    cwd: Option<string>,
    startedAt: Option<Millis>)

  /** An event payload: the verbatim text, together with what a JSON reader finds in it as the
      string under `notification_type` (nothing when the text is not JSON, not an object, or has
      no string there). The reader itself is not modelled. */
  datatype Payload = Payload(text: string, notificationTag: Option<string>)

  /** `(source, session_id)`, the natural key of a session. */
  datatype Key = Key(source: string, sessionId: string)

  /** Where an ingested envelope came from: a hook, or a replayed session. */
  datatype Origin = Live | Replay

  /** An event before it is stored; the store assigns the id and the timestamp. */
  datatype EventEnvelope = EventEnvelope(
    key: Key,
    kind: EventKind,
    reaction: Option<Reaction>,
    payload: Payload,
    pid: Option<Pid>,
    notificationType: Option<NotificationType>,
    cwd: Option<string>)

  /** A stored event. */
  datatype Event = Event(
    eventId: int,
    key: Key,
    kind: EventKind,
    reaction: Option<Reaction>,
    payload: Payload,
    createdAt: Millis,
    pid: Option<Pid>,
    cwd: Option<string>)

  /** What travels on the broadcast channel. */
  datatype BroadcastEnvelope =
    | EventMessage(event: Event)
    | StateMessage(key: Key, state: SessionState)

  const DAEMON_SENTINEL := "__daemon__"
  const SENTINEL_KEY := Key(DAEMON_SENTINEL, DAEMON_SENTINEL)

  predicate IsSentinelKind(kind: EventKind) {
    kind.RecordingStarted? || kind.RecordingEnded?
  }

  /** The table from a payload's `notification_type` string to its typed form. Ingest, replay and
      rebuild each carry their own copy of it. */
  function NotificationTypeOfTag(tag: string): NotificationType {
    match tag
    case "permission_prompt" => PermissionPrompt
    case "idle_prompt" => IdlePrompt
    case "auth_success" => AuthSuccess
    case "elicitation_dialog" => ElicitationDialog
    case "elicitation_response" => ElicitationResponse
    case "elicitation_complete" => ElicitationComplete
    case _ => UnknownNotification
  }

  /** The name under which a hook reports an event of this kind; the other kinds come from no hook. */
  function HookName(kind: EventKind): Option<string> {
    match kind
    case UserPromptSubmit => Some("UserPromptSubmit")
    case PreToolUse => Some("PreToolUse")
    case PostToolUse => Some("PostToolUse")
    case Stop => Some("Stop")
    case Notification => Some("Notification")
    case _ => None
  }

  /** The wire spelling of each known type. */
  function Spelling(t: NotificationType): string
    requires !t.UnknownNotification?
  {
    match t
    case PermissionPrompt => "permission_prompt"
    case IdlePrompt => "idle_prompt"
    case AuthSuccess => "auth_success"
    case ElicitationDialog => "elicitation_dialog"
    case ElicitationResponse => "elicitation_response"
    case ElicitationComplete => "elicitation_complete"
  }

  /** A tag reads as a known type exactly when it is that type's spelling, and as unknown when it is none's. */
  lemma TagIffSpelling(tag: string)
    ensures forall t: NotificationType :: !t.UnknownNotification? ==>
      (NotificationTypeOfTag(tag) == t <==> tag == Spelling(t))
    ensures NotificationTypeOfTag(tag).UnknownNotification? <==>
      forall t: NotificationType :: !t.UnknownNotification? ==> tag != Spelling(t)
  {
    var t := NotificationTypeOfTag(tag);
    if !t.UnknownNotification? { assert tag == Spelling(t); }
    forall u: NotificationType | !u.UnknownNotification? ensures NotificationTypeOfTag(Spelling(u)) == u {
      TagOfSpelling(u);
    }
  }

  lemma TagOfSpelling(t: NotificationType)
    requires !t.UnknownNotification?
    ensures NotificationTypeOfTag(Spelling(t)) == t
  {
    match t
    case PermissionPrompt =>
    case IdlePrompt =>
    case AuthSuccess =>
    case ElicitationDialog =>
    case ElicitationResponse =>
    case ElicitationComplete =>
  }

  /** The typed notification of an event: only `Notification` events have one. */
  function NotificationTypeOf(kind: EventKind, payload: Payload): Option<NotificationType> {
    if !kind.Notification? then None
    else match payload.notificationTag
      case None => None
      case Some(tag) => Some(NotificationTypeOfTag(tag))
  }

  /** An envelope whose typed notification is the one its payload spells. Every producer of
      envelopes (adapter, replay, probe, supersession) builds them this way. */
  predicate WellTyped(env: EventEnvelope) {
    env.notificationType == NotificationTypeOf(env.kind, env.payload)
  }
}
