/** The dashboard's data model (apps/tui/src/types.ts): the state it keeps per
    watched room, its activity log, and the zod schemas it checks event
    payloads against. A schema strips unknown keys and rejects a payload
    whose listed field is missing or of the wrong type; the decoders below
    return `None` exactly then. */
module Dashboard {
  import opened Common
  import opened Json
  import opened Keyed
  import opened CoreTypes
  import HubHandlers

  datatype LogType = JoinLog | LeaveLog | OfflineLog | RequestLog | CompleteLog | ErrorLog

  /** `LogMetrics`: three optional numbers. */
  datatype LogMetrics = LogMetrics(tokensPerSecond: Option<real>, latencyMs: Option<real>, totalTokens: Option<real>)

  /** What a reducer asks to be logged (`LogAction`). */
  datatype LogAction = LogAction(
    kind: LogType,
    participantId: string,
    participantName: Option<string>,
    message: string,
    metrics: Option<LogMetrics>)

  /** `ActivityLogEntry`: a logged action with its id, time and room. */
  datatype LogEntry = LogEntry(id: string, timestamp: real, roomCode: string, action: LogAction)

  /** `RoomState`: one watched room. `participants` is a Map keyed by
      participant id; `processing` holds the ids with a request in flight. */
  datatype RoomView = RoomView(
    code: string,
    name: string,
    participants: seq<Participant>,
    logs: seq<LogEntry>,
    connected: bool,
    processing: set<string>)

  /** The dashboard's rooms are a Map keyed by room code. */
  function RoomCode(r: RoomView): string {
    r.code
  }

  /** Every participant other than `id` is found in `b` exactly as in `a`. */
  ghost predicate SameElsewhere(a: seq<Participant>, b: seq<Participant>, id: string) {
    forall k :: k != id ==> Get(b, ParticipantKey, k) == Get(a, ParticipantKey, k)
  }

  // ----- Event payload schemas ------------------------------------------------

  datatype RoomCreated = RoomCreated(code: string, name: string)
  datatype LlmRequest = LlmRequest(participantId: string, model: string)
  datatype LlmComplete = LlmComplete(participantId: string, metrics: Option<LogMetrics>)
  datatype LlmError = LlmError(participantId: string, error: string)

  /** `SSERoomCreatedEvent` */
  function DecodeRoomCreated(j: Json): (r: Option<RoomCreated>)
    ensures r.Some? <==> StrField(j, "code").Some? && StrField(j, "name").Some?
    ensures r.Some? ==> Field(j, "code") == Some(JStr(r.value.code)) && Field(j, "name") == Some(JStr(r.value.name))
  {
    match (StrField(j, "code"), StrField(j, "name"))
    case (Some(code), Some(name)) => Some(RoomCreated(code, name))
    case _ => None
  }

  /** `SSEParticipantLeftEvent` and `SSEParticipantOfflineEvent` */
  function DecodeParticipantId(j: Json): (r: Option<string>)
    ensures r.Some? <==> Field(j, "participantId").Some? && Field(j, "participantId").value.JStr?
    ensures r.Some? ==> Field(j, "participantId") == Some(JStr(r.value))
  {
    StrField(j, "participantId")
  }

  /** `SSELlmRequestEvent` */
  function DecodeLlmRequest(j: Json): (r: Option<LlmRequest>)
    ensures r.Some? <==> StrField(j, "participantId").Some? && StrField(j, "model").Some?
    ensures r.Some? ==> Field(j, "participantId") == Some(JStr(r.value.participantId)) && Field(j, "model") == Some(JStr(r.value.model))
  {
    match (StrField(j, "participantId"), StrField(j, "model"))
    case (Some(id), Some(model)) => Some(LlmRequest(id, model))
    case _ => None
  }

  /** `SSELlmErrorEvent` */
  function DecodeLlmError(j: Json): (r: Option<LlmError>)
    ensures r.Some? <==> StrField(j, "participantId").Some? && StrField(j, "error").Some?
    ensures r.Some? ==> Field(j, "participantId") == Some(JStr(r.value.participantId)) && Field(j, "error") == Some(JStr(r.value.error))
  {
    match (StrField(j, "participantId"), StrField(j, "error"))
    case (Some(id), Some(error)) => Some(LlmError(id, error))
    case _ => None
  }

  /** The decoded optional number `v` is what field `k` of `j` holds: nothing
      when the field is absent, the field's number when present. */
  predicate Carries(j: Json, k: string, v: Option<real>) {
    if v.Some? then Field(j, k) == Some(JNum(v.value)) else Field(j, k).None?
  }

  /** An optional number field: absent is fine, a number is kept, anything else fails. */
  function OptionalNumber(j: Json, k: string): (r: Option<Option<real>>)
    ensures r.Some? ==> Carries(j, k, r.value)
    ensures r.None? <==> Field(j, k).Some? && !Field(j, k).value.JNum?
    ensures r == Some(None) <==> Field(j, k).None?
  {
    match Field(j, k)
    case None => Some(None)
    case Some(JNum(n)) => Some(Some(n))
    case Some(_) => None
  }

  const LogMetricsKeys: set<string> := {"tokensPerSecond", "latencyMs", "totalTokens"}

  /** `LogMetrics` */
  function DecodeLogMetrics(j: Json): (r: Option<LogMetrics>)
    ensures r.Some? <==> j.JObj? && forall k :: k in LogMetricsKeys && k in j.fields ==> j.fields[k].JNum?
    ensures r.Some? ==> Carries(j, "tokensPerSecond", r.value.tokensPerSecond)
    ensures r.Some? ==> Carries(j, "latencyMs", r.value.latencyMs)
    ensures r.Some? ==> Carries(j, "totalTokens", r.value.totalTokens)
  {
    match (OptionalNumber(j, "tokensPerSecond"), OptionalNumber(j, "latencyMs"), OptionalNumber(j, "totalTokens"))
    case (Some(t), Some(l), Some(n)) => if j.JObj? then Some(LogMetrics(t, l, n)) else None
    case _ => None
  }

  /** `SSELlmCompleteEvent`: `metrics` may be absent, but if present must be `LogMetrics`. */
  function DecodeLlmComplete(j: Json): (r: Option<LlmComplete>)
    ensures r.Some? <==>
      (StrField(j, "participantId").Some? && (Field(j, "metrics").None? || DecodeLogMetrics(Field(j, "metrics").value).Some?))
    ensures r.Some? ==> Field(j, "participantId") == Some(JStr(r.value.participantId))
    ensures r.Some? && Field(j, "metrics").None? ==> r.value.metrics.None?
    ensures r.Some? && Field(j, "metrics").Some? ==> r.value.metrics == DecodeLogMetrics(Field(j, "metrics").value)
  {
    match StrField(j, "participantId")
    case None => None
    case Some(id) =>
      match Field(j, "metrics")
      case None => Some(LlmComplete(id, None))
      case Some(m) =>
        match DecodeLogMetrics(m)
        case Some(metrics) => Some(LlmComplete(id, Some(metrics)))
        case None => None
  }

  // ----- What the hub sends decodes as the dashboard expects -------------------

  /** The `participant:left` and `participant:offline` payloads the hub writes
      carry their participant id through. */
  lemma ParticipantIdRoundTrip(id: string)
    ensures DecodeParticipantId(HubHandlers.ParticipantIdPayload(id)) == Some(id)
  {
    assert Field(HubHandlers.ParticipantIdPayload(id), "participantId") == Some(JStr(id));
  }

  /** The `llm:request` payload carries the participant and the selector as sent. */
  lemma LlmRequestRoundTrip(id: string, model: string)
    ensures DecodeLlmRequest(HubHandlers.LlmRequestPayload(id, model)) == Some(LlmRequest(id, model))
  {
    assert Field(HubHandlers.LlmRequestPayload(id, model), "participantId") == Some(JStr(id));
    assert Field(HubHandlers.LlmRequestPayload(id, model), "model") == Some(JStr(model));
  }

  /** The `llm:error` payload carries the participant and the failure text. */
  lemma LlmErrorRoundTrip(id: string, error: string)
    ensures DecodeLlmError(HubHandlers.LlmErrorPayload(id, error)) == Some(LlmError(id, error))
  {
    assert Field(HubHandlers.LlmErrorPayload(id, error), "participantId") == Some(JStr(id));
    assert Field(HubHandlers.LlmErrorPayload(id, error), "error") == Some(JStr(error));
  }

  /** The `room:created` payload carries the room's code and name. */
  lemma RoomCreatedRoundTrip(info: RoomInfo)
    ensures DecodeRoomCreated(EncodeRoom(ToPublic(info))) == Some(RoomCreated(info.code, info.name))
  {
  }
}
