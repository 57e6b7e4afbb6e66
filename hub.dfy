/** The hub's request handlers over the room registry and the event bus:
    the validation ladder of each handler, the three-tier participant
    selector, the OpenAI-style model list, the rewrite of the forwarded chat
    request, and the periodic sweep that turns stale participants into
    `participant:offline` events. Request bodies arrive already parsed, the
    upstream call's outcome is a parameter, and ids, codes, the clock, the
    random draw and the password hash are supplied by the caller. */
module HubHandlers {
  import opened Common
  import opened Json
  import opened Keyed
  import opened CoreTypes
  import opened ParticipantOps
  import opened RoomRegistry
  import opened EventBus

  /** What a handler answers: a JSON response, the upstream stream passed
      through with its status, or an exception that escapes the handler. */
  datatype Response =
    | JsonReply(status: int, body: Json)
    | StreamReply(status: int)
    | Thrown

  function ErrorReply(message: string, status: int): (r: Response)
    ensures r.JsonReply? && r.status == status && StrField(r.body, "error") == Some(message)
  {
    JsonReply(status, JObj(map["error" := JStr(message)]))
  }

  function SuccessReply(): Response {
    JsonReply(200, JObj(map["success" := JBool(true)]))
  }

  /** A string field of a request body is "given" when it is present and non-empty. */
  predicate Given(s: Option<string>) {
    s.Some? && s.value != ""
  }

  datatype CreateRoomBody = CreateRoomBody(name: Option<string>, password: Option<string>)

  datatype JoinBody = JoinBody(
    id: Option<string>,
    nickname: Option<string>,
    model: Option<string>,
    endpoint: Option<string>,
    password: Option<string>,
    specs: Option<map<string, Json>>,
    config: Option<map<string, Json>>)

  datatype HealthBody = HealthBody(id: Option<string>)

  /** What the chat-completions call to the participant's endpoint would do. */
  datatype UpstreamBody = JsonBody(json: Json) | NotJson(error: string)
  datatype Upstream = FetchFailed(error: string) | Answered(status: int, body: UpstreamBody)

  /** The request the hub sends upstream. */
  datatype Forward = Forward(url: string, body: Json)

  // ----- Event payloads -----------------------------------------------------

  function ParticipantIdPayload(participantId: string): Json {
    JObj(map["participantId" := JStr(participantId)])
  }

  function LlmRequestPayload(participantId: string, model: string): Json {
    JObj(map["participantId" := JStr(participantId), "model" := JStr(model)])
  }

  function LlmErrorPayload(participantId: string, error: string): Json {
    JObj(map["participantId" := JStr(participantId), "error" := JStr(error)])
  }

  function EncodeSummary(s: RoomSummary): (j: Json)
    ensures j.JObj? && "passwordHash" !in j.fields
  {
    JObj(EncodeRoom(s.room).fields["participantCount" := JNum(s.participantCount as real)])
  }

  // ----- Participant selection ----------------------------------------------

  predicate IsWildcard(selector: string) {
    selector == "*" || selector == "any"
  }

  /** `findParticipant`: `*` or `any` draws an online participant; `model:X`
      takes the first online participant serving X; anything else is first an
      exact participant id, whatever its status, then a model name. */
  function Route(rooms: seq<RoomState>, roomId: string, selector: string, pick: nat): Option<Participant> {
    var ps := ParticipantsIn(rooms, roomId);
    if IsWildcard(selector) then PickOnline(ps, pick)
    else if StartsWith(selector, "model:") then FirstOnlineWithModel(ps, selector[6..])
    else
      match ParticipantIn(rooms, roomId, selector)
      case Some(p) => Some(p)
      case None => FirstOnlineWithModel(ps, selector)
  }

  /** The selector's three tiers. A wildcard finds nothing only in a room with
      no one online; `model:X` matches on the model X alone; any other selector
      prefers the participant with that exact id and, when no participant has
      it, is matched as a model name. */
  lemma RouteTiers(rooms: seq<RoomState>, roomId: string, selector: string, pick: nat, m: string)
    ensures Route(rooms, roomId, selector, pick).Some? ==>
      Route(rooms, roomId, selector, pick).value in ParticipantsIn(rooms, roomId)
    ensures IsWildcard(selector) ==>
      (Route(rooms, roomId, selector, pick).None? <==>
        forall p :: p in ParticipantsIn(rooms, roomId) ==> p.status != Online)
    ensures selector == "model:" + m ==>
      Route(rooms, roomId, selector, pick) == FirstOnlineWithModel(ParticipantsIn(rooms, roomId), m)
    ensures !IsWildcard(selector) && !StartsWith(selector, "model:") && ParticipantIn(rooms, roomId, selector).Some? ==>
      Route(rooms, roomId, selector, pick) == ParticipantIn(rooms, roomId, selector)
    ensures !IsWildcard(selector) && !StartsWith(selector, "model:") && ParticipantIn(rooms, roomId, selector).None? ==>
      Route(rooms, roomId, selector, pick) == FirstOnlineWithModel(ParticipantsIn(rooms, roomId), selector)
  {
    if selector == "model:" + m {
      StartsWithConcat("model:", m);
      assert !IsWildcard(selector);
    }
  }

  /** A participant that is not online can be chosen only by its exact id, and
      never through `*`, `any` or a `model:` selector. */
  lemma RouteOfflineOnlyById(rooms: seq<RoomState>, roomId: string, selector: string, pick: nat)
    requires Route(rooms, roomId, selector, pick).Some?
    requires Route(rooms, roomId, selector, pick).value.status != Online
    ensures !IsWildcard(selector) && !StartsWith(selector, "model:")
    ensures Route(rooms, roomId, selector, pick).value.id == selector
  {
  }

  // ----- The model list -----------------------------------------------------

  /** `Math.floor(ms / 1000)`: whole seconds. */
  function Seconds(ms: real): (s: int)
    ensures s as real * 1000.0 <= ms < (s + 1) as real * 1000.0
  {
    (ms / 1000.0).Floor
  }

  function ModelEntry(p: Participant): Json {
    JObj(map[
      "id" := JStr(p.id),
      "object" := JStr("model"),
      "created" := JNum(Seconds(p.joinedAt) as real),
      "owned_by" := JStr(p.nickname),
      "gambiarra" := JObj(map[
        "nickname" := JStr(p.nickname),
        "model" := JStr(p.model),
        "endpoint" := JStr(p.endpoint)])])
  }

  /** The `data` of `/v1/models`: one entry per online participant, in join order. */
  function ModelEntries(ps: seq<Participant>): (r: seq<Json>)
    ensures |r| == |OnlineOf(ps)|
  {
    var online := OnlineOf(ps);
    seq(|online|, i requires 0 <= i < |online| => ModelEntry(online[i]))
  }

  /** A participant's entry carries its id, its nickname as owner and its
      join time in whole seconds. */
  lemma {:induction false} ModelEntryFields(p: Participant)
    ensures StrField(ModelEntry(p), "id") == Some(p.id)
    ensures StrField(ModelEntry(p), "object") == Some("model")
    ensures StrField(ModelEntry(p), "owned_by") == Some(p.nickname)
    ensures NumField(ModelEntry(p), "created") == Some(Seconds(p.joinedAt) as real)
  {
  }

  /** Each entry of the model list names one online participant: its id, its
      nickname as owner, and its join time in whole seconds; and every online
      participant has an entry. */
  lemma {:induction false} ModelEntriesSpec(ps: seq<Participant>)
    ensures forall e :: e in ModelEntries(ps) ==> exists p :: p in ps && p.status == Online && e == ModelEntry(p)
    ensures forall p :: p in ps && p.status == Online ==> ModelEntry(p) in ModelEntries(ps)
    ensures forall p :: p in ps ==>
      && StrField(ModelEntry(p), "id") == Some(p.id)
      && StrField(ModelEntry(p), "object") == Some("model")
      && StrField(ModelEntry(p), "owned_by") == Some(p.nickname)
      && NumField(ModelEntry(p), "created") == Some(Seconds(p.joinedAt) as real)
  {
    var online := OnlineOf(ps);
    var r := ModelEntries(ps);
    forall e | e in r
      ensures exists p :: p in ps && p.status == Online && e == ModelEntry(p)
    {
      var i :| 0 <= i < |r| && r[i] == e;
      assert online[i] in online;
    }
    forall p | p in ps && p.status == Online
      ensures ModelEntry(p) in r
    {
      assert p in online;
      var i :| 0 <= i < |online| && online[i] == p;
      assert r[i] == ModelEntry(p);
    }
    forall p | p in ps
      ensures StrField(ModelEntry(p), "id") == Some(p.id)
      ensures StrField(ModelEntry(p), "object") == Some("model")
      ensures StrField(ModelEntry(p), "owned_by") == Some(p.nickname)
      ensures NumField(ModelEntry(p), "created") == Some(Seconds(p.joinedAt) as real)
    {
      ModelEntryFields(p);
    }
  }

  // ----- The forwarded request ----------------------------------------------

  /** `{ ...body, model: participant.model }` sent to `<endpoint>/v1/chat/completions`. */
  function ForwardFor(p: Participant, body: map<string, Json>): (f: Forward)
    ensures f.body.JObj? && f.body.fields.Keys == body.Keys + {"model"}
    ensures StrField(f.body, "model") == Some(p.model)
    ensures forall k :: k in body && k != "model" ==> f.body.fields[k] == body[k]
  {
    Forward(p.endpoint + "/v1/chat/completions", JObj(body["model" := JStr(p.model)]))
  }

  // ----- The sweep's notices ------------------------------------------------

  /** One event to broadcast: its name, its payload and its scope. */
  datatype Notice = Notice(event: string, data: Json, scope: string)

  /** One `participant:offline` notice per stale pair whose room still exists,
      scoped to that room's stored code. */
  function OfflineNotices(stale: seq<StaleEntry>, rooms: seq<RoomState>): seq<Notice> {
    if |stale| == 0 then []
    else
      var e := stale[|stale| - 1];
      OfflineNotices(stale[..|stale| - 1], rooms) +
        match InfoOf(rooms, e.roomId)
        case Some(info) => [Notice("participant:offline", ParticipantIdPayload(e.participantId), info.code)]
        case None => []
  }

  /** The streams after broadcasting the notices in order. */
  function DeliverAll(cs: seq<Client>, notices: seq<Notice>, codec: Codec): seq<Client> {
    if |notices| == 0 then cs
    else
      var n := notices[|notices| - 1];
      Deliver(DeliverAll(cs, notices[..|notices| - 1], codec), Message(n.event, codec.stringify(n.data)), n.scope)
  }

  lemma OfflineNoticesSnoc(stale: seq<StaleEntry>, e: StaleEntry, rooms: seq<RoomState>)
    ensures OfflineNotices(stale + [e], rooms) == OfflineNotices(stale, rooms) +
      match InfoOf(rooms, e.roomId)
      case Some(info) => [Notice("participant:offline", ParticipantIdPayload(e.participantId), info.code)]
      case None => []
  {
    assert (stale + [e])[..|stale|] == stale;
  }

  lemma DeliverAllSnoc(cs: seq<Client>, notices: seq<Notice>, n: Notice, codec: Codec)
    ensures DeliverAll(cs, notices + [n], codec) ==
      Deliver(DeliverAll(cs, notices, codec), Message(n.event, codec.stringify(n.data)), n.scope)
  {
    assert (notices + [n])[..|notices|] == notices;
  }

  /** One more stale pair: one more broadcast when its room exists, none otherwise. */
  lemma {:induction false} SweepNoticeStep(cs: seq<Client>, stale: seq<StaleEntry>, i: int, rooms: seq<RoomState>, codec: Codec)
    requires 0 <= i < |stale|
    ensures var before := DeliverAll(cs, OfflineNotices(stale[..i], rooms), codec);
      DeliverAll(cs, OfflineNotices(stale[..i + 1], rooms), codec) ==
        match InfoOf(rooms, stale[i].roomId)
        case Some(info) =>
          Deliver(before, Message("participant:offline", codec.stringify(ParticipantIdPayload(stale[i].participantId))), info.code)
        case None => before
  {
    assert stale[..i + 1] == stale[..i] + [stale[i]];
    OfflineNoticesSnoc(stale[..i], stale[i], rooms);
    var done := OfflineNotices(stale[..i], rooms);
    match InfoOf(rooms, stale[i].roomId)
    case Some(info) =>
      var notice := Notice("participant:offline", ParticipantIdPayload(stale[i].participantId), info.code);
      assert OfflineNotices(stale[..i + 1], rooms) == done + [notice];
      DeliverAllSnoc(cs, done, notice, codec);
    case None =>
      assert OfflineNotices(stale[..i + 1], rooms) == done;
  }

  /** When every stale pair's room exists, there is one notice per pair, in
      order, scoped to that room's stored code. */
  lemma {:induction false} OfflineNoticesAll(stale: seq<StaleEntry>, rooms: seq<RoomState>)
    requires forall i :: 0 <= i < |stale| ==> Has(rooms, RoomKey, stale[i].roomId)
    ensures |OfflineNotices(stale, rooms)| == |stale|
    ensures forall i :: 0 <= i < |stale| ==>
      OfflineNotices(stale, rooms)[i] ==
        Notice("participant:offline", ParticipantIdPayload(stale[i].participantId), InfoOf(rooms, stale[i].roomId).value.code)
  {
    if |stale| > 0 {
      var init, last := stale[..|stale| - 1], stale[|stale| - 1];
      OfflineNoticesAll(init, rooms);
      assert init + [last] == stale;
      OfflineNoticesSnoc(init, last, rooms);
      var notices := OfflineNotices(stale, rooms);
      forall i | 0 <= i < |stale|
        ensures notices[i] ==
          Notice("participant:offline", ParticipantIdPayload(stale[i].participantId), InfoOf(rooms, stale[i].roomId).value.code)
      {
        if i < |init| {
          assert stale[i] == init[i];
        }
      }
    }
  }

  /** Every pair a sweep reports names a room that exists. */
  lemma ReportedRoomExists(rooms: seq<RoomState>, now: real, e: StaleEntry)
    requires e in SweepReport(rooms, now)
    ensures Has(rooms, RoomKey, e.roomId)
  {
    SweepReportMembership(rooms, now, e);
    var i, j :| 0 <= i < |rooms| && 0 <= j < |rooms[i].participants| && rooms[i].info.id == e.roomId
      && rooms[i].participants[j].id == e.participantId && IsStale(rooms[i].participants[j], now);
    assert RoomKey(rooms[i]) == e.roomId;
  }

  /** The sweep changes no room info. */
  lemma SweepStructure(rooms: seq<RoomState>, now: real)
    ensures forall id :: InfoOf(SweepRooms(rooms, now), id) == InfoOf(rooms, id)
  {
    var r := SweepRooms(rooms, now);
    assert forall i :: 0 <= i < |rooms| ==> RoomKey(r[i]) == RoomKey(rooms[i]);
    forall id
      ensures InfoOf(r, id) == InfoOf(rooms, id)
    {
      var k := IndexOf(rooms, RoomKey, id);
      if k >= 0 {
        IndexOfIs(r, RoomKey, id, k);
      } else {
        assert IndexOf(r, RoomKey, id) == -1;
      }
    }
  }

  lemma {:induction false} UpperOfTypedCode()
    ensures Upper("abcdef") == "ABCDEF"
  {
    var u := Upper("abcdef");
    assert u[0] == 'A' && u[1] == 'B' && u[2] == 'C' && u[3] == 'D' && u[4] == 'E' && u[5] == 'F';
  }

  /** Room scoping compares codes exactly: an event scoped by the code as typed
      in a request path is not delivered to a stream that watches the same room
      under its stored upper-case code whenever the two differ, although both
      codes find the room ("abcdef" and "ABCDEF" are such a pair). */
  lemma {:induction false} ScopeIsCaseSensitive(c: Client, msg: string, typed: string)
    requires Upper(typed) == c.roomCode
    requires typed != c.roomCode
    ensures Deliver([c], msg, typed) == [c]
  {
    assert |c.roomCode| == |typed|;
    assert Skips(typed, c.roomCode);
    assert [c][..0] == [];
  }

  /** The premise of `ScopeIsCaseSensitive` is met: a lower-case code differs from
      the stored code it upper-cases to. */
  lemma ScopeMissExample()
    ensures Upper("abcdef") == "ABCDEF" && "abcdef" != "ABCDEF"
  {
    UpperOfTypedCode();
    assert "abcdef"[0] != "ABCDEF"[0];
  }

  // ----- The hub ------------------------------------------------------------

  class Hub {
    const registry: Registry
    const bus: Bus

    ghost predicate Valid()
      reads this, registry, bus
    {
      registry.Valid() && bus.Valid()
    }

    constructor (codec: Codec)
      ensures Valid() && fresh(registry) && fresh(bus)
      ensures registry.rooms == [] && bus.clients == [] && bus.codec == codec
    {
      registry := new Registry();
      bus := new Bus(codec);
    }

    /** `POST /rooms`: a room needs a name; the response and the unscoped
        `room:created` event carry the room without its password hash. */
    method CreateRoom(body: CreateRoomBody, hostId: string, roomId: string, rawCode: string,
                      now: real, hashed: string) returns (resp: Response)
      requires Valid()
      requires roomId != ""
      modifies registry, bus
      ensures Valid()
      ensures !Given(body.name) ==>
        && resp == ErrorReply("Name is required", 400)
        && registry.rooms == old(registry.rooms) && bus.clients == old(bus.clients)
      ensures Given(body.name) ==>
        var info := NewRoomInfo(body.name.value, hostId, OrElse(body.password, ""), roomId, rawCode, now, hashed);
        && registry.rooms == Set(old(registry.rooms), RoomKey, RoomState(info, []))
        && registry.codeToRoomId == old(registry.codeToRoomId)[info.code := roomId]
        && bus.clients == Deliver(old(bus.clients), Message("room:created", bus.codec.stringify(EncodeRoom(ToPublic(info)))), "")
        && resp == JsonReply(201, JObj(map["room" := EncodeRoom(ToPublic(info)), "hostId" := JStr(hostId)]))
    {
      if !Given(body.name) {
        return ErrorReply("Name is required", 400);
      }
      var info := registry.Create(body.name.value, hostId, OrElse(body.password, ""), roomId, rawCode, now, hashed);
      var room := EncodeRoom(ToPublic(info));
      bus.Broadcast("room:created", room, "");
      resp := JsonReply(201, JObj(map["room" := room, "hostId" := JStr(hostId)]));
    }

    /** `GET /rooms` */
    function ListRooms(): (resp: Response)
      reads this, registry
      ensures resp.JsonReply? && resp.status == 200
      ensures Field(resp.body, "rooms").Some? && Field(resp.body, "rooms").value.JArr?
      ensures var items := Field(resp.body, "rooms").value.items;
        && |items| == |registry.rooms|
        && forall i :: 0 <= i < |items| ==>
             items[i] == EncodeSummary(RoomSummary(ToPublic(registry.rooms[i].info), |registry.rooms[i].participants|))
    {
      var summaries := registry.ListWithParticipantCount();
      JsonReply(200, JObj(map["rooms" := JArr(
        seq(|summaries|, i requires 0 <= i < |summaries| => EncodeSummary(summaries[i])))]))
    }

    /** `POST /rooms/:code/join`: 404 for an unknown room, then 400 when a
        required field is missing or empty, then 401 for a refused password;
        only then is the participant added (online, joined and seen now) and
        announced to the room's watchers. */
    method JoinRoom(code: string, body: JoinBody, now: real, verify: (string, string) -> bool) returns (resp: Response)
      requires Valid()
      modifies registry, bus
      ensures Valid()
      ensures registry.codeToRoomId == old(registry.codeToRoomId)
      ensures old(registry.GetByCode(code)).None? ==>
        && resp == ErrorReply("Room not found", 404)
        && registry.rooms == old(registry.rooms) && bus.clients == old(bus.clients)
      ensures old(registry.GetByCode(code)).Some? ==>
        var info := old(registry.GetByCode(code)).value;
        if !(Given(body.id) && Given(body.nickname) && Given(body.model) && Given(body.endpoint)) then
          && resp == ErrorReply("Missing required fields: id, nickname, model, endpoint", 400)
          && registry.rooms == old(registry.rooms) && bus.clients == old(bus.clients)
        else if !PasswordAccepts(Some(info), OrElse(body.password, ""), verify) then
          && resp == ErrorReply("Invalid password", 401)
          && registry.rooms == old(registry.rooms) && bus.clients == old(bus.clients)
        else
          var p := Create(CreateOptions(body.nickname.value, body.model.value, body.endpoint.value,
                                        body.specs, body.config), body.id.value, now);
          && registry.rooms == PutParticipant(old(registry.rooms), info.id, p)
          && bus.clients == Deliver(old(bus.clients), Message("participant:joined", bus.codec.stringify(EncodeParticipant(p))), code)
          && resp == JsonReply(201, JObj(map["participant" := EncodeParticipant(p), "roomId" := JStr(info.id)]))
    {
      var room := registry.GetByCode(code);
      if room.None? {
        return ErrorReply("Room not found", 404);
      }
      var info := room.value;
      if !(Given(body.id) && Given(body.nickname) && Given(body.model) && Given(body.endpoint)) {
        return ErrorReply("Missing required fields: id, nickname, model, endpoint", 400);
      }
      var ok := registry.ValidatePassword(info.id, OrElse(body.password, ""), verify);
      assert registry.Get(info.id) == Some(info);
      if !ok {
        return ErrorReply("Invalid password", 401);
      }
      var p := Create(CreateOptions(body.nickname.value, body.model.value, body.endpoint.value,
                                    body.specs, body.config), body.id.value, now);
      var _ := registry.AddParticipant(info.id, p);
      ghost var joined := registry.rooms;
      bus.Broadcast("participant:joined", EncodeParticipant(p), code);
      assert registry.rooms == joined;
      resp := JsonReply(201, JObj(map["participant" := EncodeParticipant(p), "roomId" := JStr(info.id)]));
    }

    /** `DELETE /rooms/:code/leave/:id`: 404 for an unknown room, 404 for a
        participant not in it; otherwise removes it and announces it. */
    method LeaveRoom(code: string, participantId: string) returns (resp: Response)
      requires Valid()
      modifies registry, bus
      ensures Valid()
      ensures registry.codeToRoomId == old(registry.codeToRoomId)
      ensures old(registry.GetByCode(code)).None? ==>
        && resp == ErrorReply("Room not found", 404)
        && registry.rooms == old(registry.rooms) && bus.clients == old(bus.clients)
      ensures old(registry.GetByCode(code)).Some? ==>
        var info := old(registry.GetByCode(code)).value;
        if old(registry.GetParticipant(info.id, participantId)).None? then
          && resp == ErrorReply("Participant not found", 404)
          && registry.rooms == old(registry.rooms) && bus.clients == old(bus.clients)
        else
          && registry.rooms == DropParticipant(old(registry.rooms), info.id, participantId)
          && bus.clients == Deliver(old(bus.clients), Message("participant:left", bus.codec.stringify(ParticipantIdPayload(participantId))), code)
          && resp == SuccessReply()
    {
      var room := registry.GetByCode(code);
      if room.None? {
        return ErrorReply("Room not found", 404);
      }
      var removed := registry.RemoveParticipant(room.value.id, participantId);
      if !removed {
        return ErrorReply("Participant not found", 404);
      }
      bus.Broadcast("participant:left", ParticipantIdPayload(participantId), code);
      resp := SuccessReply();
    }

    /** `POST /rooms/:code/health`: 404 for an unknown room, 400 without an id,
        404 for an unknown participant; otherwise a heartbeat at `now`. Nothing
        is broadcast. */
    method HealthCheck(code: string, body: HealthBody, now: real) returns (resp: Response)
      requires Valid()
      modifies registry
      ensures Valid()
      ensures registry.codeToRoomId == old(registry.codeToRoomId)
      ensures old(registry.GetByCode(code)).None? ==>
        resp == ErrorReply("Room not found", 404) && registry.rooms == old(registry.rooms)
      ensures old(registry.GetByCode(code)).Some? ==>
        var info := old(registry.GetByCode(code)).value;
        if !Given(body.id) then
          resp == ErrorReply("Participant ID is required", 400) && registry.rooms == old(registry.rooms)
        else if old(registry.GetParticipant(info.id, body.id.value)).None? then
          resp == ErrorReply("Participant not found", 404) && registry.rooms == old(registry.rooms)
        else
          && registry.rooms == PutParticipant(old(registry.rooms), info.id,
               old(registry.GetParticipant(info.id, body.id.value)).value.(lastSeen := now, status := Online))
          && resp == SuccessReply()
    {
      var room := registry.GetByCode(code);
      if room.None? {
        return ErrorReply("Room not found", 404);
      }
      if !Given(body.id) {
        return ErrorReply("Participant ID is required", 400);
      }
      var updated := registry.UpdateLastSeen(room.value.id, body.id.value, now);
      if !updated {
        return ErrorReply("Participant not found", 404);
      }
      resp := SuccessReply();
    }

    /** `GET /rooms/:code/participants` */
    function GetParticipants(code: string): (resp: Response)
      reads this, registry
      ensures registry.GetByCode(code).None? ==> resp == ErrorReply("Room not found", 404)
      ensures registry.GetByCode(code).Some? ==>
        var ps := registry.GetParticipants(registry.GetByCode(code).value.id);
        resp == JsonReply(200, JObj(map["participants" := JArr(
          seq(|ps|, i requires 0 <= i < |ps| => EncodeParticipant(ps[i])))]))
    {
      match registry.GetByCode(code)
      case None => ErrorReply("Room not found", 404)
      case Some(info) =>
        var ps := registry.GetParticipants(info.id);
        JsonReply(200, JObj(map["participants" := JArr(seq(|ps|, i requires 0 <= i < |ps| => EncodeParticipant(ps[i])))]))
    }

    /** `GET /rooms/:code/v1/models`: the OpenAI-style list of online participants. */
    function ListModels(code: string): (resp: Response)
      reads this, registry
      ensures registry.GetByCode(code).None? ==> resp == ErrorReply("Room not found", 404)
      ensures registry.GetByCode(code).Some? ==>
        && resp.JsonReply? && resp.status == 200
        && StrField(resp.body, "object") == Some("list")
        && Field(resp.body, "data") == Some(JArr(ModelEntries(registry.GetParticipants(registry.GetByCode(code).value.id))))
    {
      match registry.GetByCode(code)
      case None => ErrorReply("Room not found", 404)
      case Some(info) =>
        JsonReply(200, JObj(map["object" := JStr("list"), "data" := JArr(ModelEntries(registry.GetParticipants(info.id)))]))
    }

    /** `findParticipant` over the registry. */
    method FindParticipant(roomId: string, selector: string, pick: nat) returns (r: Option<Participant>)
      ensures r == Route(registry.rooms, roomId, selector, pick)
    {
      if selector == "*" || selector == "any" {
        return registry.GetRandomOnlineParticipant(roomId, pick);
      }
      if StartsWith(selector, "model:") {
        r := registry.FindParticipantByModel(roomId, selector[6..]);
        return;
      }
      var p := registry.GetParticipant(roomId, selector);
      if p.Some? {
        return p;
      }
      r := registry.FindParticipantByModel(roomId, selector);
    }

    /** `POST /rooms/:code/v1/chat/completions`: 404 for an unknown room, an
        exception when the body has no string `model`, 404 when no participant
        is selected, 503 when the selected one is not online. Otherwise it
        announces `llm:request`, forwards the body with `model` rewritten, and
        passes the upstream answer back; a failed call is announced as
        `llm:error` and answered with 502. */
    method ProxyChatCompletions(code: string, body: Json, pick: nat, upstream: Upstream)
      returns (resp: Response, sent: Option<Forward>)
      requires Valid()
      modifies bus
      ensures Valid()
      ensures old(registry.GetByCode(code)).None? ==>
        resp == ErrorReply("Room not found", 404) && sent.None? && bus.clients == old(bus.clients)
      ensures old(registry.GetByCode(code)).Some? && StrField(body, "model").None? ==>
        resp == Thrown && sent.None? && bus.clients == old(bus.clients)
      ensures old(registry.GetByCode(code)).Some? && StrField(body, "model").Some? ==>
        var selector := StrField(body, "model").value;
        var chosen := Route(registry.rooms, old(registry.GetByCode(code)).value.id, selector, pick);
        if chosen.None? then
          resp == ErrorReply("No available participant for the requested model", 404)
          && sent.None? && bus.clients == old(bus.clients)
        else if chosen.value.status != Online then
          resp == ErrorReply("Participant is offline", 503) && sent.None? && bus.clients == old(bus.clients)
        else
          var p := chosen.value;
          var announced := Deliver(old(bus.clients),
            Message("llm:request", bus.codec.stringify(LlmRequestPayload(p.id, selector))), code);
          && sent == Some(ForwardFor(p, body.fields))
          && match upstream
             case FetchFailed(err) =>
               && bus.clients == Deliver(announced, Message("llm:error", bus.codec.stringify(LlmErrorPayload(p.id, err))), code)
               && resp == ErrorReply("Failed to proxy request: " + err, 502)
             case Answered(status, answer) =>
               if "stream" in body.fields && Truthy(body.fields["stream"]) then
                 bus.clients == announced && resp == StreamReply(status)
               else
                 match answer
                 case JsonBody(j) => bus.clients == announced && resp == JsonReply(status, j)
                 case NotJson(err) =>
                   && bus.clients == Deliver(announced, Message("llm:error", bus.codec.stringify(LlmErrorPayload(p.id, err))), code)
                   && resp == ErrorReply("Failed to proxy request: " + err, 502)
    {
      sent := None;
      var room := registry.GetByCode(code);
      if room.None? {
        return ErrorReply("Room not found", 404), None;
      }
      var selector := StrField(body, "model");
      if selector.None? {
        return Thrown, None;
      }
      var chosen := FindParticipant(room.value.id, selector.value, pick);
      if chosen.None? {
        return ErrorReply("No available participant for the requested model", 404), None;
      }
      var p := chosen.value;
      if p.status != Online {
        return ErrorReply("Participant is offline", 503), None;
      }
      bus.Broadcast("llm:request", LlmRequestPayload(p.id, selector.value), code);
      sent := Some(ForwardFor(p, body.fields));
      var failure: Option<string> := None;
      match upstream {
        case FetchFailed(err) =>
          failure := Some(err);
        case Answered(status, answer) =>
          if "stream" in body.fields && Truthy(body.fields["stream"]) {
            return StreamReply(status), sent;
          }
          match answer {
            case JsonBody(j) =>
              return JsonReply(status, j), sent;
            case NotJson(err) =>
              failure := Some(err);
          }
      }
      bus.Broadcast("llm:error", LlmErrorPayload(p.id, failure.value), code);
      resp := ErrorReply("Failed to proxy request: " + failure.value, 502);
    }

    /** `GET /rooms/:code/events`: registers an event stream scoped by the code as
        it appears in the path. */
    method Events(code: string, clientId: string) returns (resp: Response)
      requires Valid()
      modifies bus
      ensures Valid()
      ensures registry.GetByCode(code).None? ==>
        resp == ErrorReply("Room not found", 404) && bus.clients == old(bus.clients)
      ensures registry.GetByCode(code).Some? ==>
        && resp == StreamReply(200)
        && bus.clients == Set(old(bus.clients), ClientKey, Client(clientId, code, true, [bus.ConnectedMessage(clientId)]))
    {
      var room := registry.GetByCode(code);
      if room.None? {
        return ErrorReply("Room not found", 404);
      }
      bus.Connect(clientId, code);
      resp := StreamReply(200);
    }

    /** The health-check timer's callback: sweep, then announce each stale
        participant to its room, skipping rooms that no longer exist. */
    method StaleSweep(now: real)
      requires Valid()
      modifies registry, bus
      ensures Valid()
      ensures registry.rooms == SweepRooms(old(registry.rooms), now)
      ensures registry.codeToRoomId == old(registry.codeToRoomId)
      ensures bus.clients == DeliverAll(old(bus.clients),
        OfflineNotices(SweepReport(old(registry.rooms), now), registry.rooms), bus.codec)
    {
      var stale := registry.CheckStaleParticipants(now);
      var i := 0;
      while i < |stale|
        invariant 0 <= i <= |stale|
        invariant Valid()
        invariant registry.rooms == SweepRooms(old(registry.rooms), now)
        invariant registry.codeToRoomId == old(registry.codeToRoomId)
        invariant bus.clients == DeliverAll(old(bus.clients), OfflineNotices(stale[..i], registry.rooms), bus.codec)
      {
        SweepNoticeStep(old(bus.clients), stale, i, registry.rooms, bus.codec);
        var room := registry.Get(stale[i].roomId);
        if room.Some? {
          bus.Broadcast("participant:offline", ParticipantIdPayload(stale[i].participantId), room.value.code);
        }
        i := i + 1;
      }
      assert stale[..i] == stale;
    }
  }

  /** Every stale participant found by a sweep is announced to its room exactly
      once per sweep, including ones already offline. */
  lemma SweepAnnouncesEachStale(rooms: seq<RoomState>, now: real)
    ensures |OfflineNotices(SweepReport(rooms, now), SweepRooms(rooms, now))| == |SweepReport(rooms, now)|
    ensures forall i :: 0 <= i < |SweepReport(rooms, now)| ==>
      var e := SweepReport(rooms, now)[i];
      && InfoOf(rooms, e.roomId).Some?
      && OfflineNotices(SweepReport(rooms, now), SweepRooms(rooms, now))[i] ==
        Notice("participant:offline", ParticipantIdPayload(e.participantId), InfoOf(rooms, e.roomId).value.code)
  {
    var report := SweepReport(rooms, now);
    SweepStructure(rooms, now);
    forall i | 0 <= i < |report|
      ensures Has(rooms, RoomKey, report[i].roomId)
      ensures Has(SweepRooms(rooms, now), RoomKey, report[i].roomId)
    {
      ReportedRoomExists(rooms, now, report[i]);
      assert InfoOf(SweepRooms(rooms, now), report[i].roomId).Some?;
    }
    OfflineNoticesAll(report, SweepRooms(rooms, now));
  }
}
