/** The dashboard's room state (apps/tui/src/hooks/use-rooms.ts): one pure
    reducer per hub event, the handler table that dispatches to them, the
    activity log with its cap, adding and removing watched rooms, and the
    hook's own copy of the stream reader, whose pending block always holds
    both lines.

    A reducer returns the new room and, perhaps, an action to log; the hook
    appends the log entry later, in a separate state update, with a fresh
    id and the current time, which are parameters here. */
module RoomsState {
  import opened Common
  import opened Json
  import opened Keyed
  import opened CoreTypes
  import opened Dashboard
  import SseStream
  import HubHandlers

  /** `EventResult` */
  datatype EventResult = EventResult(room: RoomView, log: Option<LogAction>)

  /** `participants.set(id, { ...participant, status })` when `id` is present. */
  function WithStatus(ps: seq<Participant>, id: string, status: Status): (r: seq<Participant>)
    ensures |r| == |ps|
    ensures Get(r, ParticipantKey, id) == match Get(ps, ParticipantKey, id)
      case Some(p) => Some(p.(status := status))
      case None => None
    ensures SameElsewhere(ps, r, id)
  {
    match Get(ps, ParticipantKey, id)
    case None => ps
    case Some(p) =>
      SetGet(ps, ParticipantKey, p.(status := status));
      Set(ps, ParticipantKey, p.(status := status))
  }

  /** The nickname of a participant the room knows, if it knows it (`participant?.nickname`). */
  function NicknameOf(ps: seq<Participant>, id: string): Option<string> {
    match Get(ps, ParticipantKey, id)
    case Some(p) => Some(p.nickname)
    case None => None
  }

  // ----- The reducers -----------------------------------------------------------

  /** `handleConnectedEvent`: the payload is not looked at. */
  function HandleConnectedEvent(room: RoomView): (r: EventResult)
    ensures r.room.connected && r.room.(connected := room.connected) == room
    ensures r.log.None?
  {
    EventResult(room.(connected := true), None)
  }

  /** `handleRoomCreatedEvent`: renames the room, and only when the payload
      names this room's code. */
  function HandleRoomCreatedEvent(room: RoomView, code: string, data: Json): (r: EventResult)
    ensures r.room.(name := room.name) == room && r.log.None?
    ensures r.room != room ==> DecodeRoomCreated(data).Some? && DecodeRoomCreated(data).value.code == code
    ensures DecodeRoomCreated(data).Some? && DecodeRoomCreated(data).value.code == code ==>
      r.room.name == DecodeRoomCreated(data).value.name
  {
    match DecodeRoomCreated(data)
    case Some(created) =>
      if created.code == code then EventResult(room.(name := created.name), None)
      else EventResult(room, None)
    case None => EventResult(room, None)
  }

  /** `handleParticipantJoinedEvent`: inserts the participant, or replaces the
      one with the same id, and logs the join. */
  function HandleParticipantJoinedEvent(room: RoomView, data: Json): (r: EventResult)
    ensures r.room.(participants := room.participants) == room
    ensures DecodeParticipant(data).None? ==> r == EventResult(room, None)
    ensures DecodeParticipant(data).Some? ==>
      var p := DecodeParticipant(data).value;
      && Get(r.room.participants, ParticipantKey, p.id) == Some(p)
      && SameElsewhere(room.participants, r.room.participants, p.id)
      && r.log == Some(LogAction(JoinLog, p.id, Some(p.nickname), p.nickname + " joined", None))
  {
    match DecodeParticipant(data)
    case None => EventResult(room, None)
    case Some(p) =>
      SetGet(room.participants, ParticipantKey, p);
      EventResult(
        room.(participants := Set(room.participants, ParticipantKey, p)),
        Some(LogAction(JoinLog, p.id, Some(p.nickname), p.nickname + " joined", None)))
  }

  /** `handleParticipantLeftEvent`: deletes the id, which changes nothing when
      it is absent, and logs only a participant the room knew. */
  function HandleParticipantLeftEvent(room: RoomView, data: Json): (r: EventResult)
    ensures r.room.(participants := room.participants) == room
    ensures DecodeParticipantId(data).None? ==> r == EventResult(room, None)
    ensures DecodeParticipantId(data).Some? ==>
      var id := DecodeParticipantId(data).value;
      && SameElsewhere(room.participants, r.room.participants, id)
      && (!Has(room.participants, ParticipantKey, id) ==> r.room == room && r.log.None?)
      && (Has(room.participants, ParticipantKey, id) ==>
            var p := Get(room.participants, ParticipantKey, id).value;
            r.log == Some(LogAction(LeaveLog, id, Some(p.nickname), p.nickname + " left", None)))
  {
    match DecodeParticipantId(data)
    case None => EventResult(room, None)
    case Some(id) =>
      DeleteGet(room.participants, ParticipantKey, id);
      var log := match Get(room.participants, ParticipantKey, id)
        case Some(p) => Some(LogAction(LeaveLog, id, Some(p.nickname), p.nickname + " left", None))
        case None => None;
      EventResult(room.(participants := Delete(room.participants, ParticipantKey, id)), log)
  }

  /** In a room whose participant ids are unique, the participant is gone
      after `participant:left`, and the ids stay unique. */
  lemma LeftEventRemoves(room: RoomView, id: string)
    requires UniqueKeys(room.participants, ParticipantKey)
    ensures var after := HandleParticipantLeftEvent(room, HubHandlers.ParticipantIdPayload(id)).room.participants;
      && !Has(after, ParticipantKey, id)
      && UniqueKeys(after, ParticipantKey)
  {
    ParticipantIdRoundTrip(id);
    DeleteSpec(room.participants, ParticipantKey, id);
  }

  /** `handleParticipantOfflineEvent`: marks a known participant offline and
      logs it; an unknown id changes nothing and logs nothing. */
  function HandleParticipantOfflineEvent(room: RoomView, data: Json): (r: EventResult)
    ensures r.room.(participants := room.participants) == room
    ensures DecodeParticipantId(data).None? || !Has(room.participants, ParticipantKey, DecodeParticipantId(data).value) ==>
      r == EventResult(room, None)
    ensures DecodeParticipantId(data).Some? && Has(room.participants, ParticipantKey, DecodeParticipantId(data).value) ==>
      var id := DecodeParticipantId(data).value;
      var p := Get(room.participants, ParticipantKey, id).value;
      && Get(r.room.participants, ParticipantKey, id) == Some(p.(status := Offline))
      && SameElsewhere(room.participants, r.room.participants, id)
      && r.log == Some(LogAction(OfflineLog, id, Some(p.nickname), p.nickname + " offline", None))
  {
    match DecodeParticipantId(data)
    case None => EventResult(room, None)
    case Some(id) =>
      match Get(room.participants, ParticipantKey, id)
      case None => EventResult(room, None)
      case Some(p) =>
        EventResult(
          room.(participants := WithStatus(room.participants, id, Offline)),
          Some(LogAction(OfflineLog, id, Some(p.nickname), p.nickname + " offline", None)))
  }

  /** The `llm:request` log line as it is written in use-rooms.ts: the arrow
      is there as the three characters its UTF-8 bytes spell in Windows-1252. */
  function RequestMessageAsWritten(who: string, model: string): string {
    "req \U{00E2}\U{2020}\U{2019} " + who + " (" + model + ")"
  }

  /** The `llm:request` log line, `req → <who> (<model>)`, as useRooms.ts has it. */
  function RequestMessage(who: string, model: string): (r: string)
    ensures |r| == |who| + |model| + 9
    ensures r[..6] == ['r', 'e', 'q', ' ', '\U{2192}', ' '] && r[6..6 + |who|] == who
    ensures r[6 + |who|..] == " (" + model + ")"
  {
    "req \U{2192} " + who + " (" + model + ")"
  }

  /** The first three bytes of the UTF-8 encoding of a character from U+0800 to U+FFFF. */
  function Utf8ThreeBytes(c: int): seq<int>
    requires 0x800 <= c <= 0xFFFF
  {
    [0xE0 + c / 0x1000, 0x80 + (c / 0x40) % 0x40, 0x80 + c % 0x40]
  }

  /** Windows-1252 for the bytes this needs: 0x86 and 0x92 from its own block,
      and the bytes from 0xA0 up, which it shares with Latin-1. */
  function Windows1252(b: int): char
    requires b == 0x86 || b == 0x92 || 0xA0 <= b <= 0xFF
  {
    if b == 0x86 then '\U{2020}' else if b == 0x92 then '\U{2019}' else b as char
  }

  /** The two messages differ for every participant and model, and the
      as-written one carries the arrow's UTF-8 bytes read as Windows-1252. */
  lemma RequestArrowGarbled(who: string, model: string)
    ensures RequestMessageAsWritten(who, model) != RequestMessage(who, model)
    ensures var bytes := Utf8ThreeBytes(0x2192);
      RequestMessageAsWritten(who, model)[4..7] == [Windows1252(bytes[0]), Windows1252(bytes[1]), Windows1252(bytes[2])]
  {
    assert RequestMessageAsWritten(who, model)[4] == '\U{00E2}';
    assert RequestMessage(who, model)[4] == '\U{2192}';
  }

  /** `handleLlmRequestEvent`: marks the id as processing even when the room
      does not know it, sets a known participant busy, and always logs. */
  function HandleLlmRequestEvent(room: RoomView, data: Json): (r: EventResult)
    ensures DecodeLlmRequest(data).None? ==> r == EventResult(room, None)
    ensures DecodeLlmRequest(data).Some? ==>
      var q := DecodeLlmRequest(data).value;
      var known := Get(room.participants, ParticipantKey, q.participantId);
      && r.room == room.(participants := r.room.participants, processing := room.processing + {q.participantId})
      && Get(r.room.participants, ParticipantKey, q.participantId) == (if known.Some? then Some(known.value.(status := Busy)) else None)
      && SameElsewhere(room.participants, r.room.participants, q.participantId)
      && r.log == Some(LogAction(RequestLog, q.participantId, NicknameOf(room.participants, q.participantId),
           RequestMessage(if known.Some? then known.value.nickname else q.participantId, q.model), None))
  {
    match DecodeLlmRequest(data)
    case None => EventResult(room, None)
    case Some(q) =>
      var name := NicknameOf(room.participants, q.participantId);
      EventResult(
        room.(participants := WithStatus(room.participants, q.participantId, Busy),
              processing := room.processing + {q.participantId}),
        Some(LogAction(RequestLog, q.participantId, name,
          RequestMessage(if name.Some? then name.value else q.participantId, q.model), None)))
  }

  /** `handleLlmCompleteEvent`: the id stops processing, a known participant
      is back online, and the completion is logged with its metrics. */
  function HandleLlmCompleteEvent(room: RoomView, data: Json): (r: EventResult)
    ensures DecodeLlmComplete(data).None? ==> r == EventResult(room, None)
    ensures DecodeLlmComplete(data).Some? ==>
      var c := DecodeLlmComplete(data).value;
      var known := Get(room.participants, ParticipantKey, c.participantId);
      && r.room == room.(participants := r.room.participants, processing := room.processing - {c.participantId})
      && Get(r.room.participants, ParticipantKey, c.participantId) == (if known.Some? then Some(known.value.(status := Online)) else None)
      && SameElsewhere(room.participants, r.room.participants, c.participantId)
      && r.log == Some(LogAction(CompleteLog, c.participantId, None, "complete", c.metrics))
  {
    match DecodeLlmComplete(data)
    case None => EventResult(room, None)
    case Some(c) =>
      EventResult(
        room.(participants := WithStatus(room.participants, c.participantId, Online),
              processing := room.processing - {c.participantId}),
        Some(LogAction(CompleteLog, c.participantId, None, "complete", c.metrics)))
  }

  /** `handleLlmErrorEvent`: the id stops processing, a known participant is
      back online, and the error text is logged. */
  function HandleLlmErrorEvent(room: RoomView, data: Json): (r: EventResult)
    ensures DecodeLlmError(data).None? ==> r == EventResult(room, None)
    ensures DecodeLlmError(data).Some? ==>
      var e := DecodeLlmError(data).value;
      var known := Get(room.participants, ParticipantKey, e.participantId);
      && r.room == room.(participants := r.room.participants, processing := room.processing - {e.participantId})
      && Get(r.room.participants, ParticipantKey, e.participantId) == (if known.Some? then Some(known.value.(status := Online)) else None)
      && SameElsewhere(room.participants, r.room.participants, e.participantId)
      && r.log == Some(LogAction(ErrorLog, e.participantId, None, "error: " + e.error, None))
  {
    match DecodeLlmError(data)
    case None => EventResult(room, None)
    case Some(e) =>
      EventResult(
        room.(participants := WithStatus(room.participants, e.participantId, Online),
              processing := room.processing - {e.participantId}),
        Some(LogAction(ErrorLog, e.participantId, None, "error: " + e.error, None)))
  }

  // ----- Dispatch -----------------------------------------------------------------

  /** The event names the handler table has an own entry for. */
  const HandledEvents: set<string> := {
    "connected", "room:created", "participant:joined", "participant:left",
    "participant:offline", "llm:request", "llm:complete", "llm:error"}

  /** `handlers[event]`, applied to the room, for the eight names the table lists. */
  function Handle(room: RoomView, code: string, event: string, data: Json): (r: Option<EventResult>)
    ensures r.Some? <==> event in HandledEvents
    ensures r.Some? ==> r.value.room.code == room.code
  {
    if event == "connected" then Some(HandleConnectedEvent(room))
    else if event == "room:created" then Some(HandleRoomCreatedEvent(room, code, data))
    else if event == "participant:joined" then Some(HandleParticipantJoinedEvent(room, data))
    else if event == "participant:left" then Some(HandleParticipantLeftEvent(room, data))
    else if event == "participant:offline" then Some(HandleParticipantOfflineEvent(room, data))
    else if event == "llm:request" then Some(HandleLlmRequestEvent(room, data))
    else if event == "llm:complete" then Some(HandleLlmCompleteEvent(room, data))
    else if event == "llm:error" then Some(HandleLlmErrorEvent(room, data))
    else None
  }

  /** The names an object literal inherits from `Object.prototype`
      (ECMAScript section 20.1.3, with the accessors of Annex B.2.2). */
  const ObjectPrototypeNames: set<string> := {
    "constructor", "hasOwnProperty", "isPrototypeOf", "propertyIsEnumerable",
    "toLocaleString", "toString", "valueOf", "__proto__",
    "__defineGetter__", "__defineSetter__", "__lookupGetter__", "__lookupSetter__"}

  /** The guard as written: `handlers[event]` on an object literal also finds
      the inherited members, so `!handler` lets them through. */
  predicate HandlerFoundAsWritten(event: string) {
    event in HandledEvents || event in ObjectPrototypeNames
  }

  /** The rooms after an event, and the action to log for it. */
  datatype Dispatched = Dispatched(rooms: seq<RoomView>, log: Option<LogAction>)

  /** `handleSSEEvent` as written: an inherited member found by the lookup
      is called as if it were a reducer. It returns no `room`, so the map
      entry for the room no longer holds a room (or, for the members that
      need a receiver, the update throws); `None` stands for that outcome. */
  function HandleSseEventAsWritten(rooms: seq<RoomView>, code: string, event: string, data: Json): (r: Option<Dispatched>)
    ensures r.None? <==> Has(rooms, RoomCode, code) && event !in HandledEvents && event in ObjectPrototypeNames
  {
    match Get(rooms, RoomCode, code)
    case None => Some(Dispatched(rooms, None))
    case Some(room) =>
      if !HandlerFoundAsWritten(event) then Some(Dispatched(rooms, None))
      else
        match Handle(room, code, event, data)
        case None => None
        case Some(result) => Some(Dispatched(Set(rooms, RoomCode, result.room), result.log))
  }

  /** Off the inherited names, the dispatch as written and the corrected one agree. */
  lemma AsWrittenAgreesOffPrototype(rooms: seq<RoomView>, code: string, event: string, data: Json)
    requires event !in ObjectPrototypeNames
    ensures HandleSseEventAsWritten(rooms, code, event, data) == Some(HandleSseEvent(rooms, code, event, data))
  {
  }

  /** An event named `toString` for a watched room gets past the guard as
      written and loses the room's entry; the corrected dispatch leaves every
      room as it was. */
  lemma InheritedNameLosesRoom(rooms: seq<RoomView>, code: string, data: Json)
    requires Has(rooms, RoomCode, code)
    ensures HandlerFoundAsWritten("toString")
    ensures HandleSseEventAsWritten(rooms, code, "toString", data).None?
    ensures HandleSseEvent(rooms, code, "toString", data) == Dispatched(rooms, None)
  {
  }

  /** `handleSSEEvent` with the lookup restricted to the table's own entries:
      an unknown room or event name returns the previous map; otherwise only
      that room's entry is replaced. */
  function HandleSseEvent(rooms: seq<RoomView>, code: string, event: string, data: Json): (r: Dispatched)
    ensures !Has(rooms, RoomCode, code) || event !in HandledEvents ==> r == Dispatched(rooms, None)
    ensures Has(rooms, RoomCode, code) && event in HandledEvents ==>
      var result := Handle(Get(rooms, RoomCode, code).value, code, event, data).value;
      && Get(r.rooms, RoomCode, code) == Some(result.room)
      && (forall k :: k != code ==> Get(r.rooms, RoomCode, k) == Get(rooms, RoomCode, k))
      && r.log == result.log
    ensures |r.rooms| == |rooms| && forall i :: 0 <= i < |rooms| ==> r.rooms[i].code == rooms[i].code
  {
    match Get(rooms, RoomCode, code)
    case None => Dispatched(rooms, None)
    case Some(room) =>
      match Handle(room, code, event, data)
      case None => Dispatched(rooms, None)
      case Some(result) =>
        SetGet(rooms, RoomCode, result.room);
        Dispatched(Set(rooms, RoomCode, result.room), result.log)
  }

  // ----- Activity log -------------------------------------------------------------

  const MAX_LOGS: nat := 100

  /** `[...room.logs, newEntry]`, keeping only the newest 100. */
  function AppendLog(logs: seq<LogEntry>, entry: LogEntry): (r: seq<LogEntry>)
    ensures |r| == if |logs| + 1 > MAX_LOGS then MAX_LOGS else |logs| + 1
    ensures r[|r| - 1] == entry
    ensures r == (logs + [entry])[|logs| + 1 - |r|..]
  {
    var all := logs + [entry];
    if |all| > MAX_LOGS then all[|all| - MAX_LOGS..] else all
  }

  /** `addLog`: appends the entry to the room's log, stamped with the room's
      code; a room that is gone is left alone. */
  function AddLog(rooms: seq<RoomView>, code: string, action: LogAction, id: string, timestamp: real): (r: seq<RoomView>)
    ensures |r| == |rooms|
    ensures !Has(rooms, RoomCode, code) ==> r == rooms
    ensures Has(rooms, RoomCode, code) ==>
      var room := Get(rooms, RoomCode, code).value;
      && Get(r, RoomCode, code) == Some(room.(logs := AppendLog(room.logs, LogEntry(id, timestamp, code, action))))
      && forall k :: k != code ==> Get(r, RoomCode, k) == Get(rooms, RoomCode, k)
  {
    match Get(rooms, RoomCode, code)
    case None => rooms
    case Some(room) =>
      var next := room.(logs := AppendLog(room.logs, LogEntry(id, timestamp, code, action)));
      SetGet(rooms, RoomCode, next);
      Set(rooms, RoomCode, next)
  }

  /** No room's log ever holds more than 100 entries: adding one keeps the
      bound for every room. */
  lemma LogsStayBounded(rooms: seq<RoomView>, code: string, action: LogAction, id: string, timestamp: real)
    requires forall i :: 0 <= i < |rooms| ==> |rooms[i].logs| <= MAX_LOGS
    ensures var r := AddLog(rooms, code, action, id, timestamp);
      forall i :: 0 <= i < |r| ==> |r[i].logs| <= MAX_LOGS
  {
    var r := AddLog(rooms, code, action, id, timestamp);
    if Has(rooms, RoomCode, code) {
      var j := IndexOf(rooms, RoomCode, code);
      assert forall i :: 0 <= i < |r| && i != j ==> r[i] == rooms[i];
    }
  }

  // ----- Watched rooms -------------------------------------------------------------

  /** The hook's `rooms` Map and `activeRoom`. */
  datatype Session = Session(rooms: seq<RoomView>, active: Option<string>)

  function NewRoom(code: string): RoomView {
    RoomView(code, code, [], [], false, {})
  }

  /** `addRoom`: a code already watched changes nothing; a new one is added
      empty and disconnected, and becomes active when no room is. */
  function AddRoom(s: Session, code: string): (r: Session)
    ensures Has(s.rooms, RoomCode, code) ==> r == s
    ensures !Has(s.rooms, RoomCode, code) ==>
      && r.rooms == s.rooms + [NewRoom(code)]
      && Get(r.rooms, RoomCode, code) == Some(NewRoom(code))
      && (forall k :: k != code ==> Get(r.rooms, RoomCode, k) == Get(s.rooms, RoomCode, k))
      && r.active == if s.active.None? then Some(code) else s.active
  {
    if Has(s.rooms, RoomCode, code) then s
    else
      SetGet(s.rooms, RoomCode, NewRoom(code));
      Session(s.rooms + [NewRoom(code)], if s.active.None? then Some(code) else s.active)
  }

  /** Adding a room twice is adding it once. */
  lemma AddRoomIdempotent(s: Session, code: string)
    ensures AddRoom(AddRoom(s, code), code) == AddRoom(s, code)
  {
  }

  /** Adding keeps codes unique. */
  lemma AddRoomUnique(s: Session, code: string)
    requires UniqueKeys(s.rooms, RoomCode)
    ensures UniqueKeys(AddRoom(s, code).rooms, RoomCode)
  {
  }

  function Codes(rooms: seq<RoomView>): (r: seq<string>)
    ensures |r| == |rooms|
    ensures forall i :: 0 <= i < |rooms| ==> r[i] == rooms[i].code
  {
    if |rooms| == 0 then [] else [rooms[0].code] + Codes(rooms[1..])
  }

  /** `[...keys].filter((k) => k !== code)` */
  function Without(codes: seq<string>, code: string): (r: seq<string>)
    ensures forall i :: 0 <= i < |r| ==> r[i] != code
  {
    if |codes| == 0 then []
    else if codes[0] == code then Without(codes[1..], code)
    else [codes[0]] + Without(codes[1..], code)
  }

  /** `removeRoom`: drops the room, and when it was the active one makes the
      first remaining room active, or none. */
  function RemoveRoom(s: Session, code: string): (r: Session)
    ensures r.rooms == Delete(s.rooms, RoomCode, code)
    ensures s.active != Some(code) ==> r.active == s.active
  {
    var remaining := Without(Codes(s.rooms), code);
    Session(
      Delete(s.rooms, RoomCode, code),
      if s.active == Some(code) then (if |remaining| > 0 then Some(remaining[0]) else None) else s.active)
  }

  lemma {:induction false} WithoutConcat(a: seq<string>, b: seq<string>, code: string)
    ensures Without(a + b, code) == Without(a, code) + Without(b, code)
  {
    if |a| > 0 {
      assert (a + b)[0] == a[0];
      assert (a + b)[1..] == a[1..] + b;
      WithoutConcat(a[1..], b, code);
    } else {
      assert a + b == b;
    }
  }

  lemma {:induction false} WithoutAbsent(a: seq<string>, code: string)
    requires forall i :: 0 <= i < |a| ==> a[i] != code
    ensures Without(a, code) == a
  {
    if |a| > 0 {
      WithoutAbsent(a[1..], code);
      assert a == [a[0]] + a[1..];
    }
  }

  lemma {:induction false} CodesConcat(a: seq<RoomView>, b: seq<RoomView>)
    ensures Codes(a + b) == Codes(a) + Codes(b)
  {
    assert forall j :: 0 <= j < |a + b| ==> Codes(a + b)[j] == (Codes(a) + Codes(b))[j];
  }

  /** Filtering out a code that occurs once, between two stretches without it. */
  lemma {:induction false} WithoutSplice(before: seq<string>, after: seq<string>, code: string)
    requires forall j :: 0 <= j < |before| ==> before[j] != code
    requires forall j :: 0 <= j < |after| ==> after[j] != code
    ensures Without(before + [code] + after, code) == before + after
  {
    var mid := before + [code];
    WithoutConcat(mid, after, code);
    WithoutConcat(before, [code], code);
    var none := Without([code], code);
    assert none == Without([code][1..], code);
    assert [code][1..] == [];
    WithoutAbsent(before, code);
    WithoutAbsent(after, code);
    calc {
      Without(mid + after, code);
      Without(mid, code) + Without(after, code);
      Without(before, code) + none + Without(after, code);
      before + after;
    }
  }

  /** The codes of the rooms around the one deleted. */
  lemma {:induction false} CodesAroundDelete(rooms: seq<RoomView>, code: string, i: int)
    requires 0 <= i < |rooms| && i == IndexOf(rooms, RoomCode, code)
    ensures Codes(rooms) == Codes(rooms[..i]) + [code] + Codes(rooms[i + 1..])
    ensures Codes(Delete(rooms, RoomCode, code)) == Codes(rooms[..i]) + Codes(rooms[i + 1..])
  {
    var front, back := rooms[..i], rooms[i + 1..];
    assert Delete(rooms, RoomCode, code) == front + back;
    assert rooms == front + [rooms[i]] + back;
    CodesConcat(front + [rooms[i]], back);
    CodesConcat(front, [rooms[i]]);
    assert Codes([rooms[i]]) == [code];
    CodesConcat(front, back);
  }

  /** With unique codes, filtering the codes is deleting the room. */
  lemma {:induction false} WithoutIsDelete(rooms: seq<RoomView>, code: string)
    requires UniqueKeys(rooms, RoomCode)
    ensures Without(Codes(rooms), code) == Codes(Delete(rooms, RoomCode, code))
  {
    var i := IndexOf(rooms, RoomCode, code);
    if i < 0 {
      WithoutAbsent(Codes(rooms), code);
    } else {
      CodesAroundDelete(rooms, code, i);
      var before, after := Codes(rooms[..i]), Codes(rooms[i + 1..]);
      forall j | 0 <= j < |before|
        ensures before[j] != code
      {
        assert before[j] == rooms[j].code;
      }
      forall j | 0 <= j < |after|
        ensures after[j] != code
      {
        assert after[j] == rooms[i + 1 + j].code;
        assert RoomCode(rooms[i]) != RoomCode(rooms[i + 1 + j]);
      }
      WithoutSplice(before, after, code);
    }
  }

  /** Removing the active room hands the focus to the first room left, or to
      none when none is left; either way the removed room is gone. */
  lemma {:induction false} RemoveActiveRoom(s: Session, code: string)
    requires UniqueKeys(s.rooms, RoomCode) && s.active == Some(code)
    ensures var r := RemoveRoom(s, code);
      && !Has(r.rooms, RoomCode, code)
      && (r.active.None? <==> |r.rooms| == 0)
      && (r.active.Some? ==> r.active == Some(r.rooms[0].code))
  {
    WithoutIsDelete(s.rooms, code);
    DeleteSpec(s.rooms, RoomCode, code);
  }

  /** `allConnected`: at least one room, and every room connected. */
  predicate AllConnected(rooms: seq<RoomView>) {
    |rooms| > 0 && forall i :: 0 <= i < |rooms| ==> rooms[i].connected
  }

  /** A newly added room is not connected yet, so neither is the whole set. */
  lemma AddRoomDisconnects(s: Session, code: string)
    requires !Has(s.rooms, RoomCode, code)
    ensures !AllConnected(AddRoom(s, code).rooms)
  {
    assert AddRoom(s, code).rooms[|s.rooms|] == NewRoom(code);
  }

  /** The `connected` event of the last disconnected room makes every room connected. */
  lemma ConnectedEventCompletes(rooms: seq<RoomView>, code: string, data: Json)
    requires UniqueKeys(rooms, RoomCode) && Has(rooms, RoomCode, code)
    requires forall i :: 0 <= i < |rooms| && rooms[i].code != code ==> rooms[i].connected
    ensures AllConnected(HandleSseEvent(rooms, code, "connected", data).rooms)
  {
    var i := IndexOf(rooms, RoomCode, code);
    var room := rooms[i];
    assert Handle(room, code, "connected", data) == Some(EventResult(room.(connected := true), None));
    var after := HandleSseEvent(rooms, code, "connected", data).rooms;
    assert after == Set(rooms, RoomCode, room.(connected := true));
    assert after == rooms[i := room.(connected := true)];
    forall j | 0 <= j < |after|
      ensures after[j].connected
    {
      if j != i {
        assert RoomCode(rooms[j]) != RoomCode(rooms[i]);
      }
    }
  }

  // ----- The hook's stream reader --------------------------------------------------

  /** The pending block as use-rooms.ts hands it back: both lines whenever
      either field is set. */
  function PendingBlock(eventType: string, eventData: string): (r: string)
    ensures r == "" <==> eventType == "" && eventData == ""
  {
    if eventType != "" || eventData != "" then "event: " + eventType + "\ndata: " + eventData + "\n" else ""
  }

  /** What use-rooms.ts's `parseSSEBuffer` computes: the same events as
      use-sse.ts's reader, with the pending block in both-lines form. */
  function ParseBothLines(parse: string -> Option<Json>, buffer: string): SseStream.Parsed {
    var s := SseStream.Run(parse, SseStream.Start, Lines(buffer));
    SseStream.Parsed(s.events, PendingBlock(s.event, s.data))
  }

  /** `parseSSEBuffer` of use-rooms.ts: the loop over the lines. */
  method ParseSseBuffer(parse: string -> Option<Json>, buffer: string) returns (r: SseStream.Parsed)
    ensures r == ParseBothLines(parse, buffer)
    ensures r.events == SseStream.Parse(parse, buffer).events
  {
    var events: seq<SseStream.SseEvent> := [];
    var lines := Lines(buffer);
    var currentEvent, currentData := "", "";
    var i := 0;
    while i < |lines|
      invariant 0 <= i <= |lines|
      invariant SseStream.Run(parse, SseStream.Start, lines[..i]) == SseStream.Scan(events, currentEvent, currentData)
    {
      var line := lines[i];
      SseStream.RunSnoc(parse, SseStream.Start, lines, i);
      if line == "" {
        if currentEvent != "" && currentData != "" {
          var data := parse(currentData);
          if data.Some? {
            events := events + [SseStream.SseEvent(currentEvent, data.value)];
          }
        }
        currentEvent, currentData := "", "";
      } else if StartsWith(line, "event: ") {
        currentEvent := line[7..];
      } else if StartsWith(line, "data: ") {
        currentData := line[6..];
      }
      i := i + 1;
    }
    assert lines[..i] == lines;
    var remaining := if currentEvent != "" || currentData != "" then "event: " + currentEvent + "\ndata: " + currentData + "\n" else "";
    r := SseStream.Parsed(events, remaining);
  }

  /** The two readers hand back the same pending block exactly when both
      fields are set or neither is. */
  lemma {:induction false} PendingFormsAgree(eventType: string, eventData: string)
    ensures PendingBlock(eventType, eventData) == SseStream.BuildRemainingBuffer(eventType, eventData)
      <==> (eventType == "") == (eventData == "")
  {
    var both := PendingBlock(eventType, eventData);
    var set_ := SseStream.BuildRemainingBuffer(eventType, eventData);
    var e, d := "event: " + eventType + "\n", "data: " + eventData + "\n";
    if eventType == "" && eventData == "" {
      assert both == "" == set_;
    } else if eventType == "" {
      assert set_ == d;
      assert both[0] == 'e' && set_[0] == 'd';
    } else if eventData == "" {
      assert set_ == e;
      assert |both| == |set_| + |"data: \n"|;
    } else {
      assert set_ == e + d;
      assert both == e + d;
    }
  }

  /** What the hub broadcasts reads back, through this reader too, as the
      events it sent and nothing pending. */
  lemma StreamRoundTripBothLines(codec: Codec, events: seq<SseStream.SseEvent>)
    requires Lawful(codec) && SseStream.Nameable(events)
    ensures ParseBothLines(codec.parse, SseStream.Wire(codec, events)) == SseStream.Parsed(events, "")
  {
    SseStream.StreamRoundTrip(codec, events);
  }

  /** Re-reading the both-lines block, up to the empty piece after its final
      newline, restores the pending fields it was built from. */
  lemma {:induction false} PendingBlockRestores(parse: string -> Option<Json>, eventType: string, eventData: string)
    requires '\n' !in eventType && '\n' !in eventData
    requires eventType != "" || eventData != ""
    ensures var ls := Lines(PendingBlock(eventType, eventData));
      && ls == ["event: " + eventType, "data: " + eventData, ""]
      && SseStream.Run(parse, SseStream.Start, ls[..2]) == SseStream.Scan([], eventType, eventData)
  {
    var e, d := "event: " + eventType, "data: " + eventData;
    assert PendingBlock(eventType, eventData) == e + "\n" + (d + "\n" + "");
    SseStream.FieldLines(eventType, eventData);
    var ls := [e, d, ""];
    assert ls[..2] == [e, d];
    SseStream.RunFields(parse, eventType, eventData);
  }

  // ----- Reading the stream of one room ---------------------------------------------

  /** The rooms after a run of events, and the actions they log, in order. */
  datatype Applied = Applied(rooms: seq<RoomView>, logs: seq<LogAction>)

  /** The events of one room's stream, applied one after the other. */
  function ApplyEvents(rooms: seq<RoomView>, code: string, events: seq<SseStream.SseEvent>): (r: Applied)
    ensures |r.rooms| == |rooms| && forall i :: 0 <= i < |rooms| ==> r.rooms[i].code == rooms[i].code
    ensures |r.logs| <= |events|
    decreases |events|
  {
    if |events| == 0 then Applied(rooms, [])
    else
      var before := ApplyEvents(rooms, code, events[..|events| - 1]);
      var last := events[|events| - 1];
      var d := HandleSseEvent(before.rooms, code, last.event, last.data);
      Applied(d.rooms, before.logs + (if d.log.Some? then [d.log.value] else []))
  }

  /** One more event: the rooms and the log after it. */
  lemma {:induction false} ApplyEventsSnoc(rooms: seq<RoomView>, code: string, events: seq<SseStream.SseEvent>, i: int)
    requires 0 <= i < |events|
    ensures var before := ApplyEvents(rooms, code, events[..i]);
      var d := HandleSseEvent(before.rooms, code, events[i].event, events[i].data);
      ApplyEvents(rooms, code, events[..i + 1]) == Applied(d.rooms, before.logs + (if d.log.Some? then [d.log.value] else []))
  {
    assert events[..i + 1][..i] == events[..i];
  }

  /** One more event at the end of the run: the rooms and the log after it. */
  lemma {:induction false} ApplyEventsPush(rooms: seq<RoomView>, code: string, events: seq<SseStream.SseEvent>, ev: SseStream.SseEvent)
    ensures var before := ApplyEvents(rooms, code, events);
      var d := HandleSseEvent(before.rooms, code, ev.event, ev.data);
      ApplyEvents(rooms, code, events + [ev]) == Applied(d.rooms, before.logs + (if d.log.Some? then [d.log.value] else []))
  {
    assert (events + [ev])[..|events|] == events;
  }

  /** Events change only the room they were read for. */
  lemma {:induction false} EventsStayInTheirRoom(rooms: seq<RoomView>, code: string, events: seq<SseStream.SseEvent>)
    ensures forall k :: k != code ==> Get(ApplyEvents(rooms, code, events).rooms, RoomCode, k) == Get(rooms, RoomCode, k)
    decreases |events|
  {
    if |events| > 0 {
      EventsStayInTheirRoom(rooms, code, events[..|events| - 1]);
    }
  }

  /** One pass of `processSSEStream`'s loop: the chunk is appended to the
      buffer, the complete blocks are parsed and applied in order, and the
      pending block becomes the buffer. */
  method ProcessChunk(parse: string -> Option<Json>, rooms: seq<RoomView>, code: string, buffer: string, chunk: string)
    returns (next: seq<RoomView>, logs: seq<LogAction>, remaining: string)
    ensures var parsed := ParseBothLines(parse, buffer + chunk);
      && Applied(next, logs) == ApplyEvents(rooms, code, parsed.events)
      && remaining == parsed.remaining
  {
    var parsed := ParseSseBuffer(parse, buffer + chunk);
    remaining := parsed.remaining;
    next, logs := rooms, [];
    var i := 0;
    while i < |parsed.events|
      invariant 0 <= i <= |parsed.events|
      invariant Applied(next, logs) == ApplyEvents(rooms, code, parsed.events[..i])
    {
      var ev := parsed.events[i];
      ApplyEventsSnoc(rooms, code, parsed.events, i);
      var d := HandleSseEvent(next, code, ev.event, ev.data);
      next := d.rooms;
      if d.log.Some? {
        logs := logs + [d.log.value];
      }
      i := i + 1;
    }
    assert parsed.events[..i] == parsed.events;
  }

  /** `handleConnectionError`'s state update: the room is marked disconnected. */
  function MarkDisconnected(rooms: seq<RoomView>, code: string): (r: seq<RoomView>)
    ensures |r| == |rooms|
    ensures !Has(rooms, RoomCode, code) ==> r == rooms
    ensures Has(rooms, RoomCode, code) ==>
      && Get(r, RoomCode, code) == Some(Get(rooms, RoomCode, code).value.(connected := false))
      && forall k :: k != code ==> Get(r, RoomCode, k) == Get(rooms, RoomCode, k)
  {
    match Get(rooms, RoomCode, code)
    case None => rooms
    case Some(room) =>
      SetGet(rooms, RoomCode, room.(connected := false));
      Set(rooms, RoomCode, room.(connected := false))
  }

  /** A failed connection to a watched room clears `allConnected`. */
  lemma DisconnectClearsAllConnected(rooms: seq<RoomView>, code: string)
    requires Has(rooms, RoomCode, code)
    ensures !AllConnected(MarkDisconnected(rooms, code))
  {
    var i := IndexOf(rooms, RoomCode, code);
    assert MarkDisconnected(rooms, code)[i] == rooms[i].(connected := false);
  }
}
