/** The older copy of the dashboard's room state (apps/tui/src/hooks/useRooms.ts).
    Its `handleSSEEvent` is one `switch` with every event's update written
    inline, and its connection loop parses the buffer and applies each event
    as soon as its block ends. Both compute what the reducers and the parse
    of use-rooms.ts compute, with the request arrow as intended. Its
    `addLog`, `addRoom`, `removeRoom` and `allConnected` are the same code as
    use-rooms.ts's and are modelled by the members of `RoomsState`. */
module RoomsHook {
  import opened Common
  import opened Json
  import opened Keyed
  import opened CoreTypes
  import opened Dashboard
  import SseStream
  import RoomsState

  /** One `case` of the `switch` of `handleSSEEvent`, for the room found
      under the code: the entry to write back and the action to log. A case
      whose payload does not parse leaves the entry as it was; an event name
      the `switch` does not list gives `None`. */
  function SwitchCase(room: RoomView, code: string, event: string, data: Json): (r: Option<RoomsState.EventResult>)
    ensures r == RoomsState.Handle(room, code, event, data)
  {
    var untouched := Some(RoomsState.EventResult(room, None));
    if event == "connected" then
      Some(RoomsState.EventResult(room.(connected := true), None))
    else if event == "room:created" then
      match DecodeRoomCreated(data)
      case Some(created) =>
        if created.code == code then Some(RoomsState.EventResult(room.(name := created.name), None))
        else untouched
      case None => untouched
    else if event == "participant:joined" then
      match DecodeParticipant(data)
      case Some(p) =>
        Some(RoomsState.EventResult(
          room.(participants := Set(room.participants, ParticipantKey, p)),
          Some(LogAction(JoinLog, p.id, Some(p.nickname), p.nickname + " joined", None))))
      case None => untouched
    else if event == "participant:left" then
      match DecodeParticipantId(data)
      case Some(id) =>
        var participant := Get(room.participants, ParticipantKey, id);
        Some(RoomsState.EventResult(
          room.(participants := Delete(room.participants, ParticipantKey, id)),
          if participant.Some? then
            Some(LogAction(LeaveLog, id, Some(participant.value.nickname), participant.value.nickname + " left", None))
          else None))
      case None => untouched
    else if event == "participant:offline" then
      match DecodeParticipantId(data)
      case Some(id) =>
        (match Get(room.participants, ParticipantKey, id)
         case Some(p) =>
           Some(RoomsState.EventResult(
             room.(participants := Set(room.participants, ParticipantKey, p.(status := Offline))),
             Some(LogAction(OfflineLog, id, Some(p.nickname), p.nickname + " offline", None))))
         case None => untouched)
      case None => untouched
    else if event == "llm:request" then
      match DecodeLlmRequest(data)
      case Some(q) =>
        var participant := Get(room.participants, ParticipantKey, q.participantId);
        var processing := room.processing + {q.participantId};
        var updated :=
          if participant.Some? then
            room.(participants := Set(room.participants, ParticipantKey, participant.value.(status := Busy)), processing := processing)
          else room.(processing := processing);
        Some(RoomsState.EventResult(
          updated,
          Some(LogAction(RequestLog, q.participantId,
            if participant.Some? then Some(participant.value.nickname) else None,
            RoomsState.RequestMessage(if participant.Some? then participant.value.nickname else q.participantId, q.model),
            None))))
      case None => untouched
    else if event == "llm:complete" then
      match DecodeLlmComplete(data)
      case Some(c) =>
        var participant := Get(room.participants, ParticipantKey, c.participantId);
        var processing := room.processing - {c.participantId};
        var updated :=
          if participant.Some? then
            room.(participants := Set(room.participants, ParticipantKey, participant.value.(status := Online)), processing := processing)
          else room.(processing := processing);
        Some(RoomsState.EventResult(
          updated,
          Some(LogAction(CompleteLog, c.participantId, None, "complete", c.metrics))))
      case None => untouched
    else if event == "llm:error" then
      match DecodeLlmError(data)
      case Some(e) =>
        var participant := Get(room.participants, ParticipantKey, e.participantId);
        var processing := room.processing - {e.participantId};
        var updated :=
          if participant.Some? then
            room.(participants := Set(room.participants, ParticipantKey, participant.value.(status := Online)), processing := processing)
          else room.(processing := processing);
        Some(RoomsState.EventResult(
          updated,
          Some(LogAction(ErrorLog, e.participantId, None, "error: " + e.error, None))))
      case None => untouched
    else None
  }

  /** `handleSSEEvent`: `next` starts as a copy of the map and the case for
      the event sets this room's entry. */
  function HandleSseEvent(rooms: seq<RoomView>, code: string, event: string, data: Json): (r: RoomsState.Dispatched)
    ensures r == RoomsState.HandleSseEvent(rooms, code, event, data)
  {
    match Get(rooms, RoomCode, code)
    case None => RoomsState.Dispatched(rooms, None)
    case Some(room) =>
      match SwitchCase(room, code, event, data)
      case None => RoomsState.Dispatched(rooms, None)
      case Some(result) => RoomsState.Dispatched(Set(rooms, RoomCode, result.room), result.log)
  }

  /** One pass of the connection loop: the chunk is appended to the buffer,
      each block is applied the moment its empty line is read, and the pending
      fields are written back in both-lines form. The result is what
      use-rooms.ts's parse-then-apply pass computes. */
  method ReadChunk(parse: string -> Option<Json>, rooms: seq<RoomView>, code: string, buffer: string, chunk: string)
    returns (next: seq<RoomView>, logs: seq<LogAction>, remaining: string)
    ensures var parsed := RoomsState.ParseBothLines(parse, buffer + chunk);
      && RoomsState.Applied(next, logs) == RoomsState.ApplyEvents(rooms, code, parsed.events)
      && remaining == parsed.remaining
  {
    var lines := Lines(buffer + chunk);
    var currentEvent, currentData := "", "";
    next, logs := rooms, [];
    ghost var events: seq<SseStream.SseEvent> := [];
    var i := 0;
    while i < |lines|
      invariant 0 <= i <= |lines|
      invariant SseStream.Run(parse, SseStream.Start, lines[..i]) == SseStream.Scan(events, currentEvent, currentData)
      invariant RoomsState.Applied(next, logs) == RoomsState.ApplyEvents(rooms, code, events)
    {
      var line := lines[i];
      SseStream.RunSnoc(parse, SseStream.Start, lines, i);
      if line == "" {
        if currentEvent != "" && currentData != "" {
          var data := parse(currentData);
          if data.Some? {
            RoomsState.ApplyEventsPush(rooms, code, events, SseStream.SseEvent(currentEvent, data.value));
            events := events + [SseStream.SseEvent(currentEvent, data.value)];
            var d := HandleSseEvent(next, code, currentEvent, data.value);
            next := d.rooms;
            if d.log.Some? {
              logs := logs + [d.log.value];
            }
          }
        }
        currentEvent, currentData := "", "";
      } else if StartsWith(line, "event: ") {
        currentEvent := line[7..];
      } else if StartsWith(line, "data: ") {
        currentData := line[6..];
      }
      i := i + 1;
    }
    assert lines[..i] == lines;
    remaining := if currentEvent != "" || currentData != "" then "event: " + currentEvent + "\ndata: " + currentData + "\n" else "";
  }
}
