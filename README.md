# gambiarra, modelled in Dafny

gambiarra lets people on a local network pool their LLM endpoints. A **hub** keeps
rooms in memory, each room holding participants (an id, a nickname, a
model, an OpenAI-compatible endpoint, machine specs, generation config,
a status and timestamps). The hub answers HTTP requests to create, list, join
and leave rooms, to send heartbeats and to list models. It forwards a
chat-completion request to the participant picked by a selector (`*`/`any`,
`model:X`, or an id then a model name). A periodic sweep marks silent
participants offline. Changes are pushed to watchers as Server-Sent
Events, optionally scoped to one room code. A terminal **dashboard** reads those
streams, turns each event into an update of its per-room state and an
activity-log line, and tracks which rooms it watches and which are connected.
The command-line client prints a one-line summary of a machine's specs.

The model is split by module:

- `CoreTypes` (types.dfy): the shared schemas: statuses, the participant and
  room records with their JSON encodings and decoders, and the two timing constants.
- `ParticipantOps` (participant.dfy): building a participant and merging a
  generation config.
- `RoomRegistry` (room.dfy): the registry. Its operations are functions over
  the rooms and the code index, and lemmas state their effect. A class
  `Registry` holds the two Maps as fields and changes them in place, each
  method proved against those functions.
- `EventBus` (sse.dfy): the set of open streams and `broadcast`. Delivery is
  scoped, and streams whose write fails are dropped.
- `HubHandlers` (hub.dfy): every request handler's ladder of error replies, the
  participant selector, the model list, the forwarded request body, and the
  sweep's `participant:offline` notices.
- `SseStream` (sse_stream.dfy) and `SseHook` (sse_hook.dfy): the dashboard's
  stream reader in its two copies (use-sse.ts and useSSE.ts). `SseStream`
  also holds the reconnect counter, and proves that whatever the hub
  broadcasts reads back as the same events.
- `Dashboard` (dashboard.dfy): the dashboard's state types and payload schemas,
  with round trips from the hub's payloads.
- `RoomsState` (rooms_state.dfy): the dashboard's room state of use-rooms.ts:
  the pure event reducers, the dispatch, the bounded activity log, adding and
  removing watched rooms, the stream parse and the connection state.
- `RoomsHook` (rooms_hook.dfy): the older copy useRooms.ts, proved to compute
  what `RoomsState` computes.
- `SpecsFormat` (specs.dfy): the CLI's `formatSpecs`.
- `Common`, `Keyed`, `Json`: helpers.
  - `Keyed` models a JavaScript `Map` as a sequence kept in insertion order
    with unique keys.
  - `Json` models a parsed JSON value. `JSON.stringify`/`JSON.parse` appear
    only as a `Codec` parameter that is assumed lawful (parse undoes stringify).
  - `Common` holds `split("\n")`, `join` and ASCII upper-casing.

Ids, room codes, the clock, the random draw, the password hash and its check,
and the upstream HTTP call are all supplied by the caller as parameters.

## Model

| member | source | states |
|---|---|---|
| CoreTypes.TimeoutIsThreeIntervals | packages/core/src/types.ts:15-17 | a participant times out after 30 s, three health-check intervals of 10 s |
| CoreTypes.ParseStatus | packages/core/src/types.ts:47 | only "online", "busy" and "offline" parse, each to its own status |
| CoreTypes.StatusRoundTrip | packages/core/src/types.ts:47 | every status's name parses back to that status |
| CoreTypes.DecodeShape | packages/core/src/types.ts:22-31 | `z.object(...)` accepts exactly an object whose every field passes its check, and keeps only the schema's keys, unchanged |
| CoreTypes.GenerationConfigBounds | packages/core/src/types.ts:22-31 | a generation config is accepted exactly when it is an object whose present fields have their types and bounds (temperature in [0, 2], top_p in [0, 1], `stop` an array of strings, ...); the empty object is accepted |
| CoreTypes.GenerationConfigExact | packages/core/src/types.ts:22-31 | decoding a config object gives it back unchanged exactly when it already is a generation config |
| CoreTypes.MachineSpecsExact | packages/core/src/types.ts:38-43 | decoding a specs object gives it back unchanged exactly when it already is machine specs |
| CoreTypes.EncodedFields | packages/core/src/types.ts:50-60 | every field of an encoded participant reads back as the participant's own, the status through its name |
| CoreTypes.ParticipantRoundTrip | packages/core/src/types.ts:50-60 | decoding an encoded participant gives it back exactly when it satisfies the schema |
| CoreTypes.DecodedParticipantValid | packages/core/src/types.ts:50-60 | whatever the participant schema accepts is schema-valid (URL endpoint, valid specs and config) |
| CoreTypes.ToPublicForgetsOnlyHash | packages/core/src/types.ts:64-75 | the public room keeps every field except the password hash |
| CoreTypes.EncodeRoom | packages/core/src/types.ts:74-79 | a public room encodes without a `passwordHash` key, and carries its code and name |
| CoreTypes.ParseNetworkConfig | packages/core/src/types.ts:91-96 | accepted exactly when a given port lies in [0, 65535]; supplied fields are kept as given, and missing ones take port 3000, host "127.0.0.1", mDNS off and no CORS origins |
| ParticipantOps.Create | packages/core/src/participant.ts:16-28 | a new participant is online, joined and last seen now, with absent specs and config as empty objects |
| ParticipantOps.CreateIsSchemaValid | packages/core/src/participant.ts:16-28 | a participant built from a URL endpoint and valid specs/config satisfies the participant schema |
| ParticipantOps.MergeConfig | packages/core/src/participant.ts:31-39 | every key of either side is present, and an override wins over the base |
| ParticipantOps.MergeEmpty | packages/core/src/participant.ts:31-39 | merging no overrides gives the base |
| ParticipantOps.MergeIdempotent | packages/core/src/participant.ts:31-39 | applying the same overrides twice is applying them once |
| ParticipantOps.MergeKeepsSchema | packages/core/src/participant.ts:31-39 | merging two valid configs gives a valid config |
| RoomRegistry.InfoOf | packages/core/src/room.ts:55-57 | a room is found by id exactly when one has that id, and it is that room |
| RoomRegistry.InfoByCode | packages/core/src/room.ts:59-62 | lookup by code goes through the upper-cased code, and an unindexed code finds nothing |
| RoomRegistry.ParticipantsIn | packages/core/src/room.ts:113-116 | an unknown room has no participants |
| RoomRegistry.ParticipantIn | packages/core/src/room.ts:118-123 | a found participant has the id asked for and is in the room; not found means no participant of the room has that id |
| RoomRegistry.NewRoomInfo | packages/core/src/room.ts:29-44 | the new room has the given id, name, host and time, the upper-cased code, and a hash exactly when a password was given |
| RoomRegistry.PutParticipant | packages/core/src/room.ts:94-102 | adding to an unknown room changes nothing, and the room count is kept |
| RoomRegistry.PutParticipantSpec | packages/core/src/room.ts:94-102 | after adding, the participant is found under its id, every other participant and every other room is unchanged, and ids stay unique |
| RoomRegistry.DropParticipant | packages/core/src/room.ts:104-111 | removing from an unknown room changes nothing, and the room count is kept |
| RoomRegistry.DropAbsent | packages/core/src/room.ts:104-111 | removing a participant who is not there changes nothing |
| RoomRegistry.DropParticipantSpec | packages/core/src/room.ts:104-111 | after removing, the participant is gone and every other participant and room is unchanged |
| RoomRegistry.CreateSpec | packages/core/src/room.ts:29-62 | a created room is found by id and by its code in any ASCII letter case, has no participants, and leaves other rooms as they were |
| RoomRegistry.RemoveSpec | packages/core/src/room.ts:83-92 | a removed room is found neither by id nor by code, and other rooms are unchanged |
| RoomRegistry.FirstServing | packages/core/src/room.ts:159-164 | the index found is that of the first online participant serving the model, and -1 exactly when there is none |
| RoomRegistry.FirstOnlineWithModel | packages/core/src/room.ts:150-165 | the participant found is online and serves the model, and none before it does; none found means no one online serves it |
| RoomRegistry.OnlineOf | packages/core/src/room.ts:175-177 | exactly the online participants, and no more than there are participants |
| RoomRegistry.PickOnline | packages/core/src/room.ts:167-183 | the draw returns an online participant of the room, and returns none only when no one is online |
| RoomRegistry.PickOnlineReachesAll | packages/core/src/room.ts:167-183 | every online participant is returned by some draw |
| RoomRegistry.StaleInMembership | packages/core/src/room.ts:185-199 | a room's report lists exactly its participants unseen for longer than the timeout, whatever their status, so an already-offline participant is reported again |
| RoomRegistry.SweepReportMembership | packages/core/src/room.ts:185-199 | the sweep reports exactly the stale participants of all rooms |
| RoomRegistry.SweepSpec | packages/core/src/room.ts:185-199 | after the sweep the stale ones are offline, the rest are unchanged, and the room infos and ids are kept |
| RoomRegistry.SweepRoom | packages/core/src/room.ts:190-195 | the loop over one room marks what the sweep function marks and reports what it reports |
| RoomRegistry.PasswordAccepts | packages/core/src/room.ts:206-227 | an unknown room refuses; a room without a hash accepts; otherwise an empty attempt is refused and the hash check decides |
| RoomRegistry.CreatedRoomPassword | packages/core/src/room.ts:43 | a room created without a password accepts anything; with one, only non-empty attempts that pass the hash check |
| RoomRegistry.Registry.constructor | packages/core/src/room.ts:21-22 | the registry starts with no rooms and an empty code index |
| RoomRegistry.Registry.Create | packages/core/src/room.ts:29-53 | the room is stored under its id and indexed under its upper-cased code; it is found by id and by code in any ASCII letter case |
| RoomRegistry.Registry.List | packages/core/src/room.ts:64-69 | one public room per stored room, in insertion order |
| RoomRegistry.Registry.ListWithParticipantCount | packages/core/src/room.ts:71-81 | each public room with the number of its participants, in insertion order |
| RoomRegistry.Registry.Remove | packages/core/src/room.ts:83-92 | true exactly when the room existed; then the room and its code are gone, otherwise nothing changes |
| RoomRegistry.Registry.AddParticipant | packages/core/src/room.ts:94-102 | true exactly when the room exists; the participant is then found under its id |
| RoomRegistry.Registry.RemoveParticipant | packages/core/src/room.ts:104-111 | true exactly when the participant was there; afterwards it is not |
| RoomRegistry.Registry.UpdateParticipantStatus | packages/core/src/room.ts:125-137 | false and nothing changed for an unknown participant; otherwise only its status changes |
| RoomRegistry.Registry.UpdateLastSeen | packages/core/src/room.ts:139-148 | false and nothing changed for an unknown participant; otherwise it is seen now and online |
| RoomRegistry.Registry.FindParticipantByModel | packages/core/src/room.ts:150-165 | the scan returns the first online participant serving the model |
| RoomRegistry.Registry.CheckStaleParticipants | packages/core/src/room.ts:185-199 | the in-place sweep leaves the rooms the sweep function computes and returns its report |
| RoomRegistry.Registry.Clear | packages/core/src/room.ts:201-204 | no rooms and an empty index afterwards |
| EventBus.MessageLines | packages/core/src/sse.ts:54-56 | a message is the `event:` line, the `data:` line and an empty line |
| EventBus.DeliverMembership | packages/core/src/sse.ts:58-70 | every stream a broadcast delivers to (skipped, or open and sent the message) is kept, and every stream kept comes from one of them |
| EventBus.DeliverUnique | packages/core/src/sse.ts:58-70 | a broadcast keeps client ids unique |
| EventBus.UnscopedReachesAll | packages/core/src/sse.ts:58-65 | an unscoped broadcast reaches every open stream |
| EventBus.ScopedStaysInRoom | packages/core/src/sse.ts:59-62 | a scoped broadcast leaves every stream of another room unchanged |
| EventBus.Bus.constructor | packages/core/src/sse.ts:11-12 | no streams at the start |
| EventBus.Bus.Connect | packages/core/src/sse.ts:17-30 | the stream is registered under its id with only the `connected` greeting sent; the count grows by one unless the id was already registered |
| EventBus.Bus.Cancel | packages/core/src/sse.ts:31-33 | the stream is unregistered, and the count drops by one if it was registered |
| EventBus.Bus.Broadcast | packages/core/src/sse.ts:49-71 | the loop that removes failing streams while iterating leaves exactly the delivered set |
| EventBus.Bus.CloseAll | packages/core/src/sse.ts:83-92 | no streams are left |
| EventBus.Bus.ClientCount | packages/core/src/sse.ts:76-78 | the number of registered streams, one per client id, as `clients.size` counts them |
| HubHandlers.ErrorReply | packages/core/src/hub.ts:31-33 | an error reply has the status given and the message under `error` |
| HubHandlers.EncodeSummary | packages/core/src/hub.ts:64-66 | a listed room carries no password hash |
| HubHandlers.RouteTiers | packages/core/src/hub.ts:226-247 | a selected participant is in the room; a wildcard fails only when no one is online; `model:X` is the first online server of X; an existing id wins over a model name; with no such id the selector is the first online server of that model name |
| HubHandlers.RouteOfflineOnlyById | packages/core/src/hub.ts:230-246 | a participant who is not online is selected only by its exact id |
| HubHandlers.Seconds | packages/core/src/hub.ts:175 | whole seconds, rounded down |
| HubHandlers.ModelEntries | packages/core/src/hub.ts:167-182 | one entry per online participant |
| HubHandlers.ModelEntriesSpec | packages/core/src/hub.ts:161-186 | every entry names an online participant by id, owner and join second, and every online participant has one |
| HubHandlers.ForwardFor | packages/core/src/hub.ts:269-282 | the forwarded body has the request's keys plus `model`, which is the participant's model; other fields pass unchanged |
| HubHandlers.OfflineNoticesAll | packages/core/src/hub.ts:380-388 | one `participant:offline` notice per stale pair, in order, scoped to the room's stored code |
| HubHandlers.ReportedRoomExists | packages/core/src/hub.ts:381-386 | every pair the sweep reports names a room that exists, so none is skipped |
| HubHandlers.SweepStructure | packages/core/src/hub.ts:380-388 | the sweep changes no room info |
| HubHandlers.ScopeIsCaseSensitive | packages/core/src/sse.ts:60 | for every typed code that upper-cases to a stream's stored code without equalling it, an event scoped by the typed code misses that stream |
| HubHandlers.Hub.CreateRoom | packages/core/src/hub.ts:47-62 | no name gives 400 with nothing changed; otherwise the room is created, announced to every stream without its hash, and returned with 201 |
| HubHandlers.Hub.ListRooms | packages/core/src/hub.ts:64-66 | 200 with one summary per room, in insertion order |
| HubHandlers.Hub.JoinRoom | packages/core/src/hub.ts:68-115 | 404, then 400 for a missing field, then 401 for a refused password, each with nothing changed; otherwise the participant is added and announced to the room |
| HubHandlers.Hub.LeaveRoom | packages/core/src/hub.ts:117-131 | 404 for an unknown room or participant with nothing changed; otherwise removed and announced |
| HubHandlers.Hub.HealthCheck | packages/core/src/hub.ts:133-150 | 404, 400 or 404 with nothing changed; otherwise the participant is seen now and online, and nothing is broadcast |
| HubHandlers.Hub.GetParticipants | packages/core/src/hub.ts:152-159 | 404 for an unknown room; otherwise every participant encoded, in join order |
| HubHandlers.Hub.ListModels | packages/core/src/hub.ts:161-186 | 404 for an unknown room; otherwise a `list` of the online participants' entries |
| HubHandlers.Hub.FindParticipant | packages/core/src/hub.ts:226-247 | the registry calls select what the selector function selects |
| HubHandlers.Hub.ProxyChatCompletions | packages/core/src/hub.ts:249-305 | 404, a thrown error for a missing model, 404 for no one selected and 503 for an offline choice, each sending nothing; otherwise `llm:request` is announced, the rewritten body is sent and a failure becomes `llm:error` with 502 |
| HubHandlers.Hub.Events | packages/core/src/hub.ts:308-316 | 404 for an unknown room; otherwise a stream is registered for the code as given |
| HubHandlers.Hub.StaleSweep | packages/core/src/hub.ts:380-388 | the sweep's rooms are stored and each report is broadcast in order as its room's offline notice |
| HubHandlers.SweepAnnouncesEachStale | packages/core/src/hub.ts:380-388 | every participant the sweep finds stale is announced, scoped to its room's code |
| SseStream.TryParseEvent | apps/tui/src/hooks/use-sse.ts:141-153 | an event comes out exactly when both fields are set and the data parses, and it carries them |
| SseStream.BuildRemainingBuffer | apps/tui/src/hooks/use-sse.ts:155-164 | empty exactly when nothing is pending; a pending event name comes first as its `event:` line |
| SseStream.Parse | apps/tui/src/hooks/use-sse.ts:166-193 | every event read has a name |
| SseStream.ParseSseBuffer | apps/tui/src/hooks/use-sse.ts:166-193 | the line loop computes the parse function |
| SseStream.BlankLineEndsBlock | apps/tui/src/hooks/use-sse.ts:174-182 | an empty line clears both pending fields and emits at most the pending event |
| SseStream.LastLineWins | apps/tui/src/hooks/use-sse.ts:184-188 | within a block, the last `event:` and the last `data:` line win and nothing is emitted |
| SseStream.RemainingRestoresPending | apps/tui/src/hooks/use-sse.ts:191 | reading the returned buffer back restores the pending fields |
| SseStream.StreamRoundTrip | apps/tui/src/hooks/use-sse.ts:166-193 | any sequence of hub broadcasts reads back as the same events, with nothing left over |
| SseStream.MessageRoundTrip | apps/tui/src/hooks/use-sse.ts:166-193 | one broadcast message reads back as exactly its event |
| SseStream.AfterFailure | apps/tui/src/hooks/use-sse.ts:98-110 | an abort never retries; otherwise a retry is scheduled, and counted, exactly while fewer than 10 have been |
| SseStream.RetriesCapped | apps/tui/src/hooks/use-sse.ts:106-109 | between two successful connections at most 10 retries are scheduled |
| SseStream.Connection.Opened | apps/tui/src/hooks/use-sse.ts:92 | connected, and the retry counter starts over |
| SseStream.Connection.Failed | apps/tui/src/hooks/use-sse.ts:98-110 | the counter and the retry follow the failure rule, and the connection is down unless aborted |
| SseStream.Connection.Reconnect | apps/tui/src/hooks/use-sse.ts:113-116 | the counter starts over |
| SseHook.ParseSseBuffer | apps/tui/src/hooks/useSSE.ts:133-181 | the older reader returns what the use-sse.ts reader returns on every buffer |
| Dashboard.DecodeRoomCreated | apps/tui/src/types.ts:59-62 | accepted exactly when `code` and `name` are strings, and carries them |
| Dashboard.DecodeParticipantId | apps/tui/src/types.ts:66-72 | accepted exactly when `participantId` is a string, and carries it |
| Dashboard.DecodeLlmRequest | apps/tui/src/types.ts:74-77 | accepted exactly when `participantId` and `model` are strings, and carries them |
| Dashboard.DecodeLlmError | apps/tui/src/types.ts:84-87 | accepted exactly when `participantId` and `error` are strings, and carries them |
| Dashboard.OptionalNumber | apps/tui/src/types.ts:27-29 | an absent field is accepted as absent, and a present one only if it is a number, whose value is kept |
| Dashboard.DecodeLogMetrics | apps/tui/src/types.ts:26-30 | accepted exactly when it is an object whose listed fields, where present, are numbers; each decoded field is absent or holds exactly the object's number |
| Dashboard.DecodeLlmComplete | apps/tui/src/types.ts:79-82 | accepted exactly when `participantId` is a string and `metrics` is absent or valid metrics; the decoded id is that string and the decoded metrics are absent or those metrics |
| Dashboard.ParticipantIdRoundTrip | apps/tui/src/types.ts:66-72 | the hub's `participant:left`/`offline` payload decodes to its id |
| Dashboard.LlmRequestRoundTrip | apps/tui/src/types.ts:74-77 | the hub's `llm:request` payload decodes to its id and model |
| Dashboard.LlmErrorRoundTrip | apps/tui/src/types.ts:84-87 | the hub's `llm:error` payload decodes to its id and error |
| Dashboard.RoomCreatedRoundTrip | apps/tui/src/types.ts:59-62 | the hub's `room:created` payload decodes to the room's code and name |
| RoomsState.HandleConnectedEvent | apps/tui/src/hooks/use-rooms.ts:53-55 | the room becomes connected, nothing else changes, nothing is logged |
| RoomsState.HandleRoomCreatedEvent | apps/tui/src/hooks/use-rooms.ts:57-67 | the name is taken only from a valid payload for this room's code |
| RoomsState.HandleParticipantJoinedEvent | apps/tui/src/hooks/use-rooms.ts:69-89 | a valid participant is stored under its id, others unchanged, and a join is logged; an invalid payload changes nothing |
| RoomsState.HandleParticipantLeftEvent | apps/tui/src/hooks/use-rooms.ts:91-114 | the id is deleted, others unchanged; a leave is logged only for a known participant |
| RoomsState.LeftEventRemoves | apps/tui/src/hooks/use-rooms.ts:91-114 | after the hub's leave payload the participant is absent and ids stay unique |
| RoomsState.HandleParticipantOfflineEvent | apps/tui/src/hooks/use-rooms.ts:116-140 | a known participant is marked offline and logged; an unknown one changes and logs nothing |
| RoomsState.HandleLlmRequestEvent | apps/tui/src/hooks/use-rooms.ts:142-168 | the participant is added to the in-flight set and, when known, marked busy; a request is logged |
| RoomsState.RequestArrowGarbled | apps/tui/src/hooks/use-rooms.ts:165 | the message as written differs from the intended one, and its arrow is the UTF-8 bytes of U+2192 read as Windows-1252 |
| RoomsState.RequestMessage | apps/tui/src/hooks/useRooms.ts:199 | the request line is "req → ", the participant's name, then the model in parentheses |
| RoomsState.HandleLlmCompleteEvent | apps/tui/src/hooks/use-rooms.ts:170-196 | the participant leaves the in-flight set and, when known, is online again; the metrics are logged |
| RoomsState.HandleLlmErrorEvent | apps/tui/src/hooks/use-rooms.ts:198-223 | the participant leaves the in-flight set and, when known, is online again; the error is logged |
| RoomsState.Handle | apps/tui/src/hooks/use-rooms.ts:312-324 | a reducer runs exactly for the eight listed event names, and keeps the room's code |
| RoomsState.HandleSseEventAsWritten | apps/tui/src/hooks/use-rooms.ts:326-333 | the lookup as written breaks the room's entry exactly for inherited `Object.prototype` names |
| RoomsState.AsWrittenAgreesOffPrototype | apps/tui/src/hooks/use-rooms.ts:326-333 | off the inherited names, the lookup as written equals the corrected one |
| RoomsState.InheritedNameLosesRoom | apps/tui/src/hooks/use-rooms.ts:326-333 | `toString` passes the guard and loses the room as written; corrected, it changes nothing |
| RoomsState.HandleSseEvent | apps/tui/src/hooks/use-rooms.ts:304-344 | an unknown room or event changes nothing; otherwise only that room's entry becomes the reducer's result, and its log action is returned |
| RoomsState.PendingBlock | apps/tui/src/hooks/use-rooms.ts:255-258 | the pending block is empty exactly when nothing is pending |
| RoomsState.PendingFormsAgree | apps/tui/src/hooks/use-rooms.ts:255-258 | this reader's pending block equals use-sse.ts's exactly when both fields or neither are set |
| RoomsState.ParseSseBuffer | apps/tui/src/hooks/use-rooms.ts:231-261 | the loop computes the parse function, with the same events as use-sse.ts's reader |
| RoomsState.StreamRoundTripBothLines | apps/tui/src/hooks/use-rooms.ts:231-261 | whatever the hub broadcasts reads back through this reader as the same events |
| RoomsState.PendingBlockRestores | apps/tui/src/hooks/use-rooms.ts:231-261 | reading the pending block back restores both fields |
| RoomsState.ApplyEvents | apps/tui/src/hooks/use-rooms.ts:396-409 | applying events keeps the watched rooms and their codes, and logs at most one action per event |
| RoomsState.EventsStayInTheirRoom | apps/tui/src/hooks/use-rooms.ts:396-409 | a room's stream changes no other room |
| RoomsState.ProcessChunk | apps/tui/src/hooks/use-rooms.ts:396-409 | a chunk's pass applies the events parsed from buffer plus chunk and keeps the pending block |
| RoomsState.AppendLog | apps/tui/src/hooks/use-rooms.ts:292-297 | the new entry is last and only the newest 100 are kept |
| RoomsState.AddLog | apps/tui/src/hooks/use-rooms.ts:274-302 | only the room's log changes, gaining the new entry with the room's code (useRooms.ts lines 50-78 are the same code) |
| RoomsState.LogsStayBounded | apps/tui/src/hooks/use-rooms.ts:274-302 | no room's log ever exceeds 100 entries |
| RoomsState.AddRoom | apps/tui/src/hooks/use-rooms.ts:475-502 | a watched code changes nothing; a new one is appended empty and disconnected, and becomes active if none is (useRooms.ts lines 413-440 are the same code) |
| RoomsState.AddRoomIdempotent | apps/tui/src/hooks/use-rooms.ts:475-502 | adding a room twice is adding it once |
| RoomsState.AddRoomUnique | apps/tui/src/hooks/use-rooms.ts:475-502 | adding keeps codes unique |
| RoomsState.AddRoomDisconnects | apps/tui/src/hooks/use-rooms.ts:475-502 | after adding a new room, not all rooms are connected |
| RoomsState.RemoveRoom | apps/tui/src/hooks/use-rooms.ts:504-537 | the room is deleted, and the active room changes only if it was the one removed (useRooms.ts lines 442-475 are the same code) |
| RoomsState.WithoutIsDelete | apps/tui/src/hooks/use-rooms.ts:504-537 | filtering out the code lists the codes of the rooms left, in order |
| RoomsState.RemoveActiveRoom | apps/tui/src/hooks/use-rooms.ts:504-537 | removing the active room makes the first room left active, or none |
| RoomsState.ConnectedEventCompletes | apps/tui/src/hooks/use-rooms.ts:565-566 | the `connected` event of the last disconnected room makes every room connected |
| RoomsState.MarkDisconnected | apps/tui/src/hooks/use-rooms.ts:414-424 | only that room's `connected` is cleared; an unknown room changes nothing (the error path at useRooms.ts lines 391-399 is the same update) |
| RoomsState.DisconnectClearsAllConnected | apps/tui/src/hooks/use-rooms.ts:414-424 | a failed watched room clears `allConnected` |
| RoomsHook.SwitchCase | apps/tui/src/hooks/useRooms.ts:90-266 | each inline `case` writes back the room and logs the action that the matching use-rooms.ts reducer returns; an unlisted event name is no case |
| RoomsHook.HandleSseEvent | apps/tui/src/hooks/useRooms.ts:80-272 | the inline `switch` computes what the use-rooms.ts reducers and dispatch compute |
| RoomsHook.ReadChunk | apps/tui/src/hooks/useRooms.ts:348-385 | applying each block as it ends gives what parsing first and then applying gives |
| SpecsFormat.FormatSpecs | packages/cli/src/utils/specs.ts:138-149 | the pushed-and-joined parts are CPU and RAM, then GPU and VRAM when set |
| SpecsFormat.SpecsLineStartsWithCpuRam | packages/cli/src/utils/specs.ts:139 | the summary always opens with the CPU and the RAM |
| SpecsFormat.SpecsLineLength | packages/cli/src/utils/specs.ts:141-146 | the GPU part is there exactly when a GPU is named, and the VRAM part exactly when the VRAM is non-zero |
| SpecsFormat.FalsyPartsOmitted | packages/cli/src/utils/specs.ts:141-146 | an empty GPU name and a zero VRAM read as unknown |

`Registry.Get`, `GetByCode`, `GetParticipants`, `GetParticipant`,
`GetRandomOnlineParticipant` and `ValidatePassword` (room.ts:55-62, 113-123,
167-183, 206-227) read the fields through `InfoOf`, `InfoByCode`,
`ParticipantsIn`, `ParticipantIn`, `PickOnline` and `PasswordAccepts`,
whose contracts are listed above. The dashboard's `allConnected`
(apps/tui/src/hooks/use-rooms.ts:565-566) is the predicate
`RoomsState.AllConnected`: at least one room, and every room connected. Its
behaviour is stated by `AddRoomDisconnects`, `ConnectedEventCompletes` and
`DisconnectClearsAllConnected` above.

## Left out

- HTTP serving, URL routing, CORS, `hubHealth` and the `Bun.serve` wiring (hub.ts:318-362, 389 onward). Each handler is modelled on already-parsed inputs, and every body field is assumed to have its declared TypeScript type: a non-string `id` that hub.ts:48, 74-82 or 139 would store as cast, or a wrongly typed field that the zod schema of types.ts:91-96 would reject, cannot be written in the model.
- mDNS publishing, the CLI commands, the SDK and the participant-side server. They are I/O around the core.
- Bun's bcrypt hashing and verification. They appear as `hashed` and `verify` parameters.
- `nanoid`, `crypto.randomUUID`, `Math.random` and `Date.now`. Ids, codes, the draw `pick` and the clock `now` are parameters.
- The upstream `fetch` and the streaming of its body. The outcome is a parameter `upstream`, and a streamed answer is `StreamReply(status)`.
- Timers: the sweep interval, the reconnect delay and `setTimeout`/`clearTimeout`.
- React state wiring: `setRooms` batching, `useCallback` staleness, abort controllers and effects.
- `fetchParticipants` and `refreshRoom` in the dashboard hooks. They are HTTP fetches that replace a room's participants.
- `connectToRoom`'s reconnection timer in use-rooms.ts/useRooms.ts.
- use-room.ts and useRoom.ts, the single-room hooks. They are outside this model.
- The `detect*` functions of specs.ts. They query the operating system.
- JSON text itself. `JSON.stringify`/`JSON.parse` are a lawful `Codec` parameter, and a `TextDecoder` chunk is a string.
- SseStream.Parse and RoomsState.ParseSseBuffer: chunk splitting is modelled as written by RoomsState.ProcessChunk, RoomsHook.ReadChunk and the buffer they keep, including the loss of an event whose `data:` line is split, since the pending block gets a `\n` appended (use-sse.ts:155-163, use-rooms.ts:255-258). The round trip is proved only for whole messages; nothing is proved about arbitrary splits of the stream.
- SpecsFormat.FormatSpecs and HubHandlers.Seconds: JavaScript number-to-string conversion is a parameter `show`. Numbers are reals, so NaN, infinities and -0 are not modelled.
- CoreTypes.IsUrl: zod's URL check is reduced to its first requirement, a scheme (an ASCII letter, then letters, digits, `+`, `-` or `.`) followed by a colon. Strings such as `mailto:x` and `http:` pass, and no host, path or percent-encoding is checked.
- RoomRegistry.InfoByCode, RoomRegistry.Registry.GetByCode and RoomRegistry.Registry.Create: `toUpperCase` (room.ts:35, room.ts:60) is modelled as `Common.Upper`, which maps only the ASCII letters a-z. JavaScript's full Unicode mapping is not modelled, so a typed code such as `ſ2k9qx` (long s), `ı` (dotless i) or `ß` (which becomes `SS`) finds a room in the source but not in the model; for the codes `nanoid` draws (ASCII letters, digits, `_` and `-`) and for any ASCII code typed back, the two agree.
- RoomRegistry.Registry.Create: the source does not check for a code collision. A second room drawing an existing code overwrites that code's index entry, as the model does, but the model does not prove anything about the earlier room's reachability.
- EventBus.Bus.Break: it stands for a stream that fails from outside. The source has no such call, but a broken stream's next write throws.
- The hub never emits `llm:complete` and never sets a participant `busy`. The dashboard's reducers for them are modelled as written, and no lemma links them to the hub.
- RoomsState.HandleLlmCompleteEvent: the `LogMetrics` type of use-rooms.ts lists only two of the three fields. The reducer passes the decoded metrics through unchanged, so the model uses the schema of apps/tui/src/types.ts.

## Findings

| source | as written | input that shows it | evidently intended | confidence | as-written member | corrected member |
|---|---|---|---|---|---|---|
| apps/tui/src/hooks/use-rooms.ts:165 | the request log line's arrow is the mojibake "â†’", the UTF-8 bytes of "→" read as Windows-1252 | any `llm:request` event | "req → name (model)", as the older copy useRooms.ts:199 writes it | high, not executed | RoomsState.RequestArrowGarbled | RoomsState.RequestMessage |
| apps/tui/src/hooks/use-rooms.ts:326-333 | `handlers[event]` on an object literal also finds inherited `Object.prototype` members, so `!handler` lets them through | event `toString` for a watched room: the "handler" returns a string, `result.room` is undefined and the room's Map entry is set to undefined | an unknown event returns the previous map, as the `switch` of useRooms.ts does | medium, not executed | RoomsState.InheritedNameLosesRoom | RoomsState.HandleSseEvent |
