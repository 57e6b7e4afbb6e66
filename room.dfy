/** The in-memory room registry: rooms keyed by id (insertion order kept),
    a code-to-id index, and each room's participants keyed by id.

    The first half of the module is the registry as values: what each
    operation computes from the rooms and the code index, with lemmas about
    it. The class `Registry` at the end holds the two Maps as fields and
    performs the operations in place, each proved against those functions. */
module RoomRegistry {
  import opened Common
  import opened Json
  import opened Keyed
  import opened CoreTypes

  datatype RoomState = RoomState(info: RoomInfo, participants: seq<Participant>)

  /** One participant found stale by a sweep. */
  datatype StaleEntry = StaleEntry(roomId: string, participantId: string)

  /** A public room with the number of its participants. */
  datatype RoomSummary = RoomSummary(room: RoomInfoPublic, participantCount: nat)

  function RoomKey(r: RoomState): string {
    r.info.id
  }

  /** Room ids are unique, and participant ids are unique within each room. */
  ghost predicate WellFormed(rooms: seq<RoomState>) {
    && UniqueKeys(rooms, RoomKey)
    && forall i :: 0 <= i < |rooms| ==> UniqueKeys(rooms[i].participants, ParticipantKey)
  }

  // ----- Lookups ------------------------------------------------------------

  /** `rooms.get(id)?.info` */
  function InfoOf(rooms: seq<RoomState>, id: string): (r: Option<RoomInfo>)
    ensures r.Some? <==> Has(rooms, RoomKey, id)
    ensures r.Some? ==> r.value.id == id
  {
    match Get(rooms, RoomKey, id)
    case None => None
    case Some(room) => Some(room.info)
  }

  /** `getByCode`: the code is upper-cased, and an empty id in the index finds nothing. */
  function InfoByCode(rooms: seq<RoomState>, codes: map<string, string>, code: string): (r: Option<RoomInfo>)
    ensures r.Some? ==> Upper(code) in codes && codes[Upper(code)] != "" && r == InfoOf(rooms, codes[Upper(code)])
    ensures Upper(code) !in codes ==> r.None?
  {
    var u := Upper(code);
    if u in codes && codes[u] != "" then InfoOf(rooms, codes[u]) else None
  }

  /** `getParticipants`: the room's participants in join order, or none for an unknown room. */
  function ParticipantsIn(rooms: seq<RoomState>, roomId: string): (r: seq<Participant>)
    ensures !Has(rooms, RoomKey, roomId) ==> r == []
  {
    match Get(rooms, RoomKey, roomId)
    case None => []
    case Some(room) => room.participants
  }

  /** `rooms.get(roomId)?.participants.get(participantId)` */
  function ParticipantIn(rooms: seq<RoomState>, roomId: string, participantId: string): (r: Option<Participant>)
    ensures r.Some? ==> r.value.id == participantId && r.value in ParticipantsIn(rooms, roomId)
    ensures r.None? ==> forall p :: p in ParticipantsIn(rooms, roomId) ==> p.id != participantId
  {
    var ps := ParticipantsIn(rooms, roomId);
    var r := Get(ps, ParticipantKey, participantId);
    if r.None? then
      assert forall i :: 0 <= i < |ps| ==> ps[i].id != participantId;
      r
    else r
  }

  // ----- Updates ------------------------------------------------------------

  /** The room info `create` builds: the code is upper-cased, and a password
      is stored as its hash only when it is non-empty. The id, the raw code,
      the clock and the hash are supplied by the caller. */
  function NewRoomInfo(name: string, hostId: string, password: string, id: string,
                       rawCode: string, now: real, hashed: string): (r: RoomInfo)
    ensures r.id == id && r.name == name && r.hostId == hostId && r.createdAt == now
    ensures r.code == Upper(rawCode)
    ensures r.passwordHash.Some? <==> password != ""
  {
    RoomInfo(id, Upper(rawCode), name, hostId, now, if password != "" then Some(hashed) else None)
  }

  /** `room.participants.set(p.id, p)` on the room `roomId`, if it exists. */
  function PutParticipant(rooms: seq<RoomState>, roomId: string, p: Participant): (r: seq<RoomState>)
    ensures |r| == |rooms|
    ensures !Has(rooms, RoomKey, roomId) ==> r == rooms
  {
    match Get(rooms, RoomKey, roomId)
    case None => rooms
    case Some(room) => Set(rooms, RoomKey, room.(participants := Set(room.participants, ParticipantKey, p)))
  }

  /** `room.participants.delete(participantId)` on the room `roomId`, if it exists. */
  function DropParticipant(rooms: seq<RoomState>, roomId: string, participantId: string): (r: seq<RoomState>)
    ensures |r| == |rooms|
    ensures !Has(rooms, RoomKey, roomId) ==> r == rooms
  {
    match Get(rooms, RoomKey, roomId)
    case None => rooms
    case Some(room) => Set(rooms, RoomKey, room.(participants := Delete(room.participants, ParticipantKey, participantId)))
  }

  /** Removing a participant that is not there changes nothing. */
  lemma DropAbsent(rooms: seq<RoomState>, roomId: string, participantId: string)
    requires ParticipantIn(rooms, roomId, participantId).None?
    ensures DropParticipant(rooms, roomId, participantId) == rooms
  {
    if Has(rooms, RoomKey, roomId) {
      var i := IndexOf(rooms, RoomKey, roomId);
      var room := rooms[i];
      assert Delete(room.participants, ParticipantKey, participantId) == room.participants;
      assert room.(participants := room.participants) == room;
    }
  }

  /** Creating a room makes it reachable by id and by its code in either letter
      case, with no participants, and leaves every other room as it was. */
  lemma CreateSpec(rooms: seq<RoomState>, codes: map<string, string>, info: RoomInfo)
    requires WellFormed(rooms)
    requires info.id != ""
    ensures WellFormed(Set(rooms, RoomKey, RoomState(info, [])))
    ensures InfoOf(Set(rooms, RoomKey, RoomState(info, [])), info.id) == Some(info)
    ensures ParticipantsIn(Set(rooms, RoomKey, RoomState(info, [])), info.id) == []
    ensures forall c :: Upper(c) == Upper(info.code) ==>
      InfoByCode(Set(rooms, RoomKey, RoomState(info, [])), codes[Upper(info.code) := info.id], c) == Some(info)
    ensures forall id :: id != info.id ==>
      InfoOf(Set(rooms, RoomKey, RoomState(info, [])), id) == InfoOf(rooms, id)
  {
    var room := RoomState(info, []);
    var r := Set(rooms, RoomKey, room);
    SetSpec(rooms, RoomKey, room);
    assert Get(r, RoomKey, info.id) == Some(room);
    forall i | 0 <= i < |r|
      ensures UniqueKeys(r[i].participants, ParticipantKey)
    {
      if r[i] != room {
        assert r[i] in rooms;
      }
    }
  }

  /** Removing an existing room makes it unreachable by id and by its code, and
      leaves every other room as it was. */
  lemma RemoveSpec(rooms: seq<RoomState>, codes: map<string, string>, id: string)
    requires WellFormed(rooms)
    requires Has(rooms, RoomKey, id)
    ensures WellFormed(Delete(rooms, RoomKey, id))
    ensures InfoOf(Delete(rooms, RoomKey, id), id).None?
    ensures ParticipantsIn(Delete(rooms, RoomKey, id), id) == []
    ensures forall c :: Upper(c) == InfoOf(rooms, id).value.code ==>
      InfoByCode(Delete(rooms, RoomKey, id), codes - {InfoOf(rooms, id).value.code}, c).None?
    ensures forall id' :: id' != id ==> InfoOf(Delete(rooms, RoomKey, id), id') == InfoOf(rooms, id')
  {
    var r := Delete(rooms, RoomKey, id);
    DeleteSpec(rooms, RoomKey, id);
    var i := IndexOf(rooms, RoomKey, id);
    assert forall j :: 0 <= j < |r| ==> r[j] == if j < i then rooms[j] else rooms[j + 1];
  }

  /** Replacing a room by one with the same info and unique participant ids
      keeps the registry well formed and changes only that room's participants. */
  lemma {:induction false} ReplaceRoomSpec(rooms: seq<RoomState>, room': RoomState)
    requires WellFormed(rooms)
    requires Has(rooms, RoomKey, RoomKey(room'))
    requires Get(rooms, RoomKey, RoomKey(room')).value.info == room'.info
    requires UniqueKeys(room'.participants, ParticipantKey)
    ensures WellFormed(Set(rooms, RoomKey, room'))
    ensures ParticipantsIn(Set(rooms, RoomKey, room'), room'.info.id) == room'.participants
    ensures forall id :: id != room'.info.id ==> ParticipantsIn(Set(rooms, RoomKey, room'), id) == ParticipantsIn(rooms, id)
    ensures forall id :: InfoOf(Set(rooms, RoomKey, room'), id) == InfoOf(rooms, id)
  {
    var k := IndexOf(rooms, RoomKey, room'.info.id);
    var r := Set(rooms, RoomKey, room');
    assert r == rooms[k := room'];
    SetSpec(rooms, RoomKey, room');
    forall i | 0 <= i < |r|
      ensures UniqueKeys(r[i].participants, ParticipantKey)
    {
      if i != k {
        assert r[i] == rooms[i];
      }
    }
    forall id
      ensures InfoOf(r, id) == InfoOf(rooms, id)
    {
      if id == room'.info.id {
        assert InfoOf(r, id) == Some(room'.info);
      }
    }
  }

  /** Adding (or replacing) a participant makes it the room's entry for its id,
      keeps every other participant and every other room, and appends exactly
      when the id is new. */
  lemma {:induction false} PutParticipantSpec(rooms: seq<RoomState>, roomId: string, p: Participant)
    requires WellFormed(rooms)
    requires Has(rooms, RoomKey, roomId)
    ensures WellFormed(PutParticipant(rooms, roomId, p))
    ensures ParticipantIn(PutParticipant(rooms, roomId, p), roomId, p.id) == Some(p)
    ensures forall pid :: pid != p.id ==>
      ParticipantIn(PutParticipant(rooms, roomId, p), roomId, pid) == ParticipantIn(rooms, roomId, pid)
    ensures |ParticipantsIn(PutParticipant(rooms, roomId, p), roomId)| ==
      |ParticipantsIn(rooms, roomId)| + (if ParticipantIn(rooms, roomId, p.id).Some? then 0 else 1)
    ensures forall id :: id != roomId ==>
      ParticipantsIn(PutParticipant(rooms, roomId, p), id) == ParticipantsIn(rooms, id)
    ensures forall id :: InfoOf(PutParticipant(rooms, roomId, p), id) == InfoOf(rooms, id)
  {
    var k := IndexOf(rooms, RoomKey, roomId);
    var room := Get(rooms, RoomKey, roomId).value;
    assert room == rooms[k];
    var room' := room.(participants := Set(room.participants, ParticipantKey, p));
    SetSpec(room.participants, ParticipantKey, p);
    ReplaceRoomSpec(rooms, room');
  }


  /** Removing a participant makes its id absent from the room, keeps every
      other participant and every other room. */
  lemma {:induction false} DropParticipantSpec(rooms: seq<RoomState>, roomId: string, participantId: string)
    requires WellFormed(rooms)
    requires Has(rooms, RoomKey, roomId)
    ensures WellFormed(DropParticipant(rooms, roomId, participantId))
    ensures ParticipantIn(DropParticipant(rooms, roomId, participantId), roomId, participantId).None?
    ensures forall pid :: pid != participantId ==>
      ParticipantIn(DropParticipant(rooms, roomId, participantId), roomId, pid) == ParticipantIn(rooms, roomId, pid)
    ensures forall id :: id != roomId ==>
      ParticipantsIn(DropParticipant(rooms, roomId, participantId), id) == ParticipantsIn(rooms, id)
    ensures forall id :: InfoOf(DropParticipant(rooms, roomId, participantId), id) == InfoOf(rooms, id)
  {
    var k := IndexOf(rooms, RoomKey, roomId);
    var room := Get(rooms, RoomKey, roomId).value;
    assert room == rooms[k];
    var room' := room.(participants := Delete(room.participants, ParticipantKey, participantId));
    DeleteSpec(room.participants, ParticipantKey, participantId);
    ReplaceRoomSpec(rooms, room');
  }


  // ----- Selection ----------------------------------------------------------

  predicate Serves(p: Participant, model: string) {
    p.model == model && p.status == Online
  }

  /** Position of the first participant, in join order, that serves `model` and
      is online; -1 when there is none. */
  function FirstServing(ps: seq<Participant>, model: string): (k: int)
    ensures -1 <= k < |ps|
    ensures k >= 0 ==> Serves(ps[k], model) && forall j :: 0 <= j < k ==> !Serves(ps[j], model)
    ensures k == -1 <==> forall j :: 0 <= j < |ps| ==> !Serves(ps[j], model)
  {
    if |ps| == 0 then -1
    else if Serves(ps[0], model) then 0
    else
      var k := FirstServing(ps[1..], model);
      if k == -1 then -1 else k + 1
  }

  /** The first participant, in join order, that serves `model` and is online. */
  function FirstOnlineWithModel(ps: seq<Participant>, model: string): (r: Option<Participant>)
    ensures r.Some? ==> r.value in ps && Serves(r.value, model)
    ensures r.None? <==> forall j :: 0 <= j < |ps| ==> !Serves(ps[j], model)
  {
    var k := FirstServing(ps, model);
    if k < 0 then None else Some(ps[k])
  }

  /** The first serving position is what `FirstServing` finds. */
  lemma IndexOfFirst(ps: seq<Participant>, model: string, i: int)
    requires 0 <= i < |ps| && Serves(ps[i], model)
    requires forall j :: 0 <= j < i ==> !Serves(ps[j], model)
    ensures FirstServing(ps, model) == i
  {
  }

  /** `participants.filter(p => p.status === "online")` */
  function OnlineOf(ps: seq<Participant>): (r: seq<Participant>)
    ensures |r| <= |ps|
    ensures forall p :: p in r <==> p in ps && p.status == Online
  {
    if |ps| == 0 then []
    else if ps[0].status == Online then [ps[0]] + OnlineOf(ps[1..])
    else OnlineOf(ps[1..])
  }

  /** `online[Math.floor(Math.random() * online.length)]`, the random draw
      supplied as `pick`. */
  function PickOnline(ps: seq<Participant>, pick: nat): (r: Option<Participant>)
    ensures r.None? <==> forall p :: p in ps ==> p.status != Online
    ensures r.Some? ==> r.value in ps && r.value.status == Online
  {
    var online := OnlineOf(ps);
    if |online| == 0 then None
    else
      assert online[pick % |online|] in online;
      Some(online[pick % |online|])
  }

  function OnlineIndex(online: seq<Participant>, p: Participant): (k: nat)
    requires p in online
    ensures k < |online| && online[k] == p
  {
    if online[0] == p then 0 else 1 + OnlineIndex(online[1..], p)
  }

  /** Every online participant is picked by some draw. */
  lemma {:induction false} PickOnlineReachesAll(ps: seq<Participant>, p: Participant)
    requires p in ps && p.status == Online
    ensures exists pick: nat :: PickOnline(ps, pick) == Some(p)
  {
    var online := OnlineOf(ps);
    assert p in online;
    var k := OnlineIndex(online, p);
    ModBelow(k, |online|);
    assert PickOnline(ps, k) == Some(p);
  }

  lemma ModBelow(k: nat, n: nat)
    requires k < n
    ensures k % n == k
  {
  }

  // ----- Liveness sweep -----------------------------------------------------

  /** No heartbeat for longer than the timeout. */
  predicate IsStale(p: Participant, now: real) {
    now - p.lastSeen > PARTICIPANT_TIMEOUT as real
  }

  function MarkStale(p: Participant, now: real): Participant {
    if IsStale(p, now) then p.(status := Offline) else p
  }

  /** The participants after a sweep: stale ones are offline, nothing else changes. */
  function SweepParticipants(ps: seq<Participant>, now: real): (r: seq<Participant>)
    ensures |r| == |ps|
  {
    seq(|ps|, i requires 0 <= i < |ps| => MarkStale(ps[i], now))
  }

  function SweepRooms(rooms: seq<RoomState>, now: real): (r: seq<RoomState>)
    ensures |r| == |rooms|
  {
    seq(|rooms|, i requires 0 <= i < |rooms| =>
      rooms[i].(participants := SweepParticipants(rooms[i].participants, now)))
  }

  /** The stale participants of one room, in join order. */
  function StaleIn(roomId: string, ps: seq<Participant>, now: real): seq<StaleEntry> {
    if |ps| == 0 then []
    else
      StaleIn(roomId, ps[..|ps| - 1], now)
        + (if IsStale(ps[|ps| - 1], now) then [StaleEntry(roomId, ps[|ps| - 1].id)] else [])
  }

  /** What `checkStaleParticipants` returns: every stale participant, room by room. */
  function SweepReport(rooms: seq<RoomState>, now: real): seq<StaleEntry> {
    if |rooms| == 0 then []
    else
      var last := rooms[|rooms| - 1];
      SweepReport(rooms[..|rooms| - 1], now) + StaleIn(last.info.id, last.participants, now)
  }

  /** One more participant of a room: its entry, if stale, comes last. */
  lemma {:induction false} StaleInSnoc(roomId: string, ps: seq<Participant>, now: real, j: int)
    requires 0 <= j < |ps|
    ensures StaleIn(roomId, ps[..j + 1], now)
      == StaleIn(roomId, ps[..j], now) + (if IsStale(ps[j], now) then [StaleEntry(roomId, ps[j].id)] else [])
  {
    assert ps[..j + 1][..j] == ps[..j];
  }

  /** One more room: its stale participants come last. */
  lemma {:induction false} SweepReportSnoc(rooms: seq<RoomState>, now: real, i: int)
    requires 0 <= i < |rooms|
    ensures SweepReport(rooms[..i + 1], now)
      == SweepReport(rooms[..i], now) + StaleIn(rooms[i].info.id, rooms[i].participants, now)
  {
    assert rooms[..i + 1][..i] == rooms[..i];
  }

  /** Some room `e.roomId` holds a stale participant `e.participantId`. */
  ghost predicate StaleSomewhere(rooms: seq<RoomState>, now: real, e: StaleEntry) {
    exists i, j :: 0 <= i < |rooms| && 0 <= j < |rooms[i].participants| && rooms[i].info.id == e.roomId
      && rooms[i].participants[j].id == e.participantId && IsStale(rooms[i].participants[j], now)
  }

  lemma {:induction false} StaleInMembership(roomId: string, ps: seq<Participant>, now: real, e: StaleEntry)
    ensures e in StaleIn(roomId, ps, now) <==>
      e.roomId == roomId && exists j :: 0 <= j < |ps| && ps[j].id == e.participantId && IsStale(ps[j], now)
  {
    if |ps| > 0 {
      var init := ps[..|ps| - 1];
      StaleInMembership(roomId, init, now, e);
      if e.roomId == roomId && exists j :: 0 <= j < |ps| && ps[j].id == e.participantId && IsStale(ps[j], now) {
        var j :| 0 <= j < |ps| && ps[j].id == e.participantId && IsStale(ps[j], now);
        if j < |ps| - 1 {
          assert init[j] == ps[j];
        }
      }
    }
  }

  /** The sweep reports a (room, participant) pair exactly when that participant
      of that room is stale. */
  lemma {:induction false} SweepReportMembership(rooms: seq<RoomState>, now: real, e: StaleEntry)
    ensures e in SweepReport(rooms, now) <==> StaleSomewhere(rooms, now, e)
  {
    if |rooms| > 0 {
      var init := rooms[..|rooms| - 1];
      var last := rooms[|rooms| - 1];
      SweepReportMembership(init, now, e);
      StaleInMembership(last.info.id, last.participants, now, e);
      if StaleSomewhere(rooms, now, e) {
        var i, j :| 0 <= i < |rooms| && 0 <= j < |rooms[i].participants| && rooms[i].info.id == e.roomId
          && rooms[i].participants[j].id == e.participantId && IsStale(rooms[i].participants[j], now);
        if i < |rooms| - 1 {
          assert init[i] == rooms[i];
        }
      }
      if e in StaleIn(last.info.id, last.participants, now) {
        var j :| 0 <= j < |last.participants| && last.participants[j].id == e.participantId
          && IsStale(last.participants[j], now);
        assert rooms[|rooms| - 1].participants[j] == last.participants[j];
      }
    }
  }

  /** After a sweep every stale participant is offline; a fresh one keeps its
      status; rooms, their order and everything but the status are unchanged. */
  lemma SweepSpec(rooms: seq<RoomState>, now: real)
    requires WellFormed(rooms)
    ensures WellFormed(SweepRooms(rooms, now))
    ensures forall i :: 0 <= i < |rooms| ==> SweepRooms(rooms, now)[i].info == rooms[i].info
    ensures forall i, j :: 0 <= i < |rooms| && 0 <= j < |rooms[i].participants| ==>
      var p, q := rooms[i].participants[j], SweepRooms(rooms, now)[i].participants[j];
      && q == p.(status := q.status)
      && q.status == (if IsStale(p, now) then Offline else p.status)
    ensures forall id :: InfoOf(SweepRooms(rooms, now), id) == InfoOf(rooms, id)
  {
    var r := SweepRooms(rooms, now);
    assert forall i :: 0 <= i < |rooms| ==> RoomKey(r[i]) == RoomKey(rooms[i]);
    forall i | 0 <= i < |rooms|
      ensures UniqueKeys(r[i].participants, ParticipantKey)
    {
      assert forall j :: 0 <= j < |rooms[i].participants| ==>
        ParticipantKey(r[i].participants[j]) == ParticipantKey(rooms[i].participants[j]);
    }
    forall id
      ensures InfoOf(r, id) == InfoOf(rooms, id)
    {
      var k := IndexOf(rooms, RoomKey, id);
      if k >= 0 {
        IndexOfIs(r, RoomKey, id, k);
      } else {
        assert IndexOf(r, RoomKey, id) == -1;
      }
    }
  }

  /** The inner loop of `checkStaleParticipants`: one room's participants, each
      stale one set offline and reported. */
  method SweepRoom(room: RoomState, now: real) returns (ps: seq<Participant>, found: seq<StaleEntry>)
    ensures ps == SweepParticipants(room.participants, now)
    ensures found == StaleIn(room.info.id, room.participants, now)
  {
    ps := room.participants;
    found := [];
    var j := 0;
    while j < |ps|
      invariant 0 <= j <= |ps| == |room.participants|
      invariant forall k :: 0 <= k < j ==> ps[k] == MarkStale(room.participants[k], now)
      invariant forall k :: j <= k < |ps| ==> ps[k] == room.participants[k]
      invariant found == StaleIn(room.info.id, room.participants[..j], now)
    {
      StaleInSnoc(room.info.id, room.participants, now, j);
      if now - ps[j].lastSeen > PARTICIPANT_TIMEOUT as real {
        found := found + [StaleEntry(room.info.id, ps[j].id)];
        ps := ps[j := ps[j].(status := Offline)];
      }
      j := j + 1;
    }
    assert room.participants[..j] == room.participants;
  }

  // ----- Passwords ----------------------------------------------------------

  /** `validatePassword`: an unknown room refuses; a room without a (non-empty)
      hash accepts anything; otherwise an empty attempt is refused and any other
      is checked against the hash by `verify`. */
  function PasswordAccepts(room: Option<RoomInfo>, password: string, verify: (string, string) -> bool): (ok: bool)
    ensures room.None? ==> !ok
    ensures room.Some? && (room.value.passwordHash.None? || room.value.passwordHash.value == "") ==> ok
    ensures ok && room.Some? && room.value.passwordHash.Some? && room.value.passwordHash.value != "" ==>
      password != "" && verify(password, room.value.passwordHash.value)
  {
    match room
    case None => false
    case Some(info) =>
      if info.passwordHash.None? || info.passwordHash.value == "" then true
      else if password == "" then false
      else verify(password, info.passwordHash.value)
  }

  /** A room created without a password admits every attempt; one created with a
      password admits exactly the non-empty attempts that verify against its hash. */
  lemma CreatedRoomPassword(name: string, hostId: string, password: string, id: string,
                            rawCode: string, now: real, hashed: string,
                            attempt: string, verify: (string, string) -> bool)
    requires hashed != ""
    ensures PasswordAccepts(Some(NewRoomInfo(name, hostId, password, id, rawCode, now, hashed)), attempt, verify)
      <==> password == "" || (attempt != "" && verify(attempt, hashed))
  {
  }

  // ----- The registry object ------------------------------------------------

  class Registry {
    /** `rooms`: room id to room, in insertion order. */
    var rooms: seq<RoomState>
    /** `codeToRoomId` */
    var codeToRoomId: map<string, string>

    ghost predicate Valid()
      reads this
    {
      WellFormed(rooms)
    }

    constructor ()
      ensures Valid() && rooms == [] && codeToRoomId == map[]
    {
      rooms := [];
      codeToRoomId := map[];
    }

    /** `create`: registers a new room under its id and its upper-cased code. */
    method Create(name: string, hostId: string, password: string, id: string,
                  rawCode: string, now: real, hashed: string) returns (info: RoomInfo)
      requires Valid()
      requires id != ""
      modifies this
      ensures Valid()
      ensures info == NewRoomInfo(name, hostId, password, id, rawCode, now, hashed)
      ensures rooms == Set(old(rooms), RoomKey, RoomState(info, []))
      ensures codeToRoomId == old(codeToRoomId)[info.code := id]
      ensures Get(id) == Some(info) && GetParticipants(id) == []
      ensures forall c :: Upper(c) == info.code ==> GetByCode(c) == Some(info)
    {
      info := NewRoomInfo(name, hostId, password, id, rawCode, now, hashed);
      CreateSpec(rooms, codeToRoomId, info);
      UpperCanonical(rawCode);
      rooms := Set(rooms, RoomKey, RoomState(info, []));
      codeToRoomId := codeToRoomId[info.code := id];
    }

    function Get(id: string): Option<RoomInfo>
      reads this
    {
      InfoOf(rooms, id)
    }

    function GetByCode(code: string): Option<RoomInfo>
      reads this
    {
      InfoByCode(rooms, codeToRoomId, code)
    }

    /** `list`: every room, in insertion order, without its password hash. */
    function List(): (r: seq<RoomInfoPublic>)
      reads this
      ensures |r| == |rooms|
      ensures forall i :: 0 <= i < |rooms| ==> r[i] == ToPublic(rooms[i].info)
    {
      seq(|rooms|, i requires 0 <= i < |rooms| reads this => ToPublic(rooms[i].info))
    }

    /** `listWithParticipantCount` */
    function ListWithParticipantCount(): (r: seq<RoomSummary>)
      reads this
      ensures |r| == |rooms|
      ensures forall i :: 0 <= i < |rooms| ==>
        r[i] == RoomSummary(ToPublic(rooms[i].info), |rooms[i].participants|)
    {
      seq(|rooms|, i requires 0 <= i < |rooms| reads this =>
        RoomSummary(ToPublic(rooms[i].info), |rooms[i].participants|))
    }

    /** `remove`: drops the room and its code; false when there is no such room. */
    method Remove(id: string) returns (removed: bool)
      requires Valid()
      modifies this
      ensures Valid()
      ensures removed == Has(old(rooms), RoomKey, id)
      ensures removed ==> rooms == Delete(old(rooms), RoomKey, id)
      ensures removed ==> codeToRoomId == old(codeToRoomId) - {old(Get(id)).value.code}
      ensures !removed ==> rooms == old(rooms) && codeToRoomId == old(codeToRoomId)
      ensures Get(id).None? && GetParticipants(id) == []
      ensures removed ==> forall c :: Upper(c) == old(Get(id)).value.code ==> GetByCode(c).None?
    {
      var room := Keyed.Get(rooms, RoomKey, id);
      if room.None? {
        return false;
      }
      RemoveSpec(rooms, codeToRoomId, id);
      codeToRoomId := codeToRoomId - {room.value.info.code};
      rooms := Delete(rooms, RoomKey, id);
      return true;
    }

    /** `addParticipant`: false when the room does not exist. */
    method AddParticipant(roomId: string, participant: Participant) returns (added: bool)
      requires Valid()
      modifies this
      ensures Valid()
      ensures added == Has(old(rooms), RoomKey, roomId)
      ensures rooms == PutParticipant(old(rooms), roomId, participant)
      ensures codeToRoomId == old(codeToRoomId)
      ensures added ==> GetParticipant(roomId, participant.id) == Some(participant)
    {
      added := Has(rooms, RoomKey, roomId);
      if added {
        PutParticipantSpec(rooms, roomId, participant);
      }
      rooms := PutParticipant(rooms, roomId, participant);
    }

    /** `removeParticipant`: true exactly when the participant was in the room. */
    method RemoveParticipant(roomId: string, participantId: string) returns (removed: bool)
      requires Valid()
      modifies this
      ensures Valid()
      ensures removed == old(GetParticipant(roomId, participantId)).Some?
      ensures rooms == DropParticipant(old(rooms), roomId, participantId)
      ensures !removed ==> rooms == old(rooms)
      ensures codeToRoomId == old(codeToRoomId)
      ensures GetParticipant(roomId, participantId).None?
    {
      removed := GetParticipant(roomId, participantId).Some?;
      if !removed {
        DropAbsent(rooms, roomId, participantId);
      }
      if Has(rooms, RoomKey, roomId) {
        DropParticipantSpec(rooms, roomId, participantId);
      }
      rooms := DropParticipant(rooms, roomId, participantId);
    }

    function GetParticipants(roomId: string): seq<Participant>
      reads this
    {
      ParticipantsIn(rooms, roomId)
    }

    function GetParticipant(roomId: string, participantId: string): Option<Participant>
      reads this
    {
      ParticipantIn(rooms, roomId, participantId)
    }

    /** `updateParticipantStatus`: false when the participant is not found. */
    method UpdateParticipantStatus(roomId: string, participantId: string, status: Status) returns (updated: bool)
      requires Valid()
      modifies this
      ensures Valid()
      ensures updated == old(GetParticipant(roomId, participantId)).Some?
      ensures updated ==> rooms == PutParticipant(old(rooms), roomId,
        old(GetParticipant(roomId, participantId)).value.(status := status))
      ensures !updated ==> rooms == old(rooms)
      ensures codeToRoomId == old(codeToRoomId)
    {
      var p := GetParticipant(roomId, participantId);
      if p.None? {
        return false;
      }
      PutParticipantSpec(rooms, roomId, p.value.(status := status));
      rooms := PutParticipant(rooms, roomId, p.value.(status := status));
      return true;
    }

    /** `updateLastSeen`: a heartbeat at time `now` also marks the participant online. */
    method UpdateLastSeen(roomId: string, participantId: string, now: real) returns (updated: bool)
      requires Valid()
      modifies this
      ensures Valid()
      ensures updated == old(GetParticipant(roomId, participantId)).Some?
      ensures updated ==> rooms == PutParticipant(old(rooms), roomId,
        old(GetParticipant(roomId, participantId)).value.(lastSeen := now, status := Online))
      ensures !updated ==> rooms == old(rooms)
      ensures codeToRoomId == old(codeToRoomId)
    {
      var p := GetParticipant(roomId, participantId);
      if p.None? {
        return false;
      }
      PutParticipantSpec(rooms, roomId, p.value.(lastSeen := now, status := Online));
      rooms := PutParticipant(rooms, roomId, p.value.(lastSeen := now, status := Online));
      return true;
    }

    /** `findParticipantByModel`: scans the room's participants in join order. */
    method FindParticipantByModel(roomId: string, model: string) returns (r: Option<Participant>)
      ensures r == FirstOnlineWithModel(GetParticipants(roomId), model)
    {
      var room := Keyed.Get(rooms, RoomKey, roomId);
      if room.None? {
        return None;
      }
      var ps := room.value.participants;
      var i := 0;
      while i < |ps|
        invariant 0 <= i <= |ps|
        invariant forall j :: 0 <= j < i ==> !Serves(ps[j], model)
      {
        if ps[i].model == model && ps[i].status == Online {
          IndexOfFirst(ps, model, i);
          return Some(ps[i]);
        }
        i := i + 1;
      }
      return None;
    }

    /** `getRandomOnlineParticipant`, with the random draw as `pick`. */
    function GetRandomOnlineParticipant(roomId: string, pick: nat): Option<Participant>
      reads this
    {
      PickOnline(GetParticipants(roomId), pick)
    }

    /** `checkStaleParticipants`: marks every stale participant offline, in place,
        and reports each one. */
    method CheckStaleParticipants(now: real) returns (stale: seq<StaleEntry>)
      requires Valid()
      modifies this
      ensures Valid()
      ensures rooms == SweepRooms(old(rooms), now)
      ensures codeToRoomId == old(codeToRoomId)
      ensures stale == SweepReport(old(rooms), now)
    {
      ghost var before := rooms;
      stale := [];
      var i := 0;
      while i < |rooms|
        invariant 0 <= i <= |rooms| == |before|
        invariant forall k :: 0 <= k < i ==> rooms[k] == SweepRooms(before, now)[k]
        invariant forall k :: i <= k < |rooms| ==> rooms[k] == before[k]
        invariant stale == SweepReport(before[..i], now)
        invariant codeToRoomId == old(codeToRoomId)
      {
        var room := rooms[i];
        var ps, found := SweepRoom(room, now);
        SweepReportSnoc(before, now, i);
        stale := stale + found;
        rooms := rooms[i := room.(participants := ps)];
        i := i + 1;
      }
      assert before[..i] == before;
      assert rooms == SweepRooms(before, now);
      SweepSpec(before, now);
    }

    /** `clear` */
    method Clear()
      modifies this
      ensures Valid() && rooms == [] && codeToRoomId == map[]
    {
      rooms := [];
      codeToRoomId := map[];
    }

    /** `validatePassword`, with bcrypt's check supplied as `verify`. */
    function ValidatePassword(roomId: string, password: string, verify: (string, string) -> bool): bool
      reads this
    {
      PasswordAccepts(Get(roomId), password, verify)
    }
  }
}
