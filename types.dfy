/** The hub's data model: timing constants, participant status, the
    participant record and its JSON schema (with the `GenerationConfig` and
    `MachineSpecs` sub-schemas), internal and public room info, and the
    network configuration schema. The schemas are zod objects in the source:
    a field of the wrong type or out of range rejects the whole value, and
    unknown keys are stripped. */
module CoreTypes {
  import opened Common
  import opened Json

  /** Milliseconds between two liveness sweeps. */
  const HEALTH_CHECK_INTERVAL: int := 10_000
  /** A participant whose last heartbeat is older than this is stale (three missed checks). */
  const PARTICIPANT_TIMEOUT: int := HEALTH_CHECK_INTERVAL * 3

  lemma TimeoutIsThreeIntervals()
    ensures PARTICIPANT_TIMEOUT == 3 * HEALTH_CHECK_INTERVAL == 30_000
  {
  }

  // ----- Participant status -------------------------------------------------

  datatype Status = Online | Busy | Offline

  function StatusName(s: Status): string {
    match s
    case Online => "online"
    case Busy => "busy"
    case Offline => "offline"
  }

  /** `ParticipantStatus.safeParse`: only the three names are accepted. */
  function ParseStatus(name: string): (r: Option<Status>)
    ensures r.Some? <==> name == "online" || name == "busy" || name == "offline"
  {
    if name == "online" then Some(Online)
    else if name == "busy" then Some(Busy)
    else if name == "offline" then Some(Offline)
    else None
  }

  lemma StatusRoundTrip(s: Status, name: string)
    ensures ParseStatus(StatusName(s)) == Some(s)
    ensures ParseStatus(name).Some? ==> StatusName(ParseStatus(name).value) == name
  {
  }

  // ----- Object schemas -----------------------------------------------------

  /** zod `z.object(...)` over a JSON value: it must be an object whose every
      field passes `ok`; the result keeps only the schema's keys. */
  function DecodeShape(j: Json, keys: set<string>, ok: (string, Json) -> bool): (r: Option<map<string, Json>>)
    ensures r.Some? <==> j.JObj? && forall k :: k in j.fields ==> ok(k, j.fields[k])
    ensures r.Some? ==> r.value.Keys == j.fields.Keys * keys
    ensures r.Some? ==> forall k :: k in r.value ==> r.value[k] == j.fields[k]
  {
    if j.JObj? && forall k | k in j.fields :: ok(k, j.fields[k])
    then Some(map k | k in j.fields && k in keys :: j.fields[k])
    else None
  }

  predicate Within(v: Json, lo: real, hi: real) {
    v.JNum? && lo <= v.n <= hi
  }

  predicate AllStrings(items: seq<Json>) {
    forall i :: 0 <= i < |items| ==> items[i].JStr?
  }

  const GenerationConfigKeys: set<string> :=
    {"temperature", "top_p", "max_tokens", "stop", "frequency_penalty", "presence_penalty", "seed"}

  /** One field of `GenerationConfig`; keys outside the schema are accepted (and stripped). */
  predicate GenerationFieldOk(k: string, v: Json) {
    if k == "temperature" then Within(v, 0.0, 2.0)
    else if k == "top_p" then Within(v, 0.0, 1.0)
    else if k == "max_tokens" || k == "seed" then v.JNum?
    else if k == "stop" then v.JArr? && AllStrings(v.items)
    else if k == "frequency_penalty" || k == "presence_penalty" then Within(v, -2.0, 2.0)
    else true
  }

  /** A value of type `GenerationConfig`: only schema keys, each in range. */
  ghost predicate IsGenerationConfig(cfg: map<string, Json>) {
    cfg.Keys <= GenerationConfigKeys && forall k :: k in cfg ==> GenerationFieldOk(k, cfg[k])
  }

  function DecodeGenerationConfig(j: Json): Option<map<string, Json>> {
    DecodeShape(j, GenerationConfigKeys, GenerationFieldOk)
  }

  /** The bounds of `GenerationConfig`, field by field, for the fields present. */
  predicate ConfigInRange(f: map<string, Json>) {
    && ("temperature" in f ==> f["temperature"].JNum? && 0.0 <= f["temperature"].n <= 2.0)
    && ("top_p" in f ==> f["top_p"].JNum? && 0.0 <= f["top_p"].n <= 1.0)
    && ("max_tokens" in f ==> f["max_tokens"].JNum?)
    && ("stop" in f ==> f["stop"].JArr? && AllStrings(f["stop"].items))
    && ("frequency_penalty" in f ==> f["frequency_penalty"].JNum? && -2.0 <= f["frequency_penalty"].n <= 2.0)
    && ("presence_penalty" in f ==> f["presence_penalty"].JNum? && -2.0 <= f["presence_penalty"].n <= 2.0)
    && ("seed" in f ==> f["seed"].JNum?)
  }

  lemma {:induction false} ConfigInRangeFieldsOk(f: map<string, Json>)
    requires ConfigInRange(f)
    ensures forall k :: k in f ==> GenerationFieldOk(k, f[k])
  {
    forall k | k in f
      ensures GenerationFieldOk(k, f[k])
    {
      if k == "temperature" || k == "top_p" || k == "max_tokens" || k == "seed" || k == "stop"
        || k == "frequency_penalty" || k == "presence_penalty" {
      }
    }
  }

  lemma {:induction false} FieldsOkConfigInRange(f: map<string, Json>)
    requires forall k :: k in f ==> GenerationFieldOk(k, f[k])
    ensures ConfigInRange(f)
  {
    assert "temperature" in f ==> GenerationFieldOk("temperature", f["temperature"]);
    assert "top_p" in f ==> GenerationFieldOk("top_p", f["top_p"]);
    assert "max_tokens" in f ==> GenerationFieldOk("max_tokens", f["max_tokens"]);
    assert "stop" in f ==> GenerationFieldOk("stop", f["stop"]);
    assert "frequency_penalty" in f ==> GenerationFieldOk("frequency_penalty", f["frequency_penalty"]);
    assert "presence_penalty" in f ==> GenerationFieldOk("presence_penalty", f["presence_penalty"]);
    assert "seed" in f ==> GenerationFieldOk("seed", f["seed"]);
  }

  /** `GenerationConfig.safeParse` succeeds exactly when every present field is
      in range; every field is optional. */
  lemma {:induction false} GenerationConfigBounds(j: Json)
    ensures DecodeGenerationConfig(j).Some? <==>
      && j.JObj?
      && ("temperature" in j.fields ==> j.fields["temperature"].JNum? && 0.0 <= j.fields["temperature"].n <= 2.0)
      && ("top_p" in j.fields ==> j.fields["top_p"].JNum? && 0.0 <= j.fields["top_p"].n <= 1.0)
      && ("max_tokens" in j.fields ==> j.fields["max_tokens"].JNum?)
      && ("stop" in j.fields ==> j.fields["stop"].JArr? && AllStrings(j.fields["stop"].items))
      && ("frequency_penalty" in j.fields ==>
            j.fields["frequency_penalty"].JNum? && -2.0 <= j.fields["frequency_penalty"].n <= 2.0)
      && ("presence_penalty" in j.fields ==>
            j.fields["presence_penalty"].JNum? && -2.0 <= j.fields["presence_penalty"].n <= 2.0)
      && ("seed" in j.fields ==> j.fields["seed"].JNum?)
    ensures DecodeGenerationConfig(JObj(map[])) == Some(map[])
  {
    if DecodeGenerationConfig(j).Some? {
      FieldsOkConfigInRange(j.fields);
    } else if j.JObj? && ConfigInRange(j.fields) {
      ConfigInRangeFieldsOk(j.fields);
    }
  }

  /** Decoding an object gives it back unchanged exactly when it is already a `GenerationConfig`. */
  lemma GenerationConfigExact(cfg: map<string, Json>)
    ensures DecodeGenerationConfig(JObj(cfg)) == Some(cfg) <==> IsGenerationConfig(cfg)
  {
    var r := DecodeGenerationConfig(JObj(cfg));
    if r == Some(cfg) {
      assert cfg.Keys == cfg.Keys * GenerationConfigKeys;
    }
    if IsGenerationConfig(cfg) {
      assert r.value.Keys == cfg.Keys;
      assert r.value == cfg;
    }
  }

  const MachineSpecsKeys: set<string> := {"gpu", "vram", "ram", "cpu"}

  predicate SpecsFieldOk(k: string, v: Json) {
    if k == "gpu" || k == "cpu" then v.JStr?
    else if k == "vram" || k == "ram" then v.JNum?
    else true
  }

  ghost predicate IsMachineSpecs(specs: map<string, Json>) {
    specs.Keys <= MachineSpecsKeys && forall k :: k in specs ==> SpecsFieldOk(k, specs[k])
  }

  function DecodeMachineSpecs(j: Json): Option<map<string, Json>> {
    DecodeShape(j, MachineSpecsKeys, SpecsFieldOk)
  }

  lemma MachineSpecsExact(specs: map<string, Json>)
    ensures DecodeMachineSpecs(JObj(specs)) == Some(specs) <==> IsMachineSpecs(specs)
  {
    var r := DecodeMachineSpecs(JObj(specs));
    if r == Some(specs) {
      assert specs.Keys == specs.Keys * MachineSpecsKeys;
    }
    if IsMachineSpecs(specs) {
      assert r.value.Keys == specs.Keys;
      assert r.value == specs;
    }
  }

  // ----- Participant --------------------------------------------------------

  datatype Participant = Participant(
    id: string,
    nickname: string,
    model: string,
    endpoint: string,
    config: map<string, Json>,
    specs: map<string, Json>,
    status: Status,
    joinedAt: real,
    lastSeen: real)

  /** Participants are keyed by their id, in the hub's rooms and on the dashboard. */
  function ParticipantKey(p: Participant): string {
    p.id
  }

  predicate IsAsciiLetter(c: char) {
    'a' <= c <= 'z' || 'A' <= c <= 'Z'
  }

  predicate SchemeChar(c: char) {
    IsAsciiLetter(c) || '0' <= c <= '9' || c == '+' || c == '-' || c == '.'
  }

  /** `z.string().url()`, reduced to the URL parser's first requirement:
      a scheme (a letter, then letters, digits, `+`, `-` or `.`) and a colon. */
  predicate IsUrl(s: string) {
    exists i :: 0 < i < |s| && s[i] == ':' && IsAsciiLetter(s[0]) && forall j :: 0 < j < i ==> SchemeChar(s[j])
  }

  /** The participant record as `JSON.stringify` sees it. */
  function EncodeParticipant(p: Participant): Json {
    JObj(map[
      "id" := JStr(p.id),
      "nickname" := JStr(p.nickname),
      "model" := JStr(p.model),
      "endpoint" := JStr(p.endpoint),
      "config" := JObj(p.config),
      "specs" := JObj(p.specs),
      "status" := JStr(StatusName(p.status)),
      "joinedAt" := JNum(p.joinedAt),
      "lastSeen" := JNum(p.lastSeen)])
  }

  function DecodeSub(j: Json, k: string, decode: Json -> Option<map<string, Json>>): Option<map<string, Json>> {
    match Field(j, k)
    case Some(v) => decode(v)
    case None => None
  }

  function DecodeStatus(j: Json): Option<Status> {
    match StrField(j, "status")
    case Some(name) => ParseStatus(name)
    case None => None
  }

  /** `ParticipantInfo.safeParse` (types.ts:50-60). */
  function DecodeParticipant(j: Json): Option<Participant> {
    var id := StrField(j, "id");
    var nickname := StrField(j, "nickname");
    var model := StrField(j, "model");
    var endpoint := StrField(j, "endpoint");
    var config := DecodeSub(j, "config", DecodeGenerationConfig);
    var specs := DecodeSub(j, "specs", DecodeMachineSpecs);
    var status := DecodeStatus(j);
    var joinedAt := NumField(j, "joinedAt");
    var lastSeen := NumField(j, "lastSeen");
    if id.Some? && nickname.Some? && model.Some? && endpoint.Some? && IsUrl(endpoint.value)
       && config.Some? && specs.Some? && status.Some? && joinedAt.Some? && lastSeen.Some?
    then Some(Participant(id.value, nickname.value, model.value, endpoint.value, config.value,
                          specs.value, status.value, joinedAt.value, lastSeen.value))
    else None
  }

  /** A participant satisfies the schema when its endpoint is URL-shaped and its
      config and specs are values of their schemas. */
  ghost predicate SchemaValid(p: Participant) {
    IsUrl(p.endpoint) && IsGenerationConfig(p.config) && IsMachineSpecs(p.specs)
  }

  lemma {:induction false} EncodedScalars(p: Participant)
    ensures StrField(EncodeParticipant(p), "id") == Some(p.id)
    ensures StrField(EncodeParticipant(p), "nickname") == Some(p.nickname)
    ensures StrField(EncodeParticipant(p), "model") == Some(p.model)
    ensures StrField(EncodeParticipant(p), "endpoint") == Some(p.endpoint)
    ensures NumField(EncodeParticipant(p), "joinedAt") == Some(p.joinedAt)
    ensures NumField(EncodeParticipant(p), "lastSeen") == Some(p.lastSeen)
  {
    var m := EncodeParticipant(p).fields;
    assert m["id"] == JStr(p.id) && m["nickname"] == JStr(p.nickname);
    assert m["model"] == JStr(p.model) && m["endpoint"] == JStr(p.endpoint);
    assert m["joinedAt"] == JNum(p.joinedAt) && m["lastSeen"] == JNum(p.lastSeen);
  }

  lemma {:induction false} EncodedObjects(p: Participant)
    ensures DecodeSub(EncodeParticipant(p), "config", DecodeGenerationConfig) == DecodeGenerationConfig(JObj(p.config))
    ensures DecodeSub(EncodeParticipant(p), "specs", DecodeMachineSpecs) == DecodeMachineSpecs(JObj(p.specs))
    ensures DecodeStatus(EncodeParticipant(p)) == Some(p.status)
  {
    var m := EncodeParticipant(p).fields;
    assert m["config"] == JObj(p.config) && m["specs"] == JObj(p.specs);
    assert m["status"] == JStr(StatusName(p.status));
    StatusRoundTrip(p.status, "");
  }

  /** The fields of an encoded participant read back as the participant's own. */
  lemma {:induction false} EncodedFields(p: Participant)
    ensures StrField(EncodeParticipant(p), "id") == Some(p.id)
    ensures StrField(EncodeParticipant(p), "nickname") == Some(p.nickname)
    ensures StrField(EncodeParticipant(p), "model") == Some(p.model)
    ensures StrField(EncodeParticipant(p), "endpoint") == Some(p.endpoint)
    ensures DecodeSub(EncodeParticipant(p), "config", DecodeGenerationConfig) == DecodeGenerationConfig(JObj(p.config))
    ensures DecodeSub(EncodeParticipant(p), "specs", DecodeMachineSpecs) == DecodeMachineSpecs(JObj(p.specs))
    ensures DecodeStatus(EncodeParticipant(p)) == Some(p.status)
    ensures NumField(EncodeParticipant(p), "joinedAt") == Some(p.joinedAt)
    ensures NumField(EncodeParticipant(p), "lastSeen") == Some(p.lastSeen)
  {
    EncodedScalars(p);
    EncodedObjects(p);
  }

  /** Encoding a participant and parsing it back gives it unchanged exactly when
      it satisfies the schema. */
  lemma ParticipantRoundTrip(p: Participant)
    ensures DecodeParticipant(EncodeParticipant(p)) == Some(p) <==> SchemaValid(p)
  {
    EncodedFields(p);
    GenerationConfigExact(p.config);
    MachineSpecsExact(p.specs);
  }

  /** Whatever the participant schema accepts satisfies it. */
  lemma DecodedParticipantValid(j: Json)
    requires DecodeParticipant(j).Some?
    ensures SchemaValid(DecodeParticipant(j).value)
  {
    var q := DecodeParticipant(j).value;
    var c := Field(j, "config").value;
    var sp := Field(j, "specs").value;
    assert DecodeGenerationConfig(c) == Some(q.config);
    assert DecodeMachineSpecs(sp) == Some(q.specs);
  }

  // ----- Rooms --------------------------------------------------------------

  /** Internal room info, including the password hash. */
  datatype RoomInfo = RoomInfo(
    id: string,
    code: string,
    name: string,
    hostId: string,
    createdAt: real,
    passwordHash: Option<string>)

  /** Public room info: every field of `RoomInfo` except `passwordHash`. */
  datatype RoomInfoPublic = RoomInfoPublic(
    id: string,
    code: string,
    name: string,
    hostId: string,
    createdAt: real)

  function ToPublic(info: RoomInfo): RoomInfoPublic {
    RoomInfoPublic(info.id, info.code, info.name, info.hostId, info.createdAt)
  }

  /** Two rooms look the same in public exactly when they differ at most in their hash. */
  lemma ToPublicForgetsOnlyHash(a: RoomInfo, b: RoomInfo)
    ensures ToPublic(a) == ToPublic(b) <==> a.(passwordHash := b.passwordHash) == b
  {
  }

  /** The public room as it is serialized into a response or the `room:created` event. */
  function EncodeRoom(r: RoomInfoPublic): (j: Json)
    ensures j.JObj? && "passwordHash" !in j.fields
    ensures StrField(j, "code") == Some(r.code) && StrField(j, "name") == Some(r.name)
  {
    JObj(map[
      "id" := JStr(r.id),
      "code" := JStr(r.code),
      "name" := JStr(r.name),
      "hostId" := JStr(r.hostId),
      "createdAt" := JNum(r.createdAt)])
  }

  // ----- Network configuration ----------------------------------------------

  datatype NetworkConfigInput = NetworkConfigInput(
    hostname: Option<string>,
    port: Option<real>,
    mdns: Option<bool>,
    cors: Option<seq<string>>)

  datatype NetworkConfig = NetworkConfig(hostname: string, port: real, mdns: bool, cors: seq<string>)

  function OrElse<T>(o: Option<T>, d: T): T {
    if o.Some? then o.value else d
  }

  /** `NetworkConfig.safeParse`: the port must lie in [0, 65535]; missing fields take
      their defaults. */
  function ParseNetworkConfig(input: NetworkConfigInput): (r: Option<NetworkConfig>)
    ensures r.Some? <==> (input.port.Some? ==> 0.0 <= input.port.value <= 65535.0)
    ensures r.Some? ==> 0.0 <= r.value.port <= 65535.0
    ensures r.Some? && input.port.None? ==> r.value.port == 3000.0
    ensures r.Some? ==> r.value.hostname == (if input.hostname.Some? then input.hostname.value else "127.0.0.1")
    ensures r.Some? ==> (r.value.mdns <==> input.mdns == Some(true))
    ensures r.Some? && input.port.Some? ==> r.value.port == input.port.value
    ensures r.Some? && input.cors.None? ==> r.value.cors == []
    ensures r.Some? && input.cors.Some? ==> r.value.cors == input.cors.value
  {
    var port := OrElse(input.port, 3000.0);
    if 0.0 <= port <= 65535.0
    then Some(NetworkConfig(OrElse(input.hostname, "127.0.0.1"), port, OrElse(input.mdns, false), OrElse(input.cors, [])))
    else None
  }
}
