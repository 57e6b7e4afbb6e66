/** Construction of a participant record and merging of generation configs. */
module ParticipantOps {
  import opened Common
  import opened Json
  import opened CoreTypes

  /** The options a participant is created from; `specs` and `config` are optional. */
  datatype CreateOptions = CreateOptions(
    nickname: string,
    model: string,
    endpoint: string,
    specs: Option<map<string, Json>>,
    config: Option<map<string, Json>>)

  /** A fresh participant: online, joined and last seen at `now`, with empty specs
      and config when none are given. The id generator and the clock are parameters. */
  function Create(options: CreateOptions, id: string, now: real): (p: Participant)
    ensures p.id == id && p.status == Online
    ensures p.joinedAt == now && p.lastSeen == now
    ensures p.nickname == options.nickname && p.model == options.model && p.endpoint == options.endpoint
    ensures p.specs == (if options.specs.Some? then options.specs.value else map[])
    ensures p.config == (if options.config.Some? then options.config.value else map[])
  {
    Participant(
      id,
      options.nickname,
      options.model,
      options.endpoint,
      OrElse(options.config, map[]),
      OrElse(options.specs, map[]),
      Online,
      now,
      now)
  }

  /** A participant created from schema-valid options satisfies the participant schema. */
  lemma CreateIsSchemaValid(options: CreateOptions, id: string, now: real)
    requires IsUrl(options.endpoint)
    requires options.specs.Some? ==> IsMachineSpecs(options.specs.value)
    requires options.config.Some? ==> IsGenerationConfig(options.config.value)
    ensures SchemaValid(Create(options, id, now))
  {
  }

  /** `{ ...base, ...overrides }`: every key of either, the override winning. */
  function MergeConfig(base: map<string, Json>, overrides: Option<map<string, Json>>): (r: map<string, Json>)
    ensures forall k :: k in r <==> k in base || (overrides.Some? && k in overrides.value)
    ensures forall k :: k in r ==>
      r[k] == if overrides.Some? && k in overrides.value then overrides.value[k] else base[k]
  {
    if overrides.Some? then base + overrides.value else base
  }

  /** No overrides, or an empty override object, leave the base unchanged. */
  lemma MergeEmpty(base: map<string, Json>)
    ensures MergeConfig(base, None) == base
    ensures MergeConfig(base, Some(map[])) == base
  {
    assert MergeConfig(base, Some(map[])) == base;
  }

  /** Applying the same overrides twice is the same as applying them once, and
      merging onto an empty base yields just the overrides. */
  lemma MergeIdempotent(base: map<string, Json>, overrides: map<string, Json>)
    ensures MergeConfig(MergeConfig(base, Some(overrides)), Some(overrides)) == MergeConfig(base, Some(overrides))
    ensures MergeConfig(map[], Some(overrides)) == overrides
  {
    assert MergeConfig(map[], Some(overrides)) == overrides;
    assert MergeConfig(MergeConfig(base, Some(overrides)), Some(overrides)) == MergeConfig(base, Some(overrides));
  }

  /** Merging two generation configs yields a generation config. */
  lemma MergeKeepsSchema(base: map<string, Json>, overrides: Option<map<string, Json>>)
    requires IsGenerationConfig(base)
    requires overrides.Some? ==> IsGenerationConfig(overrides.value)
    ensures IsGenerationConfig(MergeConfig(base, overrides))
  {
  }
}
