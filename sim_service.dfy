/**
 * The simulator service's configuration loaders: a JSON object is checked for every
 * field of the target dataclass, in declaration order, and then passed to the
 * dataclass constructor as keyword arguments.
 */
module SimService {
  import opened Wrappers
  import opened PyDict

  /** A JSON value; the dataclasses do not check the types of their fields. */
  datatype JsonValue = JString(s: string) | JNumber(n: int) | JObject(entries: seq<(string, JsonValue)>) | JOther

  /** The object `json.load` returns, keys in file order, each key once. */
  type ConfigDict = Dict<string, JsonValue>

  /** Why loading fails: a missing field (ValueError) or a key the dataclass has no field for (TypeError). */
  datatype LoadError = MissingField(field: string) | UnexpectedKeyword(key: string)
  {
    function Message(): string
    {
      match this
      case MissingField(f) => "Missing field '" + f + "' in config file"
      case UnexpectedKeyword(k) => "__init__() got an unexpected keyword argument '" + k + "'"
    }
  }

  /** `ScenarioConfig`. */
  datatype ScenarioConfig = ScenarioConfig(name: JsonValue, periodStart: JsonValue, periodEnd: JsonValue)

  /** `SpacecraftProperties`; the inertia field keeps the source's spelling. */
  datatype SpacecraftProperties = SpacecraftProperties(name: JsonValue, mass: JsonValue, intertiaMatrix: JsonValue, description: JsonValue)

  const ScenarioFields: seq<string> := ["name", "period_start", "period_end"]
  const SpacecraftFields: seq<string> := ["name", "mass", "intertia_matrix", "description"]

  /** The first of `fields` that is not a key of the object. */
  function FirstMissing(fields: seq<string>, config: ConfigDict): (r: Option<nat>)
    ensures r.None? <==> forall k :: 0 <= k < |fields| ==> fields[k] in Keys(config)
    ensures r.Some? ==> r.value < |fields| && fields[r.value] !in Keys(config)
    ensures r.Some? ==> forall k :: 0 <= k < r.value ==> fields[k] in Keys(config)
  {
    if |fields| == 0 then None
    else if fields[0] !in Keys(config) then Some(0)
    else
      match FirstMissing(fields[1..], config)
      case None => None
      case Some(k) => Some(k + 1)
  }

  /** The first key of the object, in file order, that is not one of `fields`. */
  function FirstExtra(config: ConfigDict, fields: seq<string>): (r: Option<nat>)
    ensures r.None? <==> forall k :: 0 <= k < |config| ==> config[k].0 in fields
    ensures r.Some? ==> r.value < |config| && config[r.value].0 !in fields
    ensures r.Some? ==> forall k :: 0 <= k < r.value ==> config[k].0 in fields
  {
    if |config| == 0 then None
    else if config[0].0 !in fields then Some(0)
    else
      match FirstExtra(config[1..], fields)
      case None => None
      case Some(k) => Some(k + 1)
  }

  /**
   * The validation loop of both loaders: every field, in declaration order, must be a
   * key; the first one that is not is reported.
   */
  method CheckFields(fields: seq<string>, config: ConfigDict) returns (r: Result<(), LoadError>)
    ensures FirstMissing(fields, config).None? ==> r.Ok?
    ensures FirstMissing(fields, config).Some? ==> r == Err(MissingField(fields[FirstMissing(fields, config).value]))
  {
    for i := 0 to |fields|
      invariant forall k :: 0 <= k < i ==> fields[k] in Keys(config)
    {
      if fields[i] !in Keys(config) {
        return Err(MissingField(fields[i]));
      }
    }
    return Ok(());
  }

  /** The keyword check of the dataclass constructor: a key it has no field for is a TypeError. */
  method CheckKeywords(config: ConfigDict, fields: seq<string>) returns (r: Result<(), LoadError>)
    ensures FirstExtra(config, fields).None? ==> r.Ok?
    ensures FirstExtra(config, fields).Some? ==> r == Err(UnexpectedKeyword(config[FirstExtra(config, fields).value].0))
  {
    for i := 0 to |config|
      invariant forall k :: 0 <= k < i ==> config[k].0 in fields
    {
      if config[i].0 !in fields {
        return Err(UnexpectedKeyword(config[i].0));
      }
    }
    return Ok(());
  }

  /**
   * `load_scenario_config`: the first missing field in declaration order, else the
   * first unexpected key, else the record of the object's values.
   */
  method LoadScenarioConfig(config: ConfigDict) returns (r: Result<ScenarioConfig, LoadError>)
    requires UniqueKeys(config)
    ensures FirstMissing(ScenarioFields, config).Some? ==>
      r == Err(MissingField(ScenarioFields[FirstMissing(ScenarioFields, config).value]))
    ensures FirstMissing(ScenarioFields, config).None? && FirstExtra(config, ScenarioFields).Some? ==>
      r == Err(UnexpectedKeyword(config[FirstExtra(config, ScenarioFields).value].0))
    ensures r.Ok? <==> FirstMissing(ScenarioFields, config).None? && FirstExtra(config, ScenarioFields).None?
    ensures r.Ok? ==>
      Get(config, "name") == Some(r.value.name)
      && Get(config, "period_start") == Some(r.value.periodStart)
      && Get(config, "period_end") == Some(r.value.periodEnd)
  {
    var checked := CheckFields(ScenarioFields, config);
    if checked.Err? {
      return Err(checked.error);
    }
    checked := CheckKeywords(config, ScenarioFields);
    if checked.Err? {
      return Err(checked.error);
    }
    assert "name" in Keys(config) && "period_start" in Keys(config) && "period_end" in Keys(config) by {
      assert ScenarioFields[0] in Keys(config) && ScenarioFields[1] in Keys(config) && ScenarioFields[2] in Keys(config);
    }
    r := Ok(ScenarioConfig(Get(config, "name").value, Get(config, "period_start").value, Get(config, "period_end").value));
  }

  /** `load_spacecraft_properties`: the same checks over the four spacecraft fields. */
  method LoadSpacecraftProperties(config: ConfigDict) returns (r: Result<SpacecraftProperties, LoadError>)
    requires UniqueKeys(config)
    ensures FirstMissing(SpacecraftFields, config).Some? ==>
      r == Err(MissingField(SpacecraftFields[FirstMissing(SpacecraftFields, config).value]))
    ensures FirstMissing(SpacecraftFields, config).None? && FirstExtra(config, SpacecraftFields).Some? ==>
      r == Err(UnexpectedKeyword(config[FirstExtra(config, SpacecraftFields).value].0))
    ensures r.Ok? <==> FirstMissing(SpacecraftFields, config).None? && FirstExtra(config, SpacecraftFields).None?
    ensures r.Ok? ==>
      Get(config, "name") == Some(r.value.name)
      && Get(config, "mass") == Some(r.value.mass)
      && Get(config, "intertia_matrix") == Some(r.value.intertiaMatrix)
      && Get(config, "description") == Some(r.value.description)
  {
    var checked := CheckFields(SpacecraftFields, config);
    if checked.Err? {
      return Err(checked.error);
    }
    checked := CheckKeywords(config, SpacecraftFields);
    if checked.Err? {
      return Err(checked.error);
    }
    assert "name" in Keys(config) && "mass" in Keys(config)
      && "intertia_matrix" in Keys(config) && "description" in Keys(config) by {
      assert SpacecraftFields[0] in Keys(config) && SpacecraftFields[1] in Keys(config);
      assert SpacecraftFields[2] in Keys(config) && SpacecraftFields[3] in Keys(config);
    }
    r := Ok(SpacecraftProperties(Get(config, "name").value, Get(config, "mass").value,
                                 Get(config, "intertia_matrix").value, Get(config, "description").value));
  }

  /** The field check itself never looks at extra keys: adding one cannot make it fail. */
  lemma {:induction false} ExtraKeysPassFieldCheck(fields: seq<string>, config: ConfigDict, key: string, value: JsonValue)
    requires FirstMissing(fields, config).None?
    ensures FirstMissing(fields, config + [(key, value)]).None?
  {
    forall k | 0 <= k < |fields| ensures fields[k] in Keys(config + [(key, value)]) {
      var j :| 0 <= j < |config| && Keys(config)[j] == fields[k];
      assert Keys(config + [(key, value)])[j] == fields[k];
    }
  }
}
