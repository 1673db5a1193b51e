/**
 * Choosing the entity (book of accounts) a command works on: by name from
 * the fetched entity list, remembering the choice, or else the one
 * remembered from an earlier run.
 */
module Entities {
  import opened Results
  import opened Config

  datatype Entity = Entity(id: int, name: string)

  datatype EntityError =
    | ConfigMissing(cause: ConfigError)
    | NoEntityNamed(name: string)
  {
    function Message(): string
    {
      match this
      case ConfigMissing(cause) => cause.Message()
      case NoEntityNamed(name) => "No entity found with name \"" + name + "\""
    }
  }

  /** The configuration key under which the chosen entity's id is remembered. */
  const LastUsedEntityKey: string := "lastUsedEntityId"

  /** `i` is the position of the first entity named `name`. */
  predicate IsFirstNamed(entities: seq<Entity>, name: string, i: int)
  {
    0 <= i < |entities| && entities[i].name == name && forall j :: 0 <= j < i ==> entities[j].name != name
  }

  /** The index of the first entity with the given name, or -1 (`findIndex`). */
  function FirstNamed(entities: seq<Entity>, name: string): (i: int)
    ensures -1 <= i < |entities|
    ensures i == -1 <==> forall j :: 0 <= j < |entities| ==> entities[j].name != name
    ensures 0 <= i ==> entities[i].name == name
    ensures forall j :: 0 <= j < i ==> entities[j].name != name
  {
    if entities == [] then -1
    else if entities[0].name == name then 0
    else
      var i := FirstNamed(entities[1..], name);
      if i == -1 then -1 else i + 1
  }

  /** `entities.find(e => e.name == name)`: the first entity with that name. */
  function FindEntity(entities: seq<Entity>, name: string): (found: Option<Entity>)
    ensures found.None? <==> forall j :: 0 <= j < |entities| ==> entities[j].name != name
    ensures found.Some? ==> exists i :: IsFirstNamed(entities, name, i) && entities[i] == found.value
  {
    var i := FirstNamed(entities, name);
    if i < 0 then None else Some(entities[i])
  }

  /** What `fetchEntityId` returns and the configuration it leaves behind. */
  datatype Selection = Selection(result: Result<ConfigValue, EntityError>, config: map<string, ConfigValue>)

  /**
   * `fetchEntityId` on values: no name means the remembered id; a name
   * means the id of the first entity with that name, which is then
   * remembered. The throw for an unknown name comes before the write.
   */
  function SelectEntity(config: map<string, ConfigValue>, entityName: Option<string>,
                        entities: seq<Entity>): (s: Selection)
    // the configuration changes at most at the remembered-id key
    ensures forall k :: k != LastUsedEntityKey ==>
      (k in s.config <==> k in config) && (k in config ==> s.config[k] == config[k])
    // after any success, the remembered id is the one returned
    ensures s.result.Ok? ==> LastUsedEntityKey in s.config && s.config[LastUsedEntityKey] == s.result.value
    // a failure changes nothing
    ensures s.result.Err? ==> s.config == config
    // no name: the remembered id, or an error when none is remembered; nothing is written
    ensures entityName.None? ==>
      && s.config == config
      && (s.result.Ok? <==> LastUsedEntityKey in config)
      && (s.result.Err? ==> s.result.error == ConfigMissing(MissingKey(LastUsedEntityKey)))
    // a name: success exactly when some entity has it, returning the first such entity's id
    ensures entityName.Some? ==>
      && (s.result.Ok? <==> exists j :: 0 <= j < |entities| && entities[j].name == entityName.value)
      && (s.result.Ok? ==>
            exists i :: IsFirstNamed(entities, entityName.value, i) && s.result.value == Number(entities[i].id))
      && (s.result.Err? ==> s.result.error == NoEntityNamed(entityName.value))
  {
    match entityName
    case None =>
      var stored := GetOrThrow(config, LastUsedEntityKey);
      Selection(if stored.Ok? then Ok(stored.value) else Err(ConfigMissing(stored.error)), config)
    case Some(name) =>
      match FindEntity(entities, name)
      case None => Selection(Err(NoEntityNamed(name)), config)
      case Some(entity) =>
        Selection(Ok(Number(entity.id)), config[LastUsedEntityKey := Number(entity.id)])
  }

  /** Without a name the entity list is never consulted: any two lists give the same outcome. */
  lemma NoNameIgnoresEntities(config: map<string, ConfigValue>, a: seq<Entity>, b: seq<Entity>)
    ensures SelectEntity(config, None, a) == SelectEntity(config, None, b)
  {
  }

  /**
   * `fetchEntityId(entityName)` against the persistent store; `entities`
   * stands for the list `fetchEntities` would return.
   */
  method FetchEntityId(store: ConfigStore, entityName: Option<string>, entities: seq<Entity>)
    returns (result: Result<ConfigValue, EntityError>)
    modifies store
    ensures Selection(result, store.values) == SelectEntity(old(store.values), entityName, entities)
  {
    if entityName.None? {
      var stored := GetOrThrow(store.values, LastUsedEntityKey);
      result := if stored.Ok? then Ok(stored.value) else Err(ConfigMissing(stored.error));
      return;
    }
    var entity := FindEntity(entities, entityName.value);
    if entity.None? {
      result := Err(NoEntityNamed(entityName.value));
      return;
    }
    store.Set(LastUsedEntityKey, Number(entity.value.id));
    result := Ok(Number(entity.value.id));
  }
}
