/**
 * The persistent key/value configuration the client keeps between runs,
 * and its "get or fail" accessor.
 */
module Config {
  import opened Results

  /** The values the store holds: numbers (an entity id) and strings (a base URI). */
  datatype ConfigValue = Number(n: int) | Text(s: string)

  datatype ConfigError = MissingKey(key: string)
  {
    function Message(): string
    {
      "No configuration value for " + key
    }
  }

  /** `getOrThrow(key)`: the stored value, or an error naming a missing key. */
  function GetOrThrow(values: map<string, ConfigValue>, key: string): (r: Result<ConfigValue, ConfigError>)
    ensures r.Ok? <==> key in values
    ensures r.Ok? ==> r.value == values[key]
    ensures r.Err? ==> r.error.Message() == "No configuration value for " + key
  {
    if key in values then Ok(values[key]) else Err(MissingKey(key))
  }

  /** The store, updated in place by `set`. */
  class ConfigStore {
    var values: map<string, ConfigValue>

    constructor (initial: map<string, ConfigValue>)
      ensures values == initial
    {
      values := initial;
    }

    /** `config.set(key, value)`: that key now holds `value`; every other key is as before. */
    method Set(key: string, value: ConfigValue)
      modifies this
      ensures values == old(values)[key := value]
      ensures forall k :: k != key ==> (k in values <==> k in old(values))
      ensures forall k :: k != key && k in values ==> values[k] == old(values)[k]
    {
      values := values[key := value];
    }
  }
}
