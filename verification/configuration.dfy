/**
 Configuration records the bridge is built from, and the configuration
 behaviour whose bodies are outside this model (validation, unique-id
 derivation, topic-name normalisation), supplied as functions.
 */
module Configuration {
  import opened Wrappers

  /** The runtime class of an entity configuration object; the factory casts to one of the six it supports. */
  datatype ConfigClass =
    | BinarySensorConfig
    | CoverConfig
    | NumberConfig
    | SensorConfig
    | SwitchConfig
    | ValveConfig
    | OtherConfigClass(typeName: string)

  /**
   One entity's configuration. `domainName` is its domain's HassDomainName,
   the only field the factory dispatches on; `configClass` is the class the
   object was created as, which the chosen constructor casts to.
   */
  datatype EntityConfig = EntityConfig(
    domainName: string,
    friendlyName: string,
    configClass: ConfigClass)

  /** A device and its entities keyed by entity node id, in declaration order. */
  datatype DeviceConfig = DeviceConfig(
    deviceId: string,
    entities: seq<(string, EntityConfig)>)

  datatype BridgeConfiguration = BridgeConfiguration(devices: seq<DeviceConfig>)

  /**
   Configuration behaviour whose bodies this model does not define.
   A `Fail(message)` from a validator stands for the exception it throws.
   */
  datatype Collaborators = Collaborators(
    validateBridge: BridgeConfiguration -> Outcome<string>,
    validateEntity: EntityConfig -> Outcome<string>,
    buildEntityUniqueId: (DeviceConfig, string) -> string,
    toMqttTopicSnakeCase: string -> string)

  /** The entity node ids that occur as keys of `s`. */
  function Keys<V>(s: seq<(string, V)>): set<string>
  {
    set i | 0 <= i < |s| :: s[i].0
  }

  lemma KeysAppend<V>(s: seq<(string, V)>, key: string, v: V)
    ensures Keys(s + [(key, v)]) == Keys(s) + {key}
  {
    var t := s + [(key, v)];
    assert t[|s|].0 == key;
    forall k | k in Keys(s)
      ensures k in Keys(t)
    {
      var i :| 0 <= i < |s| && s[i].0 == k;
      assert t[i] == s[i];
    }
  }
}
