/**
 The entity publishers the factory can construct. Each carries the
 configuration it was built from, its unique id, the node id of its device
 and the shared MQTT client; their publishing behaviour is not modelled.
 */
module Entities {
  import opened Wrappers
  import opened Configuration

  /** An MQTT client handle, compared by identity. */
  datatype MqttClient = MqttClient(handle: nat)

  /** The entity class a publisher was created as. */
  datatype EntityKind =
    | BinarySensorEntity
    | CoverEntity
    | NumberEntity
    | SensorEntity
    | SwitchEntity
    | ValveEntity

  datatype Publisher = Publisher(
    kind: EntityKind,
    config: EntityConfig,
    uniqueId: string,
    deviceNodeId: string,
    client: MqttClient)

  /** The configuration class each entity class's constructor takes. */
  function ConfigClassFor(kind: EntityKind): ConfigClass
  {
    match kind
    case BinarySensorEntity => BinarySensorConfig
    case CoverEntity => CoverConfig
    case NumberEntity => NumberConfig
    case SensorEntity => SensorConfig
    case SwitchEntity => SwitchConfig
    case ValveEntity => ValveConfig
  }

  /**
   The entity class whose constructor accepts a configuration of class `c`,
   read off the configuration side; None for a class no constructor takes.
   */
  function KindForClass(c: ConfigClass): Option<EntityKind>
  {
    match c
    case BinarySensorConfig => Some(BinarySensorEntity)
    case CoverConfig => Some(CoverEntity)
    case NumberConfig => Some(NumberEntity)
    case SensorConfig => Some(SensorEntity)
    case SwitchConfig => Some(SwitchEntity)
    case ValveConfig => Some(ValveEntity)
    case OtherConfigClass(_) => None
  }

  /** The two tables are inverse: a configuration class belongs to exactly the entity class that takes it. */
  lemma KindForClassRoundTrip(kind: EntityKind, c: ConfigClass)
    ensures KindForClass(ConfigClassFor(kind)) == Some(kind)
    ensures KindForClass(c) == Some(kind) <==> ConfigClassFor(kind) == c
  {
  }

  /** Each configuration class belongs to at most one entity class. */
  lemma ConfigClassForInjective(a: EntityKind, b: EntityKind)
    ensures ConfigClassFor(a) == ConfigClassFor(b) ==> a == b
  {
    KindForClassRoundTrip(a, ConfigClassFor(b));
    KindForClassRoundTrip(b, ConfigClassFor(b));
  }
}
