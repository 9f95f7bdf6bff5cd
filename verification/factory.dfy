/**
 The entity factory: validates an entity configuration, then picks the
 entity constructor registered for the configuration's domain name and
 hands it the unique id, the device node id and the factory's client.
 */
module Factory {
  import opened Wrappers
  import opened Domains
  import opened Configuration
  import opened Errors
  import opened Entities

  /** The factory holds one client and shares it with everything it builds. */
  datatype EntityFactory = EntityFactory(client: MqttClient)

  /** What the lookup table registers for a domain name. */
  datatype Constructor =
    | Constructs(kind: EntityKind)
    | NotYetSupported

  /** The lookup table, keyed by domain name, as the factory builds it. */
  const DomainTable: map<string, Constructor> := map[
    HassDomainName(BinarySensor) := Constructs(BinarySensorEntity),
    HassDomainName(Cover) := Constructs(CoverEntity),
    HassDomainName(Humidifier) := NotYetSupported,
    HassDomainName(Number) := Constructs(NumberEntity),
    HassDomainName(Sensor) := Constructs(SensorEntity),
    HassDomainName(Switch) := Constructs(SwitchEntity),
    HassDomainName(Update) := NotYetSupported,
    HassDomainName(Valve) := Constructs(ValveEntity)
  ]

  /**
   The entity class a declared domain is meant to produce, as one exhaustive
   match; None for the domains that are declared but not implemented.
   */
  function SupportedKind(d: HassDomain): Option<EntityKind>
  {
    match d
    case BinarySensor => Some(BinarySensorEntity)
    case Cover => Some(CoverEntity)
    case Humidifier => None
    case Number => Some(NumberEntity)
    case Sensor => Some(SensorEntity)
    case Switch => Some(SwitchEntity)
    case Update => None
    case Valve => Some(ValveEntity)
  }

  /** The domain whose name a supported entity class is registered under. */
  function DomainOf(kind: EntityKind): (d: HassDomain)
    ensures SupportedKind(d) == Some(kind)
  {
    match kind
    case BinarySensorEntity => BinarySensor
    case CoverEntity => Cover
    case NumberEntity => Number
    case SensorEntity => Sensor
    case SwitchEntity => Switch
    case ValveEntity => Valve
  }

  /**
   The table agrees with the exhaustive match: its keys are exactly the
   declared domain names, and each maps to that domain's entity class or to
   "not yet supported".
   */
  lemma DomainTableMatchesDomains(name: string)
    ensures name in DomainTable <==> DomainNamed(name).Some?
    ensures name in DomainTable ==>
      DomainTable[name] == (match SupportedKind(DomainNamed(name).value)
                            case Some(k) => Constructs(k)
                            case None => NotYetSupported)
  {
  }

  /**
   The table has eight entries: its keys are the names of the eight domains,
   which are distinct, so its initialiser never meets a duplicate.
   */
  lemma DomainTableHasEightEntries()
    ensures |DomainTable| == 8
  {
    forall a: HassDomain, b: HassDomain
      ensures HassDomainName(a) == HassDomainName(b) ==> a == b
    {
      HassDomainNameInjective(a, b);
    }
    var names := [HassDomainName(BinarySensor), HassDomainName(Cover), HassDomainName(Humidifier),
                  HassDomainName(Number), HassDomainName(Sensor), HassDomainName(Switch),
                  HassDomainName(Update), HassDomainName(Valve)];
    assert DomainTable.Keys == {names[0], names[1], names[2], names[3], names[4], names[5], names[6], names[7]};
  }

  /**
   The six typed constructors (CreateBinarySensor, CoverButton,
   CreateNumberEntity, CreateSensorEntity, CreateSwitchEntity,
   CreateValveEntity): cast the configuration to the class's configuration
   type and build the entity with the factory's client.
   */
  function Construct(factory: EntityFactory, kind: EntityKind, config: EntityConfig,
                     entityUniqueId: string, deviceNodeId: string): (r: Result<Publisher, Error>)
    // The cast succeeds exactly for the entity class the configuration's class belongs to.
    ensures r.Success? <==> KindForClass(config.configClass) == Some(kind)
    // So a configuration never becomes an entity of another class.
    ensures forall k :: k != kind && ConfigClassFor(k) == config.configClass ==> r.Failure?
    ensures r.Success? ==> r.value == Publisher(kind, config, entityUniqueId, deviceNodeId, factory.client)
    ensures r.Failure? ==> r.error == InvalidConfigCast(ConfigClassFor(kind), config.configClass)
  {
    KindForClassRoundTrip(kind, config.configClass);
    if config.configClass == ConfigClassFor(kind) then
      Success(Publisher(kind, config, entityUniqueId, deviceNodeId, factory.client))
    else
      Failure(InvalidConfigCast(ConfigClassFor(kind), config.configClass))
  }

  /**
   Of the six constructors at most one accepts a given configuration, and one
   does exactly when its class is one of the six configuration classes.
   */
  lemma ConstructAcceptsOneKind(factory: EntityFactory, config: EntityConfig,
                                entityUniqueId: string, deviceNodeId: string)
    ensures forall a, b ::
      (Construct(factory, a, config, entityUniqueId, deviceNodeId).Success?
       && Construct(factory, b, config, entityUniqueId, deviceNodeId).Success?) ==> a == b
    ensures (exists k :: Construct(factory, k, config, entityUniqueId, deviceNodeId).Success?)
      <==> !config.configClass.OtherConfigClass?
  {
    forall a, b | Construct(factory, a, config, entityUniqueId, deviceNodeId).Success?
                  && Construct(factory, b, config, entityUniqueId, deviceNodeId).Success?
      ensures a == b
    {
      ConfigClassForInjective(a, b);
    }
    if !config.configClass.OtherConfigClass? {
      var k := KindForClass(config.configClass).value;
      assert Construct(factory, k, config, entityUniqueId, deviceNodeId).Success?;
    }
  }

  /**
   The constructor registered for declared domains that have no entity class:
   it always fails, and the message it fails with names the configuration's
   domain.
   */
  function EntityNotSupported(config: EntityConfig, entityUniqueId: string, deviceNodeId: string): (r: Result<Publisher, Error>)
    ensures r.Failure? && r.error.NotImplemented?
    ensures MessageDomain(NotImplementedMessage(r.error.domainName)) == Some(config.domainName)
  {
    NotImplementedMessageRoundTrip(config.domainName);
    Failure(NotImplemented(config.domainName))
  }

  /**
   Create: validate the configuration, look its domain name up in the table,
   then call the registered constructor with the unique id unchanged and the
   snake-case topic form of the device id as the device node id.
   */
  function Create(env: Collaborators, factory: EntityFactory, entityUniqueId: string,
                  entityConfig: EntityConfig, deviceConfig: DeviceConfig): (r: Result<Publisher, Error>)
    // Validation comes first: a rejected configuration constructs nothing, whatever its domain.
    ensures env.validateEntity(entityConfig).Fail? ==>
      r == Failure(ConfigurationError(env.validateEntity(entityConfig).error))
    // A name that no declared domain has fails the lookup.
    ensures env.validateEntity(entityConfig).Pass? && DomainNamed(entityConfig.domainName).None? ==>
      r == Failure(DomainNotFound(entityConfig.domainName))
    // Humidifier and Update are declared but always rejected, naming the domain.
    ensures env.validateEntity(entityConfig).Pass? && DomainNamed(entityConfig.domainName) in {Some(Humidifier), Some(Update)} ==>
      r == Failure(NotImplemented(entityConfig.domainName))
    // A supported domain yields its own entity class and no other, or fails the cast.
    ensures env.validateEntity(entityConfig).Pass? && DomainNamed(entityConfig.domainName).Some?
            && SupportedKind(DomainNamed(entityConfig.domainName).value).Some? ==>
      var k := SupportedKind(DomainNamed(entityConfig.domainName).value).value;
      r == if entityConfig.configClass == ConfigClassFor(k)
           then Success(Publisher(k, entityConfig, entityUniqueId,
                                  env.toMqttTopicSnakeCase(deviceConfig.deviceId), factory.client))
           else Failure(InvalidConfigCast(ConfigClassFor(k), entityConfig.configClass))
    // Whatever is built carries the arguments unchanged and the factory's own client.
    ensures r.Success? ==>
      && env.validateEntity(entityConfig).Pass?
      && entityConfig.domainName == HassDomainName(DomainOf(r.value.kind))
      && entityConfig.configClass == ConfigClassFor(r.value.kind)
      && r.value.config == entityConfig
      && r.value.uniqueId == entityUniqueId
      && r.value.deviceNodeId == env.toMqttTopicSnakeCase(deviceConfig.deviceId)
      && r.value.client == factory.client
  {
    match env.validateEntity(entityConfig)
    case Fail(message) => Failure(ConfigurationError(message))
    case Pass =>
      var name := entityConfig.domainName;
      DomainTableMatchesDomains(name);
      if name !in DomainTable then
        Failure(DomainNotFound(name))
      else
        var deviceNodeId := env.toMqttTopicSnakeCase(deviceConfig.deviceId);
        match DomainTable[name]
        case Constructs(kind) => Construct(factory, kind, entityConfig, entityUniqueId, deviceNodeId)
        case NotYetSupported => EntityNotSupported(entityConfig, entityUniqueId, deviceNodeId)
  }

  /** The error for Humidifier and Update reads "Entity domain '<name>' not yet implemented." */
  lemma CreateUnsupportedMessage(env: Collaborators, factory: EntityFactory, entityUniqueId: string,
                                 entityConfig: EntityConfig, deviceConfig: DeviceConfig, d: HassDomain)
    requires env.validateEntity(entityConfig).Pass?
    requires d == Humidifier || d == Update
    requires entityConfig.domainName == HassDomainName(d)
    ensures var r := Create(env, factory, entityUniqueId, entityConfig, deviceConfig);
      r.Failure? && NotImplementedMessage(r.error.domainName) == "Entity domain '" + HassDomainName(d) + "' not yet implemented."
  {
  }

  /** Two entities created for one device get the same device node id and the same client. */
  lemma CreateSharesDeviceNodeIdAndClient(env: Collaborators, factory: EntityFactory, deviceConfig: DeviceConfig,
                                          id1: string, config1: EntityConfig, id2: string, config2: EntityConfig)
    requires Create(env, factory, id1, config1, deviceConfig).Success?
    requires Create(env, factory, id2, config2, deviceConfig).Success?
    ensures var p1, p2 := Create(env, factory, id1, config1, deviceConfig).value, Create(env, factory, id2, config2, deviceConfig).value;
      p1.deviceNodeId == p2.deviceNodeId && p1.client == p2.client
  {
  }
}
