/**
 The bridge builder: validate the bridge configuration, then for each
 device configuration in order create a device and add its entities in
 declaration order, each made by the entity factory under the unique id the
 device configuration derives for it. The first failure aborts the build,
 so a bridge is only ever returned whole.
 */
module BridgeBuilder {
  import opened Wrappers
  import opened Configuration
  import opened Errors
  import opened Entities
  import opened Factory
  import opened Devices

  /** The built bridge: the client and the devices, in configuration order. */
  datatype Bridge = Net2MqttBridge(client: MqttClient, devices: seq<Device>)

  /** The factory's result for each declared entity, under the unique id its device configuration derives. */
  function Creations(env: Collaborators, factory: EntityFactory, deviceConfig: DeviceConfig): seq<Result<Publisher, Error>>
  {
    seq(|deviceConfig.entities|, j requires 0 <= j < |deviceConfig.entities| =>
      Create(env, factory, env.buildEntityUniqueId(deviceConfig, deviceConfig.entities[j].0),
             deviceConfig.entities[j].1, deviceConfig))
  }

  /** Entry j of Creations is the factory's result for the j-th declared entity. */
  lemma CreationsAt(env: Collaborators, factory: EntityFactory, deviceConfig: DeviceConfig, j: nat)
    requires j < |deviceConfig.entities|
    ensures Creations(env, factory, deviceConfig)[j]
      == Create(env, factory, env.buildEntityUniqueId(deviceConfig, deviceConfig.entities[j].0),
                deviceConfig.entities[j].1, deviceConfig)
  {
  }

  /**
   What adding the j-th declared entity to `device` yields, once every
   earlier one was added, given the factory's results `created`: the
   factory's error, a duplicate node id (already on the device, or declared
   earlier), or the publisher to add.
   */
  function EntityStep(device: Device, deviceConfig: DeviceConfig, created: seq<Result<Publisher, Error>>, j: nat)
    : Result<Publisher, Error>
    requires |created| == |deviceConfig.entities|
    requires j < |deviceConfig.entities|
  {
    var nodeId := deviceConfig.entities[j].0;
    match created[j]
    case Failure(e) => Failure(e)
    case Success(p) =>
      if nodeId in Keys(device.entities) || nodeId in Keys(deviceConfig.entities[..j]) then
        Failure(DuplicateEntityNodeId(nodeId))
      else
        Success(p)
  }

  /** Every declared entity can be created and added. */
  ghost predicate EntitiesSucceed(device: Device, deviceConfig: DeviceConfig, created: seq<Result<Publisher, Error>>)
    requires |created| == |deviceConfig.entities|
  {
    forall j :: 0 <= j < |deviceConfig.entities| ==> EntityStep(device, deviceConfig, created, j).Success?
  }

  /** Entity j is the first to fail, and it fails with `e`. */
  ghost predicate FailsFirstAt(device: Device, deviceConfig: DeviceConfig, created: seq<Result<Publisher, Error>>,
                               j: nat, e: Error)
    requires |created| == |deviceConfig.entities|
  {
    && j < |deviceConfig.entities|
    && EntityStep(device, deviceConfig, created, j) == Failure(e)
    && forall k :: 0 <= k < j ==> EntityStep(device, deviceConfig, created, k).Success?
  }

  /** The entries the first n steps add, in declaration order. */
  ghost function Added(device: Device, deviceConfig: DeviceConfig, created: seq<Result<Publisher, Error>>, n: nat)
    : seq<(string, Publisher)>
    requires |created| == |deviceConfig.entities|
    requires n <= |deviceConfig.entities|
    requires forall k :: 0 <= k < n ==> EntityStep(device, deviceConfig, created, k).Success?
  {
    if n == 0 then []
    else
      Added(device, deviceConfig, created, n - 1)
        + [(deviceConfig.entities[n - 1].0, EntityStep(device, deviceConfig, created, n - 1).value)]
  }

  /** Entry j of the added entries is the j-th declared node id with the j-th step's publisher. */
  lemma {:induction false} AddedEntries(device: Device, deviceConfig: DeviceConfig,
                                        created: seq<Result<Publisher, Error>>, n: nat)
    requires |created| == |deviceConfig.entities|
    requires n <= |deviceConfig.entities|
    requires forall k :: 0 <= k < n ==> EntityStep(device, deviceConfig, created, k).Success?
    ensures |Added(device, deviceConfig, created, n)| == n
    ensures forall j :: 0 <= j < n ==>
      Added(device, deviceConfig, created, n)[j]
        == (deviceConfig.entities[j].0, EntityStep(device, deviceConfig, created, j).value)
  {
    if n > 0 {
      AddedEntries(device, deviceConfig, created, n - 1);
    }
  }

  /** One more step: the declared keys seen grow by the next node id. */
  lemma DeclaredKeysStep(entities: seq<(string, EntityConfig)>, i: nat)
    requires i < |entities|
    ensures Keys(entities[..i + 1]) == Keys(entities[..i]) + {entities[i].0}
  {
    assert entities[..i + 1] == entities[..i] + [entities[i]];
    KeysAppend(entities[..i], entities[i].0, entities[i].1);
  }

  /**
   One iteration of AddEntities (add the created publisher to the device
   built so far) agrees with EntityStep, and a successful one re-establishes
   the loop invariants at i + 1.
   */
  lemma IterationMatchesStep(device: Device, deviceConfig: DeviceConfig, created: seq<Result<Publisher, Error>>,
                             current: Device, i: nat)
    requires |created| == |deviceConfig.entities|
    requires i < |deviceConfig.entities|
    requires forall k :: 0 <= k < i ==> EntityStep(device, deviceConfig, created, k).Success?
    requires current == Device(device.config, device.entities + Added(device, deviceConfig, created, i))
    requires Keys(current.entities) == Keys(device.entities) + Keys(deviceConfig.entities[..i])
    ensures created[i].Failure? ==> FailsFirstAt(device, deviceConfig, created, i, created[i].error)
    ensures created[i].Success? ==>
      var added := AddEntity(current, deviceConfig.entities[i].0, created[i].value);
      && (added.Failure? ==> FailsFirstAt(device, deviceConfig, created, i, added.error))
      && (added.Success? ==>
            && (forall k :: 0 <= k < i + 1 ==> EntityStep(device, deviceConfig, created, k).Success?)
            && added.value == Device(device.config, device.entities + Added(device, deviceConfig, created, i + 1))
            && Keys(added.value.entities) == Keys(device.entities) + Keys(deviceConfig.entities[..i + 1]))
  {
    if created[i].Success? {
      var nodeId := deviceConfig.entities[i].0;
      var added := AddEntity(current, nodeId, created[i].value);
      if added.Success? {
        DeclaredKeysStep(deviceConfig.entities, i);
        var prev := Added(device, deviceConfig, created, i);
        assert Added(device, deviceConfig, created, i + 1) == prev + [(nodeId, created[i].value)];
        assert device.entities + prev + [(nodeId, created[i].value)]
            == device.entities + (prev + [(nodeId, created[i].value)]);
      }
    }
  }

  /**
   AddEntities: for each (node id, configuration) in declaration order,
   derive the unique id, create the entity and add it to the device.
   */
  method AddEntities(env: Collaborators, factory: EntityFactory, device: Device, deviceConfig: DeviceConfig)
    returns (r: Result<Device, Error>)
    ensures r.Success? <==> EntitiesSucceed(device, deviceConfig, Creations(env, factory, deviceConfig))
    ensures r.Success? ==>
      r.value == Device(device.config,
                        device.entities + Added(device, deviceConfig, Creations(env, factory, deviceConfig),
                                                |deviceConfig.entities|))
    ensures r.Failure? ==> exists j :: FailsFirstAt(device, deviceConfig, Creations(env, factory, deviceConfig), j, r.error)
  {
    ghost var cs := Creations(env, factory, deviceConfig);
    var entities := deviceConfig.entities;
    var current := device;
    var i := 0;
    while i < |entities|
      invariant 0 <= i <= |entities|
      invariant forall k :: 0 <= k < i ==> EntityStep(device, deviceConfig, cs, k).Success?
      invariant current == Device(device.config, device.entities + Added(device, deviceConfig, cs, i))
      invariant Keys(current.entities) == Keys(device.entities) + Keys(entities[..i])
    {
      var (nodeId, config) := entities[i];
      var entityUniqueId := env.buildEntityUniqueId(deviceConfig, nodeId);
      var created := Create(env, factory, entityUniqueId, config, deviceConfig);
      CreationsAt(env, factory, deviceConfig, i);
      IterationMatchesStep(device, deviceConfig, cs, current, i);
      if created.Failure? {
        return Failure(created.error);
      }
      var added := AddEntity(current, nodeId, created.value);
      if added.Failure? {
        return Failure(added.error);
      }
      current := added.value;
      i := i + 1;
    }
    return Success(current);
  }

  /** A device configuration whose every entity can be created and added to a new device. */
  ghost predicate DeviceSucceeds(env: Collaborators, factory: EntityFactory, deviceConfig: DeviceConfig)
  {
    EntitiesSucceed(NewDevice(deviceConfig), deviceConfig, Creations(env, factory, deviceConfig))
  }

  /** Building the device fails first at some entity, with `e`. */
  ghost predicate DeviceFailsWith(env: Collaborators, factory: EntityFactory, deviceConfig: DeviceConfig, e: Error)
  {
    exists j :: FailsFirstAt(NewDevice(deviceConfig), deviceConfig, Creations(env, factory, deviceConfig), j, e)
  }

  /** The device built from a configuration whose entities all succeed. */
  ghost function BuiltDevice(env: Collaborators, factory: EntityFactory, deviceConfig: DeviceConfig): Device
    requires DeviceSucceeds(env, factory, deviceConfig)
  {
    Device(deviceConfig, Added(NewDevice(deviceConfig), deviceConfig, Creations(env, factory, deviceConfig),
                               |deviceConfig.entities|))
  }

  /**
   A device holds exactly its configuration's entities, in declaration
   order, keyed by their node ids, with no node id twice; each was built from
   its own configuration, under the unique id its device configuration
   derives for it, with the device's node id and the factory's client.
   */
  ghost predicate WellBuilt(env: Collaborators, factory: EntityFactory, deviceConfig: DeviceConfig, device: Device)
  {
    && device.config == deviceConfig
    && |device.entities| == |deviceConfig.entities|
    && UniqueKeys(device.entities)
    && forall j :: 0 <= j < |device.entities| ==>
      && device.entities[j].0 == deviceConfig.entities[j].0
      && device.entities[j].1.config == deviceConfig.entities[j].1
      && device.entities[j].1.uniqueId == env.buildEntityUniqueId(deviceConfig, deviceConfig.entities[j].0)
      && device.entities[j].1.deviceNodeId == env.toMqttTopicSnakeCase(deviceConfig.deviceId)
      && device.entities[j].1.client == factory.client
  }

  /** The factory's contract, read off one successful creation. */
  lemma CreatedEntity(env: Collaborators, factory: EntityFactory, deviceConfig: DeviceConfig, j: nat)
    requires j < |deviceConfig.entities|
    requires Creations(env, factory, deviceConfig)[j].Success?
    ensures var p := Creations(env, factory, deviceConfig)[j].value;
      && p.config == deviceConfig.entities[j].1
      && p.uniqueId == env.buildEntityUniqueId(deviceConfig, deviceConfig.entities[j].0)
      && p.deviceNodeId == env.toMqttTopicSnakeCase(deviceConfig.deviceId)
      && p.client == factory.client
  {
    CreationsAt(env, factory, deviceConfig, j);
  }

  /**
   When every step succeeds on a new device, the added entries are the
   declared node ids in order, each with its created publisher, and no node
   id occurs twice.
   */
  lemma AllStepsAdded(deviceConfig: DeviceConfig, created: seq<Result<Publisher, Error>>)
    requires |created| == |deviceConfig.entities|
    requires EntitiesSucceed(NewDevice(deviceConfig), deviceConfig, created)
    ensures var added := Added(NewDevice(deviceConfig), deviceConfig, created, |deviceConfig.entities|);
      && |added| == |deviceConfig.entities|
      && UniqueKeys(added)
      && forall j :: 0 <= j < |added| ==>
           added[j].0 == deviceConfig.entities[j].0 && created[j] == Success(added[j].1)
  {
    var es := deviceConfig.entities;
    var empty := NewDevice(deviceConfig);
    var added := Added(empty, deviceConfig, created, |es|);
    AddedEntries(empty, deviceConfig, created, |es|);
    forall j | 0 <= j < |es|
      ensures added[j].0 == es[j].0 && created[j] == Success(added[j].1)
      ensures es[j].0 !in Keys(es[..j])
    {
      assert EntityStep(empty, deviceConfig, created, j).Success?;
    }
    forall i, j | 0 <= i < j < |es|
      ensures added[i].0 != added[j].0
    {
      assert es[..j][i] == es[i];
      assert es[i].0 in Keys(es[..j]);
    }
  }

  /**
   A device built whole from a new device is BuiltDevice, and it holds
   exactly its configuration's entities, each carrying its own identity.
   */
  lemma BuiltDeviceIsWellBuilt(env: Collaborators, factory: EntityFactory, deviceConfig: DeviceConfig)
    requires DeviceSucceeds(env, factory, deviceConfig)
    ensures var empty := NewDevice(deviceConfig);
      Device(empty.config, empty.entities + Added(empty, deviceConfig, Creations(env, factory, deviceConfig),
                                                  |deviceConfig.entities|))
        == BuiltDevice(env, factory, deviceConfig)
    ensures WellBuilt(env, factory, deviceConfig, BuiltDevice(env, factory, deviceConfig))
  {
    var es := deviceConfig.entities;
    var cs := Creations(env, factory, deviceConfig);
    var empty := NewDevice(deviceConfig);
    var added := Added(empty, deviceConfig, cs, |es|);
    assert empty.entities + added == added;
    AllStepsAdded(deviceConfig, cs);
    forall j | 0 <= j < |es|
      ensures added[j].1.config == es[j].1
      ensures added[j].1.uniqueId == env.buildEntityUniqueId(deviceConfig, es[j].0)
      ensures added[j].1.deviceNodeId == env.toMqttTopicSnakeCase(deviceConfig.deviceId)
      ensures added[j].1.client == factory.client
    {
      CreatedEntity(env, factory, deviceConfig, j);
    }
  }

  /**
   Build: validate the bridge configuration, then create each device and
   add its entities, in configuration order; the first failure aborts.
   */
  method Build(env: Collaborators, config: BridgeConfiguration, client: MqttClient)
    returns (r: Result<Bridge, Error>)
    // Validation precedes all construction.
    ensures env.validateBridge(config).Fail? ==> r == Failure(ConfigurationError(env.validateBridge(config).error))
    // A bridge is returned exactly when every device builds.
    ensures r.Success? <==>
      && env.validateBridge(config).Pass?
      && forall i :: 0 <= i < |config.devices| ==> DeviceSucceeds(env, EntityFactory(client), config.devices[i])
    // It holds the client and one device per configuration, in order, each built whole.
    ensures r.Success? ==>
      && r.value.client == client
      && |r.value.devices| == |config.devices|
      && forall i :: 0 <= i < |config.devices| ==>
        && r.value.devices[i] == BuiltDevice(env, EntityFactory(client), config.devices[i])
        && WellBuilt(env, EntityFactory(client), config.devices[i], r.value.devices[i])
    // Otherwise the error is the first failure of the first device that fails.
    ensures r.Failure? && env.validateBridge(config).Pass? ==>
      exists i :: 0 <= i < |config.devices|
        && DeviceFailsWith(env, EntityFactory(client), config.devices[i], r.error)
        && forall k :: 0 <= k < i ==> DeviceSucceeds(env, EntityFactory(client), config.devices[k])
  {
    match env.validateBridge(config)
    case Fail(message) =>
      return Failure(ConfigurationError(message));
    case Pass =>
    var factory := EntityFactory(client);
    var devices: seq<Device> := [];
    var i := 0;
    while i < |config.devices|
      invariant 0 <= i <= |config.devices|
      invariant |devices| == i
      invariant forall k :: 0 <= k < i ==>
        && DeviceSucceeds(env, factory, config.devices[k])
        && devices[k] == BuiltDevice(env, factory, config.devices[k])
        && WellBuilt(env, factory, config.devices[k], devices[k])
    {
      var deviceConfig := config.devices[i];
      var device := NewDevice(deviceConfig);
      var added := AddEntities(env, factory, device, deviceConfig);
      if added.Failure? {
        assert DeviceFailsWith(env, factory, deviceConfig, added.error);
        return Failure(added.error);
      }
      BuiltDeviceIsWellBuilt(env, factory, deviceConfig);
      devices := devices + [added.value];
      i := i + 1;
    }
    return Success(Net2MqttBridge(client, devices));
  }
}
