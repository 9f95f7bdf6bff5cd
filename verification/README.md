# Net2HassMqtt: entity factory and bridge builder

Net2HassMqtt bridges an in-process model of devices and their entities to Home Assistant over MQTT. This Dafny project models the build-time part of the bridge:

- **The entity factory** (`EntityFactory.Create`). It validates an entity configuration. It then looks up the configuration's Home Assistant domain name in a table of constructors. Six domains map to entity classes: binary sensor, cover, number, sensor, switch and valve. Humidifier and update are in the table but are rejected as "not yet implemented". Any other name fails the lookup. The chosen constructor casts the configuration to its own configuration class. It builds the entity with:
  - the unique id, unchanged;
  - the snake-case topic form of the device id as the device node id;
  - the factory's one MQTT client.
- **The bridge builder** (`HassMqttBridgeBuilder.Build` and `AddEntities`). It validates the bridge configuration. Then, for each device configuration in order, it creates a device and adds the device's entities in declaration order. Each entity is made by the factory under the unique id that the device configuration derives from the entity's node id. The first failure aborts the whole build, so a bridge is never returned partly built.

Exceptions become `Result` values. An `Error` datatype has one case for each way this model lets a build fail: a rejected configuration, an unknown domain name, a domain that is not yet implemented, a configuration of the wrong class, and a duplicate entity node id.

Some collaborators have bodies that are not part of this model: the two `Validate` methods, `DeviceConfig.BuildEntityUniqueId` and `ToMqttTopicSnakeCase`. They are fields of a `Collaborators` record, so every property holds whatever they compute. The MQTT client is an opaque handle passed to `Build`, standing for the one that dependency injection resolves.

Modules:
- `Wrappers`: `Option`, `Result` and `Outcome`.
- `Domains`: the eight domains the table names, with their Home Assistant spellings.
- `Configuration`: configuration records and the collaborators.
- `Errors`: the error cases and the "not yet implemented" message.
- `Entities`: publishers and the configuration class each entity class takes.
- `Factory`: the lookup table, the constructors and `Create`.
- `Devices`: a device's ordered entities keyed by node id, and `AddEntity`.
- `BridgeBuilder`: `AddEntities` and `Build`.

The builder's contracts are stated against a step-by-step reference. `Creations` lists the factory's result for each declared entity. `EntityStep` says what adding the j-th declared entity yields once all earlier ones were added. `Added` lists the entries that the successful steps contribute. `WellBuilt` says what a finished device holds.

## Model

| member | source | states |
|---|---|---|
| Domains.DomainNamed | Net2HassMqtt/Entities/Framework/EntityFactory.cs:24-31 | Reads a domain back from its name. When it finds a domain, that domain has the given name. It finds none exactly when no declared domain has that name. |
| Domains.HassDomainNameInjective | Net2HassMqtt/Entities/Framework/EntityFactory.cs:22-32 | No two of the eight domains share a name, so the dictionary initialiser never meets a duplicate key. |
| Factory.DomainTableMatchesDomains | Net2HassMqtt/Entities/Framework/EntityFactory.cs:22-32 | The table's keys are exactly the declared domain names. Each key maps to that domain's entity class, or to "not yet supported" for Humidifier and Update. This agrees with the exhaustive match `SupportedKind`. |
| Factory.DomainTableHasEightEntries | Net2HassMqtt/Entities/Framework/EntityFactory.cs:22-32 | The table has eight entries. Its keys are the eight domain names, which are distinct by `HassDomainNameInjective`, so no initialiser entry overwrites another. |
| Entities.KindForClassRoundTrip | Net2HassMqtt/Entities/Framework/EntityFactory.cs:37-71 | The class each constructor casts to and the entity class a configuration class belongs to are inverse tables. |
| Factory.Construct | Net2HassMqtt/Entities/Framework/EntityFactory.cs:37-71 | The cast succeeds exactly for the entity class that the configuration's class belongs to, read off the configuration side. A configuration therefore never becomes an entity of another class. On success the entity carries the given configuration, unique id and node id and the factory's client. Otherwise the cast error names both classes. |
| Factory.ConstructAcceptsOneKind | Net2HassMqtt/Entities/Framework/EntityFactory.cs:37-71 | At most one of the six constructors accepts a given configuration. One does exactly when the configuration is of one of the six configuration classes. |
| Factory.EntityNotSupported | Net2HassMqtt/Entities/Framework/EntityFactory.cs:73-76 | Always fails as not implemented. The domain read back from the message text is the configuration's domain. |
| Factory.Create | Net2HassMqtt/Entities/Framework/EntityFactory.cs:20-35 | A rejected configuration fails with the validation error, whatever its domain. A name that no declared domain has fails the lookup. Humidifier and Update fail as not implemented, naming the domain. A supported domain yields exactly its own entity class, or the cast error. Anything built carries the configuration and unique id unchanged, the snake-cased device id and the factory's own client. |
| Factory.CreateUnsupportedMessage | Net2HassMqtt/Entities/Framework/EntityFactory.cs:73-76 | For Humidifier and Update the error message is "Entity domain '<name>' not yet implemented." |
| Factory.CreateSharesDeviceNodeIdAndClient | Net2HassMqtt/Entities/Framework/EntityFactory.cs:34 | Two entities created for the same device get the same device node id and the same client. |
| Errors.NotImplementedMessageNamesDomain | Net2HassMqtt/Entities/Framework/EntityFactory.cs:75 | The domain name can be read back from the message, between the fixed prefix and the fixed suffix. |
| Errors.NotImplementedMessageRoundTrip | Net2HassMqtt/Entities/Framework/EntityFactory.cs:75 | Reading the domain back from a "not yet implemented" message gives the domain it was made for. |
| Errors.NotImplementedMessageInjective | Net2HassMqtt/Entities/Framework/EntityFactory.cs:75 | Distinct domain names give distinct messages. |
| Devices.AddEntity | Net2HassMqtt/Configuration/Building/HassMqttBridgeBuilder.cs:42 | Adding succeeds exactly when the node id is new to the device. On success the earlier entries are kept in order, the new entry is appended, and the key set grows by that node id. On failure the error is the duplicate node id. |
| Devices.AddEntityThenLookup | Net2HassMqtt/Configuration/Building/HassMqttBridgeBuilder.cs:42 | After adding, the new node id finds the new publisher. Every other node id finds what it found before. Unique keys stay unique. |
| Devices.LookupFindsKeys | Net2HassMqtt/Configuration/Building/HassMqttBridgeBuilder.cs:42 | A node id is found on a device exactly when it is one of the device's keys. |
| BridgeBuilder.AddedEntries | Net2HassMqtt/Configuration/Building/HassMqttBridgeBuilder.cs:37-43 | After n successful steps the device has gained n entries. Entry j is the j-th declared node id paired with the publisher that step j created. |
| BridgeBuilder.IterationMatchesStep | Net2HassMqtt/Configuration/Building/HassMqttBridgeBuilder.cs:41-42 | One loop iteration fails exactly as `EntityStep` says, with the same error: the factory's error first, otherwise the duplicate node id from `AddEntity`. A successful iteration extends the device by that step's entry, and its keys by that node id. |
| BridgeBuilder.AllStepsAdded | Net2HassMqtt/Configuration/Building/HassMqttBridgeBuilder.cs:37-43 | When every step succeeds on a new device, the added entries are the declared node ids, in order, each with the publisher created for it, and no node id occurs twice. |
| BridgeBuilder.AddEntities | Net2HassMqtt/Configuration/Building/HassMqttBridgeBuilder.cs:35-44 | Succeeds exactly when every declared entity can be created and added. The device then gains exactly those entries, in declaration order. On failure the error is that of the first entity that fails. |
| BridgeBuilder.BuiltDeviceIsWellBuilt | Net2HassMqtt/Configuration/Building/HassMqttBridgeBuilder.cs:35-44 | A device built whole holds exactly its configuration's entities, in order, with no node id twice. Each entity was built from its own configuration, under `BuildEntityUniqueId(nodeId)` of its own device configuration, with the device's snake-cased id and the factory's client. |
| BridgeBuilder.Build | Net2HassMqtt/Configuration/Building/HassMqttBridgeBuilder.cs:15-33 | Validation precedes all construction. A bridge is returned exactly when validation passes and every device builds whole. It holds the given client and one well-built device per device configuration, in order. Otherwise the error is the first failure of the first device that fails, and no bridge is returned. |

## Left out

- `GetServiceProvider` (dependency injection, hosting, Serilog and console logging) has nothing to verify. `Build` takes the MQTT client that it would resolve as a parameter.
- `CreateLogger` and the logger each entity receives are logging only.
- `EntityConfigBase.Validate`, `BridgeConfiguration.Validate`, `DeviceConfig.BuildEntityUniqueId` and `ToMqttTopicSnakeCase` have bodies outside this model. They are arbitrary functions in `Collaborators`. In particular, the injectivity of unique ids is not assumed.
- HassDomains.cs is not part of this model. The eight domain names use Home Assistant's spellings (`binary_sensor`, `cover`, …). No property depends on the exact spelling beyond the names being distinct.
- Device.cs is not part of this model. `AddEntity` treats the device's entities as a collection keyed by node id: it rejects a node id the device already holds and keeps insertion order.
- `DeviceConfig.Entities` is modelled as a sequence of (node id, configuration) pairs, so it may declare one node id twice. The pattern `var (entityNodeId, config)` at HassMqttBridgeBuilder.cs:37 suggests a dictionary, which would rule that out. If so, the declared-earlier branch of `EntityStep` is a generalisation the program never reaches.
- DeviceFactory.cs is not part of this model. `NewDevice` returns a device for the configuration with no entities.
- The entity constructors (`new NumberEntity(...)` and the others), `DeviceFactory.Create` and service resolution (`GetService<...>()!`) are assumed never to throw. Their bodies are outside this model, so the only failures modelled are the `Error` cases.
- The cast `(EntityConfigBase)config` in `AddEntities` is always satisfied here, because device configurations hold `EntityConfig` values.
- Subclasses of configuration classes are not modelled. A cast succeeds only for the exact class.
- The publishers' `CanRead` and `CanCommand` flags and their lifecycle (`PublishConfigAsync`, `PublishStateAsync`, `StartAsync`, `StopAsync`) are set or implemented by entity classes outside this model. The MQTT transport is network I/O and concurrency.
