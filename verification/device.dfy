/**
 A device: its configuration and its entities keyed by entity node id, in
 the order they were added. Node ids are unique within a device.
 */
module Devices {
  import opened Wrappers
  import opened Configuration
  import opened Errors
  import opened Entities

  datatype Device = Device(config: DeviceConfig, entities: seq<(string, Publisher)>)

  /** What the device factory returns for a configuration: a device with no entities yet. */
  function NewDevice(deviceConfig: DeviceConfig): Device
  {
    Device(deviceConfig, [])
  }

  /** No node id occurs twice. */
  ghost predicate UniqueKeys(entities: seq<(string, Publisher)>)
  {
    forall i, j :: 0 <= i < j < |entities| ==> entities[i].0 != entities[j].0
  }

  /** The entity added under `nodeId`, if any, searched in insertion order. */
  function Lookup(entities: seq<(string, Publisher)>, nodeId: string): Option<Publisher>
  {
    if |entities| == 0 then None
    else if entities[0].0 == nodeId then Some(entities[0].1)
    else Lookup(entities[1..], nodeId)
  }

  /** A key is found exactly when it is one of the device's node ids. */
  lemma {:induction false} LookupFindsKeys(entities: seq<(string, Publisher)>, nodeId: string)
    ensures Lookup(entities, nodeId).Some? <==> nodeId in Keys(entities)
  {
    if |entities| > 0 {
      LookupFindsKeys(entities[1..], nodeId);
      assert entities[0].0 in Keys(entities);
      assert Keys(entities) == {entities[0].0} + Keys(entities[1..]) by {
        forall k | k in Keys(entities)
          ensures k in {entities[0].0} + Keys(entities[1..])
        {
          var i :| 0 <= i < |entities| && entities[i].0 == k;
          if i > 0 {
            assert entities[1..][i - 1] == entities[i];
          }
        }
        forall k | k in Keys(entities[1..])
          ensures k in Keys(entities)
        {
          var i :| 0 <= i < |entities[1..]| && entities[1..][i].0 == k;
          assert entities[i + 1] == entities[1..][i];
        }
      }
    }
  }

  /** Looking past an appended entry that has a different key. */
  lemma {:induction false} LookupAppend(entities: seq<(string, Publisher)>, key: string, p: Publisher, nodeId: string)
    requires key !in Keys(entities)
    ensures Lookup(entities + [(key, p)], nodeId) == if nodeId == key then Some(p) else Lookup(entities, nodeId)
  {
    var t := entities + [(key, p)];
    if |entities| == 0 {
      assert t == [(key, p)];
      assert t[1..] == [];
    } else {
      assert entities[0].0 in Keys(entities);
      assert t[0] == entities[0];
      assert t[1..] == entities[1..] + [(key, p)];
      assert Keys(entities[1..]) <= Keys(entities) by {
        forall k | k in Keys(entities[1..])
          ensures k in Keys(entities)
        {
          var i :| 0 <= i < |entities[1..]| && entities[1..][i].0 == k;
          assert entities[i + 1] == entities[1..][i];
        }
      }
      LookupAppend(entities[1..], key, p, nodeId);
    }
  }

  /**
   AddEntity: add `publisher` under `nodeId`; a node id the device already
   holds is rejected and the device is left as it was.
   */
  function AddEntity(device: Device, nodeId: string, publisher: Publisher): (r: Result<Device, Error>)
    ensures r.Success? <==> nodeId !in Keys(device.entities)
    ensures r.Failure? ==> r.error == DuplicateEntityNodeId(nodeId)
    ensures r.Success? ==>
      && r.value.config == device.config
      && Keys(r.value.entities) == Keys(device.entities) + {nodeId}
      && |r.value.entities| == |device.entities| + 1
      && r.value.entities[..|device.entities|] == device.entities
      && r.value.entities[|device.entities|] == (nodeId, publisher)
  {
    if nodeId in Keys(device.entities) then
      Failure(DuplicateEntityNodeId(nodeId))
    else
      KeysAppend(device.entities, nodeId, publisher);
      Success(Device(device.config, device.entities + [(nodeId, publisher)]))
  }

  /**
   After a successful AddEntity the new node id finds the new publisher,
   every other node id finds what it found before, and keys stay unique.
   */
  lemma AddEntityThenLookup(device: Device, nodeId: string, publisher: Publisher, other: string)
    requires AddEntity(device, nodeId, publisher).Success?
    ensures var d := AddEntity(device, nodeId, publisher).value;
      && Lookup(d.entities, nodeId) == Some(publisher)
      && (other != nodeId ==> Lookup(d.entities, other) == Lookup(device.entities, other))
      && (UniqueKeys(device.entities) ==> UniqueKeys(d.entities))
  {
    LookupAppend(device.entities, nodeId, publisher, nodeId);
    LookupAppend(device.entities, nodeId, publisher, other);
    var d := AddEntity(device, nodeId, publisher).value;
    if UniqueKeys(device.entities) {
      forall i, j | 0 <= i < j < |d.entities|
        ensures d.entities[i].0 != d.entities[j].0
      {
        if j == |device.entities| {
          assert d.entities[i] == device.entities[i];
          assert device.entities[i].0 in Keys(device.entities);
        } else {
          assert d.entities[i] == device.entities[i];
          assert d.entities[j] == device.entities[j];
        }
      }
    }
  }
}
