/**
 * The Freebox router's sensors: the entities set up from a coordinator
 * refresh, the call sensor that counts new calls of one type, the disk
 * sensor that reports a partition's free space as a percentage, and the
 * temperature and connection readings.
 *
 * A refresh of the coordinator is a `CoordinatorData` value; a Python dict
 * the sensors iterate over is a sequence in the dict's order.
 */
module FreeboxSensor {
  import opened Wrappers
  import Text

  /** One entry of the call log; `datetime` is a Unix timestamp in seconds. */
  datatype Call = Call(isNew: bool, kind: string, datetime: int, name: string)

  /** `totalBytes` is None when the partition reports no total. */
  datatype Partition = Partition(id: int, labelName: string, totalBytes: Option<int>, freeBytes: int)

  datatype Disk = Disk(id: int, partitions: seq<Partition>)

  /** An entity description: its key and its display name. */
  datatype Description = Description(key: string, name: string)

  /** What one refresh of the coordinator holds. `sensors` stands for the
      refresh's temperature dict in insertion order, so its keys are distinct. */
  datatype CoordinatorData = CoordinatorData(
    sensors: seq<(string, Option<int>)>,
    sensorsConnection: map<string, int>,
    callList: Option<seq<Call>>,
    disks: seq<Disk>)

  // ---------------------------------------------------------------------
  // The call sensor

  predicate Selected(call: Call, key: string) { call.isNew && call.kind == key }

  /** The new calls whose type is `key`, in log order. */
  function NewCallsOfType(calls: seq<Call>, key: string): (r: seq<Call>)
    ensures |r| <= |calls|
    decreases |calls|
  {
    if |calls| == 0 then []
    else
      var prior := NewCallsOfType(calls[..|calls| - 1], key);
      var call := calls[|calls| - 1];
      if Selected(call, key) then prior + [call] else prior
  }

  /** The selected calls are exactly the logged calls that are new and of type `key`. */
  lemma {:induction false} NewCallsMembers(calls: seq<Call>, key: string, c: Call)
    ensures c in NewCallsOfType(calls, key) <==> c in calls && Selected(c, key)
    decreases |calls|
  {
    if |calls| > 0 {
      var n := |calls| - 1;
      NewCallsMembers(calls[..n], key, c);
      assert calls == calls[..n] + [calls[n]];
    }
  }

  /** The positions of the log that hold a new call of type `key`. */
  function SelectedPositions(calls: seq<Call>, key: string): set<int>
  {
    set i | 0 <= i < |calls| && Selected(calls[i], key)
  }

  lemma SelectedPositionsSnoc(calls: seq<Call>, key: string)
    requires |calls| > 0
    ensures var n := |calls| - 1;
      SelectedPositions(calls, key)
        == SelectedPositions(calls[..n], key) + (if Selected(calls[n], key) then {n} else {})
  {
    var n := |calls| - 1;
    assert forall i | 0 <= i < n :: calls[..n][i] == calls[i];
  }

  /** The sensor's value counts the log entries that are new calls of its type, one per entry. */
  lemma {:induction false} NewCallsCount(calls: seq<Call>, key: string)
    ensures |NewCallsOfType(calls, key)| == |SelectedPositions(calls, key)|
    decreases |calls|
  {
    if |calls| > 0 {
      var n := |calls| - 1;
      NewCallsCount(calls[..n], key);
      SelectedPositionsSnoc(calls, key);
      assert n !in SelectedPositions(calls[..n], key);
    } else {
      assert SelectedPositions(calls, key) == {};
    }
  }

  /** The call log of a refresh; a missing log holds no calls. */
  function CallsOf(callList: Option<seq<Call>>): seq<Call>
  {
    match callList
    case None => []
    case Some(calls) => calls
  }

  /** The loop of the call sensor's update: keep the new calls of type `key`. */
  method CollectNewCalls(callList: Option<seq<Call>>, key: string) returns (callListForType: seq<Call>)
    ensures callListForType == NewCallsOfType(CallsOf(callList), key)
  {
    callListForType := [];
    if callList.None? || callList.value == [] {
      return;
    }
    var calls := callList.value;
    for i := 0 to |calls|
      invariant callListForType == NewCallsOfType(calls[..i], key)
    {
      var call := calls[i];
      assert calls[..i + 1][..i] == calls[..i];
      if !call.isNew {
        continue;
      }
      if key == call.kind {
        callListForType := callListForType + [call];
      }
    }
    assert calls[..|calls|] == calls;
  }

  /**
   * The extra attributes: each selected call's timestamp mapped to its
   * caller's name. Calls that share a timestamp collapse into one entry,
   * so there are never more entries than calls.
   */
  function CallAttributes(calls: seq<Call>): (attrs: map<int, string>)
    ensures |attrs| <= |calls|
    decreases |calls|
  {
    if |calls| == 0 then map[]
    else
      var call := calls[|calls| - 1];
      CallAttributes(calls[..|calls| - 1])[call.datetime := call.name]
  }

  /** The attribute keys are exactly the timestamps of the calls. */
  lemma {:induction false} CallAttributesKeys(calls: seq<Call>)
    ensures CallAttributes(calls).Keys == set c | c in calls :: c.datetime
    decreases |calls|
  {
    if |calls| > 0 {
      var n := |calls| - 1;
      var init := calls[..n];
      CallAttributesKeys(init);
      assert calls == init + [calls[n]];
      assert (set c | c in calls :: c.datetime) == (set c | c in init :: c.datetime) + {calls[n].datetime};
    }
  }

  /** Among calls that share a timestamp, the later one's name wins. */
  lemma {:induction false} LaterCallWins(calls: seq<Call>, i: nat)
    requires i < |calls|
    requires forall j | i < j < |calls| :: calls[j].datetime != calls[i].datetime
    ensures calls[i].datetime in CallAttributes(calls) && CallAttributes(calls)[calls[i].datetime] == calls[i].name
    decreases |calls|
  {
    var n := |calls| - 1;
    var init := calls[..n];
    assert CallAttributes(calls) == CallAttributes(init)[calls[n].datetime := calls[n].name];
    if i < n {
      assert init[i] == calls[i];
      forall j | i < j < n ensures init[j].datetime != init[i].datetime {
        assert init[j] == calls[j];
      }
      LaterCallWins(init, i);
    }
  }

  /** The call sensor of one call type. */
  class FreeboxCallSensor {
    const key: string
    var nativeValue: int
    var extraStateAttributes: map<int, string>

    constructor (description: Description)
      ensures key == description.key && nativeValue == 0 && extraStateAttributes == map[]
    {
      key := description.key;
      nativeValue := 0;
      extraStateAttributes := map[];
    }

    /**
     * `_handle_coordinator_update`: the value becomes the number of new
     * calls of this sensor's type and the attributes index them by
     * timestamp; a missing or empty log gives 0 and no attributes.
     */
    method HandleCoordinatorUpdate(data: CoordinatorData)
      modifies this
      ensures nativeValue == |NewCallsOfType(CallsOf(data.callList), key)|
      ensures extraStateAttributes == CallAttributes(NewCallsOfType(CallsOf(data.callList), key))
      ensures CallsOf(data.callList) == [] ==> nativeValue == 0 && extraStateAttributes == map[]
      ensures |extraStateAttributes| <= nativeValue
    {
      var callListForType := CollectNewCalls(data.callList, key);
      extraStateAttributes := CallAttributes(callListForType);
      nativeValue := |callListForType|;
    }
  }

  // ---------------------------------------------------------------------
  // The disk sensor

  /**
   * The free space of a partition in percent, or None when its total is
   * missing or zero; no division happens then.
   */
  function DiskPercent(p: Partition): (value: Option<real>)
    ensures value.None? <==> p.totalBytes.None? || p.totalBytes.value == 0
    ensures value.Some? ==> value.value * (p.totalBytes.value as real) == (p.freeBytes * 100) as real
  {
    match p.totalBytes
    case None => None
    case Some(total) => if total == 0 then None else Some((p.freeBytes * 100) as real / total as real)
  }

  /** The disk with the given id in a refresh, if any. */
  function FindDisk(disks: seq<Disk>, id: int): (r: Option<Disk>)
    ensures r.Some? ==> r.value in disks && r.value.id == id
    ensures r.None? ==> forall d | d in disks :: d.id != id
  {
    if |disks| == 0 then None
    else if disks[0].id == id then Some(disks[0])
    else FindDisk(disks[1..], id)
  }

  /** The partition with the given id on a disk, if any. */
  function FindPartition(partitions: seq<Partition>, id: int): (r: Option<Partition>)
    ensures r.Some? ==> r.value in partitions && r.value.id == id
    ensures r.None? ==> forall p | p in partitions :: p.id != id
  {
    if |partitions| == 0 then None
    else if partitions[0].id == id then Some(partitions[0])
    else FindPartition(partitions[1..], id)
  }

  /**
   * The value the disk sensor's update computes as written: the percentage
   * of the partition captured when the entity was created, whatever the
   * latest refresh holds.
   */
  function CapturedDiskValue(captured: Partition, data: CoordinatorData): Option<real>
  {
    DiskPercent(captured)
  }

  /**
   * The value the update evidently intends: the percentage of the partition
   * as the latest refresh reports it, found by disk id and partition id.
   */
  function CurrentDiskValue(data: CoordinatorData, diskId: int, partitionId: int): (value: Option<real>)
    ensures forall d, p | d in data.disks && d.id == diskId && p in d.partitions && p.id == partitionId
      && (forall d' | d' in data.disks && d'.id == diskId :: d' == d)
      && (forall p' | p' in d.partitions && p'.id == partitionId :: p' == p) ::
      value == DiskPercent(p)
    ensures FindDisk(data.disks, diskId).None? ==> value.None?
  {
    match FindDisk(data.disks, diskId)
    case None => None
    case Some(disk) =>
      match FindPartition(disk.partitions, partitionId)
      case None => None
      case Some(p) => DiskPercent(p)
  }

  /** As written, two refreshes give the same value: the refresh is not read. */
  lemma CapturedIgnoresRefresh(captured: Partition, data: CoordinatorData, other: CoordinatorData)
    ensures CapturedDiskValue(captured, data) == CapturedDiskValue(captured, other)
  {
  }

  /**
   * The captured value agrees with the current one while the refresh still
   * reports the captured partition, unchanged, under the sensor's ids.
   */
  lemma CapturedAgreesWhileUnchanged(captured: Partition, data: CoordinatorData, diskId: int, disk: Disk)
    requires FindDisk(data.disks, diskId) == Some(disk)
    requires FindPartition(disk.partitions, captured.id) == Some(captured)
    ensures CapturedDiskValue(captured, data) == CurrentDiskValue(data, diskId, captured.id)
  {
  }

  /**
   * As written, a refresh that frees space on the partition does not move
   * the sensor: created on a half-full 100-byte partition, it still reports
   * 50 % after a refresh in which the partition is empty.
   */
  lemma CapturedValueMissesRefresh()
    ensures var captured := Partition(1, "Disk", Some(100), 50);
      var refreshed := CoordinatorData([], map[], None, [Disk(0, [Partition(1, "Disk", Some(100), 100)])]);
      && CapturedDiskValue(captured, refreshed) == Some(50.0)
      && CurrentDiskValue(refreshed, 0, 1) == Some(100.0)
  {
  }

  /**
   * The disk sensor of one partition of one disk for one description. It
   * keeps the disk and partition records it was created with.
   */
  class FreeboxDiskSensor {
    const descriptionKey: string
    const disk: Disk
    const partition: Partition
    const name: string
    var nativeValue: Option<real>

    constructor (description: Description, disk: Disk, partition: Partition)
      ensures descriptionKey == description.key && this.disk == disk && this.partition == partition
      ensures name == partition.labelName + " " + description.name
      ensures nativeValue == None
    {
      descriptionKey := description.key;
      this.disk := disk;
      this.partition := partition;
      name := partition.labelName + " " + description.name;
      nativeValue := None;
    }

    /** `_handle_coordinator_update`: the percentage of the stored partition; the refresh is not read. */
    method HandleCoordinatorUpdate(data: CoordinatorData)
      modifies this
      ensures nativeValue == CapturedDiskValue(partition, data)
    {
      var value := None;
      if partition.totalBytes.Some? && partition.totalBytes.value != 0 {
        value := Some((partition.freeBytes * 100) as real / partition.totalBytes.value as real);
      }
      nativeValue := value;
    }
  }

  // ---------------------------------------------------------------------
  // Temperature and connection readings

  /** `data["sensors"][key]`: None stands for the KeyError of a key the refresh no longer has. */
  function TemperatureValue(sensors: seq<(string, Option<int>)>, key: string): (r: Option<Option<int>>)
    ensures r.None? <==> forall e | e in sensors :: e.0 != key
    ensures r.Some? ==> (key, r.value) in sensors
  {
    if |sensors| == 0 then None
    else if sensors[0].0 == key then Some(sensors[0].1)
    else TemperatureValue(sensors[1..], key)
  }

  /** A connection rate in the sensor's unit: the reading divided by 1000 (the rounding is not modelled). */
  function ConnectionValue(sensorsConnection: map<string, int>, key: string): (r: Option<real>)
    ensures r.None? <==> key !in sensorsConnection
    ensures r.Some? ==> r.value * 1000.0 == sensorsConnection[key] as real
  {
    if key in sensorsConnection then Some(sensorsConnection[key] as real / 1000.0) else None
  }

  // ---------------------------------------------------------------------
  // Entity enumeration

  datatype Entity =
    | TemperatureSensor(key: string)
    | ConnectionSensor(key: string)
    | CallSensor(key: string)
    | DiskSensor(key: string, diskId: int, partitionId: int, name: string)

  function DiskEntity(description: Description, disk: Disk, partition: Partition): Entity
  {
    DiskSensor(description.key, disk.id, partition.id, partition.labelName + " " + description.name)
  }

  /** One sensor per description, for one partition. */
  function PartitionEntities(disk: Disk, partition: Partition, descriptions: seq<Description>): (r: seq<Entity>)
    ensures |r| == |descriptions|
    ensures forall k | 0 <= k < |r| :: r[k] == DiskEntity(descriptions[k], disk, partition)
  {
    seq(|descriptions|, k requires 0 <= k < |descriptions| => DiskEntity(descriptions[k], disk, partition))
  }

  /** The sensors of one disk: partitions in order, descriptions within each. */
  function DiskEntitiesOf(disk: Disk, partitions: seq<Partition>, descriptions: seq<Description>): (r: seq<Entity>)
    ensures |r| == |partitions| * |descriptions|
    decreases |partitions|
  {
    if |partitions| == 0 then []
    else
      var prior := DiskEntitiesOf(disk, partitions[..|partitions| - 1], descriptions);
      Distribute(|partitions| - 1, 1, |descriptions|);
      prior + PartitionEntities(disk, partitions[|partitions| - 1], descriptions)
  }

  lemma Distribute(a: int, b: int, c: int)
    ensures (a + b) * c == a * c + b * c
  {
  }

  /** The number of (partition, description) pairs over all disks. */
  function PartitionCount(disks: seq<Disk>): nat
  {
    if |disks| == 0 then 0 else PartitionCount(disks[..|disks| - 1]) + |disks[|disks| - 1].partitions|
  }

  /** The disk sensors: disks in order, then partitions, then descriptions. */
  function DiskEntities(disks: seq<Disk>, descriptions: seq<Description>): (r: seq<Entity>)
    ensures |r| == PartitionCount(disks) * |descriptions|
    decreases |disks|
  {
    if |disks| == 0 then []
    else
      var disk := disks[|disks| - 1];
      var prior := DiskEntities(disks[..|disks| - 1], descriptions);
      Distribute(PartitionCount(disks[..|disks| - 1]), |disk.partitions|, |descriptions|);
      prior + DiskEntitiesOf(disk, disk.partitions, descriptions)
  }

  /** Every sensor of a disk comes from one of its partitions and one description, and every such pair has one. */
  lemma {:induction false} DiskEntitiesOfContents(disk: Disk, partitions: seq<Partition>, descriptions: seq<Description>, e: Entity)
    ensures e in DiskEntitiesOf(disk, partitions, descriptions) <==>
      exists p, d | p in partitions && d in descriptions :: e == DiskEntity(d, disk, p)
    decreases |partitions|
  {
    if |partitions| > 0 {
      var n := |partitions| - 1;
      var init := partitions[..n];
      DiskEntitiesOfContents(disk, init, descriptions, e);
      assert partitions == init + [partitions[n]];
      var last := PartitionEntities(disk, partitions[n], descriptions);
      if e in last {
        var k :| 0 <= k < |last| && last[k] == e;
        assert descriptions[k] in descriptions;
      }
      if exists d | d in descriptions :: e == DiskEntity(d, disk, partitions[n]) {
        var d :| d in descriptions && e == DiskEntity(d, disk, partitions[n]);
        var k :| 0 <= k < |descriptions| && descriptions[k] == d;
        assert last[k] == e;
      }
    }
  }

  /** Every disk sensor comes from a (disk, partition, description) triple, and every triple has one. */
  lemma {:induction false} DiskEntitiesContents(disks: seq<Disk>, descriptions: seq<Description>, e: Entity)
    ensures e in DiskEntities(disks, descriptions) <==>
      exists disk, p, d | disk in disks && p in disk.partitions && d in descriptions :: e == DiskEntity(d, disk, p)
    decreases |disks|
  {
    if |disks| > 0 {
      var n := |disks| - 1;
      var init := disks[..n];
      var disk := disks[n];
      DiskEntitiesContents(init, descriptions, e);
      DiskEntitiesOfContents(disk, disk.partitions, descriptions, e);
      assert disks == init + [disk];
    }
  }

  /**
   * `async_setup_entry`: one temperature sensor per key of the refresh's
   * temperature table, then the connection sensors, the call sensors, and
   * the disk sensors.
   */
  function SetupEntities(data: CoordinatorData, connection: seq<Description>, calls: seq<Description>, diskDescriptions: seq<Description>)
    : (entities: seq<Entity>)
    ensures |entities| == |data.sensors| + |connection| + |calls| + PartitionCount(data.disks) * |diskDescriptions|
    ensures forall k | 0 <= k < |data.sensors| :: entities[k] == TemperatureSensor(data.sensors[k].0)
    ensures forall k | 0 <= k < |connection| :: entities[|data.sensors| + k] == ConnectionSensor(connection[k].key)
    ensures forall k | 0 <= k < |calls| :: entities[|data.sensors| + |connection| + k] == CallSensor(calls[k].key)
    ensures entities[|data.sensors| + |connection| + |calls|..] == DiskEntities(data.disks, diskDescriptions)
  {
    var temperature := seq(|data.sensors|, k requires 0 <= k < |data.sensors| => TemperatureSensor(data.sensors[k].0));
    var connectionSensors := seq(|connection|, k requires 0 <= k < |connection| => ConnectionSensor(connection[k].key));
    var callSensors := seq(|calls|, k requires 0 <= k < |calls| => CallSensor(calls[k].key));
    var entities := temperature + connectionSensors + callSensors + DiskEntities(data.disks, diskDescriptions);
    assert entities[|data.sensors| + |connection| + |calls|..] == DiskEntities(data.disks, diskDescriptions);
    entities
  }

  // ---------------------------------------------------------------------
  // Unique ids

  /** A disk sensor's unique id: entry id, description key, disk id and partition id, separated by spaces. */
  function DiskUniqueId(entryId: string, key: string, diskId: int, partitionId: int): string
  {
    Text.Join([entryId, key, Text.IntToString(diskId), Text.IntToString(partitionId)], ' ')
  }

  /**
   * When neither the entry id nor the description key holds a space, a disk
   * sensor's unique id splits back into all four of its parts, so two disk
   * sensors of one entry share an id only if they share key, disk and partition.
   */
  lemma {:induction false} DiskUniqueIdRoundTrip(entryId: string, key: string, diskId: int, partitionId: int)
    requires ' ' !in entryId && ' ' !in key
    ensures var parts := Text.SplitOn(DiskUniqueId(entryId, key, diskId, partitionId), ' ');
      && |parts| == 4 && parts[0] == entryId && parts[1] == key
      && Text.ParseInt(parts[2]) == Some(diskId)
      && Text.ParseInt(parts[3]) == Some(partitionId)
  {
    var parts := [entryId, key, Text.IntToString(diskId), Text.IntToString(partitionId)];
    assert ' ' !in parts[2] && ' ' !in parts[3];
    Text.SplitJoin(parts, ' ');
  }
}
