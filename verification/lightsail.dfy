/** `CloudCollectorAmazonLightsail` of
    `cloudinventario_amazon_lightsail/collector.py`: tags, the per-instance
    attribute map with its disk list and attached-storage total, and the
    listing of all instances. The `get_instances` pages are a parameter. */
module Lightsail {
  import opened Wrappers
  import opened Values
  import Assoc
  import Seqs

  /** `_get_dependencies`: the collector declares no resources it needs. */
  const DEPENDENCIES: seq<string> := []

  /** One `{"key", "value"}` tag; `value` is None when absent. */
  datatype Tag = Tag(key: string, value: Option<Value>)

  function TagPairs(tags: seq<Tag>): (r: seq<(string, Value)>)
    ensures |r| == |tags|
    ensures forall i :: 0 <= i < |tags| ==> r[i] == (tags[i].key, tags[i].value.GetOr(VNone))
  {
    seq(|tags|, i requires 0 <= i < |tags| => (tags[i].key, tags[i].value.GetOr(VNone)))
  }

  /** `_get_tags`: key to value (None when the value is absent), later
      duplicates win, a missing list gives `{}`. */
  function GetTags(tags: Option<seq<Tag>>): (m: map<string, Value>)
    ensures tags.None? ==> m == map[]
    ensures tags.Some? ==> m.Keys == set i | 0 <= i < |tags.value| :: tags.value[i].key
    ensures tags.Some? ==>
              forall j :: 0 <= j < |tags.value|
                && (forall l :: j < l < |tags.value| ==> tags.value[l].key != tags.value[j].key)
                ==> m[tags.value[j].key] == tags.value[j].value.GetOr(VNone)
  {
    var ts := tags.GetOr([]);
    var pairs := TagPairs(ts);
    assert Assoc.Keys(pairs) == set i | 0 <= i < |ts| :: ts[i].key by {
      forall k | k in set i | 0 <= i < |ts| :: ts[i].key ensures k in Assoc.Keys(pairs) {
        var i :| 0 <= i < |ts| && ts[i].key == k;
        assert pairs[i].0 == k;
      }
    }
    forall j | 0 <= j < |ts| && (forall l :: j < l < |ts| ==> ts[l].key != ts[j].key)
      ensures Assoc.IsLast(pairs, j)
    {
    }
    Assoc.ToMap(pairs)
  }

  /** A disk of `hardware['disks']`; `region` is its location's `regionName`. */
  datatype Disk = Disk(name: Value, region: Value, sizeGb: int, volumeType: Value, state: Value,
                       isAttached: Value, attachedTo: Value)

  /** `hardware`; `disks` is None when the key is absent. */
  datatype Hardware = Hardware(cpuCount: Value, ramGb: Value, disks: Option<seq<Disk>>)

  datatype Instance = Instance(createdAt: Value, name: Value, region: Value, zone: Value, arn: Value,
                               bundleId: Value, hardware: Option<Hardware>,
                               privateIp: Option<string>, publicIp: Option<string>,
                               blueprint: Value, stateName: Value, tags: Option<seq<Tag>>)

  /** One element of `storages`. */
  datatype DiskEntry = DiskEntry(id: Value, cluster: Value, storage: int, volumeType: Value,
                                 status: Value, isOn: Value, mounts: Value, details: Disk)

  /** The attribute map handed to `new_record`; `ramGb` is `ramSizeInGb`
      before its (floating-point) scaling to MB. */
  datatype LightsailData = LightsailData(
    created: Value, name: Value, cluster: Value, location: Value, id: Value, bundle: Value,
    cpus: Value, ramGb: Value, disks: nat, storage: int,
    primaryIp: Option<string>, publicIp: Option<string>,
    storages: seq<DiskEntry>, owner: Value, blueprint: Value,
    status: Value, isOn: int, tags: map<string, Value>)

  function EntryOf(d: Disk): DiskEntry {
    DiskEntry(d.name, d.region, d.sizeGb * 1024, d.volumeType, d.state, d.isAttached, d.attachedTo, d)
  }

  /** The `storage += ...` loop: sizes in MB of the attached disks. */
  function AttachedStorage(disks: seq<Disk>): int {
    if |disks| == 0 then 0
    else
      var d := disks[|disks| - 1];
      AttachedStorage(disks[..|disks| - 1]) + (if Truthy(d.isAttached) then d.sizeGb * 1024 else 0)
  }

  function Entries(disks: seq<Disk>): (r: seq<DiskEntry>)
    ensures |r| == |disks|
    ensures forall i :: 0 <= i < |disks| ==> r[i] == EntryOf(disks[i])
  {
    seq(|disks|, i requires 0 <= i < |disks| => EntryOf(disks[i]))
  }

  /** `_process_vm`; a missing `ramSizeInGb` or `disks` raises TypeError
      (`None * 1024`, `len(None)`). */
  function ProcessVm(inst: Instance, owner: Value): (r: Result<LightsailData>)
    ensures r.Success? <==> inst.hardware.Some? && inst.hardware.value.ramGb != VNone
                            && inst.hardware.value.disks.Some?
    ensures r.Failure? ==> r.error == TypeError
    ensures r.Success? ==>
              var disks := inst.hardware.value.disks.value;
              && r.value.disks == |disks| == |r.value.storages|
              && (forall i :: 0 <= i < |disks| ==>
                    r.value.storages[i].storage == disks[i].sizeGb * 1024
                    && r.value.storages[i].isOn == disks[i].isAttached)
              && r.value.storage == AttachedStorage(disks)
              && (r.value.isOn == 1 <==> inst.stateName == VStr("running"))
              && r.value.isOn in {0, 1}
              && r.value.owner == owner
              && r.value.tags == GetTags(inst.tags)
    ensures r.Success? && TruthyStr(inst.privateIp) ==> r.value.primaryIp == inst.privateIp
    ensures r.Success? && !TruthyStr(inst.privateIp) ==> r.value.primaryIp == inst.publicIp
  {
    var hw := inst.hardware.GetOr(Hardware(VNone, VNone, None));
    var disks := hw.disks.GetOr([]);
    if hw.ramGb == VNone || hw.disks.None? then Failure(TypeError)
    else
      Success(LightsailData(
        inst.createdAt, inst.name, inst.region, inst.zone, inst.arn, inst.bundleId,
        hw.cpuCount, hw.ramGb, |disks|, AttachedStorage(disks),
        Or(inst.privateIp, inst.publicIp), inst.publicIp,
        Entries(disks), owner, inst.blueprint,
        inst.stateName, if inst.stateName == VStr("running") then 1 else 0,
        GetTags(inst.tags)))
  }

  /** The MB of every listed disk. */
  function EntryStorages(entries: seq<DiskEntry>): (r: seq<int>)
    ensures |r| == |entries|
    ensures forall i :: 0 <= i < |entries| ==> r[i] == entries[i].storage
  {
    seq(|entries|, i requires 0 <= i < |entries| => entries[i].storage)
  }

  /** `storage` counts only attached disks, while `storages` lists every
      disk: with sizes that are not negative, `storage` lies between 0 and
      the total of the listed disks, and equals it when all are attached. */
  lemma {:induction false} StorageBounds(disks: seq<Disk>)
    requires forall i :: 0 <= i < |disks| ==> disks[i].sizeGb >= 0
    ensures 0 <= AttachedStorage(disks) <= Seqs.Sum(EntryStorages(Entries(disks)))
    ensures (forall i :: 0 <= i < |disks| ==> Truthy(disks[i].isAttached)) ==>
              AttachedStorage(disks) == Seqs.Sum(EntryStorages(Entries(disks)))
    ensures (forall i :: 0 <= i < |disks| ==> !Truthy(disks[i].isAttached)) ==> AttachedStorage(disks) == 0
  {
    if |disks| > 0 {
      var init := disks[..|disks| - 1];
      StorageBounds(init);
      var all := EntryStorages(Entries(disks));
      assert all[..|all| - 1] == EntryStorages(Entries(init));
    }
  }

  /** Every instance of the listing can be processed. */
  predicate AllProcessed(all: seq<Instance>, owner: Value) {
    forall i :: 0 <= i < |all| ==> ProcessVm(all[i], owner).Success?
  }

  /** `_fetch`: every instance of every page, processed in order; the first error ends it. */
  function Fetch(pages: seq<seq<Instance>>, owner: Value): (r: Result<seq<LightsailData>>)
    ensures r.Success? <==> AllProcessed(Seqs.Concat(pages), owner)
    ensures r.Success? ==>
              var all := Seqs.Concat(pages);
              && |r.value| == |all|
              && forall i :: 0 <= i < |all| ==> r.value[i] == ProcessVm(all[i], owner).value
  {
    var f := inst => ProcessVm(inst, owner);
    var all := Seqs.Concat(pages);
    Seqs.MapResultAll(f, all);
    assert forall i :: 0 <= i < |all| ==> f(all[i]) == ProcessVm(all[i], owner);
    Seqs.MapResult(f, all)
  }
}
