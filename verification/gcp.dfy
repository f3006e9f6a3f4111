/** `CloudCollectorGoogleGCP` of `cloudinventario_google_gcp/collector.py`:
    the listing of a zone's instances, the machine-type and disk-type names
    cut out of their URLs, and the per-instance attribute map with its disk
    list and storage total. The `instances.list` response, the
    `machineTypes.get` query and the `disks.list` items are parameters. */
module Gcp {
  import opened Wrappers
  import opened Values
  import Regex
  import Seqs

  /** `_get_dependencies`: the resource names the collector declares it
      needs; nothing in this model calls it. */
  const DEPENDENCIES: seq<string> := ["storage"]

  const MACHINE_TYPES: string := "/machineTypes/"
  const DISK_TYPES: string := "/diskTypes/"

  // `re.sub` of ".*" followed by "/machineTypes/" with "": the machine-type name of a URL.
  function MachineTypeName(url: string): string {
    Regex.SubAnyThen(url, MACHINE_TYPES)
  }

  // The same with "/diskTypes/": the disk-type name of a URL.
  function DiskTypeName(url: string): string {
    Regex.SubAnyThen(url, DISK_TYPES)
  }

  /** For a one-line URL, the name is what follows the last occurrence of
      the marker, with no marker left in it; a URL without the marker is
      kept whole. */
  lemma TypeNameIsLastSuffix(url: string, marker: string)
    requires '\n' !in url && |marker| > 0
    ensures var r := Regex.SubAnyThen(url, marker);
            && |r| <= |url| && url[|url| - |r|..] == r
            && (!Regex.Occurs(url, marker, false) ==> r == url)
            && (Regex.Occurs(url, marker, false) ==>
                  |r| + |marker| <= |url| && url[|url| - |r| - |marker|..|url| - |r|] == marker
                  && !Regex.Occurs(r, marker, false))
  {
    Regex.SubAnyThenSingleLine(url, marker);
    Regex.StripThroughLastSpec(url, marker);
  }

  /** `machineTypes.get`'s response, through `.get` (absent keys are None). */
  datatype MachineTypeInfo = MachineTypeInfo(name: Value, guestCpus: Value, memoryMb: Value)

  /** An item of `disks.list`. */
  datatype DiskInfo = DiskInfo(name: string, diskType: string, created: Value, blockSize: Value, status: Value)

  /** An element of the instance's `disks`; `sizeGb` is `int(diskSizeGb)`. */
  datatype AttachedDisk = AttachedDisk(deviceName: string, sizeGb: int, kind: Value)

  /** An element of `accessConfigs`; `natIP` is None when the key is absent. */
  datatype AccessConfig = AccessConfig(natIp: Option<Value>)

  datatype Iface = Iface(name: Value, networkIp: Value, subnetwork: Value, accessConfigs: seq<AccessConfig>)

  /** An item of `instances.list`; `name` is None when the key is absent. */
  datatype Instance = Instance(name: Option<Value>, created: Value, description: Value, id: Value,
                               machineType: string, disks: seq<AttachedDisk>, ifaces: seq<Iface>,
                               monitoring: Value, status: Value, labels: Value)

  /** One element of `storages`. */
  datatype StorageEntry = StorageEntry(size: int, name: string, kind: Value, diskType: string,
                                       created: Value, blockSize: Value, status: Value)

  datatype Network = Network(name: Value, ip: Value, network: Value, natIp: Value)

  /** The attribute map handed to `new_record`. */
  datatype GcpData = GcpData(
    created: Value, name: Value, cluster: string, project: string, description: Value, id: Value,
    machineType: Value, cpus: Value, memory: Value, disks: nat, storage: int,
    primaryIp: Value, publicIp: Value, networks: seq<Network>, storages: seq<StorageEntry>,
    monitoring: Value, status: Value, isOn: int, tags: Value)

  /** `accessConfigs[0].get('natIP')`. */
  function NatIp(iface: Iface): Value
    requires HasAccessConfig(iface)
  {
    iface.accessConfigs[0].natIp.GetOr(VNone)
  }

  predicate HasAccessConfig(iface: Iface) {
    |iface.accessConfigs| > 0
  }

  /** Every index `_process_vm` takes on the interfaces exists. */
  predicate IfacesIndexable(ifaces: seq<Iface>) {
    |ifaces| > 0 && forall i :: 0 <= i < |ifaces| ==> HasAccessConfig(ifaces[i])
  }

  function Networks(ifaces: seq<Iface>): (r: seq<Network>)
    requires forall i :: 0 <= i < |ifaces| ==> HasAccessConfig(ifaces[i])
    ensures |r| == |ifaces|
    ensures forall i :: 0 <= i < |ifaces| ==>
              r[i] == Network(ifaces[i].name, ifaces[i].networkIp, ifaces[i].subnetwork, NatIp(ifaces[i]))
  {
    seq(|ifaces|, i requires 0 <= i < |ifaces| =>
      Network(ifaces[i].name, ifaces[i].networkIp, ifaces[i].subnetwork, NatIp(ifaces[i])))
  }

  /** `infos[k]` is the first disk description named `name`. */
  predicate FirstNamed(infos: seq<DiskInfo>, name: string, k: int) {
    0 <= k < |infos| && infos[k].name == name && forall j :: 0 <= j < k ==> infos[j].name != name
  }

  /** One `storages` entry: metadata from the first description with the
      disk's device name (the inner loop's `break`), else empty strings. */
  function EntryOf(d: AttachedDisk, infos: seq<DiskInfo>): (e: StorageEntry)
    ensures e.size == d.sizeGb * 1024 && e.name == d.deviceName && e.kind == d.kind
    ensures forall k :: FirstNamed(infos, d.deviceName, k) ==>
              e.diskType == DiskTypeName(infos[k].diskType) && e.created == infos[k].created
              && e.blockSize == infos[k].blockSize && e.status == infos[k].status
    ensures (forall k :: 0 <= k < |infos| ==> infos[k].name != d.deviceName) ==>
              e.diskType == "" && e.created == e.blockSize == e.status == VStr("")
  {
    assert forall k :: FirstNamed(infos, d.deviceName, k) ==>
             Seqs.FindFirst(infos, (info: DiskInfo) => info.name == d.deviceName) == Some(k);
    match Seqs.FindFirst(infos, (info: DiskInfo) => info.name == d.deviceName)
    case Some(k) =>
      var info := infos[k];
      StorageEntry(d.sizeGb * 1024, d.deviceName, d.kind, DiskTypeName(info.diskType),
                   info.created, info.blockSize, info.status)
    case None => StorageEntry(d.sizeGb * 1024, d.deviceName, d.kind, "", VStr(""), VStr(""), VStr(""))
  }

  function Entries(disks: seq<AttachedDisk>, infos: seq<DiskInfo>): (r: seq<StorageEntry>)
    ensures |r| == |disks|
    ensures forall i :: 0 <= i < |disks| ==> r[i] == EntryOf(disks[i], infos)
  {
    seq(|disks|, i requires 0 <= i < |disks| => EntryOf(disks[i], infos))
  }

  /** The `disks_size += ...` loop. */
  function DisksSize(disks: seq<AttachedDisk>): int {
    if |disks| == 0 then 0 else DisksSize(disks[..|disks| - 1]) + disks[|disks| - 1].sizeGb * 1024
  }

  function EntrySizes(entries: seq<StorageEntry>): (r: seq<int>)
    ensures |r| == |entries|
    ensures forall i :: 0 <= i < |entries| ==> r[i] == entries[i].size
  {
    seq(|entries|, i requires 0 <= i < |entries| => entries[i].size)
  }

  /** `storage` is the total of the `storages` entries' sizes. */
  lemma {:induction false} StorageIsSumOfEntries(disks: seq<AttachedDisk>, infos: seq<DiskInfo>)
    ensures DisksSize(disks) == Seqs.Sum(EntrySizes(Entries(disks, infos)))
  {
    if |disks| > 0 {
      var init := disks[..|disks| - 1];
      StorageIsSumOfEntries(init, infos);
      var all := EntrySizes(Entries(disks, infos));
      assert all[..|all| - 1] == EntrySizes(Entries(init, infos));
    }
  }

  /** `_process_vm`. The first interface's first access config is indexed
      unguarded (IndexError), and so is every interface's in the network
      loop; iterating a missing `disksInfo` (None) raises TypeError as soon
      as there is a disk. */
  function ProcessVm(rec: Instance, mt: MachineTypeInfo, infos: Option<seq<DiskInfo>>,
                     zone: string, project: string): (r: Result<GcpData>)
    ensures r.Success? <==> IfacesIndexable(rec.ifaces) && (|rec.disks| == 0 || infos.Some?)
    ensures r.Failure? ==> r.error == (if IfacesIndexable(rec.ifaces) then TypeError else IndexError)
    ensures r.Success? ==>
              var ds := rec.disks;
              var st := r.value.storages;
              && r.value.disks == |ds| == |st|
              && r.value.storage == Seqs.Sum(EntrySizes(st))
              && (forall i :: 0 <= i < |ds| ==> st[i] == EntryOf(ds[i], infos.GetOr([])))
    ensures r.Success? ==>
              && r.value.isOn in {0, 1}
              && (r.value.isOn == 1 <==> rec.status == VStr("RUNNING"))
              && r.value.primaryIp == rec.ifaces[0].networkIp
              && r.value.publicIp == rec.ifaces[0].accessConfigs[0].natIp.GetOr(VNone)
              && r.value.networks == Networks(rec.ifaces)
              && r.value.machineType == mt.name && r.value.cluster == zone && r.value.tags == rec.labels
  {
    if !IfacesIndexable(rec.ifaces) then Failure(IndexError)
    else if |rec.disks| > 0 && infos.None? then Failure(TypeError)
    else
      var ds := rec.disks;
      var known := infos.GetOr([]);
      StorageIsSumOfEntries(ds, known);
      Success(GcpData(
        rec.created, rec.name.GetOr(VNone), zone, project, rec.description, rec.id,
        mt.name, mt.guestCpus, mt.memoryMb, |ds|, DisksSize(ds),
        rec.ifaces[0].networkIp, NatIp(rec.ifaces[0]), Networks(rec.ifaces), Entries(ds, known),
        rec.monitoring, rec.status, if rec.status == VStr("RUNNING") then 1 else 0, rec.labels))
  }

  /** The instances `_fetch` processes: those with a 'name' key, in order. */
  function Named(items: seq<Instance>): (r: seq<Instance>)
    ensures forall i :: 0 <= i < |r| ==> r[i] in items && r[i].name.Some?
    ensures forall i :: 0 <= i < |items| && items[i].name.Some? ==> items[i] in r
  {
    Seqs.Filter(items, (x: Instance) => x.name.Some?)
  }

  /** Every instance that `_fetch` sees can be processed. */
  predicate AllProcessed(named: seq<Instance>, machineTypes: string -> MachineTypeInfo,
                         infos: Option<seq<DiskInfo>>, zone: string, project: string)
  {
    forall i :: 0 <= i < |named| ==>
      ProcessVm(named[i], machineTypes(MachineTypeName(named[i].machineType)), infos, zone, project).Success?
  }

  /** `_fetch`: a response without 'items' raises KeyError; otherwise each
      named instance, with the machine type its URL names, is processed in
      order, and the first error ends the listing. */
  function Fetch(items: Option<seq<Instance>>, machineTypes: string -> MachineTypeInfo,
                 infos: Option<seq<DiskInfo>>, zone: string, project: string): (r: Result<seq<GcpData>>)
    ensures items.None? ==> r == Failure(KeyError("items"))
    ensures items.Some? ==> (r.Success? <==> AllProcessed(Named(items.value), machineTypes, infos, zone, project))
    ensures items.Some? && r.Success? ==>
              var named := Named(items.value);
              && |r.value| == |named|
              && forall i :: 0 <= i < |named| ==>
                   r.value[i] == ProcessVm(named[i], machineTypes(MachineTypeName(named[i].machineType)),
                                           infos, zone, project).value
  {
    match items
    case None => Failure(KeyError("items"))
    case Some(xs) =>
      var named := Named(xs);
      var f := (rec: Instance) => ProcessVm(rec, machineTypes(MachineTypeName(rec.machineType)), infos, zone, project);
      Seqs.MapResultAll(f, named);
      assert forall i :: 0 <= i < |named| ==>
               f(named[i]) == ProcessVm(named[i], machineTypes(MachineTypeName(named[i].machineType)), infos, zone, project);
      Seqs.MapResult(f, named)
  }

  /** An instance without a 'name' key adds nothing to the listing. */
  lemma UnnamedSkipped(items: seq<Instance>, x: Instance, machineTypes: string -> MachineTypeInfo,
                       infos: Option<seq<DiskInfo>>, zone: string, project: string)
    requires x.name.None?
    ensures Fetch(Some(items + [x]), machineTypes, infos, zone, project)
            == Fetch(Some(items), machineTypes, infos, zone, project)
  {
    Seqs.FilterConcat(items, [x], (x: Instance) => x.name.Some?);
    assert Named([x]) == [];
    assert Named(items) + [] == Named(items);
  }
}
