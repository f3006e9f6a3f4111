/** `CloudCollectorMicrosoftAzure` of
    `cloudinventario_microsoft_azure/collector.py`: the resource-id
    comparison that tolerates case differences, the resource-group
    extraction, the disk lookups by id, and the status and address fields of
    a VM record. The Azure SDK clients are parameters: their listings
    arrive as sequences, and the primary interface's addresses as values. */
module Azure {
  import opened Wrappers
  import opened Values
  import opened Text
  import Seqs

  // ---------------------------------------------------------------------
  // `__check_resource_and_vm_id`.

  /** The loop over the aligned pieces: stop at the first pair that differs
      even after lower-casing. */
  function PiecesMatch(xs: seq<string>, ys: seq<string>): bool
    requires |xs| == |ys|
  {
    if |xs| == 0 then true
    else if xs[0] != ys[0] && Lower(xs[0]) != Lower(ys[0]) then false
    else PiecesMatch(xs[1..], ys[1..])
  }

  /** Both ids split on "/" into as many pieces, and the pieces agree up to case. */
  function CheckIds(resourceId: string, vmId: string): bool {
    var xs := Split(resourceId, '/');
    var ys := Split(vmId, '/');
    |xs| == |ys| && PiecesMatch(xs, ys)
  }

  function MapLower(xs: seq<string>): (r: seq<string>)
    ensures |r| == |xs|
    ensures forall i :: 0 <= i < |xs| ==> r[i] == Lower(xs[i])
  {
    seq(|xs|, i requires 0 <= i < |xs| => Lower(xs[i]))
  }

  lemma {:induction false} PiecesMatchLower(xs: seq<string>, ys: seq<string>)
    requires |xs| == |ys|
    ensures PiecesMatch(xs, ys) <==> MapLower(xs) == MapLower(ys)
  {
    if |xs| > 0 {
      PiecesMatchLower(xs[1..], ys[1..]);
      var mx, my := MapLower(xs), MapLower(ys);
      assert mx[1..] == MapLower(xs[1..]);
      assert my[1..] == MapLower(ys[1..]);
      assert mx == [mx[0]] + mx[1..] && my == [my[0]] + my[1..];
      assert mx == my <==> mx[0] == my[0] && mx[1..] == my[1..];
    }
  }

  /** Lower-casing does not move a separator that is not a letter. */
  lemma {:induction false} SplitLower(s: string)
    ensures Split(Lower(s), '/') == MapLower(Split(s, '/'))
  {
    if |s| > 0 {
      SplitLower(s[1..]);
      var rest := Split(s[1..], '/');
      assert Lower(s) == [LowerChar(s[0])] + Lower(s[1..]);
      assert Lower(s)[1..] == Lower(s[1..]);
      assert (LowerChar(s[0]) == '/') == (s[0] == '/');
      if s[0] != '/' {
        assert Lower([s[0]] + rest[0]) == [LowerChar(s[0])] + Lower(rest[0]);
        assert MapLower([[s[0]] + rest[0]] + rest[1..]) == [Lower([s[0]] + rest[0])] + MapLower(rest)[1..];
      } else {
        assert MapLower([""] + rest) == [""] + MapLower(rest);
      }
    }
  }

  /** The comparison is exactly case-insensitive equality of the whole ids
      (for ASCII letters). */
  lemma CheckIdsIsEqualsCI(a: string, b: string)
    ensures CheckIds(a, b) <==> EqualsCI(a, b)
  {
    var xs, ys := Split(a, '/'), Split(b, '/');
    SplitLower(a);
    SplitLower(b);
    JoinSplit(Lower(a), '/');
    JoinSplit(Lower(b), '/');
    if |xs| == |ys| {
      PiecesMatchLower(xs, ys);
    } else {
      assert |MapLower(xs)| != |MapLower(ys)|;
    }
  }

  /** Reflexive and symmetric, as equality up to case is. */
  lemma CheckIdsEquivalence(a: string, b: string)
    ensures CheckIds(a, a)
    ensures CheckIds(a, b) == CheckIds(b, a)
  {
    CheckIdsIsEqualsCI(a, a);
    CheckIdsIsEqualsCI(a, b);
    CheckIdsIsEqualsCI(b, a);
  }

  // ---------------------------------------------------------------------
  // `__get_resource_group_name`.

  /** `id.split("/")[4]`. The handler catches `copy.Error`, which an
      IndexError is not, so a short id raises. */
  function GetResourceGroupName(id: string): (r: Result<string>)
    ensures r.Success? <==> Count(id, '/') >= 4
    ensures r.Failure? ==> r.error == IndexError
    ensures r.Success? ==> |Split(id, '/')| > 4 && r.value == Split(id, '/')[4] && '/' !in r.value
  {
    SplitCount(id, '/');
    SplitPiecesHaveNoSeparator(id, '/');
    var pieces := Split(id, '/');
    if |pieces| > 4 then Success(pieces[4]) else Failure(IndexError)
  }

  /** The group is the fifth piece: "/s/1/g/RG" has it, "/s/1" does not. */
  lemma ResourceGroupExample()
    ensures GetResourceGroupName("/s/1/g/RG") == Success("RG")
  {
    var pieces := ["", "s", "1", "g", "RG"];
    assert Join(pieces, '/') == "/s/1/g/RG";
    SplitOfJoin(pieces);
  }

  /** An id with fewer than four separators has no group piece. */
  lemma ShortIdExample()
    ensures GetResourceGroupName("/s/1") == Failure(IndexError)
  {
    var short := ["", "s", "1"];
    assert Join(short, '/') == "/s/1";
    SplitOfJoin(short);
  }

  /** Splitting a join of separator-free pieces gives the pieces back. */
  lemma {:induction false} SplitOfJoin(pieces: seq<string>)
    requires |pieces| >= 1
    requires forall i :: 0 <= i < |pieces| ==> '/' !in pieces[i]
    ensures Split(Join(pieces, '/'), '/') == pieces
  {
    if |pieces| == 1 {
      SplitWithoutSeparator(pieces[0], '/');
    } else {
      SplitOfJoin(pieces[1..]);
      SplitPrefix(pieces[0], Join(pieces[1..], '/'));
    }
  }

  lemma {:induction false} SplitPrefix(p: string, rest: string)
    requires '/' !in p
    ensures Split(p + ['/'] + rest, '/') == [p] + Split(rest, '/')
  {
    if |p| == 0 {
      assert p + ['/'] + rest == ['/'] + rest;
      assert (['/'] + rest)[1..] == rest;
    } else {
      SplitPrefix(p[1..], rest);
      assert (p + ['/'] + rest)[1..] == p[1..] + ['/'] + rest;
      assert p == [p[0]] + p[1..];
    }
  }

  // ---------------------------------------------------------------------
  // Disk lookups.

  /** The index of the first element whose id matches `id`, if any. */
  function FirstMatch(ids: seq<string>, id: string): (r: Option<nat>)
    ensures r.Some? ==> r.value < |ids| && CheckIds(ids[r.value], id)
                        && forall j :: 0 <= j < r.value ==> !CheckIds(ids[j], id)
    ensures r.None? <==> forall j :: 0 <= j < |ids| ==> !CheckIds(ids[j], id)
  {
    if |ids| == 0 then None
    else if CheckIds(ids[0], id) then Some(0)
    else match FirstMatch(ids[1..], id)
      case None => None
      case Some(k) => Some(k + 1)
  }

  /** A disk of `disks.list_by_resource_group` as a dict; `sizeGb` is None
      when the disk carries no `disk_size_gb`. */
  datatype DiskDict = DiskDict(id: string, sizeGb: Option<int>, fields: map<string, Value>)

  /** `__get_os_disk_size`: the MB of the first disk whose id matches, else
      None; a matching disk without a size raises TypeError (`None * 1024`). */
  function GetOsDiskSize(disks: seq<DiskDict>, osDiskId: string): (r: Result<Option<int>>)
    ensures r == Success(None) <==> forall j :: 0 <= j < |disks| ==> !CheckIds(disks[j].id, osDiskId)
    ensures forall k :: 0 <= k < |disks| && CheckIds(disks[k].id, osDiskId)
                        && (forall j :: 0 <= j < k ==> !CheckIds(disks[j].id, osDiskId)) ==>
              r == (match disks[k].sizeGb
                    case None => Failure(TypeError)
                    case Some(g) => Success(Some(g * 1024)))
    ensures r.Failure? ==>
              && r.error == TypeError
              && exists k :: 0 <= k < |disks| && CheckIds(disks[k].id, osDiskId) && disks[k].sizeGb.None?
  {
    var ids := seq(|disks|, i requires 0 <= i < |disks| => disks[i].id);
    assert forall j :: 0 <= j < |disks| ==> ids[j] == disks[j].id;
    match FirstMatch(ids, osDiskId)
    case None => Success(None)
    case Some(k) =>
      match disks[k].sizeGb
      case None => Failure(TypeError)
      case Some(g) => Success(Some(g * 1024))
  }

  /** An entry of `storage_profile`'s `data_disks`, or its `os_disk`;
      `managedDiskId` is None for an unmanaged disk, whose `managed_disk`
      is None. */
  datatype DiskSpec = DiskSpec(managedDiskId: Option<string>, spec: Value)

  /** `disk_specs.get('managed_disk').get('id')`: AttributeError for an
      unmanaged disk. */
  function ManagedId(s: DiskSpec): (r: Result<string>)
    ensures r.Success? <==> s.managedDiskId.Some?
    ensures r.Success? ==> r.value == s.managedDiskId.value
    ensures r.Failure? ==> r.error == AttributeError
  {
    match s.managedDiskId
    case None => Failure(AttributeError)
    case Some(id) => Success(id)
  }

  /** The spec is managed and its managed-disk id matches `diskId`. */
  predicate SpecMatches(s: DiskSpec, diskId: string) {
    s.managedDiskId.Some? && CheckIds(s.managedDiskId.value, diskId)
  }

  /** The loop of `__create_disks_details` over `specs`: the index of the
      first spec that matches; AttributeError at an unmanaged spec reached
      before any match. */
  function FirstSpec(specs: seq<DiskSpec>, diskId: string): (r: Result<Option<nat>>)
    ensures r.Success? && r.value.Some? ==>
              && r.value.value < |specs| && SpecMatches(specs[r.value.value], diskId)
              && forall j :: 0 <= j < r.value.value ==> specs[j].managedDiskId.Some? && !SpecMatches(specs[j], diskId)
    ensures r == Success(None) <==>
              forall j :: 0 <= j < |specs| ==> specs[j].managedDiskId.Some? && !SpecMatches(specs[j], diskId)
    ensures r.Failure? ==>
              && r.error == AttributeError
              && exists k :: 0 <= k < |specs| && specs[k].managedDiskId.None?
                             && forall j :: 0 <= j < k ==> !SpecMatches(specs[j], diskId)
  {
    if |specs| == 0 then Success(None)
    else
      var id :- ManagedId(specs[0]);
      if CheckIds(id, diskId) then Success(Some(0))
      else match FirstSpec(specs[1..], diskId)
        case Failure(e) => Failure(e)
        case Success(None) => Success(None)
        case Success(Some(k)) => Success(Some(k + 1))
  }

  /** `__create_disks_details`: the data disks in order, then the OS disk;
      the first spec whose managed-disk id matches, else None. An unmanaged
      spec reached before the match raises AttributeError. */
  function CreateDisksDetails(dataDisks: seq<DiskSpec>, osDisk: DiskSpec, diskId: string): (r: Result<Option<DiskSpec>>)
    ensures var specs := dataDisks + [osDisk];
            && (r == Success(None) <==>
                  forall j :: 0 <= j < |specs| ==> specs[j].managedDiskId.Some? && !SpecMatches(specs[j], diskId))
            && (r.Success? && r.value.Some? ==>
                  exists k :: (0 <= k < |specs| && r.value.value == specs[k] && SpecMatches(specs[k], diskId)
                    && forall j :: 0 <= j < k ==> specs[j].managedDiskId.Some? && !SpecMatches(specs[j], diskId)))
            && (r.Failure? ==>
                  && r.error == AttributeError
                  && exists k :: 0 <= k < |specs| && specs[k].managedDiskId.None?
                                 && forall j :: 0 <= j < k ==> !SpecMatches(specs[j], diskId))
  {
    var specs := dataDisks + [osDisk];
    var found :- FirstSpec(specs, diskId);
    match found
    case None => Success(None)
    case Some(k) => Success(Some(specs[k]))
  }

  /** A data disk that matches wins over the OS disk, and the lookup cannot
      end in None; it succeeds when the data disks before it are managed. */
  lemma DataDiskFirst(dataDisks: seq<DiskSpec>, osDisk: DiskSpec, diskId: string, k: nat)
    requires k < |dataDisks| && SpecMatches(dataDisks[k], diskId)
    ensures CreateDisksDetails(dataDisks, osDisk, diskId) != Success(None)
    ensures CreateDisksDetails(dataDisks, osDisk, diskId) != Success(Some(osDisk)) || osDisk in dataDisks
    ensures (forall j :: 0 <= j < k ==> dataDisks[j].managedDiskId.Some?) ==>
              CreateDisksDetails(dataDisks, osDisk, diskId).Success?
  {
    var specs := dataDisks + [osDisk];
    assert specs[k] == dataDisks[k];
    var r := CreateDisksDetails(dataDisks, osDisk, diskId);
    if r == Success(Some(osDisk)) {
      var j :| 0 <= j < |specs| && r.value.value == specs[j] && SpecMatches(specs[j], diskId)
               && forall i :: 0 <= i < j ==> specs[i].managedDiskId.Some? && !SpecMatches(specs[i], diskId);
      assert j <= k;
      assert specs[j] == dataDisks[j];
    }
    if forall j :: 0 <= j < k ==> dataDisks[j].managedDiskId.Some? {
      forall j | 0 <= j < |specs| && (forall i :: 0 <= i < j ==> !SpecMatches(specs[i], diskId))
        ensures specs[j].managedDiskId.Some?
      {
        if j < k {
          assert specs[j] == dataDisks[j];
        }
      }
    }
  }

  /** `__get_dict_with_details`: sets `details_from_vm` and nothing else. */
  function GetDictWithDetails(d: map<string, Value>, details: Value): (r: map<string, Value>)
    ensures r.Keys == d.Keys + {"details_from_vm"}
    ensures r["details_from_vm"] == details
    ensures forall k :: k in d && k != "details_from_vm" ==> r[k] == d[k]
  {
    d["details_from_vm":= details]
  }

  /** One disk of the group with its spec from the VM, None when no spec matches. */
  function DiskWithDetails(d: DiskDict, dataDisks: seq<DiskSpec>, osDisk: DiskSpec): Result<map<string, Value>> {
    var found :- CreateDisksDetails(dataDisks, osDisk, d.id);
    Success(GetDictWithDetails(d.fields, match found case None => VNone case Some(s) => s.spec))
  }

  /** `__get_disks`: every disk of the group with its spec from the VM; the
      first disk whose spec lookup raises ends it with AttributeError. */
  function GetDisks(groupDisks: seq<DiskDict>, dataDisks: seq<DiskSpec>, osDisk: DiskSpec): (r: Result<seq<map<string, Value>>>)
    ensures r.Success? <==>
              forall i :: 0 <= i < |groupDisks| ==> CreateDisksDetails(dataDisks, osDisk, groupDisks[i].id).Success?
    ensures r.Success? ==>
              && |r.value| == |groupDisks|
              && forall i :: 0 <= i < |groupDisks| ==>
                   && r.value[i].Keys == groupDisks[i].fields.Keys + {"details_from_vm"}
                   && r.value[i]["details_from_vm"] ==
                        (match CreateDisksDetails(dataDisks, osDisk, groupDisks[i].id).value
                         case None => VNone
                         case Some(s) => s.spec)
    ensures r.Failure? ==>
              && r.error == AttributeError
              && (exists k :: 0 <= k < |groupDisks| && CreateDisksDetails(dataDisks, osDisk, groupDisks[k].id).Failure?)
              && exists j :: 0 <= j < |dataDisks + [osDisk]| && (dataDisks + [osDisk])[j].managedDiskId.None?
  {
    var f := (d: DiskDict) => DiskWithDetails(d, dataDisks, osDisk);
    Seqs.MapResultAll(f, groupDisks);
    Seqs.MapResult(f, groupDisks)
  }

  // ---------------------------------------------------------------------
  // `__get_networks_info`: the primary addresses.

  /** A primary IP configuration of a primary interface of the VM: its
      private address and the id of its public address, None when the
      configuration has no `public_ip_address`. */
  datatype IpConfig = IpConfig(privateIp: Option<string>, publicIpId: Option<string>)

  /** An entry of `public_ip_addresses.list` of the group. */
  datatype PublicIp = PublicIp(id: string, ipAddress: Option<string>)

  /** One primary configuration: its private address, and the address of the
      first listed public IP whose id equals the configuration's (exact
      equality here, not the case-tolerant comparison). AttributeError
      without a public address; IndexError when no listed id equals it. */
  function ConfigAddresses(c: IpConfig, pubs: seq<PublicIp>): (r: Result<(Option<string>, Option<string>)>)
    ensures c.publicIpId.None? ==> r == Failure(AttributeError)
    ensures c.publicIpId.Some? ==>
              && (r.Failure? <==> forall j :: 0 <= j < |pubs| ==> pubs[j].id != c.publicIpId.value)
              && (r.Failure? ==> r.error == IndexError)
    ensures r.Success? ==>
              && r.value.0 == c.privateIp
              && exists k :: 0 <= k < |pubs| && pubs[k].id == c.publicIpId.value && r.value.1 == pubs[k].ipAddress
                             && forall j :: 0 <= j < k ==> pubs[j].id != c.publicIpId.value
  {
    match c.publicIpId
    case None => Failure(AttributeError)
    case Some(id) =>
      match Seqs.FindFirst(pubs, (p: PublicIp) => p.id == id)
      case None => Failure(IndexError)
      case Some(k) => Success((c.privateIp, pubs[k].ipAddress))
  }

  /** The private and public address after the loop: (None, None) without a
      primary configuration, else those of the last one, which overwrites
      the earlier ones; the first configuration that raises ends it. */
  function NetworkAddresses(configs: seq<IpConfig>, pubs: seq<PublicIp>): (r: Result<(Option<string>, Option<string>)>)
    ensures r.Success? <==> forall i :: 0 <= i < |configs| ==> ConfigAddresses(configs[i], pubs).Success?
    ensures |configs| == 0 ==> r == Success((None, None))
    ensures r.Success? && |configs| > 0 ==> r == ConfigAddresses(configs[|configs| - 1], pubs)
    ensures r.Failure? ==>
              exists k :: 0 <= k < |configs| && r == ConfigAddresses(configs[k], pubs)
                          && forall i :: 0 <= i < k ==> ConfigAddresses(configs[i], pubs).Success?
    ensures r == Failure(AttributeError) ==> exists k :: 0 <= k < |configs| && configs[k].publicIpId.None?
  {
    var f := (c: IpConfig) => ConfigAddresses(c, pubs);
    Seqs.MapResultAll(f, configs);
    var all :- Seqs.MapResult(f, configs);
    if |all| == 0 then Success((None, None)) else Success(all[|all| - 1])
  }

  // ---------------------------------------------------------------------
  // `__process_vm`: the fields this model covers.

  /** A resource of `resources.list()`. */
  datatype Resource = Resource(id: string, createdTime: Value)

  /** One entry of the instance view's `statuses`. */
  datatype Status = Status(displayStatus: Value)

  /** `__get_created_time`: the first resource whose id matches the VM's; IndexError when none does. */
  function GetCreatedTime(resources: seq<Resource>, vmId: string): (r: Result<Value>)
    ensures r.Failure? <==> forall j :: 0 <= j < |resources| ==> !CheckIds(resources[j].id, vmId)
    ensures r.Failure? ==> r.error == IndexError
    ensures r.Success? ==>
              exists k :: (0 <= k < |resources| && CheckIds(resources[k].id, vmId)
                && r.value == resources[k].createdTime
                && forall j :: 0 <= j < k ==> !CheckIds(resources[j].id, vmId))
  {
    var ids := seq(|resources|, i requires 0 <= i < |resources| => resources[i].id);
    assert forall j :: 0 <= j < |resources| ==> ids[j] == resources[j].id;
    match FirstMatch(ids, vmId)
    case None => Failure(IndexError)
    case Some(k) => Success(resources[k].createdTime)
  }

  /** An entry of `virtual_machine_sizes.list(location)`. */
  datatype VmSize = VmSize(name: Value, cores: Value, memoryMb: Value)

  /** `__get_vm_info`: the first size of the VM's location named like the
      VM's `vm_size`; IndexError when none is. */
  function GetVmInfo(sizes: seq<VmSize>, vmSize: Value): (r: Result<VmSize>)
    ensures r.Failure? <==> forall j :: 0 <= j < |sizes| ==> sizes[j].name != vmSize
    ensures r.Failure? ==> r.error == IndexError
    ensures r.Success? ==>
              exists k :: 0 <= k < |sizes| && r.value == sizes[k] && sizes[k].name == vmSize
                          && forall j :: 0 <= j < k ==> sizes[j].name != vmSize
  {
    var found := Seqs.FindFirst(sizes, (z: VmSize) => z.name == vmSize);
    match found
    case None => Failure(IndexError)
    case Some(k) => Success(sizes[k])
  }

  /** What the disk and network lookups of `__process_vm` give: the group's
      disks with their specs, the OS disk's size in MB, and the private and
      public address. */
  datatype Lookups = Lookups(storages: seq<map<string, Value>>, storage: Option<int>,
                             privateIp: Option<string>, publicIp: Option<string>)

  /** Lines 99-106 of `__process_vm` in order: the disks' specs, the OS
      disk's managed id, the OS disk's size, then the primary addresses. */
  function DiskAndNetworkLookups(vm: Vm, a: Answers): (r: Result<Lookups>)
    ensures r.Success? <==>
              && GetDisks(a.disks, vm.dataDisks, vm.osDisk).Success?
              && vm.osDisk.managedDiskId.Some?
              && GetOsDiskSize(a.disks, vm.osDisk.managedDiskId.value).Success?
              && NetworkAddresses(a.primaryConfigs, a.publicIps).Success?
    ensures r.Success? ==>
              && r.value.storages == GetDisks(a.disks, vm.dataDisks, vm.osDisk).value
              && r.value.storage == GetOsDiskSize(a.disks, vm.osDisk.managedDiskId.value).value
              && (r.value.privateIp, r.value.publicIp) == NetworkAddresses(a.primaryConfigs, a.publicIps).value
    ensures r.Failure? ==> r.error in {IndexError, AttributeError, TypeError}
    ensures r == Failure(TypeError) ==> exists k :: 0 <= k < |a.disks| && a.disks[k].sizeGb.None?
    ensures r == Failure(AttributeError) ==>
              || (exists k :: 0 <= k < |vm.dataDisks + [vm.osDisk]| && (vm.dataDisks + [vm.osDisk])[k].managedDiskId.None?)
              || exists k :: 0 <= k < |a.primaryConfigs| && a.primaryConfigs[k].publicIpId.None?
  {
    assert (vm.dataDisks + [vm.osDisk])[|vm.dataDisks|] == vm.osDisk;
    var storages :- GetDisks(a.disks, vm.dataDisks, vm.osDisk);
    var osDiskId :- ManagedId(vm.osDisk);
    var storage :- GetOsDiskSize(a.disks, osDiskId);
    var ips :- NetworkAddresses(a.primaryConfigs, a.publicIps);
    Success(Lookups(storages, storage, ips.0, ips.1))
  }

  datatype AzureData = AzureData(created: Value, name: Value, location: Value, project: string,
                                 id: Value, vmSize: Value, cpus: Value, memory: Value,
                                 disks: nat, storage: Option<int>,
                                 primaryIp: Option<string>, publicIp: Option<string>,
                                 storages: seq<map<string, Value>>,
                                 owner: Value, os: Value, status: Value, isOn: int, tags: Value)

  /** The VM dict fields the record reads. */
  datatype Vm = Vm(id: string, name: Value, location: Value, vmId: Value, vmSize: Value,
                   dataDisks: seq<DiskSpec>, osDisk: DiskSpec, osType: Value, tags: Value)

  /** What the SDK answers about one VM: the sizes of its location, the
      disks of its resource group, its instance view's statuses, the primary
      configurations of its primary interfaces in loop order, and the public
      addresses of its group. */
  datatype Answers = Answers(sizes: seq<VmSize>, disks: seq<DiskDict>, statuses: seq<Status>,
                             primaryConfigs: seq<IpConfig>, publicIps: seq<PublicIp>)

  /** `__process_vm` with the SDK's answers as parameters. The lookups fail
      in line order: the creation time, the resource group, the VM size, the
      disks' specs, the OS disk's managed id, the OS disk's size, the primary
      addresses, then the second status. */
  function ProcessVm(vm: Vm, resources: seq<Resource>, a: Answers, tenant: Value): (r: Result<AzureData>)
    ensures r.Success? <==>
              && (exists k :: 0 <= k < |resources| && CheckIds(resources[k].id, vm.id))
              && Count(vm.id, '/') >= 4
              && (exists k :: 0 <= k < |a.sizes| && a.sizes[k].name == vm.vmSize)
              && GetDisks(a.disks, vm.dataDisks, vm.osDisk).Success?
              && vm.osDisk.managedDiskId.Some?
              && GetOsDiskSize(a.disks, vm.osDisk.managedDiskId.value).Success?
              && NetworkAddresses(a.primaryConfigs, a.publicIps).Success?
              && |a.statuses| >= 2
    ensures r.Failure? ==> r.error in {IndexError, AttributeError, TypeError}
    ensures r == Failure(TypeError) ==> exists k :: 0 <= k < |a.disks| && a.disks[k].sizeGb.None?
    ensures r == Failure(AttributeError) ==>
              || (exists k :: 0 <= k < |vm.dataDisks + [vm.osDisk]| && (vm.dataDisks + [vm.osDisk])[k].managedDiskId.None?)
              || exists k :: 0 <= k < |a.primaryConfigs| && a.primaryConfigs[k].publicIpId.None?
    ensures r.Success? ==>
              && (r.value.isOn == 1 <==> a.statuses[1].displayStatus == VStr("VM running"))
              && r.value.isOn in {0, 1}
              && r.value.status == a.statuses[1].displayStatus
              && |Split(vm.id, '/')| > 4 && r.value.project == Split(vm.id, '/')[4]
              && GetVmInfo(a.sizes, vm.vmSize) == Success(VmSize(vm.vmSize, r.value.cpus, r.value.memory))
              && r.value.disks == |a.disks| == |r.value.storages|
              && Success(r.value.storages) == GetDisks(a.disks, vm.dataDisks, vm.osDisk)
              && Success(r.value.storage) == GetOsDiskSize(a.disks, vm.osDisk.managedDiskId.value)
              && (var ips := NetworkAddresses(a.primaryConfigs, a.publicIps).value;
                  && r.value.publicIp == ips.1
                  && r.value.primaryIp == (if TruthyStr(ips.0) then ips.0 else ips.1))
              && r.value.owner == tenant
              && (Truthy(vm.tags) ==> r.value.tags == vm.tags)
              && (!Truthy(vm.tags) ==> r.value.tags == VList([]))
  {
    var created :- GetCreatedTime(resources, vm.id);
    var group :- GetResourceGroupName(vm.id);
    var info :- GetVmInfo(a.sizes, vm.vmSize);
    var l :- DiskAndNetworkLookups(vm, a);
    if |a.statuses| < 2 then Failure(IndexError)
    else
      var display := a.statuses[1].displayStatus;
      Success(AzureData(created, vm.name, vm.location, group, vm.vmId, vm.vmSize, info.cores, info.memoryMb,
                        |a.disks|, l.storage, Or(l.privateIp, l.publicIp), l.publicIp, l.storages,
                        tenant, vm.osType, display, if display == VStr("VM running") then 1 else 0,
                        OrValue(vm.tags, VList([]))))
  }

  /** A VM whose primary configuration has a private address only fails the
      whole record with AttributeError once the disk lookups pass. */
  lemma PrivateOnlyVmRaises(vm: Vm, resources: seq<Resource>, a: Answers, tenant: Value, k: nat)
    requires k < |a.primaryConfigs| && a.primaryConfigs[k].publicIpId.None?
    requires forall i :: 0 <= i < k ==> ConfigAddresses(a.primaryConfigs[i], a.publicIps).Success?
    requires (exists j :: 0 <= j < |resources| && CheckIds(resources[j].id, vm.id)) && Count(vm.id, '/') >= 4
    requires exists j :: 0 <= j < |a.sizes| && a.sizes[j].name == vm.vmSize
    requires GetDisks(a.disks, vm.dataDisks, vm.osDisk).Success? && vm.osDisk.managedDiskId.Some?
    requires GetOsDiskSize(a.disks, vm.osDisk.managedDiskId.value).Success?
    ensures ProcessVm(vm, resources, a, tenant) == Failure(AttributeError)
  {
    var n := NetworkAddresses(a.primaryConfigs, a.publicIps);
    assert n.Failure?;
    var j :| 0 <= j < |a.primaryConfigs| && n == ConfigAddresses(a.primaryConfigs[j], a.publicIps)
             && forall i :: 0 <= i < j ==> ConfigAddresses(a.primaryConfigs[i], a.publicIps).Success?;
    assert j == k;
    assert DiskAndNetworkLookups(vm, a) == Failure(AttributeError);
  }

  predicate AllProcessed(vms: seq<(Vm, Answers)>, resources: seq<Resource>, tenant: Value) {
    forall i :: 0 <= i < |vms| ==> ProcessVm(vms[i].0, resources, vms[i].1, tenant).Success?
  }

  /** `_fetch`: every VM of the subscription, with the one resource list
      of the subscription, processed in order; the first error ends it. */
  function Fetch(vms: seq<(Vm, Answers)>, resources: seq<Resource>, tenant: Value): (r: Result<seq<AzureData>>)
    ensures r.Success? <==> AllProcessed(vms, resources, tenant)
    ensures r.Success? ==>
              && |r.value| == |vms|
              && forall i :: 0 <= i < |vms| ==> r.value[i] == ProcessVm(vms[i].0, resources, vms[i].1, tenant).value
    ensures r.Failure? ==>
              exists k :: 0 <= k < |vms| && Failure(r.error) == ProcessVm(vms[k].0, resources, vms[k].1, tenant)
                          && forall i :: 0 <= i < k ==> ProcessVm(vms[i].0, resources, vms[i].1, tenant).Success?
  {
    var f := (v: (Vm, Answers)) => ProcessVm(v.0, resources, v.1, tenant);
    Seqs.MapResultAll(f, vms);
    Seqs.MapResult(f, vms)
  }
}
