/** `CloudCollectorVMWareVSphere` of `cloudinventario_vmware_vsphere/collector.py`:
    clusters and their connected hosts (storage summed over datastores, the
    primary address chosen among the physical NICs), virtual machines (disk
    storage, the partition of each guest NIC's addresses into one address
    and aliases, the primary address) and the folder walk that names each
    folder by its '.'-joined path down to a fixed depth. The vSphere
    inventory objects are parameters. */
module VSphere {
  import opened Wrappers
  import opened Values
  import Text
  import Assoc
  import Seqs

  /** `self.maxDepth`. */
  const MAX_DEPTH: nat := 10

  /** `1024 * 1024`: bytes per MB. */
  const MB: nat := 1048576

  /** `x // d` on each item. */
  function Floors(xs: seq<int>, d: int): (r: seq<int>)
    requires d > 0
    ensures |r| == |xs|
  {
    seq(|xs|, i requires 0 <= i < |xs| => xs[i] / d)
  }

  lemma MulMonotone(d: int, a: int, b: int)
    requires d >= 0 && a <= b
    ensures d * a <= d * b
  {
    assert d * b - d * a == d * (b - a);
  }

  lemma MulCancel(d: int, a: int, b: int)
    requires d > 0 && d * a < d * b
    ensures a < b
  {
    if a >= b {
      MulMonotone(d, b, a);
    }
  }

  lemma FloorAddBound(a: int, b: int, d: int)
    requires d > 0
    ensures a / d + b / d <= (a + b) / d
  {
    var qa, qb, qs := a / d, b / d, (a + b) / d;
    assert d * qa <= a && d * qb <= b;
    assert a + b < d * qs + d;
    assert d * (qa + qb) == d * qa + d * qb;
    assert d * (qs + 1) == d * qs + d;
    MulCancel(d, qa + qb, qs + 1);
  }

  /** Rounding each part down and then summing never gives more than
      summing and then rounding down: the per-item sizes of a listing
      never add up to more than the total the record reports. */
  lemma {:induction false} FloorSumBound(xs: seq<int>, d: int)
    requires d > 0
    ensures Seqs.Sum(Floors(xs, d)) <= Seqs.Sum(xs) / d
  {
    if |xs| > 0 {
      var init := xs[..|xs| - 1];
      FloorSumBound(init, d);
      assert Floors(xs, d)[..|xs| - 1] == Floors(init, d);
      FloorAddBound(Seqs.Sum(init), xs[|xs| - 1], d);
    }
  }

  /** `x or None` on an optional string. */
  function OrNone(o: Option<string>): (r: Option<string>)
    ensures r.None? || TruthyStr(r)
    ensures TruthyStr(o) ==> r == o
  {
    if TruthyStr(o) then o else None
  }

  // ---------------------------------------------------------------- hosts

  /** A datastore of a host; `vmfsSsd` is None when its info has no `vmfs`. */
  datatype Datastore = Datastore(name: Value, capacity: int, freeSpace: int, vmfsSsd: Option<Value>)

  /** An entry of the host's `storages`, sizes in MB. */
  datatype DatastoreInfo = DatastoreInfo(name: Value, capacity: int, free: int, ssd: Value)

  /** A virtual NIC of the host network config (`config.network.vnic`). */
  datatype Vnic = Vnic(mac: string, ipAddress: Option<string>, subnetMask: Option<string>)

  /** A physical NIC (`config.network.pnic`). */
  datatype Pnic = Pnic(device: Value, mac: string, ipAddress: Option<string>)

  /** An entry of the host's `networks`. */
  datatype HostNet = HostNet(name: Value, mac: string, ip: Option<string>, subnet: Option<string>, primary: bool)

  datatype Host = Host(connectionState: string, name: Value, id: Value, managementIp: Value,
                       memorySize: int, cpus: int, powerState: string, os: Value, cluster: Value,
                       datastores: seq<Datastore>, vnics: seq<Vnic>, pnics: seq<Pnic>)

  /** The attribute map of a 'server' record. */
  datatype HostData = HostData(name: Value, project: Value, id: Value, cpus: int, memory: int,
                               storage: int, storages: Option<seq<DatastoreInfo>>,
                               primaryIp: Option<string>, managementIp: Value,
                               networks: Option<seq<HostNet>>, os: Value, status: string, isOn: int)

  function DatastoreInfoOf(ds: Datastore): (r: DatastoreInfo)
    ensures r.capacity * MB <= ds.capacity < (r.capacity + 1) * MB
    ensures r.ssd == (if ds.vmfsSsd.Some? then ds.vmfsSsd.value else VNone)
  {
    DatastoreInfo(ds.name, ds.capacity / MB, ds.freeSpace / MB, ds.vmfsSsd.GetOr(VNone))
  }

  function Capacities(dss: seq<Datastore>): (r: seq<int>)
    ensures |r| == |dss| && forall i :: 0 <= i < |dss| ==> r[i] == dss[i].capacity
  {
    seq(|dss|, i requires 0 <= i < |dss| => dss[i].capacity)
  }

  /** The address details of the host's virtual NICs, keyed by MAC; a later
      NIC with the same MAC overwrites an earlier one. */
  datatype DevInfo = DevInfo(ip: Option<string>, subnet: Option<string>)

  function NetDevInfo(vnics: seq<Vnic>): map<string, DevInfo> {
    Assoc.ToMap(seq(|vnics|, i requires 0 <= i < |vnics| =>
                      (vnics[i].mac, DevInfo(OrNone(vnics[i].ipAddress), OrNone(vnics[i].subnetMask)))))
  }

  /** The network entry of a physical NIC, before the primary flag: the
      address of the virtual NIC with the same MAC, else the NIC's own. */
  function HostNetOf(p: Pnic, info: map<string, DevInfo>): (r: HostNet)
    ensures r.ip.None? || TruthyStr(r.ip)
    ensures p.mac in info && TruthyStr(info[p.mac].ip) ==> r.ip == info[p.mac].ip
    ensures (p.mac !in info || !TruthyStr(info[p.mac].ip)) ==> r.ip == OrNone(p.ipAddress)
    ensures r.subnet == (if p.mac in info then info[p.mac].subnet else None)
    ensures !r.primary
  {
    var dev := if p.mac in info then info[p.mac] else DevInfo(None, None);
    HostNet(p.device, p.mac, Or(dev.ip, OrNone(p.ipAddress)), dev.subnet, false)
  }

  /** The physical NIC loop: `primary_ip` is set from the first NIC while
      it is falsy, and a NIC whose address equals it is flagged. */
  function ScanPnics(nets: seq<HostNet>, p: Option<string>): (r: (seq<HostNet>, Option<string>))
    ensures |r.0| == |nets|
  {
    if |nets| == 0 then ([], p)
    else
      var prev := ScanPnics(nets[..|nets| - 1], p);
      var last := nets[|nets| - 1];
      var q := if TruthyStr(prev.1) then prev.1 else last.ip;
      (prev.0 + [last.(primary := TruthyStr(last.ip) && last.ip == q)], q)
  }

  /** Item `k` is the first whose address is truthy. */
  predicate FirstWithIp(nets: seq<HostNet>, k: int) {
    0 <= k < |nets| && TruthyStr(nets[k].ip) && forall j :: 0 <= j < k ==> !TruthyStr(nets[j].ip)
  }

  /** The host's primary address is the first truthy NIC address (or the
      one it started with, when that was truthy). */
  lemma {:induction false} HostPrimaryAddress(nets: seq<HostNet>, p: Option<string>)
    ensures TruthyStr(p) ==> ScanPnics(nets, p).1 == p
    ensures !TruthyStr(p) ==> forall k :: FirstWithIp(nets, k) ==> ScanPnics(nets, p).1 == nets[k].ip
    ensures !TruthyStr(p) && (forall i :: 0 <= i < |nets| ==> !TruthyStr(nets[i].ip)) ==> !TruthyStr(ScanPnics(nets, p).1)
    ensures forall i :: 0 <= i < |nets| && TruthyStr(nets[i].ip) ==> TruthyStr(ScanPnics(nets, p).1)
  {
    if |nets| > 0 {
      var init := nets[..|nets| - 1];
      HostPrimaryAddress(init, p);
      assert forall i :: 0 <= i < |init| ==> init[i] == nets[i];
      assert forall k :: FirstWithIp(nets, k) && k < |init| ==> FirstWithIp(init, k);
    }
  }

  /** The scan changes nothing but the flags, and a NIC is flagged primary
      iff its address is truthy and equal to the final primary address. */
  lemma {:induction false} HostPrimaryFlags(nets: seq<HostNet>, p: Option<string>)
    ensures forall i :: 0 <= i < |nets| ==>
              ScanPnics(nets, p).0[i] == nets[i].(primary := ScanPnics(nets, p).0[i].primary)
    ensures forall i :: 0 <= i < |nets| ==>
              (ScanPnics(nets, p).0[i].primary <==> TruthyStr(nets[i].ip) && nets[i].ip == ScanPnics(nets, p).1)
  {
    if |nets| > 0 {
      var init := nets[..|nets| - 1];
      HostPrimaryFlags(init, p);
      HostPrimaryAddress(init, p);
      var prev := ScanPnics(init, p);
      var r := ScanPnics(nets, p);
      assert r.0 == prev.0 + [r.0[|nets| - 1]];
      forall i | 0 <= i < |init|
        ensures r.0[i] == nets[i].(primary := r.0[i].primary)
        ensures r.0[i].primary <==> TruthyStr(nets[i].ip) && nets[i].ip == r.1
      {
        assert init[i] == nets[i];
        assert r.0[i] == prev.0[i];
      }
    }
  }

  /** `__process_host`: a host that is not connected gives no record.
      Otherwise storage is the total datastore capacity in whole MB, set
      (with the datastore list) only when the total is positive, and the
      primary address comes from the physical NICs. */
  function ProcessHost(h: Host): (r: Option<HostData>)
    ensures r.Some? <==> h.connectionState == "connected"
    ensures r.Some? ==>
              var total := Seqs.Sum(Capacities(h.datastores));
              && (r.value.storages.Some? <==> total > 0)
              && (total > 0 ==> r.value.storage * MB <= total < (r.value.storage + 1) * MB)
              && (total <= 0 ==> r.value.storage == 0)
              && (r.value.storages.Some? ==>
                    |r.value.storages.value| == |h.datastores|
                    && forall i :: 0 <= i < |h.datastores| ==>
                         r.value.storages.value[i] == DatastoreInfoOf(h.datastores[i]))
              && r.value.memory * MB <= h.memorySize < (r.value.memory + 1) * MB
              && (r.value.networks.Some? <==> |h.pnics| > 0)
              && (r.value.isOn == 1 <==> h.powerState == "poweredOn")
              && r.value.isOn in {0, 1}
  {
    if h.connectionState != "connected" then None
    else
      var total := Seqs.Sum(Capacities(h.datastores));
      var infos := seq(|h.datastores|, i requires 0 <= i < |h.datastores| => DatastoreInfoOf(h.datastores[i]));
      var info := NetDevInfo(h.vnics);
      var nets := seq(|h.pnics|, i requires 0 <= i < |h.pnics| => HostNetOf(h.pnics[i], info));
      var scanned := ScanPnics(nets, None);
      Some(HostData(h.name, h.cluster, h.id, h.cpus, h.memorySize / MB,
                    if total > 0 then total / MB else 0,
                    if total > 0 then Some(infos) else None,
                    scanned.1, h.managementIp,
                    if |scanned.0| > 0 then Some(scanned.0) else None,
                    h.os, h.powerState, if h.powerState == "poweredOn" then 1 else 0))
  }

  /** The NIC entries of a connected host, before flagging. */
  function HostNets(h: Host): seq<HostNet> {
    var info := NetDevInfo(h.vnics);
    seq(|h.pnics|, i requires 0 <= i < |h.pnics| => HostNetOf(h.pnics[i], info))
  }

  /** The primary address of a connected host is the first physical NIC
      address that is truthy, and None when there is none; exactly the
      NICs carrying it are flagged. */
  lemma HostPrimaryIp(h: Host)
    requires h.connectionState == "connected"
    ensures var r := ProcessHost(h).value;
      var nets := HostNets(h);
      && (forall k :: FirstWithIp(nets, k) ==> r.primaryIp == nets[k].ip)
      && ((forall i :: 0 <= i < |nets| ==> !TruthyStr(nets[i].ip)) ==> r.primaryIp == None)
      && (r.networks.Some? ==>
            forall i :: 0 <= i < |nets| ==>
              r.networks.value[i].ip == nets[i].ip
              && (r.networks.value[i].primary <==> TruthyStr(nets[i].ip) && nets[i].ip == r.primaryIp))
  {
    var nets := HostNets(h);
    HostPrimaryAddress(nets, None);
    HostPrimaryFlags(nets, None);
    if forall i :: 0 <= i < |nets| ==> !TruthyStr(nets[i].ip) {
      NoTruthyIpKeepsNone(nets);
    }
  }

  /** Among addresses that are each truthy or None, a scan that finds no
      truthy one ends with None. */
  lemma {:induction false} NoTruthyIpKeepsNone(nets: seq<HostNet>)
    requires forall i :: 0 <= i < |nets| ==> nets[i].ip.None? || TruthyStr(nets[i].ip)
    requires forall i :: 0 <= i < |nets| ==> !TruthyStr(nets[i].ip)
    ensures ScanPnics(nets, None).1 == None
  {
    if |nets| > 0 {
      NoTruthyIpKeepsNone(nets[..|nets| - 1]);
    }
  }

  /** Summing each datastore's MB never exceeds the host's storage. */
  lemma HostStoragesWithinStorage(h: Host)
    requires h.connectionState == "connected"
    requires ProcessHost(h).value.storages.Some?
    ensures var r := ProcessHost(h).value;
      Seqs.Sum(seq(|r.storages.value|, i requires 0 <= i < |r.storages.value| => r.storages.value[i].capacity))
        <= r.storage
  {
    var r := ProcessHost(h).value;
    var caps := Capacities(h.datastores);
    FloorSumBound(caps, MB);
    assert seq(|r.storages.value|, i requires 0 <= i < |r.storages.value| => r.storages.value[i].capacity)
           == Floors(caps, MB);
  }

  // ------------------------------------------------------------- clusters

  datatype Cluster = Cluster(name: Value, id: Value, cpus: int, totalMemory: int, hosts: seq<Host>)

  /** The attribute map of a 'cluster' record. */
  datatype ClusterData = ClusterData(name: Value, id: Value, cpus: int, memory: int)

  predicate Connected(h: Host) {
    h.connectionState == "connected"
  }

  /** The host loop of `__process_cluster`: the records of the connected
      hosts, in order. */
  function ProcessHosts(hosts: seq<Host>): (r: seq<HostData>)
    ensures |r| <= |hosts|
  {
    Seqs.FilterMap(hosts, ProcessHost)
  }

  /** One server record per connected host, in host order, and none for
      the others. */
  lemma ProcessHostsIsConnectedHosts(hosts: seq<Host>)
    ensures var connected := Seqs.Filter(hosts, Connected);
      && |ProcessHosts(hosts)| == |connected|
      && forall i :: 0 <= i < |connected| ==> ProcessHosts(hosts)[i] == ProcessHost(connected[i]).value
  {
    Seqs.FilterMapIsMapOfFilter(hosts, ProcessHost, Connected);
  }

  /** `__process_cluster`: the cluster record (memory in whole MB) followed
      by its hosts' records. */
  function ProcessCluster(c: Cluster): (r: (ClusterData, seq<HostData>))
    ensures r.0.memory * MB <= c.totalMemory < (r.0.memory + 1) * MB
    ensures r.0.name == c.name && r.0.id == c.id && r.0.cpus == c.cpus
    ensures |r.1| == |Seqs.Filter(c.hosts, Connected)|
  {
    ProcessHostsIsConnectedHosts(c.hosts);
    (ClusterData(c.name, c.id, c.cpus, c.totalMemory / MB), ProcessHosts(c.hosts))
  }

  // ------------------------------------------------------- virtual machines

  /** A disk's backing. In the vSphere API a flat (version 2) backing is a
      file backing, so both take the datastore name from the file branch;
      only the flat one reports thin provisioning. */
  datatype Backing =
    | FileBacking(datastore: Value)
    | FlatVer2Backing(datastore: Value, thinProvisioned: Value)
    | OtherBacking

  /** An item of `config.hardware.device`: a virtual disk or anything else. */
  datatype Device =
    | VirtualDisk(key: Value, deviceLabel: Value, capacityInKB: int, backing: Backing)
    | OtherDevice

  /** An entry of the VM's `storages`, capacity in MB. */
  datatype DiskInfo = DiskInfo(id: Value, name: Value, capacity: int, profile: Value, thin: Value)

  predicate IsDisk(d: Device) {
    d.VirtualDisk?
  }

  function DiskInfoOf(d: Device): (r: DiskInfo)
    requires d.VirtualDisk?
    ensures r.capacity * 1024 <= d.capacityInKB < (r.capacity + 1) * 1024
    ensures r.profile == (if d.backing.OtherBacking? then VNone else d.backing.datastore)
    ensures r.thin == (if d.backing.FlatVer2Backing? then d.backing.thinProvisioned else VNone)
  {
    var profile := match d.backing
      case FileBacking(ds) => ds
      case FlatVer2Backing(ds, _) => ds
      case OtherBacking => VNone;
    var thin := if d.backing.FlatVer2Backing? then d.backing.thinProvisioned else VNone;
    DiskInfo(d.key, d.deviceLabel, d.capacityInKB / 1024, profile, thin)
  }

  /** The virtual disks among the devices, in device order. */
  function Disks(devices: seq<Device>): (r: seq<Device>)
    ensures forall i :: 0 <= i < |r| ==> r[i].VirtualDisk?
  {
    Seqs.Filter(devices, IsDisk)
  }

  function DiskKbs(disks: seq<Device>): (r: seq<int>)
    requires forall i :: 0 <= i < |disks| ==> disks[i].VirtualDisk?
    ensures |r| == |disks|
  {
    seq(|disks|, i requires 0 <= i < |disks| => disks[i].capacityInKB)
  }

  /** One address of a guest NIC's `ipConfig`. */
  datatype IpAddr = IpAddr(address: string, prefixLength: int)

  /** `ip.prefixLength or 32`. */
  function AliasLength(a: IpAddr): (r: int)
    ensures r != 0
    ensures a.prefixLength == 0 ==> r == 32
    ensures a.prefixLength != 0 ==> r == a.prefixLength
  {
    if a.prefixLength == 0 then 32 else a.prefixLength
  }

  /** An alias entry: the address, '/', and the prefix length (0 written as 32). */
  function Alias(a: IpAddr): string {
    a.address + "/" + Text.IntToString(AliasLength(a))
  }

  /** An alias splits at its first '/' back into the address and a prefix
      length that parses to the address's own (32 where it was 0). */
  lemma AliasRoundTrip(a: IpAddr)
    requires '/' !in a.address
    ensures |Text.Split(Alias(a), '/')| == 2
    ensures Text.Split(Alias(a), '/')[0] == a.address
    ensures Text.ParseInt(Text.Split(Alias(a), '/')[1]) == Some(AliasLength(a))
  {
    var n := Text.IntToString(AliasLength(a));
    Text.IntToStringHasNo(AliasLength(a), '/');
    assert Alias(a) == a.address + ['/'] + n;
    Text.SplitAroundFirst(a.address, '/', n);
    Text.SplitWithoutSeparator(n, '/');
    Text.ParseIntToString(AliasLength(a));
  }

  function Aliases(addrs: seq<IpAddr>): (r: seq<string>)
    ensures |r| == |addrs|
    ensures forall i :: 0 <= i < |addrs| ==> r[i] == Alias(addrs[i])
  {
    seq(|addrs|, i requires 0 <= i < |addrs| => Alias(addrs[i]))
  }

  /** What the address loop of one guest NIC has built so far: the NIC's
      `ip`, `prefix` and `aliases`, and the VM's `primary_ip`. */
  datatype AddrState = AddrState(ip: Option<string>, prefix: Option<int>, aliases: seq<string>,
                                 primary: Option<string>)

  /** One address: while the NIC has no truthy `ip`, an address whose
      prefix length is at most 32 becomes it (its prefix kept when
      nonzero, and the VM's primary address when that is still falsy);
      every other address becomes an alias. */
  function TakeAddress(st: AddrState, a: IpAddr): AddrState {
    if !TruthyStr(st.ip) && a.prefixLength <= 32 then
      AddrState(Some(a.address), if a.prefixLength != 0 then Some(a.prefixLength) else st.prefix, st.aliases,
                if TruthyStr(st.primary) then st.primary else Some(a.address))
    else st.(aliases := st.aliases + [Alias(a)])
  }

  function ScanAddresses(st: AddrState, addrs: seq<IpAddr>): AddrState {
    if |addrs| == 0 then st else TakeAddress(ScanAddresses(st, addrs[..|addrs| - 1]), addrs[|addrs| - 1])
  }

  predicate IsV4(a: IpAddr) {
    a.prefixLength <= 32
  }

  predicate FirstV4(addrs: seq<IpAddr>, k: int) {
    0 <= k < |addrs| && IsV4(addrs[k]) && forall j :: 0 <= j < k ==> !IsV4(addrs[j])
  }

  /** Without an address of prefix length at most 32, the NIC takes no
      address and every address, in order, becomes an alias. */
  lemma {:induction false} PartitionNoV4(addrs: seq<IpAddr>, p: Option<string>)
    requires forall i :: 0 <= i < |addrs| ==> !IsV4(addrs[i])
    ensures ScanAddresses(AddrState(None, None, [], p), addrs) == AddrState(None, None, Aliases(addrs), p)
  {
    if |addrs| > 0 {
      var init := addrs[..|addrs| - 1];
      PartitionNoV4(init, p);
      assert init + [addrs[|addrs| - 1]] == addrs;
      AliasesAppend(init, addrs[|addrs| - 1]);
    }
  }

  /** With non-empty addresses, the first one whose prefix length is at
      most 32 becomes the NIC's address (its prefix kept only when
      nonzero) and all the others, in order, its aliases. */
  lemma {:induction false} PartitionFirstV4(addrs: seq<IpAddr>, p: Option<string>, k: nat)
    requires forall i :: 0 <= i < |addrs| ==> |addrs[i].address| > 0
    requires FirstV4(addrs, k)
    decreases |addrs|, 1
    ensures ScanAddresses(AddrState(None, None, [], p), addrs).ip == Some(addrs[k].address)
    ensures ScanAddresses(AddrState(None, None, [], p), addrs).prefix
              == (if addrs[k].prefixLength != 0 then Some(addrs[k].prefixLength) else None)
    ensures ScanAddresses(AddrState(None, None, [], p), addrs).aliases == Aliases(addrs[..k]) + Aliases(addrs[k + 1..])
  {
    if k < |addrs| - 1 {
      PartitionAfterV4(addrs, p, k);
    } else {
      PartitionLastV4(addrs, p);
    }
  }

  /** The inductive step: an address after the chosen one becomes an alias. */
  lemma {:induction false} PartitionAfterV4(addrs: seq<IpAddr>, p: Option<string>, k: nat)
    requires forall i :: 0 <= i < |addrs| ==> |addrs[i].address| > 0
    requires FirstV4(addrs, k) && k < |addrs| - 1
    decreases |addrs|, 0
    ensures ScanAddresses(AddrState(None, None, [], p), addrs).ip == Some(addrs[k].address)
    ensures ScanAddresses(AddrState(None, None, [], p), addrs).prefix
              == (if addrs[k].prefixLength != 0 then Some(addrs[k].prefixLength) else None)
    ensures ScanAddresses(AddrState(None, None, [], p), addrs).aliases == Aliases(addrs[..k]) + Aliases(addrs[k + 1..])
  {
    var start := AddrState(None, None, [], p);
    var init := addrs[..|addrs| - 1];
    InitKeepsFirstV4(addrs, k);
    PartitionFirstV4(init, p, k);
    ScanAfterIp(start, addrs);
    AliasesSkipOne(addrs, k);
  }

  /** Dropping an address after the first one of prefix length at most 32
      keeps it first, and keeps every address non-empty. */
  lemma InitKeepsFirstV4(addrs: seq<IpAddr>, k: nat)
    requires forall i :: 0 <= i < |addrs| ==> |addrs[i].address| > 0
    requires FirstV4(addrs, k) && k < |addrs| - 1
    ensures var init := addrs[..|addrs| - 1];
            && FirstV4(init, k) && init[k] == addrs[k]
            && forall i :: 0 <= i < |init| ==> |init[i].address| > 0
  {
    var init := addrs[..|addrs| - 1];
    assert forall i :: 0 <= i < |init| ==> init[i] == addrs[i];
  }

  /** Once the NIC has a truthy `ip`, the next address becomes an alias. */
  lemma ScanAfterIp(st: AddrState, addrs: seq<IpAddr>)
    requires |addrs| > 0 && TruthyStr(ScanAddresses(st, addrs[..|addrs| - 1]).ip)
    ensures var prev := ScanAddresses(st, addrs[..|addrs| - 1]);
            ScanAddresses(st, addrs) == prev.(aliases := prev.aliases + [Alias(addrs[|addrs| - 1])])
  {
  }

  /** Dropping entry `k` and then appending the last address gives the
      aliases of everything but entry `k`. */
  lemma AliasesSkipOne(addrs: seq<IpAddr>, k: nat)
    requires k < |addrs| - 1
    ensures var n := |addrs| - 1;
            Aliases(addrs[..n][..k]) + Aliases(addrs[..n][k + 1..]) + [Alias(addrs[n])]
              == Aliases(addrs[..k]) + Aliases(addrs[k + 1..])
  {
    var n := |addrs| - 1;
    assert addrs[..n][..k] == addrs[..k];
    assert addrs[..n][k + 1..] + [addrs[n]] == addrs[k + 1..];
    AliasesAppend(addrs[..n][k + 1..], addrs[n]);
  }

  lemma AliasesAppend(addrs: seq<IpAddr>, a: IpAddr)
    ensures Aliases(addrs + [a]) == Aliases(addrs) + [Alias(a)]
  {
  }

  /** The case where the only address of prefix length at most 32 is the last. */
  lemma PartitionLastV4(addrs: seq<IpAddr>, p: Option<string>)
    requires FirstV4(addrs, |addrs| - 1)
    ensures var r := ScanAddresses(AddrState(None, None, [], p), addrs);
      var last := addrs[|addrs| - 1];
      && r.ip == Some(last.address)
      && r.prefix == (if last.prefixLength != 0 then Some(last.prefixLength) else None)
      && r.aliases == Aliases(addrs[..|addrs| - 1]) + Aliases(addrs[|addrs|..])
  {
    var init := addrs[..|addrs| - 1];
    assert forall i :: 0 <= i < |init| ==> !IsV4(init[i]);
    PartitionNoV4(init, p);
    assert Aliases(addrs[|addrs|..]) == [];
  }

  /** How the VM's primary address follows the loop: once truthy it stays;
      while it is falsy it is the NIC's latest address, if any. */
  predicate PrimaryFollows(p0: Option<string>, st: AddrState) {
    if TruthyStr(p0) then st.primary == p0
    else if st.ip.Some? then st.primary == st.ip
    else st.primary == p0
  }

  lemma {:induction false} ScanKeepsPrimaryFollows(p0: Option<string>, st: AddrState, addrs: seq<IpAddr>)
    requires PrimaryFollows(p0, st)
    ensures PrimaryFollows(p0, ScanAddresses(st, addrs))
  {
    if |addrs| > 0 {
      ScanKeepsPrimaryFollows(p0, st, addrs[..|addrs| - 1]);
    }
  }

  /** The NIC's own fields do not depend on the VM's primary address. */
  lemma {:induction false} ScanIgnoresPrimary(st: AddrState, q: Option<string>, addrs: seq<IpAddr>)
    ensures ScanAddresses(st.(primary := q), addrs).(primary := None) == ScanAddresses(st, addrs).(primary := None)
  {
    if |addrs| > 0 {
      ScanIgnoresPrimary(st, q, addrs[..|addrs| - 1]);
    }
  }

  /** A guest NIC (`guest.net`); `ipConfig` is None when it is unset. */
  datatype GuestNic = GuestNic(id: int, mac: Value, network: Value, connected: Value,
                               ipConfig: Option<seq<IpAddr>>)

  /** An entry of the VM's `networks`; `aliases` is empty where the key is unset. */
  datatype VmNic = VmNic(id: int, mac: Value, network: Value, connected: Value, ip: Option<string>,
                         prefix: Option<int>, aliases: seq<string>, primary: bool)

  /** A guest NIC's entry as its addresses alone make it, unflagged. */
  function NicView(nic: GuestNic): VmNic {
    var st := match nic.ipConfig
      case None => AddrState(None, None, [], None)
      case Some(addrs) => ScanAddresses(AddrState(None, None, [], None), addrs);
    VmNic(nic.id, nic.mac, nic.network, nic.connected, st.ip, st.prefix, st.aliases, false)
  }

  /** One guest NIC, given the VM's primary address so far: its entry and
      the primary address after it. */
  function ProcessNic(nic: GuestNic, p: Option<string>): (VmNic, Option<string>) {
    var net := VmNic(nic.id, nic.mac, nic.network, nic.connected, None, None, [], false);
    match nic.ipConfig
    case None => (net, p)
    case Some(addrs) =>
      var st := ScanAddresses(AddrState(None, None, [], p), addrs);
      (net.(ip := st.ip, prefix := st.prefix, aliases := st.aliases,
            primary := TruthyStr(st.ip) && st.ip == st.primary), st.primary)
  }

  /** A NIC's entry is its address view, flagged iff its address is truthy
      and equal to the primary address after it; that primary address is
      the one before it when truthy, else the NIC's address if it took one. */
  lemma ProcessNicSpec(nic: GuestNic, p: Option<string>)
    ensures ProcessNic(nic, p).0 == NicView(nic).(primary := ProcessNic(nic, p).0.primary)
    ensures ProcessNic(nic, p).0.primary <==> TruthyStr(NicView(nic).ip) && NicView(nic).ip == ProcessNic(nic, p).1
    ensures ProcessNic(nic, p).1 ==
              if TruthyStr(p) then p else if NicView(nic).ip.Some? then NicView(nic).ip else p
  {
    if nic.ipConfig.Some? {
      var start := AddrState(None, None, [], p);
      ScanIgnoresPrimary(start, None, nic.ipConfig.value);
      assert start.(primary := None) == AddrState(None, None, [], None);
      ScanKeepsPrimaryFollows(p, start, nic.ipConfig.value);
    }
  }

  /** The NIC loop of `__process_vm`, threading the VM's primary address. */
  function ScanNics(nics: seq<GuestNic>, p: Option<string>): (r: (seq<VmNic>, Option<string>))
    ensures |r.0| == |nics|
  {
    if |nics| == 0 then ([], p)
    else
      var prev := ScanNics(nics[..|nics| - 1], p);
      var step := ProcessNic(nics[|nics| - 1], prev.1);
      (prev.0 + [step.0], step.1)
  }

  predicate FirstNicWithIp(nics: seq<GuestNic>, k: int) {
    0 <= k < |nics| && TruthyStr(NicView(nics[k]).ip) && forall j :: 0 <= j < k ==> !TruthyStr(NicView(nics[j]).ip)
  }

  /** The VM's primary address is the one it started with when truthy,
      else the address of the first NIC that has a truthy one; with none
      it stays falsy. */
  lemma {:induction false} VmPrimaryAddress(nics: seq<GuestNic>, p: Option<string>)
    ensures TruthyStr(p) ==> ScanNics(nics, p).1 == p
    ensures !TruthyStr(p) ==> forall k :: FirstNicWithIp(nics, k) ==> ScanNics(nics, p).1 == NicView(nics[k]).ip
    ensures (!TruthyStr(p) && forall i :: 0 <= i < |nics| ==> !TruthyStr(NicView(nics[i]).ip)) ==> !TruthyStr(ScanNics(nics, p).1)
    ensures forall i :: 0 <= i < |nics| && TruthyStr(NicView(nics[i]).ip) ==> TruthyStr(ScanNics(nics, p).1)
  {
    if |nics| > 0 {
      var n := |nics| - 1;
      var init := nics[..n];
      var last := nics[n];
      VmPrimaryAddress(init, p);
      var prev := ScanNics(init, p).1;
      ProcessNicSpec(last, prev);
      var q := ScanNics(nics, p).1;
      assert q == ProcessNic(last, prev).1;
      assert forall i :: 0 <= i < n ==> init[i] == nics[i];
      if !TruthyStr(p) {
        forall k | FirstNicWithIp(nics, k) ensures q == NicView(nics[k]).ip {
          if k < n {
            assert FirstNicWithIp(init, k);
          } else {
            assert !TruthyStr(prev);
          }
        }
      }
    }
  }

  /** Each NIC's entry is its address view, flagged primary iff its
      address is truthy and equal to the VM's final primary address. */
  lemma {:induction false} VmPrimaryFlags(nics: seq<GuestNic>, p: Option<string>)
    ensures forall i :: 0 <= i < |nics| ==>
              ScanNics(nics, p).0[i] == NicView(nics[i]).(primary := ScanNics(nics, p).0[i].primary)
    ensures forall i :: 0 <= i < |nics| ==>
              (ScanNics(nics, p).0[i].primary <==>
                 TruthyStr(NicView(nics[i]).ip) && NicView(nics[i]).ip == ScanNics(nics, p).1)
  {
    if |nics| > 0 {
      var init := nics[..|nics| - 1];
      var last := nics[|nics| - 1];
      VmPrimaryFlags(init, p);
      VmPrimaryAddress(init, p);
      var prev := ScanNics(init, p);
      var r := ScanNics(nics, p);
      ProcessNicSpec(last, prev.1);
      assert r.0 == prev.0 + [ProcessNic(last, prev.1).0];
      forall i | 0 <= i < |init|
        ensures r.0[i] == NicView(nics[i]).(primary := r.0[i].primary)
        ensures r.0[i].primary <==> TruthyStr(NicView(nics[i]).ip) && NicView(nics[i]).ip == r.1
      {
        assert init[i] == nics[i];
        assert r.0[i] == prev.0[i];
      }
    }
  }

  /** `vs.guest.ipAddress` when truthy and without ':' (no IPv6), else None. */
  function InitialPrimary(guestIp: Option<string>): (r: Option<string>)
    ensures r.None? || (TruthyStr(r) && r == guestIp && ':' !in r.value)
    ensures TruthyStr(guestIp) && ':' !in guestIp.value ==> r == guestIp
  {
    if TruthyStr(guestIp) && ':' !in guestIp.value then guestIp else None
  }

  datatype Vm = Vm(name: Value, description: Value, id: Value, cpus: int, memory: int, disks: int,
                   guestIp: Option<string>, powerState: string, template: Value,
                   runtimeCluster: Value, listedCluster: Value,
                   devices: seq<Device>, guestNics: seq<GuestNic>)

  /** The attribute map of a 'vm' record. */
  datatype VmData = VmData(name: Value, cluster: Value, project: Option<string>, description: Value, id: Value,
                           cpus: int, memory: int, disks: int, storage: int,
                           storages: Option<seq<DiskInfo>>, primaryIp: Option<string>,
                           networks: Option<seq<VmNic>>, status: string, isOn: int, template: int)

  predicate HasIp(n: VmNic) {
    TruthyStr(n.ip)
  }

  /** `__process_vm` for a VM in the folder path `parent`. Storage is the
      total disk capacity in whole MB (0 when it is not positive); the
      networks are the NICs that ended with a truthy address. */
  function ProcessVm(vm: Vm, parent: Option<string>): (r: VmData)
    ensures var disks := Disks(vm.devices);
      var total := Seqs.Sum(DiskKbs(disks));
      && (total > 0 ==> r.storage * 1024 <= total < (r.storage + 1) * 1024)
      && (total <= 0 ==> r.storage == 0)
      && (r.storages.Some? <==> |disks| > 0)
      && (r.storages.Some? ==>
            |r.storages.value| == |disks|
            && forall i :: 0 <= i < |disks| ==> r.storages.value[i] == DiskInfoOf(disks[i]))
    ensures r.project == parent
    ensures r.cluster == OrValue(vm.runtimeCluster, vm.listedCluster)
    ensures r.isOn in {0, 1} && (r.isOn == 1 <==> vm.powerState == "poweredOn")
    ensures r.template in {0, 1} && (r.template == 1 <==> Truthy(vm.template))
    ensures r.networks.Some? ==> forall i :: 0 <= i < |r.networks.value| ==> HasIp(r.networks.value[i])
  {
    var disks := Disks(vm.devices);
    var kbs := DiskKbs(disks);
    var total := Seqs.Sum(kbs);
    var infos := seq(|disks|, i requires 0 <= i < |disks| => DiskInfoOf(disks[i]));
    var scanned := VmNics(vm);
    var nets := Seqs.Filter(scanned.0, HasIp);
    VmData(vm.name, OrValue(vm.runtimeCluster, vm.listedCluster), parent, vm.description, vm.id,
           vm.cpus, vm.memory, vm.disks,
           if total > 0 then total / 1024 else 0,
           if |infos| > 0 then Some(infos) else None,
           scanned.1,
           if |nets| > 0 then Some(nets) else None,
           vm.powerState, if vm.powerState == "poweredOn" then 1 else 0,
           if Truthy(vm.template) then 1 else 0)
  }

  /** The NIC entries of a VM and its final primary address. */
  function VmNics(vm: Vm): (r: (seq<VmNic>, Option<string>))
    ensures |r.0| == |vm.guestNics|
  {
    ScanNics(vm.guestNics, InitialPrimary(vm.guestIp))
  }

  /** The VM's primary address: the guest address when it is truthy and
      not IPv6, else the address of the first NIC that took a truthy one. */
  lemma VmPrimaryIp(vm: Vm, parent: Option<string>)
    ensures TruthyStr(InitialPrimary(vm.guestIp)) ==> ProcessVm(vm, parent).primaryIp == vm.guestIp
    ensures !TruthyStr(InitialPrimary(vm.guestIp)) ==>
              forall k :: FirstNicWithIp(vm.guestNics, k) ==> ProcessVm(vm, parent).primaryIp == NicView(vm.guestNics[k]).ip
  {
    VmPrimaryAddress(vm.guestNics, InitialPrimary(vm.guestIp));
    assert ProcessVm(vm, parent).primaryIp == VmNics(vm).1;
  }

  /** The VM's networks are present iff some NIC took a truthy address;
      each listed NIC is one of the VM's, and it is flagged primary iff
      its address is the VM's primary address. */
  lemma VmNetworks(vm: Vm, parent: Option<string>)
    ensures var r := ProcessVm(vm, parent);
      && (r.networks.Some? <==> exists i :: 0 <= i < |vm.guestNics| && TruthyStr(NicView(vm.guestNics[i]).ip))
      && (r.networks.Some? ==> forall i :: 0 <= i < |r.networks.value| ==>
            (r.networks.value[i].primary <==> r.networks.value[i].ip == r.primaryIp))
  {
    NicNetworks(vm.guestNics, InitialPrimary(vm.guestIp));
    NetworksOf(vm, parent);
  }

  /** The scanned NICs with an address: there are some iff some NIC took a
      truthy address, and each is flagged primary iff its address is the
      primary address the scan ends with. */
  lemma NicNetworks(nics: seq<GuestNic>, p0: Option<string>)
    ensures var scanned := ScanNics(nics, p0);
            var nets := Seqs.Filter(scanned.0, HasIp);
            && (|nets| > 0 <==> exists i :: 0 <= i < |nics| && TruthyStr(NicView(nics[i]).ip))
            && forall j :: 0 <= j < |nets| ==> (nets[j].primary <==> nets[j].ip == scanned.1)
  {
    VmPrimaryFlags(nics, p0);
    var scanned := ScanNics(nics, p0);
    var views := seq(|nics|, i requires 0 <= i < |nics| => NicView(nics[i]));
    NetsFlagged(scanned.0, views, scanned.1);
    if exists i :: 0 <= i < |nics| && TruthyStr(NicView(nics[i]).ip) {
      var i :| 0 <= i < |nics| && TruthyStr(NicView(nics[i]).ip);
      assert TruthyStr(views[i].ip);
    }
  }

  /** NICs that are their views with a primary flag set exactly on the
      truthy address `prim`: those with an address exist iff some view has
      one, and among them the flag marks the address `prim`. */
  lemma NetsFlagged(scanned: seq<VmNic>, views: seq<VmNic>, prim: Option<string>)
    requires |scanned| == |views|
    requires forall i :: 0 <= i < |views| ==> scanned[i] == views[i].(primary := scanned[i].primary)
    requires forall i :: 0 <= i < |views| ==>
               (scanned[i].primary <==> TruthyStr(views[i].ip) && views[i].ip == prim)
    ensures var nets := Seqs.Filter(scanned, HasIp);
            && (|nets| > 0 <==> exists i :: 0 <= i < |views| && TruthyStr(views[i].ip))
            && forall j :: 0 <= j < |nets| ==> (nets[j].primary <==> nets[j].ip == prim)
  {
    var nets := Seqs.Filter(scanned, HasIp);
    var flagged := (n: VmNic) => HasIp(n) ==> (n.primary <==> n.ip == prim);
    forall i | 0 <= i < |views| ensures (HasIp(scanned[i]) <==> TruthyStr(views[i].ip)) && flagged(scanned[i]) {
      assert scanned[i].ip == views[i].ip;
    }
    if exists i :: 0 <= i < |views| && TruthyStr(views[i].ip) {
      var i :| 0 <= i < |views| && TruthyStr(views[i].ip);
      assert scanned[i] in nets;
    }
    if |nets| > 0 {
      assert nets[0] in scanned && HasIp(nets[0]);
      var i :| 0 <= i < |scanned| && scanned[i] == nets[0];
      assert TruthyStr(views[i].ip);
    }
    Seqs.FilterAll(scanned, HasIp, flagged);
  }

  /** The record's networks are the scanned NICs that have an address,
      None when there are none. */
  lemma NetworksOf(vm: Vm, parent: Option<string>)
    ensures var nets := Seqs.Filter(VmNics(vm).0, HasIp);
            && ProcessVm(vm, parent).networks == (if |nets| > 0 then Some(nets) else None)
            && ProcessVm(vm, parent).primaryIp == VmNics(vm).1
  {
  }

  /** The disks' sizes in MB never add up to more than the VM's storage. */
  lemma VmStoragesWithinStorage(vm: Vm, parent: Option<string>)
    requires ProcessVm(vm, parent).storages.Some?
    ensures var r := ProcessVm(vm, parent);
      Seqs.Sum(seq(|r.storages.value|, i requires 0 <= i < |r.storages.value| => r.storages.value[i].capacity))
        <= r.storage
  {
    var r := ProcessVm(vm, parent);
    var kbs := DiskKbs(Disks(vm.devices));
    FloorSumBound(kbs, 1024);
    assert seq(|r.storages.value|, i requires 0 <= i < |r.storages.value| => r.storages.value[i].capacity)
           == Floors(kbs, 1024);
  }

  // ---------------------------------------------------------- folder walk

  /** A child of a VM folder. Virtual apps are not part of this model. */
  datatype Entity =
    | Folder(name: string, id: Value, children: seq<Entity>)
    | Machine(vm: Vm)
    | OtherEntity

  /** The records of the inventory; a folder's 'vapp' record has memory 0. */
  datatype Record =
    | ClusterRecord(cluster: ClusterData)
    | ServerRecord(host: HostData)
    | VappRecord(name: string, id: Value, memory: int)
    | VmRecord(vm: VmData)

  /** A folder's name appended to its parent's path with '.'. */
  function FolderPath(prefix: Option<string>, name: string): string {
    if prefix.None? then name else prefix.value + "." + name
  }

  /** `__process_vmchild`: a folder yields its 'vapp' record and its
      children's records one level deeper, unless it lies beyond the
      maximal depth, where it and everything below it yield nothing; a VM
      yields its record under the current path. */
  function Walk(e: Entity, depth: nat, prefix: Option<string>): (r: seq<Record>)
    decreases e
    ensures e.Folder? && depth > MAX_DEPTH ==> r == []
    ensures e.Folder? && depth <= MAX_DEPTH ==> |r| > 0 && r[0] == VappRecord(FolderPath(prefix, e.name), e.id, 0)
    ensures e.Machine? ==> |r| == 1 && r[0].VmRecord?
  {
    match e
    case Folder(name, id, children) =>
      if depth > MAX_DEPTH then []
      else
        var path := FolderPath(prefix, name);
        [VappRecord(path, id, 0)]
          + Seqs.Concat(seq(|children|, i requires 0 <= i < |children| => Walk(children[i], depth + 1, Some(path))))
    case Machine(vm) => [VmRecord(ProcessVm(vm, prefix))]
    case OtherEntity => []
  }

  /** A VM yields its own record, with the path it was found under as its project. */
  lemma WalkMachine(vm: Vm, depth: nat, prefix: Option<string>)
    ensures Walk(Machine(vm), depth, prefix) == [VmRecord(ProcessVm(vm, prefix))]
    ensures Walk(Machine(vm), depth, prefix)[0].vm.project == prefix
  {
  }

  /** No folder below (and including) `e` has a '.' in its name. */
  predicate NoDottedNames(e: Entity)
    decreases e
  {
    match e
    case Folder(name, _, children) =>
      '.' !in name && forall i :: 0 <= i < |children| ==> NoDottedNames(children[i])
    case _ => true
  }

  /** A walk started at depth `depth` under a path of `depth - 1` names. */
  predicate PathAtDepth(depth: nat, prefix: Option<string>) {
    depth >= 1 && (prefix.None? <==> depth == 1) && (prefix.Some? ==> Text.Count(prefix.value, '.') == depth - 2)
  }

  /** A folder's path one level down has one more '.'-separated name. */
  lemma FolderPathDepth(depth: nat, prefix: Option<string>, name: string)
    requires PathAtDepth(depth, prefix) && '.' !in name
    ensures PathAtDepth(depth + 1, Some(FolderPath(prefix, name)))
    ensures |Text.Split(FolderPath(prefix, name), '.')| == depth
    ensures prefix.Some? ==> prefix.value + "." <= FolderPath(prefix, name) + "."
  {
    var path := FolderPath(prefix, name);
    Text.SplitCount(path, '.');
    Text.SplitCount(name, '.');
    Text.SplitWithoutSeparator(name, '.');
    if prefix.Some? {
      Text.CountAppend(prefix.value + ".", name, '.');
      Text.CountAppend(prefix.value, ".", '.');
      Text.SplitWithoutSeparator(name, '.');
      assert path == prefix.value + "." + name;
    } else {
      Text.SplitWithoutSeparator(name, '.');
    }
  }

  /** Every 'vapp' record is named by a path of at most MAX_DEPTH folder
      names joined with '.', extending the path the walk started under. */
  lemma {:induction false} VappNamesWithinDepth(e: Entity, depth: nat, prefix: Option<string>)
    requires NoDottedNames(e) && PathAtDepth(depth, prefix)
    decreases e, 1
    ensures forall r :: r in Walk(e, depth, prefix) && r.VappRecord? ==>
              |Text.Split(r.name, '.')| <= MAX_DEPTH && (prefix.Some? ==> prefix.value + "." <= r.name)
  {
    if e.Folder? && depth <= MAX_DEPTH {
      var path := FolderPath(prefix, e.name);
      FolderPathDepth(depth, prefix, e.name);
      var children := e.children;
      var parts := seq(|children|, i requires 0 <= i < |children| => Walk(children[i], depth + 1, Some(path)));
      assert Walk(e, depth, prefix) == [VappRecord(path, e.id, 0)] + Seqs.Concat(parts);
      forall r: Record | r in Seqs.Concat(parts) && r.VappRecord?
        ensures |Text.Split(r.name, '.')| <= MAX_DEPTH && (prefix.Some? ==> prefix.value + "." <= r.name)
      {
        Seqs.ConcatMember(parts, r);
        var i :| 0 <= i < |parts| && r in parts[i];
        ChildVapp(children[i], depth, path, prefix, r);
      }
    }
  }

  /** A 'vapp' record found below a folder's child stays within the depth
      and extends the folder's own path, hence the path above it. */
  lemma {:induction false} ChildVapp(child: Entity, depth: nat, path: string, prefix: Option<string>, r: Record)
    requires NoDottedNames(child) && PathAtDepth(depth + 1, Some(path))
    requires prefix.Some? ==> prefix.value + "." <= path + "."
    requires r in Walk(child, depth + 1, Some(path)) && r.VappRecord?
    decreases child, 2
    ensures |Text.Split(r.name, '.')| <= MAX_DEPTH && (prefix.Some? ==> prefix.value + "." <= r.name)
  {
    VappNamesWithinDepth(child, depth + 1, Some(path));
    if prefix.Some? {
      Seqs.PrefixTrans(prefix.value + ".", path + ".", r.name);
    }
  }
}
