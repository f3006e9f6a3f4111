/** `CloudCollectorAmazonAWS` of `cloudinventario_amazon_aws/collector.py`:
    the paginated `describe_instances` drain, the memoised instance-type
    lookup and the per-instance attribute map. The EC2 service is a
    parameter: `pages` are its `describe_instances` responses in order, and
    `describe` is what `describe_instance_types` returns for one type. */
module AwsEc2 {
  import opened Wrappers
  import opened Values
  import Assoc
  import Seqs

  // ---------------------------------------------------------------------
  // Payloads.

  datatype Iface = Iface(id: Value, mac: Value, privateIp: Option<string>, subnet: Value, status: string)

  datatype Instance = Instance(
    instanceType: string,
    keyName: Value,
    zone: Value,
    groupName: Value,
    instanceId: Value,
    coreCount: Value,
    privateIp: Option<string>,
    publicIp: Option<string>,
    privateDns: Option<string>,
    publicDns: Option<string>,
    platform: Option<string>,
    state: string,
    description: Value,
    ifaces: seq<Iface>,
    tags: Option<seq<(string, string)>>,
    ebsOptimized: Value,
    monitoring: Value)

  /** One `describe_instances` response; `nextToken` is None when absent. */
  datatype Page = Page(reservations: seq<seq<Instance>>, nextToken: Option<string>)

  datatype Disk = Disk(sizeGb: int, diskType: string)

  /** A truthy `InstanceStorageInfo`. */
  datatype StorageInfo = StorageInfo(totalGb: int, disks: seq<Disk>)

  /** One element of `describe_instance_types()['InstanceTypes']`. */
  datatype TypeInfo = TypeInfo(name: string, vcpus: Value, memory: Value, storage: Option<StorageInfo>)

  /** A local disk of an instance type (`id`, `name` and `free` are None). */
  datatype TypeDisk = TypeDisk(capacity: int, diskType: string, ssd: Value)

  /** The dict cached per instance type. `storage` is what the code stores:
      a one-element tuple holding the size in MB, or None. */
  datatype TypeData = TypeData(cpu: Value, memory: Value, storage: Value, storages: seq<TypeDisk>,
                               detail: Option<TypeInfo>)

  // ---------------------------------------------------------------------
  // `_fetch`: the page drain.

  /** Every reservation's instances, in order. */
  function PageInstances(p: Page): seq<Instance> {
    Seqs.Concat(p.reservations)
  }

  /** The instances of `pages`, in page order. */
  function Concat(pages: seq<Page>): seq<Instance> {
    if |pages| == 0 then [] else Concat(pages[..|pages| - 1]) + PageInstances(pages[|pages| - 1])
  }

  /** The `while True` loop: request pages until one has a missing or empty
      `NextToken`. `n` is the number of requests made. The service is
      assumed to end its listing, so some page has no token. */
  method FetchPages(pages: seq<Page>) returns (res: seq<Instance>, n: nat)
    requires exists i :: 0 <= i < |pages| && !TruthyStr(pages[i].nextToken)
    ensures 0 < n <= |pages|
    ensures res == Concat(pages[..n])
    ensures !TruthyStr(pages[n - 1].nextToken)
    ensures forall i :: 0 <= i < n - 1 ==> TruthyStr(pages[i].nextToken)
  {
    res := [];
    n := 0;
    while true
      invariant n < |pages|
      invariant res == Concat(pages[..n])
      invariant forall i :: 0 <= i < n ==> TruthyStr(pages[i].nextToken)
      invariant exists i :: n <= i < |pages| && !TruthyStr(pages[i].nextToken)
      decreases |pages| - n
    {
      assert pages[..n + 1][..n] == pages[..n];
      res := res + PageInstances(pages[n]);
      n := n + 1;
      if !TruthyStr(pages[n - 1].nextToken) {
        return;
      }
    }
  }

  // ---------------------------------------------------------------------
  // `_get_instance_type`: the memoised lookup.

  function DiskOf(d: Disk): TypeDisk {
    TypeDisk(d.sizeGb * 1024, d.diskType, if d.diskType == "ssd" then VBool(true) else VInt(0))
  }

  /** The dict built for one returned instance type. */
  function TypeDataOf(rec: TypeInfo): (d: TypeData)
    ensures d.cpu == rec.vcpus && d.memory == rec.memory
    ensures rec.storage.None? ==> d.storages == [] && d.storage == VNone && d.detail.None?
    ensures rec.storage.Some? ==>
              && |d.storages| == |rec.storage.value.disks|
              && d.detail == Some(rec)
              && forall i :: 0 <= i < |d.storages| ==>
                   && d.storages[i].capacity == rec.storage.value.disks[i].sizeGb * 1024
                   && d.storages[i].diskType == rec.storage.value.disks[i].diskType
                   && (Truthy(d.storages[i].ssd) <==> rec.storage.value.disks[i].diskType == "ssd")
  {
    match rec.storage
    case None => TypeData(rec.vcpus, rec.memory, VNone, [], None)
    case Some(info) =>
      TypeData(rec.vcpus, rec.memory, VList([VInt(info.totalGb * 1024)]),
               seq(|info.disks|, i requires 0 <= i < |info.disks| => DiskOf(info.disks[i])), Some(rec))
  }

  function TypePairs(recs: seq<TypeInfo>): (r: seq<(string, TypeData)>)
    ensures |r| == |recs|
    ensures forall i :: 0 <= i < |recs| ==> r[i] == (recs[i].name, TypeDataOf(recs[i]))
  {
    seq(|recs|, i requires 0 <= i < |recs| => (recs[i].name, TypeDataOf(recs[i])))
  }

  function TypeNames(recs: seq<TypeInfo>): set<string> {
    set i | 0 <= i < |recs| :: recs[i].name
  }

  /** `self.instance_types[name] = data` for every returned type, in order. */
  function CacheTypes(cache: map<string, TypeData>, recs: seq<TypeInfo>): (c: map<string, TypeData>)
    ensures c.Keys == cache.Keys + TypeNames(recs)
    ensures forall k :: k in cache && k !in TypeNames(recs) ==> c[k] == cache[k]
    ensures forall j :: 0 <= j < |recs| && (forall l :: j < l < |recs| ==> recs[l].name != recs[j].name)
              ==> c[recs[j].name] == TypeDataOf(recs[j])
  {
    var pairs := TypePairs(recs);
    assert Assoc.Keys(pairs) == TypeNames(recs) by {
      forall k | k in TypeNames(recs) ensures k in Assoc.Keys(pairs) {
        var i :| 0 <= i < |recs| && recs[i].name == k;
        assert pairs[i].0 == k;
      }
    }
    forall j | 0 <= j < |recs| && (forall l :: j < l < |recs| ==> recs[l].name != recs[j].name)
      ensures Assoc.IsLast(pairs, j)
    {
    }
    cache + Assoc.ToMap(pairs)
  }

  /** The outcome of one lookup: the result, the cache after it, and whether
      `describe_instance_types` was called. */
  datatype Lookup = Lookup(result: Result<TypeData>, cache: map<string, TypeData>, queried: bool)

  function NotFound(itype: string): PyError {
    Raised("Instance type '" + itype + "' not found")
  }

  function GetInstanceType(cache: map<string, TypeData>, itype: string, describe: string -> seq<TypeInfo>)
    : (r: Lookup)
    ensures itype in cache ==> !r.queried && r.cache == cache && r.result == Success(cache[itype])
    ensures itype !in cache ==> r.queried && r.cache == CacheTypes(cache, describe(itype))
    ensures r.result.Success? <==> itype in r.cache
    ensures r.result.Success? ==> r.result.value == r.cache[itype]
    ensures r.result.Failure? ==> r.result.error == NotFound(itype)
    ensures cache.Keys <= r.cache.Keys
  {
    var c := if itype in cache then cache else CacheTypes(cache, describe(itype));
    var res := if itype in c then Success(c[itype]) else Failure(NotFound(itype));
    Lookup(res, c, itype !in cache)
  }

  /** A second lookup of a type found once is answered from the cache. */
  lemma LookupMemoised(cache: map<string, TypeData>, itype: string, describe: string -> seq<TypeInfo>)
    requires GetInstanceType(cache, itype, describe).result.Success?
    ensures var first := GetInstanceType(cache, itype, describe);
            var second := GetInstanceType(first.cache, itype, describe);
            !second.queried && second.cache == first.cache && second.result == first.result
  {
  }

  /** A type the query does not return is an error, whatever the cache held for other types. */
  lemma UnknownTypeRaises(cache: map<string, TypeData>, itype: string, describe: string -> seq<TypeInfo>)
    requires itype !in cache
    requires forall i :: 0 <= i < |describe(itype)| ==> describe(itype)[i].name != itype
    ensures GetInstanceType(cache, itype, describe).result == Failure(NotFound(itype))
  {
  }

  // ---------------------------------------------------------------------
  // `_process_vm`.

  datatype Nic = Nic(id: Value, name: Value, mac: Value, ip: Option<string>, network: Value, connected: bool)

  /** The attribute map handed to `new_record` (`created` and `description` are None). */
  datatype Ec2Data = Ec2Data(
    name: Value, cluster: Value, project: Value, id: Value, itype: string,
    cpus: Value, memory: Value, disks: nat, storage: Value,
    primaryIp: Option<string>, primaryFqdn: Option<string>,
    publicIp: Option<string>, publicFqdn: Option<string>,
    networks: seq<Nic>, storages: seq<TypeDisk>,
    ebsOptimized: Value, monitoring: Value,
    os: string, status: string, isOn: int,
    tags: map<string, string>)

  function NicOf(rec: Instance, iface: Iface): Nic {
    Nic(iface.id, rec.description, iface.mac, iface.privateIp, iface.subnet, iface.status == "in-use")
  }

  function Networks(rec: Instance): (r: seq<Nic>)
    ensures |r| == |rec.ifaces|
    ensures forall i :: 0 <= i < |r| ==> r[i] == NicOf(rec, rec.ifaces[i])
  {
    seq(|rec.ifaces|, i requires 0 <= i < |rec.ifaces| => NicOf(rec, rec.ifaces[i]))
  }

  /** `tags[tag["Key"]] = tag["Value"]` over `rec.get("Tags", [])`. */
  function TagMap(tags: Option<seq<(string, string)>>): (m: map<string, string>)
    ensures tags.None? ==> m == map[]
    ensures tags.Some? ==> m.Keys == Assoc.Keys(tags.value)
    ensures tags.Some? ==> forall j :: Assoc.IsLast(tags.value, j) ==> m[tags.value[j].0] == tags.value[j].1
  {
    Assoc.ToMap(tags.GetOr([]))
  }

  /** The attribute map of one instance, given its instance-type entry. */
  function VmData(rec: Instance, def: TypeData): (d: Ec2Data)
    ensures Truthy(rec.coreCount) ==> d.cpus == rec.coreCount
    ensures !Truthy(rec.coreCount) ==> d.cpus == def.cpu
    ensures TruthyStr(rec.privateIp) ==> d.primaryIp == rec.privateIp
    ensures !TruthyStr(rec.privateIp) ==> d.primaryIp == rec.publicIp
    ensures TruthyStr(rec.privateDns) ==> d.primaryFqdn == rec.privateDns
    ensures !TruthyStr(rec.privateDns) ==> d.primaryFqdn == rec.publicDns
    ensures d.os == if TruthyStr(rec.platform) then rec.platform.value else "Other"
    ensures d.isOn in {0, 1} && (d.isOn == 1 <==> rec.state == "running")
    ensures d.status == rec.state
    ensures d.disks == |def.storages| && d.storages == def.storages && d.memory == def.memory
    ensures |d.networks| == |rec.ifaces|
    ensures forall i :: 0 <= i < |rec.ifaces| ==>
              d.networks[i].id == rec.ifaces[i].id && d.networks[i].ip == rec.ifaces[i].privateIp
              && (d.networks[i].connected <==> rec.ifaces[i].status == "in-use")
    ensures d.tags == TagMap(rec.tags)
  {
    Ec2Data(rec.keyName, rec.zone, rec.groupName, rec.instanceId, rec.instanceType,
            OrValue(rec.coreCount, def.cpu), def.memory, |def.storages|, def.storage,
            Or(rec.privateIp, rec.publicIp), Or(rec.privateDns, rec.publicDns),
            rec.publicIp, rec.publicDns,
            Networks(rec), def.storages,
            OrValue(rec.ebsOptimized, VBool(false)), rec.monitoring,
            if TruthyStr(rec.platform) then rec.platform.value else "Other",
            rec.state, if rec.state == "running" then 1 else 0,
            TagMap(rec.tags))
  }

  /** The state threaded through `_fetch`: the records so far (or the error
      that ended it), the type cache, and the types queried, in order. */
  datatype FetchState = FetchState(result: Result<seq<Ec2Data>>, cache: map<string, TypeData>,
                                   queried: seq<string>)

  /** `_process_vm` on one more instance; an error ends the fetch. */
  function ProcessStep(st: FetchState, rec: Instance, describe: string -> seq<TypeInfo>): FetchState {
    if st.result.Failure? then st
    else
      var l := GetInstanceType(st.cache, rec.instanceType, describe);
      var q := if l.queried then st.queried + [rec.instanceType] else st.queried;
      match l.result
      case Failure(e) => FetchState(Failure(e), l.cache, q)
      case Success(def) => FetchState(Success(st.result.value + [VmData(rec, def)]), l.cache, q)
  }

  /** `_process_vm` over the drained instances, in order. */
  function ProcessAll(instances: seq<Instance>, cache: map<string, TypeData>, describe: string -> seq<TypeInfo>)
    : FetchState
  {
    if |instances| == 0 then FetchState(Success([]), cache, [])
    else ProcessStep(ProcessAll(instances[..|instances| - 1], cache, describe), instances[|instances| - 1], describe)
  }

  /** The memoisation invariant of a fetch that starts from `cache0`. */
  predicate Memoised(st: FetchState, cache0: map<string, TypeData>) {
    MemoInv(st.queried, st.cache, cache0, st.result.Success?)
  }

  /** The types queried are distinct, none was in the starting cache, the
      cache only grew, and while the fetch goes on every queried type is cached. */
  predicate MemoInv(queried: seq<string>, cache: map<string, TypeData>, cache0: map<string, TypeData>, ok: bool) {
    && cache0.Keys <= cache.Keys
    && (forall i, j :: 0 <= i < j < |queried| ==> queried[i] != queried[j])
    && (forall i :: 0 <= i < |queried| ==> queried[i] !in cache0)
    && (ok ==> forall i :: 0 <= i < |queried| ==> queried[i] in cache)
  }

  /** A lookup that queries only on a miss and only grows the cache keeps the invariant. */
  lemma MemoInvExtend(queried: seq<string>, cache: map<string, TypeData>, cache0: map<string, TypeData>,
                      t: string, cache1: map<string, TypeData>, queriedNow: bool, ok: bool)
    requires MemoInv(queried, cache, cache0, true)
    requires cache.Keys <= cache1.Keys
    requires queriedNow ==> t !in cache
    requires ok && queriedNow ==> t in cache1
    ensures MemoInv(if queriedNow then queried + [t] else queried, cache1, cache0, ok)
  {
    if queriedNow {
      var q := queried + [t];
      assert forall i :: 0 <= i < |queried| ==> q[i] == queried[i] && queried[i] != t;
    }
  }

  /** One `describe_instance_types` call per type at most, and never for a
      type that was already cached: a type is queried only on a cache miss,
      and once found it stays cached. */
  lemma {:induction false} NoTypeQueriedTwice(instances: seq<Instance>, cache: map<string, TypeData>,
                                              describe: string -> seq<TypeInfo>)
    ensures Memoised(ProcessAll(instances, cache, describe), cache)
  {
    if |instances| > 0 {
      var init := instances[..|instances| - 1];
      NoTypeQueriedTwice(init, cache, describe);
      StepMemoised(ProcessAll(init, cache, describe), instances[|instances| - 1], describe, cache);
    }
  }

  /** One more instance keeps the memoisation invariant: a type is queried
      only when missing from the cache, which holds every type queried so far. */
  lemma StepMemoised(st: FetchState, rec: Instance, describe: string -> seq<TypeInfo>,
                     cache0: map<string, TypeData>)
    requires Memoised(st, cache0)
    ensures Memoised(ProcessStep(st, rec, describe), cache0)
  {
    if st.result.Success? {
      var l := GetInstanceType(st.cache, rec.instanceType, describe);
      MemoInvExtend(st.queried, st.cache, cache0, rec.instanceType, l.cache, l.queried, l.result.Success?);
    }
  }

  /** Record `i` carries the id and type of instance `i`. */
  predicate RecordsMatch(records: seq<Ec2Data>, instances: seq<Instance>) {
    |records| == |instances|
    && forall i :: 0 <= i < |instances| ==>
         records[i].id == instances[i].instanceId && records[i].itype == instances[i].instanceType
  }

  /** A successful step appends one record, built from the new instance. */
  lemma StepAppendsRecord(prev: FetchState, rec: Instance, describe: string -> seq<TypeInfo>, init: seq<Instance>)
    requires prev.result.Success? && RecordsMatch(prev.result.value, init)
    requires ProcessStep(prev, rec, describe).result.Success?
    ensures RecordsMatch(ProcessStep(prev, rec, describe).result.value, init + [rec])
  {
    var l := GetInstanceType(prev.cache, rec.instanceType, describe);
    var rs := prev.result.value + [VmData(rec, l.result.value)];
    assert ProcessStep(prev, rec, describe).result.value == rs;
    var xs := init + [rec];
    forall i | 0 <= i < |xs| ensures rs[i].id == xs[i].instanceId && rs[i].itype == xs[i].instanceType {
      if i < |init| {
        assert rs[i] == prev.result.value[i] && xs[i] == init[i];
      }
    }
  }

  /** A successful fetch yields one record per instance, in order, each
      built from the instance's own type entry. */
  lemma {:induction false} ProcessAllRecords(instances: seq<Instance>, cache: map<string, TypeData>,
                                             describe: string -> seq<TypeInfo>)
    ensures ProcessAll(instances, cache, describe).result.Success? ==>
              RecordsMatch(ProcessAll(instances, cache, describe).result.value, instances)
  {
    if |instances| > 0 {
      var init := instances[..|instances| - 1];
      var last := instances[|instances| - 1];
      var prev := ProcessAll(init, cache, describe);
      ProcessAllRecords(init, cache, describe);
      if ProcessStep(prev, last, describe).result.Success? {
        assert prev.result.Success?;
        StepAppendsRecord(prev, last, describe, init);
      }
      assert init + [last] == instances;
    }
  }

  /** The same instance type shared by two instances is looked up once. */
  lemma SharedTypeQueriedOnce(a: Instance, b: Instance, describe: string -> seq<TypeInfo>)
    requires a.instanceType == b.instanceType
    requires exists i :: 0 <= i < |describe(a.instanceType)| && describe(a.instanceType)[i].name == a.instanceType
    ensures var st := ProcessAll([a, b], map[], describe);
            st.result.Success? && st.queried == [a.instanceType]
  {
    var empty: map<string, TypeData> := map[];
    var ty := a.instanceType;
    var k :| 0 <= k < |describe(ty)| && describe(ty)[k].name == ty;
    assert ty in TypeNames(describe(ty));
    ProcessAllSnoc([], a, empty, describe);
    ProcessAllSnoc([a], b, empty, describe);
    StepQueries(ProcessAll([], empty, describe), a, describe);
    StepFromCache(ProcessAll([a], empty, describe), b, describe);
  }

  /** The fold over `init + [x]` is one more step after the fold over `init`. */
  lemma ProcessAllSnoc(init: seq<Instance>, x: Instance, cache: map<string, TypeData>,
                       describe: string -> seq<TypeInfo>)
    ensures ProcessAll(init + [x], cache, describe) == ProcessStep(ProcessAll(init, cache, describe), x, describe)
  {
    assert (init + [x])[..|init|] == init;
  }

  /** A step on a cache miss queries the type once; it succeeds when the query returns it. */
  lemma StepQueries(st: FetchState, rec: Instance, describe: string -> seq<TypeInfo>)
    requires st.result.Success? && rec.instanceType !in st.cache
    requires rec.instanceType in TypeNames(describe(rec.instanceType))
    ensures var next := ProcessStep(st, rec, describe);
            next.result.Success? && next.queried == st.queried + [rec.instanceType] && rec.instanceType in next.cache
  {
  }

  /** A step on a cache hit queries nothing and succeeds. */
  lemma StepFromCache(st: FetchState, rec: Instance, describe: string -> seq<TypeInfo>)
    requires st.result.Success? && rec.instanceType in st.cache
    ensures var next := ProcessStep(st, rec, describe);
            next.result.Success? && next.queried == st.queried
  {
  }
}
