/** `CloudInventarioCloudSQL` of
    `cloudinventario_google_gcp/resources/cloud_sql.py`: the database
    version split into type and version, the tier lookup, the primary
    address and the storage of a Cloud SQL instance. The `instances.list`
    and `tiers.list` responses are parameters. */
module GcpCloudSql {
  import opened Wrappers
  import opened Values
  import Regex
  import Seqs

  /** `re.sub(r'.*_', '', v)`: the text after the last '_' of each line. */
  function DbVersion(v: string): string {
    Regex.SubAnyThen(v, "_")
  }

  /** `re.sub(r'_.*', '', v)`: the text before the first '_' of each line. */
  function DbType(v: string): string {
    Regex.SubThenAny(v, '_')
  }

  /** With exactly one '_', the split gives back both halves, and joining
      them with '_' gives back the version string. */
  lemma VersionSplitRoundTrip(dbType: string, version: string)
    requires '_' !in dbType && '_' !in version && '\n' !in dbType && '\n' !in version
    ensures DbType(dbType + "_" + version) == dbType
    ensures DbVersion(dbType + "_" + version) == version
    ensures DbType(dbType + "_" + version) + "_" + DbVersion(dbType + "_" + version) == dbType + "_" + version
  {
    var v := dbType + "_" + version;
    assert v == dbType + ['_'] + version;
    assert '\n' !in v;
    Regex.SubThenAnySingleLine(v, '_');
    Regex.SubAnyThenSingleLine(v, "_");
    Regex.CutFromFirstOfBuilt(dbType, '_', version);
    Regex.StripThroughLastOfBuilt(dbType, '_', version);
    assert "_" == ['_'];
  }

  /** Without '_', type and version are both the whole string. */
  lemma VersionWithoutSeparator(v: string)
    requires '_' !in v && '\n' !in v
    ensures DbType(v) == v && DbVersion(v) == v
  {
    Regex.SubThenAnySingleLine(v, '_');
    Regex.SubAnyThenSingleLine(v, "_");
    Regex.CutFromFirstAbsent(v, '_');
    Regex.StripThroughLastAbsent(v, '_');
    assert "_" == ['_'];
  }

  /** An item of `tiers.list`; `tier` is None when the key is absent. */
  datatype Tier = Tier(tier: Option<string>, ram: Value, diskQuota: Value)

  /** `str(tier.get('tier'))`. */
  function TierName(t: Tier): string {
    t.tier.GetOr("None")
  }

  /** `tiers[k]` is the first tier whose name is `name`. */
  predicate FirstTier(tiers: seq<Tier>, name: string, k: int) {
    0 <= k < |tiers| && TierName(tiers[k]) == name && forall j :: 0 <= j < k ==> TierName(tiers[j]) != name
  }

  /** The `tierDetail` lookup: the first tier whose `str(...)` equals the
      instance's tier; an instance without a tier (None) matches none. */
  function FindTier(tiers: seq<Tier>, instanceTier: Option<string>): (r: Option<Tier>)
    ensures instanceTier.None? ==> r.None?
    ensures instanceTier.Some? ==> forall k :: FirstTier(tiers, instanceTier.value, k) ==> r == Some(tiers[k])
    ensures r.None? <==> instanceTier.None? || forall k :: 0 <= k < |tiers| ==> TierName(tiers[k]) != instanceTier.value
  {
    match instanceTier
    case None => None
    case Some(name) =>
      var found := Seqs.FindFirst(tiers, (t: Tier) => TierName(t) == name);
      assert forall k :: FirstTier(tiers, name, k) ==> found == Some(k);
      match found
      case None => None
      case Some(k) => Some(tiers[k])
  }

  datatype Settings = Settings(tier: Option<string>, dataDiskSizeGb: Option<int>, dataDiskType: Value,
                               userLabels: Value)

  datatype IpAddress = IpAddress(ipAddress: Value, ipType: Value)

  /** An item of `instances.list`; absent keys are None. */
  datatype SqlInstance = SqlInstance(databaseVersion: Option<string>, name: Value, gceZone: Value,
                                     project: Value, region: Value, serverCaCert: Option<map<string, Value>>,
                                     settings: Option<Settings>, state: Value,
                                     ipAddresses: Option<seq<IpAddress>>,
                                     instanceType: Value, backendType: Value)

  /** The attribute map handed to `new_record`, without the floating-point
      `memory` and `disks`. */
  datatype SqlData = SqlData(dbVersion: string, dbType: string, name: Value, id: Value, cluster: Value,
                             project: Value, location: Value, created: Value, storage: int,
                             diskType: Value, status: Value, primaryIp: Value,
                             networks: seq<IpAddress>, tags: Value, isOn: int,
                             instanceType: Value, backendType: Value)

  predicate IsPrimary(ip: IpAddress) {
    ip.ipType == VStr("PRIMARY")
  }

  /** `next((ip.get('ipAddress') for ... if type == 'PRIMARY'), None)`. */
  function PrimaryIp(ips: seq<IpAddress>): (r: Value)
    ensures (forall i :: 0 <= i < |ips| ==> !IsPrimary(ips[i])) ==> r == VNone
    ensures forall k :: 0 <= k < |ips| && IsPrimary(ips[k]) && (forall j :: 0 <= j < k ==> !IsPrimary(ips[j]))
              ==> r == ips[k].ipAddress
  {
    var found := Seqs.FindFirst(ips, IsPrimary);
    assert forall k :: 0 <= k < |ips| && IsPrimary(ips[k]) && (forall j :: 0 <= j < k ==> !IsPrimary(ips[j]))
             ==> found == Some(k);
    match found
    case None => VNone
    case Some(k) => ips[k].ipAddress
  }

  /** The lines `_process_resource` can raise on, given a tier detail that
      is present: a missing disk size, address list or database version is
      a TypeError, and a missing `settings` an AttributeError when the tags
      are read. */
  predicate Processable(inst: SqlInstance) {
    && inst.settings.Some? && inst.settings.value.dataDiskSizeGb.Some?
    && inst.ipAddresses.Some?
    && inst.databaseVersion.Some?
  }

  function Record(inst: SqlInstance): SqlData
    requires Processable(inst)
  {
    var st := inst.settings.value;
    var v := inst.databaseVersion.value;
    SqlData(DbVersion(v), DbType(v), inst.name, inst.name, inst.gceZone, inst.project, inst.region,
            if inst.serverCaCert.Some? then Get(inst.serverCaCert.value, "createTime") else VNone,
            st.dataDiskSizeGb.value * 1024, st.dataDiskType, inst.state,
            PrimaryIp(inst.ipAddresses.value), inst.ipAddresses.value, st.userLabels,
            if inst.state == VStr("RUNNABLE") then 1 else 0, inst.instanceType, inst.backendType)
  }

  /** `_process_resource` as written: `'RAM' in instance['tierDetail']`
      runs even when no tier matched, because `_fetch` always sets the key,
      so a missing tier detail raises TypeError before anything else. */
  function ProcessResourceAsWritten(inst: SqlInstance, tierDetail: Option<Tier>): (r: Result<SqlData>)
    ensures tierDetail.None? ==> r == Failure(TypeError)
    ensures tierDetail.Some? ==> r == ProcessResource(inst, tierDetail)
  {
    if tierDetail.None? then Failure(TypeError)
    else ProcessResource(inst, tierDetail)
  }

  /** An instance whose tier names no listed tier cannot be collected as
      written: the TypeError ends the whole listing. */
  lemma UnknownTierRaises(inst: SqlInstance, tiers: seq<Tier>)
    requires Processable(inst)
    requires forall k :: 0 <= k < |tiers| ==> TierName(tiers[k]) != inst.settings.value.tier.GetOr("None")
    ensures ProcessResourceAsWritten(inst, FindTier(tiers, inst.settings.value.tier)) == Failure(TypeError)
    ensures ProcessResource(inst, FindTier(tiers, inst.settings.value.tier)).Success?
  {
  }

  /** `_process_resource` with the evidently intended guard (a tier detail
      that is None counts as absent). The errors come in line order: every
      TypeError is raised before the tags are read. */
  function ProcessResource(inst: SqlInstance, tierDetail: Option<Tier>): (r: Result<SqlData>)
    ensures r.Success? <==> Processable(inst)
    ensures r.Failure? ==> r.error == (if inst.settings.None? && inst.ipAddresses.Some? && inst.databaseVersion.Some?
                                       then AttributeError else TypeError)
    ensures r.Success? ==>
              && r.value.id == r.value.name == inst.name
              && r.value.storage == inst.settings.value.dataDiskSizeGb.value * 1024
              && r.value.isOn in {0, 1}
              && (r.value.isOn == 1 <==> inst.state == VStr("RUNNABLE"))
              && r.value.primaryIp == PrimaryIp(inst.ipAddresses.value)
              && r.value.dbType == DbType(inst.databaseVersion.value)
              && r.value.dbVersion == DbVersion(inst.databaseVersion.value)
  {
    if inst.settings.Some? && inst.settings.value.dataDiskSizeGb.None? then Failure(TypeError)
    else if inst.ipAddresses.None? || inst.databaseVersion.None? then Failure(TypeError)
    else if inst.settings.None? then Failure(AttributeError)
    else Success(Record(inst))
  }

  /** The instance's tier, when it has settings. */
  function InstanceTier(inst: SqlInstance): Option<string> {
    if inst.settings.Some? then inst.settings.value.tier else None
  }

  predicate AllProcessed(items: seq<SqlInstance>, tiers: seq<Tier>) {
    forall i :: 0 <= i < |items| ==> ProcessResource(items[i], FindTier(tiers, InstanceTier(items[i]))).Success?
  }

  /** `_fetch`: a response without 'items' lists nothing; otherwise each
      instance, with the first matching tier, is processed in order, and
      the first error ends the listing. */
  function Fetch(items: Option<seq<SqlInstance>>, tiers: Option<seq<Tier>>): (r: Result<seq<SqlData>>)
    ensures r.Success? <==> AllProcessed(items.GetOr([]), tiers.GetOr([]))
    ensures items.None? ==> r == Success([])
    ensures r.Success? ==>
              var xs := items.GetOr([]);
              && |r.value| == |xs|
              && forall i :: 0 <= i < |xs| ==>
                   r.value[i] == ProcessResource(xs[i], FindTier(tiers.GetOr([]), InstanceTier(xs[i]))).value
  {
    var xs := items.GetOr([]);
    var ts := tiers.GetOr([]);
    var f := (inst: SqlInstance) => ProcessResource(inst, FindTier(ts, InstanceTier(inst)));
    Seqs.MapResultAll(f, xs);
    assert forall i :: 0 <= i < |xs| ==> f(xs[i]) == ProcessResource(xs[i], FindTier(ts, InstanceTier(xs[i])));
    Seqs.MapResult(f, xs)
  }

  /** `_fetch` as written: the same listing, each instance processed by
      the as-written guard. It succeeds iff every instance does; otherwise
      the error is that of the first instance that fails. */
  function FetchAsWritten(items: Option<seq<SqlInstance>>, tiers: Option<seq<Tier>>): (r: Result<seq<SqlData>>)
    ensures items.None? ==> r == Success([])
    ensures var xs, ts := items.GetOr([]), tiers.GetOr([]);
            && (r.Success? <==>
                  forall i :: 0 <= i < |xs| ==> ProcessResourceAsWritten(xs[i], FindTier(ts, InstanceTier(xs[i]))).Success?)
            && (r.Success? ==>
                  && |r.value| == |xs|
                  && forall i :: 0 <= i < |xs| ==>
                       r.value[i] == ProcessResourceAsWritten(xs[i], FindTier(ts, InstanceTier(xs[i]))).value)
            && (r.Failure? ==>
                  exists k :: 0 <= k < |xs| && Failure(r.error) == ProcessResourceAsWritten(xs[k], FindTier(ts, InstanceTier(xs[k])))
                              && forall i :: 0 <= i < k ==> ProcessResourceAsWritten(xs[i], FindTier(ts, InstanceTier(xs[i]))).Success?)
  {
    var xs := items.GetOr([]);
    var ts := tiers.GetOr([]);
    var f := (inst: SqlInstance) => ProcessResourceAsWritten(inst, FindTier(ts, InstanceTier(inst)));
    Seqs.MapResultAll(f, xs);
    assert forall i :: 0 <= i < |xs| ==> f(xs[i]) == ProcessResourceAsWritten(xs[i], FindTier(ts, InstanceTier(xs[i])));
    Seqs.MapResult(f, xs)
  }

  /** As written, one processable instance whose tier is not listed ends
      the whole listing, with TypeError when the instances before it
      succeed; the corrected listing processes that instance. */
  lemma UnknownTierFailsListing(items: seq<SqlInstance>, tiers: seq<Tier>, k: nat)
    requires k < |items| && Processable(items[k])
    requires forall j :: 0 <= j < |tiers| ==> TierName(tiers[j]) != items[k].settings.value.tier.GetOr("None")
    ensures FetchAsWritten(Some(items), Some(tiers)).Failure?
    ensures (forall i :: 0 <= i < k ==> ProcessResourceAsWritten(items[i], FindTier(tiers, InstanceTier(items[i]))).Success?) ==>
              FetchAsWritten(Some(items), Some(tiers)) == Failure(TypeError)
    ensures ProcessResource(items[k], FindTier(tiers, InstanceTier(items[k]))).Success?
  {
    UnknownTierRaises(items[k], tiers);
    var r := FetchAsWritten(Some(items), Some(tiers));
    if r.Failure? && forall i :: 0 <= i < k ==> ProcessResourceAsWritten(items[i], FindTier(tiers, InstanceTier(items[i]))).Success? {
      var j :| 0 <= j < |items| && Failure(r.error) == ProcessResourceAsWritten(items[j], FindTier(tiers, InstanceTier(items[j])))
               && forall i :: 0 <= i < j ==> ProcessResourceAsWritten(items[i], FindTier(tiers, InstanceTier(items[i]))).Success?;
      assert j == k;
    }
  }
}
