/** `CloudCollectorVMWareVCD` of `cloudinventario_vmware_vcd/collector.py`:
    the folding of a VM's "nic-*" and "disk-*" entries into networks and
    storages, the vApp record, the attribute branch of `__to_dict`, and the
    vApp loop that skips vApps raising an exception. The VM's merged
    attribute map (built from pyvcloud's `to_dict`/`vm_to_dict`) and the
    power state are parameters. */
module Vcd {
  import opened Wrappers
  import opened Values
  import Text
  import Assoc
  import Seqs

  /** A Python dict with its insertion order; the keys are distinct. */
  type Dict = seq<(string, Value)>

  /** `d.get(k)`. */
  function Lookup(d: Dict, k: string): Value {
    match Seqs.FindFirst(d, (e: (string, Value)) => e.0 == k)
    case Some(i) => d[i].1
    case None => VNone
  }

  /** `k in d`. */
  predicate HasKey(d: Dict, k: string) {
    exists i :: 0 <= i < |d| && d[i].0 == k
  }

  /** `d[k]`: the value under `k`, and KeyError when there is none. */
  function Index(d: Dict, k: string): (r: Result<Value>)
    ensures r.Success? <==> HasKey(d, k)
    ensures r.Failure? ==> r.error == KeyError(k)
    ensures r.Success? ==> r.value == Lookup(d, k)
  {
    match Seqs.FindFirst(d, (e: (string, Value)) => e.0 == k)
    case Some(i) => Success(d[i].1)
    case None => Failure(KeyError(k))
  }

  /** Every key of `keys` is in `d`. */
  predicate HasKeys(d: Dict, keys: seq<string>) {
    forall i :: 0 <= i < |keys| ==> HasKey(d, keys[i])
  }

  lemma HasKeysAppend(d: Dict, a: seq<string>, b: seq<string>)
    ensures HasKeys(d, a + b) <==> HasKeys(d, a) && HasKeys(d, b)
  {
    assert forall i :: 0 <= i < |a| ==> (a + b)[i] == a[i];
    assert forall i :: 0 <= i < |b| ==> (a + b)[|a| + i] == b[i];
  }

  /** `d[k]` for each key of `keys` in turn: the values, or the KeyError of
      the first key that is missing. */
  function IndexAll(d: Dict, keys: seq<string>): (r: Result<seq<Value>>)
    ensures r.Success? <==> HasKeys(d, keys)
    ensures r.Success? ==> |r.value| == |keys| && forall i :: 0 <= i < |keys| ==> r.value[i] == Lookup(d, keys[i])
    ensures r.Failure? ==>
              exists i :: 0 <= i < |keys| && r.error == KeyError(keys[i]) && !HasKey(d, keys[i])
                          && forall j :: 0 <= j < i ==> HasKey(d, keys[j])
  {
    var f := (k: string) => Index(d, k);
    Seqs.MapResultAll(f, keys);
    assert forall i :: 0 <= i < |keys| ==> f(keys[i]) == Index(d, keys[i]);
    Seqs.MapResult(f, keys)
  }

  predicate StartsWith(s: string, prefix: string) {
    |prefix| <= |s| && s[..|prefix|] == prefix
  }

  /** `re.match("^nic-", key)`. */
  predicate IsNicKey(e: (string, Value)) {
    StartsWith(e.0, "nic-")
  }

  /** `re.match("^disk-", key)`. */
  predicate IsDiskKey(e: (string, Value)) {
    StartsWith(e.0, "disk-")
  }

  datatype Network = Network(id: string, name: Value, mac: Value, ip: Value, network: Value,
                             connected: bool, primary: bool)

  /** One "nic-*" entry; `.get` on a value that is not a dict raises
      AttributeError. */
  function NetworkOf(e: (string, Value), ipAddress: Value): (r: Result<Network>)
    ensures r.Success? <==> e.1.VMap?
    ensures r.Failure? ==> r.error == AttributeError
    ensures r.Success? ==>
              && r.value.id == e.0
              && r.value.ip == Get(e.1.entries, "ip")
              && (r.value.connected <==> Get(e.1.entries, "connected") == VStr("true"))
              && (r.value.primary <==> r.value.ip == ipAddress)
              && (Truthy(Get(e.1.entries, "name")) ==> r.value.name == Get(e.1.entries, "name"))
              && (!Truthy(Get(e.1.entries, "name")) ==> r.value.name == VStr(e.0))
  {
    match e.1
    case VMap(m) =>
      var ip := Get(m, "ip");
      Success(Network(e.0, OrValue(Get(m, "name"), VStr(e.0)), Get(m, "mac"), ip, Get(m, "network"),
                      Get(m, "connected") == VStr("true"), ip == ipAddress))
    case _ => Failure(AttributeError)
  }

  /** Every entry of the list holds a dict. */
  predicate AllDicts(entries: seq<(string, Value)>) {
    forall i :: 0 <= i < |entries| ==> entries[i].1.VMap?
  }

  /** The nic loop: one network per "nic-*" key, in key order. */
  function Networks(rec: Dict): (r: Result<seq<Network>>)
    ensures r.Success? <==> AllDicts(Seqs.Filter(rec, IsNicKey))
    ensures r.Failure? ==> r.error == AttributeError
    ensures var nics := Seqs.Filter(rec, IsNicKey);
            && (r.Success? ==>
                  && |r.value| == |nics|
                  && forall i :: 0 <= i < |nics| ==> r.value[i] == NetworkOf(nics[i], Lookup(rec, "ipAddress")).value)
  {
    var nics := Seqs.Filter(rec, IsNicKey);
    var f := (e: (string, Value)) => NetworkOf(e, Lookup(rec, "ipAddress"));
    Seqs.MapResultAll(f, nics);
    assert forall i :: 0 <= i < |nics| ==> f(nics[i]) == NetworkOf(nics[i], Lookup(rec, "ipAddress"));
    Seqs.MapResult(f, nics)
  }

  /** `primary_ip`: `ipAddress`, replaced by the ip of each network whose
      key is `primary-nic`. */
  function PrimaryIp(nets: seq<Network>, ipAddress: Value, primaryNic: Value): Value {
    if |nets| == 0 then ipAddress
    else
      var last := nets[|nets| - 1];
      if VStr(last.id) == primaryNic then last.ip else PrimaryIp(nets[..|nets| - 1], ipAddress, primaryNic)
  }

  /** The primary address is `ipAddress` unless some network is the
      `primary-nic`, and then it is the ip of the last such network (with
      distinct keys, the only one). */
  lemma {:induction false} PrimaryIpIsPrimaryNic(nets: seq<Network>, ipAddress: Value, primaryNic: Value)
    ensures (forall i :: 0 <= i < |nets| ==> VStr(nets[i].id) != primaryNic) ==> PrimaryIp(nets, ipAddress, primaryNic) == ipAddress
    ensures forall k :: 0 <= k < |nets| && VStr(nets[k].id) == primaryNic
                        && (forall j :: k < j < |nets| ==> VStr(nets[j].id) != primaryNic)
                        ==> PrimaryIp(nets, ipAddress, primaryNic) == nets[k].ip
  {
    if |nets| > 0 {
      var init := nets[..|nets| - 1];
      PrimaryIpIsPrimaryNic(init, ipAddress, primaryNic);
      assert forall i :: 0 <= i < |init| ==> init[i] == nets[i];
    }
  }

  datatype Disk = Disk(id: Value, name: Value, capacity: int, profile: Value, thin: Value)

  /** `d.get("storageProfile") and d.get("storageProfile").get("name")`. */
  function Profile(m: map<string, Value>): Result<Value> {
    var sp := Get(m, "storageProfile");
    if !Truthy(sp) then Success(sp)
    else if sp.VMap? then Success(Get(sp.entries, "name"))
    else Failure(AttributeError)
  }

  /** One "disk-*" entry: `int(size-MB)` is both the disk's capacity and its
      share of `storage`. */
  function DiskOf(e: (string, Value)): (r: Result<Disk>)
    ensures r.Success? ==> e.1.VMap? && IntOf(Get(e.1.entries, "size-MB")) == Success(r.value.capacity)
    ensures !e.1.VMap? ==> r == Failure(AttributeError)
    ensures e.1.VMap? && IntOf(Get(e.1.entries, "size-MB")).Failure? ==> r == IntOf(Get(e.1.entries, "size-MB")).PropagateFailure()
    ensures r.Failure? ==> r.error in {AttributeError, ValueError, TypeError}
  {
    match e.1
    case VMap(m) =>
      var size :- IntOf(Get(m, "size-MB"));
      var capacity :- IntOf(OrValue(Get(m, "size-MB"), VInt(0)));
      var profile :- Profile(m);
      Success(Disk(OrValue(Get(m, "id"), VStr(e.0)), OrValue(Get(m, "name"), VStr(e.0)), capacity, profile,
                   Get(m, "ThinProvisioned")))
    case _ => Failure(AttributeError)
  }

  predicate AllDisksRead(disks: seq<(string, Value)>) {
    forall i :: 0 <= i < |disks| ==> DiskOf(disks[i]).Success?
  }

  /** The disk loop: one storage per "disk-*" key, in key order. */
  function Storages(rec: Dict): (r: Result<seq<Disk>>)
    ensures r.Success? <==> AllDisksRead(Seqs.Filter(rec, IsDiskKey))
    ensures r.Failure? ==> r.error in {AttributeError, ValueError, TypeError}
    ensures var disks := Seqs.Filter(rec, IsDiskKey);
            r.Success? ==> (
                  && |r.value| == |disks|
                  && forall i :: 0 <= i < |disks| ==> r.value[i] == DiskOf(disks[i]).value)
  {
    var disks := Seqs.Filter(rec, IsDiskKey);
    Seqs.MapResultAll(DiskOf, disks);
    Seqs.MapResult(DiskOf, disks)
  }

  function Capacities(disks: seq<Disk>): (r: seq<int>)
    ensures |r| == |disks|
    ensures forall i :: 0 <= i < |disks| ==> r[i] == disks[i].capacity
  {
    seq(|disks|, i requires 0 <= i < |disks| => disks[i].capacity)
  }

  /** A list that is stored only when it is non-empty; otherwise the record
      passes on whatever the VM map already held under that key. */
  datatype Listed<T> = Listed(items: seq<T>) | Passed(original: Value)

  function ListedOr<T>(items: seq<T>, original: Value): (r: Listed<T>)
    ensures |items| > 0 <==> r.Listed?
    ensures r.Listed? ==> r.items == items
    ensures r.Passed? ==> r.original == original
  {
    if |items| > 0 then Listed(items) else Passed(original)
  }

  /** The attribute map `__process_vmlist_vm` hands to `new_record`. */
  datatype VmData = VmData(created: Value, name: Value, cluster: Value, project: Value, description: Value,
                           id: Value, cpus: int, memory: int, disks: nat, storage: int, primaryIp: Value,
                           networks: Listed<Network>, storages: Listed<Disk>, os: Value, status: Value,
                           isOn: int, owner: Value)

  /** The keys the record of `__process_vmlist_vm` reads with `rec[...]`
      rather than `.get`, before and after the two `int(...)` calls.
      `__process_vm` always sets "vdcName" and "vappName", so those two are
      present in every merged map it builds. */
  const VM_KEYS_BEFORE_INT: seq<string> := ["DateCreated", "name", "vdcName", "vappName", "id"]
  const VM_KEYS_AFTER_INT: seq<string> := ["guestOs", "status", "ownerName"]
  const VM_INDEXED_KEYS: seq<string> := VM_KEYS_BEFORE_INT + VM_KEYS_AFTER_INT

  /** The fields of the VM record in the order its dict display reads them. */
  datatype VmFields = VmFields(created: Value, name: Value, cluster: Value, project: Value, id: Value,
                               cpus: int, memory: int, os: Value, status: Value, owner: Value)

  function ReadVmFields(rec: Dict): (r: Result<VmFields>)
    ensures r.Success? <==>
              && HasKeys(rec, VM_INDEXED_KEYS)
              && IntOf(OrValue(Lookup(rec, "numberOfCpus"), VInt(0))).Success?
              && IntOf(OrValue(Lookup(rec, "memoryMB"), VInt(0))).Success?
    ensures r.Failure? && r.error.KeyError? ==> r.error.key in VM_INDEXED_KEYS && !HasKey(rec, r.error.key)
    ensures r.Success? ==>
              && r.value.created == Lookup(rec, "DateCreated") && r.value.name == Lookup(rec, "name")
              && r.value.cluster == Lookup(rec, "vdcName") && r.value.project == Lookup(rec, "vappName")
              && r.value.id == Lookup(rec, "id") && r.value.os == Lookup(rec, "guestOs")
              && r.value.status == Lookup(rec, "status") && r.value.owner == Lookup(rec, "ownerName")
  {
    HasKeysAppend(rec, VM_KEYS_BEFORE_INT, VM_KEYS_AFTER_INT);
    var before :- IndexAll(rec, VM_KEYS_BEFORE_INT);
    var cpus :- IntOf(OrValue(Lookup(rec, "numberOfCpus"), VInt(0)));
    var memory :- IntOf(OrValue(Lookup(rec, "memoryMB"), VInt(0)));
    var after :- IndexAll(rec, VM_KEYS_AFTER_INT);
    Success(VmFields(before[0], before[1], before[2], before[3], before[4], cpus, memory, after[0], after[1], after[2]))
  }

  /** `__process_vmlist_vm` on the merged VM map, in line order: `rec["name"]`
      of the listed VM, the nic loop, the disk loop, then the record's
      fields. Each step raises what it raises. */
  function ProcessVmlistVm(rec: Dict, poweredOn: bool): (r: Result<VmData>)
    ensures r.Success? <==>
              && HasKeys(rec, VM_INDEXED_KEYS)
              && Networks(rec).Success? && Storages(rec).Success?
              && IntOf(OrValue(Lookup(rec, "numberOfCpus"), VInt(0))).Success?
              && IntOf(OrValue(Lookup(rec, "memoryMB"), VInt(0))).Success?
    ensures !HasKey(rec, "name") ==> r == Failure(KeyError("name"))
    ensures HasKey(rec, "name") && Networks(rec).Failure? ==> r == Failure(AttributeError)
    ensures r.Failure? && r.error.KeyError? ==> r.error.key in VM_INDEXED_KEYS && !HasKey(rec, r.error.key)
    ensures r.Success? ==>
              var nets := Networks(rec).value;
              var disks := Storages(rec).value;
              && r.value.disks == |disks| == |Seqs.Filter(rec, IsDiskKey)|
              && r.value.storage == Seqs.Sum(Capacities(disks))
              && r.value.primaryIp == PrimaryIp(nets, Lookup(rec, "ipAddress"), Lookup(rec, "primary-nic"))
              && r.value.networks == ListedOr(nets, Lookup(rec, "networks"))
              && r.value.storages == ListedOr(disks, Lookup(rec, "storages"))
              && r.value.os == Lookup(rec, "guestOs") && r.value.owner == Lookup(rec, "ownerName")
              && (r.value.isOn == 1 <==> poweredOn) && r.value.isOn in {0, 1}
  {
    assert VM_INDEXED_KEYS[1] == "name";
    var vmName :- Index(rec, "name");
    var nets :- Networks(rec);
    var disks :- Storages(rec);
    var f :- ReadVmFields(rec);
    Success(VmData(
      f.created, f.name, f.cluster, f.project, Lookup(rec, "Description"), f.id, f.cpus, f.memory,
      |disks|, Seqs.Sum(Capacities(disks)),
      PrimaryIp(nets, Lookup(rec, "ipAddress"), Lookup(rec, "primary-nic")),
      ListedOr(nets, Lookup(rec, "networks")), ListedOr(disks, Lookup(rec, "storages")),
      f.os, f.status, if poweredOn then 1 else 0, f.owner))
  }

  /** A VM map holding only its name raises KeyError at its creation
      date, the first directly indexed key of the record. */
  lemma NameOnlyVmRaises()
    ensures ProcessVmlistVm([("name", VStr("a"))], false) == Failure(KeyError("DateCreated"))
  {
    var rec: Dict := [("name", VStr("a"))];
    assert rec[0].0[..4][1] != "nic-"[1];
    assert !IsNicKey(rec[0]) && !IsDiskKey(rec[0]);
    assert |Seqs.Filter(rec, IsNicKey)| == 0 && |Seqs.Filter(rec, IsDiskKey)| == 0;
    assert Networks(rec).Success? && Storages(rec).Success?;
    assert HasKey(rec, "name") && !HasKey(rec, "DateCreated");
    var keys := VM_KEYS_BEFORE_INT;
    assert keys[0] == "DateCreated";
    var head := IndexAll(rec, keys);
    var i :| 0 <= i < |keys| && head.error == KeyError(keys[i]) && !HasKey(rec, keys[i])
             && forall j :: 0 <= j < i ==> HasKey(rec, keys[j]);
    assert i == 0;
  }

  /** A VM map without "nic-*" or "disk-*" keys has no disks, no storage,
      its own `ipAddress` as primary address, and passes its `networks`
      and `storages` through. */
  lemma BareVm(rec: Dict, poweredOn: bool)
    requires forall i :: 0 <= i < |rec| ==> !IsNicKey(rec[i]) && !IsDiskKey(rec[i])
    requires ProcessVmlistVm(rec, poweredOn).Success?
    ensures var d := ProcessVmlistVm(rec, poweredOn).value;
            && d.disks == 0 && d.storage == 0 && d.primaryIp == Lookup(rec, "ipAddress")
            && d.networks == Passed(Lookup(rec, "networks")) && d.storages == Passed(Lookup(rec, "storages"))
  {
  }

  /** The vApp record of `__process_vapp`. */
  datatype VappData = VappData(created: Value, name: Value, id: Value, cluster: Value, project: Value,
                               cpus: int, memory: int, storage: int, os: string, status: Value,
                               isOn: int, owner: Value)

  /** Python's `//` by a positive divisor rounds toward minus infinity,
      which for a positive divisor is Dafny's Euclidean `/`. */
  function FloorDiv(a: int, b: int): (q: int)
    requires b > 0
    ensures q * b <= a < (q + 1) * b
  {
    a / b
  }

  /** The keys the vApp record reads with `rec[...]` rather than `.get`,
      before and after the three `int(...)` calls. */
  const VAPP_KEYS_BEFORE_INT: seq<string> := ["creationDate", "name", "vdcName"]
  const VAPP_KEYS_AFTER_INT: seq<string> := ["status", "ownerName"]
  const VAPP_INDEXED_KEYS: seq<string> := VAPP_KEYS_BEFORE_INT + VAPP_KEYS_AFTER_INT

  /** The record's fields in the order its dict display reads them: the
      three `int(...)` come between `rec["vdcName"]` and `rec["status"]`. */
  function ReadVappFields(rec: Dict, poweredOn: bool): (r: Result<VappData>)
    ensures r.Success? <==>
              && HasKeys(rec, VAPP_INDEXED_KEYS)
              && IntOf(OrValue(Lookup(rec, "numberOfCpus"), VInt(0))).Success?
              && IntOf(OrValue(Lookup(rec, "memoryAllocationMB"), VInt(0))).Success?
              && IntOf(OrValue(Lookup(rec, "storageKB"), VInt(0))).Success?
    ensures r.Failure? && r.error.KeyError? ==> r.error.key in VAPP_INDEXED_KEYS && !HasKey(rec, r.error.key)
    ensures r.Success? ==>
              && r.value.id == r.value.name == Lookup(rec, "name")
              && r.value.cluster == r.value.project == Lookup(rec, "vdcName")
              && r.value.os == "VMWare VApp"
              && (r.value.isOn == 1 <==> poweredOn) && r.value.isOn in {0, 1}
              && var kb := IntOf(OrValue(Lookup(rec, "storageKB"), VInt(0))).value;
                 r.value.storage * 1024 <= kb < (r.value.storage + 1) * 1024
  {
    HasKeysAppend(rec, VAPP_KEYS_BEFORE_INT, VAPP_KEYS_AFTER_INT);
    var before :- IndexAll(rec, VAPP_KEYS_BEFORE_INT);
    var cpus :- IntOf(OrValue(Lookup(rec, "numberOfCpus"), VInt(0)));
    var memory :- IntOf(OrValue(Lookup(rec, "memoryAllocationMB"), VInt(0)));
    var kb :- IntOf(OrValue(Lookup(rec, "storageKB"), VInt(0)));
    var after :- IndexAll(rec, VAPP_KEYS_AFTER_INT);
    Success(VappData(before[0], before[1], before[1], before[2], before[2], cpus, memory, FloorDiv(kb, 1024),
                     "VMWare VApp", after[0], if poweredOn then 1 else 0, after[1]))
  }

  /** The vApp record of `__process_vapp`: `rec["name"]` for the log line,
      then the record's fields. */
  function ProcessVapp(rec: Dict, poweredOn: bool): (r: Result<VappData>)
    ensures r.Success? <==>
              && HasKeys(rec, VAPP_INDEXED_KEYS)
              && IntOf(OrValue(Lookup(rec, "numberOfCpus"), VInt(0))).Success?
              && IntOf(OrValue(Lookup(rec, "memoryAllocationMB"), VInt(0))).Success?
              && IntOf(OrValue(Lookup(rec, "storageKB"), VInt(0))).Success?
    ensures !HasKey(rec, "name") ==> r == Failure(KeyError("name"))
    ensures r.Failure? && r.error.KeyError? ==> r.error.key in VAPP_INDEXED_KEYS && !HasKey(rec, r.error.key)
    ensures r.Success? ==>
              && r.value.id == r.value.name == Lookup(rec, "name")
              && r.value.cluster == r.value.project == Lookup(rec, "vdcName")
              && r.value.os == "VMWare VApp"
              && (r.value.isOn == 1 <==> poweredOn) && r.value.isOn in {0, 1}
    ensures r.Success? && !Truthy(Lookup(rec, "storageKB")) ==> r.value.storage == 0
    ensures r.Success? && Truthy(Lookup(rec, "storageKB")) ==>
              var kb := IntOf(Lookup(rec, "storageKB"));
              kb.Success? && r.value.storage * 1024 <= kb.value < (r.value.storage + 1) * 1024
  {
    assert VAPP_INDEXED_KEYS[1] == "name";
    var logged :- Index(rec, "name");
    ReadVappFields(rec, poweredOn)
  }

  /** An XML element as pyvcloud hands it over: child elements, attributes
      and text. */
  datatype Element = Element(children: seq<(string, Element)>, attrs: Dict, text: Value)

  /** The attribute pairs `__to_dict` keeps: every key but "type", with its
      first character lower-cased. */
  function AttrPairs(attrs: Dict): (r: seq<(string, Value)>)
    ensures |r| <= |attrs|
  {
    if |attrs| == 0 then []
    else
      var e := attrs[|attrs| - 1];
      AttrPairs(attrs[..|attrs| - 1]) + (if e.0 == "type" then [] else [(Text.LowerFirst(e.0), e.1)])
  }

  /** Every kept pair comes from an attribute other than "type", and every
      such attribute is kept under its lower-cased-first key. */
  lemma {:induction false} AttrPairsSpec(attrs: Dict)
    ensures forall p :: p in AttrPairs(attrs) <==>
              exists i :: 0 <= i < |attrs| && attrs[i].0 != "type" && p == (Text.LowerFirst(attrs[i].0), attrs[i].1)
  {
    if |attrs| > 0 {
      var init := attrs[..|attrs| - 1];
      AttrPairsSpec(init);
      assert forall i :: 0 <= i < |init| ==> init[i] == attrs[i];
    }
  }

  /** `__to_dict`: an element with children maps each child's key, first
      character lower-cased, to the child converted; one with attributes
      keeps its attributes but "type"; any other element is its text.
      Later keys overwrite earlier ones that lower-case alike. */
  function ToDict(el: Element): Value
    decreases el
  {
    if |el.children| > 0 then
      VMap(Assoc.ToMap(seq(|el.children|, i requires 0 <= i < |el.children| =>
        (Text.LowerFirst(el.children[i].0), ToDict(el.children[i].1)))))
    else if |el.attrs| > 0 then VMap(Assoc.ToMap(AttrPairs(el.attrs)))
    else el.text
  }

  /** On the attribute branch, the keys are exactly the lower-cased-first
      keys of the attributes other than "type", and each key holds the
      value of an attribute it comes from (the last one, by `Assoc.ToMap`). */
  lemma ToDictAttributes(el: Element)
    requires |el.children| == 0 && |el.attrs| > 0
    ensures ToDict(el).VMap?
    ensures forall k :: k in ToDict(el).entries <==>
              exists i :: 0 <= i < |el.attrs| && el.attrs[i].0 != "type" && k == Text.LowerFirst(el.attrs[i].0)
    ensures forall k :: k in ToDict(el).entries ==>
              exists i :: 0 <= i < |el.attrs| && el.attrs[i].0 != "type" && k == Text.LowerFirst(el.attrs[i].0)
                          && ToDict(el).entries[k] == el.attrs[i].1
  {
    var pairs := AttrPairs(el.attrs);
    AttrPairsSpec(el.attrs);
    Assoc.ToMapPairsIn(pairs);
    forall k ensures k in Assoc.Keys(pairs) <==>
      exists i :: 0 <= i < |el.attrs| && el.attrs[i].0 != "type" && k == Text.LowerFirst(el.attrs[i].0)
    {
      if k in Assoc.Keys(pairs) {
        var j :| 0 <= j < |pairs| && pairs[j].0 == k;
        assert pairs[j] in pairs;
      }
      if exists i :: 0 <= i < |el.attrs| && el.attrs[i].0 != "type" && k == Text.LowerFirst(el.attrs[i].0) {
        var i :| 0 <= i < |el.attrs| && el.attrs[i].0 != "type" && k == Text.LowerFirst(el.attrs[i].0);
        var p := (k, el.attrs[i].1);
        assert p in pairs;
        var j :| 0 <= j < |pairs| && pairs[j] == p;
      }
    }
  }

  /** `__process_vdc`'s vApp loop: a vApp whose processing raises is
      logged and skipped, so the loop never fails and keeps, in order, the
      records of the vApps that succeed. */
  function VappRecords<T>(results: seq<Result<seq<T>>>): (r: seq<T>)
    ensures (forall i :: 0 <= i < |results| ==> results[i].Failure?) ==> r == []
  {
    if |results| == 0 then []
    else
      var last := results[|results| - 1];
      VappRecords(results[..|results| - 1]) + (if last.Success? then last.value else [])
  }

  /** A failing vApp adds nothing, wherever it stands. */
  lemma {:induction false} FailingVappSkipped<T>(before: seq<Result<seq<T>>>, e: PyError, after: seq<Result<seq<T>>>)
    ensures VappRecords(before + [Failure(e)] + after) == VappRecords(before + after)
  {
    if |after| == 0 {
      assert before + [Failure(e)] + after == before + [Failure(e)];
      assert (before + [Failure(e)])[..|before|] == before;
      assert before + after == before;
    } else {
      var init := after[..|after| - 1];
      FailingVappSkipped(before, e, init);
      assert (before + [Failure(e)] + after)[..|before + [Failure(e)] + after| - 1] == before + [Failure(e)] + init;
      assert (before + after)[..|before + after| - 1] == before + init;
    }
  }
}
