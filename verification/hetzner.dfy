/** `CloudCollectorHetznerHCloud` of `cloudinventario_hetzner_hcloud/collector.py`:
    the depth-bounded conversion of an hcloud SDK object into plain dicts
    and lists, and the 'vm' record read from the converted server. The
    SDK's server listing is a parameter. */
module Hetzner {
  import opened Wrappers
  import opened Values
  import Text
  import Assoc
  import Seqs

  /** Levels below this one are cut off. */
  const MAX_LEVEL: nat := 10

  /** Keys whose values are never converted. */
  const IGNORED_KEYS: seq<string> := ["server_types", "prices", "servers"]

  /** An SDK value: an object with `__slots__` (attribute name and value, in
      slot order), a Python list, or anything else (a string, number, dict
      or None). */
  datatype Obj =
    | Slotted(slots: seq<(string, Obj)>)
    | ListObj(items: seq<Obj>)
    | Other(v: Value)

  /** The result of the conversion: None where a branch is cut off, a dict
      built from slots, a list built element-wise, or the object itself. */
  datatype Out =
    | Cut
    | Dict(entries: map<string, Out>)
    | List(items: seq<Out>)
    | Same(obj: Obj)

  /** `__to_dict(obj, key, level)`: `key` is the attribute the object was
      read from (None at the top), `level` the caller's level. */
  function ToDict(o: Obj, key: Option<string>, level: nat): (r: Out)
    decreases o
    ensures (key.Some? && key.value in IGNORED_KEYS) || level >= MAX_LEVEL ==> r == Cut
    ensures !(key.Some? && key.value in IGNORED_KEYS) && level < MAX_LEVEL ==>
              match o
              case Slotted(slots) => (|slots| == 0 ==> r == Same(o)) && (|slots| > 0 ==> r.Dict?)
              case ListObj(items) => r.List? && |r.items| == |items|
              case Other(_) => r == Same(o)
  {
    var lvl := level + 1;
    if (key.Some? && key.value in IGNORED_KEYS) || lvl > MAX_LEVEL then Cut
    else match o
      case Slotted(slots) =>
        if |slots| > 0 then Dict(Assoc.ToMap(SlotPairs(o, slots, lvl))) else Same(o)
      case ListObj(items) =>
        List(seq(|items|, i requires 0 <= i < |items| => ToDict(items[i], key, lvl)))
      case Other(_) => Same(o)
  }

  /** The converted slots of `o`, each under its name with the first
      character lower-cased, converted with the slot name as key. */
  function SlotPairs(o: Obj, slots: seq<(string, Obj)>, lvl: nat): (r: seq<(string, Out)>)
    requires o.Slotted? && slots == o.slots
    decreases o, 0
    ensures |r| == |slots|
    ensures forall i :: 0 <= i < |slots| ==>
              r[i] == (Text.LowerFirst(slots[i].0), ToDict(slots[i].1, Some(slots[i].0), lvl))
  {
    seq(|slots|, i requires 0 <= i < |slots| => (Text.LowerFirst(slots[i].0), ToDict(slots[i].1, Some(slots[i].0), lvl)))
  }

  /** A list converts element by element, in order, each item with the
      list's own key one level further down. */
  lemma ListItemsConverted(o: Obj, key: Option<string>, level: nat)
    requires o.ListObj? && !(key.Some? && key.value in IGNORED_KEYS) && level < MAX_LEVEL
    ensures var r := ToDict(o, key, level);
      r.List? && |r.items| == |o.items|
      && forall i :: 0 <= i < |o.items| ==> r.items[i] == ToDict(o.items[i], key, level + 1)
  {
  }

  /** The output nests dicts and lists at most `n` deep. */
  predicate Bounded(out: Out, n: nat)
    decreases n
  {
    match out
    case Cut => true
    case Same(_) => true
    case Dict(m) => n > 0 && forall k :: k in m ==> Bounded(m[k], n - 1)
    case List(xs) => n > 0 && forall i :: 0 <= i < |xs| ==> Bounded(xs[i], n - 1)
  }

  /** The conversion never nests deeper than the levels left below the
      caller's: the whole server object converts to at most MAX_LEVEL
      levels of dicts and lists. */
  lemma {:induction false} ToDictBounded(o: Obj, key: Option<string>, level: nat)
    requires level <= MAX_LEVEL
    decreases o, 1
    ensures Bounded(ToDict(o, key, level), MAX_LEVEL - level)
  {
    var r := ToDict(o, key, level);
    if (key.Some? && key.value in IGNORED_KEYS) || level >= MAX_LEVEL {
      assert r == Cut;
    } else if o.Slotted? && |o.slots| > 0 {
      SlotsBounded(o, level);
      assert r == Dict(Assoc.ToMap(SlotPairs(o, o.slots, level + 1)));
    } else if o.ListObj? {
      ItemsBounded(o, key, level);
      assert r.List? && |r.items| == |o.items|;
      forall i | 0 <= i < |r.items| ensures Bounded(r.items[i], MAX_LEVEL - level - 1) {
        assert r.items[i] == ToDict(o.items[i], key, level + 1);
      }
    } else {
      assert r == Same(o);
    }
  }

  /** The list case: every converted item nests within the levels left. */
  lemma {:induction false} ItemsBounded(o: Obj, key: Option<string>, level: nat)
    requires o.ListObj? && level < MAX_LEVEL
    decreases o, 0
    ensures forall i :: 0 <= i < |o.items| ==> Bounded(ToDict(o.items[i], key, level + 1), MAX_LEVEL - level - 1)
  {
    forall i | 0 <= i < |o.items| ensures Bounded(ToDict(o.items[i], key, level + 1), MAX_LEVEL - level - 1) {
      ToDictBounded(o.items[i], key, level + 1);
    }
  }

  /** The slot case: the dict of converted slots nests within the levels left. */
  lemma {:induction false} SlotsBounded(o: Obj, level: nat)
    requires o.Slotted? && level < MAX_LEVEL
    decreases o, 0
    ensures Bounded(Dict(Assoc.ToMap(SlotPairs(o, o.slots, level + 1))), MAX_LEVEL - level)
  {
    var pairs := SlotPairs(o, o.slots, level + 1);
    forall i | 0 <= i < |pairs| ensures Bounded(pairs[i].1, MAX_LEVEL - (level + 1)) {
      ToDictBounded(o.slots[i].1, Some(o.slots[i].0), level + 1);
    }
    ValuesBounded(pairs, MAX_LEVEL - (level + 1));
  }

  /** A dict built from pairs whose values all nest within `n` levels nests within `n + 1`. */
  lemma ValuesBounded(pairs: seq<(string, Out)>, n: nat)
    requires forall i :: 0 <= i < |pairs| ==> Bounded(pairs[i].1, n)
    ensures Bounded(Dict(Assoc.ToMap(pairs)), n + 1)
  {
    var m := Assoc.ToMap(pairs);
    Assoc.ToMapPairsIn(pairs);
    forall k | k in m ensures Bounded(m[k], n) {
      var i :| 0 <= i < |pairs| && pairs[i] == (k, m[k]);
    }
  }

  /** Each entry of a converted object is the conversion of one of its
      slots, read with that slot's name as key; in particular a slot named
      'server_types', 'prices' or 'servers' converts to None. */
  lemma SlotEntries(o: Obj, key: Option<string>, level: nat)
    requires o.Slotted? && |o.slots| > 0
    requires !(key.Some? && key.value in IGNORED_KEYS) && level < MAX_LEVEL
    ensures forall k :: k in ToDict(o, key, level).entries ==>
              exists i :: 0 <= i < |o.slots| && k == Text.LowerFirst(o.slots[i].0)
                          && ToDict(o, key, level).entries[k] == ToDict(o.slots[i].1, Some(o.slots[i].0), level + 1)
    ensures forall i :: 0 <= i < |o.slots| && o.slots[i].0 in IGNORED_KEYS ==>
              ToDict(o.slots[i].1, Some(o.slots[i].0), level + 1) == Cut
  {
    var pairs := SlotPairs(o, o.slots, level + 1);
    Assoc.ToMapPairsIn(pairs);
    var m := ToDict(o, key, level).entries;
    forall k | k in m
      ensures exists i :: 0 <= i < |o.slots| && k == Text.LowerFirst(o.slots[i].0)
                          && m[k] == ToDict(o.slots[i].1, Some(o.slots[i].0), level + 1)
    {
      var i :| 0 <= i < |pairs| && pairs[i] == (k, m[k]);
    }
  }

  /** Conversely, every slot's name is a key of the converted object, and
      it holds the conversion of the last slot with that name. */
  lemma SlotKeysCovered(o: Obj, key: Option<string>, level: nat)
    requires o.Slotted? && |o.slots| > 0
    requires !(key.Some? && key.value in IGNORED_KEYS) && level < MAX_LEVEL
    ensures forall i :: 0 <= i < |o.slots| ==> Text.LowerFirst(o.slots[i].0) in ToDict(o, key, level).entries
    ensures forall i :: 0 <= i < |o.slots|
                        && (forall l :: i < l < |o.slots| ==> Text.LowerFirst(o.slots[l].0) != Text.LowerFirst(o.slots[i].0)) ==>
              ToDict(o, key, level).entries[Text.LowerFirst(o.slots[i].0)] == ToDict(o.slots[i].1, Some(o.slots[i].0), level + 1)
  {
    var pairs := SlotPairs(o, o.slots, level + 1);
    var m := ToDict(o, key, level).entries;
    assert m == Assoc.ToMap(pairs);
    forall i | 0 <= i < |o.slots| ensures Text.LowerFirst(o.slots[i].0) in m {
      assert pairs[i].0 in Assoc.Keys(pairs);
    }
    forall i | 0 <= i < |o.slots|
               && (forall l :: i < l < |o.slots| ==> Text.LowerFirst(o.slots[l].0) != Text.LowerFirst(o.slots[i].0))
      ensures m[Text.LowerFirst(o.slots[i].0)] == ToDict(o.slots[i].1, Some(o.slots[i].0), level + 1)
    {
      assert Assoc.IsLast(pairs, i);
    }
  }

  /** `d[k]` on a converted value: a dict entry (KeyError when missing), an
      entry of a plain dict passed through unchanged, and a TypeError on
      None, lists and slot-less objects. */
  function Index(d: Out, k: string): (r: Result<Out>)
    ensures d.Dict? ==> (r.Success? <==> k in d.entries) && (r.Success? ==> r.value == d.entries[k])
    ensures (d.Cut? || d.List?) ==> r == Failure(TypeError)
  {
    match d
    case Dict(m) => if k in m then Success(m[k]) else Failure(KeyError(k))
    case Same(Other(VMap(m))) => if k in m then Success(Same(Other(m[k]))) else Failure(KeyError(k))
    case _ => Failure(TypeError)
  }

  /** The attribute map of the 'vm' record, without the floating-point
      memory and storage sizes. */
  datatype VmData = VmData(id: Out, name: Out, primaryIp: Out, status: Out, isOn: bool, cpus: Out,
                           cpuType: Out, storageType: Out, os: Out, cluster: Out, clusterName: Out,
                           serverType: Out, serverLocation: Out, serverVolumes: Out)

  /** `data["status"] == "running"`. */
  predicate Running(status: Out) {
    status == Same(Other(VStr("running")))
  }

  /** `_process_vm`: the server converted from level 0, then read key by
      key: the server type's memory and disk sizes first, then the keys in
      the order of the record's fields; a missing key ends it. */
  function ProcessVm(server: Obj): (r: Result<VmData>)
    ensures r.Success? ==> r.value.isOn == Running(r.value.status)
    ensures r.Success? ==> Index(ToDict(server, None, 0), "status") == Success(r.value.status)
    ensures r.Success? ==> Index(ToDict(server, None, 0), "id") == Success(r.value.id)
    ensures Index(ToDict(server, None, 0), "server_type").Failure? ==> r.Failure?
    ensures var st := Index(ToDict(server, None, 0), "server_type");
            st.Success? && (Index(st.value, "memory").Failure? || Index(st.value, "disk").Failure?) ==> r.Failure?
  {
    var data := ToDict(server, None, 0);
    var serverType :- Index(data, "server_type");
    var memory :- Index(serverType, "memory");
    var disk :- Index(serverType, "disk");
    var id :- Index(data, "id");
    var name :- Index(data, "name");
    var publicNet :- Index(data, "public_net");
    var ipv4 :- Index(publicNet, "ipv4");
    var ip :- Index(ipv4, "ip");
    var status :- Index(data, "status");
    var cores :- Index(serverType, "cores");
    var cpuType :- Index(serverType, "cpu_type");
    var storageType :- Index(serverType, "storage_type");
    var image :- Index(data, "image");
    var os :- Index(image, "os_flavor");
    var datacenter :- Index(data, "datacenter");
    var cluster :- Index(datacenter, "name");
    var clusterName :- Index(datacenter, "description");
    var typeName :- Index(serverType, "name");
    var location :- Index(datacenter, "location");
    var volumes :- Index(data, "volumes");
    Success(VmData(id, name, ip, status, Running(status), cores, cpuType, storageType, os, cluster,
                   clusterName, typeName, location, volumes))
  }

  predicate AllProcessed(servers: seq<Obj>) {
    forall i :: 0 <= i < |servers| ==> ProcessVm(servers[i]).Success?
  }

  /** `_fetch`: one record per server, in order; the first error ends it. */
  function Fetch(servers: seq<Obj>): (r: Result<seq<VmData>>)
    ensures r.Success? <==> AllProcessed(servers)
    ensures r.Success? ==> |r.value| == |servers|
                           && forall i :: 0 <= i < |servers| ==> r.value[i] == ProcessVm(servers[i]).value
  {
    Seqs.MapResultAll(ProcessVm, servers);
    Seqs.MapResult(ProcessVm, servers)
  }
}
