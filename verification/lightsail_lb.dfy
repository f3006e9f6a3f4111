/** `CloudInventarioLightsailLB._process_resource` of
    `cloudinventario_amazon_lightsail/resources/lb.py`: a Lightsail load
    balancer's health map and on/off rule. The collector's account id and
    the `get_load_balancers` pages are parameters; tags go through the
    collector's `_get_tags`. */
module LightsailLb {
  import opened Wrappers
  import opened Values
  import Assoc
  import Seqs
  import Lightsail

  /** One element of `instanceHealthSummary`; `name` is None when absent. */
  datatype HealthSummary = HealthSummary(name: Option<string>, health: Value, reason: Value)

  datatype Balancer = Balancer(createdAt: Value, name: Value, region: Value, zone: Value, arn: Value,
                               dnsName: Value, state: Value,
                               healthSummary: Option<seq<HealthSummary>>,
                               tags: Option<seq<Lightsail.Tag>>)

  /** The attribute map handed to `new_record`. */
  datatype LbData = LbData(created: Value, name: Value, cluster: Value, location: Value, id: Value,
                           instances: map<string, Value>, dnsName: Value, owner: Value,
                           status: Value, isOn: bool, tags: map<string, Value>)

  const UNKNOWN_INSTANCE: string := "unknown_instance"

  /** The key an entry is filed under. */
  function InstanceKey(h: HealthSummary): string {
    h.name.GetOr(UNKNOWN_INSTANCE)
  }

  /** `{"state": ..., "reason": ...}`. */
  function HealthValue(h: HealthSummary): Value {
    VMap(map["state" := h.health, "reason" := h.reason])
  }

  function HealthPairs(hs: seq<HealthSummary>): (r: seq<(string, Value)>)
    ensures |r| == |hs|
    ensures forall i :: 0 <= i < |hs| ==> r[i] == (InstanceKey(hs[i]), HealthValue(hs[i]))
  {
    seq(|hs|, i requires 0 <= i < |hs| => (InstanceKey(hs[i]), HealthValue(hs[i])))
  }

  /** `health_states`: one key per distinct instance name, unnamed entries
      filed under "unknown_instance", the last entry for a key winning. */
  function HealthStates(hs: seq<HealthSummary>): (m: map<string, Value>)
    ensures m.Keys == set i | 0 <= i < |hs| :: InstanceKey(hs[i])
    ensures forall j :: 0 <= j < |hs| && (forall l :: j < l < |hs| ==> InstanceKey(hs[l]) != InstanceKey(hs[j]))
              ==> m[InstanceKey(hs[j])] == HealthValue(hs[j])
  {
    var pairs := HealthPairs(hs);
    assert Assoc.Keys(pairs) == set i | 0 <= i < |hs| :: InstanceKey(hs[i]) by {
      forall k | k in set i | 0 <= i < |hs| :: InstanceKey(hs[i]) ensures k in Assoc.Keys(pairs) {
        var i :| 0 <= i < |hs| && InstanceKey(hs[i]) == k;
        assert pairs[i].0 == k;
      }
    }
    forall j | 0 <= j < |hs| && (forall l :: j < l < |hs| ==> InstanceKey(hs[l]) != InstanceKey(hs[j]))
      ensures Assoc.IsLast(pairs, j)
    {
    }
    Assoc.ToMap(pairs)
  }

  /** The balancer is on in the "active" and "active_impaired" states. */
  predicate Active(state: Value) {
    state == VStr("active") || state == VStr("active_impaired")
  }

  function ProcessResource(b: Balancer, owner: Value): (r: LbData)
    ensures r.isOn <==> Active(b.state)
    ensures r.status == b.state
    ensures r.instances == HealthStates(b.healthSummary.GetOr([]))
    ensures r.instances.Keys == set i | 0 <= i < |b.healthSummary.GetOr([])| :: InstanceKey(b.healthSummary.GetOr([])[i])
    ensures r.owner == owner && r.tags == Lightsail.GetTags(b.tags)
  {
    LbData(b.createdAt, b.name, b.region, b.zone, b.arn, HealthStates(b.healthSummary.GetOr([])),
           b.dnsName, owner, b.state, b.state == VStr("active") || b.state == VStr("active_impaired"),
           Lightsail.GetTags(b.tags))
  }

  /** Two unnamed entries collapse into one "unknown_instance" entry holding the later one. */
  lemma UnnamedCollapse(h1: Value, r1: Value, h2: Value, r2: Value)
    ensures HealthStates([HealthSummary(None, h1, r1), HealthSummary(None, h2, r2)])
            == map[UNKNOWN_INSTANCE := HealthValue(HealthSummary(None, h2, r2))]
  {
    var hs := [HealthSummary(None, h1, r1), HealthSummary(None, h2, r2)];
    var m := HealthStates(hs);
    assert m.Keys == {UNKNOWN_INSTANCE} by {
      assert InstanceKey(hs[0]) == InstanceKey(hs[1]) == UNKNOWN_INSTANCE;
      forall k | k in m.Keys ensures k == UNKNOWN_INSTANCE {
        var i :| 0 <= i < |hs| && InstanceKey(hs[i]) == k;
      }
      assert InstanceKey(hs[0]) in m.Keys;
    }
  }

  /** `_fetch`: one record per balancer of every page, in order. */
  function Fetch(pages: seq<seq<Balancer>>, owner: Value): (r: seq<LbData>)
    ensures |r| == |Seqs.Concat(pages)|
    ensures forall i :: 0 <= i < |r| ==> r[i] == ProcessResource(Seqs.Concat(pages)[i], owner)
  {
    var all := Seqs.Concat(pages);
    seq(|all|, i requires 0 <= i < |all| => ProcessResource(all[i], owner))
  }
}
