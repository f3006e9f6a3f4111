/** `CloudInventarioElb._process_resource` of
    `cloudinventario_amazon_aws/resources/elb.py`: a classic load balancer's
    instance health folded into one status and a per-instance health map.
    The `describe_instance_health` response, the tags and the collector's
    account id arrive as parameters. */
module AwsElb {
  import opened Values
  import Assoc

  /** One element of `InstanceStates`. */
  datatype InstanceState = InstanceState(instanceId: string, state: string)

  /** The fields of a `describe_load_balancers` entry copied into the record. */
  datatype Balancer = Balancer(name: string, created: Value, zones: Value, zoneId: Value,
                               hostedName: Value, scheme: Value, subnets: Value)

  /** One pass of the status loop. An "Unknown" state leaves the status as it is. */
  function StatusStep(status: string, state: string): string {
    if state == "InService" then "on"
    else if status == "unknown" && state == "OutOfService" then "off"
    else if status == "unknown" && state == "Unknown" then "unknown"
    else status
  }

  /** The loop over `InstanceStates`, starting from "unknown". */
  function AggregateStatus(states: seq<InstanceState>): string {
    if |states| == 0 then "unknown"
    else StatusStep(AggregateStatus(states[..|states| - 1]), states[|states| - 1].state)
  }

  predicate AnyState(states: seq<InstanceState>, s: string) {
    exists i :: 0 <= i < |states| && states[i].state == s
  }

  /** The intended meaning of the loop: "on" if any instance is in service,
      else "off" if any is out of service, else "unknown". */
  function ReferenceStatus(states: seq<InstanceState>): string {
    if AnyState(states, "InService") then "on"
    else if AnyState(states, "OutOfService") then "off"
    else "unknown"
  }

  lemma AnyStateSnoc(states: seq<InstanceState>, s: string)
    requires |states| > 0
    ensures AnyState(states, s) <==>
              AnyState(states[..|states| - 1], s) || states[|states| - 1].state == s
  {
    var init := states[..|states| - 1];
    if AnyState(states, s) && states[|states| - 1].state != s {
      var i :| 0 <= i < |states| && states[i].state == s;
      assert init[i] == states[i];
    }
    if AnyState(init, s) {
      var i :| 0 <= i < |init| && init[i].state == s;
      assert states[i] == init[i];
    }
  }

  /** The fold computes the reference status, whatever the instance order. */
  lemma {:induction false} AggregateMatchesReference(states: seq<InstanceState>)
    ensures AggregateStatus(states) == ReferenceStatus(states)
  {
    if |states| > 0 {
      AggregateMatchesReference(states[..|states| - 1]);
      AnyStateSnoc(states, "InService");
      AnyStateSnoc(states, "OutOfService");
    }
  }

  lemma AnyStatePermutation(s1: seq<InstanceState>, s2: seq<InstanceState>, s: string)
    requires multiset(s1) == multiset(s2)
    ensures AnyState(s1, s) ==> AnyState(s2, s)
  {
    if AnyState(s1, s) {
      var i :| 0 <= i < |s1| && s1[i].state == s;
      assert s1[i] in multiset(s2);
      var j :| 0 <= j < |s2| && s2[j] == s1[i];
    }
  }

  /** Reordering the instances does not change the aggregate. */
  lemma AggregateOrderFree(s1: seq<InstanceState>, s2: seq<InstanceState>)
    requires multiset(s1) == multiset(s2)
    ensures AggregateStatus(s1) == AggregateStatus(s2)
  {
    AggregateMatchesReference(s1);
    AggregateMatchesReference(s2);
    AnyStatePermutation(s1, s2, "InService");
    AnyStatePermutation(s2, s1, "InService");
    AnyStatePermutation(s1, s2, "OutOfService");
    AnyStatePermutation(s2, s1, "OutOfService");
  }

  /** `{"state": ...}`, the value kept per instance. */
  function Health(state: string): Value {
    VMap(map["state" := VStr(state)])
  }

  function HealthPairs(states: seq<InstanceState>): (r: seq<(string, Value)>)
    ensures |r| == |states|
    ensures forall i :: 0 <= i < |states| ==> r[i] == (states[i].instanceId, Health(states[i].state))
  {
    seq(|states|, i requires 0 <= i < |states| => (states[i].instanceId, Health(states[i].state)))
  }

  /** `health_states`: one key per distinct instance id, holding the state of
      its last occurrence. */
  function HealthStates(states: seq<InstanceState>): (m: map<string, Value>)
    ensures m.Keys == set i | 0 <= i < |states| :: states[i].instanceId
    ensures forall j :: 0 <= j < |states| && (forall l :: j < l < |states| ==> states[l].instanceId != states[j].instanceId)
              ==> m[states[j].instanceId] == Health(states[j].state)
  {
    var pairs := HealthPairs(states);
    assert Assoc.Keys(pairs) == set i | 0 <= i < |states| :: states[i].instanceId by {
      forall k | k in set i | 0 <= i < |states| :: states[i].instanceId ensures k in Assoc.Keys(pairs) {
        var i :| 0 <= i < |states| && states[i].instanceId == k;
        assert pairs[i].0 == k;
      }
    }
    forall j | 0 <= j < |states| && (forall l :: j < l < |states| ==> states[l].instanceId != states[j].instanceId)
      ensures Assoc.IsLast(pairs, j)
    {
    }
    Assoc.ToMap(pairs)
  }

  /** The attribute map handed to `new_record`, one field per key. */
  datatype ElbData = ElbData(created: Value, name: string, cluster: Value, id: Value,
                             instances: map<string, Value>, publicFqdn: Value, owner: Value,
                             status: map<string, Value>, isOn: bool, scheme: Value, subnets: Value,
                             tags: Value)
  {
    function Attrs(): map<string, Value> {
      map["created" := created, "name" := VStr(name), "cluster" := cluster, "id" := id,
          "instances" := VMap(instances), "public_fqdn" := publicFqdn, "owner" := owner,
          "status" := VMap(status), "is_on" := VBool(isOn), "scheme" := scheme,
          "subnets" := subnets, "tags" := tags]
    }
  }

  /** `_process_resource` up to the `new_record` call. */
  function ProcessResource(b: Balancer, states: seq<InstanceState>, tags: Value, owner: Value)
    : (r: ElbData)
    ensures r.name == b.name && r.owner == owner && r.tags == tags
    ensures r.instances == r.status == HealthStates(states)
    ensures r.isOn <==> AnyState(states, "InService")
  {
    AggregateMatchesReference(states);
    var health := HealthStates(states);
    ElbData(b.created, b.name, b.zones, b.zoneId, health, b.hostedName, owner, health,
            AggregateStatus(states) == "on", b.scheme, b.subnets, tags)
  }

  /** A balancer without instances has status "unknown" and is off. */
  lemma NoInstancesUnknown(b: Balancer, tags: Value, owner: Value)
    ensures AggregateStatus([]) == "unknown"
    ensures !ProcessResource(b, [], tags, owner).isOn
    ensures ProcessResource(b, [], tags, owner).status == map[]
  {
  }

  /** An out-of-service instance seen before an in-service one does not stop the balancer being on. */
  lemma MixedStatesExample()
    ensures AggregateStatus([InstanceState("i-1", "OutOfService"), InstanceState("i-2", "InService")]) == "on"
    ensures AggregateStatus([InstanceState("i-1", "Unknown"), InstanceState("i-2", "OutOfService")]) == "off"
  {
    var a := [InstanceState("i-1", "OutOfService"), InstanceState("i-2", "InService")];
    assert a[..1][..0] == [];
    var b := [InstanceState("i-1", "Unknown"), InstanceState("i-2", "OutOfService")];
    assert b[..1][..0] == [];
  }
}
