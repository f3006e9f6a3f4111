/** `CloudInventarioGclb` of `cloudinventario_google_gcp/resources/gclb.py`:
    backend services with their instance groups (zone and group name cut
    out of the group URL), the project's health checks and global
    addresses. The `backendServices.list`, `healthChecks.list`,
    `globalAddresses.list` and `instanceGroups.listInstances` responses are
    parameters; a response without 'items' is None. */
module GcpGclb {
  import opened Wrappers
  import opened Values
  import Regex
  import Seqs

  const ZONES: string := "zones/"
  const INSTANCE_GROUPS: string := "instanceGroups/"
  const INSTANCES: string := "instances/"

  /** An element of a balancer's `backends`; `group` is None when absent. */
  datatype Backend = Backend(balancingMode: Value, group: Option<string>)

  /** An item of `listInstances`; `instance` is None when absent. */
  datatype Member = Member(instance: Option<string>, status: Value)

  datatype MapInstance = MapInstance(instance: string, status: Value)

  /** One element of `instanceGroups`. */
  datatype BackendEntry = BackendEntry(balancingMode: Value, instanceGroup: string, zone: string,
                                       mapInstances: seq<MapInstance>)

  /** `re.findall(P + "(...)", s)[0]` on a value obtained with `.get`:
      None is a TypeError, no match an IndexError. */
  function Extract(s: Option<string>, p: string, stop: Option<char>): (r: Result<string>)
    ensures s.None? ==> r == Failure(TypeError)
    ensures s.Some? ==> (r.Success? <==> Regex.FindGroup(s.value, p, stop).Some?)
    ensures r.Failure? && s.Some? ==> r.error == IndexError
    ensures r.Success? ==> Some(r.value) == Regex.FindGroup(s.value, p, stop)
  {
    match s
    case None => Failure(TypeError)
    case Some(t) =>
      match Regex.FindGroup(t, p, stop)
      case None => Failure(IndexError)
      case Some(g) => Success(g)
  }

  function MapMember(m: Member): (r: Result<MapInstance>)
    ensures r.Success? ==> m.instance.Some? && Some(r.value.instance) == Regex.FindGroup(m.instance.value, INSTANCES, None)
                           && r.value.status == m.status
  {
    match Extract(m.instance, INSTANCES, None)
    case Failure(e) => Failure(e)
    case Success(name) => Success(MapInstance(name, m.status))
  }

  /** The `mapInstances` of one group: one entry per member, in order. */
  function MapMembers(members: seq<Member>): (r: Result<seq<MapInstance>>)
    ensures r.Success? <==> forall i :: 0 <= i < |members| ==> MapMember(members[i]).Success?
    ensures r.Success? ==>
              && |r.value| == |members|
              && forall i :: 0 <= i < |members| ==> r.value[i] == MapMember(members[i]).value
  {
    Seqs.MapResultAll(MapMember, members);
    Seqs.MapResult(MapMember, members)
  }

  /** One backend of `_process_instances_group`: the zone is read before
      the group name, and the group's members are listed only when both
      were found. */
  function ProcessBackend(b: Backend, listInstances: (string, string) -> Option<seq<Member>>)
    : (r: Result<BackendEntry>)
    ensures b.group.None? ==> r == Failure(TypeError)
    ensures b.group.Some? && Regex.FindGroup(b.group.value, ZONES, Some('/')).None? ==> r == Failure(IndexError)
    ensures r.Success? ==>
              && b.group.Some?
              && Some(r.value.zone) == Regex.FindGroup(b.group.value, ZONES, Some('/'))
              && Some(r.value.instanceGroup) == Regex.FindGroup(b.group.value, INSTANCE_GROUPS, None)
              && r.value.balancingMode == b.balancingMode
              && Success(r.value.mapInstances) == MapMembers(listInstances(r.value.zone, r.value.instanceGroup).GetOr([]))
  {
    match Extract(b.group, ZONES, Some('/'))
    case Failure(e) => Failure(e)
    case Success(zone) =>
      match Extract(b.group, INSTANCE_GROUPS, None)
      case Failure(e) => Failure(e)
      case Success(group) =>
        match MapMembers(listInstances(zone, group).GetOr([]))
        case Failure(e) => Failure(e)
        case Success(mapped) => Success(BackendEntry(b.balancingMode, group, zone, mapped))
  }

  /** The zone is the path segment after the first "zones/". */
  lemma ZoneOfGroupUrl(pre: string, zone: string, rest: string)
    requires forall j :: 0 <= j < |pre| ==> !Regex.PrefixMatch((pre + ZONES)[j..], ZONES, false)
    requires '/' !in zone && '\n' !in zone
    ensures Regex.FindGroup(pre + ZONES + (zone + "/" + rest), ZONES, Some('/')) == Some(zone)
  {
    Regex.GroupAfterStop(zone, '/', rest);
    assert zone + "/" + rest == zone + ['/'] + rest;
    Regex.FindGroupAfterPrefix(pre, ZONES, zone + "/" + rest, Some('/'));
  }

  /** The group name is the rest of the URL after the first "instanceGroups/". */
  lemma InstanceGroupOfGroupUrl(pre: string, group: string)
    requires forall j :: 0 <= j < |pre| ==> !Regex.PrefixMatch((pre + INSTANCE_GROUPS)[j..], INSTANCE_GROUPS, false)
    requires '\n' !in group
    ensures Regex.FindGroup(pre + INSTANCE_GROUPS + group, INSTANCE_GROUPS, None) == Some(group)
  {
    Regex.GroupAfterLine(group);
    Regex.FindGroupAfterPrefix(pre, INSTANCE_GROUPS, group, None);
  }

  /** `_process_instances_group`: one entry per backend, in order; the
      first error ends it. */
  function ProcessInstancesGroup(backends: seq<Backend>, listInstances: (string, string) -> Option<seq<Member>>)
    : (r: Result<seq<BackendEntry>>)
    ensures r.Success? <==> forall i :: 0 <= i < |backends| ==> ProcessBackend(backends[i], listInstances).Success?
    ensures r.Success? ==>
              && |r.value| == |backends|
              && forall i :: 0 <= i < |backends| ==> r.value[i] == ProcessBackend(backends[i], listInstances).value
  {
    var f := (b: Backend) => ProcessBackend(b, listInstances);
    Seqs.MapResultAll(f, backends);
    assert forall i :: 0 <= i < |backends| ==> f(backends[i]) == ProcessBackend(backends[i], listInstances);
    Seqs.MapResult(f, backends)
  }

  /** The protocols a health check may carry a sub-dict for. */
  datatype Protocol = Http | Https | Http2 | Grpc | Ssl | Tcp {
    /** The key of the sub-dict, e.g. "httpHealthCheck". */
    function Key(): string {
      match this
      case Http => "httpHealthCheck"
      case Https => "httpsHealthCheck"
      case Http2 => "http2HealthCheck"
      case Grpc => "grpcHealthCheck"
      case Ssl => "sslHealthCheck"
      case Tcp => "tcpHealthCheck"
    }

    /** The protocols whose response is reported in `status`. */
    predicate Reported() {
      !(Ssl? || Tcp?)
    }
  }

  /** A health check of `healthChecks.list`; `subs` holds the protocol
      sub-dicts that are present. */
  datatype HealthCheckPayload = HealthCheckPayload(id: Value, name: Value, checkType: Value, created: Value,
                                                   subs: map<Protocol, map<string, Value>>)

  datatype HealthCheck = HealthCheck(id: Value, name: Value, checkType: Value, created: Value,
                                     check: map<Protocol, Value>, status: map<Protocol, Value>)

  /** One element of `_process_health_check`'s result: `check` holds every
      present protocol's sub-dict, `status` the response of each present
      http, https, http2 or grpc check, and never ssl or tcp. */
  function ProcessHealthCheck(h: HealthCheckPayload): (r: HealthCheck)
    ensures forall p :: p in r.check <==> p in h.subs
    ensures forall p :: p in r.status <==> p in h.subs && p.Reported()
    ensures forall p :: p in r.status ==> r.status[p] == Get(h.subs[p], "response")
    ensures forall p :: p in r.check ==> r.check[p] == VMap(h.subs[p])
    ensures Ssl !in r.status && Tcp !in r.status
    ensures r.status.Keys <= r.check.Keys
  {
    var check := map p | p in h.subs :: VMap(h.subs[p]);
    var status := map p | p in h.subs && p.Reported() :: Get(h.subs[p], "response");
    HealthCheck(h.id, h.name, h.checkType, h.created, check, status)
  }

  /** A check that has only ssl or tcp sub-dicts reports no status. */
  lemma SslTcpOnlyReportsNothing(h: HealthCheckPayload)
    requires forall p :: p in h.subs ==> p == Ssl || p == Tcp
    ensures ProcessHealthCheck(h).status == map[]
    ensures |ProcessHealthCheck(h).check| == |h.subs|
  {
    var r := ProcessHealthCheck(h);
    assert r.check.Keys == h.subs.Keys;
  }

  function ProcessHealthChecks(items: Option<seq<HealthCheckPayload>>): (r: seq<HealthCheck>)
    ensures items.None? ==> r == []
    ensures items.Some? ==> |r| == |items.value|
    ensures items.Some? ==> forall i :: 0 <= i < |r| ==> r[i] == ProcessHealthCheck(items.value[i])
  {
    var xs := items.GetOr([]);
    seq(|xs|, i requires 0 <= i < |xs| => ProcessHealthCheck(xs[i]))
  }

  /** The keys `_process_global_address` copies with `.get`. */
  const ADDRESS_KEYS: seq<string> := ["id", "name", "address", "region", "status", "networkTier",
                                      "ipVersion", "addressType", "purpose", "subnetwork", "network"]

  /** One address, restricted to the copied keys (absent ones are None). */
  function ProcessAddress(a: map<string, Value>): (r: map<string, Value>)
    ensures forall k :: k in r <==> k in ADDRESS_KEYS
    ensures forall k :: k in r ==> r[k] == Get(a, k)
  {
    map k | k in ADDRESS_KEYS :: Get(a, k)
  }

  function ProcessAddresses(items: Option<seq<map<string, Value>>>): (r: seq<map<string, Value>>)
    ensures items.None? ==> r == []
    ensures items.Some? ==> |r| == |items.value|
    ensures items.Some? ==> forall i :: 0 <= i < |r| ==> r[i] == ProcessAddress(items.value[i])
  {
    var xs := items.GetOr([]);
    seq(|xs|, i requires 0 <= i < |xs| => ProcessAddress(xs[i]))
  }

  /** A health check's status is truthy when it is a non-empty dict. */
  predicate HasStatus(h: HealthCheck) {
    |h.status| > 0
  }

  /** `{'status': s}`. */
  datatype StatusEntry = StatusEntry(status: map<Protocol, Value>)

  /** The record's `status`: `{'status': s}` for each health check with a
      non-empty status, in order. */
  function StatusList(checks: seq<HealthCheck>): (r: seq<StatusEntry>) {
    if |checks| == 0 then []
    else
      var h := checks[|checks| - 1];
      StatusList(checks[..|checks| - 1]) + (if HasStatus(h) then [StatusEntry(h.status)] else [])
  }

  /** Every entry wraps the status of a health check that has one, and
      every such health check contributes exactly one entry, in order:
      the list is the filtered health checks, wrapped. */
  lemma {:induction false} StatusListIsFilter(checks: seq<HealthCheck>)
    ensures var kept := Seqs.Filter(checks, HasStatus);
            && |StatusList(checks)| == |kept|
            && forall i :: 0 <= i < |kept| ==> StatusList(checks)[i] == StatusEntry(kept[i].status)
    ensures (forall i :: 0 <= i < |checks| ==> !HasStatus(checks[i])) ==> StatusList(checks) == []
  {
    if |checks| > 0 {
      var init := checks[..|checks| - 1];
      var h := checks[|checks| - 1];
      StatusListIsFilter(init);
      assert forall i :: 0 <= i < |init| ==> init[i] == checks[i];
      var sl, kept := StatusList(init), Seqs.Filter(init, HasStatus);
      assert StatusList(checks) == sl + (if HasStatus(h) then [StatusEntry(h.status)] else []);
      assert Seqs.Filter(checks, HasStatus) == kept + (if HasStatus(h) then [h] else []);
    }
  }

  /** A backend service of `backendServices.list`. */
  datatype Service = Service(id: Value, created: Value, name: Value, scheme: Value, description: Value,
                             backends: seq<Backend>)

  /** The attribute map handed to `new_record`. */
  datatype GclbData = GclbData(id: Value, created: Value, name: Value, instances: seq<HealthCheck>,
                               subnets: seq<map<string, Value>>, scheme: Value,
                               status: seq<StatusEntry>, backends: seq<BackendEntry>,
                               project: string, description: Value)

  function ProcessResource(s: Service, checks: seq<HealthCheck>, addresses: seq<map<string, Value>>,
                           groups: seq<BackendEntry>, project: string): (r: GclbData)
    ensures r.instances == checks && r.subnets == addresses && r.backends == groups
    ensures var kept := Seqs.Filter(checks, HasStatus);
            && |r.status| == |kept|
            && forall i :: 0 <= i < |kept| ==> r.status[i] == StatusEntry(kept[i].status)
    ensures (forall i :: 0 <= i < |checks| ==> !HasStatus(checks[i])) ==> r.status == []
  {
    StatusListIsFilter(checks);
    GclbData(s.id, s.created, s.name, checks, addresses, s.scheme, StatusList(checks), groups, project, s.description)
  }

  /** Every service of the listing has processable backends. */
  predicate AllGrouped(services: seq<Service>, listInstances: (string, string) -> Option<seq<Member>>) {
    forall i :: 0 <= i < |services| ==> ProcessInstancesGroup(services[i].backends, listInstances).Success?
  }

  function ProcessService(s: Service, checks: seq<HealthCheck>, addresses: seq<map<string, Value>>,
                          listInstances: (string, string) -> Option<seq<Member>>, project: string)
    : (r: Result<GclbData>)
    ensures r.Success? <==> ProcessInstancesGroup(s.backends, listInstances).Success?
    ensures r.Success? ==>
              r.value.instances == checks && r.value.subnets == addresses && r.value.name == s.name
              && r.value.backends == ProcessInstancesGroup(s.backends, listInstances).value
  {
    var groups :- ProcessInstancesGroup(s.backends, listInstances);
    Success(ProcessResource(s, checks, addresses, groups, project))
  }

  /** `_fetch`: no 'items' in the backend services, no records; otherwise
      one record per service, in order, from the same processed health
      checks and addresses; the first failing backend ends it. */
  function Fetch(services: Option<seq<Service>>, checkItems: Option<seq<HealthCheckPayload>>,
                 addressItems: Option<seq<map<string, Value>>>,
                 listInstances: (string, string) -> Option<seq<Member>>, project: string)
    : (r: Result<seq<GclbData>>)
    ensures services.None? ==> r == Success([])
    ensures services.Some? ==> (r.Success? <==> AllGrouped(services.value, listInstances))
    ensures services.Some? && r.Success? ==>
              && |r.value| == |services.value|
              && forall i :: 0 <= i < |r.value| ==>
                   r.value[i] == ProcessService(services.value[i], ProcessHealthChecks(checkItems),
                                                ProcessAddresses(addressItems), listInstances, project).value
  {
    match services
    case None => Success([])
    case Some(xs) =>
      var checks := ProcessHealthChecks(checkItems);
      var addresses := ProcessAddresses(addressItems);
      var f := (s: Service) => ProcessService(s, checks, addresses, listInstances, project);
      Seqs.MapResultAll(f, xs);
      assert forall i :: 0 <= i < |xs| ==> f(xs[i]) == ProcessService(xs[i], checks, addresses, listInstances, project);
      Seqs.MapResult(f, xs)
  }

  /** Every record of a listing holds the same health checks and the same
      addresses, and the backends of its own service. */
  lemma FetchSharesLists(services: seq<Service>, checkItems: Option<seq<HealthCheckPayload>>,
                         addressItems: Option<seq<map<string, Value>>>,
                         listInstances: (string, string) -> Option<seq<Member>>, project: string)
    requires Fetch(Some(services), checkItems, addressItems, listInstances, project).Success?
    ensures var recs := Fetch(Some(services), checkItems, addressItems, listInstances, project).value;
            forall i :: 0 <= i < |recs| ==>
              && recs[i].instances == ProcessHealthChecks(checkItems)
              && recs[i].subnets == ProcessAddresses(addressItems)
              && recs[i].name == services[i].name
              && recs[i].backends == ProcessInstancesGroup(services[i].backends, listInstances).value
  {
  }
}
