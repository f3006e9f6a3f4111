/** `CloudInvetarioResourceManager.get_resource_data` and
    `CloudInvetarioResource.read_data` of `cloudinventario/helpers.py`.
    Module import is a registry lookup: `registry` maps a module path to what
    that module's `_read_data` does, a value or a raised error. */
module Resources {
  import opened Wrappers
  import opened Values

  /** The module a resource name is imported from. */
  function ModulePath(cloudCol: string, res: string): string {
    cloudCol + ".res_collectors." + res
  }

  /** `read_data`: the reader's value, or None when it raises (the error is logged). */
  function ReadData(outcome: Result<Value>): (r: Value)
    ensures outcome.Success? ==> r == outcome.value
    ensures outcome.Failure? ==> r == VNone
  {
    match outcome
    case Success(v) => v
    case Failure(_) => VNone
  }

  /** `res_list` before deduplication: `res_dep_list or []` followed by `self.res_list or []`. */
  function Requested(deps: Option<seq<string>>, resList: Option<seq<string>>): seq<string> {
    deps.GetOr([]) + resList.GetOr([])
  }

  /** `order` enumerates the set `S`, each element once: the order in which
      Python happens to iterate `list(set(res_list))`. */
  predicate Enumerates(order: seq<string>, S: set<string>) {
    && (forall i, j :: 0 <= i < j < |order| ==> order[i] != order[j])
    && (forall i :: 0 <= i < |order| ==> order[i] in S)
    && (forall s :: s in S ==> s in order)
  }

  function AsSet(xs: seq<string>): set<string> {
    set i | 0 <= i < |xs| :: xs[i]
  }

  /** The loop of `get_resource_data` over the names in `order`. */
  function ReadAll(cloudCol: string, order: seq<string>, registry: map<string, Result<Value>>)
    : (r: Result<map<string, Value>>)
    ensures r.Success? <==> forall i :: 0 <= i < |order| ==> ModulePath(cloudCol, order[i]) in registry
    ensures r.Failure? ==> exists i :: 0 <= i < |order| && r.error == ImportError(ModulePath(cloudCol, order[i]))
                                       && ModulePath(cloudCol, order[i]) !in registry
    ensures r.Success? ==> r.value.Keys == AsSet(order)
    ensures r.Success? ==> forall i :: 0 <= i < |order| ==>
              r.value[order[i]] == ReadData(registry[ModulePath(cloudCol, order[i])])
  {
    if |order| == 0 then Success(map[])
    else
      var init := order[..|order| - 1];
      var res := order[|order| - 1];
      var path := ModulePath(cloudCol, res);
      assert forall i :: 0 <= i < |init| ==> init[i] == order[i];
      assert AsSet(order) == AsSet(init) + {res};
      match ReadAll(cloudCol, init, registry)
      case Failure(e) => Failure(e)
      case Success(m) =>
        if path !in registry then Failure(ImportError(path))
        else Success(m[res := ReadData(registry[path])])
  }

  /** `get_resource_data(res_dep_list)` with `order` the iteration order of the set. */
  function GetResourceData(cloudCol: string, deps: Option<seq<string>>, resList: Option<seq<string>>,
                           order: seq<string>, registry: map<string, Result<Value>>)
    : (r: Result<map<string, Value>>)
    requires Enumerates(order, AsSet(Requested(deps, resList)))
    ensures r.Success? <==>
              forall s :: s in AsSet(Requested(deps, resList)) ==> ModulePath(cloudCol, s) in registry
    ensures r.Success? ==> r.value.Keys == AsSet(deps.GetOr([])) + AsSet(resList.GetOr([]))
    ensures r.Success? ==> forall s :: s in r.value ==>
              ModulePath(cloudCol, s) in registry && r.value[s] == ReadData(registry[ModulePath(cloudCol, s)])
    ensures r.Failure? ==> exists s :: s in AsSet(Requested(deps, resList)) && r.error == ImportError(ModulePath(cloudCol, s))
  {
    var req := Requested(deps, resList);
    assert AsSet(req) == AsSet(deps.GetOr([])) + AsSet(resList.GetOr([])) by {
      var a, b := deps.GetOr([]), resList.GetOr([]);
      forall s | s in AsSet(a) ensures s in AsSet(req) {
        var i :| 0 <= i < |a| && a[i] == s;
        assert req[i] == s;
      }
      forall s | s in AsSet(b) ensures s in AsSet(req) {
        var i :| 0 <= i < |b| && b[i] == s;
        assert req[|a| + i] == s;
      }
    }
    assert AsSet(order) == AsSet(req);
    ReadAll(cloudCol, order, registry)
  }

  /** The set's iteration order matters only for which missing module is
      reported: a successful result is the same for every order. */
  lemma GetResourceDataOrderFree(cloudCol: string, deps: Option<seq<string>>, resList: Option<seq<string>>,
                                 o1: seq<string>, o2: seq<string>, registry: map<string, Result<Value>>)
    requires Enumerates(o1, AsSet(Requested(deps, resList)))
    requires Enumerates(o2, AsSet(Requested(deps, resList)))
    ensures GetResourceData(cloudCol, deps, resList, o1, registry).Success? ==
            GetResourceData(cloudCol, deps, resList, o2, registry).Success?
    ensures GetResourceData(cloudCol, deps, resList, o1, registry).Success? ==>
              GetResourceData(cloudCol, deps, resList, o1, registry) ==
              GetResourceData(cloudCol, deps, resList, o2, registry)
  {
    var r1 := GetResourceData(cloudCol, deps, resList, o1, registry);
    var r2 := GetResourceData(cloudCol, deps, resList, o2, registry);
    if r1.Success? {
      assert r1.value == r2.value;
    }
  }
}
