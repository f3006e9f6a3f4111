/** The collector loading helpers of `cloudinventario/cloudinventario.py`:
    the enabled-collector filter, the module name mangling, the config merge,
    `loadCollector`, and the call sequence of `collect` as a trace of events.
    Importing a module is a lookup in the set `modules` of importable names. */
module Inventario {
  import opened Wrappers
  import opened Values
  import Text

  const COLLECTOR_PREFIX := "cloudinventario"

  /** `config['collectors']`: collector names with their settings, in config order. */
  type CollectorTable = seq<(string, map<string, Value>)>

  /** `x == True` in Python also holds for the integer 1. */
  predicate IsTrue(v: Value) {
    v == VBool(true) || v == VInt(1)
  }

  predicate Disabled(settings: map<string, Value>) {
    IsTrue(Get(settings, "disabled"))
  }

  /** `xs` is `ys` with some elements left out. */
  predicate IsSubsequence(xs: seq<string>, ys: seq<string>)
    decreases |ys|
  {
    if |xs| == 0 then true
    else if |ys| == 0 then false
    else if xs[0] == ys[0] then IsSubsequence(xs[1..], ys[1..])
    else IsSubsequence(xs, ys[1..])
  }

  function Names(table: CollectorTable): seq<string> {
    seq(|table|, i requires 0 <= i < |table| => table[i].0)
  }

  /** The `collectors` property. */
  function Collectors(table: CollectorTable): (r: seq<string>)
    ensures forall n :: n in r <==> exists i :: 0 <= i < |table| && table[i].0 == n && !Disabled(table[i].1)
    ensures IsSubsequence(r, Names(table))
  {
    if |table| == 0 then []
    else
      var rest := Collectors(table[1..]);
      assert Names(table)[1..] == Names(table[1..]);
      assert forall i :: 1 <= i < |table| ==> table[i] == table[1..][i - 1];
      assert forall i :: 0 <= i < |table| - 1 ==> table[1..][i] == table[i + 1];
      if Disabled(table[0].1) then
        SubsequenceOfTail(rest, Names(table));
        rest
      else [table[0].0] + rest
  }

  lemma SubsequenceOfTail(xs: seq<string>, ys: seq<string>)
    requires |ys| > 0 && IsSubsequence(xs, ys[1..])
    ensures IsSubsequence(xs, ys)
    decreases |xs| + |ys|
  {
    if |xs| > 0 && xs[0] == ys[0] {
      SubsequenceDropHead(xs, ys[1..]);
    }
  }

  lemma SubsequenceDropHead(xs: seq<string>, ys: seq<string>)
    requires |xs| > 0 && IsSubsequence(xs, ys)
    ensures IsSubsequence(xs[1..], ys)
    decreases |xs| + |ys|
  {
    if xs[0] != ys[0] {
      SubsequenceDropHead(xs, ys[1..]);
    }
    SubsequenceOfTail(xs[1..], ys);
  }

  /** A collector set to `disabled: true` disappears; any other value of
      `disabled` (False, "yes", 2, None, missing) keeps it. */
  lemma DisabledExactlyTrue(table: CollectorTable, i: nat)
    requires i < |table| && forall j :: 0 <= j < |table| && j != i ==> table[j].0 != table[i].0
    ensures table[i].0 in Collectors(table) <==> !IsTrue(Get(table[i].1, "disabled"))
  {
  }

  /** `re.sub(pattern, rep, s)` for a one-character class `pattern`. */
  function ReplaceChars(s: string, matches: set<char>, rep: string): (r: string)
    ensures forall c :: c in r ==> c in s || c in rep
  {
    if |s| == 0 then ""
    else (if s[0] in matches then rep else [s[0]]) + ReplaceChars(s[1..], matches, rep)
  }

  /** The three substitutions of `loadCollectorModule`, in order. */
  function Mangle(modName: string): (r: string)
    ensures '/' !in r && '.' !in r && '-' !in r
  {
    var step1 := ReplaceChars(modName, {'/', '.'}, "_");
    var step2 := ReplaceChars(step1, {'_'}, "__");
    NoCharsLeft(modName, {'/', '.'}, "_");
    NoCharsLeft(step2, {'-'}, "_");
    ReplaceChars(step2, {'-'}, "_")
  }

  lemma {:induction false} NoCharsLeft(s: string, matches: set<char>, rep: string)
    requires forall c :: c in rep ==> c !in matches
    ensures forall c :: c in matches ==> c !in ReplaceChars(s, matches, rep)
  {
    if |s| > 0 {
      NoCharsLeft(s[1..], matches, rep);
    }
  }

  /** What each character of a module name becomes, in one pass. */
  function MangleChar(c: char): string {
    if c == '/' || c == '.' || c == '_' then "__"
    else if c == '-' then "_"
    else [c]
  }

  function MangleByChar(s: string): string {
    if |s| == 0 then "" else MangleChar(s[0]) + MangleByChar(s[1..])
  }

  lemma {:induction false} ReplaceCharsAppend(a: string, b: string, matches: set<char>, rep: string)
    ensures ReplaceChars(a + b, matches, rep) == ReplaceChars(a, matches, rep) + ReplaceChars(b, matches, rep)
  {
    if |a| > 0 {
      assert (a + b)[1..] == a[1..] + b;
      ReplaceCharsAppend(a[1..], b, matches, rep);
    } else {
      assert a + b == b;
    }
  }

  /** The three passes amount to one character-wise rewrite:
      '/', '.' and '_' become "__", '-' becomes "_", the rest stays. */
  lemma {:induction false} MangleIsCharwise(s: string)
    ensures Mangle(s) == MangleByChar(s)
  {
    if |s| > 0 {
      MangleIsCharwise(s[1..]);
      var c := s[0];
      var step1 := ReplaceChars(s, {'/', '.'}, "_");
      var r1 := ReplaceChars(s[1..], {'/', '.'}, "_");
      var head1 := if c in {'/', '.'} then "_" else [c];
      assert step1 == head1 + r1;
      ReplaceCharsAppend(head1, r1, {'_'}, "__");
      var head2 := ReplaceChars(head1, {'_'}, "__");
      var r2 := ReplaceChars(r1, {'_'}, "__");
      ReplaceCharsAppend(head2, r2, {'-'}, "_");
      assert ReplaceChars(head2, {'-'}, "_") == MangleChar(c);
    }
  }

  /** Every '/', '.' and '_' costs one extra character. */
  lemma {:induction false} MangleLength(s: string)
    ensures |Mangle(s)| == |s| + Text.Count(s, '/') + Text.Count(s, '.') + Text.Count(s, '_')
  {
    MangleIsCharwise(s);
    MangleByCharLength(s);
  }

  lemma {:induction false} MangleByCharLength(s: string)
    ensures |MangleByChar(s)| == |s| + Text.Count(s, '/') + Text.Count(s, '.') + Text.Count(s, '_')
  {
    if |s| > 0 {
      MangleByCharLength(s[1..]);
    }
  }

  /** Mangling is not injective: "a/b", "a.b" and "a_b" load the same package. */
  lemma MangleCollisions()
    ensures Mangle("a/b") == Mangle("a.b") == Mangle("a_b")
  {
    MangleOneSeparator('/');
    MangleOneSeparator('.');
    MangleOneSeparator('_');
  }

  lemma MangleOneSeparator(c: char)
    requires c == '/' || c == '.' || c == '_'
    ensures Mangle(['a', c, 'b']) == "a__b"
  {
    var s := ['a', c, 'b'];
    MangleIsCharwise(s);
    assert s[1..][1..][1..] == [];
    assert MangleByChar(s[1..][1..]) == "b";
    assert MangleByChar(s[1..]) == "__b";
  }

  /** The package a collector module lives in. */
  function Package(modName: string): (r: string)
    ensures r == COLLECTOR_PREFIX + "_" + Mangle(modName)
    ensures '/' !in r && '-' !in r
  {
    COLLECTOR_PREFIX + "_" + Mangle(modName)
  }

  /** The merged collector config: every original key, then `_collector_pkg`
      and `_resources` (the `collect` value, or [] when absent). */
  function MergeConfig(config: map<string, Value>, pkg: string): (r: map<string, Value>)
    ensures r.Keys == config.Keys + {"_collector_pkg", "_resources"}
    ensures forall k :: k in config && k != "_collector_pkg" && k != "_resources" ==> r[k] == config[k]
    ensures r["_collector_pkg"] == VStr(pkg)
    ensures r["_resources"] == (if "collect" in config then config["collect"] else VList([]))
  {
    config["_collector_pkg" := VStr(pkg)]["_resources" := if "collect" in config then config["collect"] else VList([])]
  }

  /** What `mod.setup(collector, config, defaults, options or {})` receives. */
  datatype Setup = Setup(moduleName: string, collector: string, config: map<string, Value>,
                         defaults: Value, options: map<string, Value>)

  /** `loadCollectorModule`. */
  function LoadCollectorModule(modName: Value, collector: string, config: Value, defaults: Value,
                               options: Option<map<string, Value>>, modules: set<string>): (r: Result<Setup>)
    ensures r.Success? ==> modName.VStr? && config.VMap? && Package(modName.s) + ".collector" in modules
    ensures r.Success? ==> r.value.moduleName == Package(modName.s) + ".collector"
    ensures r.Success? ==> r.value.config == MergeConfig(config.entries, Package(modName.s))
    ensures r.Success? ==> r.value.options == options.GetOr(map[]) && r.value.defaults == defaults
  {
    if !modName.VStr? then Failure(TypeError)
    else
      var pkg := Package(modName.s);
      if !config.VMap? then Failure(TypeError)
      else if pkg + ".collector" !in modules then Failure(ImportError(pkg + ".collector"))
      else Success(Setup(pkg + ".collector", collector, MergeConfig(config.entries, pkg), defaults,
                         options.GetOr(map[])))
  }

  /** The settings of a collector: the last entry of that name, as a dict lookup. */
  function Lookup(table: CollectorTable, collector: string): Option<map<string, Value>> {
    if |table| == 0 then None
    else match Lookup(table[..|table| - 1], collector)
      case r => if table[|table| - 1].0 == collector then Some(table[|table| - 1].1) else r
  }

  /** `loadCollector(collector, options)`: KeyError for an unknown collector
      or a missing `module`/`config`, defaults {} when `default` is absent. */
  function LoadCollector(table: CollectorTable, collector: string, options: Option<map<string, Value>>,
                         modules: set<string>): (r: Result<Setup>)
    ensures Lookup(table, collector).None? ==> r == Failure(KeyError(collector))
    ensures Lookup(table, collector).Some? && "module" !in Lookup(table, collector).value ==>
              r == Failure(KeyError("module"))
    ensures r.Success? ==> var cfg := Lookup(table, collector).value;
              && r.value.defaults == (if "default" in cfg then cfg["default"] else VMap(map[]))
              && r.value.collector == collector
  {
    match Lookup(table, collector)
    case None => Failure(KeyError(collector))
    case Some(cfg) =>
      if "module" !in cfg then Failure(KeyError("module"))
      else
        var defaults := if "default" in cfg then cfg["default"] else VMap(map[]);
        if "config" !in cfg then Failure(KeyError("config"))
        else LoadCollectorModule(cfg["module"], collector, cfg["config"], defaults, options, modules)
  }

  /** What a loaded collector does when called. */
  datatype Behaviour = Behaviour(login: Result<Value>, fetch: Result<Value>, logout: Result<Value>)

  datatype Event = Chdir(dir: string) | Load(collector: string) | Login | Fetch | Logout

  /** `collect(collector, options)`: the events in order and the outcome.
      `cwd` is the working directory on entry. */
  function Collect(table: CollectorTable, collector: string, options: Option<map<string, Value>>,
                   modules: set<string>, cwd: string, b: Behaviour): (res: (seq<Event>, Result<Value>))
    ensures |res.0| >= 3 && res.0[0] == Chdir("/tmp") && res.0[1] == Load(collector)
    ensures res.0[|res.0| - 1] == Chdir(cwd)
  {
    Run(collector, LoadCollector(table, collector, options, modules), cwd, b)
  }

  /** The body of `collect` once the loader has returned `loaded`: the
      calls into the collector, inside the change of directory. */
  function Run(collector: string, loaded: Result<Setup>, cwd: string, b: Behaviour)
    : (res: (seq<Event>, Result<Value>))
    ensures |res.0| >= 3 && res.0[0] == Chdir("/tmp") && res.0[1] == Load(collector)
    ensures res.0[|res.0| - 1] == Chdir(cwd)
  {
    var enter := [Chdir("/tmp"), Load(collector)];
    var leave := [Chdir(cwd)];
    match loaded
    case Failure(e) => (enter + leave, Failure(e))
    case Success(_) =>
      if b.login.Failure? then (enter + [Login] + leave, Failure(b.login.error))
      else if b.fetch.Failure? then (enter + [Login, Fetch] + leave, Failure(b.fetch.error))
      else if b.logout.Failure? then (enter + [Login, Fetch, Logout] + leave, Failure(b.logout.error))
      else (enter + [Login, Fetch, Logout] + leave, Success(b.fetch.value))
  }

  /** The working directory is restored on every path; the collector is
      called login, fetch, logout in that order; logout runs only after a
      successful login and fetch. Login's return value is not looked at. */
  lemma CollectSequence(collector: string, loaded: Result<Setup>, cwd: string, b: Behaviour)
    ensures var trace := Run(collector, loaded, cwd, b).0;
            && (Logout in trace <==> loaded.Success? && b.login.Success? && b.fetch.Success?)
            && (Fetch in trace <==> loaded.Success? && b.login.Success?)
            && (Login in trace <==> loaded.Success?)
            && (loaded.Success? ==> trace[2] == Login)
            && (Fetch in trace ==> trace[3] == Fetch)
            && (Logout in trace ==> trace[4] == Logout)
  {
    var trace := Run(collector, loaded, cwd, b).0;
    if loaded.Failure? {
      assert trace == [Chdir("/tmp"), Load(collector), Chdir(cwd)];
    } else if b.login.Failure? {
      assert trace == [Chdir("/tmp"), Load(collector), Login, Chdir(cwd)];
    } else if b.fetch.Failure? {
      assert trace == [Chdir("/tmp"), Load(collector), Login, Fetch, Chdir(cwd)];
    } else {
      assert trace == [Chdir("/tmp"), Load(collector), Login, Fetch, Logout, Chdir(cwd)];
    }
  }

  /** The result is fetch's when all three calls succeed; otherwise it is
      the first error: the loader's, login's, fetch's or logout's. */
  lemma CollectOutcome(collector: string, loaded: Result<Setup>, cwd: string, b: Behaviour)
    ensures var r := Run(collector, loaded, cwd, b).1;
            && (r.Success? <==> loaded.Success? && b.login.Success? && b.fetch.Success? && b.logout.Success?)
            && (r.Success? ==> r.value == b.fetch.value)
            && (loaded.Failure? ==> r == Failure(loaded.error))
            && (loaded.Success? && b.login.Failure? ==> r == Failure(b.login.error))
            && (loaded.Success? && b.login.Success? && b.fetch.Failure? ==> r == Failure(b.fetch.error))
            && (loaded.Success? && b.login.Success? && b.fetch.Success? && b.logout.Failure? ==>
                  r == Failure(b.logout.error))
  {
  }

  /** A collector that is not configured fails the run with a KeyError before
      any call to it, and the directory is still restored. */
  lemma UnknownCollector(collector: string, cwd: string, b: Behaviour, modules: set<string>)
    ensures Collect([], collector, None, modules, cwd, b) ==
            ([Chdir("/tmp"), Load(collector), Chdir(cwd)], Failure(KeyError(collector)))
  {
    assert [Chdir("/tmp"), Load(collector)] + [Chdir(cwd)] == [Chdir("/tmp"), Load(collector), Chdir(cwd)];
  }
}
