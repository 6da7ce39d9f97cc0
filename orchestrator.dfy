/** Plugin scheduling: the registry of plugins keyed by name, the selection of enabled plugins in
    name order, the depth-first dependency ordering with visiting/visited marks, and the
    concatenation of every plugin's output. */
module Orchestrator {
  import opened Wrappers
  import opened Text
  import opened Domain
  import opened GenerationConfig
  import opened TemplatePacks
  import SpecValidator

  datatype GeneratedFile = GeneratedFile(path: string, content: string)

  /** What every plugin is handed: the configuration, the base package as a path and the
      selected template pack (the template engine is not part of this model). */
  datatype PluginContext = PluginContext(config: Config, basePackagePath: string, templatePack: TemplatePack)

  /** A generator plugin: its name, the names it depends on, its validate hook (Some(message)
      when it rejects the specification) and its generate operation, both left abstract. */
  datatype Plugin = Plugin(
    name: string,
    dependencies: seq<string>,
    validate: ApiSpecification -> Option<string>,
    generate: (ApiSpecification, PluginContext) -> seq<GeneratedFile>)

  datatype OrchestrationError =
    | InvalidSpecification(error: SpecValidator.ValidationError)
    | DependencyCycle(name: string)
    | MissingDependency(name: string, dependency: string)
    | PluginRejected(name: string, message: string)

  /** The exception message for each error. */
  function Message(e: OrchestrationError): string {
    match e
    case InvalidSpecification(v) => SpecValidator.Message(v)
    case DependencyCycle(n) => "Plugin dependency cycle detected at " + n
    case MissingDependency(n, d) => "Missing plugin dependency: " + n + " requires " + d
    case PluginRejected(_, m) => m
  }

  function NamesOf(plugins: seq<Plugin>): set<string> {
    set i | 0 <= i < |plugins| :: plugins[i].name
  }

  predicate DistinctNames(plugins: seq<Plugin>) {
    forall i, j :: 0 <= i < j < |plugins| ==> plugins[i].name != plugins[j].name
  }

  // ---------------------------------------------------------------------------------------
  // The registry: a LinkedHashMap from name to plugin, seen as its values in insertion order.

  /** Position of the entry named `name`, or -1. */
  function IndexOfName(entries: seq<Plugin>, name: string): (k: int)
    ensures -1 <= k < |entries|
    ensures k >= 0 ==> entries[k].name == name
    ensures k == -1 ==> forall i :: 0 <= i < |entries| ==> entries[i].name != name
  {
    if entries == [] then -1
    else if entries[0].name == name then 0
    else
      var k := IndexOfName(entries[1..], name);
      if k < 0 then -1 else k + 1
  }

  /** Map.put: a plugin whose name is present replaces that entry in place; otherwise it is
      appended. */
  function Put(entries: seq<Plugin>, p: Plugin): seq<Plugin> {
    var k := IndexOfName(entries, p.name);
    if k >= 0 then entries[k := p] else entries + [p]
  }

  /** The registry the constructor builds from the plugin list. */
  function RegistryOf(pluginList: seq<Plugin>): seq<Plugin>
    decreases |pluginList|
  {
    if pluginList == [] then []
    else Put(RegistryOf(pluginList[..|pluginList| - 1]), pluginList[|pluginList| - 1])
  }

  // ---------------------------------------------------------------------------------------
  // Selection: the enabled plugins, sorted by name.

  function EnabledOf(entries: seq<Plugin>, plugins: PluginsConfig): seq<Plugin> {
    if entries == [] then []
    else (if IsEnabled(plugins, entries[0].name) then [entries[0]] else []) + EnabledOf(entries[1..], plugins)
  }

  /** Inserts p before the first entry whose name is not smaller than p's. */
  function InsertByName(p: Plugin, sorted: seq<Plugin>): seq<Plugin> {
    if sorted == [] || !LessThan(sorted[0].name, p.name) then [p] + sorted
    else [sorted[0]] + InsertByName(p, sorted[1..])
  }

  /** A stable sort by name (Comparator.comparing(getName)). */
  function SortByName(plugins: seq<Plugin>): seq<Plugin> {
    if plugins == [] then [] else InsertByName(plugins[0], SortByName(plugins[1..]))
  }

  function Selected(registry: seq<Plugin>, plugins: PluginsConfig): seq<Plugin> {
    SortByName(EnabledOf(registry, plugins))
  }

  // ---------------------------------------------------------------------------------------
  // Ordering: depth-first search over the dependencies.

  /** The visiting and visited marks and the output list of the search. */
  datatype Marks = Marks(visiting: set<string>, visited: set<string>, ordered: seq<Plugin>)

  /** Every key names its own plugin. */
  predicate Keyed(byName: map<string, Plugin>) {
    forall n :: n in byName ==> byName[n].name == n
  }

  /** The lookup map of orderPlugins; a later plugin with a repeated name wins. */
  function ByName(plugins: seq<Plugin>): (byName: map<string, Plugin>)
    ensures Keyed(byName)
    ensures byName.Keys == NamesOf(plugins)
  {
    if plugins == [] then map[]
    else
      var last := plugins[|plugins| - 1];
      var init := plugins[..|plugins| - 1];
      assert NamesOf(plugins) == NamesOf(init) + {last.name} by {
        forall n | n in NamesOf(plugins) ensures n in NamesOf(init) + {last.name} {
          var i :| 0 <= i < |plugins| && plugins[i].name == n;
          if i < |plugins| - 1 { assert init[i] == plugins[i]; }
        }
        forall n | n in NamesOf(init) ensures n in NamesOf(plugins) {
          var i :| 0 <= i < |init| && init[i].name == n;
          assert plugins[i] == init[i];
        }
      }
      ByName(init)[last.name := last]
  }

  lemma MeasureDrops(keys: set<string>, visiting: set<string>, n: string)
    requires n in keys && n !in visiting
    ensures |keys - (visiting + {n})| < |keys - visiting|
  {
    assert keys - visiting == (keys - (visiting + {n})) + {n};
  }

  /** visit: already visited is done; re-entering a plugin being visited is a cycle; otherwise
      the dependencies are visited in order and the plugin is appended. */
  function VisitOutcome(byName: map<string, Plugin>, p: Plugin, m: Marks): (r: Result<Marks, OrchestrationError>)
    requires Keyed(byName) && p.name in byName
    decreases |byName.Keys - m.visiting|, 0
    ensures r.Success? ==> r.value.visiting == m.visiting
  {
    if p.name in m.visited then Success(m)
    else if p.name in m.visiting then Failure(DependencyCycle(p.name))
    else
      MeasureDrops(byName.Keys, m.visiting, p.name);
      match VisitDepsOutcome(byName, p, 0, m.(visiting := m.visiting + {p.name}))
      case Failure(e) => Failure(e)
      case Success(m2) => Success(Marks(m2.visiting - {p.name}, m2.visited + {p.name}, m2.ordered + [p]))
  }

  /** The loop of visit over p's dependencies from the i-th on. */
  function VisitDepsOutcome(byName: map<string, Plugin>, p: Plugin, i: nat, m: Marks): (r: Result<Marks, OrchestrationError>)
    requires Keyed(byName) && i <= |p.dependencies|
    decreases |byName.Keys - m.visiting|, 1, |p.dependencies| - i
    ensures r.Success? ==> r.value.visiting == m.visiting
  {
    if i == |p.dependencies| then Success(m)
    else
      var d := p.dependencies[i];
      if d !in byName then Failure(MissingDependency(p.name, d))
      else match VisitOutcome(byName, byName[d], m)
        case Failure(e) => Failure(e)
        case Success(m2) => VisitDepsOutcome(byName, p, i + 1, m2)
  }

  /** The loop of orderPlugins over the selected plugins from the i-th on. */
  function OrderFrom(byName: map<string, Plugin>, selected: seq<Plugin>, i: nat, m: Marks): Result<Marks, OrchestrationError>
    requires Keyed(byName) && i <= |selected|
    requires forall j :: 0 <= j < |selected| ==> selected[j].name in byName
    decreases |selected| - i
  {
    if i == |selected| then Success(m)
    else match VisitOutcome(byName, selected[i], m)
      case Failure(e) => Failure(e)
      case Success(m2) => OrderFrom(byName, selected, i + 1, m2)
  }

  function OrderOutcome(selected: seq<Plugin>): Result<seq<Plugin>, OrchestrationError> {
    var byName := ByName(selected);
    match OrderFrom(byName, selected, 0, Marks({}, {}, []))
    case Failure(e) => Failure(e)
    case Success(m) => Success(m.ordered)
  }

  /** The state of one orderPlugins call. */
  class PluginOrderer {
    const byName: map<string, Plugin>
    var visiting: set<string>
    var visited: set<string>
    var ordered: seq<Plugin>

    function State(): Marks
      reads this
    {
      Marks(visiting, visited, ordered)
    }

    constructor (selected: seq<Plugin>)
      ensures byName == ByName(selected)
      ensures State() == Marks({}, {}, [])
    {
      var m: map<string, Plugin> := map[];
      for i := 0 to |selected|
        invariant m == ByName(selected[..i])
      {
        assert selected[..i + 1][..i] == selected[..i];
        m := m[selected[i].name := selected[i]];
      }
      assert selected[..|selected|] == selected;
      byName := m;
      visiting := {};
      visited := {};
      ordered := [];
    }

    method Visit(plugin: Plugin) returns (error: Option<OrchestrationError>)
      requires Keyed(byName) && plugin.name in byName
      modifies this
      decreases |byName.Keys - visiting|, 0
      ensures var r := VisitOutcome(byName, plugin, old(State()));
              && (r.Failure? ==> error == Some(r.error))
              && (r.Success? ==> error.None? && State() == r.value)
    {
      var name := plugin.name;
      if name in visited {
        return None;
      }
      if name in visiting {
        return Some(DependencyCycle(name));
      }
      MeasureDrops(byName.Keys, visiting, name);
      visiting := visiting + {name};
      ghost var entry := State();
      var dependencies := plugin.dependencies;
      for i := 0 to |dependencies|
        invariant visiting == entry.visiting
        invariant VisitDepsOutcome(byName, plugin, i, State()) == VisitDepsOutcome(byName, plugin, 0, entry)
      {
        var dependency := dependencies[i];
        if dependency !in byName {
          return Some(MissingDependency(name, dependency));
        }
        error := Visit(byName[dependency]);
        if error.Some? {
          return error;
        }
      }
      visiting := visiting - {name};
      visited := visited + {name};
      ordered := ordered + [plugin];
      return None;
    }
  }

  /** orderPlugins. */
  method OrderPlugins(selected: seq<Plugin>) returns (r: Result<seq<Plugin>, OrchestrationError>)
    ensures r == OrderOutcome(selected)
  {
    var orderer := new PluginOrderer(selected);
    ghost var byName := ByName(selected);
    for i := 0 to |selected|
      invariant orderer.byName == byName
      invariant OrderFrom(byName, selected, i, orderer.State()) == OrderFrom(byName, selected, 0, Marks({}, {}, []))
    {
      var error := orderer.Visit(selected[i]);
      if error.Some? {
        return Failure(error.value);
      }
    }
    return Success(orderer.ordered);
  }

  // ---------------------------------------------------------------------------------------
  // Generation.

  function ContextOf(config: Config): PluginContext {
    PluginContext(config, ReplaceChar(config.project.basePackage, '.', '/'), FromName(Some(config.project.templatePack)))
  }

  /** The generation loop from the i-th ordered plugin on, `generated` holding the output so far. */
  function RunFrom(ordered: seq<Plugin>, i: nat, spec: ApiSpecification, context: PluginContext, generated: seq<GeneratedFile>)
    : Result<seq<GeneratedFile>, OrchestrationError>
    requires i <= |ordered|
    decreases |ordered| - i
  {
    if i == |ordered| then Success(generated)
    else
      var p := ordered[i];
      match p.validate(spec)
      case Some(message) => Failure(PluginRejected(p.name, message))
      case None => RunFrom(ordered, i + 1, spec, context, generated + p.generate(spec, context))
  }

  /** generate, as a function of the registry, the specification and the configuration. */
  function GenerationOutcome(registry: seq<Plugin>, spec: ApiSpecification, config: Config): Result<seq<GeneratedFile>, OrchestrationError> {
    match SpecValidator.ValidationOutcome(spec)
    case Fail(e) => Failure(InvalidSpecification(e))
    case Pass =>
      match OrderOutcome(Selected(registry, config.plugins))
      case Failure(e) => Failure(e)
      case Success(ordered) => RunFrom(ordered, 0, spec, ContextOf(config), [])
  }

  class GenerationOrchestrator {
    /** The registry's values, in the order their names were first registered. */
    var plugins: seq<Plugin>

    constructor (pluginList: seq<Plugin>)
      ensures plugins == RegistryOf(pluginList)
    {
      var entries: seq<Plugin> := [];
      for i := 0 to |pluginList|
        invariant entries == RegistryOf(pluginList[..i])
      {
        assert pluginList[..i + 1][..i] == pluginList[..i];
        var plugin := pluginList[i];
        var k := IndexOfName(entries, plugin.name);
        if k >= 0 {
          entries := entries[k := plugin];
        } else {
          entries := entries + [plugin];
        }
      }
      assert pluginList[..|pluginList|] == pluginList;
      plugins := entries;
    }

    method Generate(spec: ApiSpecification, config: Config) returns (r: Result<seq<GeneratedFile>, OrchestrationError>)
      ensures r == GenerationOutcome(plugins, spec, config)
    {
      var verdict := SpecValidator.Validate(spec);
      if verdict.Fail? {
        return Failure(InvalidSpecification(verdict.error));
      }
      var context := ContextOf(config);
      var ordering := OrderPlugins(Selected(plugins, config.plugins));
      if ordering.Failure? {
        return Failure(ordering.error);
      }
      var ordered := ordering.value;
      var generated: seq<GeneratedFile> := [];
      for i := 0 to |ordered|
        invariant RunFrom(ordered, i, spec, context, generated) == RunFrom(ordered, 0, spec, context, [])
      {
        var plugin := ordered[i];
        var rejection := plugin.validate(spec);
        if rejection.Some? {
          return Failure(PluginRejected(plugin.name, rejection.value));
        }
        generated := generated + plugin.generate(spec, context);
      }
      return Success(generated);
    }
  }

  // ---------------------------------------------------------------------------------------
  // What the depth-first ordering guarantees.

  /** d is the name of a plugin placed before position k. */
  predicate DependencyEarlier(ordered: seq<Plugin>, k: int, d: string)
    requires 0 <= k <= |ordered|
  {
    exists j :: 0 <= j < k && ordered[j].name == d
  }

  /** Every plugin appears after all of its dependencies. */
  predicate DependenciesFirst(ordered: seq<Plugin>) {
    forall k, i :: 0 <= k < |ordered| && 0 <= i < |ordered[k].dependencies| ==>
      DependencyEarlier(ordered, k, ordered[k].dependencies[i])
  }

  /** The invariant of the search: the output holds the looked-up plugins of the visited names,
      once each, each after its dependencies, and nothing visited is being visited. */
  ghost predicate OrderInv(byName: map<string, Plugin>, m: Marks) {
    && (forall k :: 0 <= k < |m.ordered| ==> m.ordered[k].name in byName && byName[m.ordered[k].name] == m.ordered[k])
    && m.visited == NamesOf(m.ordered)
    && DistinctNames(m.ordered)
    && DependenciesFirst(m.ordered)
    && m.visiting !! m.visited
  }

  lemma NamesOfAppend(plugins: seq<Plugin>, p: Plugin)
    ensures NamesOf(plugins + [p]) == NamesOf(plugins) + {p.name}
  {
    var all := plugins + [p];
    forall n | n in NamesOf(all) ensures n in NamesOf(plugins) + {p.name} {
      var i :| 0 <= i < |all| && all[i].name == n;
      if i < |plugins| { assert all[i] == plugins[i]; }
    }
    forall n | n in NamesOf(plugins) ensures n in NamesOf(all) {
      var i :| 0 <= i < |plugins| && plugins[i].name == n;
      assert all[i] == plugins[i];
    }
    assert all[|plugins|] == p;
  }

  /** Appending a plugin whose dependencies are all visited keeps the invariant. */
  lemma AppendKeepsOrderInv(byName: map<string, Plugin>, m: Marks, p: Plugin)
    requires OrderInv(byName, m) && p.name in byName && byName[p.name] == p
    requires p.name !in m.visited
    requires forall j :: 0 <= j < |p.dependencies| ==> p.dependencies[j] in m.visited
    ensures OrderInv(byName, Marks(m.visiting - {p.name}, m.visited + {p.name}, m.ordered + [p]))
  {
    var o := m.ordered + [p];
    NamesOfAppend(m.ordered, p);
    forall k | 0 <= k < |o| ensures o[k].name in byName && byName[o[k].name] == o[k] {
      if k < |m.ordered| { assert o[k] == m.ordered[k]; }
    }
    forall i, j | 0 <= i < j < |o| ensures o[i].name != o[j].name {
      assert o[i] == m.ordered[i];
      if j < |m.ordered| {
        assert o[j] == m.ordered[j];
      } else {
        assert o[i].name in NamesOf(m.ordered);
      }
    }
    forall k, i | 0 <= k < |o| && 0 <= i < |o[k].dependencies|
      ensures DependencyEarlier(o, k, o[k].dependencies[i])
    {
      var d := o[k].dependencies[i];
      if k < |m.ordered| {
        assert o[k] == m.ordered[k];
        assert DependencyEarlier(m.ordered, k, d);
        var j :| 0 <= j < k && m.ordered[j].name == d;
        assert o[j] == m.ordered[j];
      } else {
        assert d in NamesOf(m.ordered);
        var j :| 0 <= j < |m.ordered| && m.ordered[j].name == d;
        assert o[j] == m.ordered[j];
      }
    }
  }

  lemma {:induction false} VisitKeepsOrder(byName: map<string, Plugin>, p: Plugin, m: Marks)
    requires Keyed(byName) && p.name in byName && byName[p.name] == p && OrderInv(byName, m)
    ensures var r := VisitOutcome(byName, p, m);
            r.Success? ==> && OrderInv(byName, r.value) && p.name in r.value.visited
                           && m.visited <= r.value.visited && m.ordered <= r.value.ordered
    decreases |byName.Keys - m.visiting|, 0
  {
    if p.name !in m.visited && p.name !in m.visiting {
      MeasureDrops(byName.Keys, m.visiting, p.name);
      var m1 := m.(visiting := m.visiting + {p.name});
      VisitDepsKeepOrder(byName, p, 0, m1);
      var r := VisitDepsOutcome(byName, p, 0, m1);
      if r.Success? {
        AppendKeepsOrderInv(byName, r.value, p);
      }
    }
  }

  lemma {:induction false} VisitDepsKeepOrder(byName: map<string, Plugin>, p: Plugin, i: nat, m: Marks)
    requires Keyed(byName) && p.name in byName && byName[p.name] == p && i <= |p.dependencies|
    requires OrderInv(byName, m) && p.name in m.visiting
    requires forall j :: 0 <= j < i ==> p.dependencies[j] in m.visited
    ensures var r := VisitDepsOutcome(byName, p, i, m);
            r.Success? ==> && OrderInv(byName, r.value) && m.visited <= r.value.visited && m.ordered <= r.value.ordered
                           && forall j :: 0 <= j < |p.dependencies| ==> p.dependencies[j] in r.value.visited
    decreases |byName.Keys - m.visiting|, 1, |p.dependencies| - i
  {
    if i < |p.dependencies| {
      var d := p.dependencies[i];
      if d in byName {
        VisitKeepsOrder(byName, byName[d], m);
        var r := VisitOutcome(byName, byName[d], m);
        if r.Success? {
          VisitDepsKeepOrder(byName, p, i + 1, r.value);
        }
      }
    }
  }

  /** a lists b among its dependencies. */
  predicate DependsOn(byName: map<string, Plugin>, a: string, b: string) {
    a in byName && b in byName[a].dependencies
  }

  predicate IsDependencyPath(byName: map<string, Plugin>, path: seq<string>) {
    forall k :: 0 <= k < |path| - 1 ==> DependsOn(byName, path[k], path[k + 1])
  }

  /** n reaches itself along dependencies. */
  ghost predicate OnCycle(byName: map<string, Plugin>, n: string) {
    exists path :: IsDependencyPath(byName, path) && |path| >= 2 && path[0] == n && path[|path| - 1] == n
  }

  /** An ordering error comes with its cause: a cycle through the named plugin, or a dependency
      that names no selected plugin. */
  ghost predicate ErrorWitnessed(byName: map<string, Plugin>, e: OrchestrationError) {
    match e
    case DependencyCycle(n) => OnCycle(byName, n)
    case MissingDependency(n, d) => DependsOn(byName, n, d) && d !in byName
    case _ => false
  }

  function SetOf(stack: seq<string>): set<string> {
    set k | 0 <= k < |stack| :: stack[k]
  }

  lemma StackPush(byName: map<string, Plugin>, stack: seq<string>, n: string)
    requires IsDependencyPath(byName, stack)
    requires stack != [] ==> DependsOn(byName, stack[|stack| - 1], n)
    ensures IsDependencyPath(byName, stack + [n])
    ensures SetOf(stack + [n]) == SetOf(stack) + {n}
  {
    var s := stack + [n];
    forall k | 0 <= k < |s| - 1 ensures DependsOn(byName, s[k], s[k + 1]) {
      assert s[k] == stack[k];
      if k + 1 < |stack| { assert s[k + 1] == stack[k + 1]; }
    }
    forall x | x in SetOf(s) ensures x in SetOf(stack) + {n} {
      var k :| 0 <= k < |s| && s[k] == x;
      if k < |stack| { assert s[k] == stack[k]; }
    }
    forall x | x in SetOf(stack) ensures x in SetOf(s) {
      var k :| 0 <= k < |stack| && stack[k] == x;
      assert s[k] == stack[k];
    }
    assert s[|stack|] == n;
  }

  /** Closing the search path at an entry that is still being visited gives a cycle. */
  lemma CycleFromStack(byName: map<string, Plugin>, stack: seq<string>, n: string)
    requires IsDependencyPath(byName, stack) && n in SetOf(stack)
    requires DependsOn(byName, stack[|stack| - 1], n)
    ensures OnCycle(byName, n)
  {
    var j :| 0 <= j < |stack| && stack[j] == n;
    var cycle := stack[j..] + [n];
    forall k | 0 <= k < |cycle| - 1 ensures DependsOn(byName, cycle[k], cycle[k + 1]) {
      assert cycle[k] == stack[j + k];
      if k < |cycle| - 2 { assert cycle[k + 1] == stack[j + k + 1]; }
    }
    assert IsDependencyPath(byName, cycle) && cycle[0] == n && cycle[|cycle| - 1] == n;
  }

  lemma {:induction false} VisitErrors(byName: map<string, Plugin>, p: Plugin, m: Marks, stack: seq<string>)
    requires Keyed(byName) && p.name in byName && byName[p.name] == p
    requires IsDependencyPath(byName, stack) && SetOf(stack) == m.visiting
    requires stack != [] ==> DependsOn(byName, stack[|stack| - 1], p.name)
    ensures var r := VisitOutcome(byName, p, m); r.Failure? ==> ErrorWitnessed(byName, r.error)
    decreases |byName.Keys - m.visiting|, 0
  {
    if p.name !in m.visited {
      if p.name in m.visiting {
        CycleFromStack(byName, stack, p.name);
      } else {
        MeasureDrops(byName.Keys, m.visiting, p.name);
        StackPush(byName, stack, p.name);
        VisitDepsErrors(byName, p, 0, m.(visiting := m.visiting + {p.name}), stack + [p.name]);
      }
    }
  }

  lemma {:induction false} VisitDepsErrors(byName: map<string, Plugin>, p: Plugin, i: nat, m: Marks, stack: seq<string>)
    requires Keyed(byName) && p.name in byName && byName[p.name] == p && i <= |p.dependencies|
    requires IsDependencyPath(byName, stack) && SetOf(stack) == m.visiting
    requires stack != [] && stack[|stack| - 1] == p.name
    ensures var r := VisitDepsOutcome(byName, p, i, m); r.Failure? ==> ErrorWitnessed(byName, r.error)
    decreases |byName.Keys - m.visiting|, 1, |p.dependencies| - i
  {
    if i < |p.dependencies| {
      var d := p.dependencies[i];
      if d in byName {
        VisitErrors(byName, byName[d], m, stack);
        var r := VisitOutcome(byName, byName[d], m);
        if r.Success? {
          VisitDepsErrors(byName, p, i + 1, r.value, stack);
        }
      }
    }
  }

  lemma {:induction false} OrderFromProps(byName: map<string, Plugin>, selected: seq<Plugin>, i: nat, m: Marks)
    requires Keyed(byName) && i <= |selected|
    requires forall j :: 0 <= j < |selected| ==> selected[j].name in byName && byName[selected[j].name] == selected[j]
    requires OrderInv(byName, m) && m.visiting == {}
    requires forall j :: 0 <= j < i ==> selected[j].name in m.visited
    ensures var r := OrderFrom(byName, selected, i, m);
            && (r.Success? ==> OrderInv(byName, r.value) && forall j :: 0 <= j < |selected| ==> selected[j].name in r.value.visited)
            && (r.Failure? ==> ErrorWitnessed(byName, r.error))
    decreases |selected| - i
  {
    if i < |selected| {
      VisitKeepsOrder(byName, selected[i], m);
      assert SetOf([]) == {};
      VisitErrors(byName, selected[i], m, []);
      var r := VisitOutcome(byName, selected[i], m);
      if r.Success? {
        OrderFromProps(byName, selected, i + 1, r.value);
      }
    }
  }

  /** With distinct names, the lookup map returns each selected plugin under its own name. */
  lemma {:induction false} ByNameOfDistinct(plugins: seq<Plugin>)
    requires DistinctNames(plugins)
    ensures forall j :: 0 <= j < |plugins| ==> ByName(plugins)[plugins[j].name] == plugins[j]
  {
    if plugins != [] {
      var init := plugins[..|plugins| - 1];
      ByNameOfDistinct(init);
      forall j | 0 <= j < |plugins| ensures ByName(plugins)[plugins[j].name] == plugins[j] {
        if j < |plugins| - 1 {
          assert init[j] == plugins[j];
        }
      }
    }
  }

  /** A final output of the search over distinct selected plugins holds exactly those plugins. */
  lemma OrderedIsSelection(selected: seq<Plugin>, m: Marks)
    requires DistinctNames(selected)
    requires OrderInv(ByName(selected), m)
    requires forall j :: 0 <= j < |selected| ==> selected[j].name in m.visited
    ensures forall k :: 0 <= k < |m.ordered| ==> exists j :: 0 <= j < |selected| && selected[j] == m.ordered[k]
    ensures forall j :: 0 <= j < |selected| ==> exists k :: 0 <= k < |m.ordered| && m.ordered[k] == selected[j]
  {
    var byName := ByName(selected);
    var o := m.ordered;
    ByNameOfDistinct(selected);
    forall k | 0 <= k < |o| ensures exists j :: 0 <= j < |selected| && selected[j] == o[k] {
      assert o[k].name in NamesOf(selected);
      var j :| 0 <= j < |selected| && selected[j].name == o[k].name;
      assert selected[j] == byName[o[k].name];
    }
    forall j | 0 <= j < |selected| ensures exists k :: 0 <= k < |o| && o[k] == selected[j] {
      assert selected[j].name in NamesOf(o);
      var k :| 0 <= k < |o| && o[k].name == selected[j].name;
      assert o[k] == byName[o[k].name];
    }
  }

  /** The search from the empty marks over distinct selected plugins keeps its invariant, visits
      every selected plugin, and fails only with a witnessed error. */
  lemma OrderSearchProps(selected: seq<Plugin>)
    requires DistinctNames(selected)
    ensures var r := OrderFrom(ByName(selected), selected, 0, Marks({}, {}, []));
            && (r.Success? ==> OrderInv(ByName(selected), r.value) && forall j :: 0 <= j < |selected| ==> selected[j].name in r.value.visited)
            && (r.Failure? ==> ErrorWitnessed(ByName(selected), r.error))
  {
    ByNameOfDistinct(selected);
    assert NamesOf([]) == {};
    OrderFromProps(ByName(selected), selected, 0, Marks({}, {}, []));
  }

  /** orderPlugins on plugins with distinct names: on success every selected plugin appears
      exactly once and after all of its dependencies; on failure the error names a cycle or a
      dependency outside the selection. */
  lemma OrderOutcomeSpec(selected: seq<Plugin>)
    requires DistinctNames(selected)
    ensures var r := OrderOutcome(selected);
            && (r.Success? ==>
                  && DistinctNames(r.value)
                  && DependenciesFirst(r.value)
                  && (forall k :: 0 <= k < |r.value| ==> exists j :: 0 <= j < |selected| && selected[j] == r.value[k])
                  && (forall j :: 0 <= j < |selected| ==> exists k :: 0 <= k < |r.value| && r.value[k] == selected[j]))
            && (r.Failure? ==> ErrorWitnessed(ByName(selected), r.error))
  {
    OrderSearchProps(selected);
    var r := OrderFrom(ByName(selected), selected, 0, Marks({}, {}, []));
    if r.Success? {
      OrderedIsSelection(selected, r.value);
    }
  }

  /** Every ordering failure is explained within the selection: either a selected plugin lies
      on a dependency cycle, or a selected plugin depends on a name no selected plugin has.
      Hence a selection closed under dependencies and free of cycles always orders. */
  lemma OrderFailureExplained(selected: seq<Plugin>)
    requires DistinctNames(selected)
    ensures var r := OrderOutcome(selected);
            r.Failure? ==>
              || (r.error.DependencyCycle? && r.error.name in NamesOf(selected) && OnCycle(ByName(selected), r.error.name))
              || (r.error.MissingDependency? && r.error.dependency !in NamesOf(selected) &&
                  exists j :: 0 <= j < |selected| && selected[j].name == r.error.name && r.error.dependency in selected[j].dependencies)
  {
    OrderOutcomeSpec(selected);
    ByNameOfDistinct(selected);
    var byName := ByName(selected);
    var r := OrderOutcome(selected);
    if r.Failure? {
      if r.error.DependencyCycle? {
        var n := r.error.name;
        var path :| IsDependencyPath(byName, path) && |path| >= 2 && path[0] == n && path[|path| - 1] == n;
        assert DependsOn(byName, path[0], path[1]);
      } else if r.error.MissingDependency? {
        var n := r.error.name;
        assert n in NamesOf(selected);
        var j :| 0 <= j < |selected| && selected[j].name == n;
        assert byName[n] == selected[j];
      }
    }
  }

  // ---------------------------------------------------------------------------------------
  // What the registry and the selection guarantee.

  /** list[j] is the last plugin of the list with its name. */
  predicate IsLastOf(list: seq<Plugin>, j: int)
    requires 0 <= j < |list|
  {
    forall j' :: j < j' < |list| ==> list[j'].name != list[j].name
  }

  /** Every entry of r is the last plugin of the list with its name. */
  ghost predicate LastEntries(list: seq<Plugin>, r: seq<Plugin>) {
    forall k :: 0 <= k < |r| ==> exists j :: 0 <= j < |list| && list[j] == r[k] && IsLastOf(list, j)
  }

  /** A last entry of init whose name differs from the appended plugin stays last. */
  lemma StillLast(init: seq<Plugin>, last: Plugin, x: Plugin)
    requires LastEntries(init, [x]) && x.name != last.name
    ensures LastEntries(init + [last], [x])
  {
    var list := init + [last];
    assert [x][0] == x;
    var j :| 0 <= j < |init| && init[j] == x && IsLastOf(init, j);
    assert list[j] == init[j];
    forall j' | j < j' < |list| ensures list[j'].name != list[j].name {
      if j' < |init| { assert list[j'] == init[j']; } else { assert list[j'] == last; }
    }
  }

  lemma ReplaceShape(init: seq<Plugin>, last: Plugin, r0: seq<Plugin>, k: int)
    requires DistinctNames(r0) && NamesOf(r0) == NamesOf(init) && LastEntries(init, r0)
    requires 0 <= k < |r0| && r0[k].name == last.name
    ensures DistinctNames(r0[k := last])
    ensures NamesOf(r0[k := last]) == NamesOf(init + [last])
    ensures LastEntries(init + [last], r0[k := last])
  {
    var list := init + [last];
    var r := r0[k := last];
    NamesOfAppend(init, last);
    assert forall i :: 0 <= i < |r| ==> r[i].name == r0[i].name;
    assert NamesOf(r) == NamesOf(r0) by {
      forall n | n in NamesOf(r) ensures n in NamesOf(r0) {
        var i :| 0 <= i < |r| && r[i].name == n;
      }
      forall n | n in NamesOf(r0) ensures n in NamesOf(r) {
        var i :| 0 <= i < |r0| && r0[i].name == n;
      }
    }
    assert last.name in NamesOf(r0);
    forall i | 0 <= i < |r| ensures exists j :: 0 <= j < |list| && list[j] == r[i] && IsLastOf(list, j) {
      if i == k {
        assert list[|list| - 1] == r[i] && IsLastOf(list, |list| - 1);
      } else {
        assert LastEntries(init, [r0[i]]) by {
          var j :| 0 <= j < |init| && init[j] == r0[i] && IsLastOf(init, j);
        }
        StillLast(init, last, r0[i]);
        assert r[i] == [r0[i]][0];
      }
    }
  }

  lemma AppendShape(init: seq<Plugin>, last: Plugin, r0: seq<Plugin>)
    requires DistinctNames(r0) && NamesOf(r0) == NamesOf(init) && LastEntries(init, r0)
    requires forall i :: 0 <= i < |r0| ==> r0[i].name != last.name
    ensures DistinctNames(r0 + [last])
    ensures NamesOf(r0 + [last]) == NamesOf(init + [last])
    ensures LastEntries(init + [last], r0 + [last])
  {
    var list := init + [last];
    var r := r0 + [last];
    NamesOfAppend(init, last);
    NamesOfAppend(r0, last);
    forall i | 0 <= i < |r| ensures exists j :: 0 <= j < |list| && list[j] == r[i] && IsLastOf(list, j) {
      if i == |r0| {
        assert list[|list| - 1] == r[i] && IsLastOf(list, |list| - 1);
      } else {
        assert LastEntries(init, [r0[i]]) by {
          var j :| 0 <= j < |init| && init[j] == r0[i] && IsLastOf(init, j);
        }
        StillLast(init, last, r0[i]);
        assert r[i] == [r0[i]][0];
      }
    }
  }

  /** The registry holds one plugin per name of the list: the last one registered under it. */
  lemma {:induction false} RegistryShape(list: seq<Plugin>)
    ensures DistinctNames(RegistryOf(list))
    ensures NamesOf(RegistryOf(list)) == NamesOf(list)
    ensures LastEntries(list, RegistryOf(list))
  {
    if list != [] {
      var init := list[..|list| - 1];
      var last := list[|list| - 1];
      assert list == init + [last];
      RegistryShape(init);
      var r0 := RegistryOf(init);
      var k := IndexOfName(r0, last.name);
      if k >= 0 {
        ReplaceShape(init, last, r0, k);
      } else {
        AppendShape(init, last, r0);
      }
    }
  }

  /** Registering plugins with distinct names keeps them all, in registration order. */
  lemma {:induction false} RegistryOfDistinct(list: seq<Plugin>)
    requires DistinctNames(list)
    ensures RegistryOf(list) == list
  {
    if list != [] {
      var init := list[..|list| - 1];
      var last := list[|list| - 1];
      assert list == init + [last];
      RegistryOfDistinct(init);
      forall i | 0 <= i < |init| ensures init[i].name != last.name {
        assert init[i] == list[i];
      }
    }
  }

  /** Ascending by name, no name repeated. */
  predicate StrictlySorted(plugins: seq<Plugin>) {
    forall i, j :: 0 <= i < j < |plugins| ==> LessThan(plugins[i].name, plugins[j].name)
  }

  lemma {:induction false} InsertPermutes(p: Plugin, sorted: seq<Plugin>)
    ensures multiset(InsertByName(p, sorted)) == multiset(sorted) + multiset{p}
  {
    if sorted != [] && LessThan(sorted[0].name, p.name) {
      InsertPermutes(p, sorted[1..]);
      assert sorted == [sorted[0]] + sorted[1..];
    }
  }

  /** The sort is a permutation. */
  lemma {:induction false} SortPermutes(plugins: seq<Plugin>)
    ensures multiset(SortByName(plugins)) == multiset(plugins)
  {
    if plugins != [] {
      SortPermutes(plugins[1..]);
      InsertPermutes(plugins[0], SortByName(plugins[1..]));
      assert plugins == [plugins[0]] + plugins[1..];
    }
  }

  lemma NamesFromMultiset(a: seq<Plugin>, b: seq<Plugin>)
    requires multiset(a) == multiset(b)
    ensures NamesOf(a) == NamesOf(b)
  {
    forall n | n in NamesOf(a) ensures n in NamesOf(b) {
      var i :| 0 <= i < |a| && a[i].name == n;
      assert a[i] in multiset(b);
      var j :| 0 <= j < |b| && b[j] == a[i];
    }
    forall n | n in NamesOf(b) ensures n in NamesOf(a) {
      var j :| 0 <= j < |b| && b[j].name == n;
      assert b[j] in multiset(a);
      var i :| 0 <= i < |a| && a[i] == b[j];
    }
  }

  /** A name below every name of a sorted list can go in front of it. */
  lemma ConsSorted(h: Plugin, rest: seq<Plugin>)
    requires StrictlySorted(rest)
    requires forall j :: 0 <= j < |rest| ==> LessThan(h.name, rest[j].name)
    ensures StrictlySorted([h] + rest)
  {
    var r := [h] + rest;
    forall i, j | 0 <= i < j < |r| ensures LessThan(r[i].name, r[j].name) {
      assert r[j] == rest[j - 1];
      if i > 0 {
        assert r[i] == rest[i - 1];
      }
    }
  }

  /** A name below p and below every name of tail is below every name of a permutation of
      tail with p added. */
  lemma HeadBelowAll(h: Plugin, p: Plugin, tail: seq<Plugin>, rest: seq<Plugin>)
    requires forall m :: 0 <= m < |tail| ==> LessThan(h.name, tail[m].name)
    requires LessThan(h.name, p.name)
    requires multiset(rest) == multiset(tail) + multiset{p}
    ensures forall j :: 0 <= j < |rest| ==> LessThan(h.name, rest[j].name)
  {
    forall j | 0 <= j < |rest| ensures LessThan(h.name, rest[j].name) {
      assert rest[j] in multiset(rest);
      if rest[j] != p {
        assert rest[j] in multiset(tail);
        var m :| 0 <= m < |tail| && tail[m] == rest[j];
      }
    }
  }

  lemma {:induction false} InsertSorted(p: Plugin, sorted: seq<Plugin>)
    requires StrictlySorted(sorted) && p.name !in NamesOf(sorted)
    ensures StrictlySorted(InsertByName(p, sorted))
  {
    if sorted == [] {
    } else if !LessThan(sorted[0].name, p.name) {
      assert sorted[0].name in NamesOf(sorted);
      LessThanTotal(p.name, sorted[0].name);
      forall j | 0 <= j < |sorted| ensures LessThan(p.name, sorted[j].name) {
        if j > 0 {
          LessThanTransitive(p.name, sorted[0].name, sorted[j].name);
        }
      }
      ConsSorted(p, sorted);
    } else {
      var h := sorted[0];
      var tail := sorted[1..];
      assert NamesOf(tail) <= NamesOf(sorted) by {
        forall n | n in NamesOf(tail) ensures n in NamesOf(sorted) {
          var i :| 0 <= i < |tail| && tail[i].name == n;
          assert sorted[i + 1] == tail[i];
        }
      }
      assert StrictlySorted(tail) by {
        forall i, j | 0 <= i < j < |tail| ensures LessThan(tail[i].name, tail[j].name) {
          assert tail[i] == sorted[i + 1] && tail[j] == sorted[j + 1];
        }
      }
      forall m | 0 <= m < |tail| ensures LessThan(h.name, tail[m].name) {
        assert tail[m] == sorted[m + 1];
      }
      InsertSorted(p, tail);
      InsertPermutes(p, tail);
      var rest := InsertByName(p, tail);
      HeadBelowAll(h, p, tail, rest);
      ConsSorted(h, rest);
    }
  }

  /** Sorting plugins with distinct names orders them strictly by name. */
  lemma {:induction false} SortSorted(plugins: seq<Plugin>)
    requires DistinctNames(plugins)
    ensures StrictlySorted(SortByName(plugins))
  {
    if plugins != [] {
      var tail := plugins[1..];
      assert DistinctNames(tail) by {
        forall i, j | 0 <= i < j < |tail| ensures tail[i].name != tail[j].name {
          assert tail[i] == plugins[i + 1] && tail[j] == plugins[j + 1];
        }
      }
      SortSorted(tail);
      SortPermutes(tail);
      NamesFromMultiset(SortByName(tail), tail);
      assert plugins[0].name !in NamesOf(tail) by {
        forall i | 0 <= i < |tail| ensures tail[i].name != plugins[0].name {
          assert tail[i] == plugins[i + 1];
        }
      }
      InsertSorted(plugins[0], SortByName(tail));
    }
  }

  /** Two strictly sorted lists with the same plugins are equal: the sorted selection does not
      depend on the order it was built from. */
  lemma {:induction false} SortedUnique(a: seq<Plugin>, b: seq<Plugin>)
    requires StrictlySorted(a) && StrictlySorted(b) && multiset(a) == multiset(b)
    ensures a == b
  {
    assert |a| == |multiset(a)| && |b| == |multiset(b)|;
    if a != [] {
      SortedHeadsEqual(a, b);
      MultisetOfTail(a);
      MultisetOfTail(b);
      SortedTail(a);
      SortedTail(b);
      SortedUnique(a[1..], b[1..]);
      assert a == [a[0]] + a[1..] && b == [b[0]] + b[1..];
    }
  }

  /** The least plugin of two sorted lists with the same plugins is the same. */
  lemma SortedHeadsEqual(a: seq<Plugin>, b: seq<Plugin>)
    requires StrictlySorted(a) && StrictlySorted(b) && multiset(a) == multiset(b)
    requires a != [] && b != []
    ensures a[0] == b[0]
  {
    var x := a[0];
    var y := b[0];
    assert y in multiset(a);
    var m :| 0 <= m < |a| && a[m] == y;
    assert x in multiset(b);
    var k :| 0 <= k < |b| && b[k] == x;
    if m > 0 && k > 0 {
      LessThanAsymmetric(x.name, y.name);
    }
  }

  lemma MultisetOfTail(a: seq<Plugin>)
    requires a != []
    ensures multiset(a[1..]) == multiset(a) - multiset{a[0]}
  {
    assert a == [a[0]] + a[1..];
  }

  lemma SortedTail(a: seq<Plugin>)
    requires StrictlySorted(a) && a != []
    ensures StrictlySorted(a[1..])
  {
    forall i, j | 0 <= i < j < |a| - 1 ensures LessThan(a[1..][i].name, a[1..][j].name) {
      assert a[1..][i] == a[i + 1] && a[1..][j] == a[j + 1];
    }
  }

  /** The enabled plugins: each plugin as often as in the registry when its name is enabled,
      never otherwise. */
  lemma {:induction false} EnabledCount(entries: seq<Plugin>, plugins: PluginsConfig)
    ensures forall p :: multiset(EnabledOf(entries, plugins))[p] == if IsEnabled(plugins, p.name) then multiset(entries)[p] else 0
  {
    if entries != [] {
      EnabledCount(entries[1..], plugins);
      assert entries == [entries[0]] + entries[1..];
    }
  }

  lemma {:induction false} EnabledNames(entries: seq<Plugin>, plugins: PluginsConfig)
    ensures NamesOf(EnabledOf(entries, plugins)) <= NamesOf(entries)
  {
    if entries != [] {
      EnabledNames(entries[1..], plugins);
      var e := EnabledOf(entries, plugins);
      var rest := EnabledOf(entries[1..], plugins);
      forall n | n in NamesOf(e) ensures n in NamesOf(entries) {
        var i :| 0 <= i < |e| && e[i].name == n;
        if IsEnabled(plugins, entries[0].name) && i == 0 {
          assert e[0] == entries[0];
        } else {
          var i' := if IsEnabled(plugins, entries[0].name) then i - 1 else i;
          assert e[i] == rest[i'];
          assert n in NamesOf(entries[1..]);
          var m :| 0 <= m < |entries[1..]| && entries[1..][m].name == n;
          assert entries[m + 1] == entries[1..][m];
        }
      }
    }
  }

  lemma {:induction false} EnabledDistinct(entries: seq<Plugin>, plugins: PluginsConfig)
    requires DistinctNames(entries)
    ensures DistinctNames(EnabledOf(entries, plugins))
  {
    if entries != [] {
      var tail := entries[1..];
      assert DistinctNames(tail) by {
        forall i, j | 0 <= i < j < |tail| ensures tail[i].name != tail[j].name {
          assert tail[i] == entries[i + 1] && tail[j] == entries[j + 1];
        }
      }
      EnabledDistinct(tail, plugins);
      EnabledNames(tail, plugins);
      var rest := EnabledOf(tail, plugins);
      if IsEnabled(plugins, entries[0].name) {
        var e := EnabledOf(entries, plugins);
        assert e == [entries[0]] + rest;
        forall i, j | 0 <= i < j < |e| ensures e[i].name != e[j].name {
          if i == 0 {
            assert e[j] == rest[j - 1];
            assert e[j].name in NamesOf(tail);
            var m :| 0 <= m < |tail| && tail[m].name == e[j].name;
            assert tail[m] == entries[m + 1];
          } else {
            assert e[i] == rest[i - 1] && e[j] == rest[j - 1];
          }
        }
      }
    }
  }

  /** The selection of a registry with distinct names: exactly its enabled plugins, once each,
      strictly ascending by name. */
  lemma SelectedSpec(registry: seq<Plugin>, plugins: PluginsConfig)
    requires DistinctNames(registry)
    ensures StrictlySorted(Selected(registry, plugins))
    ensures forall p :: multiset(Selected(registry, plugins))[p] == if IsEnabled(plugins, p.name) then multiset(registry)[p] else 0
  {
    EnabledCount(registry, plugins);
    EnabledDistinct(registry, plugins);
    SortPermutes(EnabledOf(registry, plugins));
    SortSorted(EnabledOf(registry, plugins));
  }

  /** Registering the same plugins (distinct names) in any order selects the same list. */
  lemma SelectionOrderIndependent(xs: seq<Plugin>, ys: seq<Plugin>, plugins: PluginsConfig)
    requires DistinctNames(xs) && DistinctNames(ys) && multiset(xs) == multiset(ys)
    ensures Selected(RegistryOf(xs), plugins) == Selected(RegistryOf(ys), plugins)
  {
    RegistryOfDistinct(xs);
    RegistryOfDistinct(ys);
    SelectedSpec(xs, plugins);
    SelectedSpec(ys, plugins);
    var a := Selected(xs, plugins);
    var b := Selected(ys, plugins);
    assert forall p :: multiset(a)[p] == multiset(b)[p];
    assert multiset(a) == multiset(b);
    SortedUnique(a, b);
  }

  // ---------------------------------------------------------------------------------------
  // What generation produces.

  /** The concatenated output of the plugins, in order. */
  function OutputsOf(ordered: seq<Plugin>, spec: ApiSpecification, context: PluginContext): seq<GeneratedFile> {
    if ordered == [] then [] else ordered[0].generate(spec, context) + OutputsOf(ordered[1..], spec, context)
  }

  /** The generation loop succeeds exactly when no remaining plugin rejects the specification,
      and then yields everything generated so far followed by each plugin's files in order; it
      fails with the first rejecting plugin's name and message. */
  lemma {:induction false} RunFromSpec(ordered: seq<Plugin>, i: nat, spec: ApiSpecification, context: PluginContext, generated: seq<GeneratedFile>)
    requires i <= |ordered|
    ensures var r := RunFrom(ordered, i, spec, context, generated);
            && (r.Success? <==> forall j :: i <= j < |ordered| ==> ordered[j].validate(spec).None?)
            && (r.Success? ==> r.value == generated + OutputsOf(ordered[i..], spec, context))
            && (r.Failure? ==> exists j :: i <= j < |ordered| && ordered[j].validate(spec).Some?
                                 && r.error == PluginRejected(ordered[j].name, ordered[j].validate(spec).value)
                                 && forall j' :: i <= j' < j ==> ordered[j'].validate(spec).None?)
    decreases |ordered| - i
  {
    if i < |ordered| {
      var p := ordered[i];
      if p.validate(spec).None? {
        var next := generated + p.generate(spec, context);
        RunFromSpec(ordered, i + 1, spec, context, next);
        assert ordered[i..][1..] == ordered[i + 1..];
      }
    }
  }

  /** generate: an invalid specification fails before any plugin runs; a valid one fails only
      with an ordering or rejection error, or yields the concatenated output of the ordered
      selection. */
  lemma GenerationSpec(registry: seq<Plugin>, spec: ApiSpecification, config: Config)
    ensures var r := GenerationOutcome(registry, spec, config);
            && (SpecValidator.ValidationOutcome(spec).Fail? ==> r == Failure(InvalidSpecification(SpecValidator.ValidationOutcome(spec).error)))
            && (r.Success? ==>
                  && SpecValidator.WellFormed(spec)
                  && var o := OrderOutcome(Selected(registry, config.plugins));
                     o.Success? && r.value == OutputsOf(o.value, spec, ContextOf(config)))
  {
    SpecValidator.ValidationPassIff(spec);
    var o := OrderOutcome(Selected(registry, config.plugins));
    if o.Success? {
      RunFromSpec(o.value, 0, spec, ContextOf(config), []);
      assert o.value[0..] == o.value;
    }
  }
}
