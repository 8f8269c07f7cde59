/** The 2.x plugin runtime: the PluginContainer records of carbon-api, the
    CarbonPluginContainer that the loader creates, and CarbonPluginManager's three
    tables (id to container, instance to container, container to instance). */
module Plugins {
  import opened Lang
  import opened ConfigTree

  /** The values of a @Plugin annotation. */
  datatype PluginDescriptor = PluginDescriptor(id: string, name: string, version: string)

  /** The container the loader creates with `new`: it keeps the manager that
      created it, the @Plugin annotation and the configuration node, and asks
      the manager for its instance.  The Java class defines no equals, so two
      of them are the same map key only when they are the same object. */
  class CarbonPluginContainer {
    const manager: CarbonPluginManager
    const plugin: PluginDescriptor
    const node: Node

    constructor (manager: CarbonPluginManager, plugin: PluginDescriptor, node: Node)
      ensures this.manager == manager && this.plugin == plugin && this.node == node
    {
      this.manager := manager;
      this.plugin := plugin;
      this.node := node;
    }
  }

  /** A loaded plugin: one the loader created, or the immutable record built by
      the PluginContainer.of factories. */
  datatype PluginContainer =
    | Carbon(carbon: CarbonPluginContainer)
    | Record(id: string, name: string, version: string, node: Node, instance: Obj)
  {
    function GetId(): (r: string)
      ensures this.Carbon? ==> r == carbon.plugin.id
      ensures this.Record? ==> r == id
    {
      if this.Carbon? then carbon.plugin.id else id
    }

    function GetName(): (r: string)
      ensures this.Carbon? ==> r == carbon.plugin.name
      ensures this.Record? ==> r == name
    {
      if this.Carbon? then carbon.plugin.name else name
    }

    function GetVersion(): (r: string)
      ensures this.Carbon? ==> r == carbon.plugin.version
      ensures this.Record? ==> r == version
    {
      if this.Carbon? then carbon.plugin.version else version
    }

    /** getConfiguration(): the node given at construction. */
    function GetConfiguration(): Node {
      if this.Carbon? then carbon.node else node
    }

    /** getInstance(): a record's instance is always present; a loader's
        container has whatever its manager has recorded for that very object. */
    function GetInstance(): (r: Option<Obj>)
      reads if this.Carbon? then {this.carbon.manager} else {}
      ensures this.Record? ==> r == Some(instance)
      ensures this.Carbon? ==>
                (r.Some? <==> this in carbon.manager.containerToInstance)
                && (r.Some? ==> r.value == carbon.manager.containerToInstance[this])
    {
      if this.Carbon? then carbon.manager.Tables().GetInstance(this) else Some(instance)
    }
  }

  /** PluginContainer.of(id, name, version, node, instance): each argument is
      checked for null in order, and the record carries exactly the arguments. */
  function Of(
    id: Nullable<string>, name: Nullable<string>, version: Nullable<string>,
    node: Nullable<Node>, instance: Nullable<Obj>): (r: Result<PluginContainer>)
    ensures r.Ok? <==> id.NonNull? && name.NonNull? && version.NonNull? && node.NonNull? && instance.NonNull?
    ensures r.Ok? ==> r.value == Record(id.value, name.value, version.value, node.value, instance.value)
    ensures id.Null? ==> r == Thrown(NullPointer("id is null!"))
    ensures id.NonNull? && name.Null? ==> r == Thrown(NullPointer("name is null!"))
    ensures id.NonNull? && name.NonNull? && version.Null? ==> r == Thrown(NullPointer("version is null!"))
    ensures id.NonNull? && name.NonNull? && version.NonNull? && node.Null? ==> r == Thrown(NullPointer("node is null!"))
    ensures id.NonNull? && name.NonNull? && version.NonNull? && node.NonNull? && instance.Null?
            ==> r == Thrown(NullPointer("instance is null!"))
  {
    if id.Null? then Thrown(NullPointer("id is null!"))
    else if name.Null? then Thrown(NullPointer("name is null!"))
    else if version.Null? then Thrown(NullPointer("version is null!"))
    else if node.Null? then Thrown(NullPointer("node is null!"))
    else if instance.Null? then Thrown(NullPointer("instance is null!"))
    else Ok(Record(id.value, name.value, version.value, node.value, instance.value))
  }

  /** PluginContainer.of(plugin, node, instance): the record carries the
      descriptor's id, name and version, and its instance is always present. */
  function OfDescriptor(plugin: Nullable<PluginDescriptor>, node: Nullable<Node>, instance: Nullable<Obj>)
    : (r: Result<PluginContainer>)
    ensures r.Ok? <==> plugin.NonNull? && node.NonNull? && instance.NonNull?
    ensures r.Ok? ==> r.value.GetId() == plugin.value.id && r.value.GetName() == plugin.value.name
                      && r.value.GetVersion() == plugin.value.version
                      && r.value.GetConfiguration() == node.value && r.value.GetInstance() == Some(instance.value)
    ensures plugin.Null? ==> r == Thrown(NullPointer("plugin is null!"))
    ensures plugin.NonNull? && node.Null? ==> r == Thrown(NullPointer("node is null!"))
    ensures plugin.NonNull? && node.NonNull? && instance.Null? ==> r == Thrown(NullPointer("instance is null!"))
  {
    if plugin.Null? then Thrown(NullPointer("plugin is null!"))
    else if node.Null? then Thrown(NullPointer("node is null!"))
    else if instance.Null? then Thrown(NullPointer("instance is null!"))
    else Of(NonNull(plugin.value.id), NonNull(plugin.value.name), NonNull(plugin.value.version), node, instance)
  }

  /** An object handed to fromInstance: a plugin instance, or a container. */
  datatype PluginObject = Plain(obj: Obj) | Container(container: PluginContainer)

  /** The contents of CarbonPluginManager's three maps, with the manager's
      queries over them. */
  datatype PluginTables = PluginTables(
    plugins: map<string, PluginContainer>,
    instanceToContainer: map<Obj, PluginContainer>,
    containerToInstance: map<PluginContainer, Obj>)
  {
    /** fromInstance(instance): a container stands for itself; any other object
        is looked up among the recorded instances. */
    function FromInstance(instance: Nullable<PluginObject>): (r: Result<Option<PluginContainer>>)
      ensures instance.Null? <==> r == Thrown(NullPointer("instance is null!"))
      ensures instance.NonNull? && instance.value.Container? ==> r == Ok(Some(instance.value.container))
      ensures instance.NonNull? && instance.value.Plain? ==>
                r.Ok? && (r.value.Some? <==> instance.value.obj in instanceToContainer)
                && (r.value.Some? ==> r.value.value == instanceToContainer[instance.value.obj])
    {
      match instance
      case Null => Thrown(NullPointer("instance is null!"))
      case NonNull(Container(c)) => Ok(Some(c))
      case NonNull(Plain(o)) => Ok(Lookup(instanceToContainer, o))
    }

    /** getPlugin(id) */
    function GetPlugin(id: Nullable<string>): (r: Result<Option<PluginContainer>>)
      ensures id.Null? <==> r == Thrown(NullPointer("id is null!"))
      ensures id.NonNull? ==> r.Ok? && (r.value.Some? <==> id.value in plugins)
                              && (r.value.Some? ==> r.value.value == plugins[id.value])
    {
      match id
      case Null => Thrown(NullPointer("id is null!"))
      case NonNull(k) => Ok(Lookup(plugins, k))
    }

    /** getPlugins(): the loaded containers. */
    function GetPlugins(): (r: set<PluginContainer>)
      ensures forall k :: k in plugins ==> plugins[k] in r
      ensures forall c | c in r :: exists k :: k in plugins && plugins[k] == c
    {
      plugins.Values
    }

    /** isLoaded(id) holds exactly when getPlugin(id) is present. */
    function IsLoaded(id: Nullable<string>): (r: Result<bool>)
      ensures id.Null? <==> r == Thrown(NullPointer("id is null!"))
      ensures r.Ok? ==> GetPlugin(id).Ok? && (r.value <==> GetPlugin(id).value.Some?)
    {
      match id
      case Null => Thrown(NullPointer("id is null!"))
      case NonNull(k) => Ok(k in plugins)
    }

    /** getInstance(container) */
    function GetInstance(container: PluginContainer): (r: Option<Obj>)
      ensures r.Some? <==> container in containerToInstance
      ensures r.Some? ==> r.value == containerToInstance[container]
    {
      Lookup(containerToInstance, container)
    }

    /** The three puts of loadPlugin(container, object).  Afterwards the
        container is found by its id, by the object and as the owner of the
        object; every other id and every other object keeps its entry. */
    function Load(container: PluginContainer, obj: Obj): (t: PluginTables)
      ensures t.GetPlugin(NonNull(container.GetId())) == Ok(Some(container))
      ensures t.IsLoaded(NonNull(container.GetId())) == Ok(true)
      ensures t.FromInstance(NonNull(Plain(obj))) == Ok(Some(container))
      ensures t.GetInstance(container) == Some(obj)
      ensures forall k :: k != container.GetId() ==> t.GetPlugin(NonNull(k)) == GetPlugin(NonNull(k))
      ensures forall o :: o != obj ==> t.FromInstance(NonNull(Plain(o))) == FromInstance(NonNull(Plain(o)))
      ensures forall c | c in t.containerToInstance && c != container :: c in containerToInstance
      ensures forall c | c in containerToInstance && c != container :: t.GetInstance(c) == GetInstance(c)
    {
      PluginTables(
        plugins[container.GetId() := container],
        instanceToContainer[obj := container],
        containerToInstance[container := obj])
    }

    /** loadPlugin applied to each (container, instance) pair in turn. */
    function LoadAll(loads: seq<Loaded>): PluginTables {
      if loads == [] then this
      else LoadAll(loads[..|loads| - 1]).Load(loads[|loads| - 1].container, loads[|loads| - 1].instance)
    }
  }

  /** Loading two sequences one after the other is loading their concatenation. */
  lemma {:induction false} LoadAllAppend(t: PluginTables, a: seq<Loaded>, b: seq<Loaded>)
    ensures t.LoadAll(a + b) == t.LoadAll(a).LoadAll(b)
  {
    if b == [] {
      assert a + b == a;
    } else {
      var init := b[..|b| - 1];
      LoadAllAppend(t, a, init);
      assert (a + b)[..|a + b| - 1] == a + init;
      assert (a + b)[|a + b| - 1] == b[|b| - 1];
    }
  }

  /** A (container, instance) pair handed to loadPlugin. */
  datatype Loaded = Loaded(container: PluginContainer, instance: Obj)

  /** After loading a sequence, an id is loaded exactly when it was loaded before
      or one of the loaded containers has it. */
  lemma {:induction false} LoadAllIds(t: PluginTables, loads: seq<Loaded>, id: string)
    ensures id in t.LoadAll(loads).plugins
            <==> id in t.plugins || exists k :: 0 <= k < |loads| && loads[k].container.GetId() == id
  {
    if loads != [] {
      var init := loads[..|loads| - 1];
      LoadAllIds(t, init, id);
      assert forall k :: 0 <= k < |init| ==> init[k] == loads[k];
      if exists k :: 0 <= k < |loads| && loads[k].container.GetId() == id {
        var k :| 0 <= k < |loads| && loads[k].container.GetId() == id;
        if k < |init| {
          assert init[k].container.GetId() == id;
        }
      }
    }
  }

  /** The last container loaded under an id is the one getPlugin returns. */
  lemma {:induction false} LoadAllLastWins(t: PluginTables, loads: seq<Loaded>, k: nat)
    requires k < |loads|
    requires forall j :: k < j < |loads| ==> loads[j].container.GetId() != loads[k].container.GetId()
    ensures t.LoadAll(loads).GetPlugin(NonNull(loads[k].container.GetId())) == Ok(Some(loads[k].container))
  {
    var init := loads[..|loads| - 1];
    if k < |init| {
      assert forall j :: k < j < |init| ==> init[j] == loads[j];
      LoadAllLastWins(t, init, k);
      assert init[k] == loads[k];
    }
  }

  /** One plugin class found by the scan: its @Plugin descriptor, the node
      getPluginConfig returned for it (null when there is none) and the instance
      the injector created. */
  datatype Candidate = Candidate(plugin: PluginDescriptor, node: Nullable<Node>, instance: Obj)

  /** The candidates of one jar that are loaded: those with a config node, in
      scan order. */
  function SelectedIn(candidates: seq<Candidate>): (r: seq<Candidate>)
    ensures |r| <= |candidates|
    ensures forall k :: 0 <= k < |r| ==> r[k].node.NonNull?
  {
    if candidates == [] then []
    else
      var c := candidates[|candidates| - 1];
      SelectedIn(candidates[..|candidates| - 1]) + (if c.node.NonNull? then [c] else [])
  }

  /** The loaded candidates of all jars, jar after jar. */
  function Selected(jars: seq<seq<Candidate>>): seq<Candidate> {
    if jars == [] then []
    else Selected(jars[..|jars| - 1]) + SelectedIn(jars[|jars| - 1])
  }

  /** A candidate is loaded exactly when it has a config node. */
  lemma {:induction false} SelectedInExactly(candidates: seq<Candidate>, c: Candidate)
    ensures c in SelectedIn(candidates) <==> c in candidates && c.node.NonNull?
  {
    if candidates != [] {
      var init := candidates[..|candidates| - 1];
      SelectedInExactly(init, c);
      assert candidates == init + [candidates[|candidates| - 1]];
    }
  }

  /** `l` is what loadAllPlugins loads for candidate `c`: a container of
      `manager` with the candidate's descriptor and node, and the candidate's
      instance. */
  predicate Wraps(manager: CarbonPluginManager, c: Candidate, l: Loaded) {
    c.node.NonNull? && l.container.Carbon? && l.container.carbon.manager == manager
    && l.container.carbon.plugin == c.plugin && l.container.carbon.node == c.node.value
    && l.instance == c.instance
  }

  /** `loads` is what loadAllPlugins loads for `candidates`, one for one. */
  predicate Creates(manager: CarbonPluginManager, candidates: seq<Candidate>, loads: seq<Loaded>) {
    |candidates| == |loads| && forall k :: 0 <= k < |loads| ==> Wraps(manager, candidates[k], loads[k])
  }

  lemma CreatesAppend(manager: CarbonPluginManager, a: seq<Candidate>, la: seq<Loaded>, b: seq<Candidate>, lb: seq<Loaded>)
    requires Creates(manager, a, la) && Creates(manager, b, lb)
    ensures Creates(manager, a + b, la + lb)
  {
    assert forall k :: 0 <= k < |la| ==> (a + b)[k] == a[k] && (la + lb)[k] == la[k];
    assert forall k :: |la| <= k < |la + lb| ==> (a + b)[k] == b[k - |la|] && (la + lb)[k] == lb[k - |la|];
  }

  /** No container object is loaded twice. */
  predicate DistinctContainers(loads: seq<Loaded>) {
    forall k, l :: 0 <= k < l < |loads| ==> loads[k].container != loads[l].container
  }

  lemma LoadAllSnoc(t: PluginTables, loads: seq<Loaded>, l: Loaded)
    ensures t.LoadAll(loads + [l]) == t.LoadAll(loads).Load(l.container, l.instance)
  {
    assert (loads + [l])[..|loads|] == loads;
  }

  lemma DistinctSnoc(loads: seq<Loaded>, l: Loaded)
    requires DistinctContainers(loads)
    requires forall k :: 0 <= k < |loads| ==> loads[k].container != l.container
    ensures DistinctContainers(loads + [l])
  {
    assert forall k :: 0 <= k < |loads| ==> (loads + [l])[k] == loads[k];
  }

  lemma DistinctAppend(a: seq<Loaded>, b: seq<Loaded>)
    requires DistinctContainers(a) && DistinctContainers(b)
    requires forall k, l :: 0 <= k < |a| && 0 <= l < |b| ==> a[k].container != b[l].container
    ensures DistinctContainers(a + b)
  {
    assert forall k :: 0 <= k < |a| ==> (a + b)[k] == a[k];
    assert forall k :: |a| <= k < |a + b| ==> (a + b)[k] == b[k - |a|];
  }

  /** When the containers are different objects, each one's instance after
      loading is the one it was loaded with, whatever their ids. */
  lemma {:induction false} LoadAllOwnInstances(t: PluginTables, loads: seq<Loaded>, k: nat)
    requires DistinctContainers(loads)
    requires k < |loads|
    ensures t.LoadAll(loads).GetInstance(loads[k].container) == Some(loads[k].instance)
  {
    var init := loads[..|loads| - 1];
    if k < |init| {
      assert forall j :: 0 <= j < |init| ==> init[j] == loads[j];
      LoadAllOwnInstances(t, init, k);
      assert loads[k].container != loads[|loads| - 1].container;
    }
  }

  class CarbonPluginManager {
    var plugins: map<string, PluginContainer>
    var instanceToContainer: map<Obj, PluginContainer>
    var containerToInstance: map<PluginContainer, Obj>

    /** The current contents of the three maps. */
    function Tables(): PluginTables
      reads this
    {
      PluginTables(plugins, instanceToContainer, containerToInstance)
    }

    constructor ()
      ensures Tables() == PluginTables(map[], map[], map[])
    {
      plugins := map[];
      instanceToContainer := map[];
      containerToInstance := map[];
    }

    /** loadPlugin(container, obj): records the container under its id, the
        object's owner and the container's instance.  For a container this
        manager created, getInstance now returns the object. */
    method LoadPlugin(container: PluginContainer, obj: Obj)
      modifies this
      ensures Tables() == old(Tables()).Load(container, obj)
      ensures container.Carbon? && container.carbon.manager == this ==>
                container.GetInstance() == Some(obj)
    {
      plugins := plugins[container.GetId() := container];
      instanceToContainer := instanceToContainer[obj := container];
      containerToInstance := containerToInstance[container := obj];
    }

    /** The body of loadAllPlugins once jars are scanned and classes are
        instantiated: every candidate with a config node is wrapped in a new
        CarbonPluginContainer and loaded, jar after jar, class after class.
        `loaded` names the containers created, in order. */
    method LoadAllPlugins(jars: seq<seq<Candidate>>) returns (ghost loaded: seq<Loaded>)
      modifies this
      ensures Creates(this, Selected(jars), loaded)
      ensures DistinctContainers(loaded)
      ensures Tables() == old(Tables()).LoadAll(loaded)
      ensures forall k :: 0 <= k < |loaded| ==> loaded[k].container.GetInstance() == Some(loaded[k].instance)
    {
      loaded := [];
      var i := 0;
      while i < |jars|
        invariant 0 <= i <= |jars|
        invariant Creates(this, Selected(jars[..i]), loaded)
        invariant DistinctContainers(loaded)
        invariant Tables() == old(Tables()).LoadAll(loaded)
      {
        ghost var done := loaded;
        ghost var added := LoadJar(jars[i], done);
        loaded := done + added;
        assert jars[..i + 1][..i] == jars[..i];
        assert Selected(jars[..i + 1]) == Selected(jars[..i]) + SelectedIn(jars[i]);
        CreatesAppend(this, Selected(jars[..i]), done, SelectedIn(jars[i]), added);
        LoadAllAppend(old(Tables()), done, added);
        i := i + 1;
      }
      assert jars[..i] == jars;
      forall k | 0 <= k < |loaded|
        ensures loaded[k].container.GetInstance() == Some(loaded[k].instance)
      {
        LoadAllOwnInstances(old(Tables()), loaded, k);
      }
    }

    /** The inner loop of loadAllPlugins over the classes of one jar: a new
        container for every class with a config node, loaded in turn and
        appended to the containers created so far. */
    method LoadJar(candidates: seq<Candidate>, ghost loaded: seq<Loaded>) returns (ghost added: seq<Loaded>)
      requires DistinctContainers(loaded)
      modifies this
      ensures Creates(this, SelectedIn(candidates), added)
      ensures DistinctContainers(loaded + added)
      ensures Tables() == old(Tables()).LoadAll(added)
    {
      added := [];
      var j := 0;
      while j < |candidates|
        invariant 0 <= j <= |candidates|
        invariant Creates(this, SelectedIn(candidates[..j]), added)
        invariant DistinctContainers(loaded + added)
        invariant Tables() == old(Tables()).LoadAll(added)
      {
        var c := candidates[j];
        assert candidates[..j + 1][..j] == candidates[..j];
        if c.node.NonNull? {
          ghost var l := LoadCandidate(c, loaded + added);
          assert SelectedIn(candidates[..j + 1]) == SelectedIn(candidates[..j]) + [c];
          assert Creates(this, [c], [l]);
          CreatesAppend(this, SelectedIn(candidates[..j]), added, [c], [l]);
          LoadAllSnoc(old(Tables()), added, l);
          assert loaded + added + [l] == loaded + (added + [l]);
          added := added + [l];
        } else {
          assert SelectedIn(candidates[..j + 1]) == SelectedIn(candidates[..j]) + [];
        }
        j := j + 1;
      }
      assert candidates[..j] == candidates;
    }

    /** One class with a config node: a new container for it, loaded with the
        class's instance. */
    method LoadCandidate(c: Candidate, ghost prev: seq<Loaded>) returns (ghost l: Loaded)
      requires c.node.NonNull? && DistinctContainers(prev)
      modifies this
      ensures Wraps(this, c, l) && fresh(l.container.carbon)
      ensures DistinctContainers(prev + [l])
      ensures Tables() == old(Tables()).Load(l.container, l.instance)
    {
      var carbon := new CarbonPluginContainer(this, c.plugin, c.node.value);
      var container := Carbon(carbon);
      LoadPlugin(container, c.instance);
      l := Loaded(container, c.instance);
      assert forall k :: 0 <= k < |prev| ==> prev[k].container != l.container;
      DistinctSnoc(prev, l);
    }
  }
}
