/** The 1.x plugin runtime: the PluginContainer record and CarbonPluginManager's
    two tables (id to container, instance to container). */
module LegacyPlugins {
  import opened Lang

  /** The values of a 1.x @Plugin annotation. */
  datatype PluginDescriptor = PluginDescriptor(id: string, name: string, version: string)

  /** The immutable record built by PluginContainer.of; its instance is held
      directly, never absent. */
  datatype PluginContainer = PluginContainer(id: string, name: string, version: string, instance: Obj)

  /** PluginContainer.of(id, name, version, instance): each argument is checked
      for null in order, and the record carries exactly the arguments. */
  function Of(id: Nullable<string>, name: Nullable<string>, version: Nullable<string>, instance: Nullable<Obj>)
    : (r: Result<PluginContainer>)
    ensures r.Ok? <==> id.NonNull? && name.NonNull? && version.NonNull? && instance.NonNull?
    ensures r.Ok? ==> r.value.id == id.value && r.value.name == name.value
                      && r.value.version == version.value && r.value.instance == instance.value
    ensures id.Null? ==> r == Thrown(NullPointer("id is null!"))
    ensures id.NonNull? && name.Null? ==> r == Thrown(NullPointer("name is null!"))
    ensures id.NonNull? && name.NonNull? && version.Null? ==> r == Thrown(NullPointer("version is null!"))
    ensures id.NonNull? && name.NonNull? && version.NonNull? && instance.Null?
            ==> r == Thrown(NullPointer("instance is null!"))
  {
    if id.Null? then Thrown(NullPointer("id is null!"))
    else if name.Null? then Thrown(NullPointer("name is null!"))
    else if version.Null? then Thrown(NullPointer("version is null!"))
    else if instance.Null? then Thrown(NullPointer("instance is null!"))
    else Ok(PluginContainer(id.value, name.value, version.value, instance.value))
  }

  /** PluginContainer.of(plugin, instance): the descriptor's id, name and version
      with the given instance. */
  function OfDescriptor(plugin: Nullable<PluginDescriptor>, instance: Nullable<Obj>): (r: Result<PluginContainer>)
    ensures r.Ok? <==> plugin.NonNull? && instance.NonNull?
    ensures r.Ok? ==> r.value == PluginContainer(plugin.value.id, plugin.value.name, plugin.value.version, instance.value)
    ensures plugin.Null? ==> r == Thrown(NullPointer("plugin is null!"))
    ensures plugin.NonNull? && instance.Null? ==> r == Thrown(NullPointer("instance is null!"))
  {
    if plugin.Null? then Thrown(NullPointer("plugin is null!"))
    else if instance.Null? then Thrown(NullPointer("instance is null!"))
    else Of(NonNull(plugin.value.id), NonNull(plugin.value.name), NonNull(plugin.value.version), instance)
  }

  /** An object handed to fromInstance: a plugin instance, or a container. */
  datatype PluginObject = Plain(obj: Obj) | Container(container: PluginContainer)

  /** The contents of the 1.x CarbonPluginManager's two maps, with its queries. */
  datatype PluginTables = PluginTables(plugins: map<string, PluginContainer>, pluginInstances: map<Obj, PluginContainer>)
  {
    /** fromInstance(instance): a container stands for itself; any other object
        is looked up among the recorded instances. */
    function FromInstance(instance: Nullable<PluginObject>): (r: Result<Option<PluginContainer>>)
      ensures instance.Null? <==> r == Thrown(NullPointer("instance is null!"))
      ensures instance.NonNull? && instance.value.Container? ==> r == Ok(Some(instance.value.container))
      ensures instance.NonNull? && instance.value.Plain? ==>
                r.Ok? && (r.value.Some? <==> instance.value.obj in pluginInstances)
                && (r.value.Some? ==> r.value.value == pluginInstances[instance.value.obj])
    {
      match instance
      case Null => Thrown(NullPointer("instance is null!"))
      case NonNull(Container(c)) => Ok(Some(c))
      case NonNull(Plain(o)) => Ok(Lookup(pluginInstances, o))
    }

    /** getPlugin(id) */
    function GetPlugin(id: Nullable<string>): (r: Result<Option<PluginContainer>>)
      ensures id.Null? <==> r == Thrown(NullPointer("id is null!"))
      ensures id.NonNull? ==> r.Ok? && (r.value.Some? <==> id.value in plugins)
                              && (r.value.Some? ==> r.value.value == plugins[id.value])
    {
      match id
      case Null => Thrown(NullPointer("id is null!"))
      case NonNull(k) => Ok(Lookup(plugins, k))
    }

    /** getPlugins(): the loaded containers. */
    function GetPlugins(): (r: set<PluginContainer>)
      ensures forall k :: k in plugins ==> plugins[k] in r
      ensures forall c | c in r :: exists k :: k in plugins && plugins[k] == c
    {
      plugins.Values
    }

    /** isLoaded(id) holds exactly when getPlugin(id) is present. */
    function IsLoaded(id: Nullable<string>): (r: Result<bool>)
      ensures id.Null? <==> r == Thrown(NullPointer("id is null!"))
      ensures r.Ok? ==> GetPlugin(id).Ok? && (r.value <==> GetPlugin(id).value.Some?)
    {
      match id
      case Null => Thrown(NullPointer("id is null!"))
      case NonNull(k) => Ok(k in plugins)
    }

    /** The two puts of loadPlugin(container), keyed by the container's id and by
        its own instance.  Every other id and instance keeps its entry. */
    function Load(container: PluginContainer): (t: PluginTables)
      ensures t.GetPlugin(NonNull(container.id)) == Ok(Some(container))
      ensures t.IsLoaded(NonNull(container.id)) == Ok(true)
      ensures t.FromInstance(NonNull(Plain(container.instance))) == Ok(Some(container))
      ensures forall k :: k != container.id ==> t.GetPlugin(NonNull(k)) == GetPlugin(NonNull(k))
      ensures forall o :: o != container.instance ==>
                t.FromInstance(NonNull(Plain(o))) == FromInstance(NonNull(Plain(o)))
    {
      PluginTables(plugins[container.id := container], pluginInstances[container.instance := container])
    }
  }

  class CarbonPluginManager {
    var plugins: map<string, PluginContainer>
    var pluginInstances: map<Obj, PluginContainer>

    /** The current contents of the two maps. */
    function Tables(): PluginTables
      reads this
    {
      PluginTables(plugins, pluginInstances)
    }

    constructor ()
      ensures Tables() == PluginTables(map[], map[])
    {
      plugins := map[];
      pluginInstances := map[];
    }

    /** loadPlugin(container) */
    method LoadPlugin(container: PluginContainer)
      modifies this
      ensures Tables() == old(Tables()).Load(container)
    {
      plugins := plugins[container.id := container];
      pluginInstances := pluginInstances[container.instance := container];
    }
  }
}
