/** The 2.x module runtime: the ModuleContainer record of carbon-api, the
    default queries of the ModuleManager interface and carbon-impl's
    CarbonModuleManager, which keeps the id to module map. */
module Modules {
  import opened Lang
  import opened ConfigTree
  import opened Plugins

  /** The values of a @Module annotation. */
  datatype ModuleDescriptor = ModuleDescriptor(id: string, name: string)

  /** A module class handed to the manager: its name and its @Module
      annotation, when it has one. */
  datatype ModuleClass = ModuleClass(name: string, annotation: Option<ModuleDescriptor>)

  /** The immutable record built by ModuleContainer.of. */
  datatype ModuleContainer = ModuleContainer(id: string, name: string, owner: PluginContainer, instance: Obj)

  /** ModuleContainer.of(module, instance, owner): null arguments are rejected
      in order; the record takes id and name from the descriptor and keeps the
      owner and the instance. */
  function ContainerOf(descriptor: Nullable<ModuleDescriptor>, instance: Nullable<Obj>, owner: Nullable<PluginContainer>)
    : (r: Result<ModuleContainer>)
    ensures r.Ok? <==> descriptor.NonNull? && instance.NonNull? && owner.NonNull?
    ensures r.Ok? ==> r.value.id == descriptor.value.id && r.value.name == descriptor.value.name
                      && r.value.owner == owner.value && r.value.instance == instance.value
    ensures descriptor.Null? ==> r == Thrown(NullPointer("module is null!"))
    ensures descriptor.NonNull? && instance.Null? ==> r == Thrown(NullPointer("instance is null!"))
    ensures descriptor.NonNull? && instance.NonNull? && owner.Null? ==> r == Thrown(NullPointer("owner is null!"))
  {
    if descriptor.Null? then Thrown(NullPointer("module is null!"))
    else if instance.Null? then Thrown(NullPointer("instance is null!"))
    else if owner.Null? then Thrown(NullPointer("owner is null!"))
    else Ok(ModuleContainer(descriptor.value.id, descriptor.value.name, owner.value, instance.value))
  }

  /** The contents of the modules map, with the manager's queries: getModule and
      getModules of CarbonModuleManager and the defaults of ModuleManager. */
  datatype ModuleTable = ModuleTable(modules: map<string, ModuleContainer>)
  {
    /** getModule(id) */
    function GetModule(id: Nullable<string>): (r: Result<Option<ModuleContainer>>)
      ensures id.Null? <==> r == Thrown(NullPointer("id is null!"))
      ensures id.NonNull? ==> r.Ok? && (r.value.Some? <==> id.value in modules)
                              && (r.value.Some? ==> r.value.value == modules[id.value])
    {
      match id
      case Null => Thrown(NullPointer("id is null!"))
      case NonNull(k) => Ok(Lookup(modules, k))
    }

    /** getModules(): the registered modules. */
    function GetModules(): (r: set<ModuleContainer>)
      ensures forall k :: k in modules ==> modules[k] in r
      ensures forall c | c in r :: exists k :: k in modules && modules[k] == c
    {
      modules.Values
    }

    /** getModule(Class): an annotated class is looked up by its annotation's id;
        a class without @Module has no module. */
    function GetModuleByClass(moduleClass: Nullable<ModuleClass>): (r: Result<Option<ModuleContainer>>)
      ensures moduleClass.Null? <==> r == Thrown(NullPointer("module is null!"))
      ensures moduleClass.NonNull? && moduleClass.value.annotation.Some? ==>
                r == GetModule(NonNull(moduleClass.value.annotation.value.id))
      ensures moduleClass.NonNull? && moduleClass.value.annotation.None? ==> r == Ok(None)
    {
      match moduleClass
      case Null => Thrown(NullPointer("module is null!"))
      case NonNull(cls) =>
        if cls.annotation.Some? then GetModule(NonNull(cls.annotation.value.id)) else Ok(None)
    }

    /** getOwner(id): the owner of getModule(id) when it is present. */
    function GetOwnerById(id: Nullable<string>): (r: Result<Option<PluginContainer>>)
      ensures id.Null? <==> r == Thrown(NullPointer("id is null!"))
      ensures r.Ok? ==> GetModule(id).Ok? && (r.value.Some? <==> GetModule(id).value.Some?)
                        && (r.value.Some? ==> r.value.value == GetModule(id).value.value.owner)
    {
      match id
      case Null => Thrown(NullPointer("id is null!"))
      case NonNull(_) =>
        var found := GetModule(id).value;
        if found.Some? then Ok(Some(found.value.owner)) else Ok(None)
    }

    /** getOwner(Class): the owner of getModule(Class) when it is present. */
    function GetOwnerByClass(moduleClass: Nullable<ModuleClass>): (r: Result<Option<PluginContainer>>)
      ensures moduleClass.Null? <==> r == Thrown(NullPointer("moduleClass is null!"))
      ensures r.Ok? ==> GetModuleByClass(moduleClass).Ok?
                        && (r.value.Some? <==> GetModuleByClass(moduleClass).value.Some?)
                        && (r.value.Some? ==> r.value.value == GetModuleByClass(moduleClass).value.value.owner)
    {
      match moduleClass
      case Null => Thrown(NullPointer("moduleClass is null!"))
      case NonNull(_) =>
        var found := GetModuleByClass(moduleClass).value;
        if found.Some? then Ok(Some(found.value.owner)) else Ok(None)
    }
  }

  /** A registration that did not throw: the module was stored, it was
      switched off in the configuration, or an error was logged. */
  datatype Outcome = Registered(container: ModuleContainer) | Disabled | ErrorLogged(message: string)

  /** The `module.<id>.enabled` flag of the root configuration; a missing flag
      means enabled. */
  function Enabled(root: Node, id: string): bool {
    root.At(["module", id, "enabled"]).GetBoolean(true)
  }

  /** A configuration without the flag enables the module; an explicit false
      disables it. */
  lemma EnabledDefault(root: Node, id: string)
    ensures !root.At(["module", id, "enabled"]).Scalar? ==> Enabled(root, id)
    ensures root.At(["module", id, "enabled"]) == Scalar(Bool(false)) ==> !Enabled(root, id)
  {
  }

  /** registerModule0(container, module): a class without @Module logs an error;
      an enabled one is stored, owned by `container`, with the instance the
      injector created. */
  function Register0(container: PluginContainer, moduleClass: ModuleClass, root: Node, instance: Obj): (r: Outcome)
    ensures moduleClass.annotation.None? <==> r == ErrorLogged(moduleClass.name + " has no @Module annotation!")
    ensures r.Disabled? <==> moduleClass.annotation.Some? && !Enabled(root, moduleClass.annotation.value.id)
    ensures r.Registered? ==> moduleClass.annotation.Some? && Enabled(root, moduleClass.annotation.value.id)
                              && r.container == ModuleContainer(moduleClass.annotation.value.id, moduleClass.annotation.value.name,
                                                                container, instance)
  {
    match moduleClass.annotation
    case None => ErrorLogged(moduleClass.name + " has no @Module annotation!")
    case Some(a) =>
      if Enabled(root, a.id) then Registered(ContainerOf(NonNull(a), NonNull(instance), NonNull(container)).value)
      else Disabled
  }

  /** The message a plugin object without a container is logged with. */
  const NO_CONTAINER: string := "Could not find container for the given plugin!"

  /** registerModule(plugin, module).  Both null checks test `module` (the
      first with the message "plugin is null!"), so a null plugin is only
      rejected inside fromInstance.  A container argument is the owner itself;
      any other object is resolved through the plugin manager. */
  function Register(plugins: PluginTables, plugin: Nullable<PluginObject>, moduleClass: Nullable<ModuleClass>,
                    root: Node, instance: Obj): (r: Result<Outcome>)
    ensures moduleClass.Null? ==> r == Thrown(NullPointer("plugin is null!"))
    ensures moduleClass.NonNull? && plugin.Null? ==> r == Thrown(NullPointer("instance is null!"))
    ensures moduleClass.NonNull? && plugin.NonNull? && plugin.value.Container? ==>
              r == Ok(Register0(plugin.value.container, moduleClass.value, root, instance))
    ensures moduleClass.NonNull? && plugin.NonNull? && plugin.value.Plain? ==>
              r == Ok(if plugin.value.obj in plugins.instanceToContainer
                      then Register0(plugins.instanceToContainer[plugin.value.obj], moduleClass.value, root, instance)
                      else ErrorLogged(NO_CONTAINER))
  {
    if moduleClass.Null? then Thrown(NullPointer("plugin is null!"))
    else if plugin.NonNull? && plugin.value.Container? then
      Ok(Register0(plugin.value.container, moduleClass.value, root, instance))
    else
      match plugins.FromInstance(plugin)
      case Thrown(e) => Thrown(e)
      case Ok(None) => Ok(ErrorLogged(NO_CONTAINER))
      case Ok(Some(c)) => Ok(Register0(c, moduleClass.value, root, instance))
  }

  /** The map after a registration: only a stored module changes it, and only
      at its own id. */
  function After(table: ModuleTable, r: Result<Outcome>): (t: ModuleTable)
    ensures r.Ok? && r.value.Registered? ==>
              t.GetModule(NonNull(r.value.container.id)) == Ok(Some(r.value.container))
    ensures forall k :: !(r.Ok? && r.value.Registered? && k == r.value.container.id) ==>
              t.GetModule(NonNull(k)) == table.GetModule(NonNull(k))
  {
    if r.Ok? && r.value.Registered? then ModuleTable(table.modules[r.value.container.id := r.value.container])
    else table
  }

  class CarbonModuleManager {
    var modules: map<string, ModuleContainer>

    function Table(): ModuleTable
      reads this
    {
      ModuleTable(modules)
    }

    constructor ()
      ensures modules == map[]
    {
      modules := map[];
    }

    /** registerModule(plugin, module) with the root configuration `root` and
        the instance the injector creates for the module class. */
    method RegisterModule(plugins: PluginTables, plugin: Nullable<PluginObject>, moduleClass: Nullable<ModuleClass>,
                          root: Node, instance: Obj) returns (r: Result<Outcome>)
      modifies this
      ensures r == Register(plugins, plugin, moduleClass, root, instance)
      ensures Table() == After(old(Table()), r)
    {
      if moduleClass.Null? {
        return Thrown(NullPointer("plugin is null!"));
      }
      if plugin.NonNull? && plugin.value.Container? {
        var outcome := RegisterModule0(plugin.value.container, moduleClass.value, root, instance);
        return Ok(outcome);
      }
      var container := plugins.FromInstance(plugin);
      if container.Thrown? {
        return Thrown(container.error);
      }
      if container.value.Some? {
        var outcome := RegisterModule0(container.value.value, moduleClass.value, root, instance);
        r := Ok(outcome);
      } else {
        r := Ok(ErrorLogged(NO_CONTAINER));
      }
    }

    method RegisterModule0(container: PluginContainer, moduleClass: ModuleClass, root: Node, instance: Obj)
      returns (r: Outcome)
      modifies this
      ensures r == Register0(container, moduleClass, root, instance)
      ensures Table() == After(old(Table()), Ok(r))
    {
      if moduleClass.annotation.None? {
        return ErrorLogged(moduleClass.name + " has no @Module annotation!");
      }
      var annotation := moduleClass.annotation.value;
      if root.At(["module", annotation.id, "enabled"]).GetBoolean(true) {
        var registered := ContainerOf(NonNull(annotation), NonNull(instance), NonNull(container)).value;
        modules := modules[annotation.id := registered];
        r := Registered(registered);
      } else {
        r := Disabled;
      }
    }
  }
}
