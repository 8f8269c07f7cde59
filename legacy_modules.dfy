/** The 1.x module runtime: the ModuleContainer records (with or without an
    owning plugin), the default queries of the 1.x ModuleManager interface and
    the 1.x CarbonModuleManager. */
module LegacyModules {
  import opened Lang
  import opened ConfigTree
  import opened LegacyPlugins

  /** The values of a 1.x @Module annotation. */
  datatype ModuleDescriptor = ModuleDescriptor(id: string, name: string)

  /** A module class handed to the manager: its name and its @Module
      annotation, when it has one. */
  datatype ModuleClass = ModuleClass(name: string, annotation: Option<ModuleDescriptor>)

  /** The immutable record built by the ModuleContainer.of factories; a module
      registered without a plugin has no owner. */
  datatype ModuleContainer = ModuleContainer(id: string, name: string, owner: Option<PluginContainer>, instance: Obj)

  /** The owner-less ModuleContainer.of(module, instance). */
  function UnownedOf(descriptor: Nullable<ModuleDescriptor>, instance: Nullable<Obj>): (r: Result<ModuleContainer>)
    ensures r.Ok? <==> descriptor.NonNull? && instance.NonNull?
    ensures r.Ok? ==> r.value.id == descriptor.value.id && r.value.name == descriptor.value.name
                      && r.value.owner == None && r.value.instance == instance.value
    ensures descriptor.Null? ==> r == Thrown(NullPointer("module is null!"))
    ensures descriptor.NonNull? && instance.Null? ==> r == Thrown(NullPointer("instance is null!"))
  {
    if descriptor.Null? then Thrown(NullPointer("module is null!"))
    else if instance.Null? then Thrown(NullPointer("instance is null!"))
    else Ok(ModuleContainer(descriptor.value.id, descriptor.value.name, None, instance.value))
  }

  /** The owned ModuleContainer.of(module, instance, owner). */
  function OwnedOf(descriptor: Nullable<ModuleDescriptor>, instance: Nullable<Obj>, owner: Nullable<PluginContainer>)
    : (r: Result<ModuleContainer>)
    ensures r.Ok? <==> descriptor.NonNull? && instance.NonNull? && owner.NonNull?
    ensures r.Ok? ==> r.value.id == descriptor.value.id && r.value.name == descriptor.value.name
                      && r.value.owner == Some(owner.value) && r.value.instance == instance.value
    ensures descriptor.Null? ==> r == Thrown(NullPointer("module is null!"))
    ensures descriptor.NonNull? && instance.Null? ==> r == Thrown(NullPointer("instance is null!"))
    ensures descriptor.NonNull? && instance.NonNull? && owner.Null? ==> r == Thrown(NullPointer("owner is null!"))
  {
    if descriptor.Null? then Thrown(NullPointer("module is null!"))
    else if instance.Null? then Thrown(NullPointer("instance is null!"))
    else if owner.Null? then Thrown(NullPointer("owner is null!"))
    else Ok(ModuleContainer(descriptor.value.id, descriptor.value.name, Some(owner.value), instance.value))
  }

  /** The contents of the 1.x modules map, with the manager's queries. */
  datatype ModuleTable = ModuleTable(modules: map<string, ModuleContainer>)
  {
    /** getModule(id) */
    function GetModule(id: Nullable<string>): (r: Result<Option<ModuleContainer>>)
      ensures id.Null? <==> r == Thrown(NullPointer("id is null!"))
      ensures id.NonNull? ==> r.Ok? && (r.value.Some? <==> id.value in modules)
                              && (r.value.Some? ==> r.value.value == modules[id.value])
    {
      match id
      case Null => Thrown(NullPointer("id is null!"))
      case NonNull(k) => Ok(Lookup(modules, k))
    }

    /** getModules(): the registered modules. */
    function GetModules(): (r: set<ModuleContainer>)
      ensures forall k :: k in modules ==> modules[k] in r
      ensures forall c | c in r :: exists k :: k in modules && modules[k] == c
    {
      modules.Values
    }

    /** getModule(Class): looked up by the annotation's id; a class without
        @Module has no module. */
    function GetModuleByClass(moduleClass: Nullable<ModuleClass>): (r: Result<Option<ModuleContainer>>)
      ensures moduleClass.Null? <==> r == Thrown(NullPointer("module is null!"))
      ensures moduleClass.NonNull? && moduleClass.value.annotation.Some? ==>
                r == GetModule(NonNull(moduleClass.value.annotation.value.id))
      ensures moduleClass.NonNull? && moduleClass.value.annotation.None? ==> r == Ok(None)
    {
      match moduleClass
      case Null => Thrown(NullPointer("module is null!"))
      case NonNull(cls) =>
        if cls.annotation.Some? then GetModule(NonNull(cls.annotation.value.id)) else Ok(None)
    }

    /** getOwner(id) as written: Optional.of is applied to the module's owner,
        which is itself an Optional.  The expression's type is then an Optional
        of an Optional, which does not match the declared Optional of a
        container, so javac rejects the line.  This is the literal reading of
        the expression: an owner-less module gives a present value holding an
        absent owner. */
    function GetOwnerByIdAsWritten(id: Nullable<string>): (r: Result<Option<Option<PluginContainer>>>)
      ensures id.Null? <==> r == Thrown(NullPointer("id is null!"))
      ensures r.Ok? ==> (r.value.Some? <==> GetModule(id).value.Some?)
                        && (r.value.Some? ==> r.value.value == GetModule(id).value.value.owner)
    {
      match id
      case Null => Thrown(NullPointer("id is null!"))
      case NonNull(_) =>
        var found := GetModule(id).value;
        if found.Some? then Ok(Some(found.value.owner)) else Ok(None)
    }

    /** getOwner(id) as intended: the owner of getModule(id), absent both when
        there is no such module and when the module has no owner. */
    function GetOwnerById(id: Nullable<string>): (r: Result<Option<PluginContainer>>)
      ensures id.Null? <==> r == Thrown(NullPointer("id is null!"))
      ensures r.Ok? ==> (r.value.Some? <==> GetModule(id).value.Some? && GetModule(id).value.value.owner.Some?)
                        && (r.value.Some? ==> Some(r.value.value) == GetModule(id).value.value.owner)
    {
      match id
      case Null => Thrown(NullPointer("id is null!"))
      case NonNull(_) =>
        var found := GetModule(id).value;
        if found.Some? then Ok(found.value.owner) else Ok(None)
    }

    /** getOwner(Class) as written, with the same double wrapping and the same
        type mismatch. */
    function GetOwnerByClassAsWritten(moduleClass: Nullable<ModuleClass>)
      : (r: Result<Option<Option<PluginContainer>>>)
      ensures moduleClass.Null? <==> r == Thrown(NullPointer("moduleClass is null!"))
      ensures r.Ok? ==> (r.value.Some? <==> GetModuleByClass(moduleClass).value.Some?)
                        && (r.value.Some? ==> r.value.value == GetModuleByClass(moduleClass).value.value.owner)
    {
      match moduleClass
      case Null => Thrown(NullPointer("moduleClass is null!"))
      case NonNull(_) =>
        var found := GetModuleByClass(moduleClass).value;
        if found.Some? then Ok(Some(found.value.owner)) else Ok(None)
    }

    /** getOwner(Class) as intended. */
    function GetOwnerByClass(moduleClass: Nullable<ModuleClass>): (r: Result<Option<PluginContainer>>)
      ensures moduleClass.Null? <==> r == Thrown(NullPointer("moduleClass is null!"))
      ensures r.Ok? ==>
                (r.value.Some? <==> (GetModuleByClass(moduleClass).value.Some? && GetModuleByClass(moduleClass).value.value.owner.Some?))
                        && (r.value.Some? ==> Some(r.value.value) == GetModuleByClass(moduleClass).value.value.owner)
    {
      match moduleClass
      case Null => Thrown(NullPointer("moduleClass is null!"))
      case NonNull(_) =>
        var found := GetModuleByClass(moduleClass).value;
        if found.Some? then Ok(found.value.owner) else Ok(None)
    }
  }

  /** A module registered without a plugin: the literal reading of getOwner
      gives an owner that is present yet empty, a value the declared return
      type cannot hold; the intended answer is "no owner". */
  lemma OwnerlessModuleAsWritten(instance: Obj)
    ensures var t := ModuleTable(map["invite" := ModuleContainer("invite", "Invite", None, instance)]);
            t.GetOwnerByIdAsWritten(NonNull("invite")) == Ok(Some(None))
            && t.GetOwnerById(NonNull("invite")) == Ok(None)
  {
    var t := ModuleTable(map["invite" := ModuleContainer("invite", "Invite", None, instance)]);
    assert t.GetModule(NonNull("invite")) == Ok(Some(t.modules["invite"]));
  }

  /** For owned modules, and for ids without a module, the intended getOwner
      agrees with the one as written once its result is flattened. */
  lemma OwnerAgreesWhenOwned(t: ModuleTable, id: string)
    ensures var w := t.GetOwnerByIdAsWritten(NonNull(id)).value;
            var c := t.GetOwnerById(NonNull(id)).value;
            (w.None? ==> c.None?) && (w.Some? ==> c == w.value)
  {
  }

  datatype Outcome = Registered(container: ModuleContainer) | Disabled | ErrorLogged(message: string)

  /** The `module.<id>.enabled` flag of the root configuration; in 1.x a
      missing flag means disabled. */
  function Enabled(root: Node, id: string): bool {
    root.At(["module", id, "enabled"]).GetBoolean(false)
  }

  /** registerModule0(container, module): a class without @Module logs an error;
      an enabled one is stored, owned by the container when there is one. */
  function Register0(container: Option<PluginContainer>, moduleClass: ModuleClass, root: Node, instance: Obj)
    : (r: Outcome)
    ensures moduleClass.annotation.None? <==> r == ErrorLogged(moduleClass.name + " has no @Module annotation!")
    ensures r.Disabled? <==> moduleClass.annotation.Some? && !Enabled(root, moduleClass.annotation.value.id)
    ensures r.Registered? ==> moduleClass.annotation.Some? && Enabled(root, moduleClass.annotation.value.id)
                              && r.container == ModuleContainer(moduleClass.annotation.value.id,
                                                                moduleClass.annotation.value.name, container, instance)
  {
    match moduleClass.annotation
    case None => ErrorLogged(moduleClass.name + " has no @Module annotation!")
    case Some(a) =>
      if !Enabled(root, a.id) then Disabled
      else if container.Some? then Registered(OwnedOf(NonNull(a), NonNull(instance), NonNull(container.value)).value)
      else Registered(UnownedOf(NonNull(a), NonNull(instance)).value)
  }

  /** A configuration without the flag leaves every module unregistered. */
  lemma DisabledByDefault(container: Option<PluginContainer>, moduleClass: ModuleClass, root: Node, instance: Obj)
    requires moduleClass.annotation.Some?
    requires !root.At(["module", moduleClass.annotation.value.id, "enabled"]).Scalar?
    ensures Register0(container, moduleClass, root, instance) == Disabled
  {
  }

  const NO_CONTAINER: string := "Could not find container for the given plugin!"

  /** registerModule(Class): stored, if at all, without an owner. */
  function RegisterUnowned(moduleClass: Nullable<ModuleClass>, root: Node, instance: Obj): (r: Result<Outcome>)
    ensures moduleClass.Null? <==> r == Thrown(NullPointer("module is null!"))
    ensures r.Ok? && r.value.Registered? ==> r.value.container.owner == None
    ensures r.Ok? ==> r.value == Register0(None, moduleClass.value, root, instance)
  {
    match moduleClass
    case Null => Thrown(NullPointer("module is null!"))
    case NonNull(cls) => Ok(Register0(None, cls, root, instance))
  }

  /** registerModule(plugin, module): both null checks test `module`; a
      container argument owns the module itself; any other object is resolved
      through the plugin manager, and one without a container logs an error. */
  function Register(plugins: PluginTables, plugin: Nullable<PluginObject>, moduleClass: Nullable<ModuleClass>,
                    root: Node, instance: Obj): (r: Result<Outcome>)
    ensures moduleClass.Null? ==> r == Thrown(NullPointer("plugin is null!"))
    ensures moduleClass.NonNull? && plugin.Null? ==> r == Thrown(NullPointer("instance is null!"))
    ensures moduleClass.NonNull? && plugin.NonNull? && plugin.value.Container? ==>
              r == Ok(Register0(Some(plugin.value.container), moduleClass.value, root, instance))
    ensures moduleClass.NonNull? && plugin.NonNull? && plugin.value.Plain? ==>
              r == Ok(if plugin.value.obj in plugins.pluginInstances
                      then Register0(Some(plugins.pluginInstances[plugin.value.obj]), moduleClass.value, root, instance)
                      else ErrorLogged(NO_CONTAINER))
  {
    if moduleClass.Null? then Thrown(NullPointer("plugin is null!"))
    else if plugin.NonNull? && plugin.value.Container? then
      Ok(Register0(Some(plugin.value.container), moduleClass.value, root, instance))
    else
      match plugins.FromInstance(plugin)
      case Thrown(e) => Thrown(e)
      case Ok(None) => Ok(ErrorLogged(NO_CONTAINER))
      case Ok(Some(c)) => Ok(Register0(Some(c), moduleClass.value, root, instance))
  }

  /** The map after a registration: only a stored module changes it, and only
      at its own id. */
  function After(table: ModuleTable, r: Result<Outcome>): (t: ModuleTable)
    ensures r.Ok? && r.value.Registered? ==>
              t.GetModule(NonNull(r.value.container.id)) == Ok(Some(r.value.container))
    ensures forall k :: !(r.Ok? && r.value.Registered? && k == r.value.container.id) ==>
              t.GetModule(NonNull(k)) == table.GetModule(NonNull(k))
  {
    if r.Ok? && r.value.Registered? then ModuleTable(table.modules[r.value.container.id := r.value.container])
    else table
  }

  class CarbonModuleManager {
    var modules: map<string, ModuleContainer>

    function Table(): ModuleTable
      reads this
    {
      ModuleTable(modules)
    }

    constructor ()
      ensures modules == map[]
    {
      modules := map[];
    }

    /** registerModule(Class) */
    method RegisterModuleUnowned(moduleClass: Nullable<ModuleClass>, root: Node, instance: Obj)
      returns (r: Result<Outcome>)
      modifies this
      ensures r == RegisterUnowned(moduleClass, root, instance)
      ensures Table() == After(old(Table()), r)
    {
      if moduleClass.Null? {
        return Thrown(NullPointer("module is null!"));
      }
      var outcome := RegisterModule0(None, moduleClass.value, root, instance);
      r := Ok(outcome);
    }

    /** registerModule(plugin, module) */
    method RegisterModule(plugins: PluginTables, plugin: Nullable<PluginObject>, moduleClass: Nullable<ModuleClass>,
                          root: Node, instance: Obj) returns (r: Result<Outcome>)
      modifies this
      ensures r == Register(plugins, plugin, moduleClass, root, instance)
      ensures Table() == After(old(Table()), r)
    {
      if moduleClass.Null? {
        return Thrown(NullPointer("plugin is null!"));
      }
      if plugin.NonNull? && plugin.value.Container? {
        var outcome := RegisterModule0(Some(plugin.value.container), moduleClass.value, root, instance);
        return Ok(outcome);
      }
      var container := plugins.FromInstance(plugin);
      if container.Thrown? {
        return Thrown(container.error);
      }
      if container.value.Some? {
        var outcome := RegisterModule0(container.value, moduleClass.value, root, instance);
        r := Ok(outcome);
      } else {
        r := Ok(ErrorLogged(NO_CONTAINER));
      }
    }

    method RegisterModule0(container: Option<PluginContainer>, moduleClass: ModuleClass, root: Node, instance: Obj)
      returns (r: Outcome)
      modifies this
      ensures r == Register0(container, moduleClass, root, instance)
      ensures Table() == After(old(Table()), Ok(r))
    {
      if moduleClass.annotation.None? {
        return ErrorLogged(moduleClass.name + " has no @Module annotation!");
      }
      var annotation := moduleClass.annotation.value;
      if root.At(["module", annotation.id, "enabled"]).GetBoolean(false) {
        var registered;
        if container.Some? {
          registered := OwnedOf(NonNull(annotation), NonNull(instance), NonNull(container.value)).value;
        } else {
          registered := UnownedOf(NonNull(annotation), NonNull(instance)).value;
        }
        modules := modules[annotation.id := registered];
        r := Registered(registered);
      } else {
        r := Disabled;
      }
    }
  }
}
