/** Service providers and exception reporting in 1.x: CarbonServiceRegistry's
    providers map, the default queries of the 1.x ServiceRegistry interface and
    the 1.x ExceptionReporter. */
module LegacyServices {
  import opened Lang
  import opened LegacyPlugins
  import Services

  type Registration = Services.ProviderRegistration<PluginContainer>

  /** What the plugin manager's fromInstance gives for a non-null object. */
  function Resolve(plugins: PluginTables, p: PluginObject): (r: Option<PluginContainer>)
    ensures Ok(r) == plugins.FromInstance(NonNull(p))
  {
    match p
    case Container(c) => Some(c)
    case Plain(o) => Lookup(plugins.pluginInstances, o)
  }

  /** plugin.getClass().getName(), which is only asked for an object that
      fromInstance does not resolve.  A container always resolves to itself
      (see Resolve), so the container branch is never used; it gives the
      interface's name. */
  function ClassName(p: PluginObject): string {
    match p
    case Plain(o) => o.cls.name
    case Container(_) => "uk.jamierocks.mana.carbon.plugin.PluginContainer"
  }

  /** ExceptionReporter.FALLBACK in 1.x: a SimpleExceptionService. */
  const FALLBACK: Obj := Builtin(ClassRef("uk.jamierocks.mana.carbon.service.exception.SimpleExceptionService"))

  /** The message registerProvider reports a failed registration with. */
  const REGISTRATION_FAILED: string := "Failed to register provider!"

  class CarbonServiceRegistry {
    var providers: map<ClassRef, Registration>

    constructor ()
      ensures providers == map[]
    {
      providers := map[];
    }

    /** provideRegistration(service): a lookup that rejects null. */
    function ProvideRegistration(service: Nullable<ClassRef>): (r: Result<Option<Registration>>)
      reads this
      ensures service.Null? <==> r == Thrown(NullPointer("service is null!"))
      ensures service.NonNull? ==> r.Ok? && (r.value.Some? <==> service.value in providers)
                                   && (r.value.Some? ==> r.value.value == providers[service.value])
    {
      match service
      case Null => Thrown(NullPointer("service is null!"))
      case NonNull(s) => Ok(Lookup(providers, s))
    }

    /** provide(service) is present exactly when provideRegistration(service)
        is, and is then that registration's provider. */
    function Provide(service: Nullable<ClassRef>): (r: Result<Option<Obj>>)
      reads this
      ensures service.Null? <==> r == Thrown(NullPointer("service is null!"))
      ensures r.Ok? ==> ProvideRegistration(service).Ok?
                        && (r.value.Some? <==> ProvideRegistration(service).value.Some?)
                        && (r.value.Some? ==> r.value.value == ProvideRegistration(service).value.value.provider)
    {
      match service
      case Null => Thrown(NullPointer("service is null!"))
      case NonNull(s) =>
        var registration := ProvideRegistration(service).value;
        if registration.Some? then Ok(Some(registration.value.provider)) else Ok(None)
    }

    /** The 1.x ServiceRegistry default provideOrFallback(service, fallback). */
    function ProvideOrFallback(service: Nullable<ClassRef>, fallback: Obj): (r: Result<Obj>)
      reads this
      ensures service.Null? <==> r == Thrown(NullPointer("service is null!"))
      ensures r.Ok? && Provide(service).value.Some? ==> r.value == Provide(service).value.value
      ensures r.Ok? && Provide(service).value.None? ==> r.value == fallback
    {
      match Provide(service)
      case Thrown(e) => Thrown(e)
      case Ok(p) => if p.Some? then Ok(p.value) else Ok(fallback)
    }

    /** The 1.x ServiceRegistry default hasProvider(service). */
    function HasProvider(service: Nullable<ClassRef>): (r: Result<bool>)
      reads this
      ensures service.Null? <==> r == Thrown(NullPointer("service is null!"))
      ensures r.Ok? ==> (r.value <==> ProvideRegistration(service).value.Some?)
    {
      match ProvideRegistration(service)
      case Thrown(e) => Thrown(e)
      case Ok(reg) => Ok(reg.Some?)
    }

    /** registerProvider(plugin, service, provider).  Null arguments are rejected
        before anything changes.  A plugin that resolves to a container replaces
        whatever was registered for the service and nothing else; one that does
        not leaves the map as it was, and the failure is reported once instead
        of escaping. */
    method RegisterProvider(
      plugin: Nullable<PluginObject>, service: Nullable<ClassRef>, provider: Nullable<Obj>, plugins: PluginTables)
      returns (r: Result<()>, report: Option<Services.Report>)
      modifies this
      ensures plugin.Null? ==> r == Thrown(NullPointer("plugin is null!"))
      ensures plugin.NonNull? && service.Null? ==> r == Thrown(NullPointer("service is null!"))
      ensures plugin.NonNull? && service.NonNull? && provider.Null? ==> r == Thrown(NullPointer("provider is null!"))
      ensures r.Thrown? ==> providers == old(providers) && report.None?
      ensures plugin.NonNull? && service.NonNull? && provider.NonNull? ==> r == Ok(())
      ensures r.Ok? && Resolve(plugins, plugin.value).Some? ==>
                providers == old(providers)[service.value :=
                  Services.ProviderRegistration(service.value, provider.value, Resolve(plugins, plugin.value).value)]
                && report.None?
                && Provide(service) == Ok(Some(provider.value))
      ensures r.Ok? && Resolve(plugins, plugin.value).None? ==>
                providers == old(providers)
                && report == Some(Services.Report(
                     ReportSink(this), REGISTRATION_FAILED,
                     ProviderRegistrationException("PluginContainer not found for: " + ClassName(plugin.value))))
      ensures r.Ok? ==> forall s :: s != service.value ==>
                ProvideRegistration(NonNull(s)) == old(ProvideRegistration(NonNull(s)))
    {
      report := None;
      if plugin.Null? {
        return Thrown(NullPointer("plugin is null!")), None;
      }
      if service.Null? {
        return Thrown(NullPointer("service is null!")), None;
      }
      if provider.Null? {
        return Thrown(NullPointer("provider is null!")), None;
      }
      var registration := Services.Of(plugin, service, provider, p => Resolve(plugins, p), ClassName);
      match registration {
        case Ok(reg) =>
          providers := providers[service.value := reg];
        case Thrown(e) =>
          var sent := Report(this, NonNull(REGISTRATION_FAILED), e.cause);
          report := Some(sent.value);
      }
      r := Ok(());
    }
  }

  /** The service the 1.x reporter hands a report to: the registered
      ExceptionService, or FALLBACK when there is none. */
  function ReportSink(registry: CarbonServiceRegistry): (sink: Obj)
    reads registry
    ensures Services.EXCEPTION_SERVICE in registry.providers ==>
              sink == registry.providers[Services.EXCEPTION_SERVICE].provider
    ensures Services.EXCEPTION_SERVICE !in registry.providers ==> sink == FALLBACK
  {
    var service := registry.Provide(NonNull(Services.EXCEPTION_SERVICE)).value;
    if service.Some? then service.value else FALLBACK
  }

  /** ExceptionReporter.report(message, throwable) in 1.x: a null message is
      rejected; otherwise exactly one sink, the registered ExceptionService or
      else FALLBACK, receives the message and the throwable. */
  function Report(registry: CarbonServiceRegistry, message: Nullable<string>, throwable: Throwable)
    : (r: Result<Services.Report>)
    reads registry
    ensures message.Null? <==> r == Thrown(NullPointer("message is null!"))
    ensures r.Ok? ==> r.value == Services.Report(ReportSink(registry), message.value, throwable)
  {
    match message
    case Null => Thrown(NullPointer("message is null!"))
    case NonNull(m) => Ok(Services.Report(ReportSink(registry), m, throwable))
  }

  /** ExceptionReporter.report(throwable) in 1.x: the default message. */
  function ReportDefault(registry: CarbonServiceRegistry, throwable: Throwable): (r: Services.Report)
    reads registry
    ensures Report(registry, NonNull(Services.DEFAULT_MESSAGE), throwable) == Ok(r)
  {
    Report(registry, NonNull(Services.DEFAULT_MESSAGE), throwable).value
  }
}
