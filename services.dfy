/** Service providers and exception reporting as carbon-api (2.x) defines them:
    the ProviderRegistration record and its factory, the default queries of the
    ServiceRegistry interface, and the static ExceptionReporter that routes a
    report to the registered ExceptionService or to a built-in fallback. */
module Services {
  import opened Lang

  /** An immutable registration: the service type, its provider and the
      container of the plugin that registered it. */
  datatype ProviderRegistration<C> = ProviderRegistration(service: ClassRef, provider: Obj, plugin: C)

  /** ProviderRegistration.of(plugin, service, provider).  `resolve` is the
      plugin manager's fromInstance on a non-null object and `className` gives
      plugin.getClass().getName().  When the plugin does not resolve to a
      container, a ProviderRegistrationException naming its class is thrown. */
  function Of<P, C>(
    plugin: Nullable<P>, service: Nullable<ClassRef>, provider: Nullable<Obj>,
    resolve: P -> Option<C>, className: P -> string): (r: Result<ProviderRegistration<C>>)
    ensures plugin.Null? ==> r == Thrown(NullPointer("plugin is null!"))
    ensures plugin.NonNull? && service.Null? ==> r == Thrown(NullPointer("service is null!"))
    ensures plugin.NonNull? && service.NonNull? && provider.Null? ==> r == Thrown(NullPointer("provider is null!"))
    ensures plugin.NonNull? && service.NonNull? && provider.NonNull? ==>
              (r.Ok? <==> resolve(plugin.value).Some?)
              && (r.Ok? ==> r.value.service == service.value && r.value.provider == provider.value
                            && r.value.plugin == resolve(plugin.value).value)
              && (r.Thrown? ==> r.error == Escaped(ProviderRegistrationException(
                                   "PluginContainer not found for: " + className(plugin.value))))
  {
    if plugin.Null? then Thrown(NullPointer("plugin is null!"))
    else if service.Null? then Thrown(NullPointer("service is null!"))
    else if provider.Null? then Thrown(NullPointer("provider is null!"))
    else
      match resolve(plugin.value)
      case None =>
        Thrown(Escaped(ProviderRegistrationException("PluginContainer not found for: " + className(plugin.value))))
      case Some(c) => Ok(ProviderRegistration(service.value, provider.value, c))
  }

  /** What a ServiceRegistry holds: at most one registration per service type.
      `provide` is the provider of `provideRegistration`, as the 1.x
      CarbonServiceRegistry implements it. */
  datatype Registry<C> = Registry(registrations: map<ClassRef, ProviderRegistration<C>>)
  {
    function ProvideRegistration(service: ClassRef): (r: Option<ProviderRegistration<C>>)
      ensures r.Some? <==> service in registrations
      ensures r.Some? ==> r.value == registrations[service]
    {
      Lookup(registrations, service)
    }

    function Provide(service: ClassRef): (r: Option<Obj>)
      ensures r.Some? <==> ProvideRegistration(service).Some?
      ensures r.Some? ==> r.value == ProvideRegistration(service).value.provider
    {
      if service in registrations then Some(registrations[service].provider) else None
    }

    /** provideOrFallback(service, fallback): the provider when there is one,
        the fallback otherwise. */
    function ProvideOrFallback(service: ClassRef, fallback: Obj): (r: Obj)
      ensures Provide(service).Some? ==> r == Provide(service).value
      ensures Provide(service).None? ==> r == fallback
    {
      match Provide(service)
      case Some(p) => p
      case None => fallback
    }

    /** hasProvider(service) holds exactly when provideRegistration(service) is
        present. */
    function HasProvider(service: ClassRef): (b: bool)
      ensures b <==> ProvideRegistration(service).Some?
      ensures b <==> Provide(service).Some?
    {
      ProvideRegistration(service).Some?
    }
  }

  /** ExceptionService.class */
  const EXCEPTION_SERVICE: ClassRef := ClassRef("uk.jamierocks.mana.carbon.service.exception.ExceptionService")

  /** The message report(throwable) uses. */
  const DEFAULT_MESSAGE: string := "Carbon has experienced an error!"

  /** One call of ExceptionService.report(message, throwable) on `sink`. */
  datatype Report = Report(sink: Obj, message: string, throwable: Throwable)

  /** ExceptionReporter.FALLBACK in carbon-api: a FallbackExceptionService. */
  const FALLBACK: Obj := Builtin(ClassRef("uk.jamierocks.mana.carbon.service.exception.FallbackExceptionService"))

  /** ExceptionReporter.report(message, throwable): a null message is rejected
      before the registry is consulted; otherwise exactly one sink receives the
      message and the throwable, the registered ExceptionService if there is one
      and FALLBACK if there is none. */
  function ReportWith<C>(registry: Registry<C>, message: Nullable<string>, throwable: Throwable): (r: Result<Report>)
    ensures message.Null? <==> r == Thrown(NullPointer("message is null!"))
    ensures r.Ok? ==> r.value.message == message.value && r.value.throwable == throwable
    ensures r.Ok? && registry.HasProvider(EXCEPTION_SERVICE) ==>
              r.value.sink == registry.registrations[EXCEPTION_SERVICE].provider
    ensures r.Ok? && !registry.HasProvider(EXCEPTION_SERVICE) ==> r.value.sink == FALLBACK
  {
    match message
    case Null => Thrown(NullPointer("message is null!"))
    case NonNull(m) => Ok(Report(registry.ProvideOrFallback(EXCEPTION_SERVICE, FALLBACK), m, throwable))
  }

  /** ExceptionReporter.report(throwable): the same as reporting it with the
      default message. */
  function ReportDefault<C>(registry: Registry<C>, throwable: Throwable): (r: Report)
    ensures ReportWith(registry, NonNull(DEFAULT_MESSAGE), throwable) == Ok(r)
    ensures r.message == DEFAULT_MESSAGE && r.throwable == throwable
  {
    ReportWith(registry, NonNull(DEFAULT_MESSAGE), throwable).value
  }
}
