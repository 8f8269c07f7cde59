# Carbon extension runtime, modelled in Dafny

Carbon is an IRC bot framework written in Java. It has two generations:

- 1.x, in `src/`;
- 2.x, split into `carbon-api`, `carbon-impl`, `carbon-modules` and `carbon-bootstrap`.

This project models the bookkeeping at the core of both generations and proves properties of it. Modules for 1.x code are prefixed `Legacy`, where 1.x behaves differently from 2.x.

The model covers:

- **Services.** The service registry (service type to registration), its default queries, and the exception reporter that routes each report to the registered `ExceptionService` or to a built-in fallback. Modules: `Services`, `LegacyServices`.
- **Plugins and modules.** The plugin managers' tables (id, instance and container maps), the immutable container records and, in the module managers, the `module.<id>.enabled` gate. Modules: `Plugins`, `LegacyPlugins`, `Modules`, `LegacyModules`, `JarScan`.
- **Command bridge.** It handles a channel message through these steps: prefix test, remainder, first token by Java `split(" ")[0]`, known-command test, a posted cancellable `CommandEvent`, dispatch, and one reply or report per failure kind. Modules: `CommandListener`, `LegacyCommandListener`, `CommandEvents`, `LegacyCommandEvents`, `Events`, `Intake`.
- **Commands.** The `server/#channel` rule of the join and part commands, and the help command's listing. Modules: `ChannelArguments`, `JoinCommand`, `LegacyJoinCommand`, `PartCommand`, `HelpCommand`.
- **Utilities.** These cover:
  - Maven coordinates to repository paths;
  - lower-case hex encoding;
  - ETag de-quoting, where the entity tag is the quoted opaque-tag of section 2.3 of RFC 7232;
  - the checksum decision;
  - the subscriber-exception message;
  - `DescriptionBuilder` and the 1.x `Context` builder;
  - the prefix and networks read from `CarbonConfiguration`.

  Modules: `Dependencies`, `EventLogging`, `DescriptionBuilders`, `Contexts`, `CarbonConfig`, `ConfigTree`.

How the Java is represented:

- **Nulls and exceptions.** A Java reference that may be null is `Lang.Nullable`. `java.util.Optional` is `Lang.Option`. A call that can throw returns `Lang.Result`, whose `Thrown` case names the exception: a `NullPointerException` with its message, a null dereference, an index out of bounds with its index, or an Intake `InvalidUsageException`.
- **Strings.** `JavaStrings.Split` follows `String.split` for a one-character delimiter exactly. When the delimiter does not occur, it gives the whole string. Otherwise trailing empty strings are dropped, so `"".split(" ")` is `[""]` and `" ".split(" ")` is `[]`.
- **Mutable state.** Objects whose fields change in place are classes: the plugin, module and service managers, `CommandEvent`, `DescriptionBuilder` and the `Context` builder. The loader's `CarbonPluginContainer` is a class too, because the manager's maps key it by identity. Each state-changing method states its new state as a pure operation on a snapshot of its fields, and the queries and lemmas are stated on those snapshots.
- **Loops.** Loops stay loops: the plugin loader's scan, the help command's listing and `toHexString` over a byte array.
- **Outside code.** Everything the core hands to code outside it is a parameter:
  - the configuration tree (`ConfigTree.Node`);
  - the Intake dispatcher (its commands in some fixed order that Intake leaves unspecified, and the way a `call` ended);
  - the event bus (the sequence of `setCancelled` calls its subscribers make);
  - the objects Guice creates;
  - the IRC clients (the set of connected server ids).

## Model

| member | source | states |
|---|---|---|
| LegacyServices.CarbonServiceRegistry.RegisterProvider | src/main/java/uk/jamierocks/mana/carbon/CarbonServiceRegistry.java:47-57 | Null plugin, service and provider are rejected in that order, before any change. A resolvable plugin replaces the entry for the service, so `provide` then gives the new provider. An unresolvable plugin leaves the map unchanged and yields exactly one report, "Failed to register provider!", with a ProviderRegistrationException naming the plugin's class; nothing escapes. Every other service keeps its registration. |
| LegacyServices.CarbonServiceRegistry.Provide | src/main/java/uk/jamierocks/mana/carbon/CarbonServiceRegistry.java:63-71 | `provide` rejects null. It is present exactly when `provideRegistration` is, and is then that registration's provider. |
| LegacyServices.CarbonServiceRegistry.ProvideRegistration | src/main/java/uk/jamierocks/mana/carbon/CarbonServiceRegistry.java:77-80 | A read-only lookup that rejects null. It is present exactly when the service is in the map, and is then the stored registration. |
| LegacyServices.CarbonServiceRegistry.ProvideOrFallback | src/main/java/uk/jamierocks/mana/carbon/service/ServiceRegistry.java:58-64 | Returns the provider when `provide` is present and the fallback when it is empty. It reads the registry without changing it. |
| LegacyServices.CarbonServiceRegistry.HasProvider | src/main/java/uk/jamierocks/mana/carbon/service/ServiceRegistry.java:84-86 | True exactly when `provideRegistration` is present. |
| Services.Registry.ProvideOrFallback | carbon-api/src/main/java/uk/jamierocks/mana/carbon/service/ServiceRegistry.java:66-73 | The registered provider when `provide` is present, otherwise the fallback. |
| Services.Registry.HasProvider | carbon-api/src/main/java/uk/jamierocks/mana/carbon/service/ServiceRegistry.java:92-94 | True exactly when `provideRegistration` is present, and so exactly when `provide` is. |
| Services.Registry.Provide | carbon-api/src/main/java/uk/jamierocks/mana/carbon/service/ServiceRegistry.java:56 | Present exactly when `provideRegistration` is, and is then its provider. This is the 1.x implementation's rule, assumed for 2.x (see Left out). |
| Services.Of | carbon-api/src/main/java/uk/jamierocks/mana/carbon/service/ProviderRegistration.java:46-71 | Null plugin, service and provider are rejected in order. A plugin that `fromInstance` cannot resolve gives a ProviderRegistrationException naming its class. Otherwise the record holds exactly the given service and provider, and the container resolved at construction. |
| Services.ReportWith | carbon-api/src/main/java/uk/jamierocks/mana/carbon/service/exception/ExceptionReporter.java:56-60 | A null message is rejected before the registry is consulted. Otherwise one report carries the message and the throwable. It goes to the registered ExceptionService when there is one and to FALLBACK otherwise. |
| Services.ReportDefault | carbon-api/src/main/java/uk/jamierocks/mana/carbon/service/exception/ExceptionReporter.java:44-46 | `report(t)` is `report("Carbon has experienced an error!", t)`. |
| LegacyServices.ReportSink | src/main/java/uk/jamierocks/mana/carbon/service/exception/ExceptionReporter.java:69-75 | The sink is the registered ExceptionService's provider when one is registered, and the SimpleExceptionService FALLBACK otherwise. |
| LegacyServices.Report | src/main/java/uk/jamierocks/mana/carbon/service/exception/ExceptionReporter.java:66-76 | A null message is rejected. Otherwise exactly one report, to the one sink, carries the message and the throwable. |
| LegacyServices.ReportDefault | src/main/java/uk/jamierocks/mana/carbon/service/exception/ExceptionReporter.java:54-56 | The same as reporting with "Carbon has experienced an error!". |
| Plugins.PluginTables.FromInstance | carbon-impl/src/main/java/uk/jamierocks/mana/carbon/plugin/CarbonPluginManager.java:68-76 | Rejects null. A container is returned unchanged without consulting the maps. Another object resolves exactly when it was recorded, to its container. |
| Plugins.PluginTables.GetPlugin | carbon-impl/src/main/java/uk/jamierocks/mana/carbon/plugin/CarbonPluginManager.java:82-86 | Rejects null. Present exactly when the id is loaded, and is then its container. |
| Plugins.PluginTables.GetPlugins | carbon-impl/src/main/java/uk/jamierocks/mana/carbon/plugin/CarbonPluginManager.java:91-93 | Exactly the containers stored under some id. |
| Plugins.PluginTables.IsLoaded | carbon-impl/src/main/java/uk/jamierocks/mana/carbon/plugin/CarbonPluginManager.java:99-103 | Rejects null. True exactly when `getPlugin(id)` is present. |
| Plugins.PluginTables.GetInstance | carbon-impl/src/main/java/uk/jamierocks/mana/carbon/plugin/CarbonPluginManager.java:186-188 | Present exactly when that container was loaded, and is then its recorded instance. A loader-created container is a key only as itself: another container with the same descriptor and node is a different key. |
| Plugins.PluginTables.Load | carbon-impl/src/main/java/uk/jamierocks/mana/carbon/plugin/CarbonPluginManager.java:178-184 | Afterwards `getPlugin(c.getId())` is `c`, `isLoaded(c.getId())` holds, `fromInstance(o)` is `c` and `getInstance(c)` is `o`. Every other id and instance keeps its entry, and earlier instance entries remain. |
| Plugins.CarbonPluginManager.LoadPlugin | carbon-impl/src/main/java/uk/jamierocks/mana/carbon/plugin/CarbonPluginManager.java:178-184 | The three maps become those of `Load`. A CarbonPluginContainer of this manager then reports the instance. |
| Plugins.LoadAllAppend | carbon-impl/src/main/java/uk/jamierocks/mana/carbon/plugin/CarbonPluginManager.java:109-129 | Loading two lists one after the other is loading their concatenation. |
| Plugins.LoadAllIds | carbon-impl/src/main/java/uk/jamierocks/mana/carbon/plugin/CarbonPluginManager.java:181 | After a list of loads, an id is loaded exactly when it was loaded before or some load carries it. |
| Plugins.LoadAllLastWins | carbon-impl/src/main/java/uk/jamierocks/mana/carbon/plugin/CarbonPluginManager.java:181 | `getPlugin` returns the last container loaded under an id. |
| Plugins.SelectedInExactly | carbon-impl/src/main/java/uk/jamierocks/mana/carbon/plugin/CarbonPluginManager.java:119-121 | A candidate is loaded exactly when it has a config node; one without is skipped. |
| Plugins.CreatesAppend | carbon-impl/src/main/java/uk/jamierocks/mana/carbon/plugin/CarbonPluginManager.java:114-128 | The containers created for two runs of candidates, one after the other, are the containers created for the joined run. |
| Plugins.LoadAllOwnInstances | carbon-impl/src/main/java/uk/jamierocks/mana/carbon/plugin/CarbonPluginManager.java:184-188 | When the loaded containers are different objects, each one's `getInstance` after loading is the instance it was loaded with, even when several share an id. |
| Plugins.CarbonPluginManager.LoadJar | carbon-impl/src/main/java/uk/jamierocks/mana/carbon/plugin/CarbonPluginManager.java:117-127 | One jar's loop creates one new container per candidate with a config node, with that candidate's descriptor, node and instance. The new containers are distinct from each other and from every container created before, and the tables become those of loading them in order. |
| Plugins.CarbonPluginManager.LoadCandidate | carbon-impl/src/main/java/uk/jamierocks/mana/carbon/plugin/CarbonPluginManager.java:121-125 | A candidate with a config node gets a newly allocated container with this manager, its descriptor and its node. That container differs from every one created before, and the tables become those of loading it with the candidate's instance. |
| Plugins.CarbonPluginManager.LoadAllPlugins | carbon-impl/src/main/java/uk/jamierocks/mana/carbon/plugin/CarbonPluginManager.java:109-129 | The nested loop creates one new container for each candidate with a config node, jar after jar. Each container holds that candidate's descriptor and node, and no two are the same object. The tables become those of loading them in order, and every created container's `getInstance` is its own candidate's instance. |
| Plugins.PluginContainer.GetInstance | carbon-impl/src/main/java/uk/jamierocks/mana/carbon/plugin/CarbonPluginContainer.java:62-64 | A record's instance is always present. A loader-created container's instance is what its manager has recorded for that very object, and is empty before `loadPlugin`. |
| Plugins.PluginContainer.GetId | carbon-impl/src/main/java/uk/jamierocks/mana/carbon/plugin/CarbonPluginContainer.java:42-54 | The loader's container reports its descriptor's id, name and version; a record reports its own. |
| Plugins.Of | carbon-api/src/main/java/uk/jamierocks/mana/carbon/plugin/PluginContainer.java:61-93 | Each null argument is rejected in order. The record's getters return exactly the arguments, and its instance is always present. |
| Plugins.OfDescriptor | carbon-api/src/main/java/uk/jamierocks/mana/carbon/plugin/PluginContainer.java:42-48 | Null descriptor, node and instance are rejected. The record carries the descriptor's id, name and version. |
| LegacyPlugins.Of | src/main/java/uk/jamierocks/mana/carbon/plugin/PluginContainer.java:54-80 | Each null argument is rejected in order. The getters return the arguments, and the instance is held directly. |
| LegacyPlugins.OfDescriptor | src/main/java/uk/jamierocks/mana/carbon/plugin/PluginContainer.java:37-42 | Null descriptor and instance are rejected. The record copies the descriptor's id, name and version. |
| LegacyPlugins.PluginTables.FromInstance | src/main/java/uk/jamierocks/mana/carbon/CarbonPluginManager.java:69-77 | Rejects null. A container is returned directly. An unknown instance gives empty. |
| LegacyPlugins.PluginTables.GetPlugin | src/main/java/uk/jamierocks/mana/carbon/CarbonPluginManager.java:83-87 | Rejects null. Present exactly when the id is loaded. |
| LegacyPlugins.PluginTables.GetPlugins | src/main/java/uk/jamierocks/mana/carbon/CarbonPluginManager.java:92-94 | Exactly the stored containers. |
| LegacyPlugins.PluginTables.IsLoaded | src/main/java/uk/jamierocks/mana/carbon/CarbonPluginManager.java:100-104 | Rejects null. True exactly when `getPlugin(id)` is present. |
| LegacyPlugins.PluginTables.Load | src/main/java/uk/jamierocks/mana/carbon/CarbonPluginManager.java:173-178 | Afterwards `getPlugin`, `isLoaded` and `fromInstance(c.getInstance())` all give `c`. Other ids and instances are untouched. |
| LegacyPlugins.CarbonPluginManager.LoadPlugin | src/main/java/uk/jamierocks/mana/carbon/CarbonPluginManager.java:173-178 | The two maps become those of `Load`. |
| JarScan.ClassNameOf | carbon-impl/src/main/java/uk/jamierocks/mana/carbon/plugin/CarbonPluginManager.java:147-152 | Only a file entry ending in ".class" names a class. That name is the entry name with every '/' turned into '.' and with the suffix removed. |
| JarScan.EntryRoundTrip | src/main/java/uk/jamierocks/mana/carbon/CarbonPluginManager.java:143-148 | Scanning the entry a class is stored under gives back the class name. |
| Modules.ContainerOf | carbon-api/src/main/java/uk/jamierocks/mana/carbon/module/ModuleContainer.java:40-66 | Null module, instance and owner are rejected in order. The record's id and name are the descriptor's, and it keeps the owner and the instance. |
| Modules.ModuleTable.GetModule | carbon-impl/src/main/java/uk/jamierocks/mana/carbon/module/CarbonModuleManager.java:88-92 | Rejects null. Present exactly when the id is registered. |
| Modules.ModuleTable.GetModules | carbon-impl/src/main/java/uk/jamierocks/mana/carbon/module/CarbonModuleManager.java:97-99 | Exactly the registered modules. |
| Modules.ModuleTable.GetModuleByClass | carbon-api/src/main/java/uk/jamierocks/mana/carbon/module/ModuleManager.java:84-93 | Rejects null. With `@Module` it is `getModule(annotation.id())`; without, it is empty. |
| Modules.ModuleTable.GetOwnerById | carbon-api/src/main/java/uk/jamierocks/mana/carbon/module/ModuleManager.java:67-76 | Rejects null. The owner of `getModule(id)` when it is present, empty otherwise. |
| Modules.ModuleTable.GetOwnerByClass | carbon-api/src/main/java/uk/jamierocks/mana/carbon/module/ModuleManager.java:50-59 | Rejects null. The owner of `getModule(cls)` when it is present, empty otherwise. |
| Modules.EnabledDefault | carbon-impl/src/main/java/uk/jamierocks/mana/carbon/module/CarbonModuleManager.java:68 | A missing `module.<id>.enabled` flag enables the module; an explicit false disables it. |
| Modules.Register0 | carbon-impl/src/main/java/uk/jamierocks/mana/carbon/module/CarbonModuleManager.java:64-84 | A class without `@Module` logs one error. A disabled one is not stored. An enabled one is stored as a container with the descriptor's id and name, owned by the given container. |
| Modules.Register | carbon-impl/src/main/java/uk/jamierocks/mana/carbon/module/CarbonModuleManager.java:48-61 | Both null checks test `module`, so a null plugin fails inside `fromInstance`. A container argument is the owner itself. An unresolvable plugin object logs one error. |
| Modules.After | carbon-impl/src/main/java/uk/jamierocks/mana/carbon/module/CarbonModuleManager.java:75 | Only a stored module changes the map, and only at its own id, replacing what was there. |
| Modules.CarbonModuleManager.RegisterModule | carbon-impl/src/main/java/uk/jamierocks/mana/carbon/module/CarbonModuleManager.java:48-84 | Returns `Register`'s outcome and leaves the map as `After` says. |
| Modules.CarbonModuleManager.RegisterModule0 | carbon-impl/src/main/java/uk/jamierocks/mana/carbon/module/CarbonModuleManager.java:64-84 | Returns `Register0`'s outcome and leaves the map as `After` says. |
| LegacyModules.UnownedOf | src/main/java/uk/jamierocks/mana/carbon/module/ModuleContainer.java:43-68 | Null module and instance are rejected. The owner is empty; id, name and instance are the construction values. |
| LegacyModules.OwnedOf | src/main/java/uk/jamierocks/mana/carbon/module/ModuleContainer.java:79-105 | Null module, instance and owner are rejected. The owner is present and is the argument. |
| LegacyModules.ModuleTable.GetModule | src/main/java/uk/jamierocks/mana/carbon/CarbonModuleManager.java:108-112 | A pure lookup that rejects null. |
| LegacyModules.ModuleTable.GetModules | src/main/java/uk/jamierocks/mana/carbon/CarbonModuleManager.java:117-119 | Exactly the registered modules. |
| LegacyModules.ModuleTable.GetModuleByClass | src/main/java/uk/jamierocks/mana/carbon/module/ModuleManager.java:92-101 | Rejects null. It delegates to the annotation's id; an unannotated class gives empty. |
| LegacyModules.ModuleTable.GetOwnerByIdAsWritten | src/main/java/uk/jamierocks/mana/carbon/module/ModuleManager.java:75-84 | The literal reading of line 80, which javac rejects: the module's Optional owner wrapped in another Optional. It is present exactly when the module is. |
| LegacyModules.ModuleTable.GetOwnerById | src/main/java/uk/jamierocks/mana/carbon/module/ModuleManager.java:75-84 | Rejects null. Present exactly when the module is present and has an owner, and is then that owner. |
| LegacyModules.ModuleTable.GetOwnerByClassAsWritten | src/main/java/uk/jamierocks/mana/carbon/module/ModuleManager.java:58-67 | The literal reading of line 63, with the same double wrapping and type mismatch, through `getModule(cls)`. |
| LegacyModules.ModuleTable.GetOwnerByClass | src/main/java/uk/jamierocks/mana/carbon/module/ModuleManager.java:58-67 | Rejects null. The owner of `getModule(cls)` when there is one, empty otherwise. |
| LegacyModules.OwnerlessModuleAsWritten | src/main/java/uk/jamierocks/mana/carbon/module/ModuleManager.java:80 | For an owner-less module the literal reading gives a present Optional holding an empty one, which the declared type cannot hold. The corrected query gives empty. |
| LegacyModules.OwnerAgreesWhenOwned | src/main/java/uk/jamierocks/mana/carbon/module/ModuleManager.java:75-84 | The corrected query is the as-written answer flattened: empty where that is empty, and otherwise the owner Optional it holds. |
| LegacyModules.Register0 | src/main/java/uk/jamierocks/mana/carbon/CarbonModuleManager.java:77-103 | A missing `@Module` logs an error. A disabled module is not stored. An enabled one is stored with the given owner, or none. |
| LegacyModules.DisabledByDefault | src/main/java/uk/jamierocks/mana/carbon/CarbonModuleManager.java:81-82 | In 1.x an absent `module.<id>.enabled` flag means the module is not stored. |
| LegacyModules.RegisterUnowned | src/main/java/uk/jamierocks/mana/carbon/CarbonModuleManager.java:52-56 | `registerModule(Class)` rejects null and stores a module with no owner. |
| LegacyModules.Register | src/main/java/uk/jamierocks/mana/carbon/CarbonModuleManager.java:61-74 | A resolved container becomes the owner. An unresolvable plugin logs an error and stores nothing. |
| LegacyModules.After | src/main/java/uk/jamierocks/mana/carbon/CarbonModuleManager.java:91-93 | Last write wins at the stored id; other ids are unchanged. |
| LegacyModules.CarbonModuleManager.RegisterModuleUnowned | src/main/java/uk/jamierocks/mana/carbon/CarbonModuleManager.java:52-56 | Returns `RegisterUnowned`'s outcome and leaves the map as `After` says. |
| LegacyModules.CarbonModuleManager.RegisterModule | src/main/java/uk/jamierocks/mana/carbon/CarbonModuleManager.java:61-74 | Returns `Register`'s outcome and leaves the map as `After` says. |
| LegacyModules.CarbonModuleManager.RegisterModule0 | src/main/java/uk/jamierocks/mana/carbon/CarbonModuleManager.java:77-103 | Returns `Register0`'s outcome and leaves the map as `After` says. |
| Events.Settled | carbon-api/src/main/java/uk/jamierocks/mana/carbon/event/command/CommandEvent.java:96-98 | The flag after a sequence of `setCancelled` calls is the last value written, or the initial value when there were none. |
| Events.SettledAppend | carbon-api/src/main/java/uk/jamierocks/mana/carbon/event/command/CommandEvent.java:96-98 | Writes in two batches settle the same as all writes at once. |
| CommandEvents.Create | carbon-api/src/main/java/uk/jamierocks/mana/carbon/event/command/CommandEvent.java:49-53 | A null message event or mapping is rejected in that order. A new event is not cancelled. |
| CommandEvents.CommandEvent.SetCancelled | carbon-api/src/main/java/uk/jamierocks/mana/carbon/event/command/CommandEvent.java:96-98 | `isCancelled()` becomes the written value. The mapping and the cause cannot change. |
| CommandEvents.CommandEvent.Post | carbon-api/src/main/java/uk/jamierocks/mana/carbon/event/command/CommandEvent.java:112-115 | Returns the same event, whose flag is the last value any subscriber wrote. |
| LegacyCommandEvents.CommandEvent.constructor | src/main/java/uk/jamierocks/mana/carbon/event/command/CommandEvent.java:55-58 | Any arguments, null included, are stored as given, and the flag starts false. |
| LegacyCommandEvents.CommandEvent.GetCause | src/main/java/uk/jamierocks/mana/carbon/event/command/CommandEvent.java:110-112 | The cause is the message event; `Optional.of` on a null one throws. |
| LegacyCommandEvents.CommandEvent.GetChannel | src/main/java/uk/jamierocks/mana/carbon/event/command/CommandEvent.java:76-78 | The message event's channel; a null message event is dereferenced. |
| LegacyCommandEvents.CommandEvent.SetCancelled | src/main/java/uk/jamierocks/mana/carbon/event/command/CommandEvent.java:94-104 | `setCancelled` and `isCancelled` round-trip. |
| LegacyCommandEvents.CommandEvent.Post | src/main/java/uk/jamierocks/mana/carbon/event/command/CommandEvent.java:118-121 | Returns `this`, with the last written flag. |
| Intake.Dispatcher.Get | carbon-impl/src/main/java/uk/jamierocks/mana/carbon/irc/listener/CommandListener.java:51-56 | `get(alias)` is present exactly when `contains(alias)` holds, and is then a registered mapping answering to that alias. |
| CommandListener.EffectOf | carbon-impl/src/main/java/uk/jamierocks/mana/carbon/irc/listener/CommandListener.java:63-72 | A usage failure sends one message, "Usage: " + prefix + usage, and no report. A command or invocation failure is reported once with "Failed to execute command: " + message. An authorization failure replies with nick + ": You do not have permission to do that!". Success does nothing. |
| CommandListener.Handle | carbon-impl/src/main/java/uk/jamierocks/mana/carbon/irc/listener/CommandListener.java:43-76 | Without the prefix, or with an unknown first token, nothing happens. Otherwise the event carries the mapping of the first token. A cancelled event is not dispatched. The dispatcher gets the whole remainder, with locals String, Channel and User and parents `[remainder]`. The only exception is the index failure at line 51. |
| CommandListener.BlankRemainderFails | carbon-impl/src/main/java/uk/jamierocks/mana/carbon/irc/listener/CommandListener.java:51 | A prefixed message fails exactly when its remainder is a non-empty run of spaces. |
| CommandListener.DispatchedNamesFirstWord | carbon-impl/src/main/java/uk/jamierocks/mana/carbon/irc/listener/CommandListener.java:51-56 | The mapping posted is the one answering to the text up to the first space. |
| CommandListener.OnMessageReceived | carbon-impl/src/main/java/uk/jamierocks/mana/carbon/irc/listener/CommandListener.java:43-76 | Gives `Handle`'s result. Exactly one fresh event is posted when the message names a command. It carries that mapping and the message as cause, and is cancelled exactly when the subscribers left it so. |
| LegacyCommandListener.EffectOf | src/main/java/uk/jamierocks/mana/carbon/util/command/CommandListener.java:63-72 | The usage reply is "Usage: " + usage, without the prefix. Command and invocation failures are reported through the 1.x reporter. Authorization failure gets the permission reply. |
| LegacyCommandListener.Handle | src/main/java/uk/jamierocks/mana/carbon/util/command/CommandListener.java:45-76 | The same state machine with the COMMAND_PREFIX constant and the one-element parent list `[remainder]`. |
| LegacyCommandListener.BlankRemainderFails | src/main/java/uk/jamierocks/mana/carbon/util/command/CommandListener.java:51 | The index fails exactly on a remainder that is a non-empty run of spaces. |
| LegacyCommandListener.OnMessageReceived | src/main/java/uk/jamierocks/mana/carbon/util/command/CommandListener.java:45-76 | One event per recognised command; a cancelled one is not dispatched. |
| JavaStrings.SplitEmptyIff | carbon-impl/src/main/java/uk/jamierocks/mana/carbon/irc/listener/CommandListener.java:51 | `split` gives no parts exactly when the input is a non-empty run of the delimiter. |
| JavaStrings.SplitRejoin | carbon-modules/src/main/java/uk/jamierocks/mana/carbon/modules/invite/command/JoinCommand.java:52 | Joining the parts of a split gives back the input, up to the trailing delimiters split drops. |
| ChannelArguments.ValidFormatIff | carbon-modules/src/main/java/uk/jamierocks/mana/carbon/modules/invite/command/JoinCommand.java:52-56 | Arguments pass the two-part test exactly when they are a non-empty server without '/', then '/', then a non-empty channel without '/', then any number of '/'. |
| ChannelArguments.TwoPartsIff | src/main/java/uk/jamierocks/mana/carbon/util/extra/command/PartCommand.java:60-63 | `split` gives exactly `[x, y]` when the input is x, the delimiter, y and trailing delimiters, and only then. |
| ChannelArguments.IsAdministrator | carbon-modules/src/main/java/uk/jamierocks/mana/carbon/modules/invite/command/JoinCommand.java:83-85 | Permission holds exactly when the user's account name is among the administrators; the 1.x part command (PartCommand.java:92-94) applies the same test. |
| JoinCommand.CallAsWritten | carbon-modules/src/main/java/uk/jamierocks/mana/carbon/modules/invite/command/JoinCommand.java:50-69 | A null argument string is dereferenced. A malformed one is a usage error. A valid one naming a known server adds the channel and returns true; one naming an unknown server returns false and does nothing. |
| JoinCommand.Call | carbon-modules/src/main/java/uk/jamierocks/mana/carbon/modules/invite/command/JoinCommand.java:50-69 | With the intended guard, a usage error happens exactly when the argument is missing or malformed; otherwise as above. |
| JoinCommand.NullArgumentsAsWritten | carbon-modules/src/main/java/uk/jamierocks/mana/carbon/modules/invite/command/JoinCommand.java:51 | A null argument fails with a null dereference as written, and with a usage error as intended. |
| JoinCommand.AgreeOnArguments | carbon-modules/src/main/java/uk/jamierocks/mana/carbon/modules/invite/command/JoinCommand.java:51-66 | On every non-null argument the two guards agree, because "" already fails the length check. |
| LegacyJoinCommand.Call | src/main/java/uk/jamierocks/mana/carbon/util/extra/command/JoinCommand.java:61-71 | The first '/' part selects the server and the second the channel; further parts are ignored. A known server gets the channel and true; an unknown one gives false. Null, an empty split and a lone known server fail with the exception Java throws. |
| LegacyJoinCommand.ServerAloneFails | src/main/java/uk/jamierocks/mana/carbon/util/extra/command/JoinCommand.java:63-66 | A known server with no '/' indexes past the split, at index 1. |
| LegacyJoinCommand.OnlySlashesFail | src/main/java/uk/jamierocks/mana/carbon/util/extra/command/JoinCommand.java:63-65 | Arguments made only of '/' fail at index 0. |
| LegacyJoinCommand.TestPermission | src/main/java/uk/jamierocks/mana/carbon/util/extra/command/JoinCommand.java:85-94 | Permission is membership of `irc.admins`; when that node cannot be mapped to a list of strings, permission is refused. |
| PartCommand.Call | src/main/java/uk/jamierocks/mana/carbon/util/extra/command/PartCommand.java:55-75 | Null or "" parts the current channel and returns false. A valid pair naming a known server removes that channel and is the only case returning true. A valid pair naming an unknown server does nothing. Any other argument sends exactly one "INVALID FORMAT! USE server/#channel". |
| PartCommand.GetDescription | src/main/java/uk/jamierocks/mana/carbon/util/extra/command/PartCommand.java:81-86 | The usage is the command prefix followed by "part [server/#channel]". |
| HelpCommand.PermittedExactly | carbon-modules/src/main/java/uk/jamierocks/mana/carbon/modules/help/command/HelpCommand.java:76-82 | A mapping is listed exactly when it is registered and the sender may use it. |
| HelpCommand.AllPermitted | carbon-modules/src/main/java/uk/jamierocks/mana/carbon/modules/help/command/HelpCommand.java:76-82 | When every mapping is permitted, all are listed, in dispatcher order. |
| HelpCommand.Listing | carbon-modules/src/main/java/uk/jamierocks/mana/carbon/modules/help/command/HelpCommand.java:73-85 | The loop builds "Commands: " followed by "alias (help) " for each permitted mapping in dispatcher order. |
| HelpCommand.Call | carbon-modules/src/main/java/uk/jamierocks/mana/carbon/modules/help/command/HelpCommand.java:49-89 | Exactly one message goes to the sender, and true is returned. Without an argument it is the listing. For a known and permitted command it is "Command: alias (help) Usage: usage". A known but unpermitted command gets the no-permission reply, and an unknown one "Command not found!". The command offers no suggestions (lines 111-113, `HelpCommand.GetSuggestions`). |
| HelpCommand.EntriesContain | carbon-modules/src/main/java/uk/jamierocks/mana/carbon/modules/help/command/HelpCommand.java:76-82 | The "alias (help) " entry of every listed mapping appears in the listing text. |
| HelpCommand.HelpListed | carbon-modules/src/main/java/uk/jamierocks/mana/carbon/modules/help/command/HelpCommand.java:103-105 | The help command's own permission test passes for every caller, so once registered, help is listed and its entry appears in the listing text. |
| Dependencies.Of | carbon-bootstrap/src/main/java/uk/jamierocks/mana/carbon/bootstrap/dependency/Dependency.java:33-46 | Fails, at the first missing index, exactly when `split(":")` has fewer than three parts. |
| Dependencies.OfCoordinate | carbon-bootstrap/src/main/java/uk/jamierocks/mana/carbon/bootstrap/dependency/Dependency.java:33-46 | For "g:a:v" the base path is g with '.' turned into '/', then "/a/v/a-v". Only the group is rewritten. |
| Dependencies.EmptyVersionFails | carbon-bootstrap/src/main/java/uk/jamierocks/mana/carbon/bootstrap/dependency/Dependency.java:34-37 | "g:a:" loses its empty version to split and fails at index 2. |
| Dependencies.CoordinateFiles | carbon-bootstrap/src/main/java/uk/jamierocks/mana/carbon/bootstrap/dependency/Dependency.java:64-66 | For "g:a:v" the jar path is the base path of `OfCoordinate` followed by ".jar", and the checksum file is that path followed by ".md5". |
| Dependencies.Dependency.GetJarMd5Path | carbon-bootstrap/src/main/java/uk/jamierocks/mana/carbon/bootstrap/dependency/Dependency.java:74-76 | The jar path followed by ".md5". |
| Dependencies.Hex | carbon-bootstrap/src/main/java/uk/jamierocks/mana/carbon/bootstrap/dependency/DependencyManager.java:112-120 | Twice as long as the input. Byte j gives positions 2j and 2j+1: the high then the low nibble of `b & 0xFF`. |
| Dependencies.ToHexString | carbon-bootstrap/src/main/java/uk/jamierocks/mana/carbon/bootstrap/dependency/DependencyManager.java:112-120 | The loop over the byte array fills the char array with `Hex` of its bytes. |
| Dependencies.HexAlphabet | carbon-bootstrap/src/main/java/uk/jamierocks/mana/carbon/bootstrap/dependency/DependencyManager.java:116-117 | Every output character is one of the sixteen digits of the lower-case hex table "0123456789abcdef". |
| Dependencies.NegativeByteHighDigit | carbon-bootstrap/src/main/java/uk/jamierocks/mana/carbon/bootstrap/dependency/DependencyManager.java:115-116 | A negative byte's first digit is 8 to f. |
| Dependencies.GetETag | carbon-bootstrap/src/main/java/uk/jamierocks/mana/carbon/bootstrap/dependency/DependencyManager.java:99-110 | A null or empty header gives "". Only a lone `"` fails, out of range. |
| Dependencies.ETagUnquotes | carbon-bootstrap/src/main/java/uk/jamierocks/mana/carbon/bootstrap/dependency/DependencyManager.java:105-107 | Exactly one surrounding pair of quotes is stripped. |
| Dependencies.ETagUnquotedUnchanged | carbon-bootstrap/src/main/java/uk/jamierocks/mana/carbon/bootstrap/dependency/DependencyManager.java:105-109 | A header not both starting and ending with a quote is returned unchanged. |
| Dependencies.VerifyChecksum | carbon-bootstrap/src/main/java/uk/jamierocks/mana/carbon/bootstrap/dependency/DependencyManager.java:85-94 | The digest is compared only when the ETag is non-empty and does not start with "{SHA1{". A mismatch is an error naming both values. |
| Dependencies.QuotedDigestVerifies | carbon-bootstrap/src/main/java/uk/jamierocks/mana/carbon/bootstrap/dependency/DependencyManager.java:85-110 | A server that quotes the hex digest of the download passes the check. |
| DescriptionBuilders.DescriptionBuilder.constructor | carbon-api/src/main/java/uk/jamierocks/mana/carbon/util/intake/DescriptionBuilder.java:41-54 | A fresh builder has empty strings and empty lists. |
| DescriptionBuilders.DescriptionBuilder.Help | carbon-api/src/main/java/uk/jamierocks/mana/carbon/util/intake/DescriptionBuilder.java:86-90 | Changes only the help and returns the same builder; the other four setters do the same for their own fields. |
| DescriptionBuilders.DescriptionBuilder.Build | carbon-api/src/main/java/uk/jamierocks/mana/carbon/util/intake/DescriptionBuilder.java:121-148 | A new description over this very builder, whose getters give the builder's fields. |
| DescriptionBuilders.BuiltDescription.Current | carbon-api/src/main/java/uk/jamierocks/mana/carbon/util/intake/DescriptionBuilder.java:123-146 | The getters return the builder's field values at the time they are asked. |
| DescriptionBuilders.HelpAfterBuild | src/main/java/uk/jamierocks/mana/carbon/util/intake/DescriptionBuilder.java:115-144 | A setter called after `build()` is seen through the description already built; the other fields keep their values. |
| DescriptionBuilders.HelpAndUsage | src/main/java/uk/jamierocks/mana/carbon/util/intake/DescriptionBuilder.java:35-107 | A builder chained with help and usage builds exactly those two, with the other fields empty. |
| Contexts.GetIn | src/main/java/uk/jamierocks/mana/carbon/util/context/Context.java:62-64 | Present exactly when the key was set to a non-null object, and is then that object. A key never set, or set to null, gives empty. |
| Contexts.ContextBuilder.Set | src/main/java/uk/jamierocks/mana/carbon/util/context/Context.java:53-56 | Returns the same builder. `get` of the key then gives the object, or empty for null. Every other key is unchanged. |
| Contexts.Context.Get | src/main/java/uk/jamierocks/mana/carbon/util/context/Context.java:59-66 | Reads the builder's map at the time it is asked. |
| Contexts.SetAfterBuild | src/main/java/uk/jamierocks/mana/carbon/util/context/Context.java:50-66 | Contexts built before and after a `set` both see it, since they share the builder's map. |
| EventLogging.Message | carbon-impl/src/main/java/uk/jamierocks/mana/carbon/util/event/ExceptionReporterEventLoggingHandler.java:34-40 | A subscriber method without parameters fails at index 0; one with parameters gives the message. |
| EventLogging.MessageDependsOnFirstParameter | carbon-impl/src/main/java/uk/jamierocks/mana/carbon/util/event/ExceptionReporterEventLoggingHandler.java:37 | Only the method name, the first parameter type, the subscriber and the event determine the message. |
| EventLogging.MessageStartsWithMethod | carbon-impl/src/main/java/uk/jamierocks/mana/carbon/util/event/ExceptionReporterEventLoggingHandler.java:35-37 | The message begins "Exception thrown by subscriber method " followed by the method name and "(". |
| EventLogging.MessageEndsWithEvent | carbon-impl/src/main/java/uk/jamierocks/mana/carbon/util/event/ExceptionReporterEventLoggingHandler.java:39 | The message ends with " when dispatching event: " followed by the event's text. |
| EventLogging.HandleException | carbon-impl/src/main/java/uk/jamierocks/mana/carbon/util/event/ExceptionReporterEventLoggingHandler.java:46-48 | One report carries the message and the original exception, routed as the reporter routes it. The only failure is the message's own. |
| CarbonConfig.PrefixOf | carbon-api/src/main/java/uk/jamierocks/mana/carbon/CarbonConfiguration.java:191-203 | The prefix is `commands.prefix`, or "." when it is absent. |
| CarbonConfig.NetworksNode | carbon-api/src/main/java/uk/jamierocks/mana/carbon/CarbonConfiguration.java:82 | The networks are read from the given node's own `networks` child. |
| CarbonConfig.NetworksOfAt | carbon-api/src/main/java/uk/jamierocks/mana/carbon/CarbonConfiguration.java:81-85 | One network per child, in child order. |
| CarbonConfig.Irc.GetNetworks | carbon-api/src/main/java/uk/jamierocks/mana/carbon/CarbonConfiguration.java:81-95 | The k-th network is read from the k-th child of `networks`. The list is a value, so a caller cannot change the configuration through it. |
| CarbonConfig.CarbonConfiguration.GetPrefix | carbon-api/src/main/java/uk/jamierocks/mana/carbon/CarbonConfiguration.java:201-203 | `getCommands().getPrefix()` is the prefix of the root node. |
| ConfigTree.Node.GetBoolean | carbon-impl/src/main/java/uk/jamierocks/mana/carbon/module/CarbonModuleManager.java:68 | A boolean value is read as stored; any other node gives the default. |

## Left out

- Event dispatch. Guava's EventBus is library code: `post` is modelled as the sequence of `setCancelled` calls its subscribers make, with no ordering or failure isolation.
- Jar scanning, class loading and Guice injection in `loadAllPlugins` and `findPlugins`. These are file I/O and reflection. Only the entry-name rule and the skip of a candidate without a config node are modelled; the instances Guice creates are parameters.
- The 1.x `loadAllPlugins`. Apart from the entry-name rule, it is the same I/O and reflection.
- Downloads. `checkDependency` and the I/O of `verifyDownload` (network, files, MD5 hashing) are left out. Only the decision after the digest is modelled: compare or skip, match or mismatch.
- IRC client wiring, Intake's dispatcher and the modules' registration glue. The dispatcher is a list of mappings: `contains` and `get` are modelled by exact alias match, and `call` is a parameter giving the outcome. Intake's alias case folding is not modelled.
- Logging. A logged error is the outcome `ErrorLogged`, and the "issued command" info line is not modelled.
- Concurrency. The IRC threads calling the listener are out of scope; each handler call is one sequential step.
- Configuration loading and conversion, bootstrap and `System.exit`, the reflection utilities and declaration-only files. These are glue over libraries.
- Container records are compared by their fields. The PluginContainer.of records (2.x `Record`, 1.x `PluginContainer`) are values, so two records with equal fields are one map key. Java's anonymous classes compare by identity. The loader's CarbonPluginContainer is a class here, so it keeps its identity.
- Services.Registry.Provide: in 2.x `provide` is abstract (ServiceRegistry.java:56), and the carbon-impl registry is not part of this model. The model assumes the 1.x rule (CarbonServiceRegistry.java:63-71): `provide` is the provider of `provideRegistration`. Services.ReportWith and Services.ReportDefault rely on it.
- LegacyServices.CarbonServiceRegistry.RegisterProvider: the 1.x ProviderRegistration factory is not part of this model. The 2.x `ProviderRegistration.of` (carbon-api ProviderRegistration.java:46-71), modelled as Services.Of, stands in for it: the same null checks, lookup and exception.
- ConfigTree.Node.GetBoolean, ConfigTree.Node.GetInt, ConfigTree.Node.GetString: configurate's conversions between value types are not modelled. A getter reads only a scalar of its own kind and otherwise returns the default. Two examples: a quoted "false" under `module.<id>.enabled` leaves a 2.x module enabled here, although configurate reads it as false. A quoted "true" leaves a 1.x module disabled.
- CommandListener.EffectOf: Intake's InvocationCommandException is taken to be a CommandException in 2.x, so it is reported. 1.x catches the two separately, with the same effect.
- DescriptionBuilders.DescriptionBuilder.Help: null arguments are not modelled. A null string or list is stored as given and only matters to callers that read it.
- The deprecated 1.x Slf4jEventLoggingHandler. It duplicates the message format and only writes to a logger.

## Findings

| source | as written | input that shows it | evidently intended | confidence | as-written member | corrected member |
|---|---|---|---|---|---|---|
| carbon-modules/src/main/java/uk/jamierocks/mana/carbon/modules/invite/command/JoinCommand.java:51 | the guard joins `arguments != null` and `!arguments.equals("")` with a logical or, so it holds for every non-null argument and calls `equals` on null | `call(null, ...)` throws NullPointerException | `&&`, so that a missing argument is an InvalidUsageException like the else-branch says | not executed | JoinCommand.NullArgumentsAsWritten | JoinCommand.Call |
| src/main/java/uk/jamierocks/mana/carbon/module/ModuleManager.java:80 | `getOwner(id)` returns `Optional.of(module.get().getOwner())`, and line 63 does the same in `getOwner(Class)`. `ModuleContainer.getOwner` already returns `Optional<PluginContainer>` (ModuleContainer.java:131), so the expression has type `Optional<Optional<PluginContainer>>` where `Optional<PluginContainer>` is declared. This is a type error: the file does not compile as written | any compilation of ModuleManager.java. Read literally, an owner-less module registered by `registerModule(Class)` would give a present Optional holding an empty one | the owner itself, empty when the module has none (`flatMap`) | not executed | LegacyModules.OwnerlessModuleAsWritten | LegacyModules.ModuleTable.GetOwnerById |
