/** The 1.x CommandListener: the same bridge, with the prefix taken from the
    COMMAND_PREFIX constant the runtime sets at start-up, a usage reply without
    the prefix, and reports sent through the 1.x exception reporter. */
module LegacyCommandListener {
  import opened Lang
  import opened JavaStrings
  import opened Intake
  import opened Events
  import opened LegacyCommandEvents
  import LegacyServices
  import Services

  /** The catch clauses: the usage reply carries only the command's usage;
      CommandException and InvocationCommandException are both reported once
      through the 1.x reporter; an authorization failure is answered in the
      channel. */
  function EffectOf(event: MessageEvent, outcome: DispatchOutcome, registry: LegacyServices.CarbonServiceRegistry)
    : (r: Effect)
    reads registry
    ensures outcome.Completed? <==> r == Silent
    ensures outcome.UsageFailure? ==> r == SentMessage(event.actor, "Usage: " + outcome.usage)
    ensures r.SentMessage? ==> outcome.UsageFailure?
    ensures (outcome.CommandFailure? || outcome.InvocationFailure?) <==> r.Reported?
    ensures r.Reported? ==>
              r.report == Services.Report(LegacyServices.ReportSink(registry), FAILED + event.message, outcome.cause)
    ensures outcome.AuthorizationFailure? <==> r == SentReply(event.channel, event.actor.nick + NO_PERMISSION)
  {
    match outcome
    case Completed(_) => Silent
    case UsageFailure(usage) => SentMessage(event.actor, "Usage: " + usage)
    case CommandFailure(cause) => Reported(LegacyServices.Report(registry, NonNull(FAILED + event.message), cause).value)
    case InvocationFailure(cause) => Reported(LegacyServices.Report(registry, NonNull(FAILED + event.message), cause).value)
    case AuthorizationFailure => SentReply(event.channel, event.actor.nick + NO_PERMISSION)
  }

  /** onMessageRecieved as a whole; the parent list is the one-element list
      holding the remainder. */
  function Handle(event: MessageEvent, prefix: string, dispatcher: Dispatcher, writes: seq<bool>,
                  outcome: DispatchOutcome, registry: LegacyServices.CarbonServiceRegistry): (r: Result<Handling>)
    reads registry
    ensures !StartsWith(event.message, prefix) ==> r == Ok(Ignored)
    ensures r.Thrown? ==> r.error == ArrayIndexOutOfBounds(0)
                          && StartsWith(event.message, prefix) && Split(Remainder(event.message, prefix), ' ') == []
    ensures r.Ok? && !r.value.Ignored? ==>
              StartsWith(event.message, prefix)
              && var tokens := Split(Remainder(event.message, prefix), ' ');
                 |tokens| > 0 && dispatcher.Contains(tokens[0]) && r.value.mapping == dispatcher.Get(tokens[0]).value
    ensures (StartsWith(event.message, prefix) && |Split(Remainder(event.message, prefix), ' ')| > 0
             && dispatcher.Contains(Split(Remainder(event.message, prefix), ' ')[0])) ==> r.Ok? && !r.value.Ignored?
    ensures r.Ok? && !r.value.Ignored? ==> (r.value.Cancelled? <==> Settled(false, writes))
    ensures r.Ok? && r.value.Dispatched? ==>
              var command := Remainder(event.message, prefix);
              r.value.call == Call(command, LocalsOf(command, event), [command])
              && r.value.effect == EffectOf(event, outcome, registry)
  {
    if !StartsWith(event.message, prefix) then Ok(Ignored)
    else
      var command := Remainder(event.message, prefix);
      var tokens := Split(command, ' ');
      if |tokens| == 0 then Thrown(ArrayIndexOutOfBounds(0))
      else if !dispatcher.Contains(tokens[0]) then Ok(Ignored)
      else
        var mapping := dispatcher.Get(tokens[0]).value;
        if Settled(false, writes) then Ok(Cancelled(mapping))
        else Ok(Dispatched(mapping, Call(command, LocalsOf(command, event), [command]),
                           EffectOf(event, outcome, registry)))
  }

  /** As in 2.x, only a non-empty run of spaces after the prefix makes the
      handler fail. */
  lemma BlankRemainderFails(event: MessageEvent, prefix: string, dispatcher: Dispatcher, writes: seq<bool>,
                            outcome: DispatchOutcome, registry: LegacyServices.CarbonServiceRegistry)
    requires StartsWith(event.message, prefix)
    ensures var command := Remainder(event.message, prefix);
            Handle(event, prefix, dispatcher, writes, outcome, registry).Thrown?
            <==> (command != [] && forall i :: 0 <= i < |command| ==> command[i] == ' ')
  {
    SplitEmptyIff(Remainder(event.message, prefix), ' ');
  }

  /** onMessageRecieved(event) with `prefix` the value of COMMAND_PREFIX. */
  method OnMessageReceived(event: MessageEvent, prefix: string, dispatcher: Dispatcher, writes: seq<bool>,
                           outcome: DispatchOutcome, registry: LegacyServices.CarbonServiceRegistry)
    returns (r: Result<Handling>, posted: Option<CommandEvent>)
    ensures r == Handle(event, prefix, dispatcher, writes, outcome, registry)
    ensures posted.Some? <==> r.Ok? && !r.value.Ignored?
    ensures posted.Some? ==> fresh(posted.value) && posted.value.GetCommand() == NonNull(r.value.mapping)
                             && posted.value.GetCause() == Ok(Some(event))
                             && posted.value.IsCancelled() == r.value.Cancelled?
  {
    posted := None;
    if !StartsWith(event.message, prefix) {
      return Ok(Ignored), None;
    }
    var command := event.message[|prefix|..];
    var tokens := Split(command, ' ');
    if |tokens| == 0 {
      return Thrown(ArrayIndexOutOfBounds(0)), None;
    }
    if !dispatcher.Contains(tokens[0]) {
      return Ok(Ignored), None;
    }
    var mapping := dispatcher.Get(tokens[0]).value;
    var created := new CommandEvent(NonNull(event), NonNull(mapping));
    var commandEvent := created.Post(writes);
    posted := Some(commandEvent);
    if commandEvent.IsCancelled() {
      return Ok(Cancelled(mapping)), posted;
    }
    var namespace: map<ClassRef, Local> := map[];
    namespace := namespace[STRING := Text(command)];
    namespace := namespace[CHANNEL := ChannelLocal(event.channel)];
    namespace := namespace[USER := UserLocal(event.actor)];
    var effect := EffectOf(event, outcome, registry);
    r := Ok(Dispatched(mapping, Call(command, namespace, [command]), effect));
  }
}
