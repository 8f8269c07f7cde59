/** carbon-impl's CommandListener: the bridge from a channel message to the
    command dispatcher.  The prefix is the configured command prefix, the
    subscribers' reaction to the posted CommandEvent is the sequence of their
    setCancelled calls, and the dispatcher's call is given by the way it ends. */
module CommandListener {
  import opened Lang
  import opened JavaStrings
  import opened Intake
  import opened Events
  import opened CommandEvents
  import Services

  /** The catch clauses around the dispatch.  A usage failure is caught before
      the general command failure, so it is answered privately and not reported;
      any other command failure is reported once with the whole message; an
      authorization failure is answered in the channel. */
  function EffectOf<C>(event: MessageEvent, prefix: string, outcome: DispatchOutcome, registry: Services.Registry<C>)
    : (r: Effect)
    ensures outcome.Completed? <==> r == Silent
    ensures outcome.UsageFailure? ==> r == SentMessage(event.actor, "Usage: " + prefix + outcome.usage)
    ensures r.SentMessage? ==> outcome.UsageFailure?
    ensures (outcome.CommandFailure? || outcome.InvocationFailure?) <==> r.Reported?
    ensures r.Reported? ==> r.report.message == FAILED + event.message && r.report.throwable == outcome.cause
                            && r.report == Services.ReportWith(registry, NonNull(FAILED + event.message), outcome.cause).value
    ensures outcome.AuthorizationFailure? <==> r == SentReply(event.channel, event.actor.nick + NO_PERMISSION)
  {
    match outcome
    case Completed(_) => Silent
    case UsageFailure(usage) => SentMessage(event.actor, "Usage: " + prefix + usage)
    case CommandFailure(cause) => Reported(Services.ReportWith(registry, NonNull(FAILED + event.message), cause).value)
    case InvocationFailure(cause) => Reported(Services.ReportWith(registry, NonNull(FAILED + event.message), cause).value)
    case AuthorizationFailure => SentReply(event.channel, event.actor.nick + NO_PERMISSION)
  }

  /** onMessageRecieved as a whole. */
  function Handle<C>(event: MessageEvent, prefix: string, dispatcher: Dispatcher, writes: seq<bool>,
                     outcome: DispatchOutcome, registry: Services.Registry<C>): (r: Result<Handling>)
    ensures !StartsWith(event.message, prefix) ==> r == Ok(Ignored)
    ensures r.Thrown? ==> r.error == ArrayIndexOutOfBounds(0)
                          && StartsWith(event.message, prefix) && Split(Remainder(event.message, prefix), ' ') == []
    ensures r.Ok? && !r.value.Ignored? ==>
              StartsWith(event.message, prefix)
              && var tokens := Split(Remainder(event.message, prefix), ' ');
                 |tokens| > 0 && dispatcher.Contains(tokens[0]) && r.value.mapping == dispatcher.Get(tokens[0]).value
    ensures (StartsWith(event.message, prefix) && |Split(Remainder(event.message, prefix), ' ')| > 0
             && dispatcher.Contains(Split(Remainder(event.message, prefix), ' ')[0])) ==> r.Ok? && !r.value.Ignored?
    ensures r.Ok? && !r.value.Ignored? ==> (r.value.Cancelled? <==> Settled(false, writes))
    ensures r.Ok? && r.value.Dispatched? ==>
              var command := Remainder(event.message, prefix);
              r.value.call == Call(command, LocalsOf(command, event), [command])
              && r.value.effect == EffectOf(event, prefix, outcome, registry)
  {
    if !StartsWith(event.message, prefix) then Ok(Ignored)
    else
      var command := Remainder(event.message, prefix);
      var tokens := Split(command, ' ');
      if |tokens| == 0 then Thrown(ArrayIndexOutOfBounds(0))
      else if !dispatcher.Contains(tokens[0]) then Ok(Ignored)
      else
        var mapping := dispatcher.Get(tokens[0]).value;
        if Settled(false, writes) then Ok(Cancelled(mapping))
        else Ok(Dispatched(mapping, Call(command, LocalsOf(command, event), [command]),
                           EffectOf(event, prefix, outcome, registry)))
  }

  /** The handler fails exactly on a prefixed message whose remainder is a
      non-empty run of spaces: split(" ") is then empty and index 0 does not
      exist. */
  lemma BlankRemainderFails<C>(event: MessageEvent, prefix: string, dispatcher: Dispatcher, writes: seq<bool>,
                               outcome: DispatchOutcome, registry: Services.Registry<C>)
    requires StartsWith(event.message, prefix)
    ensures var command := Remainder(event.message, prefix);
            Handle(event, prefix, dispatcher, writes, outcome, registry).Thrown?
            <==> (command != [] && forall i :: 0 <= i < |command| ==> command[i] == ' ')
  {
    SplitEmptyIff(Remainder(event.message, prefix), ' ');
  }

  /** The dispatched command is the one named by the text up to the first space. */
  lemma DispatchedNamesFirstWord<C>(event: MessageEvent, prefix: string, dispatcher: Dispatcher, writes: seq<bool>,
                                    outcome: DispatchOutcome, registry: Services.Registry<C>)
    requires Handle(event, prefix, dispatcher, writes, outcome, registry).Ok?
    requires !Handle(event, prefix, dispatcher, writes, outcome, registry).value.Ignored?
    ensures var command := Remainder(event.message, prefix);
            exists n :: 0 <= n <= |command| && ' ' !in command[..n] && (n == |command| || command[n] == ' ')
                        && command[..n] in Handle(event, prefix, dispatcher, writes, outcome, registry).value.mapping.aliases
  {
    var command := Remainder(event.message, prefix);
    SplitFirst(command, ' ');
    var n := |Split(command, ' ')[0]|;
    assert command[..n] == Split(command, ' ')[0];
  }

  /** onMessageRecieved(event).  Exactly one CommandEvent is created and posted
      for a recognised command, carrying its mapping; the call and its effect are
      those of Handle. */
  method OnMessageReceived<C>(event: MessageEvent, prefix: string, dispatcher: Dispatcher, writes: seq<bool>,
                              outcome: DispatchOutcome, registry: Services.Registry<C>)
    returns (r: Result<Handling>, posted: Option<CommandEvent>)
    ensures r == Handle(event, prefix, dispatcher, writes, outcome, registry)
    ensures posted.Some? <==> r.Ok? && !r.value.Ignored?
    ensures posted.Some? ==> fresh(posted.value) && posted.value.GetCommand() == r.value.mapping
                             && posted.value.GetCause() == Some(event)
                             && posted.value.IsCancelled() == r.value.Cancelled?
  {
    posted := None;
    if !StartsWith(event.message, prefix) {
      return Ok(Ignored), None;
    }
    var command := event.message[|prefix|..];
    var tokens := Split(command, ' ');
    if |tokens| == 0 {
      return Thrown(ArrayIndexOutOfBounds(0)), None;
    }
    if !dispatcher.Contains(tokens[0]) {
      return Ok(Ignored), None;
    }
    var mapping := dispatcher.Get(tokens[0]).value;
    var created := new CommandEvent(event, mapping);
    var commandEvent := created.Post(writes);
    posted := Some(commandEvent);
    if commandEvent.IsCancelled() {
      return Ok(Cancelled(mapping)), posted;
    }
    var namespace: map<ClassRef, Local> := map[];
    namespace := namespace[STRING := Text(command)];
    namespace := namespace[CHANNEL := ChannelLocal(event.channel)];
    namespace := namespace[USER := UserLocal(event.actor)];
    var effect := EffectOf(event, prefix, outcome, registry);
    r := Ok(Dispatched(mapping, Call(command, namespace, [command]), effect));
  }
}
