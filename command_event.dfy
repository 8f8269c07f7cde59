/** carbon-api's CommandEvent: a cancellable event posted for every recognised
    command, holding the message event that caused it and the command's mapping. */
module CommandEvents {
  import opened Lang
  import opened Intake
  import opened Events

  class CommandEvent {
    const messageEvent: MessageEvent
    const commandMapping: CommandMapping
    var cancelled: bool

    /** A new event is not cancelled. */
    constructor (messageEvent: MessageEvent, commandMapping: CommandMapping)
      ensures this.messageEvent == messageEvent && this.commandMapping == commandMapping
      ensures !cancelled
    {
      this.messageEvent := messageEvent;
      this.commandMapping := commandMapping;
      cancelled := false;
    }

    function GetCommand(): CommandMapping {
      commandMapping
    }

    function GetChannel(): Obj {
      messageEvent.channel
    }

    function GetUser(): User {
      messageEvent.actor
    }

    function IsCancelled(): bool
      reads this
    {
      cancelled
    }

    /** getCause() is the message event, always present. */
    function GetCause(): Option<MessageEvent> {
      Some(messageEvent)
    }

    /** setCancelled(cancel): the flag and nothing else. */
    method SetCancelled(cancel: bool)
      modifies this
      ensures IsCancelled() == cancel
    {
      cancelled := cancel;
    }

    /** post(): the event bus hands this event to its subscribers, whose
        setCancelled calls are `writes`, and the same event is returned, so a
        cancellation made by a subscriber is seen by the poster. */
    method Post(writes: seq<bool>) returns (e: CommandEvent)
      modifies this
      ensures e == this
      ensures IsCancelled() == Settled(old(IsCancelled()), writes)
    {
      var i := 0;
      while i < |writes|
        invariant 0 <= i <= |writes|
        invariant i == 0 ==> cancelled == old(cancelled)
        invariant i > 0 ==> cancelled == writes[i - 1]
      {
        SetCancelled(writes[i]);
        i := i + 1;
      }
      e := this;
    }
  }

  /** new CommandEvent(messageEvent, commandMapping): both arguments are checked
      for null, in order, before anything is built. */
  method Create(messageEvent: Nullable<MessageEvent>, commandMapping: Nullable<CommandMapping>)
    returns (r: Result<CommandEvent>)
    ensures r.Ok? <==> messageEvent.NonNull? && commandMapping.NonNull?
    ensures messageEvent.Null? ==> r == Thrown(NullPointer("messageEvent is null!"))
    ensures messageEvent.NonNull? && commandMapping.Null? ==> r == Thrown(NullPointer("commandMappings is null!"))
    ensures r.Ok? ==> fresh(r.value) && !r.value.IsCancelled()
                      && r.value.GetCause() == Some(messageEvent.value)
                      && r.value.GetCommand() == commandMapping.value
  {
    if messageEvent.Null? {
      return Thrown(NullPointer("messageEvent is null!"));
    }
    if commandMapping.Null? {
      return Thrown(NullPointer("commandMappings is null!"));
    }
    var e := new CommandEvent(messageEvent.value, commandMapping.value);
    r := Ok(e);
  }
}
