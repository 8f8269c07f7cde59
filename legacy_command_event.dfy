/** The 1.x CommandEvent: the same cancellable event, built without null checks,
    so a null message event surfaces only when it is used. */
module LegacyCommandEvents {
  import opened Lang
  import opened Intake
  import opened Events

  class CommandEvent {
    const messageEvent: Nullable<MessageEvent>
    const commandMapping: Nullable<CommandMapping>
    var cancelled: bool

    /** Any arguments, null included, are stored as given; a new event is not
        cancelled. */
    constructor (messageEvent: Nullable<MessageEvent>, commandMapping: Nullable<CommandMapping>)
      ensures this.messageEvent == messageEvent && this.commandMapping == commandMapping
      ensures !cancelled
    {
      this.messageEvent := messageEvent;
      this.commandMapping := commandMapping;
      cancelled := false;
    }

    function GetCommand(): Nullable<CommandMapping> {
      commandMapping
    }

    /** getChannel() dereferences the message event. */
    function GetChannel(): (r: Result<Obj>)
      ensures r.Ok? <==> messageEvent.NonNull?
      ensures r.Ok? ==> r.value == messageEvent.value.channel
      ensures r.Thrown? ==> r.error == NullDereference
    {
      if messageEvent.Null? then Thrown(NullDereference) else Ok(messageEvent.value.channel)
    }

    /** getUser() dereferences the message event. */
    function GetUser(): (r: Result<User>)
      ensures r.Ok? <==> messageEvent.NonNull?
      ensures r.Ok? ==> r.value == messageEvent.value.actor
      ensures r.Thrown? ==> r.error == NullDereference
    {
      if messageEvent.Null? then Thrown(NullDereference) else Ok(messageEvent.value.actor)
    }

    function IsCancelled(): bool
      reads this
    {
      cancelled
    }

    /** getCause() is Optional.of(messageEvent): the message event, and a
        NullPointerException when it is null. */
    function GetCause(): (r: Result<Option<MessageEvent>>)
      ensures r.Ok? <==> messageEvent.NonNull?
      ensures r.Ok? ==> r.value == Some(messageEvent.value)
      ensures r.Thrown? ==> r.error == NullDereference
    {
      if messageEvent.Null? then Thrown(NullDereference) else Ok(Some(messageEvent.value))
    }

    method SetCancelled(cancel: bool)
      modifies this
      ensures IsCancelled() == cancel
    {
      cancelled := cancel;
    }

    /** post(): the subscribers' setCancelled calls `writes` are applied in
        order and this same event is returned. */
    method Post(writes: seq<bool>) returns (e: CommandEvent)
      modifies this
      ensures e == this
      ensures IsCancelled() == Settled(old(IsCancelled()), writes)
    {
      var i := 0;
      while i < |writes|
        invariant 0 <= i <= |writes|
        invariant i == 0 ==> cancelled == old(cancelled)
        invariant i > 0 ==> cancelled == writes[i - 1]
      {
        SetCancelled(writes[i]);
        i := i + 1;
      }
      e := this;
    }
  }
}
