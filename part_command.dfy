/** The 1.x part command: with no arguments it leaves the current channel;
    with `server/#channel` it asks that server's client to leave the channel. */
module PartCommand {
  import opened Lang
  import opened Intake
  import opened JavaStrings
  import opened ChannelArguments

  const INVALID_FORMAT: string := "INVALID FORMAT! USE server/#channel"

  /** call(arguments, ...), with `current` the channel in the locals, `user`
      the sender and `clients` the ids of the connected servers.  Only a
      removal returns true. */
  function Call(arguments: Nullable<string>, current: Obj, user: User, clients: set<string>): (r: CallResult)
    ensures (arguments.Null? || arguments.value == "") ==> r == CallResult(false, PartChannel(current))
    ensures r.returned <==> arguments.NonNull? && ValidFormat(arguments.value)
                            && ChannelSplit(arguments.value)[0] in clients
    ensures r.returned ==> r.action == RemoveChannel(ChannelSplit(arguments.value)[0], ChannelSplit(arguments.value)[1])
    ensures r.action.MessageUser? <==> arguments.NonNull? && arguments.value != "" && !ValidFormat(arguments.value)
    ensures r.action.MessageUser? ==> r.action == MessageUser(user, INVALID_FORMAT)
    ensures (arguments.NonNull? && ValidFormat(arguments.value) && ChannelSplit(arguments.value)[0] !in clients)
            ==> r == CallResult(false, NoAction)
  {
    if arguments.Null? || arguments.value == "" then CallResult(false, PartChannel(current))
    else
      var channelSplit := ChannelSplit(arguments.value);
      if ValidFormat(arguments.value) then
        if channelSplit[0] in clients then CallResult(true, RemoveChannel(channelSplit[0], channelSplit[1]))
        else CallResult(false, NoAction)
      else CallResult(false, MessageUser(user, INVALID_FORMAT))
  }

  /** getDescription(), whose usage starts with the command prefix. */
  function GetDescription(commandPrefix: string): (d: Description)
    ensures StartsWith(d.usage, commandPrefix)
    ensures d.usage[|commandPrefix|..] == "part [server/#channel]"
  {
    Description("Parts the current channel, or in the format of server/#channel", commandPrefix + "part [server/#channel]")
  }
}
