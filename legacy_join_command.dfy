/** The 1.x join command: the arguments are split at '/' without any format
    check; the first part selects the server and the second the channel. */
module LegacyJoinCommand {
  import opened Lang
  import opened JavaStrings
  import opened ConfigTree
  import opened Intake
  import opened ChannelArguments

  /** call(arguments, ...), with `clients` the ids of the connected servers.
      The server is looked up before the channel part is read, so an unknown
      server returns false whatever follows it, and a known server without a
      channel part indexes past the split. */
  function Call(arguments: Nullable<string>, clients: set<string>): (r: Result<CallResult>)
    ensures arguments.Null? ==> r == Thrown(NullDereference)
    ensures arguments.NonNull? && ChannelSplit(arguments.value) == [] ==> r == Thrown(ArrayIndexOutOfBounds(0))
    ensures arguments.NonNull? && |ChannelSplit(arguments.value)| == 1 && ChannelSplit(arguments.value)[0] in clients
            ==> r == Thrown(ArrayIndexOutOfBounds(1))
    ensures r.Ok? ==> var parts := ChannelSplit(arguments.value);
                      |parts| > 0 && (r.value.returned <==> parts[0] in clients)
                      && (r.value.returned ==> |parts| >= 2 && r.value.action == AddChannel(parts[0], parts[1]))
                      && (!r.value.returned ==> r.value.action == NoAction)
    ensures (arguments.NonNull? && |ChannelSplit(arguments.value)| > 0 && ChannelSplit(arguments.value)[0] !in clients)
            ==> r == Ok(CallResult(false, NoAction))
  {
    if arguments.Null? then Thrown(NullDereference)
    else
      var channelSplit := ChannelSplit(arguments.value);
      if |channelSplit| == 0 then Thrown(ArrayIndexOutOfBounds(0))
      else if channelSplit[0] !in clients then Ok(CallResult(false, NoAction))
      else if |channelSplit| < 2 then Thrown(ArrayIndexOutOfBounds(1))
      else Ok(CallResult(true, AddChannel(channelSplit[0], channelSplit[1])))
  }

  /** A known server named without any '/' is the out-of-range case. */
  lemma ServerAloneFails(arguments: string, clients: set<string>)
    requires '/' !in arguments && arguments in clients
    ensures Call(NonNull(arguments), clients) == Thrown(ArrayIndexOutOfBounds(1))
  {
  }

  /** The split is empty, and index 0 is out of range, exactly for a non-empty
      run of slashes. */
  lemma OnlySlashesFail(arguments: string, clients: set<string>)
    ensures Call(NonNull(arguments), clients) == Thrown(ArrayIndexOutOfBounds(0))
            <==> (arguments != [] && forall i :: 0 <= i < |arguments| ==> arguments[i] == '/')
  {
    SplitEmptyIff(arguments, '/');
  }

  /** getDescription() returns null. */
  const DESCRIPTION: Nullable<Description> := Null

  /** testPermission: the user's name is in the `irc.admins` list of the root
      configuration; when that node cannot be read as a list of strings the
      failure is logged and permission is refused. */
  function TestPermission(root: Node, user: User): (b: bool)
    ensures root.At(["irc", "admins"]).GetStringList().None? ==> !b
    ensures root.At(["irc", "admins"]).GetStringList().Some? ==>
              (b <==> user.name in root.At(["irc", "admins"]).GetStringList().value)
  {
    match root.At(["irc", "admins"]).GetStringList()
    case None => false
    case Some(admins) => user.name in admins
  }
}
