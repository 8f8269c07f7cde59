/** The invite module's join command (carbon-modules): `join server/#channel`
    asks the named server's client to join the channel. */
module JoinCommand {
  import opened Lang
  import opened Intake
  import opened ChannelArguments

  const DESCRIPTION: Description :=
    Description("Joins the given channel, in the format of server/#channel", "join <server/#channel>")

  /** call(arguments, ...) as written, with `clients` the ids of the connected
      servers.  The outer guard joins its tests with `||`, so it holds for every
      non-null argument string, and for null it evaluates `!arguments.equals("")`,
      which dereferences null. */
  function CallAsWritten(arguments: Nullable<string>, clients: set<string>): (r: Result<CallResult>)
    ensures arguments.Null? ==> r == Thrown(NullDereference)
    ensures arguments.NonNull? ==> (r == Thrown(InvalidUsage) <==> !ValidFormat(arguments.value))
    ensures r.Ok? ==> var parts := ChannelSplit(arguments.value);
                      (r.value.returned <==> parts[0] in clients)
                      && (r.value.returned ==> r.value.action == AddChannel(parts[0], parts[1]))
                      && (!r.value.returned ==> r.value.action == NoAction)
  {
    if arguments.Null? then Thrown(NullDereference)
    else
      var parts := ChannelSplit(arguments.value);
      if ValidFormat(arguments.value) then
        if parts[0] in clients then Ok(CallResult(true, AddChannel(parts[0], parts[1])))
        else Ok(CallResult(false, NoAction))
      else Thrown(InvalidUsage)
  }

  /** call with the guard the else-branch was written for (`&&`): a missing
      argument is a usage error like a malformed one. */
  function Call(arguments: Nullable<string>, clients: set<string>): (r: Result<CallResult>)
    ensures r.Thrown? <==> arguments.Null? || !ValidFormat(arguments.value)
    ensures r.Thrown? ==> r.error == InvalidUsage
    ensures r.Ok? ==> var parts := ChannelSplit(arguments.value);
                      (r.value.returned <==> parts[0] in clients)
                      && (r.value.returned ==> r.value.action == AddChannel(parts[0], parts[1]))
                      && (!r.value.returned ==> r.value.action == NoAction)
  {
    if arguments.NonNull? && arguments.value != "" then
      var parts := ChannelSplit(arguments.value);
      if ValidFormat(arguments.value) then
        if parts[0] in clients then Ok(CallResult(true, AddChannel(parts[0], parts[1])))
        else Ok(CallResult(false, NoAction))
      else Thrown(InvalidUsage)
    else Thrown(InvalidUsage)
  }

  /** A null argument string: the code as written fails with a
      NullPointerException where a usage error was intended. */
  lemma NullArgumentsAsWritten(clients: set<string>)
    ensures CallAsWritten(Null, clients) == Thrown(NullDereference)
    ensures Call(Null, clients) == Thrown(InvalidUsage)
  {
  }

  /** On every non-null argument string the two guards agree, since "" already
      fails the format test. */
  lemma AgreeOnArguments(arguments: string, clients: set<string>)
    ensures CallAsWritten(NonNull(arguments), clients) == Call(NonNull(arguments), clients)
  {
  }
}
