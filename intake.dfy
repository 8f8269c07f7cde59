/** The parts of the IRC client and of the Intake command framework that the
    command bridge touches, as values: the message event, the user, a command's
    mapping and description, the dispatcher's table of commands, the locals
    handed to a command, and the ways a dispatch can end. */
module Intake {
  import opened Lang
  import opened JavaStrings
  import Services

  /** An IRC user: the nick shown in channels, the account name the
      administrator lists hold, and the user's identity. */
  datatype User = User(nick: string, name: string, obj: Obj)

  /** A ChannelMessageEvent: the text, the channel it was sent to and its sender. */
  datatype MessageEvent = MessageEvent(message: string, channel: Obj, actor: User)

  /** The parts of a command's Description read here. */
  datatype Description = Description(help: string, usage: string)

  /** A registered command: its primary alias, every alias it answers to, and
      its callable's description. */
  datatype CommandMapping = CommandMapping(primaryAlias: string, aliases: seq<string>, description: Description)

  /** The index of the first mapping, at or after `from`, that answers to `alias`. */
  function FindFrom(commands: seq<CommandMapping>, alias: string, from: nat): (r: Option<nat>)
    requires from <= |commands|
    ensures r.Some? ==> from <= r.value < |commands| && alias in commands[r.value].aliases
    ensures r.Some? ==> forall i :: from <= i < r.value ==> alias !in commands[i].aliases
    ensures r.None? ==> forall i :: from <= i < |commands| ==> alias !in commands[i].aliases
    decreases |commands| - from
  {
    if from == |commands| then None
    else if alias in commands[from].aliases then Some(from)
    else FindFrom(commands, alias, from + 1)
  }

  /** The command dispatcher's table, in the fixed order its command set iterates in, which Intake leaves unspecified. */
  datatype Dispatcher = Dispatcher(commands: seq<CommandMapping>)
  {
    /** contains(alias): some command answers to the alias. */
    predicate Contains(alias: string) {
      exists i :: 0 <= i < |commands| && alias in commands[i].aliases
    }

    /** get(alias): the command answering to the alias, present exactly when
        contains(alias) holds. */
    function Get(alias: string): (r: Option<CommandMapping>)
      ensures r.Some? <==> Contains(alias)
      ensures r.Some? ==> r.value in commands && alias in r.value.aliases
    {
      var found := FindFrom(commands, alias, 0);
      if found.Some? then Some(commands[found.value]) else None
    }
  }

  /** A value stored in the command locals. */
  datatype Local = Text(text: string) | ChannelLocal(channel: Obj) | UserLocal(user: User)

  /** The class keys the command bridge stores locals under. */
  const STRING: ClassRef := ClassRef("java.lang.String")
  const CHANNEL: ClassRef := ClassRef("org.kitteh.irc.client.library.element.Channel")
  const USER: ClassRef := ClassRef("org.kitteh.irc.client.library.element.User")

  /** The way the dispatcher's call(arguments, locals, parents) ended.  A usage
      failure carries the usage of the command it names. */
  datatype DispatchOutcome =
    | Completed(result: bool)
    | UsageFailure(usage: string)
    | CommandFailure(cause: Throwable)
    | InvocationFailure(cause: Throwable)
    | AuthorizationFailure

  /** The arguments one dispatcher call receives. */
  datatype Call = Call(arguments: string, locals: map<ClassRef, Local>, parents: seq<string>)

  /** What the command bridge does after a dispatch: nothing, a private message
      to a user, a reply in the channel, or one exception report. */
  datatype Effect =
    | Silent
    | SentMessage(to: User, text: string)
    | SentReply(channel: Obj, text: string)
    | Reported(report: Services.Report)

  /** How the command bridge handled one channel message: not a command, a
      command whose event was cancelled, or a command that was dispatched. */
  datatype Handling =
    | Ignored
    | Cancelled(mapping: CommandMapping)
    | Dispatched(mapping: CommandMapping, call: Call, effect: Effect)

  /** The parts of the replies both command bridges send. */
  const FAILED: string := "Failed to execute command: "
  const NO_PERMISSION: string := ": You do not have permission to do that!"

  /** message.substring(prefix.length()) for a message with that prefix. */
  function Remainder(message: string, prefix: string): string
    requires StartsWith(message, prefix)
  {
    message[|prefix|..]
  }

  /** The command locals the bridges build: the remainder under String, the
      message's channel under Channel and its sender under User. */
  function LocalsOf(command: string, event: MessageEvent): map<ClassRef, Local> {
    map[STRING := Text(command), CHANNEL := ChannelLocal(event.channel), USER := UserLocal(event.actor)]
  }
}
