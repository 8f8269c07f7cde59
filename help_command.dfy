/** The help module's help command (carbon-modules): lists the commands the
    sender may use, or describes one of them.  `permits` gives each command's
    testPermission for the caller's locals. */
module HelpCommand {
  import opened Lang
  import opened Intake
  import opened ChannelArguments

  const DESCRIPTION: Description := Description("Displays all commands, with their help text", "help [command]")
  const NOT_PERMITTED: string := "You do not have permission to view the help for that command!"
  const NOT_FOUND: string := "Command not found!"

  /** One command's part of the listing: its primary alias and its help. */
  function Entry(m: CommandMapping): string {
    m.primaryAlias + " (" + m.description.help + ") "
  }

  /** The mappings, in dispatcher order, whose permission test passes. */
  function Permitted(commands: seq<CommandMapping>, permits: CommandMapping -> bool): (r: seq<CommandMapping>)
    ensures |r| <= |commands|
  {
    if |commands| == 0 then []
    else
      var last := commands[|commands| - 1];
      Permitted(commands[..|commands| - 1], permits) + (if permits(last) then [last] else [])
  }

  /** A mapping is listed exactly when it is registered and permitted. */
  lemma {:induction false} PermittedExactly(commands: seq<CommandMapping>, permits: CommandMapping -> bool, m: CommandMapping)
    ensures m in Permitted(commands, permits) <==> m in commands && permits(m)
  {
    if |commands| > 0 {
      var init := commands[..|commands| - 1];
      PermittedExactly(init, permits, m);
      assert commands == init + [commands[|commands| - 1]];
    }
  }

  /** When every mapping is permitted, all of them are listed, in order. */
  lemma {:induction false} AllPermitted(commands: seq<CommandMapping>, permits: CommandMapping -> bool)
    requires forall k :: 0 <= k < |commands| ==> permits(commands[k])
    ensures Permitted(commands, permits) == commands
  {
    if |commands| > 0 {
      AllPermitted(commands[..|commands| - 1], permits);
      assert commands == commands[..|commands| - 1] + [commands[|commands| - 1]];
    }
  }

  /** The entries of the given mappings, one after another. */
  function Entries(ms: seq<CommandMapping>): string {
    if |ms| == 0 then "" else Entries(ms[..|ms| - 1]) + Entry(ms[|ms| - 1])
  }

  lemma PermittedStep(commands: seq<CommandMapping>, permits: CommandMapping -> bool, i: nat)
    requires i < |commands|
    ensures Permitted(commands[..i + 1], permits)
            == Permitted(commands[..i], permits) + (if permits(commands[i]) then [commands[i]] else [])
  {
    assert commands[..i + 1][..i] == commands[..i];
  }

  lemma EntriesStep(ms: seq<CommandMapping>, m: CommandMapping)
    ensures Entries(ms + [m]) == Entries(ms) + Entry(m)
  {
    assert (ms + [m])[..|ms|] == ms;
  }

  /** Each mapping's entry is a piece of the entries of any list holding it. */
  lemma {:induction false} EntriesContain(ms: seq<CommandMapping>, m: CommandMapping)
    requires m in ms
    ensures exists i, j :: 0 <= i <= j <= |Entries(ms)| && Entries(ms)[i..j] == Entry(m)
  {
    var init := ms[..|ms| - 1];
    assert ms == init + [ms[|ms| - 1]];
    var e := Entries(ms);
    if ms[|ms| - 1] == m {
      assert e[|Entries(init)|..|e|] == Entry(m);
    } else {
      EntriesContain(init, m);
      var i, j :| 0 <= i <= j <= |Entries(init)| && Entries(init)[i..j] == Entry(m);
      assert e[i..j] == Entries(init)[i..j];
    }
  }

  /** The help command's own mapping passes its permission test for every
      caller, so once registered it is always part of the listing text. */
  lemma HelpListed(commands: seq<CommandMapping>, permits: CommandMapping -> bool, help: CommandMapping,
                   locals: map<ClassRef, Local>)
    requires help in commands
    requires permits(help) == TestPermission(locals)
    ensures help in Permitted(commands, permits)
    ensures var text := "Commands: " + Entries(Permitted(commands, permits));
            exists i, j :: 0 <= i <= j <= |text| && text[i..j] == Entry(help)
  {
    PermittedExactly(commands, permits, help);
    var listed := Permitted(commands, permits);
    EntriesContain(listed, help);
    var i, j :| 0 <= i <= j <= |Entries(listed)| && Entries(listed)[i..j] == Entry(help);
    SliceAfterPrefix("Commands: ", Entries(listed), i, j);
  }

  lemma SliceAfterPrefix(p: string, s: string, i: nat, j: nat)
    requires i <= j <= |s|
    ensures (p + s)[|p| + i..|p| + j] == s[i..j]
  {
  }

  /** The four appends for one listed mapping. */
  method AppendEntry(builder: string, mapping: CommandMapping) returns (r: string)
    ensures r == builder + Entry(mapping)
  {
    r := builder + mapping.primaryAlias;
    r := r + " (";
    r := r + mapping.description.help;
    r := r + ") ";
  }

  /** The StringBuilder loop of the listing branch. */
  method Listing(commands: seq<CommandMapping>, permits: CommandMapping -> bool) returns (text: string)
    ensures text == "Commands: " + Entries(Permitted(commands, permits))
  {
    var builder := "Commands: ";
    var i := 0;
    while i < |commands|
      invariant 0 <= i <= |commands|
      invariant builder == "Commands: " + Entries(Permitted(commands[..i], permits))
    {
      var mapping := commands[i];
      ghost var before := Permitted(commands[..i], permits);
      PermittedStep(commands, permits, i);
      if permits(mapping) {
        builder := AppendEntry(builder, mapping);
        EntriesStep(before, mapping);
        assert ("Commands: " + Entries(before)) + Entry(mapping) == "Commands: " + (Entries(before) + Entry(mapping));
        assert Permitted(commands[..i + 1], permits) == before + [mapping];
      } else {
        assert Permitted(commands[..i + 1], permits) == before + [];
        assert before + [] == before;
      }
      i := i + 1;
    }
    assert commands[..|commands|] == commands;
    text := builder;
  }

  /** call(arguments, locals, parents): exactly one message to the sender, and
      true is returned. */
  method Call(arguments: Nullable<string>, dispatcher: Dispatcher, permits: CommandMapping -> bool, user: User)
    returns (returned: bool, message: Action)
    ensures returned
    ensures message.MessageUser? && message.to == user
    ensures (arguments.Null? || arguments.value == "") ==>
              message.text == "Commands: " + Entries(Permitted(dispatcher.commands, permits))
    ensures arguments.NonNull? && arguments.value != "" && !dispatcher.Contains(arguments.value) ==>
              message.text == NOT_FOUND
    ensures arguments.NonNull? && arguments.value != "" && dispatcher.Contains(arguments.value) ==>
              var mapping := dispatcher.Get(arguments.value).value;
              message.text == (if permits(mapping)
                               then "Command: " + mapping.primaryAlias + " (" + mapping.description.help + ") "
                                    + "Usage: " + mapping.description.usage
                               else NOT_PERMITTED)
  {
    if arguments.NonNull? && arguments.value != "" {
      if dispatcher.Contains(arguments.value) {
        var mapping := dispatcher.Get(arguments.value).value;
        if permits(mapping) {
          var builder := "Command: ";
          builder := builder + mapping.primaryAlias;
          builder := builder + " (";
          builder := builder + mapping.description.help;
          builder := builder + ") ";
          builder := builder + "Usage: ";
          builder := builder + mapping.description.usage;
          message := MessageUser(user, builder);
        } else {
          message := MessageUser(user, NOT_PERMITTED);
        }
      } else {
        message := MessageUser(user, NOT_FOUND);
      }
    } else {
      var text := Listing(dispatcher.commands, permits);
      message := MessageUser(user, text);
    }
    returned := true;
  }

  /** testPermission: the help command is open to everyone. */
  function TestPermission(locals: map<ClassRef, Local>): (b: bool)
    ensures b
  {
    true
  }

  /** getSuggestions: never any. */
  function GetSuggestions(arguments: string, locals: map<ClassRef, Local>): (r: seq<string>)
    ensures |r| == 0
  {
    []
  }
}
