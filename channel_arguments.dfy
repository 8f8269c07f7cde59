/** The `server/#channel` argument rule shared by the join and part commands,
    and the effects those commands have, returned as values. */
module ChannelArguments {
  import opened Lang
  import opened JavaStrings
  import opened Intake

  /** What a command asks the IRC clients to do. */
  datatype Action =
    | NoAction
    | AddChannel(server: string, channel: string)
    | RemoveChannel(server: string, channel: string)
    | PartChannel(current: Obj)
    | MessageUser(to: User, text: string)

  /** The boolean a command's call returns, with the action it performed. */
  datatype CallResult = CallResult(returned: bool, action: Action)

  /** testPermission of the join and part commands: the user's account name is
      one of the IRC manager's administrators. */
  function IsAdministrator(administrators: seq<string>, user: User): (b: bool)
    ensures b <==> exists i :: 0 <= i < |administrators| && administrators[i] == user.name
  {
    user.name in administrators
  }

  /** The parts of the arguments split at '/'. */
  function ChannelSplit(arguments: string): seq<string> {
    Split(arguments, '/')
  }

  /** The format test: exactly two parts, neither empty.  (The array elements
      split returns are never null, so the source's null tests always pass.) */
  predicate ValidFormat(arguments: string) {
    var parts := ChannelSplit(arguments);
    |parts| == 2 && parts[0] != "" && parts[1] != ""
  }

  lemma {:induction false} DropEmpties(xs: seq<string>, e: seq<string>)
    requires xs != [] && xs[|xs| - 1] != ""
    requires forall k :: 0 <= k < |e| ==> e[k] == ""
    ensures DropTrailingEmpty(xs + e) == xs
  {
    if e == [] {
      assert xs + e == xs;
    } else {
      assert (xs + e)[..|xs + e| - 1] == xs + e[..|e| - 1];
      DropEmpties(xs, e[..|e| - 1]);
    }
  }

  lemma PiecesOfPartAndDelimiters(y: string, d: char, n: nat)
    requires d !in y
    ensures Pieces(y + Repeat(d, n), d)[0] == y
    ensures forall k :: 1 <= k < |Pieces(y + Repeat(d, n), d)| ==> Pieces(y + Repeat(d, n), d)[k] == ""
  {
    if n == 0 {
      assert y + Repeat(d, n) == y;
      PiecesWithoutDelimiter(y, d);
    } else {
      assert y + Repeat(d, n) == y + [d] + Repeat(d, n - 1);
      PiecesCons(y, Repeat(d, n - 1), d);
      PiecesOfDelimiters(Repeat(d, n - 1), d);
    }
  }

  /** split(d) gives exactly the two non-empty parts x and y when, and only
      when, the input is x, the delimiter, y, and any number of further
      delimiters, which split drops. */
  lemma TwoPartsIff(s: string, x: string, y: string, d: char)
    requires x != "" && y != "" && d !in x && d !in y
    ensures Split(s, d) == [x, y] <==> exists n: nat :: s == x + [d] + y + Repeat(d, n)
  {
    if Split(s, d) == [x, y] {
      SplitRejoin(s, d);
      var j := JoinWith(Split(s, d), d);
      assert JoinWith([x, y], d) == x + [d] + y;
      assert s == x + [d] + y + Repeat(d, |s| - |j|);
    }
    if exists n: nat :: s == x + [d] + y + Repeat(d, n) {
      var n: nat :| s == x + [d] + y + Repeat(d, n);
      assert s == x + [d] + (y + Repeat(d, n));
      assert s[|x|] == d;
      PiecesCons(x, y + Repeat(d, n), d);
      PiecesOfPartAndDelimiters(y, d, n);
      var rest := Pieces(y + Repeat(d, n), d);
      assert Pieces(s, d) == [x, y] + rest[1..];
      DropEmpties([x, y], rest[1..]);
    }
  }

  /** The accepted arguments are exactly `server/#channel` with both parts
      non-empty and free of '/', optionally followed by more slashes. */
  lemma ValidFormatIff(arguments: string)
    ensures ValidFormat(arguments) <==>
            exists server: string, channel: string, n: nat ::
              server != "" && channel != "" && '/' !in server && '/' !in channel
              && arguments == server + "/" + channel + Repeat('/', n)
  {
    if ValidFormat(arguments) {
      var parts := ChannelSplit(arguments);
      TwoPartsIff(arguments, parts[0], parts[1], '/');
      assert parts == [parts[0], parts[1]];
      var n: nat :| arguments == parts[0] + ['/'] + parts[1] + Repeat('/', n);
      assert arguments == parts[0] + "/" + parts[1] + Repeat('/', n);
    }
    if exists server: string, channel: string, n: nat ::
         server != "" && channel != "" && '/' !in server && '/' !in channel
         && arguments == server + "/" + channel + Repeat('/', n) {
      var server: string, channel: string, n: nat :|
        server != "" && channel != "" && '/' !in server && '/' !in channel
        && arguments == server + "/" + channel + Repeat('/', n);
      assert arguments == server + ['/'] + channel + Repeat('/', n);
      TwoPartsIff(arguments, server, channel, '/');
      assert ChannelSplit(arguments) == [server, channel];
    }
  }
}
