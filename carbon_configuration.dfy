/** The 2.x bot configuration (CarbonConfiguration): the IRC networks to connect
    to and the command prefix, read out of the root configuration node when the
    configuration is constructed. */
module CarbonConfig {
  import opened Lang
  import opened ConfigTree

  /** One IRC network.  getString() without a default reads a missing value as
      null, getInt() as 0 and getBoolean() as false. */
  datatype Network = Network(
    id: Nullable<string>,
    host: Nullable<string>,
    port: int,
    secure: bool,
    username: Nullable<string>,
    nickname: Nullable<string>)

  /** new Network(node) */
  function NetworkOf(node: Node): Network {
    Network(
      node.Child("id").StringOrNull(),
      node.Child("host").StringOrNull(),
      node.Child("port").GetInt(0),
      node.Child("secure").GetBoolean(false),
      node.Child("username").StringOrNull(),
      node.Child("nickname").StringOrNull())
  }

  /** The networks built, in order, from a list of network nodes. */
  function NetworksOf(children: seq<Node>): seq<Network> {
    if children == [] then []
    else NetworksOf(children[..|children| - 1]) + [NetworkOf(children[|children| - 1])]
  }

  /** The k-th network is the one read from the k-th child. */
  lemma {:induction false} NetworksOfAt(children: seq<Node>)
    ensures |NetworksOf(children)| == |children|
    ensures forall k :: 0 <= k < |children| ==> NetworksOf(children)[k] == NetworkOf(children[k])
  {
    if children != [] {
      var init := children[..|children| - 1];
      NetworksOfAt(init);
      assert forall k :: 0 <= k < |init| ==> init[k] == children[k];
    }
  }

  /** Command settings: the prefix that marks a message as a command. */
  datatype Commands = Commands(prefix: string)

  /** The network list of the configuration rooted at `root`.  It is read from
      the root's own `networks` child: no `irc` level sits in between. */
  function NetworksNode(root: Node): (n: Node)
    ensures n == root.At(["networks"])
  {
    root.Child("networks")
  }

  /** The prefix of the configuration rooted at `root`: `commands.prefix` when it
      holds a string, "." otherwise. */
  function PrefixOf(root: Node): (p: string)
    ensures root.At(["commands", "prefix"]).Scalar? && root.At(["commands", "prefix"]).value.Str?
            ==> p == root.At(["commands", "prefix"]).value.s
    ensures !(root.At(["commands", "prefix"]).Scalar? && root.At(["commands", "prefix"]).value.Str?)
            ==> p == "."
  {
    assert ["commands", "prefix"][1..] == ["prefix"];
    assert ["prefix"][1..] == [];
    root.Child("commands").Child("prefix").GetString(".")
  }

  /** CarbonConfiguration.Irc: the networks are appended one by one while the
      configuration is constructed. */
  class Irc {
    var networks: seq<Network>
    /** The root node this configuration was read from. */
    ghost const root: Node

    ghost predicate Valid()
      reads this
    {
      networks == NetworksOf(NetworksNode(root).ChildrenList())
    }

    constructor (node: Node)
      ensures root == node && Valid()
    {
      root := node;
      networks := [];
      new;
      var children := node.Child("networks").ChildrenList();
      var i := 0;
      while i < |children|
        invariant 0 <= i <= |children|
        invariant networks == NetworksOf(children[..i])
      {
        assert children[..i + 1][..i] == children[..i];
        networks := networks + [NetworkOf(children[i])];
        i := i + 1;
      }
      assert children[..i] == children;
    }

    /** getNetworks(): a copy of the list, one network per child of the root's
        `networks` node, in child order. */
    function GetNetworks(): (r: seq<Network>)
      reads this
      requires Valid()
      ensures |r| == |NetworksNode(root).ChildrenList()|
      ensures forall k :: 0 <= k < |r| ==> r[k] == NetworkOf(NetworksNode(root).ChildrenList()[k])
    {
      NetworksOfAt(NetworksNode(root).ChildrenList());
      networks
    }
  }

  class CarbonConfiguration {
    const node: Node
    const irc: Irc
    const commands: Commands

    ghost predicate Valid()
      reads this, irc
    {
      irc.root == node && irc.Valid()
      && commands == Commands(node.Child("commands").Child("prefix").GetString("."))
    }

    constructor (root: Node)
      ensures node == root && Valid() && fresh(irc)
    {
      node := root;
      irc := new Irc(root);
      commands := Commands(root.Child("commands").Child("prefix").GetString("."));
    }

    /** getCommands().getPrefix() */
    function GetPrefix(): (p: string)
      reads this, irc
      requires Valid()
      ensures p == PrefixOf(node)
    {
      commands.prefix
    }
  }
}
