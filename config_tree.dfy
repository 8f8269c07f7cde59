/** The part of a configurate configuration tree that the core reads.  A node is
    either absent (a "virtual" node that getNode hands out for a missing key), a
    scalar, a map of named children or a list of children. */
module ConfigTree {
  import opened Lang

  datatype Value = Str(s: string) | Int(i: int) | Bool(b: bool)

  datatype Node =
    | Virtual
    | Scalar(value: Value)
    | MapNode(children: map<string, Node>)
    | ListNode(items: seq<Node>)
  {
    /** getNode(key): the named child, or a virtual node when there is none. */
    function Child(key: string): (r: Node)
      ensures this.MapNode? && key in children ==> r == children[key]
      ensures !(this.MapNode? && key in children) ==> r == Virtual
    {
      if this.MapNode? && key in children then children[key] else Virtual
    }

    /** getNode(k1, k2, ...): the node reached by following the path. */
    function At(path: seq<string>): (r: Node)
      ensures path == [] ==> r == this
      ensures this == Virtual ==> r == Virtual
      decreases |path|
    {
      if path == [] then this else Child(path[0]).At(path[1..])
    }

    /** getString(): the string value, or null for a node without one. */
    function StringOrNull(): (r: Nullable<string>)
      ensures r.NonNull? <==> this.Scalar? && value.Str?
    {
      if this.Scalar? && value.Str? then NonNull(value.s) else Null
    }

    /** getString(def): the string value, or `def` for a node without one. */
    function GetString(def: string): (r: string)
      ensures StringOrNull().NonNull? ==> r == StringOrNull().value
      ensures StringOrNull().Null? ==> r == def
    {
      match StringOrNull()
      case NonNull(s) => s
      case Null => def
    }

    /** getBoolean(def) */
    function GetBoolean(def: bool): (r: bool)
      ensures this.Scalar? && value.Bool? ==> r == value.b
      ensures !(this.Scalar? && value.Bool?) ==> r == def
    {
      if this.Scalar? && value.Bool? then value.b else def
    }

    /** getInt(def) */
    function GetInt(def: int): (r: int)
      ensures this.Scalar? && value.Int? ==> r == value.i
      ensures !(this.Scalar? && value.Int?) ==> r == def
    {
      if this.Scalar? && value.Int? then value.i else def
    }

    /** getChildrenList(): the children of a list node, empty for any other node. */
    function ChildrenList(): (r: seq<Node>)
      ensures this.ListNode? ==> r == items
      ensures !this.ListNode? ==> r == []
    {
      if this.ListNode? then items else []
    }

    /** getList(TypeToken.of(String.class)): the string values of a list node, or
        an ObjectMappingException (here None) when an element is not a string.
        A node that is not a list reads as the one-element list of its own
        value, and an absent node as the empty list. */
    function GetStringList(): (r: Option<seq<string>>)
      ensures this == Virtual ==> r == Some([])
      ensures r.Some? && this.ListNode? ==>
                |r.value| == |items| && forall k :: 0 <= k < |items| ==> items[k] == Scalar(Str(r.value[k]))
    {
      match this
      case Virtual => Some([])
      case Scalar(v) => if v.Str? then Some([v.s]) else None
      case MapNode(_) => None
      case ListNode(xs) => StringsOf(xs)
    }
  }

  function StringsOf(xs: seq<Node>): (r: Option<seq<string>>)
    ensures r.Some? <==> forall k :: 0 <= k < |xs| ==> xs[k].Scalar? && xs[k].value.Str?
    ensures r.Some? ==>
              |r.value| == |xs| && forall k :: 0 <= k < |xs| ==> xs[k] == Scalar(Str(r.value[k]))
  {
    if xs == [] then Some([])
    else
      var rest := StringsOf(xs[1..]);
      if xs[0].Scalar? && xs[0].value.Str? && rest.Some? then
        assert forall k :: 1 <= k < |xs| ==> xs[k] == xs[1..][k - 1];
        Some([xs[0].value.s] + rest.value)
      else
        assert rest.None? ==> exists k :: 1 <= k < |xs| && !(xs[k].Scalar? && xs[k].value.Str?) by {
          if rest.None? {
            var k :| 0 <= k < |xs[1..]| && !(xs[1..][k].Scalar? && xs[1..][k].value.Str?);
            assert xs[k + 1] == xs[1..][k];
          }
        }
        None
  }
}
