/** The 1.x Context utility: a builder over a class-to-object map whose built
    contexts all read that same map. */
module Contexts {
  import opened Lang

  /** get(clazz) over the map's contents: Optional.ofNullable of the stored
      value, so a key never set and a key set to null both give empty. */
  function GetIn(contexts: map<ClassRef, Nullable<Obj>>, clazz: ClassRef): (r: Option<Obj>)
    ensures r.Some? <==> clazz in contexts && contexts[clazz].NonNull?
    ensures r.Some? ==> r.value == contexts[clazz].value
  {
    if clazz in contexts then OfNullable(contexts[clazz]) else None
  }

  /** The anonymous Builder of Context.builder(). */
  class ContextBuilder {
    var contexts: map<ClassRef, Nullable<Obj>>

    /** builder(): an empty map. */
    constructor ()
      ensures contexts == map[]
      ensures forall clazz :: GetIn(contexts, clazz) == None
    {
      contexts := map[];
    }

    /** set(clazz, obj): a put that overwrites, returning the same builder. */
    method Set(clazz: ClassRef, obj: Nullable<Obj>) returns (b: ContextBuilder)
      modifies this
      ensures b == this
      ensures contexts == old(contexts)[clazz := obj]
      ensures GetIn(contexts, clazz) == OfNullable(obj)
      ensures forall other :: other != clazz ==> GetIn(contexts, other) == GetIn(old(contexts), other)
    {
      contexts := contexts[clazz := obj];
      b := this;
    }

    /** build(): a context over this builder's map. */
    method Build() returns (c: Context)
      ensures fresh(c) && c.builder == this
    {
      c := new Context(this);
    }
  }

  /** The anonymous Context build() returns. */
  class Context {
    const builder: ContextBuilder

    constructor (builder: ContextBuilder)
      ensures this.builder == builder
    {
      this.builder := builder;
    }

    function Get(clazz: ClassRef): (r: Option<Obj>)
      reads builder
      ensures r == GetIn(builder.contexts, clazz)
    {
      if clazz in builder.contexts then OfNullable(builder.contexts[clazz]) else None
    }
  }

  /** Two contexts built from one builder, one before and one after a later
      set: both see the new value. */
  method SetAfterBuild(builder: ContextBuilder, clazz: ClassRef, obj: Obj) returns (first: Context, second: Context)
    modifies builder
    ensures fresh(first) && fresh(second) && first != second
    ensures first.Get(clazz) == Some(obj) && second.Get(clazz) == Some(obj)
  {
    first := builder.Build();
    var same := builder.Set(clazz, NonNull(obj));
    second := same.Build();
  }
}
