/** Values of the Java host that the rest of the model shares: optionals, nullable
    references, opaque objects and the exceptions a call can end with. */
module Lang {

  /** java.util.Optional */
  datatype Option<+T> = None | Some(value: T)

  /** A Java reference that may be null. */
  datatype Nullable<+T> = Null | NonNull(value: T)

  /** A java.lang.Class, identified by its fully qualified name. */
  datatype ClassRef = ClassRef(name: string)

  /** A host object whose inside this model does not look at (a plugin or module
      instance, a service provider, an IRC user or channel): its identity and its
      class.  `Builtin` is an object the runtime creates once for itself, such as
      the fallback exception service. */
  datatype Obj = Obj(ref: nat, cls: ClassRef) | Builtin(cls: ClassRef)

  /** A throwable handed to the exception reporter.  `Opaque` is one raised by
      code outside the model (a subscriber, a command). */
  datatype Throwable =
    | Opaque(ref: nat)
    | ProviderRegistrationException(message: string)

  /** The exception a Java call ends with: a NullPointerException raised by a
      null check with its message, or by dereferencing null without one, an index
      out of range, an Intake InvalidUsageException, or a throwable passed on. */
  datatype Exception =
    | NullPointer(message: string)
    | NullDereference
    | ArrayIndexOutOfBounds(index: int)
    | StringIndexOutOfBounds(index: int)
    | InvalidUsage
    | Escaped(cause: Throwable)

  /** The outcome of a Java call that returns normally or throws. */
  datatype Result<+T> = Ok(value: T) | Thrown(error: Exception)

  /** Guava's checkNotNull: the value, or a NullPointerException with the message. */
  function CheckNotNull<T>(x: Nullable<T>, message: string): (r: Result<T>)
    ensures r.Ok? <==> x.NonNull?
    ensures r.Ok? ==> r.value == x.value
    ensures r.Thrown? ==> r.error == NullPointer(message)
  {
    match x
    case Null => Thrown(NullPointer(message))
    case NonNull(v) => Ok(v)
  }

  /** Optional.ofNullable */
  function OfNullable<T>(x: Nullable<T>): (r: Option<T>)
    ensures r.Some? <==> x.NonNull?
    ensures r.Some? ==> r.value == x.value
  {
    match x
    case Null => None
    case NonNull(v) => Some(v)
  }

  /** Optional.ofNullable(map.get(key)) for a map that stores no nulls. */
  function Lookup<K, V>(m: map<K, V>, key: K): (r: Option<V>)
    ensures r.Some? <==> key in m
    ensures r.Some? ==> r.value == m[key]
  {
    if key in m then Some(m[key]) else None
  }
}
