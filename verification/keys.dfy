/** `CacheKey` and `CommandName`: string-identity tokens. Their type
    arguments exist only for the Java compiler; `equals` and `hashCode`
    look at the string alone. */
module Keys {
  import opened Wrappers
  import JavaStrings

  /** A key addressing a cached value of type T. */
  datatype CacheKey<T> = CacheKey(id: string)

  /** A name for a class of commands over values of type T with parameters of type K. */
  datatype CommandName<T, K> = CommandName(name: string)

  /** What `equals(Object)` can be handed at run time. Generic type
      arguments are erased, so a key or name carries only its string. */
  datatype JavaObject =
    | Null
    | KeyObject(keyId: string)
    | NameObject(nameId: string)
    | OtherObject

  /** The erased run-time view of a key. */
  function KeyObjectOf<T>(k: CacheKey<T>): JavaObject {
    KeyObject(k.id)
  }

  /** The erased run-time view of a command name. */
  function NameObjectOf<T, K>(n: CommandName<T, K>): JavaObject {
    NameObject(n.name)
  }

  /** `CacheKey.of(s)`, and the constructor it calls: both reject null. */
  function CacheKeyOf<T>(s: Option<string>): (r: Result<CacheKey<T>>)
    ensures r.Failure? <==> s.None?
    ensures r.Failure? ==> r.error == NullPointer
    ensures r.Success? ==> r.value.id == s.value
  {
    match s
    case None => Failure(NullPointer)
    case Some(str) => Success(CacheKey(str))
  }

  /** `CacheKey.equals(o)`: true for the same object, false for anything that
      is not a `CacheKey`, otherwise string equality. */
  function KeyEquals<T>(k: CacheKey<T>, o: JavaObject): bool {
    if o == KeyObjectOf(k) then true
    else if !o.KeyObject? then false
    else k.id == o.keyId
  }

  /** `CacheKey.hashCode()`: the string's hash. */
  function KeyHashCode<T>(k: CacheKey<T>): JavaStrings.Int32 {
    JavaStrings.HashCode(k.id)
  }

  /** `CacheKey.toString()`. */
  function KeyToString<T>(k: CacheKey<T>): string {
    "Key: " + k.id
  }

  /** `CommandName.of(s)` rejects null. (The package-private constructor does
      not check; every caller in the library goes through `of`.) */
  function CommandNameOf<T, K>(s: Option<string>): (r: Result<CommandName<T, K>>)
    ensures r.Failure? <==> s.None?
    ensures r.Failure? ==> r.error == NullPointer
    ensures r.Success? ==> r.value.name == s.value
  {
    match s
    case None => Failure(NullPointer)
    case Some(str) => Success(CommandName(str))
  }

  /** `CommandName.equals(o)`. */
  function NameEquals<T, K>(n: CommandName<T, K>, o: JavaObject): bool {
    if o == NameObjectOf(n) then true
    else if !o.NameObject? then false
    else n.name == o.nameId
  }

  /** `CommandName.hashCode()`. */
  function NameHashCode<T, K>(n: CommandName<T, K>): JavaStrings.Int32 {
    JavaStrings.HashCode(n.name)
  }

  /** Two keys are equal exactly when their strings are, whatever their type arguments. */
  lemma KeyEqualsIffSameId<A, B>(k1: CacheKey<A>, k2: CacheKey<B>)
    ensures KeyEquals(k1, KeyObjectOf(k2)) <==> k1.id == k2.id
  {
  }

  /** A key never equals null, a command name, or any other object. */
  lemma KeyEqualsOnlyKeys<T>(k: CacheKey<T>, o: JavaObject)
    requires !o.KeyObject?
    ensures !KeyEquals(k, o)
  {
  }

  /** Key equality is an equivalence relation across all type arguments. */
  lemma KeyEqualsIsEquivalence<A, B, C>(a: CacheKey<A>, b: CacheKey<B>, c: CacheKey<C>)
    ensures KeyEquals(a, KeyObjectOf(a))
    ensures KeyEquals(a, KeyObjectOf(b)) ==> KeyEquals(b, KeyObjectOf(a))
    ensures KeyEquals(a, KeyObjectOf(b)) && KeyEquals(b, KeyObjectOf(c)) ==> KeyEquals(a, KeyObjectOf(c))
  {
  }

  /** Within one type, Java key equality is value equality of the datatype,
      so a Dafny map keyed by `CacheKey<T>` behaves like the library's `HashMap`. */
  lemma KeyEqualsIsIdentity<T>(k1: CacheKey<T>, k2: CacheKey<T>)
    ensures KeyEquals(k1, KeyObjectOf(k2)) <==> k1 == k2
  {
  }

  /** Equal keys have equal hash codes. */
  lemma KeyHashConsistent<A, B>(k1: CacheKey<A>, k2: CacheKey<B>)
    requires KeyEquals(k1, KeyObjectOf(k2))
    ensures KeyHashCode(k1) == KeyHashCode(k2)
  {
  }

  /** `of(s)` at two different types yields equal keys. */
  lemma KeyTypeArgumentIgnored<A, B>(s: string)
    ensures CacheKeyOf<A>(Some(s)).Success? && CacheKeyOf<B>(Some(s)).Success?
    ensures KeyEquals(CacheKeyOf<A>(Some(s)).value, KeyObjectOf(CacheKeyOf<B>(Some(s)).value))
  {
  }

  /** Distinct keys print differently. */
  lemma KeyToStringInjective<A, B>(k1: CacheKey<A>, k2: CacheKey<B>)
    requires KeyToString(k1) == KeyToString(k2)
    ensures k1.id == k2.id
  {
    assert k1.id == KeyToString(k1)[5..];
  }

  /** Two command names are equal exactly when their strings are. */
  lemma NameEqualsIffSameName<T1, K1, T2, K2>(n1: CommandName<T1, K1>, n2: CommandName<T2, K2>)
    ensures NameEquals(n1, NameObjectOf(n2)) <==> n1.name == n2.name
  {
  }

  /** A command name never equals a key carrying the same string. */
  lemma NameNotEqualToKey<T, K, U>(n: CommandName<T, K>, k: CacheKey<U>)
    ensures !NameEquals(n, KeyObjectOf(k))
  {
  }

  /** Within one pair of type arguments, name equality is value equality,
      which is what the engine's `contains` and map look-ups rely on. */
  lemma NameEqualsIsIdentity<T, K>(n1: CommandName<T, K>, n2: CommandName<T, K>)
    ensures NameEquals(n1, NameObjectOf(n2)) <==> n1 == n2
  {
  }

  /** Equal names have equal hash codes. */
  lemma NameHashConsistent<T1, K1, T2, K2>(n1: CommandName<T1, K1>, n2: CommandName<T2, K2>)
    requires NameEquals(n1, NameObjectOf(n2))
    ensures NameHashCode(n1) == NameHashCode(n2)
  {
  }

  /** `of(s)` at different type arguments yields equal names. */
  lemma NameTypeArgumentsIgnored<T1, K1, T2, K2>(s: string)
    ensures CommandNameOf<T1, K1>(Some(s)).Success? && CommandNameOf<T2, K2>(Some(s)).Success?
    ensures NameEquals(CommandNameOf<T1, K1>(Some(s)).value, NameObjectOf(CommandNameOf<T2, K2>(Some(s)).value))
  {
  }
}
