/**
  `YamlFormatterResolverExtensions.GetFormatterWithVerify<T>`
  (VYaml.Core/Serialization/IYamlFormatterResolver.cs): the formatter the serializer uses for
  `T`. Polymorphic types (interfaces and abstract classes) get a `RedirectFormatter<T>`,
  generic types come from the registry's generic buffer, every other type from the
  registry's table; a missing formatter is a `YamlSerializerException`.

  The resolver argument only decides whether an existing redirect is reused and what the
  error message names: the lookups always go to `NexYamlSerializerRegistry.Default`, passed
  here as `registry`. Its generic buffer belongs to code that is not part of this model and
  is given as `genericBuffered`.
 */
module FormatterResolvers {
  import opened Wrappers
  import opened Runtime
  import opened FormatterTables
  import opened SerializationRegistry

  /** The run-time class of the resolver argument. */
  datatype ResolverRef =
    | RedirectResolver(target: Type)
    | SerializerRegistry
    | CoreRegistry
    | OtherResolver(className: string)

  /** `resolver.GetType()` as it prints. */
  function ResolverTypeName(r: ResolverRef): string {
    match r
    case RedirectResolver(t) => "VYaml.Serialization.Resolvers.RedirectFormatter`1[" + TypeName(t) + "]"
    case SerializerRegistry => "VYaml.Serialization.NexYamlSerializerRegistry"
    case CoreRegistry => "VYaml.NexYamlSerializerRegistry"
    case OtherResolver(n) => n
  }

  /** Where the returned formatter came from. */
  datatype Origin = ResolverItself | NewRedirect | GenericBuffer | DefinedFormatters

  datatype Resolved = Resolved(formatter: Formatter, origin: Origin)

  /** `t.FullName + $"{t} is not registered in resolver: {resolver.GetType()}"` */
  function NotRegisteredMessage(t: Type, resolver: ResolverRef): string {
    TypeName(t) + TypeName(t) + " is not registered in resolver: " + ResolverTypeName(resolver)
  }

  /** `Throw(t, resolver)`: a serializer exception without a mark. */
  function Throw(t: Type, resolver: ResolverRef): (x: Exception)
    ensures x.YamlSerializerException? && x.at.None?
    ensures |x.message| >= 2 * |TypeName(t)| + |ResolverTypeName(resolver)|
    ensures x.message[..|TypeName(t)|] == TypeName(t)
    ensures x.message[|x.message| - |ResolverTypeName(resolver)|..] == ResolverTypeName(resolver)
  {
    var m := NotRegisteredMessage(t, resolver);
    assert m == TypeName(t) + (TypeName(t) + " is not registered in resolver: " + ResolverTypeName(resolver));
    YamlSerializerException(None, m)
  }

  /** `GetFormatterWithVerify<T>(resolver)` */
  function GetFormatterWithVerify(t: Type, resolver: ResolverRef, registry: NexYamlSerializerRegistry, genericBuffered: Type -> Option<Formatter>): (r: Result<Resolved, Exception>)
    reads registry
    ensures t.IsAbstract() ==> r.Success? && r.value.formatter == Redirect(t)
    ensures t.IsAbstract() ==> (r.value.origin == ResolverItself <==> resolver == RedirectResolver(t))
    ensures !t.IsAbstract() && t.IsGenericType() ==>
      (r.Success? <==> genericBuffered(t).Some?) &&
      (r.Success? ==> r.value == Resolved(genericBuffered(t).value, GenericBuffer))
    ensures !t.IsAbstract() && !t.IsGenericType() ==>
      (r.Success? <==> t in registry.definedFormatters) &&
      (r.Success? ==> r.value == Resolved(registry.definedFormatters[t], DefinedFormatters))
    ensures r.Failure? ==> r.error == Throw(t, resolver)
  {
    var formatter: Option<Resolved> :=
      if t.IsInterface() || t.IsAbstract() then
        if resolver == RedirectResolver(t) then Some(Resolved(Redirect(t), ResolverItself))
        else Some(Resolved(Redirect(t), NewRedirect))
      else if t.IsGenericType() then
        match genericBuffered(t)
        case Some(f) => Some(Resolved(f, GenericBuffer))
        case None => None
      else
        match registry.GetFormatter(t)
        case Some(f) => Some(Resolved(f, DefinedFormatters))
        case None => None;
    if formatter.Some? then Success(formatter.value) else Failure(Throw(t, resolver))
  }

  /** As written, the message spells the type's name twice before the rest of the sentence. */
  lemma {:induction false} MessageRepeatsTypeName(t: Type, resolver: ResolverRef)
    ensures NotRegisteredMessage(t, resolver)[..2 * |TypeName(t)|] == TypeName(t) + TypeName(t)
  {
    var n, k := TypeName(t), 2 * |TypeName(t)|;
    var front := n + n + " is not registered in resolver: ";
    PrefixOfAppend(front, ResolverTypeName(resolver), k);
    PrefixOfAppend(n + n, " is not registered in resolver: ", k);
    assert (n + n)[..k] == n + n;
  }

  lemma {:induction false} PrefixOfAppend(a: string, b: string, k: nat)
    requires k <= |a|
    ensures (a + b)[..k] == a[..k]
  {
  }

  /** A polymorphic type never fails, and never depends on the registry or the generic buffer. */
  lemma {:induction false} PolymorphicAlwaysRedirects(t: Type, resolver: ResolverRef, registry: NexYamlSerializerRegistry, other: NexYamlSerializerRegistry, g: Type -> Option<Formatter>, h: Type -> Option<Formatter>)
    requires t.IsAbstract()
    ensures GetFormatterWithVerify(t, resolver, registry, g) == GetFormatterWithVerify(t, resolver, other, h)
  {
  }

  /**
    A generic type is served by the generic buffer alone: the table's own entries for
    `int?` and `List<int>` are never consulted, so with an empty buffer even `int?` fails
    on a registry that holds the built-in table.
   */
  lemma {:induction false} GenericTypesBypassTheTable(resolver: ResolverRef, registry: NexYamlSerializerRegistry, g: Type -> Option<Formatter>)
    requires registry.definedFormatters == BuiltinTable()
    requires g(NullableOf(Sys(Int32))) == None
    ensures Lookup(registry.definedFormatters, NullableOf(Sys(Int32))).Some?
    ensures GetFormatterWithVerify(NullableOf(Sys(Int32)), resolver, registry, g) == Failure(Throw(NullableOf(Sys(Int32)), resolver))
  {
    BuiltinNullableEntries();
    GenericMissFails(NullableOf(Sys(Int32)), resolver, registry, g);
  }

  /** A concrete generic type the generic buffer does not serve fails, whatever the table holds. */
  lemma {:induction false} GenericMissFails(t: Type, resolver: ResolverRef, registry: NexYamlSerializerRegistry, g: Type -> Option<Formatter>)
    requires !t.IsAbstract() && t.IsGenericType() && g(t) == None
    ensures GetFormatterWithVerify(t, resolver, registry, g) == Failure(Throw(t, resolver))
  {
  }

  /** The result never depends on the resolver argument except for the redirect's origin and the message. */
  lemma {:induction false} ResolverOnlyNamesTheOrigin(t: Type, a: ResolverRef, b: ResolverRef, registry: NexYamlSerializerRegistry, g: Type -> Option<Formatter>)
    ensures GetFormatterWithVerify(t, a, registry, g).Success? <==> GetFormatterWithVerify(t, b, registry, g).Success?
    ensures GetFormatterWithVerify(t, a, registry, g).Success? ==>
      GetFormatterWithVerify(t, a, registry, g).value.formatter == GetFormatterWithVerify(t, b, registry, g).value.formatter
  {
  }

  /** The default registry resolves `int` through its table, right after construction. */
  method ResolveBuiltinInt(resolver: ResolverRef, g: Type -> Option<Formatter>) returns (r: Result<Resolved, Exception>)
    ensures r == Success(Resolved(Builtin("Int32Formatter"), DefinedFormatters))
  {
    var registry := new NexYamlSerializerRegistry();
    BuiltinPrimitiveEntries();
    r := GetFormatterWithVerify(Sys(Int32), resolver, registry, g);
  }
}
