/**
  `RedirectFormatter<T>` (VYaml.Core/Serialization/Resolvers/RedirectFormatter.cs): the
  formatter for a polymorphic `T`. Serializing looks the value's run-time type up in the
  default registry's polymorphic buffers; deserializing resolves the current tag's handle to a
  type and hands the parser to that type's formatter.

  The formatters it dispatches to are invoked through reflection and are not part of this
  model, nor are the registry members `GetAliasType` and `GetFormatter(Type)`; all of them
  are given as a `Host`.
 */
module RedirectFormatters {
  import opened Wrappers
  import opened Runtime
  import opened Events
  import opened YamlParsers
  import opened SerializationRegistry

  /**
    A formatter's `Deserialize` run on the parser: the value it returns or the exception it
    throws, and the position it leaves the shared parser at either way.
   */
  datatype Parsed = Parsed(result: Result<Value, Exception>, at: nat)

  /**
    A formatter's `Serialize` run on the emitter: the events it writes, and the exception it
    throws after writing them, if any.
   */
  datatype Emitted = Emitted(events: seq<Event>, thrown: Option<Exception>)

  datatype Host = Host(
    /** `NexYamlSerializerRegistry.Default.GetAliasType(handle)`; `None` for `null` */
    aliasType: string -> Option<Type>,
    /** `NexYamlSerializerRegistry.Default.GetFormatter(type)` */
    formatterForType: Option<Type> -> Option<Formatter>,
    /** the formatter's own `Deserialize`, started at position `c` */
    deserializeWith: (Formatter, seq<Event>, nat) -> Parsed,
    /** the formatter's own `Serialize` */
    serializeWith: (Formatter, Value) -> Emitted,
    /** whether an instance of the first type may be cast to the second */
    isAssignable: (Type, Type) -> bool)

  /**
    The cast `(T)result`: `null` passes unless `T` is a non-nullable value type, where
    unboxing it throws `NullReferenceException`; an instance passes when its run-time type is
    assignable to `T` and otherwise throws `InvalidCastException`.
   */
  function CastTo(t: Type, v: Value, isAssignable: (Type, Type) -> bool): (r: Result<Value, Exception>)
    ensures r.Success? ==> r.value == v
    ensures r.Success? <==>
      (RuntimeTypeOf(v).None? && !(t.IsValueType() && !IsNullable(t))) ||
      (RuntimeTypeOf(v).Some? && isAssignable(RuntimeTypeOf(v).value, t))
  {
    match RuntimeTypeOf(v)
    case None => if t.IsValueType() && !IsNullable(t) then Failure(NullReference) else Success(v)
    case Some(rt) => if isAssignable(rt, t) then Success(v) else Failure(InvalidCast)
  }

  /**
    The formatter `Deserialize` dispatches to: the one registered for the type the tag's
    handle names. A missing tag or a missing formatter is a `null` dereference.
   */
  function DeserializerFor(tag: Option<Tag>, host: Host): (r: Result<Formatter, Exception>)
    ensures tag.None? ==> r == Failure(NullReference)
    ensures tag.Some? ==> (r.Success? <==> host.formatterForType(host.aliasType(tag.value.handle)).Some?)
    ensures r.Failure? ==> r.error == NullReference
  {
    if tag.None? then Failure(NullReference)
    else
      match host.formatterForType(host.aliasType(tag.value.handle))
      case None => Failure(NullReference)
      case Some(f) => Success(f)
  }

  /**
    `Deserialize` at position `c`: the cast value or the exception, and where the parser ends.
    Without a formatter nothing moves; once one is invoked the parser ends where that formatter
    left it, whether it returned, threw (the exception arrives wrapped by `Invoke`), or
    returned a value the cast then rejects.
   */
  function DeserializeSpec(t: Type, events: seq<Event>, c: nat, host: Host): (r: Parsed)
    ensures var d := DeserializerFor(EventAt(events, c).tag, host);
      d.Failure? ==> r == Parsed(Failure(d.error), c)
    ensures var d := DeserializerFor(EventAt(events, c).tag, host);
      d.Success? ==> r.at == host.deserializeWith(d.value, events, c).at
    ensures var d := DeserializerFor(EventAt(events, c).tag, host);
      r.result.Success? <==>
        d.Success? && host.deserializeWith(d.value, events, c).result.Success? &&
        CastTo(t, host.deserializeWith(d.value, events, c).result.value, host.isAssignable).Success?
    ensures var d := DeserializerFor(EventAt(events, c).tag, host);
      r.result.Success? ==> r.result.value == host.deserializeWith(d.value, events, c).result.value
    ensures var d := DeserializerFor(EventAt(events, c).tag, host);
      d.Success? && host.deserializeWith(d.value, events, c).result.Failure? ==>
        r.result == Failure(TargetInvocation(host.deserializeWith(d.value, events, c).result.error))
  {
    match DeserializerFor(EventAt(events, c).tag, host)
    case Failure(x) => Parsed(Failure(x), c)
    case Success(f) =>
      var run := host.deserializeWith(f, events, c);
      match run.result
      case Failure(x) => Parsed(Failure(TargetInvocation(x)), run.at)
      case Success(v) => Parsed(CastTo(t, v, host.isAssignable), run.at)
  }

  /**
    The formatter `Serialize` uses for `value`: an interface `T` looks the value's run-time
    type up in the interface family of `T`, an abstract `T` does the same (the lookup it calls
    reads the interface buffer), and any other `T` takes the table's formatter for `T`. A
    `null` value of a polymorphic type, or a missing table entry, is a `null` dereference.
   */
  function SerializerFor(t: Type, value: Value, registry: NexYamlSerializerRegistry): (r: Result<Formatter, Exception>)
    reads registry
    ensures t.IsAbstract() && RuntimeTypeOf(value).None? ==> r == Failure(NullReference)
    ensures t.IsAbstract() && RuntimeTypeOf(value).Some? ==>
      r == FamilyLookup(registry.interfaceBuffer, t, RuntimeTypeOf(value))
    ensures !t.IsAbstract() ==> (r.Success? <==> t in registry.definedFormatters)
    ensures !t.IsAbstract() && r.Success? ==> r.value == registry.definedFormatters[t]
  {
    if t.IsInterface() then
      match RuntimeTypeOf(value)
      case None => Failure(NullReference)
      case Some(rt) => registry.FindInterfaceTypeBased(t, rt)
    else if t.IsAbstract() then
      match RuntimeTypeOf(value)
      case None => Failure(NullReference)
      case Some(rt) => registry.FindAbstractTypeBased(t, rt)
    else
      match registry.GetFormatter(t)
      case None => Failure(NullReference)
      case Some(f) => Success(f)
  }

  /** The emitter: the events written so far. */
  class Emitter {
    var written: seq<Event>

    constructor ()
      ensures written == []
    {
      written := [];
    }

    method Write(events: seq<Event>)
      modifies this
      ensures written == old(written) + events
    {
      written := written + events;
    }
  }

  class RedirectFormatter {
    /** The polymorphic type `T` this formatter stands for. */
    const target: Type

    constructor (target: Type)
      ensures this.target == target
    {
      this.target := target;
    }

    /**
      `Deserialize(ref parser, context)`: the parser object itself is handed to the chosen
      formatter, so it stays wherever that formatter left it.
     */
    method Deserialize(parser: YamlParser, host: Host) returns (r: Result<Value, Exception>)
      modifies parser
      ensures r == DeserializeSpec(target, parser.events, old(parser.cursor), host).result
      ensures parser.cursor == DeserializeSpec(target, parser.events, old(parser.cursor), host).at
    {
      var tag := parser.Current().tag;
      var formatter := DeserializerFor(tag, host);
      if formatter.Failure? {
        return Failure(formatter.error);
      }
      var run := host.deserializeWith(formatter.value, parser.events, parser.cursor);
      parser.cursor := run.at;
      if run.result.Failure? {
        return Failure(TargetInvocation(run.result.error));
      }
      r := CastTo(target, run.result.value, host.isAssignable);
    }

    /** `GetFormatter<T1>()`: delegates to the default registry. */
    function GetFormatter(t1: Type, registry: NexYamlSerializerRegistry): (r: Option<Formatter>)
      reads registry
      ensures r.Some? <==> t1 in registry.definedFormatters
      ensures r.Some? ==> r.value == registry.definedFormatters[t1]
    {
      registry.GetFormatter(t1)
    }

    /**
      `Serialize(ref emitter, value, context)`: the chosen formatter writes to the emitter
      itself, so whatever it wrote stays there even when it then throws.
     */
    method Serialize(emitter: Emitter, value: Value, registry: NexYamlSerializerRegistry, host: Host) returns (o: Outcome<Exception>)
      modifies emitter
      ensures match SerializerFor(target, value, registry)
        case Failure(x) => o == Fail(x) && emitter.written == old(emitter.written)
        case Success(f) =>
          var run := host.serializeWith(f, value);
          emitter.written == old(emitter.written) + run.events &&
          o == (if run.thrown.Some? then Fail(TargetInvocation(run.thrown.value)) else Pass)
    {
      var formatter := SerializerFor(target, value, registry);
      if formatter.Failure? {
        return Fail(formatter.error);
      }
      var run := host.serializeWith(formatter.value, value);
      emitter.Write(run.events);
      if run.thrown.Some? {
        return Fail(TargetInvocation(run.thrown.value));
      }
      o := Pass;
    }
  }

  /** Deserialization is keyed on the tag's handle alone: the suffix is never consulted. */
  lemma {:induction false} DeserializerIgnoresSuffix(handle: string, s1: string, s2: string, host: Host)
    ensures DeserializerFor(Some(Tag(handle, s1)), host) == DeserializerFor(Some(Tag(handle, s2)), host)
  {
  }

  /**
    With a valid registry, the abstract-class buffer plays no part in serializing: an abstract
    class resolves through the interface family registered under it, like an interface.
   */
  lemma {:induction false} AbstractClassesSerializeThroughInterfaceFamilies(a: Type, i: Type, value: Value, registry: NexYamlSerializerRegistry)
    requires a.Kind() == AbstractClass && i.Kind() == Interface
    requires a in registry.interfaceBuffer && i in registry.interfaceBuffer && registry.interfaceBuffer[a] == registry.interfaceBuffer[i]
    ensures SerializerFor(a, value, registry) == SerializerFor(i, value, registry)
  {
  }

  /**
    After `RegisterInterface(f, I)` for the concrete class `C`, a redirect for `I` serializes a
    `C` instance with `f` (passing on what `f` throws, wrapped), and fails on `null`.
   */
  method SerializeThroughInterfaceFamily(i: Type, c: Type, f: Formatter, payload: nat, host: Host)
    returns (o: Outcome<Exception>, written: seq<Event>, onNull: Outcome<Exception>)
    requires i.Kind() == Interface
    ensures written == host.serializeWith(f, Boxed(c, payload)).events
    ensures host.serializeWith(f, Boxed(c, payload)).thrown.None? ==> o == Pass
    ensures host.serializeWith(f, Boxed(c, payload)).thrown.Some? ==>
      o == Fail(TargetInvocation(host.serializeWith(f, Boxed(c, payload)).thrown.value))
    ensures onNull == Fail(NullReference)
  {
    var registry := new NexYamlSerializerRegistry();
    registry.RegisterInterface(c, f, i);
    var redirect := new RedirectFormatter(i);
    var emitter := new Emitter();
    o := redirect.Serialize(emitter, Boxed(c, payload), registry, host);
    written := emitter.written;
    onNull := redirect.Serialize(emitter, Null, registry, host);
  }
}
