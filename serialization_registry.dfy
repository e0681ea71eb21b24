/**
  `VYaml.Serialization.NexYamlSerializerRegistry`
  (VYaml.Core/Serialization/NexYamlSerializerRegistry.cs): the registry the serializer's
  `Default` instance is. Besides the type-to-formatter table it keeps two two-level buffers
  for polymorphic types, base type to concrete type to formatter: one for interfaces and one
  for abstract classes.

  Two behaviours of the code are kept as written: `RegisterAbstractClass` writes into an inner
  dictionary that nothing ever creates, so it always throws and the abstract-class buffer
  stays empty; and `FindAbstractTypeBased` reads the interface buffer.
 */
module SerializationRegistry {
  import opened Wrappers
  import opened Runtime
  import opened FormatterTables
  import opened Events

  /** A polymorphic buffer: base type to (concrete type to formatter). */
  type Buffer = map<Type, map<Type, Formatter>>

  /**
    `buffer[base][concrete]`: the outer indexer throws `KeyNotFoundException` for an unknown
    base; the inner one throws `ArgumentNullException` for a `null` concrete type and
    `KeyNotFoundException` for an unknown one.
   */
  function FamilyLookup(buffer: Buffer, base: Type, concrete: Option<Type>): (r: Result<Formatter, Exception>)
    ensures r.Success? <==> base in buffer && concrete.Some? && concrete.value in buffer[base]
    ensures r.Success? ==> r.value == buffer[base][concrete.value]
    ensures r == Failure(ArgumentNull) <==> base in buffer && concrete.None?
    ensures r == Failure(KeyNotFound) <==> base !in buffer || (concrete.Some? && concrete.value !in buffer[base])
  {
    if base !in buffer then Failure(KeyNotFound)
    else if concrete.None? then Failure(ArgumentNull)
    else if concrete.value !in buffer[base] then Failure(KeyNotFound)
    else Success(buffer[base][concrete.value])
  }

  /** The family of `base`, or the empty family when there is none yet. */
  function Family(buffer: Buffer, base: Type): map<Type, Formatter> {
    if base in buffer then buffer[base] else map[]
  }

  /**
    `RegisterInterface`'s effect: create the family of `base` if missing, then add or replace
    the entry for `concrete`. Every other family, and every other member of this one, is kept.
   */
  function JoinFamily(buffer: Buffer, base: Type, concrete: Type, f: Formatter): (r: Buffer)
    ensures r.Keys == buffer.Keys + {base}
    ensures r[base].Keys == Family(buffer, base).Keys + {concrete}
  {
    buffer[base := Family(buffer, base)[concrete := f]]
  }

  /**
    `RegisterAbstractClass`'s effect, `buffer[base][concrete] = f`: the read of `buffer[base]`
    throws when `base` has no family; otherwise the entry is added or replaced.
   */
  function SetInFamily(buffer: Buffer, base: Type, concrete: Type, f: Formatter): (r: Result<Buffer, Exception>)
    ensures r.Failure? <==> base !in buffer
    ensures r.Failure? ==> r.error == KeyNotFound
    ensures r.Success? ==> r.value == JoinFamily(buffer, base, concrete, f)
  {
    if base !in buffer then Failure(KeyNotFound) else Success(buffer[base := buffer[base][concrete := f]])
  }

  /** After joining a family, looking the concrete type up in it finds the new formatter. */
  lemma {:induction false} LookupAfterJoin(buffer: Buffer, base: Type, concrete: Type, f: Formatter)
    ensures FamilyLookup(JoinFamily(buffer, base, concrete, f), base, Some(concrete)) == Success(f)
  {
  }

  /** Joining the family of `base` changes no lookup under another base. */
  lemma {:induction false} JoinKeepsOtherFamilies(buffer: Buffer, base: Type, concrete: Type, f: Formatter, base': Type, concrete': Option<Type>)
    requires base' != base
    ensures FamilyLookup(JoinFamily(buffer, base, concrete, f), base', concrete') == FamilyLookup(buffer, base', concrete')
  {
  }

  /** Joining the family of `base` with `concrete` changes no lookup of another concrete type in it. */
  lemma {:induction false} JoinKeepsOtherMembers(buffer: Buffer, base: Type, concrete: Type, f: Formatter, concrete': Type)
    requires concrete' != concrete
    ensures FamilyLookup(JoinFamily(buffer, base, concrete, f), base, Some(concrete')) == FamilyLookup(buffer, base, Some(concrete'))
  {
    if base in buffer {
      assert JoinFamily(buffer, base, concrete, f)[base] == buffer[base][concrete := f];
    }
  }

  /** A buffer nobody has joined a family of never accepts `SetInFamily`, and so stays empty. */
  lemma {:induction false} SetInEmptyBufferFails(base: Type, concrete: Type, f: Formatter)
    ensures SetInFamily(map[], base, concrete, f) == Failure(KeyNotFound)
  {
  }

  class NexYamlSerializerRegistry {
    /** `DefinedFormatters` */
    var definedFormatters: Table
    /** `InterfaceBuffer` */
    var interfaceBuffer: Buffer
    /** `AbstractClassesBuffer` */
    var abstractClassesBuffer: Buffer

    /** No member ever creates a family in the abstract-class buffer, so it is always empty. */
    ghost predicate Valid()
      reads this
    {
      abstractClassesBuffer == map[]
    }

    constructor ()
      ensures Valid()
      ensures definedFormatters == BuiltinTable() && interfaceBuffer == map[]
    {
      definedFormatters := BuiltinTable();
      interfaceBuffer := map[];
      abstractClassesBuffer := map[];
    }

    /** `GetFormatter<T>()`: the formatter registered for `T`, or `null`. */
    function GetFormatter(t: Type): (r: Option<Formatter>)
      reads this
      ensures r.Some? <==> t in definedFormatters
      ensures r.Some? ==> r.value == definedFormatters[t]
    {
      Lookup(definedFormatters, t)
    }

    /** `RegisterFormatter<T>(formatter)`: add or replace the entry for `T`; nothing else changes. */
    method RegisterFormatter(t: Type, formatter: Formatter)
      requires Valid()
      modifies this
      ensures Valid()
      ensures definedFormatters == Register(old(definedFormatters), t, formatter)
      ensures interfaceBuffer == old(interfaceBuffer)
    {
      definedFormatters := definedFormatters[t := formatter];
    }

    /**
      `RegisterInterface<T>(formatter, interfaceType)`: file the formatter for the concrete type
      `T` under the family of `interfaceType`, creating the family on first use.
     */
    method RegisterInterface(t: Type, formatter: Formatter, interfaceType: Type)
      requires Valid()
      modifies this
      ensures Valid()
      ensures interfaceBuffer == JoinFamily(old(interfaceBuffer), interfaceType, t, formatter)
      ensures definedFormatters == old(definedFormatters)
    {
      if interfaceType !in interfaceBuffer {
        interfaceBuffer := interfaceBuffer[interfaceType := map[]];
      }
      if t !in interfaceBuffer[interfaceType] {
        interfaceBuffer := interfaceBuffer[interfaceType := interfaceBuffer[interfaceType][t := formatter]];
      } else {
        interfaceBuffer := interfaceBuffer[interfaceType := interfaceBuffer[interfaceType][t := formatter]];
      }
    }

    /**
      `RegisterAbstractClass<T>(formatter, interfaceType)`: `AbstractClassesBuffer[interfaceType][T] =
      formatter`. The family is never created, so on a valid registry this always throws
      `KeyNotFoundException` and changes nothing.
     */
    method RegisterAbstractClass(t: Type, formatter: Formatter, interfaceType: Type) returns (o: Outcome<Exception>)
      modifies this
      ensures old(Valid()) ==> Valid() && o == Fail(KeyNotFound)
      ensures match SetInFamily(old(abstractClassesBuffer), interfaceType, t, formatter)
        case Success(b) => o == Pass && abstractClassesBuffer == b
        case Failure(x) => o == Fail(x) && abstractClassesBuffer == old(abstractClassesBuffer)
      ensures definedFormatters == old(definedFormatters) && interfaceBuffer == old(interfaceBuffer)
    {
      if interfaceType !in abstractClassesBuffer {
        return Fail(KeyNotFound);
      }
      abstractClassesBuffer := abstractClassesBuffer[interfaceType := abstractClassesBuffer[interfaceType][t := formatter]];
      o := Pass;
    }

    /**
      `FindInterfaceFormatter<T>(tag)`: resolve the tag's handle to a type with `Type.GetType`
      (given as `getType`, `None` for `null`) and look it up in the family of `T`.
     */
    function FindInterfaceFormatter(t: Type, tag: Tag, getType: string -> Option<Type>): (r: Result<Formatter, Exception>)
      reads this
      ensures r.Success? <==> t in interfaceBuffer && getType(tag.handle).Some? && getType(tag.handle).value in interfaceBuffer[t]
      ensures r.Success? ==> r.value == interfaceBuffer[t][getType(tag.handle).value]
      ensures r == Failure(ArgumentNull) <==> t in interfaceBuffer && getType(tag.handle).None?
      ensures r.Failure? && r != Failure(ArgumentNull) ==> r == Failure(KeyNotFound)
    {
      FamilyLookup(interfaceBuffer, t, getType(tag.handle))
    }

    /** `FindInterfaceTypeBased<T>(target)`: the formatter filed for `target` under the family of `T`. */
    function FindInterfaceTypeBased(t: Type, target: Type): (r: Result<Formatter, Exception>)
      reads this
      ensures r.Success? <==> t in interfaceBuffer && target in interfaceBuffer[t]
      ensures r.Success? ==> r.value == interfaceBuffer[t][target]
      ensures r.Failure? ==> r.error == KeyNotFound
    {
      FamilyLookup(interfaceBuffer, t, Some(target))
    }

    /** `FindAbstractTypeBased<T>(target)`: as written, it reads the interface buffer. */
    function FindAbstractTypeBased(t: Type, target: Type): (r: Result<Formatter, Exception>)
      reads this
      ensures r.Success? <==> t in interfaceBuffer && target in interfaceBuffer[t]
      ensures r.Success? ==> r.value == interfaceBuffer[t][target]
      ensures r.Failure? ==> r.error == KeyNotFound
    {
      FamilyLookup(interfaceBuffer, t, Some(target))
    }

    /** `FindAbstractFormatter<T>(tag)`: like `FindInterfaceFormatter`, on the abstract-class buffer. */
    function FindAbstractFormatter(t: Type, tag: Tag, getType: string -> Option<Type>): (r: Result<Formatter, Exception>)
      reads this
      ensures Valid() ==> r == Failure(KeyNotFound)
      ensures r.Success? <==> t in abstractClassesBuffer && getType(tag.handle).Some? && getType(tag.handle).value in abstractClassesBuffer[t]
      ensures r.Success? ==> r.value == abstractClassesBuffer[t][getType(tag.handle).value]
    {
      FamilyLookup(abstractClassesBuffer, t, getType(tag.handle))
    }
  }

  /** As written, the abstract-class lookup by run-time type is the interface lookup, for every argument. */
  lemma {:induction false} AbstractTypeBasedIsInterfaceTypeBased(registry: NexYamlSerializerRegistry, t: Type, target: Type)
    ensures registry.FindAbstractTypeBased(t, target) == registry.FindInterfaceTypeBased(t, target)
  {
  }

  /**
    An interface family resolves both ways: after `RegisterInterface(f, base)` for the concrete
    type `c`, the lookup by run-time type and the lookup by a tag whose handle names `c` both
    find `f`, and the family of another base stays unknown.
   */
  method InterfaceFamilyResolves(base: Type, c: Type, f: Formatter, tag: Tag, getType: string -> Option<Type>, otherBase: Type)
    returns (byType: Result<Formatter, Exception>, byTag: Result<Formatter, Exception>, elsewhere: Result<Formatter, Exception>)
    requires getType(tag.handle) == Some(c)
    requires otherBase != base
    ensures byType == Success(f) && byTag == Success(f)
    ensures elsewhere == Failure(KeyNotFound)
  {
    var registry := new NexYamlSerializerRegistry();
    registry.RegisterInterface(c, f, base);
    byType := registry.FindInterfaceTypeBased(base, c);
    byTag := registry.FindInterfaceFormatter(base, tag, getType);
    elsewhere := registry.FindInterfaceTypeBased(otherBase, c);
  }

  /**
    An abstract-class family never resolves: registering it throws, and the tag lookup throws
    `KeyNotFoundException` whatever was registered before. The run-time-type lookup instead
    finds what `RegisterInterface` filed under the same base.
   */
  method AbstractFamilyNeverResolves(base: Type, c: Type, f: Formatter, g: Formatter, tag: Tag, getType: string -> Option<Type>)
    returns (registered: Outcome<Exception>, byTag: Result<Formatter, Exception>, byType: Result<Formatter, Exception>)
    ensures registered == Fail(KeyNotFound)
    ensures byTag == Failure(KeyNotFound)
    ensures byType == Success(g)
  {
    var registry := new NexYamlSerializerRegistry();
    registered := registry.RegisterAbstractClass(c, f, base);
    registry.RegisterInterface(c, g, base);
    byTag := registry.FindAbstractFormatter(base, tag, getType);
    byType := registry.FindAbstractTypeBased(base, c);
  }
}
