# VYaml type-directed dispatch, in Dafny

This project models the core of NexVYaml, a YAML serialization engine for .NET. The core is
the layer that decides which formatter reads or writes a value of a given type, together with
the parser surface that generated formatters read from:

- **The two formatter registries.**
  - `VYaml.NexYamlSerializerRegistry` holds one type-to-formatter table (module
    `VYamlRegistry`).
  - `VYaml.Serialization.NexYamlSerializerRegistry` holds the same table plus two polymorphic
    buffers, base type to concrete type to formatter (module `SerializationRegistry`).
  - Both start from the same built-in table (module `FormatterTables`).
- **`TypeDictionary` and `TypeKey`** (module `TypeDictionaries`): a dictionary whose key
  equality erases generic arguments, so `List<int>` and `List<string>` share one slot.
- **`GetFormatterWithVerify`** (module `FormatterResolvers`): polymorphic types get a
  `RedirectFormatter<T>`, concrete generic types get the generic buffer's formatter, and every
  other type gets the registry table's formatter. A miss throws `YamlSerializerException`.
- **`RedirectFormatter<T>`** (module `RedirectFormatters`):
  - `Serialize` picks a formatter by the value's run-time type from the polymorphic buffers.
  - `Deserialize` picks one by the current tag's handle and casts the result to `T`.
- **The parser's scalar accessors** (module `YamlParsers`), modelled on a `YamlParser` class
  that holds the event stream and a cursor:
  - `IsNullScalar`, `GetScalarAs*`, `TryGetScalarAs*`, `TryGetCurrentTag` and
    `TryGetCurrentAnchor` read the current event only;
  - `ReadScalarAs*` read, then advance with `ReadWithVerify(Scalar)`.
- **The source generator** (module `SourceGenerator`):
  - the module, `partial` and nested gating of `Execute` and `Emit`;
  - the declaration keyword;
  - the hint name;
  - one output per analysed type.
- **The `Deserialize` method the generator emits** (module `GeneratedDeserializers`):
  - a null scalar yields `default`;
  - a type without members skips the node;
  - otherwise a loop over the entries of a mapping matches each key against the members'
    UTF-8 key bytes with a `switch` on the key length, decodes matched values, skips unknown
    ones, and builds the instance.

Module `Events` holds the parser's event vocabulary and the well-nested shape of an event
stream: a node is one scalar or alias event, or a start event, its children and the matching
end event. `GeneratedDeserializers` proves two things on top of it:

- the emitted loop, run over the events of a mapping node, computes a definition written over
  the document tree (`DeserializeAtNode`, `MappingLoopOverEntries`);
- over that tree definition, absent keys keep `default`, the last occurrence of a repeated key
  wins, and unknown keys are ignored.

Uninterpreted .NET facilities are parameters:

- `Type.GetType`, `GetAliasType`, `GetFormatter(Type)` and `GetGenericBufferedFormatter`;
- the dispatched formatters' `Serialize` and `Deserialize`;
- casts;
- `Type.GetHashCode`;
- the decoding of member values.

The static `Default` registry is an explicit registry argument. The scalar conversions of the
parser's scalar type are fields of each scalar: its bytes, its text, whether it is null, and
each `TryGetX` result.

Three behaviours of the code are modelled as written and stated as lemmas or contracts:

- The serialization registry keeps two polymorphic buffers, `InterfaceBuffer` and
  `AbstractClassesBuffer`, but `FindAbstractTypeBased` reads `InterfaceBuffer`.
  `RegisterAbstractClass` writes into an inner table of `AbstractClassesBuffer` that nothing
  creates, so it always throws.
- `RedirectFormatter.Serialize` emits nothing itself, not even a tag: the emitter holds exactly
  what the dispatched formatter wrote.
- `RedirectFormatter.Deserialize` reads the current tag's handle without a `null` check, so
  an untagged node is a `null` dereference (`NullReference`).

## Model

| member | source | states |
|---|---|---|
| `YamlParsers.YamlParser.IsNullScalar` | VYaml.Core/Parser/YamlParser.TryGet.cs:10-15 | true exactly when the current event is a scalar event whose scalar is absent or reports null |
| `YamlParsers.YamlParser.GetScalarAsString` | VYaml.Core/Parser/YamlParser.TryGet.cs:18-21 | present exactly when there is a current scalar, and then it is that scalar's text |
| `YamlParsers.YamlParser.TryGetScalarAsSpan` | VYaml.Core/Parser/YamlParser.TryGet.cs:24-33 | false with an empty span exactly when there is no scalar; otherwise true with the scalar's bytes |
| `YamlParsers.YamlParser.GetScalarAsBool` | VYaml.Core/Parser/YamlParser.TryGet.cs:36-43 | succeeds exactly when a scalar exists and converts, with the converted value; otherwise a `YamlParserException` at the current mark |
| `YamlParsers.YamlParser.GetScalarAsInt32` | VYaml.Core/Parser/YamlParser.TryGet.cs:46-53 | as `GetScalarAsBool`, for a 32-bit signed integer |
| `YamlParsers.YamlParser.GetScalarAsInt64` | VYaml.Core/Parser/YamlParser.TryGet.cs:56-63 | as `GetScalarAsBool`, for a 64-bit signed integer |
| `YamlParsers.YamlParser.GetScalarAsUInt32` | VYaml.Core/Parser/YamlParser.TryGet.cs:66-73 | as `GetScalarAsBool`, for a 32-bit unsigned integer |
| `YamlParsers.YamlParser.GetScalarAsUInt64` | VYaml.Core/Parser/YamlParser.TryGet.cs:76-83 | as `GetScalarAsBool`, for a 64-bit unsigned integer |
| `YamlParsers.YamlParser.CannotDetect` | VYaml.Core/Parser/YamlParser.TryGet.cs:42 | the accessors' exception is a `YamlParserException` carrying the current mark |
| `YamlParsers.YamlParser.ReadScalarAsString` | VYaml.Core/Parser/YamlParser.TryGet.cs:106-111 | on a scalar event, returns the text captured before moving and advances one event; on any other event, fails with the `ReadWithVerify` error and does not move |
| `YamlParsers.YamlParser.ReadScalarAsBool` | VYaml.Core/Parser/YamlParser.TryGet.cs:113-119 | a failed conversion is returned before the cursor moves; a successful one is returned after advancing past the scalar, unless the event is not a scalar |
| `YamlParsers.YamlParser.ReadScalarAsInt32` | VYaml.Core/Parser/YamlParser.TryGet.cs:121-127 | as `ReadScalarAsBool`, through `GetScalarAsInt32` |
| `YamlParsers.YamlParser.ReadScalarAsInt64` | VYaml.Core/Parser/YamlParser.TryGet.cs:129-135 | as `ReadScalarAsBool`, through `GetScalarAsInt64` |
| `YamlParsers.YamlParser.ReadScalarAsUInt32` | VYaml.Core/Parser/YamlParser.TryGet.cs:137-143 | as `ReadScalarAsBool`, through `GetScalarAsUInt32` |
| `YamlParsers.YamlParser.ReadScalarAsUInt64` | VYaml.Core/Parser/YamlParser.TryGet.cs:145-151 | as `ReadScalarAsBool`, through `GetScalarAsUInt64` |
| `YamlParsers.YamlParser.TryGetScalarAsString` | VYaml.Core/Parser/YamlParser.TryGet.cs:170-179 | true exactly with a scalar; the value is withheld exactly for the null scalar and is otherwise the text |
| `YamlParsers.YamlParser.TryGetScalarAsBool` | VYaml.Core/Parser/YamlParser.TryGet.cs:181-188 | the scalar's own conversion result, or false and `default` without a scalar |
| `YamlParsers.YamlParser.TryGetScalarAsInt32` | VYaml.Core/Parser/YamlParser.TryGet.cs:190-197 | as `TryGetScalarAsBool`, for `Int32` |
| `YamlParsers.YamlParser.TryGetScalarAsInt64` | VYaml.Core/Parser/YamlParser.TryGet.cs:199-206 | as `TryGetScalarAsBool`, for `Int64` |
| `YamlParsers.YamlParser.TryGetCurrentTag` | VYaml.Core/Parser/YamlParser.TryGet.cs:226-236 | true exactly when the current event has a tag, which is returned unchanged |
| `YamlParsers.YamlParser.TryGetCurrentAnchor` | VYaml.Core/Parser/YamlParser.TryGet.cs:238-248 | true exactly when the current event has an anchor, which is returned unchanged |
| `YamlParsers.GetAgreesWithTryGet` | VYaml.Core/Parser/YamlParser.TryGet.cs:36-63 | each throwing accessor succeeds exactly when its `TryGet` twin answers true, and then with the same value |
| `YamlParsers.StringAccessorsAgree` | VYaml.Core/Parser/YamlParser.TryGet.cs:10-33 | the string, span and null tests agree: with a scalar both try-accessors answer true, and on a scalar event the text is withheld exactly for a null scalar |
| `YamlParsers.YamlParser.Read` | VYaml.Core/Parser/YamlParser.TryGet.cs:109 | moves one event forward unless the stream is at its end, and says whether it moved |
| `YamlParsers.YamlParser.ReadWithVerify` | VYaml.Core/Parser/YamlParser.TryGet.cs:109 | on the expected kind, reads; otherwise throws "Did not find expected event" at the current mark and does not move |
| `YamlParsers.YamlParser.EndIsStreamEnd` | VYaml.SourceGenerator.Roslyn3/VYamlSourceGenerator.cs:208 | in a stream whose terminator is its end, `End` holds exactly when the current event is `StreamEnd` |
| `YamlParsers.YamlParser.SkipCurrentNode` | VYaml.SourceGenerator.Roslyn3/VYamlSourceGenerator.cs:196 | the depth-counting loop ends where the skip specification says: after one event for a scalar or alias, after the matching end event for a container; it fails without moving elsewhere |
| `Events.SkipOverNode` | VYaml.SourceGenerator.Roslyn3/VYamlSourceGenerator.cs:240-241 | at the first event of any well-nested node, skipping moves exactly past that node's events |
| `YamlParsers.SkipNode` | VYaml.SourceGenerator.Roslyn3/VYamlSourceGenerator.cs:240-241 | a parser at a node, with any events before and after it, skips exactly that node |
| `Events.NodeShape` | VYaml.SourceGenerator.Roslyn3/VYamlSourceGenerator.cs:241 | every node's events are balanced; a container's proper non-empty prefixes are strictly inside it, so the skip cannot stop early |
| `TypeDictionaries.Normalised` | VYaml.Core/TypeDictionary.cs:42-43 | the normal form is never a constructed generic type, and is generic exactly when the type is |
| `TypeDictionaries.KeyEqualsCharacterisation` | VYaml.Core/TypeDictionary.cs:37-48 | two keys are equal exactly when both are generic with one definition, or both are non-generic and identical |
| `TypeDictionaries.KeyEqualsIsEquivalence` | VYaml.Core/TypeDictionary.cs:37-48 | key equality is reflexive, symmetric and transitive |
| `TypeDictionaries.HashAgreesWithEquals` | VYaml.Core/TypeDictionary.cs:31-35 | equal keys hash alike, whatever the run-time's hash of a type is |
| `TypeDictionaries.EqualsRejectsNonKeys` | VYaml.Core/TypeDictionary.cs:39-47 | `Equals` on `null` or any object that is not a `TypeKey` is false |
| `TypeDictionaries.InstantiationsShareAKey` | VYaml.Core/TypeDictionary.cs:42-45 | all instantiations of one generic definition are equal keys, and equal to the definition |
| `TypeDictionaries.StoredValue` | VYaml.Core/TypeDictionary.cs:18 | `TryGetValue` finds a value exactly when an equal key is stored, and it is that key's value |
| `TypeDictionaries.Stored` | VYaml.Core/TypeDictionary.cs:13 | the indexer write keeps the stored keys pairwise unequal |
| `TypeDictionaries.StoredThenFound` | VYaml.Core/TypeDictionary.cs:11-19 | after a write, keys equal to the written one find the new value and all other keys find what they found before |
| `TypeDictionaries.TypeDictionary.Add` | VYaml.Core/TypeDictionary.cs:11-14 | the dictionary becomes the indexer write of the key, and stays free of equal keys |
| `TypeDictionaries.TypeDictionary.FindAssignableType` | VYaml.Core/TypeDictionary.cs:15-19 | finds a value exactly when a stored key has the same normalised type, and then that key's value; otherwise `null` |
| `TypeDictionaries.SharedGenericSlot` | VYaml.Core/TypeDictionary.cs:11-19 | after adding `List<int>`, the slot is found through `List<string>` and `List<>`; adding `List<bool>` overwrites it; `int` stays absent |
| `FormatterTables.Lookup` | VYaml.Core/NexYamlSerializerRegistry.cs:76-83 | finds a formatter exactly when the type is a key, and it is that key's entry; otherwise `null` |
| `FormatterTables.Register` | VYaml.Core/NexYamlSerializerRegistry.cs:84-89 | registration always succeeds and adds the type to the keys |
| `FormatterTables.LookupAfterRegister` | VYaml.Core/NexYamlSerializerRegistry.cs:84-89 | a lookup right after registering a type finds the registered formatter |
| `FormatterTables.LastWriterWins` | VYaml.Core/NexYamlSerializerRegistry.cs:87 | registering a type twice is registering it once with the second formatter |
| `FormatterTables.RegisterKeepsOtherKeys` | VYaml.Core/NexYamlSerializerRegistry.cs:87 | registering a type changes no other type's lookup |
| `FormatterTables.RegistrationsOfDistinctTypesCommute` | VYaml.Core/NexYamlSerializerRegistry.cs:87 | registrations of different types may be done in either order |
| `FormatterTables.BuiltinPrimitiveEntries` | VYaml.Core/Serialization/NexYamlSerializerRegistry.cs:15-27 | the initial table maps `int` to `Int32Formatter` and `byte[]` to `ByteArrayFormatter` |
| `FormatterTables.BuiltinNullableEntries` | VYaml.Core/Serialization/NexYamlSerializerRegistry.cs:31 | the initial table maps `int?` to `NullableInt32Formatter` |
| `FormatterTables.BuiltinStandardLibraryEntries` | VYaml.Core/NexYamlSerializerRegistry.cs:45-47 | the initial table maps `string` to `NullableStringFormatter` and `decimal?` to a `StaticNullableFormatter` over `DecimalFormatter` |
| `FormatterTables.BuiltinCollectionEntries` | VYaml.Core/Serialization/NexYamlSerializerRegistry.cs:70-73 | the initial table maps `List<string>` and `object[]` to their collection formatters, and has no entry for `object` |
| `VYamlRegistry.NexYamlSerializerRegistry.constructor` | VYaml.Core/NexYamlSerializerRegistry.cs:11-74 | a new registry holds exactly the built-in table |
| `VYamlRegistry.NexYamlSerializerRegistry.GetFormatter` | VYaml.Core/NexYamlSerializerRegistry.cs:76-83 | the entry for the type, or `null` when the type is not a key |
| `VYamlRegistry.NexYamlSerializerRegistry.RegisterFormatter` | VYaml.Core/NexYamlSerializerRegistry.cs:84-89 | the table becomes the old table with the type's entry added or replaced |
| `VYamlRegistry.RegisterThenResolve` | VYaml.Core/NexYamlSerializerRegistry.cs:76-89 | a fresh registry resolves `int` to the built-in; after registering `T` it resolves `T` to it; re-registering replaces it; other types resolve as before |
| `SerializationRegistry.FamilyLookup` | VYaml.Core/Serialization/NexYamlSerializerRegistry.cs:117-120 | `buffer[base][concrete]` succeeds exactly when both keys are present; it throws `ArgumentNullException` for a `null` concrete type under a known base, and `KeyNotFoundException` otherwise |
| `SerializationRegistry.JoinFamily` | VYaml.Core/Serialization/NexYamlSerializerRegistry.cs:91-106 | the bases gain `base`, and its family gains `concrete` |
| `SerializationRegistry.SetInFamily` | VYaml.Core/Serialization/NexYamlSerializerRegistry.cs:107-111 | fails with `KeyNotFoundException` exactly when the base has no family; otherwise it joins the family |
| `SerializationRegistry.LookupAfterJoin` | VYaml.Core/Serialization/NexYamlSerializerRegistry.cs:91-106 | after joining, the concrete type resolves to the new formatter under its base |
| `SerializationRegistry.JoinKeepsOtherFamilies` | VYaml.Core/Serialization/NexYamlSerializerRegistry.cs:91-106 | joining one base's family changes no lookup under another base |
| `SerializationRegistry.JoinKeepsOtherMembers` | VYaml.Core/Serialization/NexYamlSerializerRegistry.cs:91-106 | joining changes no lookup of another concrete type in the same family |
| `SerializationRegistry.SetInEmptyBufferFails` | VYaml.Core/Serialization/NexYamlSerializerRegistry.cs:107-111 | on the empty abstract-class buffer the write always throws `KeyNotFoundException` |
| `SerializationRegistry.NexYamlSerializerRegistry.constructor` | VYaml.Core/Serialization/NexYamlSerializerRegistry.cs:11-76 | starts from the built-in table and empty polymorphic buffers |
| `SerializationRegistry.NexYamlSerializerRegistry.GetFormatter` | VYaml.Core/Serialization/NexYamlSerializerRegistry.cs:77-85 | the entry for the type, or `null` when the type is not a key |
| `SerializationRegistry.NexYamlSerializerRegistry.RegisterFormatter` | VYaml.Core/Serialization/NexYamlSerializerRegistry.cs:86-90 | the table gets the type's entry added or replaced; the buffers are unchanged |
| `SerializationRegistry.NexYamlSerializerRegistry.RegisterInterface` | VYaml.Core/Serialization/NexYamlSerializerRegistry.cs:91-106 | the interface buffer becomes the old one with the family joined, creating it on first use; the table is unchanged |
| `SerializationRegistry.NexYamlSerializerRegistry.RegisterAbstractClass` | VYaml.Core/Serialization/NexYamlSerializerRegistry.cs:107-111 | as written: the write succeeds only under an existing family, none is ever created, so it always throws `KeyNotFoundException` and changes nothing |
| `SerializationRegistry.NexYamlSerializerRegistry.FindInterfaceFormatter` | VYaml.Core/Serialization/NexYamlSerializerRegistry.cs:112-116 | succeeds exactly when the type the tag's handle names is filed under the family of `T`, with that formatter; an unresolvable handle throws `ArgumentNullException`, other misses `KeyNotFoundException` |
| `SerializationRegistry.NexYamlSerializerRegistry.FindInterfaceTypeBased` | VYaml.Core/Serialization/NexYamlSerializerRegistry.cs:117-120 | succeeds exactly when `target` is filed under the family of `T`, with its formatter; otherwise `KeyNotFoundException` |
| `SerializationRegistry.NexYamlSerializerRegistry.FindAbstractTypeBased` | VYaml.Core/Serialization/NexYamlSerializerRegistry.cs:121-124 | as written: the same answers from the interface buffer |
| `SerializationRegistry.NexYamlSerializerRegistry.FindAbstractFormatter` | VYaml.Core/Serialization/NexYamlSerializerRegistry.cs:126-130 | the tag lookup in the abstract-class buffer, which always throws `KeyNotFoundException` |
| `SerializationRegistry.AbstractTypeBasedIsInterfaceTypeBased` | VYaml.Core/Serialization/NexYamlSerializerRegistry.cs:117-124 | the abstract lookup by run-time type equals the interface lookup for every argument |
| `SerializationRegistry.InterfaceFamilyResolves` | VYaml.Core/Serialization/NexYamlSerializerRegistry.cs:91-120 | after `RegisterInterface`, both the run-time-type lookup and the tag lookup find the formatter; another base stays unknown |
| `SerializationRegistry.AbstractFamilyNeverResolves` | VYaml.Core/Serialization/NexYamlSerializerRegistry.cs:107-130 | registering an abstract family throws and its tag lookup throws, while its run-time-type lookup finds what `RegisterInterface` filed |
| `FormatterResolvers.Throw` | VYaml.Core/Serialization/IYamlFormatterResolver.cs:62-65 | a `YamlSerializerException` without a mark whose message starts with the type's name and ends with the resolver's type name |
| `FormatterResolvers.GetFormatterWithVerify` | VYaml.Core/Serialization/IYamlFormatterResolver.cs:17-60 | interfaces and abstract classes, generic or not, always get a redirect, reused exactly when the resolver is that redirect; concrete generic types succeed exactly when the generic buffer has a formatter; others exactly when the table has one; every failure is `Throw(T, resolver)` |
| `FormatterResolvers.MessageRepeatsTypeName` | VYaml.Core/Serialization/IYamlFormatterResolver.cs:64 | as written, the message spells the type's name twice in a row |
| `FormatterResolvers.PolymorphicAlwaysRedirects` | VYaml.Core/Serialization/IYamlFormatterResolver.cs:23-34 | for a polymorphic type the result depends neither on the registry nor on the generic buffer |
| `FormatterResolvers.GenericTypesBypassTheTable` | VYaml.Core/Serialization/IYamlFormatterResolver.cs:37-40 | `int?` has a table entry, yet with an empty generic buffer it fails |
| `FormatterResolvers.GenericMissFails` | VYaml.Core/Serialization/IYamlFormatterResolver.cs:37-59 | a concrete generic type the buffer does not serve always fails |
| `FormatterResolvers.ResolverOnlyNamesTheOrigin` | VYaml.Core/Serialization/IYamlFormatterResolver.cs:23-44 | success and the chosen formatter do not depend on the resolver argument |
| `FormatterResolvers.ResolveBuiltinInt` | VYaml.Core/Serialization/IYamlFormatterResolver.cs:41-44 | a fresh default registry resolves `int` to `Int32Formatter` from its table |
| `RedirectFormatters.CastTo` | VYaml.Core/Serialization/Resolvers/RedirectFormatter.cs:28 | the cast passes the value unchanged; `null` passes exactly for reference or nullable targets, and an instance passes exactly when its run-time type is assignable |
| `RedirectFormatters.DeserializerFor` | VYaml.Core/Serialization/Resolvers/RedirectFormatter.cs:21-26 | a missing tag or an unregistered alias is a `null` dereference; otherwise the formatter registered for the handle's alias |
| `RedirectFormatters.DeserializeSpec` | VYaml.Core/Serialization/Resolvers/RedirectFormatter.cs:18-29 | succeeds exactly when the tag's handle has a formatter, that formatter returns, and the cast holds, and then yields that formatter's value; with no formatter the parser stays put, otherwise it ends where the formatter left it, and a formatter's exception arrives wrapped as `TargetInvocation` |
| `RedirectFormatters.SerializerFor` | VYaml.Core/Serialization/Resolvers/RedirectFormatter.cs:38-51 | polymorphic targets look the value's run-time type up in the interface buffer, failing on `null`; other targets take the table's entry for `T` |
| `RedirectFormatters.RedirectFormatter.Deserialize` | VYaml.Core/Serialization/Resolvers/RedirectFormatter.cs:18-29 | returns `DeserializeSpec`'s result and leaves the parser at `DeserializeSpec`'s position: where the chosen formatter left it, also when it threw or the cast failed |
| `RedirectFormatters.RedirectFormatter.GetFormatter` | VYaml.Core/Serialization/Resolvers/RedirectFormatter.cs:31-34 | the default registry's entry for `T1`, or `null` |
| `RedirectFormatters.RedirectFormatter.Serialize` | VYaml.Core/Serialization/Resolvers/RedirectFormatter.cs:36-54 | the emitter receives exactly the events the chosen formatter wrote and nothing of its own, also when that formatter throws, whose exception arrives wrapped as `TargetInvocation`; when no formatter is found the emitter is unchanged |
| `RedirectFormatters.DeserializerIgnoresSuffix` | VYaml.Core/Serialization/Resolvers/RedirectFormatter.cs:24 | dispatch reads only the tag's handle, never its suffix |
| `RedirectFormatters.AbstractClassesSerializeThroughInterfaceFamilies` | VYaml.Core/Serialization/Resolvers/RedirectFormatter.cs:40-47 | an abstract class serializes through the interface family filed under it, like an interface with the same family |
| `RedirectFormatters.SerializeThroughInterfaceFamily` | VYaml.Core/Serialization/Resolvers/RedirectFormatter.cs:40-53 | after `RegisterInterface`, a redirect for the interface writes the registered formatter's events for an instance, passes on its exception wrapped, and fails on `null` |
| `SourceGenerator.ReplaceCharIsMapChar` | VYaml.SourceGenerator.Roslyn3/VYamlSourceGenerator.cs:100-101 | replacing one character by another turns exactly the occurrences of that character |
| `SourceGenerator.ReplaceWithoutOccurrence` | VYaml.SourceGenerator.Roslyn3/VYamlSourceGenerator.cs:99 | a string missing some character of the pattern is unchanged |
| `SourceGenerator.HintStemShape` | VYaml.SourceGenerator.Roslyn3/VYamlSourceGenerator.cs:98-101 | the file-name stem has no angle brackets, and is the name without `global::` with each bracket turned into `_` |
| `SourceGenerator.HintStemOfGlobalName` | VYaml.SourceGenerator.Roslyn3/VYamlSourceGenerator.cs:98-101 | for `global::N` with no colon in `N`, only the brackets of `N` change |
| `SourceGenerator.HintNamesCanCollide` | VYaml.SourceGenerator.Roslyn3/VYamlSourceGenerator.cs:98-101 | the distinct types `A<B>` and `A_B_` get the same file name |
| `SourceGenerator.KeywordCharacterisation` | VYaml.SourceGenerator.Roslyn3/VYamlSourceGenerator.cs:103-109 | the keyword starts with `record` exactly for records and ends with `struct` exactly for value types |
| `SourceGenerator.KeywordInjective` | VYaml.SourceGenerator.Roslyn3/VYamlSourceGenerator.cs:103-109 | different kinds of type never share a keyword |
| `SourceGenerator.ReturnType` | VYaml.SourceGenerator.Roslyn3/VYamlSourceGenerator.cs:156-158 | the type itself for value types, its nullable form otherwise |
| `SourceGenerator.Emit` | VYaml.SourceGenerator.Roslyn3/VYamlSourceGenerator.cs:54-130 | a diagnostic exactly for non-`partial` or nested types, `MustBePartial` taking precedence; otherwise one file named by the hint name, with the keyword, the type's name, `<TypeName>GeneratedFormatter`, the return type, the namespace and the members |
| `SourceGenerator.EmittedOnePerType` | VYaml.SourceGenerator.Roslyn3/VYamlSourceGenerator.cs:29-37 | one output per analysed work item, each one `Emit` of such an item |
| `SourceGenerator.SourcesComeFromPartialTopLevelTypes` | VYaml.SourceGenerator.Roslyn3/VYamlSourceGenerator.cs:57-74 | every added file belongs to a `partial`, non-nested analysed type and carries its hint name |
| `SourceGenerator.UnityModulesAreSkipped` | VYaml.SourceGenerator.Roslyn3/VYamlSourceGenerator.cs:17-20 | Unity engine modules produce nothing, and the prefixes need their dot |
| `SourceGenerator.Execute` | VYaml.SourceGenerator.Roslyn3/VYamlSourceGenerator.cs:13-46 | the context receives exactly the outputs of the gated loop over the work items |
| `GeneratedDeserializers.Defaults` | VYaml.SourceGenerator.Roslyn3/VYamlSourceGenerator.cs:203-206 | one `default` of each member's type |
| `GeneratedDeserializers.GroupFrom` | VYaml.SourceGenerator.Roslyn3/VYamlSourceGenerator.cs:222 | one `case` holds only members whose key has the case's length |
| `GeneratedDeserializers.FirstEqualIn` | VYaml.SourceGenerator.Roslyn3/VYamlSourceGenerator.cs:227-237 | the `if`/`else if` chain selects only a member of its group whose key bytes equal the key |
| `GeneratedDeserializers.SwitchMatch` | VYaml.SourceGenerator.Roslyn3/VYamlSourceGenerator.cs:220-252 | the switch selects only a member whose key bytes equal the key |
| `GeneratedDeserializers.GroupedMatchIsLinear` | VYaml.SourceGenerator.Roslyn3/VYamlSourceGenerator.cs:220-237 | the chain over a length group selects what a linear search over all members selects |
| `GeneratedDeserializers.SwitchMatchIsFirstMatch` | VYaml.SourceGenerator.Roslyn3/VYamlSourceGenerator.cs:220-252 | the length-grouped switch selects the first member in declaration order with an equal key, and none when there is none |
| `GeneratedDeserializers.SwitchSelectsEqualKey` | VYaml.SourceGenerator.Roslyn3/VYamlSourceGenerator.cs:228-230 | with distinct keys, a key selects member `i` exactly when their bytes are equal |
| `GeneratedDeserializers.LoopTurn` | VYaml.SourceGenerator.Roslyn3/VYamlSourceGenerator.cs:210-252 | a turn that succeeds keeps one value per member and moves strictly forward within the stream |
| `GeneratedDeserializers.MappingLoop` | VYaml.SourceGenerator.Roslyn3/VYamlSourceGenerator.cs:208-255 | a loop that succeeds builds an instance with one value per member and ends within the stream |
| `GeneratedDeserializers.MappingLoopUnfold` | VYaml.SourceGenerator.Roslyn3/VYamlSourceGenerator.cs:208-252 | before the mapping's end, the loop fails with its turn's error or continues where the turn left off |
| `GeneratedDeserializers.DeserializeAt` | VYaml.SourceGenerator.Roslyn3/VYamlSourceGenerator.cs:188-263 | a successful `Deserialize` consumes at least one event, and an instance has one value per member |
| `GeneratedDeserializers.EntryEffect` | VYaml.SourceGenerator.Roslyn3/VYamlSourceGenerator.cs:210-252 | a successful entry keeps one value per member |
| `GeneratedDeserializers.EntriesResult` | VYaml.SourceGenerator.Roslyn3/VYamlSourceGenerator.cs:208-254 | successfully read entries keep one value per member |
| `GeneratedDeserializers.DeserializeNode` | VYaml.SourceGenerator.Roslyn3/VYamlSourceGenerator.cs:188-263 | an instance read from a node has one value per member |
| `GeneratedDeserializers.TurnMatchesEntry` | VYaml.SourceGenerator.Roslyn3/VYamlSourceGenerator.cs:210-252 | on the events of an entry, one loop turn is that entry's effect and ends just past the entry |
| `GeneratedDeserializers.ScalarKeyTurn` | VYaml.SourceGenerator.Roslyn3/VYamlSourceGenerator.cs:230-241 | after a scalar key, a matched value is decoded from exactly its node's events, and an unmatched one is skipped to exactly its end |
| `GeneratedDeserializers.MappingLoopOverEntries` | VYaml.SourceGenerator.Roslyn3/VYamlSourceGenerator.cs:208-255 | over a mapping's entries and its end event, the loop reads the entries in order and ends just past the end event |
| `GeneratedDeserializers.DeserializeAtNode` | VYaml.SourceGenerator.Roslyn3/VYamlSourceGenerator.cs:188-263 | on the events of any node, the emitted `Deserialize` computes the tree-level result and, on success, leaves the parser just past the node |
| `GeneratedDeserializers.MappingNodeCase` | VYaml.SourceGenerator.Roslyn3/VYamlSourceGenerator.cs:201-263 | for a type with members, a mapping node yields its entries' result and ends just past the node |
| `GeneratedDeserializers.EntriesResultPositionFree` | VYaml.SourceGenerator.Roslyn3/VYamlSourceGenerator.cs:210-252 | where the entries start only affects the mark of an error, never a success |
| `GeneratedDeserializers.EntriesResultAppend` | VYaml.SourceGenerator.Roslyn3/VYamlSourceGenerator.cs:208-254 | reading two runs of entries is reading the first, then the second from where it left the member values |
| `GeneratedDeserializers.UnknownKeyIsIgnored` | VYaml.SourceGenerator.Roslyn3/VYamlSourceGenerator.cs:238-251 | inserting an entry with an unknown scalar key anywhere neither changes a successful result nor turns a failure into success |
| `GeneratedDeserializers.EntryEffectOnSelected` | VYaml.SourceGenerator.Roslyn3/VYamlSourceGenerator.cs:230-235 | an entry whose key selects a member stores the value decoded from the entry's value node |
| `GeneratedDeserializers.EntryEffectOnOthers` | VYaml.SourceGenerator.Roslyn3/VYamlSourceGenerator.cs:230-241 | an entry leaves every member it does not select as it was |
| `GeneratedDeserializers.AbsentKeyKeepsValue` | VYaml.SourceGenerator.Roslyn3/VYamlSourceGenerator.cs:205 | a member whose key never appears keeps its initial value, its `default` |
| `GeneratedDeserializers.LastOccurrenceWins` | VYaml.SourceGenerator.Roslyn3/VYamlSourceGenerator.cs:230-235 | a member keeps the value decoded from the last entry that selects it |
| `GeneratedDeserializers.IsNullScalarAtIsParserIsNullScalar` | VYaml.SourceGenerator.Roslyn3/VYamlSourceGenerator.cs:188 | the null test of the emitted method, read on the event stream, is the parser's own `IsNullScalar` |
| `GeneratedDeserializers.NullScalarYieldsDefault` | VYaml.SourceGenerator.Roslyn3/VYamlSourceGenerator.cs:188-192 | a null scalar yields `default` after consuming exactly its one event |
| `GeneratedDeserializers.NoMembersSkipsTheNode` | VYaml.SourceGenerator.Roslyn3/VYamlSourceGenerator.cs:194-198 | a type without members skips exactly the node and yields a new instance |
| `GeneratedDeserializers.NonMappingIsRejected` | VYaml.SourceGenerator.Roslyn3/VYamlSourceGenerator.cs:201 | a type with members rejects any other non-null node with "Did not find expected event" at the node |
| `GeneratedDeserializers.DeserializationContext.DeserializeWithAlias` | VYaml.SourceGenerator.Roslyn3/VYamlSourceGenerator.cs:234 | consumes exactly the current node and decodes its events, or fails without moving |
| `GeneratedDeserializers.GeneratedFormatter.Deserialize` | VYaml.SourceGenerator.Roslyn3/VYamlSourceGenerator.cs:185-263 | the emitted method's loop computes `DeserializeAt`: the same result, and the parser ends where that definition says |

## Left out

- Floating point: `GetScalarAsFloat`, `GetScalarAsDouble`, `ReadScalarAsFloat`, `ReadScalarAsDouble`, `TryGetScalarAsFloat` and `TryGetScalarAsDouble` are not modelled.
- The scalar type's conversions (`TryGetBool`, `TryGetInt32`, `IsNull`, `ToString`, `AsSpan`, ...) are not part of this model. Each scalar carries their results as data, so the model states how the accessors use them, not what they compute.
- The tokenizer and event producer are not part of this model. The parser is given the events it produces, and `StreamEnd` is the position past the last event.
- `Read`, `ReadWithVerify` and `SkipCurrentNode` live in a part of `YamlParser` that is not part of this model. They are modelled as their callers use them: move one event, check the kind and then move, skip one balanced node.
- Reflection's `GetMethod`, `Type.GetType`, `GetAliasType`, `GetFormatter(Type)`, `GetGenericBufferedFormatter`, `Type.GetHashCode` and the dispatched formatters are parameters, because their code is not part of this model.
- `MethodInfo.Invoke` is modelled only by what it adds to the call: an exception the invoked formatter throws arrives wrapped in `TargetInvocationException` (`TargetInvocation`).
- .NET types are a datatype: a type knows whether it is an interface, abstract or generic, and what its generic definition is. `FullName` and `ToString()` are both the one display name `TypeName`.
- `null` as a `Type` dictionary key is not modelled: run-time types in the model are never `null`.
- The `TypeInitializationException` unwrap-and-rethrow in `GetFormatterWithVerify` is .NET static-initialiser behaviour and is not modelled.
- The static `Default` singletons are an explicit registry argument, and the registries are not shared between threads. Concurrency is not modelled.
- `Utf8YamlEmitter` is not part of this model. The emitter is modelled as one object shared with the dispatched formatter, as the parser object is.
- `GetMethod` is assumed to find the formatter's one `Deserialize` or `Serialize`; a missing or ambiguous method is not modelled.
- GeneratedDeserializers.GeneratedFormatter.Deserialize: the contract does not state where the parser is after a failure, since the source throws and nothing reads the parser afterwards.
- GeneratedDeserializers.DeserializationContext.DeserializeWithAlias: anchors and aliases are resolved inside the `decode` parameter; the method is modelled as skipping the node and decoding its events.
- The generator's Roslyn plumbing is not modelled: `Initialize`, the syntax receiver, `ReferenceSymbols.Create`, `Analyze`, diagnostic locations and descriptors, and the exception catch-alls that turn a crash into a diagnostic.
- The generated text is not modelled. That covers the pragmas and usings, the byte-array literals, `__RegisterVYamlFormatter`, the namespace block and `CodeWriter` layout. The model keeps the structure the text encodes (`GeneratedSource`) and the behaviour of the emitted `Deserialize`.
- The list `l` that `Execute` fills is never read, so it is not modelled.
- The generator emits no `Serialize` method for a type, and the model does not either.
- The read of `parser.CurrentTokenType` in `RedirectFormatter.Deserialize` is unused, so it is not modelled.
- The unused `Silk.NET` and `Stride` imports in RedirectFormatter.cs are not modelled.
