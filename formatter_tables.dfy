/**
  The type-to-formatter table both `NexYamlSerializerRegistry` classes start from, and the
  dictionary operations they perform on it. The two sources spell some keys differently
  (`typeof(short)` in one, `typeof(Int16)` in the other) but C# keywords name the same run-time
  types, so both initial tables are this one map.
 */
module FormatterTables {
  import opened Wrappers
  import opened Runtime

  type Table = map<Type, Formatter>

  /** The built-in entries: primitives, their nullable forms, standard-library types, well-known collections. */
  function BuiltinTable(): Table {
    PrimitiveEntries() + NullablePrimitiveEntries() + StandardLibraryEntries() + CollectionEntries()
  }

  function PrimitiveEntries(): Table {
    map[
      Sys(Int16) := Builtin("Int16Formatter"),
      Sys(Int32) := Builtin("Int32Formatter"),
      Sys(Int64) := Builtin("Int64Formatter"),
      Sys(UInt16) := Builtin("UInt16Formatter"),
      Sys(UInt32) := Builtin("UInt32Formatter"),
      Sys(UInt64) := Builtin("UInt64Formatter"),
      Sys(Single) := Builtin("Float32Formatter"),
      Sys(Double) := Builtin("Float64Formatter"),
      Sys(Boolean) := Builtin("BooleanFormatter"),
      Sys(Byte) := Builtin("ByteFormatter"),
      Sys(SByte) := Builtin("SByteFormatter"),
      Sys(DateTime) := Builtin("DateTimeFormatter"),
      Sys(Char) := Builtin("CharFormatter"),
      ArrayOf(Sys(Byte)) := Builtin("ByteArrayFormatter")
    ]
  }

  function NullablePrimitiveEntries(): Table {
    map[
      NullableOf(Sys(Int16)) := Builtin("NullableInt16Formatter"),
      NullableOf(Sys(Int32)) := Builtin("NullableInt32Formatter"),
      NullableOf(Sys(Int64)) := Builtin("NullableInt64Formatter"),
      NullableOf(Sys(UInt16)) := Builtin("NullableUInt16Formatter"),
      NullableOf(Sys(UInt32)) := Builtin("NullableUInt32Formatter"),
      NullableOf(Sys(UInt64)) := Builtin("NullableUInt64Formatter"),
      NullableOf(Sys(Single)) := Builtin("NullableFloat32Formatter"),
      NullableOf(Sys(Double)) := Builtin("NullableFloat64Formatter"),
      NullableOf(Sys(Boolean)) := Builtin("NullableBooleanFormatter"),
      NullableOf(Sys(Byte)) := Builtin("NullableByteFormatter"),
      NullableOf(Sys(SByte)) := Builtin("NullableSByteFormatter"),
      NullableOf(Sys(DateTime)) := Builtin("NullableDateTimeFormatter"),
      NullableOf(Sys(Char)) := Builtin("NullableCharFormatter")
    ]
  }

  function StandardLibraryEntries(): Table {
    map[
      Sys(String) := Builtin("NullableStringFormatter"),
      Sys(Decimal) := Builtin("DecimalFormatter"),
      NullableOf(Sys(Decimal)) := StaticNullable(Builtin("DecimalFormatter")),
      Sys(TimeSpan) := Builtin("TimeSpanFormatter"),
      NullableOf(Sys(TimeSpan)) := StaticNullable(Builtin("TimeSpanFormatter")),
      Sys(DateTimeOffset) := Builtin("DateTimeOffsetFormatter"),
      NullableOf(Sys(DateTimeOffset)) := StaticNullable(Builtin("DateTimeOffsetFormatter")),
      Sys(Guid) := Builtin("GuidFormatter"),
      NullableOf(Sys(Guid)) := StaticNullable(Builtin("GuidFormatter")),
      Sys(Uri) := Builtin("UriFormatter")
    ]
  }

  function CollectionEntries(): Table {
    map[
      ListOf(Sys(Int16)) := ListFormatter(Sys(Int16)),
      ListOf(Sys(Int32)) := ListFormatter(Sys(Int32)),
      ListOf(Sys(Int64)) := ListFormatter(Sys(Int64)),
      ListOf(Sys(UInt16)) := ListFormatter(Sys(UInt16)),
      ListOf(Sys(UInt32)) := ListFormatter(Sys(UInt32)),
      ListOf(Sys(UInt64)) := ListFormatter(Sys(UInt64)),
      ListOf(Sys(Single)) := ListFormatter(Sys(Single)),
      ListOf(Sys(Double)) := ListFormatter(Sys(Double)),
      ListOf(Sys(Boolean)) := ListFormatter(Sys(Boolean)),
      ListOf(Sys(Byte)) := ListFormatter(Sys(Byte)),
      ListOf(Sys(SByte)) := ListFormatter(Sys(SByte)),
      ListOf(Sys(DateTime)) := ListFormatter(Sys(DateTime)),
      ListOf(Sys(Char)) := ListFormatter(Sys(Char)),
      ListOf(Sys(String)) := ListFormatter(Sys(String)),
      ArrayOf(Sys(Object)) := ArrayFormatter(Sys(Object)),
      ListOf(Sys(Object)) := ListFormatter(Sys(Object))
    ]
  }

  /** `GetFormatter<T>()`: `ContainsKey(typeof(T)) ? table[typeof(T)] : null`. */
  function Lookup(table: Table, t: Type): (r: Option<Formatter>)
    ensures r.Some? <==> t in table
    ensures r.Some? ==> r.value == table[t]
  {
    if t in table then Some(table[t]) else None
  }

  /** `RegisterFormatter<T>(f)`: the indexer write `table[typeof(T)] = f`; it cannot fail. */
  function Register(table: Table, t: Type, f: Formatter): (r: Table)
    ensures r.Keys == table.Keys + {t}
  {
    table[t := f]
  }

  /** A lookup right after registering `t` finds the registered formatter. */
  lemma {:induction false} LookupAfterRegister(table: Table, t: Type, f: Formatter)
    ensures Lookup(Register(table, t, f), t) == Some(f)
  {
  }

  /** Registering `t` twice keeps only the second formatter: last writer wins. */
  lemma {:induction false} LastWriterWins(table: Table, t: Type, f: Formatter, g: Formatter)
    ensures Register(Register(table, t, f), t, g) == Register(table, t, g)
  {
  }

  /** Registering `t` changes no other key's lookup. */
  lemma {:induction false} RegisterKeepsOtherKeys(table: Table, t: Type, f: Formatter, u: Type)
    requires u != t
    ensures Lookup(Register(table, t, f), u) == Lookup(table, u)
  {
  }

  /** Registrations of different types commute. */
  lemma {:induction false} RegistrationsOfDistinctTypesCommute(table: Table, t: Type, f: Formatter, u: Type, g: Formatter)
    requires t != u
    ensures Register(Register(table, t, f), u, g) == Register(Register(table, u, g), t, f)
  {
  }

  /** Primitive entries named in the source: `int` and `byte[]`. */
  lemma {:induction false} BuiltinPrimitiveEntries()
    ensures Lookup(BuiltinTable(), Sys(Int32)) == Some(Builtin("Int32Formatter"))
    ensures Lookup(BuiltinTable(), ArrayOf(Sys(Byte))) == Some(Builtin("ByteArrayFormatter"))
  {
    assert PrimitiveEntries()[Sys(Int32)] == Builtin("Int32Formatter");
    assert PrimitiveEntries()[ArrayOf(Sys(Byte))] == Builtin("ByteArrayFormatter");
    OutsideNullablePrimitives(Sys(Int32));
    OutsideStandardLibrary(Sys(Int32));
    OutsideCollections(Sys(Int32));
    OutsideNullablePrimitives(ArrayOf(Sys(Byte)));
    OutsideStandardLibrary(ArrayOf(Sys(Byte)));
    OutsideCollections(ArrayOf(Sys(Byte)));
  }

  /** Standard-library entries named in the source: `string` and `decimal?`. */
  lemma {:induction false} BuiltinStandardLibraryEntries()
    ensures Lookup(BuiltinTable(), Sys(String)) == Some(Builtin("NullableStringFormatter"))
    ensures Lookup(BuiltinTable(), NullableOf(Sys(Decimal))) == Some(StaticNullable(Builtin("DecimalFormatter")))
  {
    assert StandardLibraryEntries()[Sys(String)] == Builtin("NullableStringFormatter");
    assert StandardLibraryEntries()[NullableOf(Sys(Decimal))] == StaticNullable(Builtin("DecimalFormatter"));
    OutsideCollections(Sys(String));
    OutsideCollections(NullableOf(Sys(Decimal)));
  }

  /** The collection entries: `List<string>` and `object[]`; plain `object` has no entry. */
  lemma {:induction false} BuiltinCollectionEntries()
    ensures Lookup(BuiltinTable(), ListOf(Sys(String))) == Some(ListFormatter(Sys(String)))
    ensures Lookup(BuiltinTable(), ArrayOf(Sys(Object))) == Some(ArrayFormatter(Sys(Object)))
    ensures Lookup(BuiltinTable(), Sys(Object)) == None
  {
    assert CollectionEntries()[ListOf(Sys(String))] == ListFormatter(Sys(String));
    assert CollectionEntries()[ArrayOf(Sys(Object))] == ArrayFormatter(Sys(Object));
    OutsidePrimitives(Sys(Object));
    OutsideNullablePrimitives(Sys(Object));
    OutsideStandardLibrary(Sys(Object));
    OutsideCollections(Sys(Object));
  }

  /** The nullable `int?` has its own entry. */
  lemma {:induction false} BuiltinNullableEntries()
    ensures Lookup(BuiltinTable(), NullableOf(Sys(Int32))) == Some(Builtin("NullableInt32Formatter"))
  {
    assert NullablePrimitiveEntries()[NullableOf(Sys(Int32))] == Builtin("NullableInt32Formatter");
    OutsideStandardLibrary(NullableOf(Sys(Int32)));
    OutsideCollections(NullableOf(Sys(Int32)));
  }

  /** The primitive table holds non-nullable framework types other than `object`, and `byte[]`. */
  lemma {:induction false} OutsidePrimitives(t: Type)
    requires !(t.Sys? && t.system != Object) && t != ArrayOf(Sys(Byte))
    ensures t !in PrimitiveEntries()
  {
  }

  /** The nullable table holds only `Nullable<T>` keys. */
  lemma {:induction false} OutsideNullablePrimitives(t: Type)
    requires !IsNullable(t)
    ensures t !in NullablePrimitiveEntries()
  {
  }

  /** The standard-library table holds `string`, `decimal`, `TimeSpan`, ..., and nullable forms. */
  lemma {:induction false} OutsideStandardLibrary(t: Type)
    requires !IsNullable(t) || t.args == [] || t.args[0] !in {Sys(Decimal), Sys(TimeSpan), Sys(DateTimeOffset), Sys(Guid)}
    requires !(t.Sys? && t.system in {String, Decimal, TimeSpan, DateTimeOffset, Guid, Uri})
    ensures t !in StandardLibraryEntries()
  {
  }

  /** The collection table holds `List<T>` keys and `object[]`. */
  lemma {:induction false} OutsideCollections(t: Type)
    requires !(t.Constructed? && t.name == "System.Collections.Generic.List`1") && t != ArrayOf(Sys(Object))
    ensures t !in CollectionEntries()
  {
  }
}
