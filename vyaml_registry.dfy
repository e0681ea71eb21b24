/**
  `VYaml.NexYamlSerializerRegistry` (VYaml.Core/NexYamlSerializerRegistry.cs): a resolver that
  owns one type-to-formatter dictionary, pre-filled with the built-in formatters, and lets
  callers add or replace entries.
 */
module VYamlRegistry {
  import opened Wrappers
  import opened Runtime
  import opened FormatterTables

  class NexYamlSerializerRegistry {
    /** `TypeFormatter`: the dictionary from `typeof(T)` to the formatter for `T`. */
    var typeFormatter: Table

    /** A new registry holds exactly the built-in table. */
    constructor ()
      ensures typeFormatter == BuiltinTable()
    {
      typeFormatter := BuiltinTable();
    }

    /** `GetFormatter<T>()`: the formatter registered for `T`, or `null`. */
    function GetFormatter(t: Type): (r: Option<Formatter>)
      reads this
      ensures r.Some? <==> t in typeFormatter
      ensures r.Some? ==> r.value == typeFormatter[t]
    {
      Lookup(typeFormatter, t)
    }

    /** `RegisterFormatter<T>(formatter)`: add or replace the entry for `T`. */
    method RegisterFormatter(t: Type, formatter: Formatter)
      modifies this
      ensures typeFormatter == Register(old(typeFormatter), t, formatter)
    {
      typeFormatter := typeFormatter[t := formatter];
    }
  }

  /**
    A fresh registry resolves `int` to the built-in formatter; after registering a formatter for
    `T` it resolves `T` to it, re-registering replaces it, and a type `u` other than `T` still
    resolves as it did before.
   */
  method RegisterThenResolve(t: Type, f: Formatter, g: Formatter, u: Type)
    returns (builtinInt: Option<Formatter>, first: Option<Formatter>, second: Option<Formatter>, other: Option<Formatter>)
    requires u != t
    ensures builtinInt == Some(Builtin("Int32Formatter"))
    ensures first == Some(f) && second == Some(g)
    ensures other == Lookup(BuiltinTable(), u)
  {
    var registry := new NexYamlSerializerRegistry();
    BuiltinPrimitiveEntries();
    builtinInt := registry.GetFormatter(Sys(Int32));
    registry.RegisterFormatter(t, f);
    first := registry.GetFormatter(t);
    registry.RegisterFormatter(t, g);
    second := registry.GetFormatter(t);
    RegisterKeepsOtherKeys(BuiltinTable(), t, f, u);
    RegisterKeepsOtherKeys(Register(BuiltinTable(), t, f), t, g, u);
    other := registry.GetFormatter(u);
  }
}
