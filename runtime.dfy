/**
  The .NET notions the engine dispatches on: run-time types (`System.Type`), formatter
  instances, boxed values and the exceptions the core throws. Reflection is replaced by
  the structure of `Type`: a type knows whether it is an interface, abstract or generic, and
  a generic type knows its generic definition.
 */
module Runtime {
  import opened Wrappers

  /** 32- and 64-bit integers of the C# surface. */
  newtype int32 = x: int | -0x8000_0000 <= x < 0x8000_0000
  newtype int64 = x: int | -0x8000_0000_0000_0000 <= x < 0x8000_0000_0000_0000
  newtype uint32 = x: int | 0 <= x < 0x1_0000_0000
  newtype uint64 = x: int | 0 <= x < 0x1_0000_0000_0000_0000
  newtype byte = x: int | 0 <= x < 256

  /**
    What kind of declaration a type comes from. In .NET every interface also reports
    `IsAbstract`, which `IsAbstract()` below reproduces.
   */
  datatype TypeKind = Interface | AbstractClass | ConcreteClass | ValueType

  /** The framework types the built-in tables name (`typeof(int)`, `typeof(string)`, ...). */
  datatype SystemType =
    | Int16 | Int32 | Int64 | UInt16 | UInt32 | UInt64 | Single | Double | Boolean | Byte | SByte
    | DateTime | Char | String | Decimal | TimeSpan | DateTimeOffset | Guid | Uri | Object

  /** A run-time type: `typeof(T)` or `value.GetType()`. */
  datatype Type =
      /** a non-generic framework type such as `int` (`System.Int32`) */
    | Sys(system: SystemType)
      /** any other non-generic, non-array type */
    | Simple(name: string, kind: TypeKind)
      /** an open generic definition such as `List<>` (arity 1) */
    | GenericDefinition(name: string, kind: TypeKind, arity: nat)
      /** a constructed generic type such as `List<int>` or `int?` (`Nullable<int>`) */
    | Constructed(name: string, kind: TypeKind, args: seq<Type>)
      /** a single-dimensional array such as `byte[]` */
    | ArrayOf(element: Type)
  {
    function Kind(): TypeKind {
      match this
      case Sys(t) => if t == String || t == Uri || t == Object then ConcreteClass else ValueType
      case ArrayOf(_) => ConcreteClass
      case _ => kind
    }

    predicate IsInterface() {
      Kind() == Interface
    }

    predicate IsAbstract() {
      Kind() == Interface || Kind() == AbstractClass
    }

    predicate IsValueType() {
      Kind() == ValueType
    }

    predicate IsGenericType() {
      GenericDefinition? || Constructed?
    }

    /** `GetGenericTypeDefinition()`: the open definition a generic type was built from. */
    function GetGenericTypeDefinition(): (d: Type)
      requires IsGenericType()
      ensures d.GenericDefinition? && d.name == name && d.kind == kind
      ensures GenericDefinition? ==> d == this
    {
      if GenericDefinition? then this else GenericDefinition(name, kind, |args|)
    }
  }

  /** The display name of a type, used in exception messages (`FullName` and `ToString()`). */
  function TypeName(t: Type): string
    decreases t, 1
  {
    match t
    case Sys(s) => "System." + SystemTypeName(s)
    case Simple(n, _) => n
    case GenericDefinition(n, _, _) => n
    case Constructed(n, _, args) => n + "[" + TypeNames(args) + "]"
    case ArrayOf(e) => TypeName(e) + "[]"
  }

  function SystemTypeName(s: SystemType): string {
    match s
    case Int16 => "Int16"
    case Int32 => "Int32"
    case Int64 => "Int64"
    case UInt16 => "UInt16"
    case UInt32 => "UInt32"
    case UInt64 => "UInt64"
    case Single => "Single"
    case Double => "Double"
    case Boolean => "Boolean"
    case Byte => "Byte"
    case SByte => "SByte"
    case DateTime => "DateTime"
    case Char => "Char"
    case String => "String"
    case Decimal => "Decimal"
    case TimeSpan => "TimeSpan"
    case DateTimeOffset => "DateTimeOffset"
    case Guid => "Guid"
    case Uri => "Uri"
    case Object => "Object"
  }

  function TypeNames(ts: seq<Type>): string
    decreases ts, 0
  {
    if ts == [] then ""
    else if |ts| == 1 then TypeName(ts[0])
    else TypeName(ts[0]) + "," + TypeNames(ts[1..])
  }

  /** Formatter instances, as opaque identities: the model never looks inside a formatter. */
  datatype Formatter =
      /** a built-in singleton, e.g. `Int32Formatter.Instance` */
    | Builtin(name: string)
      /** `new StaticNullableFormatter<T>(inner)` */
    | StaticNullable(inner: Formatter)
      /** `new ListFormatter<T>()` */
    | ListFormatter(element: Type)
      /** `new ArrayFormatter<T>()` */
    | ArrayFormatter(element: Type)
      /** a `RedirectFormatter<T>` for the polymorphic type `T` */
    | Redirect(target: Type)
      /** a formatter handed to a registration method (generated code or application code) */
    | Registered(id: nat)

  /** Values flowing through formatters: `null`, `default(T)` or a boxed instance of a run-time type. */
  datatype Value =
    | Null
    | Default(of: Type)
    | Boxed(runtimeType: Type, payload: nat)

  /** A position in the parser's input; the model counts events. */
  datatype Mark = Mark(index: nat)

  /** The exceptions the core raises. */
  datatype Exception =
      /** `Dictionary` indexer read of an absent key */
    | KeyNotFound
      /** `Dictionary` indexer with a `null` key */
    | ArgumentNull
      /** member access on a `null` reference */
    | NullReference
      /** a cast `(T)x` that does not hold */
    | InvalidCast
    | InvalidOperation
    | YamlParserException(mark: Mark, message: string)
    | YamlSerializerException(at: Option<Mark>, message: string)
      /** what a method called through `MethodInfo.Invoke` threw, wrapped by `Invoke` */
    | TargetInvocation(inner: Exception)

  /** `T?` for a value type `T`: `Nullable<T>`, itself a constructed generic type. */
  function NullableOf(t: Type): Type {
    Constructed("System.Nullable`1", ValueType, [t])
  }

  predicate IsNullable(t: Type) {
    t.Constructed? && t.name == "System.Nullable`1"
  }

  /**
    `value.GetType()`, `None` where the value is `null`: `default` of a reference type or of a
    nullable value type is `null`, `default` of any other value type is a boxed instance.
   */
  function RuntimeTypeOf(v: Value): Option<Type> {
    match v
    case Null => None
    case Default(t) => if t.IsValueType() && !IsNullable(t) then Some(t) else None
    case Boxed(rt, _) => Some(rt)
  }

  /** `List<T>` */
  function ListOf(t: Type): Type {
    Constructed("System.Collections.Generic.List`1", ConcreteClass, [t])
  }
}
