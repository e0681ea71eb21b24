/**
  `TypeDictionary` and its key `TypeKey` (VYaml.Core/TypeDictionary.cs): a dictionary whose
  key equality treats every instantiation of a generic type as its generic definition, so
  `List<int>` and `List<string>` share one slot.

  A .NET `Dictionary` with a custom `Equals` keeps, per class of equal keys, the key object
  it was first given, and an indexer write on an equal key replaces only the value. The
  class below stores exactly that: a map from stored keys to values whose keys are pairwise
  unequal under `KeyEquals`.
 */
module TypeDictionaries {
  import opened Wrappers
  import opened Runtime

  /** The wrapper object used as the dictionary key. */
  datatype TypeKey = TypeKey(wrapped: Type)

  /** What `Equals(object)` may be handed: a `TypeKey`, another object, or `null`. */
  datatype Obj = KeyObject(key: TypeKey) | OtherObject(runtimeType: Type) | NullObject

  /** The type a key stands for: a generic type's definition, any other type itself. */
  function Normalised(t: Type): (d: Type)
    ensures !d.Constructed?
    ensures d.IsGenericType() <==> t.IsGenericType()
  {
    if t.IsGenericType() then t.GetGenericTypeDefinition() else t
  }

  /** `TypeKey.Equals(TypeKey)`: the normalised types are identical. */
  predicate KeyEquals(a: TypeKey, b: TypeKey) {
    Normalised(a.wrapped) == Normalised(b.wrapped)
  }

  /** `TypeKey.Equals(object)`: false for anything that is not a `TypeKey`. */
  predicate Equals(self: TypeKey, obj: Obj)
  {
    match obj
    case KeyObject(other) => KeyEquals(self, other)
    case _ => false
  }

  /**
    `TypeKey.GetHashCode()`, given the run-time's `Type.GetHashCode` as `typeHash`:
    the hash of the normalised type.
   */
  function KeyHash(k: TypeKey, typeHash: Type -> int): int {
    typeHash(Normalised(k.wrapped))
  }

  /** Two keys are equal exactly when their types agree after erasing generic arguments. */
  lemma {:induction false} KeyEqualsCharacterisation(a: TypeKey, b: TypeKey)
    ensures KeyEquals(a, b) <==>
      if a.wrapped.IsGenericType() then
        b.wrapped.IsGenericType() && a.wrapped.GetGenericTypeDefinition() == b.wrapped.GetGenericTypeDefinition()
      else
        !b.wrapped.IsGenericType() && a.wrapped == b.wrapped
  {
  }

  /** Key equality is an equivalence relation, which `Dictionary` requires of `Equals`. */
  lemma {:induction false} KeyEqualsIsEquivalence(a: TypeKey, b: TypeKey, c: TypeKey)
    ensures KeyEquals(a, a)
    ensures KeyEquals(a, b) ==> KeyEquals(b, a)
    ensures KeyEquals(a, b) && KeyEquals(b, c) ==> KeyEquals(a, c)
  {
  }

  /** Equal keys hash alike, whatever the run-time's hash of a `Type` is. */
  lemma {:induction false} HashAgreesWithEquals(a: TypeKey, b: TypeKey, typeHash: Type -> int)
    requires KeyEquals(a, b)
    ensures KeyHash(a, typeHash) == KeyHash(b, typeHash)
  {
  }

  /** `Equals` on anything that is not a `TypeKey` (including `null`) is false. */
  lemma {:induction false} EqualsRejectsNonKeys(self: TypeKey, obj: Obj)
    requires !obj.KeyObject?
    ensures !Equals(self, obj)
  {
  }

  /** Every instantiation of one generic definition is equal to every other, and to the definition. */
  lemma {:induction false} InstantiationsShareAKey(name: string, kind: TypeKind, xs: seq<Type>, ys: seq<Type>)
    requires |xs| == |ys|
    ensures KeyEquals(TypeKey(Constructed(name, kind, xs)), TypeKey(Constructed(name, kind, ys)))
    ensures KeyEquals(TypeKey(Constructed(name, kind, xs)), TypeKey(GenericDefinition(name, kind, |xs|)))
  {
  }

  /** No two stored keys are equal: the invariant `Dictionary` keeps. */
  ghost predicate DistinctKeys(m: map<TypeKey, Type>) {
    forall a, b :: a in m && b in m && KeyEquals(a, b) ==> a == b
  }

  /** The value stored under a key equal to `k`, if any: `TryGetValue`. */
  function StoredValue(m: map<TypeKey, Type>, k: TypeKey): (r: Option<Type>)
    requires DistinctKeys(m)
    ensures r.Some? <==> exists s :: s in m && KeyEquals(s, k)
    ensures forall s :: s in m && KeyEquals(s, k) ==> r == Some(m[s])
  {
    if exists s :: s in m && KeyEquals(s, k) then
      var s :| s in m && KeyEquals(s, k);
      Some(m[s])
    else
      None
  }

  /** The indexer write `m[k] = v`: replace the value of an equal stored key, or add `k`. */
  function Stored(m: map<TypeKey, Type>, k: TypeKey, v: Type): (r: map<TypeKey, Type>)
    requires DistinctKeys(m)
    ensures DistinctKeys(r)
  {
    if exists s :: s in m && KeyEquals(s, k) then
      var s :| s in m && KeyEquals(s, k);
      m[s := v]
    else
      m[k := v]
  }

  /**
    After `m[k] = v`, every key equal to `k` finds `v` and every other key finds what it
    found before: the write overwrites one class of equal keys and nothing else.
   */
  lemma {:induction false} StoredThenFound(m: map<TypeKey, Type>, k: TypeKey, v: Type, q: TypeKey)
    requires DistinctKeys(m)
    ensures StoredValue(Stored(m, k, v), q) == if KeyEquals(k, q) then Some(v) else StoredValue(m, q)
  {
    var r := Stored(m, k, v);
    if exists s :: s in m && KeyEquals(s, k) {
      var s :| s in m && KeyEquals(s, k);
      assert r == m[s := v];
      if KeyEquals(k, q) {
        assert s in r && KeyEquals(s, q);
      } else {
        assert forall t :: t in r && KeyEquals(t, q) ==> t != s && t in m;
      }
    } else {
      assert r == m[k := v];
      if KeyEquals(k, q) {
        assert k in r && KeyEquals(k, q);
      } else {
        assert forall t :: t in r && KeyEquals(t, q) ==> t != k && t in m;
      }
    }
  }

  class TypeDictionary {
    var dictionary: map<TypeKey, Type>

    ghost predicate Valid()
      reads this
    {
      DistinctKeys(dictionary)
    }

    constructor ()
      ensures Valid() && dictionary == map[]
    {
      dictionary := map[];
    }

    /** `Add(type, value)`: `dictionary[new TypeKey(type)] = value`. */
    method Add(t: Type, value: Type)
      requires Valid()
      modifies this
      ensures Valid()
      ensures dictionary == Stored(old(dictionary), TypeKey(t), value)
    {
      dictionary := Stored(dictionary, TypeKey(t), value);
    }

    /** `FindAssignableType(searchType)`: the value under an equal key, or `null`. */
    method FindAssignableType(searchType: Type) returns (r: Option<Type>)
      requires Valid()
      ensures r.Some? <==> exists s :: s in dictionary && Normalised(s.wrapped) == Normalised(searchType)
      ensures forall s :: s in dictionary && Normalised(s.wrapped) == Normalised(searchType) ==> r == Some(dictionary[s])
    {
      r := StoredValue(dictionary, TypeKey(searchType));
    }
  }

  /**
    A caller's view: after `Add(List<int>, v)` the slot is found through `List<string>` and
    through the definition `List<>`, a later `Add` on an instantiation overwrites it, and an
    unrelated type is still absent.
   */
  method SharedGenericSlot(v: Type, w: Type) returns (viaString: Option<Type>, viaDefinition: Option<Type>, afterOverwrite: Option<Type>, unrelated: Option<Type>)
    ensures viaString == Some(v) && viaDefinition == Some(v)
    ensures afterOverwrite == Some(w)
    ensures unrelated == None
  {
    var d := new TypeDictionary();
    d.Add(ListOf(Sys(Int32)), v);
    StoredThenFound(map[], TypeKey(ListOf(Sys(Int32))), v, TypeKey(ListOf(Sys(String))));
    viaString := d.FindAssignableType(ListOf(Sys(String)));
    viaDefinition := d.FindAssignableType(ListOf(Sys(Int32)).GetGenericTypeDefinition());
    unrelated := d.FindAssignableType(Sys(Int32));
    ghost var before := d.dictionary;
    d.Add(ListOf(Sys(Boolean)), w);
    StoredThenFound(before, TypeKey(ListOf(Sys(Boolean))), w, TypeKey(ListOf(Sys(Object))));
    afterOverwrite := d.FindAssignableType(ListOf(Sys(Object)));
  }
}
