/**
  The `Deserialize` method the source generator writes for a type
  (`EmitDeserializeMethod`, VYaml.SourceGenerator.Roslyn3/VYamlSourceGenerator.cs), as the
  code it emits behaves at run time:

  - a null scalar is consumed and yields `default`;
  - a type without members skips whatever node is there and yields a new instance;
  - otherwise the node must be a mapping; each key must be a scalar, and is matched against
    the members' UTF-8 key bytes by a `switch` on its length followed by byte comparisons;
    a matching member's value is read with `DeserializeWithAlias`, any other value is
    skipped; the instance is built from the last value read for each member, or from the
    member type's `default` when its key never appears.

  The value of a member is decoded by code that is not part of this model, given as
  `decode(memberType, events)` over the events of the value's node.
 */
module GeneratedDeserializers {
  import opened Wrappers
  import opened Runtime
  import opened Events
  import opened YamlParsers
  import opened SourceGenerator

  /** The result of `Deserialize`: `default(T)`, or a new instance with one value per member. */
  datatype Decoded = DefaultOfTarget | Instance(fields: seq<Value>)

  /** Decodes the node of one member value, given the member's type. */
  type Decoder = (Type, seq<Event>) -> Result<Value, Exception>

  const KeyMessage := "Custom type deserialization supports only string key"

  /** `var __Name__ = default(MemberType);` for every member. */
  function Defaults(members: seq<MemberMeta>): (r: seq<Value>)
    ensures |r| == |members|
    ensures forall i :: 0 <= i < |members| ==> r[i] == Default(members[i].memberType)
  {
    seq(|members|, i requires 0 <= i < |members| => Default(members[i].memberType))
  }

  /** The members, from `from` on, whose key is `len` bytes long: one `case len:` of the switch. */
  function GroupFrom(members: seq<MemberMeta>, len: nat, from: nat): (g: seq<nat>)
    ensures forall j :: 0 <= j < |g| ==> from <= g[j] < |members| && |members[g[j]].keyBytes| == len
    decreases |members| - from
  {
    if from >= |members| then []
    else (if |members[from].keyBytes| == len then [from] else []) + GroupFrom(members, len, from + 1)
  }

  /** The `if`/`else if` chain of one case: the first member of the group whose key equals `key`. */
  function FirstEqualIn(members: seq<MemberMeta>, group: seq<nat>, key: seq<byte>): (r: Option<nat>)
    requires forall j :: 0 <= j < |group| ==> group[j] < |members|
    ensures r.Some? ==> r.value in group && members[r.value].keyBytes == key
  {
    if group == [] then None
    else if members[group[0]].keyBytes == key then Some(group[0])
    else FirstEqualIn(members, group[1..], key)
  }

  /** The generated `switch (key.Length)`: the member a key selects, `None` for the `else` and `default:` branches. */
  function SwitchMatch(members: seq<MemberMeta>, key: seq<byte>): (r: Option<nat>)
    ensures r.Some? ==> r.value < |members| && members[r.value].keyBytes == key
  {
    var group := GroupFrom(members, |key|, 0);
    if group == [] then None else FirstEqualIn(members, group, key)
  }

  /** The reference matcher: the first member, from `from` on, whose key bytes equal `key`. */
  function LinearMatchFrom(members: seq<MemberMeta>, key: seq<byte>, from: nat): (r: Option<nat>)
    ensures r.Some? ==> from <= r.value < |members| && members[r.value].keyBytes == key
    ensures r.Some? ==> forall j :: from <= j < r.value ==> members[j].keyBytes != key
    ensures r.None? ==> forall j :: from <= j < |members| ==> members[j].keyBytes != key
    decreases |members| - from
  {
    if from >= |members| then None
    else if members[from].keyBytes == key then Some(from)
    else LinearMatchFrom(members, key, from + 1)
  }

  lemma {:induction false} GroupedMatchIsLinear(members: seq<MemberMeta>, key: seq<byte>, from: nat)
    ensures FirstEqualIn(members, GroupFrom(members, |key|, from), key) == LinearMatchFrom(members, key, from)
    decreases |members| - from
  {
    if from < |members| {
      GroupedMatchIsLinear(members, key, from + 1);
      var rest := GroupFrom(members, |key|, from + 1);
      if |members[from].keyBytes| == |key| {
        assert GroupFrom(members, |key|, from) == [from] + rest;
        assert ([from] + rest)[1..] == rest;
      } else {
        assert GroupFrom(members, |key|, from) == rest;
        assert members[from].keyBytes != key;
      }
    }
  }

  /**
    Grouping by key length changes nothing: the switch selects the first member in
    declaration order whose key bytes equal the key, and selects none when no key is equal.
   */
  lemma {:induction false} SwitchMatchIsFirstMatch(members: seq<MemberMeta>, key: seq<byte>)
    ensures SwitchMatch(members, key) == LinearMatchFrom(members, key, 0)
  {
    GroupedMatchIsLinear(members, key, 0);
  }

  /** No two members share a key. */
  predicate DistinctKeys(members: seq<MemberMeta>) {
    forall i, j :: 0 <= i < j < |members| ==> members[i].keyBytes != members[j].keyBytes
  }

  /** With distinct keys, a key selects exactly the member whose key bytes it equals. */
  lemma {:induction false} SwitchSelectsEqualKey(members: seq<MemberMeta>, key: seq<byte>, i: nat)
    requires DistinctKeys(members) && i < |members|
    ensures SwitchMatch(members, key) == Some(i) <==> members[i].keyBytes == key
  {
    SwitchMatchIsFirstMatch(members, key);
  }

  /** `parser.IsNullScalar()` at position `c`. */
  predicate IsNullScalarAt(events: seq<Event>, c: nat) {
    var e := EventAt(events, c);
    e.kind == Scalar && (e.scalar.None? || e.scalar.value.isNull)
  }

  /** `IsNullScalarAt` is the parser's own `IsNullScalar` read at the parser's position. */
  lemma {:induction false} IsNullScalarAtIsParserIsNullScalar(parser: YamlParser)
    ensures IsNullScalarAt(parser.events, parser.cursor) <==> parser.IsNullScalar()
  {
  }

  /**
    One turn of the generated `while` at position `k`, before the mapping's end: the key must
    be a scalar with a value; a known key has the value node after it decoded into its member,
    an unknown key has that node skipped. The result holds the member values and the position
    after the entry.
   */
  function LoopTurn(members: seq<MemberMeta>, decode: Decoder, events: seq<Event>, k: nat, fields: seq<Value>): (r: Result<(seq<Value>, nat), Exception>)
    requires |fields| == |members| && k < |events|
    ensures r.Success? ==> |r.value.0| == |members| && k < r.value.1 <= |events|
  {
    if events[k].kind != Scalar || events[k].scalar.None? then Failure(YamlSerializerException(Some(Mark(k)), KeyMessage))
    else
      match SkipSpec(events, k + 1)
      case Failure(x) => Failure(x)
      case Success(next) =>
        match SwitchMatch(members, events[k].scalar.value.bytes)
        case Some(i) =>
          (match decode(members[i].memberType, events[k + 1..next])
           case Failure(x) => Failure(x)
           case Success(v) => Success((fields[i := v], next)))
        case None => Success((fields, next))
  }

  /**
    The mapping loop from position `k` with the member values read so far: the `while` of the
    generated code, then `ReadWithVerify(MappingEnd)` and the object initializer.
   */
  function MappingLoop(members: seq<MemberMeta>, decode: Decoder, events: seq<Event>, k: nat, fields: seq<Value>): (r: Result<(Decoded, nat), Exception>)
    requires |fields| == |members|
    ensures r.Success? ==> r.value.0.Instance? && |r.value.0.fields| == |members| && k < r.value.1 <= |events|
    decreases |events| - k
  {
    if k >= |events| then Failure(YamlParserException(Mark(k), UnexpectedEventMessage(MappingEnd)))
    else if events[k].kind == MappingEnd then Success((Instance(fields), k + 1))
    else
      match LoopTurn(members, decode, events, k, fields)
      case Failure(x) => Failure(x)
      case Success((f, next)) => MappingLoop(members, decode, events, next, f)
  }

  /** One turn of `MappingLoop` before the mapping's end. */
  lemma {:induction false} MappingLoopUnfold(members: seq<MemberMeta>, decode: Decoder, events: seq<Event>, k: nat, fields: seq<Value>)
    requires |fields| == |members| && k < |events| && events[k].kind != MappingEnd
    ensures LoopTurn(members, decode, events, k, fields).Failure? ==>
      MappingLoop(members, decode, events, k, fields) == Failure(LoopTurn(members, decode, events, k, fields).error)
    ensures LoopTurn(members, decode, events, k, fields).Success? ==>
      MappingLoop(members, decode, events, k, fields) ==
      MappingLoop(members, decode, events, LoopTurn(members, decode, events, k, fields).value.1, LoopTurn(members, decode, events, k, fields).value.0)
  {
  }

  /** The generated `Deserialize` at position `c`: the result and the position after it. */
  function DeserializeAt(members: seq<MemberMeta>, decode: Decoder, events: seq<Event>, c: nat): (r: Result<(Decoded, nat), Exception>)
    ensures r.Success? ==> c < r.value.1 <= |events|
    ensures r.Success? && r.value.0.Instance? ==> |r.value.0.fields| == |members|
  {
    if IsNullScalarAt(events, c) then Success((DefaultOfTarget, c + 1))
    else if |members| == 0 then
      match SkipSpec(events, c)
      case Failure(x) => Failure(x)
      case Success(next) => Success((Instance([]), next))
    else if EventAt(events, c).kind != MappingStart then
      Failure(YamlParserException(Mark(c), UnexpectedEventMessage(MappingStart)))
    else MappingLoop(members, decode, events, c + 1, Defaults(members))
  }

  /** Whether an entry's key selects member `i`. */
  predicate Selects(members: seq<MemberMeta>, e: Entry, i: nat) {
    e.key.body.ScalarBody? && e.key.body.scalar.Some? && SwitchMatch(members, e.key.body.scalar.value.bytes) == Some(i)
  }

  /**
    What one entry of a mapping, starting at position `pos`, does to the member values: a key
    that is not a scalar with a value is an error at `pos`; a key that selects a member stores
    the value decoded from the entry's value node; any other key changes nothing.
   */
  function EntryEffect(members: seq<MemberMeta>, decode: Decoder, e: Entry, pos: nat, fields: seq<Value>): (r: Result<seq<Value>, Exception>)
    requires |fields| == |members|
    ensures r.Success? ==> |r.value| == |members|
  {
    if !e.key.body.ScalarBody? || e.key.body.scalar.None? then Failure(YamlSerializerException(Some(Mark(pos)), KeyMessage))
    else
      match SwitchMatch(members, e.key.body.scalar.value.bytes)
      case Some(i) =>
        (match decode(members[i].memberType, Flatten(e.value))
         case Failure(x) => Failure(x)
         case Success(v) => Success(fields[i := v]))
      case None => Success(fields)
  }

  /** The entries of a mapping read over the document tree, the first one starting at position `pos`. */
  function EntriesResult(members: seq<MemberMeta>, decode: Decoder, entries: seq<Entry>, pos: nat, fields: seq<Value>): (r: Result<seq<Value>, Exception>)
    requires |fields| == |members|
    ensures r.Success? ==> |r.value| == |members|
    decreases entries
  {
    if entries == [] then Success(fields)
    else
      match EntryEffect(members, decode, entries[0], pos, fields)
      case Failure(x) => Failure(x)
      case Success(f) => EntriesResult(members, decode, entries[1..], pos + |FlattenEntry(entries[0])|, f)
  }

  /** `ReadWithVerify(MappingEnd)` and the object initializer, the parser ending at `end`. */
  function Finish(r: Result<seq<Value>, Exception>, end: nat): Result<(Decoded, nat), Exception> {
    match r
    case Failure(x) => Failure(x)
    case Success(fs) => Success((Instance(fs), end))
  }

  /** The generated `Deserialize` on a node of the document tree starting at position `p`. */
  function DeserializeNode(members: seq<MemberMeta>, decode: Decoder, n: Node, p: nat): (r: Result<Decoded, Exception>)
    ensures r.Success? && r.value.Instance? ==> |r.value.fields| == |members|
  {
    if n.body.ScalarBody? && (n.body.scalar.None? || n.body.scalar.value.isNull) then Success(DefaultOfTarget)
    else if |members| == 0 then Success(Instance([]))
    else if !n.body.MappingBody? then Failure(YamlParserException(Mark(p), UnexpectedEventMessage(MappingStart)))
    else
      match EntriesResult(members, decode, n.body.entries, p + 1, Defaults(members))
      case Failure(x) => Failure(x)
      case Success(fs) => Success(Instance(fs))
  }

  /** One turn of the loop over the events of an entry is that entry's `EntryEffect`. */
  lemma {:induction false} TurnMatchesEntry(members: seq<MemberMeta>, decode: Decoder, events: seq<Event>, pos: nat, e: Entry, fields: seq<Value>, valueAt: nat, next: nat)
    requires |fields| == |members| && valueAt == pos + |Flatten(e.key)| && next == pos + |FlattenEntry(e)|
    requires NodeAt(events, pos, e.key) && NodeAt(events, valueAt, e.value)
    ensures pos < |events| && events[pos].kind != MappingEnd
    ensures EntryEffect(members, decode, e, pos, fields).Failure? ==>
      LoopTurn(members, decode, events, pos, fields) == Failure(EntryEffect(members, decode, e, pos, fields).error)
    ensures EntryEffect(members, decode, e, pos, fields).Success? ==>
      LoopTurn(members, decode, events, pos, fields) == Success((EntryEffect(members, decode, e, pos, fields).value, next))
  {
    NodeFirstEvent(events, pos, e.key);
    if e.key.body.ScalarBody? && e.key.body.scalar.Some? {
      EntryLength(e);
      ScalarKeyTurn(members, decode, events, pos, e, fields, valueAt, next);
    }
  }

  lemma {:induction false} ScalarKeyTurn(members: seq<MemberMeta>, decode: Decoder, events: seq<Event>, pos: nat, e: Entry, fields: seq<Value>, valueAt: nat, next: nat)
    requires |fields| == |members|
    requires e.key.body.ScalarBody? && e.key.body.scalar.Some?
    requires pos < |events| && events[pos] == Flatten(e.key)[0]
    requires valueAt == pos + 1 && NodeAt(events, valueAt, e.value) && next == valueAt + |Flatten(e.value)|
    ensures EntryEffect(members, decode, e, pos, fields).Failure? ==>
      LoopTurn(members, decode, events, pos, fields) == Failure(EntryEffect(members, decode, e, pos, fields).error)
    ensures EntryEffect(members, decode, e, pos, fields).Success? ==>
      LoopTurn(members, decode, events, pos, fields) == Success((EntryEffect(members, decode, e, pos, fields).value, next))
  {
    SkipOverNode(events, valueAt, e.value);
    assert events[valueAt..next] == Flatten(e.value);
  }

  lemma {:induction false} EntryLength(e: Entry)
    ensures |FlattenEntry(e)| == |Flatten(e.key)| + |Flatten(e.value)|
    ensures e.key.body.ScalarBody? ==> |Flatten(e.key)| == 1
  {
  }

  /** Over the entries of a mapping followed by its end event, the loop is `EntriesResult`. */
  lemma {:induction false} MappingLoopOverEntries(members: seq<MemberMeta>, decode: Decoder, events: seq<Event>, pos: nat, entries: seq<Entry>, fields: seq<Value>)
    requires |fields| == |members|
    requires EntriesAt(events, pos, entries)
    requires pos + |FlattenEntries(entries)| < |events| && events[pos + |FlattenEntries(entries)|].kind == MappingEnd
    ensures MappingLoop(members, decode, events, pos, fields) ==
      Finish(EntriesResult(members, decode, entries, pos, fields), pos + |FlattenEntries(entries)| + 1)
  {
    var end := pos + |FlattenEntries(entries)| + 1;
    assert events[end - 1].kind == MappingEnd;
    LoopAgreesOverEntries(members, decode, events, pos, entries, fields, end);
  }

  /**
    The statement of `MappingLoopOverEntries` with the position after the mapping's end event
    named `end`, so that its induction moves it around whole.
   */
  ghost predicate LoopAgrees(members: seq<MemberMeta>, decode: Decoder, events: seq<Event>, pos: nat, entries: seq<Entry>, fields: seq<Value>, end: nat) {
    |fields| == |members| &&
    MappingLoop(members, decode, events, pos, fields) == Finish(EntriesResult(members, decode, entries, pos, fields), end)
  }

  /** The loop turn at `pos` is entry `e`'s `EntryEffect`, and the next turn starts at `next`. */
  ghost predicate TurnAgrees(members: seq<MemberMeta>, decode: Decoder, events: seq<Event>, pos: nat, e: Entry, fields: seq<Value>, next: nat) {
    |fields| == |members| &&
    (EntryEffect(members, decode, e, pos, fields).Failure? ==>
      MappingLoop(members, decode, events, pos, fields) == Failure(EntryEffect(members, decode, e, pos, fields).error)) &&
    (EntryEffect(members, decode, e, pos, fields).Success? ==>
      MappingLoop(members, decode, events, pos, fields) == MappingLoop(members, decode, events, next, EntryEffect(members, decode, e, pos, fields).value))
  }

  lemma {:induction false} LoopAgreesOverEntries(members: seq<MemberMeta>, decode: Decoder, events: seq<Event>, pos: nat, entries: seq<Entry>, fields: seq<Value>, end: nat)
    requires |fields| == |members|
    requires EntriesAt(events, pos, entries)
    requires end == pos + |FlattenEntries(entries)| + 1 && end <= |events| && events[end - 1].kind == MappingEnd
    ensures LoopAgrees(members, decode, events, pos, entries, fields, end)
    decreases entries
  {
    if entries == [] {
      MappingLoopAtEnd(members, decode, events, pos, fields, end);
    } else {
      var next := pos + |FlattenEntry(entries[0])|;
      FirstEntryStep(members, decode, events, pos, entries, fields, next);
      var eff := EntryEffect(members, decode, entries[0], pos, fields);
      if eff.Success? {
        LoopAgreesOverEntries(members, decode, events, next, entries[1..], eff.value, end);
        FirstEntryThenRest(members, decode, events, pos, entries, fields, next, end);
      } else {
        FirstEntryFails(members, decode, events, pos, entries, fields, next, end);
      }
    }
  }

  /** `TurnMatchesEntry` on the first of the entries at `pos`, and where the others start. */
  lemma {:induction false} FirstEntryStep(members: seq<MemberMeta>, decode: Decoder, events: seq<Event>, pos: nat, entries: seq<Entry>, fields: seq<Value>, next: nat)
    requires |fields| == |members|
    requires EntriesAt(events, pos, entries) && entries != [] && next == pos + |FlattenEntry(entries[0])|
    ensures TurnAgrees(members, decode, events, pos, entries[0], fields, next)
    ensures EntriesAt(events, next, entries[1..])
    ensures next + |FlattenEntries(entries[1..])| == pos + |FlattenEntries(entries)|
  {
    var valueAt := pos + |Flatten(entries[0].key)|;
    EntriesAtSplit(events, pos, entries, valueAt, next);
    EntryTurn(members, decode, events, pos, entries[0], fields, valueAt, next);
  }

  lemma {:induction false} EntryTurn(members: seq<MemberMeta>, decode: Decoder, events: seq<Event>, pos: nat, e: Entry, fields: seq<Value>, valueAt: nat, next: nat)
    requires |fields| == |members| && valueAt == pos + |Flatten(e.key)| && next == pos + |FlattenEntry(e)|
    requires NodeAt(events, pos, e.key) && NodeAt(events, valueAt, e.value)
    ensures TurnAgrees(members, decode, events, pos, e, fields, next)
  {
    TurnMatchesEntry(members, decode, events, pos, e, fields, valueAt, next);
    MappingLoopUnfold(members, decode, events, pos, fields);
  }

  lemma {:induction false} MappingLoopAtEnd(members: seq<MemberMeta>, decode: Decoder, events: seq<Event>, pos: nat, fields: seq<Value>, end: nat)
    requires |fields| == |members|
    requires end == pos + 1 && end <= |events| && events[end - 1].kind == MappingEnd
    ensures LoopAgrees(members, decode, events, pos, [], fields, end)
  {
  }

  /** A first entry that fails ends the loop with its error. */
  lemma {:induction false} FirstEntryFails(members: seq<MemberMeta>, decode: Decoder, events: seq<Event>, pos: nat, entries: seq<Entry>, fields: seq<Value>, next: nat, end: nat)
    requires |fields| == |members| && entries != [] && EntryEffect(members, decode, entries[0], pos, fields).Failure?
    requires TurnAgrees(members, decode, events, pos, entries[0], fields, next)
    ensures LoopAgrees(members, decode, events, pos, entries, fields, end)
  {
    EntriesResultStep(members, decode, entries, pos, fields);
  }

  /** A first entry that succeeds hands its member values to the loop over the remaining entries. */
  lemma {:induction false} FirstEntryThenRest(members: seq<MemberMeta>, decode: Decoder, events: seq<Event>, pos: nat, entries: seq<Entry>, fields: seq<Value>, next: nat, end: nat)
    requires |fields| == |members| && entries != [] && next == pos + |FlattenEntry(entries[0])|
    requires EntryEffect(members, decode, entries[0], pos, fields).Success?
    requires TurnAgrees(members, decode, events, pos, entries[0], fields, next)
    requires LoopAgrees(members, decode, events, next, entries[1..], EntryEffect(members, decode, entries[0], pos, fields).value, end)
    ensures LoopAgrees(members, decode, events, pos, entries, fields, end)
  {
    EntriesResultStep(members, decode, entries, pos, fields);
  }

  /**
    On the events of a node, the generated `Deserialize` computes `DeserializeNode` and, when
    it succeeds, leaves the parser just past that node.
   */
  lemma {:induction false} DeserializeAtNode(members: seq<MemberMeta>, decode: Decoder, events: seq<Event>, p: nat, n: Node)
    requires NodeAt(events, p, n)
    ensures DeserializeAt(members, decode, events, p) ==
      match DeserializeNode(members, decode, n, p)
      case Failure(x) => Failure(x)
      case Success(d) => Success((d, p + |Flatten(n)|))
  {
    NodeFirstEvent(events, p, n);
    if n.body.ScalarBody? && (n.body.scalar.None? || n.body.scalar.value.isNull) {
      assert IsNullScalarAt(events, p);
    } else {
      assert !IsNullScalarAt(events, p);
      if |members| == 0 {
        SkipOverNode(events, p, n);
      } else if n.body.MappingBody? {
        MappingNodeCase(members, decode, events, p, n);
      }
    }
  }

  lemma {:induction false} MappingNodeCase(members: seq<MemberMeta>, decode: Decoder, events: seq<Event>, p: nat, n: Node)
    requires NodeAt(events, p, n) && n.body.MappingBody? && |members| > 0
    ensures DeserializeAt(members, decode, events, p) ==
      Finish(EntriesResult(members, decode, n.body.entries, p + 1, Defaults(members)), p + |Flatten(n)|)
  {
    MappingNodeLoop(members, decode, events, p, n);
    DeserializeAtMappingStart(members, decode, events, p);
  }

  lemma {:induction false} MappingNodeLoop(members: seq<MemberMeta>, decode: Decoder, events: seq<Event>, p: nat, n: Node)
    requires NodeAt(events, p, n) && n.body.MappingBody?
    ensures p < |events| && events[p].kind == MappingStart
    ensures MappingLoop(members, decode, events, p + 1, Defaults(members)) ==
      Finish(EntriesResult(members, decode, n.body.entries, p + 1, Defaults(members)), p + |Flatten(n)|)
  {
    MappingLayout(events, p, n);
    LoopAgreesOverEntries(members, decode, events, p + 1, n.body.entries, Defaults(members), p + |Flatten(n)|);
  }

  lemma {:induction false} DeserializeAtMappingStart(members: seq<MemberMeta>, decode: Decoder, events: seq<Event>, p: nat)
    requires p < |events| && events[p].kind == MappingStart && |members| > 0
    ensures DeserializeAt(members, decode, events, p) == MappingLoop(members, decode, events, p + 1, Defaults(members))
  {
    assert !IsNullScalarAt(events, p);
  }

  /** Where the first entry starts does not matter to a successful result. */
  lemma {:induction false} EntriesResultPositionFree(members: seq<MemberMeta>, decode: Decoder, entries: seq<Entry>, p1: nat, p2: nat, fields: seq<Value>)
    requires |fields| == |members|
    ensures EntriesResult(members, decode, entries, p1, fields).Success? <==> EntriesResult(members, decode, entries, p2, fields).Success?
    ensures EntriesResult(members, decode, entries, p1, fields).Success? ==>
      EntriesResult(members, decode, entries, p1, fields) == EntriesResult(members, decode, entries, p2, fields)
    decreases entries
  {
    if entries != [] {
      var eff := EntryEffect(members, decode, entries[0], p1, fields);
      if eff.Success? {
        assert EntryEffect(members, decode, entries[0], p2, fields) == eff;
        var d := |FlattenEntry(entries[0])|;
        EntriesResultPositionFree(members, decode, entries[1..], p1 + d, p2 + d, eff.value);
      } else {
        assert EntryEffect(members, decode, entries[0], p2, fields).Failure?;
      }
    }
  }

  /** Reading `xs + ys` is reading `xs`, then reading `ys` from where `xs` left the member values. */
  lemma {:induction false} EntriesResultAppend(members: seq<MemberMeta>, decode: Decoder, xs: seq<Entry>, ys: seq<Entry>, pos: nat, fields: seq<Value>)
    requires |fields| == |members|
    ensures EntriesResult(members, decode, xs, pos, fields).Failure? ==>
      EntriesResult(members, decode, xs + ys, pos, fields) == EntriesResult(members, decode, xs, pos, fields)
    ensures EntriesResult(members, decode, xs, pos, fields).Success? ==>
      EntriesResult(members, decode, xs + ys, pos, fields) ==
      EntriesResult(members, decode, ys, pos + |FlattenEntries(xs)|, EntriesResult(members, decode, xs, pos, fields).value)
  {
    AppendAgreesHolds(members, decode, xs, ys, pos, fields);
  }

  /** The statement of `EntriesResultAppend`, as one term. */
  ghost predicate AppendAgrees(members: seq<MemberMeta>, decode: Decoder, xs: seq<Entry>, ys: seq<Entry>, pos: nat, fields: seq<Value>) {
    |fields| == |members| &&
    (EntriesResult(members, decode, xs, pos, fields).Failure? ==>
      EntriesResult(members, decode, xs + ys, pos, fields) == EntriesResult(members, decode, xs, pos, fields)) &&
    (EntriesResult(members, decode, xs, pos, fields).Success? ==>
      EntriesResult(members, decode, xs + ys, pos, fields) ==
      EntriesResult(members, decode, ys, pos + |FlattenEntries(xs)|, EntriesResult(members, decode, xs, pos, fields).value))
  }

  lemma {:induction false} AppendAgreesHolds(members: seq<MemberMeta>, decode: Decoder, xs: seq<Entry>, ys: seq<Entry>, pos: nat, fields: seq<Value>)
    requires |fields| == |members|
    ensures AppendAgrees(members, decode, xs, ys, pos, fields)
    decreases xs
  {
    if xs == [] {
      assert xs + ys == ys;
    } else {
      var eff := EntryEffect(members, decode, xs[0], pos, fields);
      var next := pos + |FlattenEntry(xs[0])|;
      if eff.Success? {
        AppendAgreesHolds(members, decode, xs[1..], ys, next, eff.value);
      }
      AppendStep(members, decode, xs, ys, pos, fields, next);
    }
  }

  /** The first entry of `xs`, then `AppendAgrees` on the rest. */
  lemma {:induction false} AppendStep(members: seq<MemberMeta>, decode: Decoder, xs: seq<Entry>, ys: seq<Entry>, pos: nat, fields: seq<Value>, next: nat)
    requires |fields| == |members| && xs != [] && next == pos + |FlattenEntry(xs[0])|
    requires EntryEffect(members, decode, xs[0], pos, fields).Success? ==>
      AppendAgrees(members, decode, xs[1..], ys, next, EntryEffect(members, decode, xs[0], pos, fields).value)
    ensures AppendAgrees(members, decode, xs, ys, pos, fields)
  {
    assert (xs + ys)[0] == xs[0] && (xs + ys)[1..] == xs[1..] + ys;
    FlattenEntriesLength(xs);
    EntriesResultStep(members, decode, xs, pos, fields);
    EntriesResultStep(members, decode, xs + ys, pos, fields);
    var eff := EntryEffect(members, decode, xs[0], pos, fields);
    if eff.Success? {
      var rest := EntriesResult(members, decode, xs[1..], next, eff.value);
      if rest.Success? {
        EntriesResultAtEqualPositions(members, decode, ys, next + |FlattenEntries(xs[1..])|, pos + |FlattenEntries(xs)|, rest.value);
      }
    }
  }

  lemma {:induction false} FlattenEntriesLength(xs: seq<Entry>)
    requires xs != []
    ensures |FlattenEntries(xs)| == |FlattenEntry(xs[0])| + |FlattenEntries(xs[1..])|
  {
  }

  lemma {:induction false} EntriesResultAtEqualPositions(members: seq<MemberMeta>, decode: Decoder, entries: seq<Entry>, a: nat, b: nat, fields: seq<Value>)
    requires |fields| == |members| && a == b
    ensures EntriesResult(members, decode, entries, a, fields) == EntriesResult(members, decode, entries, b, fields)
  {
  }

  /**
    An entry with a scalar key that selects no member is skipped without being decoded: adding
    one anywhere in a mapping leaves a successful result as it was, and a failing one failing.
   */
  lemma {:induction false} UnknownKeyIsIgnored(members: seq<MemberMeta>, decode: Decoder, xs: seq<Entry>, u: Entry, ys: seq<Entry>, pos: nat, fields: seq<Value>)
    requires |fields| == |members|
    requires u.key.body.ScalarBody? && u.key.body.scalar.Some? && SwitchMatch(members, u.key.body.scalar.value.bytes).None?
    ensures EntriesResult(members, decode, xs + [u] + ys, pos, fields).Success? <==> EntriesResult(members, decode, xs + ys, pos, fields).Success?
    ensures EntriesResult(members, decode, xs + ys, pos, fields).Success? ==>
      EntriesResult(members, decode, xs + [u] + ys, pos, fields) == EntriesResult(members, decode, xs + ys, pos, fields)
  {
    assert xs + [u] + ys == xs + ([u] + ys);
    EntriesResultAppend(members, decode, xs, [u] + ys, pos, fields);
    EntriesResultAppend(members, decode, xs, ys, pos, fields);
    var front := EntriesResult(members, decode, xs, pos, fields);
    if front.Success? {
      UnknownEntryInFront(members, decode, u, ys, pos + |FlattenEntries(xs)|, front.value);
    }
  }

  lemma {:induction false} UnknownEntryInFront(members: seq<MemberMeta>, decode: Decoder, u: Entry, ys: seq<Entry>, q: nat, fs: seq<Value>)
    requires |fs| == |members|
    requires u.key.body.ScalarBody? && u.key.body.scalar.Some? && SwitchMatch(members, u.key.body.scalar.value.bytes).None?
    ensures EntriesResult(members, decode, [u] + ys, q, fs).Success? <==> EntriesResult(members, decode, ys, q, fs).Success?
    ensures EntriesResult(members, decode, ys, q, fs).Success? ==>
      EntriesResult(members, decode, [u] + ys, q, fs) == EntriesResult(members, decode, ys, q, fs)
  {
    var us, next := [u] + ys, q + |FlattenEntry(u)|;
    assert us[0] == u && us[1..] == ys;
    UnknownKeyEffect(members, decode, u, q, fs);
    EntriesResultStep(members, decode, us, q, fs);
    EntriesResultPositionFree(members, decode, ys, next, q, fs);
  }

  lemma {:induction false} UnknownKeyEffect(members: seq<MemberMeta>, decode: Decoder, u: Entry, q: nat, fs: seq<Value>)
    requires |fs| == |members|
    requires u.key.body.ScalarBody? && u.key.body.scalar.Some? && SwitchMatch(members, u.key.body.scalar.value.bytes).None?
    ensures EntryEffect(members, decode, u, q, fs) == Success(fs)
  {
  }

  /** One step of `EntriesResult`: the first entry's effect, then the others after it. */
  lemma {:induction false} EntriesResultStep(members: seq<MemberMeta>, decode: Decoder, entries: seq<Entry>, pos: nat, fields: seq<Value>)
    requires |fields| == |members| && entries != []
    ensures EntryEffect(members, decode, entries[0], pos, fields).Failure? ==>
      EntriesResult(members, decode, entries, pos, fields) == Failure(EntryEffect(members, decode, entries[0], pos, fields).error)
    ensures EntryEffect(members, decode, entries[0], pos, fields).Success? ==>
      EntriesResult(members, decode, entries, pos, fields) ==
      EntriesResult(members, decode, entries[1..], pos + |FlattenEntry(entries[0])|, EntryEffect(members, decode, entries[0], pos, fields).value)
  {
  }

  /** An entry whose key selects member `i` stores the value decoded from its value node. */
  lemma {:induction false} EntryEffectOnSelected(members: seq<MemberMeta>, decode: Decoder, e: Entry, pos: nat, fields: seq<Value>, i: nat)
    requires |fields| == |members| && Selects(members, e, i)
    requires EntryEffect(members, decode, e, pos, fields).Success?
    ensures decode(members[i].memberType, Flatten(e.value)).Success?
    ensures EntryEffect(members, decode, e, pos, fields).value[i] == decode(members[i].memberType, Flatten(e.value)).value
  {
  }

  /** Any other entry leaves member `i` as it was. */
  lemma {:induction false} EntryEffectOnOthers(members: seq<MemberMeta>, decode: Decoder, e: Entry, pos: nat, fields: seq<Value>, i: nat)
    requires |fields| == |members| && i < |members| && !Selects(members, e, i)
    requires EntryEffect(members, decode, e, pos, fields).Success?
    ensures EntryEffect(members, decode, e, pos, fields).value[i] == fields[i]
  {
  }

  /** A member whose key never appears keeps the value it had: its `default`. */
  lemma {:induction false} AbsentKeyKeepsValue(members: seq<MemberMeta>, decode: Decoder, entries: seq<Entry>, pos: nat, fields: seq<Value>, i: nat)
    requires |fields| == |members| && i < |members|
    requires forall j :: 0 <= j < |entries| ==> !Selects(members, entries[j], i)
    requires EntriesResult(members, decode, entries, pos, fields).Success?
    ensures EntriesResult(members, decode, entries, pos, fields).value[i] == fields[i]
    decreases entries
  {
    if entries != [] {
      var e := entries[0];
      var eff := EntryEffect(members, decode, e, pos, fields);
      assert !Selects(members, e, i);
      EntryEffectOnOthers(members, decode, e, pos, fields, i);
      forall j | 0 <= j < |entries[1..]|
        ensures !Selects(members, entries[1..][j], i)
      {
        assert entries[1..][j] == entries[j + 1];
      }
      AbsentKeyKeepsValue(members, decode, entries[1..], pos + |FlattenEntry(e)|, eff.value, i);
    }
  }

  /** When a key appears several times, the value decoded from its last occurrence is the one kept. */
  lemma {:induction false} LastOccurrenceWins(members: seq<MemberMeta>, decode: Decoder, entries: seq<Entry>, pos: nat, fields: seq<Value>, i: nat, j: nat)
    requires |fields| == |members| && i < |members|
    requires j < |entries| && Selects(members, entries[j], i)
    requires forall k :: j < k < |entries| ==> !Selects(members, entries[k], i)
    requires EntriesResult(members, decode, entries, pos, fields).Success?
    ensures decode(members[i].memberType, Flatten(entries[j].value)).Success?
    ensures EntriesResult(members, decode, entries, pos, fields).value[i] == decode(members[i].memberType, Flatten(entries[j].value)).value
    decreases entries
  {
    var e := entries[0];
    var eff := EntryEffect(members, decode, e, pos, fields);
    var next := pos + |FlattenEntry(e)|;
    if j == 0 {
      EntryEffectOnSelected(members, decode, e, pos, fields, i);
      forall m | 0 <= m < |entries[1..]|
        ensures !Selects(members, entries[1..][m], i)
      {
        assert entries[1..][m] == entries[m + 1];
      }
      AbsentKeyKeepsValue(members, decode, entries[1..], next, eff.value, i);
    } else {
      assert entries[1..][j - 1] == entries[j];
      forall m | j - 1 < m < |entries[1..]|
        ensures !Selects(members, entries[1..][m], i)
      {
        assert entries[1..][m] == entries[m + 1];
      }
      LastOccurrenceWins(members, decode, entries[1..], next, eff.value, i, j - 1);
    }
  }

  /** A null scalar yields `default` after consuming its one event, whatever the members. */
  lemma {:induction false} NullScalarYieldsDefault(members: seq<MemberMeta>, decode: Decoder, events: seq<Event>, p: nat, n: Node)
    requires NodeAt(events, p, n)
    requires n.body.ScalarBody? && (n.body.scalar.None? || n.body.scalar.value.isNull)
    ensures DeserializeAt(members, decode, events, p) == Success((DefaultOfTarget, p + 1))
  {
    DeserializeAtNode(members, decode, events, p, n);
  }

  /** A type without members skips any node that is not a null scalar and yields a new instance. */
  lemma {:induction false} NoMembersSkipsTheNode(decode: Decoder, events: seq<Event>, p: nat, n: Node)
    requires NodeAt(events, p, n)
    requires !(n.body.ScalarBody? && (n.body.scalar.None? || n.body.scalar.value.isNull))
    ensures DeserializeAt([], decode, events, p) == Success((Instance([]), p + |Flatten(n)|))
  {
    DeserializeAtNode([], decode, events, p, n);
  }

  /** A type with members rejects a node that is neither a null scalar nor a mapping, at the node's mark. */
  lemma {:induction false} NonMappingIsRejected(members: seq<MemberMeta>, decode: Decoder, events: seq<Event>, p: nat, n: Node)
    requires NodeAt(events, p, n) && |members| > 0 && !n.body.MappingBody?
    requires !(n.body.ScalarBody? && (n.body.scalar.None? || n.body.scalar.value.isNull))
    ensures DeserializeAt(members, decode, events, p) == Failure(YamlParserException(Mark(p), UnexpectedEventMessage(MappingStart)))
  {
    DeserializeAtNode(members, decode, events, p, n);
  }

  /** `YamlDeserializationContext`: reads member values, resolving anchors and aliases inside `decode`. */
  class DeserializationContext {
    const decode: Decoder

    constructor (decode: Decoder)
      ensures this.decode == decode
    {
      this.decode := decode;
    }

    /** `DeserializeWithAlias<T>(ref parser)`: consume the current node and decode it as a `T`. */
    method DeserializeWithAlias(parser: YamlParser, t: Type) returns (r: Result<Value, Exception>)
      modifies parser
      ensures match SkipSpec(parser.events, old(parser.cursor))
        case Failure(x) => r == Failure(x) && parser.cursor == old(parser.cursor)
        case Success(next) => parser.cursor == next && r == decode(t, parser.events[old(parser.cursor)..next])
    {
      var start := parser.cursor;
      var o := parser.SkipCurrentNode();
      if o.Fail? {
        return Failure(o.error);
      }
      r := decode(t, parser.events[start..parser.cursor]);
    }
  }

  /** `<TypeName>GeneratedFormatter`: the members and their `KeyUtf8Bytes` fields. */
  class GeneratedFormatter {
    const members: seq<MemberMeta>

    constructor (members: seq<MemberMeta>)
      ensures this.members == members
    {
      this.members := members;
    }

    /** The generated `Deserialize(ref parser, context)`. */
    method Deserialize(parser: YamlParser, context: DeserializationContext) returns (r: Result<Decoded, Exception>)
      modifies parser
      ensures match DeserializeAt(members, context.decode, parser.events, old(parser.cursor))
        case Success(result) => r == Success(result.0) && parser.cursor == result.1
        case Failure(x) => r == Failure(x)
    {
      ghost var spec := DeserializeAt(members, context.decode, parser.events, parser.cursor);
      if parser.IsNullScalar() {
        var _ := parser.Read();
        return Success(DefaultOfTarget);
      }
      if |members| == 0 {
        var skipped := parser.SkipCurrentNode();
        if skipped.Fail? {
          return Failure(skipped.error);
        }
        return Success(Instance([]));
      }
      if parser.CurrentEventType() == MappingStart {
        DeserializeAtMappingStart(members, context.decode, parser.events, parser.cursor);
      }
      var start := parser.ReadWithVerify(MappingStart);
      if start.Fail? {
        return Failure(start.error);
      }
      var fields := Defaults(members);
      assert spec == MappingLoop(members, context.decode, parser.events, parser.cursor, fields);
      while !parser.End() && parser.CurrentEventType() != MappingEnd
        invariant |fields| == |members|
        invariant MappingLoop(members, context.decode, parser.events, parser.cursor, fields) == spec
        decreases |parser.events| - parser.cursor
      {
        MappingLoopUnfold(members, context.decode, parser.events, parser.cursor, fields);
        ghost var turn := LoopTurn(members, context.decode, parser.events, parser.cursor, fields);
        if parser.CurrentEventType() != Scalar {
          assert turn == Failure(YamlSerializerException(Some(parser.CurrentMark()), KeyMessage));
          return Failure(YamlSerializerException(Some(parser.CurrentMark()), KeyMessage));
        }
        var span := parser.TryGetScalarAsSpan();
        if !span.0 {
          assert turn == Failure(YamlSerializerException(Some(parser.CurrentMark()), KeyMessage));
          return Failure(YamlSerializerException(Some(parser.CurrentMark()), KeyMessage));
        }
        var key := span.1;
        match SwitchMatch(members, key)
        case Some(i) =>
          var _ := parser.Read();
          var value := context.DeserializeWithAlias(parser, members[i].memberType);
          if value.Failure? {
            assert turn == Failure(value.error);
            return Failure(value.error);
          }
          assert turn == Success((fields[i := value.value], parser.cursor));
          fields := fields[i := value.value];
        case None =>
          var _ := parser.Read();
          var skipped := parser.SkipCurrentNode();
          if skipped.Fail? {
            assert turn == Failure(skipped.error);
            return Failure(skipped.error);
          }
          assert turn == Success((fields, parser.cursor));
      }
      var end := parser.ReadWithVerify(MappingEnd);
      if end.Fail? {
        return Failure(end.error);
      }
      r := Success(Instance(fields));
    }
  }
}
