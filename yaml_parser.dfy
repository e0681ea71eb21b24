/**
  `YamlParser` (VYaml.Core/Parser): a cursor over the event stream. The tokenizer and the
  event producer are not part of this model: the parser is given the events it will produce,
  and the state the source keeps in `currentScalar`, `currentTag`, `currentAnchor` and
  `CurrentEventType` is the event at the cursor. The end of the sequence is the end of the
  stream: there the current event is `StreamEnd` and `End` holds.

  The scalar accessors follow YamlParser.TryGet.cs; `Read`, `ReadWithVerify` and
  `SkipCurrentNode` live in the other half of the partial class and are modelled by what
  their callers rely on.
 */
module YamlParsers {
  import opened Wrappers
  import opened Runtime
  import opened Events

  /** `ParseEventType.ToString()`, as it appears in exception messages. */
  function KindName(k: EventKind): string {
    match k
    case Nothing => "Nothing"
    case StreamStart => "StreamStart"
    case StreamEnd => "StreamEnd"
    case DocumentStart => "DocumentStart"
    case DocumentEnd => "DocumentEnd"
    case Alias => "Alias"
    case Scalar => "Scalar"
    case SequenceStart => "SequenceStart"
    case SequenceEnd => "SequenceEnd"
    case MappingStart => "MappingStart"
    case MappingEnd => "MappingEnd"
  }

  /** An interpolated `{currentScalar}`: the scalar's `ToString()`, or nothing for `null`. */
  function ScalarText(s: Option<ScalarValue>): string {
    if s.Some? then s.value.text else ""
  }

  /** The event at position `c`, or `StreamEnd` past the end. */
  function EventAt(events: seq<Event>, c: nat): (e: Event)
    ensures c >= |events| ==> e.kind == StreamEnd
  {
    if c < |events| then events[c] else StreamEndEvent
  }

  /** The message of the exception `ReadWithVerify(expected)` throws on a mismatch. */
  function UnexpectedEventMessage(expected: EventKind): string {
    "Did not find expected event : `" + KindName(expected) + "`"
  }

  class YamlParser {
    /** The events the parser produces, in order. */
    const events: seq<Event>
    /** The index of the current event. */
    var cursor: nat

    constructor (events: seq<Event>)
      ensures this.events == events && cursor == 0
    {
      this.events := events;
      cursor := 0;
    }

    /** The stream's terminator is the end of the sequence, never an event inside it. */
    ghost predicate WellTerminated()
      reads this
    {
      forall i :: 0 <= i < |events| ==> events[i].kind != StreamEnd
    }

    predicate End()
      reads this
    {
      cursor >= |events|
    }

    function Current(): Event
      reads this
    {
      EventAt(events, cursor)
    }

    function CurrentEventType(): EventKind
      reads this
    {
      Current().kind
    }

    function CurrentMark(): Mark
      reads this
    {
      Mark(cursor)
    }

    function CurrentScalar(): Option<ScalarValue>
      reads this
    {
      Current().scalar
    }

    /** In a well-terminated stream, `End` and a current `StreamEnd` event coincide. */
    lemma {:induction false} EndIsStreamEnd()
      requires WellTerminated()
      ensures End() <==> CurrentEventType() == StreamEnd
    {
    }

    /** `IsNullScalar()`: the current event is a scalar with no value or the null value. */
    function IsNullScalar(): (r: bool)
      reads this
      ensures r <==> CurrentEventType() == Scalar && (CurrentScalar().None? || CurrentScalar().value.isNull)
    {
      CurrentEventType() == Scalar && (CurrentScalar() == None || CurrentScalar().value.isNull)
    }

    /** `GetScalarAsString()`: the current scalar's text, `null` without one. */
    function GetScalarAsString(): (r: Option<string>)
      reads this
      ensures r.Some? <==> CurrentScalar().Some?
      ensures r.Some? ==> r.value == CurrentScalar().value.text
    {
      if CurrentScalar().Some? then Some(CurrentScalar().value.text) else None
    }

    /** `TryGetScalarAsSpan(out span)`: the scalar's bytes; `false` and an empty span without one. */
    function TryGetScalarAsSpan(): (r: (bool, seq<byte>))
      reads this
      ensures r.0 <==> CurrentScalar().Some?
      ensures r.0 ==> r.1 == CurrentScalar().value.bytes
      ensures !r.0 ==> r.1 == []
    {
      if CurrentScalar().None? then (false, []) else (true, CurrentScalar().value.bytes)
    }

    /** The exception the `GetScalarAs...` family throws, at the current mark. */
    function CannotDetect(what: string, parenthesised: bool): (x: Exception)
      reads this
      ensures x.YamlParserException? && x.mark == CurrentMark()
    {
      var detail :=
        if parenthesised then KindName(CurrentEventType()) + " (" + ScalarText(CurrentScalar()) + ")"
        else KindName(CurrentEventType()) + " " + ScalarText(CurrentScalar());
      YamlParserException(CurrentMark(), "Cannot detect a scalar value as " + what + detail)
    }

    /** `GetScalarAsBool()`: the scalar as a boolean, or `YamlParserException` at the current mark. */
    function GetScalarAsBool(): (r: Result<bool, Exception>)
      reads this
      ensures r.Success? <==> CurrentScalar().Some? && CurrentScalar().value.asBool.0
      ensures r.Success? ==> r.value == CurrentScalar().value.asBool.1
      ensures r.Failure? ==> r.error.YamlParserException? && r.error.mark == CurrentMark()
    {
      if CurrentScalar().Some? && CurrentScalar().value.asBool.0 then Success(CurrentScalar().value.asBool.1)
      else Failure(CannotDetect("bool : ", false))
    }

    /** `GetScalarAsInt32()` */
    function GetScalarAsInt32(): (r: Result<int32, Exception>)
      reads this
      ensures r.Success? <==> CurrentScalar().Some? && CurrentScalar().value.asInt32.0
      ensures r.Success? ==> r.value == CurrentScalar().value.asInt32.1
      ensures r.Failure? ==> r.error.YamlParserException? && r.error.mark == CurrentMark()
    {
      if CurrentScalar().Some? && CurrentScalar().value.asInt32.0 then Success(CurrentScalar().value.asInt32.1)
      else Failure(CannotDetect("Int32: ", false))
    }

    /** `GetScalarAsInt64()` */
    function GetScalarAsInt64(): (r: Result<int64, Exception>)
      reads this
      ensures r.Success? <==> CurrentScalar().Some? && CurrentScalar().value.asInt64.0
      ensures r.Success? ==> r.value == CurrentScalar().value.asInt64.1
      ensures r.Failure? ==> r.error.YamlParserException? && r.error.mark == CurrentMark()
    {
      if CurrentScalar().Some? && CurrentScalar().value.asInt64.0 then Success(CurrentScalar().value.asInt64.1)
      else Failure(CannotDetect("Int64: ", false))
    }

    /** `GetScalarAsUInt32()` */
    function GetScalarAsUInt32(): (r: Result<uint32, Exception>)
      reads this
      ensures r.Success? <==> CurrentScalar().Some? && CurrentScalar().value.asUInt32.0
      ensures r.Success? ==> r.value == CurrentScalar().value.asUInt32.1
      ensures r.Failure? ==> r.error.YamlParserException? && r.error.mark == CurrentMark()
    {
      if CurrentScalar().Some? && CurrentScalar().value.asUInt32.0 then Success(CurrentScalar().value.asUInt32.1)
      else Failure(CannotDetect("UInt32 : ", false))
    }

    /** `GetScalarAsUInt64()`; its message puts the scalar in parentheses. */
    function GetScalarAsUInt64(): (r: Result<uint64, Exception>)
      reads this
      ensures r.Success? <==> CurrentScalar().Some? && CurrentScalar().value.asUInt64.0
      ensures r.Success? ==> r.value == CurrentScalar().value.asUInt64.1
      ensures r.Failure? ==> r.error.YamlParserException? && r.error.mark == CurrentMark()
    {
      if CurrentScalar().Some? && CurrentScalar().value.asUInt64.0 then Success(CurrentScalar().value.asUInt64.1)
      else Failure(CannotDetect("UInt64 : ", true))
    }

    /** `TryGetScalarAsString(out value)`: `true` with a scalar, whose value is `null` for the null scalar. */
    function TryGetScalarAsString(): (r: (bool, Option<string>))
      reads this
      ensures r.0 <==> CurrentScalar().Some?
      ensures r.1.Some? <==> CurrentScalar().Some? && !CurrentScalar().value.isNull
      ensures r.1.Some? ==> r.1.value == CurrentScalar().value.text
    {
      if CurrentScalar().Some? then
        (true, if CurrentScalar().value.isNull then None else Some(CurrentScalar().value.text))
      else (false, None)
    }

    /** `TryGetScalarAsBool(out value)`: the scalar's own answer; `false` and `default` without a scalar. */
    function TryGetScalarAsBool(): (r: (bool, bool))
      reads this
      ensures CurrentScalar().Some? ==> r == CurrentScalar().value.asBool
      ensures CurrentScalar().None? ==> r == (false, false)
    {
      if CurrentScalar().Some? then CurrentScalar().value.asBool else (false, false)
    }

    /** `TryGetScalarAsInt32(out value)` */
    function TryGetScalarAsInt32(): (r: (bool, int32))
      reads this
      ensures CurrentScalar().Some? ==> r == CurrentScalar().value.asInt32
      ensures CurrentScalar().None? ==> r == (false, 0)
    {
      if CurrentScalar().Some? then CurrentScalar().value.asInt32 else (false, 0)
    }

    /** `TryGetScalarAsInt64(out value)` */
    function TryGetScalarAsInt64(): (r: (bool, int64))
      reads this
      ensures CurrentScalar().Some? ==> r == CurrentScalar().value.asInt64
      ensures CurrentScalar().None? ==> r == (false, 0)
    {
      if CurrentScalar().Some? then CurrentScalar().value.asInt64 else (false, 0)
    }

    /** `TryGetCurrentTag(out tag)`: `true` exactly when the current event carries a tag. */
    function TryGetCurrentTag(): (r: (bool, Option<Tag>))
      reads this
      ensures r.0 <==> Current().tag.Some?
      ensures r.1 == Current().tag
    {
      if Current().tag != None then (true, Current().tag) else (false, None)
    }

    /** `TryGetCurrentAnchor(out anchor)`: `true` exactly when the current event carries an anchor. */
    function TryGetCurrentAnchor(): (r: (bool, Option<Anchor>))
      reads this
      ensures r.0 <==> Current().anchor.Some?
      ensures r.1 == Current().anchor
    {
      if Current().anchor != None then (true, Current().anchor) else (false, None)
    }

    /** `Read()`: move to the next event; at the end of the stream, stay and answer `false`. */
    method Read() returns (moved: bool)
      modifies this
      ensures moved <==> !old(End())
      ensures cursor == if moved then old(cursor) + 1 else old(cursor)
    {
      if cursor >= |events| {
        return false;
      }
      cursor := cursor + 1;
      moved := true;
    }

    /** `ReadWithVerify(expected)`: `Read()` if the current event is of the expected kind, else throw. */
    method ReadWithVerify(expected: EventKind) returns (o: Outcome<Exception>)
      modifies this
      ensures old(CurrentEventType()) == expected ==>
        o == Pass && cursor == if old(End()) then old(cursor) else old(cursor) + 1
      ensures old(CurrentEventType()) != expected ==>
        o == Fail(YamlParserException(old(CurrentMark()), UnexpectedEventMessage(expected))) && cursor == old(cursor)
    {
      if CurrentEventType() != expected {
        return Fail(YamlParserException(CurrentMark(), UnexpectedEventMessage(expected)));
      }
      var _ := Read();
      o := Pass;
    }

    /**
      `SkipCurrentNode()`: step over the node that starts at the current event. A scalar or
      alias is one event; a sequence or mapping is skipped by counting start and end events
      until the depth returns to zero. Anything else is not a node.
     */
    method SkipCurrentNode() returns (o: Outcome<Exception>)
      modifies this
      ensures match SkipSpec(events, old(cursor))
        case Success(next) => o == Pass && cursor == next
        case Failure(x) => o == Fail(x) && cursor == old(cursor)
    {
      if cursor >= |events| {
        return Fail(InvalidOperation);
      }
      var kind := events[cursor].kind;
      if kind == Scalar || kind == Alias {
        var _ := Read();
        return Pass;
      }
      if kind != MappingStart && kind != SequenceStart {
        return Fail(InvalidOperation);
      }
      ghost var target := ScanClose(events, cursor + 1, 1);
      var depth: nat := 1;
      var done := false;
      cursor := cursor + 1;
      while !done && cursor < |events|
        invariant !done ==> depth >= 1 && ScanClose(events, cursor, depth) == target
        invariant done ==> cursor == target
        decreases |events| - cursor, if done then 0 else 1
      {
        var d := depth + Delta(events[cursor]);
        var _ := Read();
        if d <= 0 {
          done := true;
        } else {
          depth := d;
        }
      }
      o := Pass;
    }

    /** `ReadScalarAsString()`: the scalar's text (or `null`), then `ReadWithVerify(Scalar)`. */
    method ReadScalarAsString() returns (r: Result<Option<string>, Exception>)
      modifies this
      ensures old(CurrentEventType()) == Scalar ==> r == Success(old(GetScalarAsString())) && cursor == old(cursor) + 1
      ensures old(CurrentEventType()) != Scalar ==>
        r == Failure(YamlParserException(old(CurrentMark()), UnexpectedEventMessage(Scalar))) && cursor == old(cursor)
    {
      var result := GetScalarAsString();
      var o := ReadWithVerify(Scalar);
      if o.Fail? {
        return Failure(o.error);
      }
      r := Success(result);
    }

    /** `ReadScalarAsBool()`: `GetScalarAsBool()`, then `ReadWithVerify(Scalar)`; nothing moves on failure. */
    method ReadScalarAsBool() returns (r: Result<bool, Exception>)
      modifies this
      ensures old(GetScalarAsBool()).Failure? ==> r == old(GetScalarAsBool()) && cursor == old(cursor)
      ensures old(GetScalarAsBool()).Success? && old(CurrentEventType()) == Scalar ==>
        r == old(GetScalarAsBool()) && cursor == old(cursor) + 1
      ensures old(GetScalarAsBool()).Success? && old(CurrentEventType()) != Scalar ==>
        r == Failure(YamlParserException(old(CurrentMark()), UnexpectedEventMessage(Scalar))) && cursor == old(cursor)
    {
      var result := GetScalarAsBool();
      if result.Failure? {
        return result;
      }
      var o := ReadWithVerify(Scalar);
      if o.Fail? {
        return Failure(o.error);
      }
      r := result;
    }

    /** `ReadScalarAsInt32()` */
    method ReadScalarAsInt32() returns (r: Result<int32, Exception>)
      modifies this
      ensures old(GetScalarAsInt32()).Failure? ==> r == old(GetScalarAsInt32()) && cursor == old(cursor)
      ensures old(GetScalarAsInt32()).Success? && old(CurrentEventType()) == Scalar ==>
        r == old(GetScalarAsInt32()) && cursor == old(cursor) + 1
      ensures old(GetScalarAsInt32()).Success? && old(CurrentEventType()) != Scalar ==>
        r == Failure(YamlParserException(old(CurrentMark()), UnexpectedEventMessage(Scalar))) && cursor == old(cursor)
    {
      var result := GetScalarAsInt32();
      if result.Failure? {
        return result;
      }
      var o := ReadWithVerify(Scalar);
      if o.Fail? {
        return Failure(o.error);
      }
      r := result;
    }

    /** `ReadScalarAsInt64()` */
    method ReadScalarAsInt64() returns (r: Result<int64, Exception>)
      modifies this
      ensures old(GetScalarAsInt64()).Failure? ==> r == old(GetScalarAsInt64()) && cursor == old(cursor)
      ensures old(GetScalarAsInt64()).Success? && old(CurrentEventType()) == Scalar ==>
        r == old(GetScalarAsInt64()) && cursor == old(cursor) + 1
      ensures old(GetScalarAsInt64()).Success? && old(CurrentEventType()) != Scalar ==>
        r == Failure(YamlParserException(old(CurrentMark()), UnexpectedEventMessage(Scalar))) && cursor == old(cursor)
    {
      var result := GetScalarAsInt64();
      if result.Failure? {
        return result;
      }
      var o := ReadWithVerify(Scalar);
      if o.Fail? {
        return Failure(o.error);
      }
      r := result;
    }

    /** `ReadScalarAsUInt32()` */
    method ReadScalarAsUInt32() returns (r: Result<uint32, Exception>)
      modifies this
      ensures old(GetScalarAsUInt32()).Failure? ==> r == old(GetScalarAsUInt32()) && cursor == old(cursor)
      ensures old(GetScalarAsUInt32()).Success? && old(CurrentEventType()) == Scalar ==>
        r == old(GetScalarAsUInt32()) && cursor == old(cursor) + 1
      ensures old(GetScalarAsUInt32()).Success? && old(CurrentEventType()) != Scalar ==>
        r == Failure(YamlParserException(old(CurrentMark()), UnexpectedEventMessage(Scalar))) && cursor == old(cursor)
    {
      var result := GetScalarAsUInt32();
      if result.Failure? {
        return result;
      }
      var o := ReadWithVerify(Scalar);
      if o.Fail? {
        return Failure(o.error);
      }
      r := result;
    }

    /** `ReadScalarAsUInt64()` */
    method ReadScalarAsUInt64() returns (r: Result<uint64, Exception>)
      modifies this
      ensures old(GetScalarAsUInt64()).Failure? ==> r == old(GetScalarAsUInt64()) && cursor == old(cursor)
      ensures old(GetScalarAsUInt64()).Success? && old(CurrentEventType()) == Scalar ==>
        r == old(GetScalarAsUInt64()) && cursor == old(cursor) + 1
      ensures old(GetScalarAsUInt64()).Success? && old(CurrentEventType()) != Scalar ==>
        r == Failure(YamlParserException(old(CurrentMark()), UnexpectedEventMessage(Scalar))) && cursor == old(cursor)
    {
      var result := GetScalarAsUInt64();
      if result.Failure? {
        return result;
      }
      var o := ReadWithVerify(Scalar);
      if o.Fail? {
        return Failure(o.error);
      }
      r := result;
    }
  }

  /**
    The throwing and the non-throwing accessors agree: `GetScalarAsX()` returns exactly when
    `TryGetScalarAsX` answers `true`, and then with the value it writes.
   */
  lemma {:induction false} GetAgreesWithTryGet(p: YamlParser)
    ensures p.GetScalarAsBool().Success? <==> p.TryGetScalarAsBool().0
    ensures p.GetScalarAsBool().Success? ==> p.GetScalarAsBool().value == p.TryGetScalarAsBool().1
    ensures p.GetScalarAsInt32().Success? <==> p.TryGetScalarAsInt32().0
    ensures p.GetScalarAsInt32().Success? ==> p.GetScalarAsInt32().value == p.TryGetScalarAsInt32().1
    ensures p.GetScalarAsInt64().Success? <==> p.TryGetScalarAsInt64().0
    ensures p.GetScalarAsInt64().Success? ==> p.GetScalarAsInt64().value == p.TryGetScalarAsInt64().1
  {
  }

  /**
    The string accessors agree with each other and with the null test: with a scalar present,
    `TryGetScalarAsString` and `TryGetScalarAsSpan` both answer `true`, and the text is
    withheld exactly for the null scalar.
   */
  lemma {:induction false} StringAccessorsAgree(p: YamlParser)
    ensures p.TryGetScalarAsString().0 <==> p.TryGetScalarAsSpan().0
    ensures p.TryGetScalarAsString().0 <==> p.GetScalarAsString().Some?
    ensures p.CurrentEventType() == Scalar ==> (p.IsNullScalar() <==> p.TryGetScalarAsString().1.None?)
    ensures p.TryGetScalarAsString().1.Some? ==> p.TryGetScalarAsString().1 == p.GetScalarAsString()
  {
  }

  /** A parser over the events of one node skips exactly that node. */
  method SkipNode(n: Node, before: seq<Event>, after: seq<Event>) returns (o: Outcome<Exception>, position: nat)
    ensures o == Pass && position == |before| + |Flatten(n)|
  {
    var p := new YamlParser(before + Flatten(n) + after);
    p.cursor := |before|;
    assert p.events[|before|..|before| + |Flatten(n)|] == Flatten(n);
    SkipOverNode(p.events, |before|, n);
    o := p.SkipCurrentNode();
    position := p.cursor;
  }
}
