/**
  The parser's event vocabulary (VYaml's `ParseEventType`, `Tag`, `Anchor` and the scalar
  the parser exposes) and the well-nested shape of an event stream: a node of the YAML
  document is one scalar or alias event, or a start event, its children and the matching
  end event.
 */
module Events {
  import opened Wrappers
  import opened Runtime

  datatype EventKind =
    | Nothing
    | StreamStart | StreamEnd
    | DocumentStart | DocumentEnd
    | Alias
    | Scalar
    | SequenceStart | SequenceEnd
    | MappingStart | MappingEnd

  /** A tag such as `!!str` or `!Shape`: its handle (`!!`, `!`) and suffix. */
  datatype Tag = Tag(handle: string, suffix: string)

  /** An anchor `&name`; aliases refer back to it. */
  datatype Anchor = Anchor(name: string, id: nat)

  /**
    A scalar as the parser hands it out. Its conversions belong to the scalar type, whose
    code is not part of this model, so each scalar carries their results: `bytes` is
    `AsSpan()`, `text` is `ToString()`, `isNull` is `IsNull()`, and each `asX` pair is what
    `TryGetX(out value)` returns together with the value it writes.
   */
  datatype ScalarValue = ScalarValue(
    bytes: seq<byte>,
    text: string,
    isNull: bool,
    asBool: (bool, bool),
    asInt32: (bool, int32),
    asInt64: (bool, int64),
    asUInt32: (bool, uint32),
    asUInt64: (bool, uint64))

  /** One parser event with the scalar, tag and anchor the parser holds while it is current. */
  datatype Event = Event(kind: EventKind, scalar: Option<ScalarValue>, tag: Option<Tag>, anchor: Option<Anchor>)

  /** The event the parser reports once the stream is exhausted. */
  const StreamEndEvent := Event(StreamEnd, None, None, None)

  /** A node of a YAML document, as the events of a well-formed stream nest. */
  datatype Node = Node(tag: Option<Tag>, anchor: Option<Anchor>, body: Body)

  datatype Body =
    | ScalarBody(scalar: Option<ScalarValue>)
    | AliasBody(target: Anchor)
    | SequenceBody(items: seq<Node>)
    | MappingBody(entries: seq<Entry>)

  datatype Entry = Entry(key: Node, value: Node)

  predicate IsContainer(n: Node) {
    n.body.SequenceBody? || n.body.MappingBody?
  }

  /** The events of a node, in stream order. */
  function Flatten(n: Node): seq<Event>
    decreases n, 1
  {
    match n.body
    case ScalarBody(s) => [Event(Scalar, s, n.tag, n.anchor)]
    case AliasBody(a) => [Event(Alias, None, None, Some(a))]
    case SequenceBody(items) =>
      [Event(SequenceStart, None, n.tag, n.anchor)] + FlattenItems(items) + [Event(SequenceEnd, None, None, None)]
    case MappingBody(entries) =>
      [Event(MappingStart, None, n.tag, n.anchor)] + FlattenEntries(entries) + [Event(MappingEnd, None, None, None)]
  }

  function FlattenItems(items: seq<Node>): seq<Event>
    decreases items, 0
  {
    if items == [] then [] else Flatten(items[0]) + FlattenItems(items[1..])
  }

  function FlattenEntries(entries: seq<Entry>): seq<Event>
    decreases entries, 0
  {
    if entries == [] then [] else FlattenEntry(entries[0]) + FlattenEntries(entries[1..])
  }

  function FlattenEntry(e: Entry): seq<Event>
    decreases e, 2
  {
    Flatten(e.key) + Flatten(e.value)
  }

  /** `n` occupies the events starting at position `p`. */
  ghost predicate NodeAt(events: seq<Event>, p: nat, n: Node) {
    p + |Flatten(n)| <= |events| && events[p..p + |Flatten(n)|] == Flatten(n)
  }

  /** The entries of a mapping occupy the events starting at position `p`. */
  ghost predicate EntriesAt(events: seq<Event>, p: nat, entries: seq<Entry>) {
    p + |FlattenEntries(entries)| <= |events| && events[p..p + |FlattenEntries(entries)|] == FlattenEntries(entries)
  }

  /** How an event changes the nesting depth. */
  function Delta(e: Event): int {
    if e.kind == MappingStart || e.kind == SequenceStart then 1
    else if e.kind == MappingEnd || e.kind == SequenceEnd then -1
    else 0
  }

  /** The nesting depth reached after a run of events. */
  function Depth(s: seq<Event>): int
    decreases |s|
  {
    if s == [] then 0 else Depth(s[..|s| - 1]) + Delta(s[|s| - 1])
  }

  /** Balanced: the run ends at depth zero and never goes below it. */
  ghost predicate Balanced(s: seq<Event>) {
    Depth(s) == 0 && forall k :: 0 <= k <= |s| ==> Depth(s[..k]) >= 0
  }

  lemma {:induction false} DepthAppend(a: seq<Event>, b: seq<Event>)
    ensures Depth(a + b) == Depth(a) + Depth(b)
    decreases |b|
  {
    if b == [] {
      assert a + b == a;
    } else {
      var b' := b[..|b| - 1];
      assert (a + b)[..|a + b| - 1] == a + b';
      DepthAppend(a, b');
    }
  }

  lemma {:induction false} ConcatBalanced(a: seq<Event>, b: seq<Event>)
    requires Balanced(a) && Balanced(b)
    ensures Balanced(a + b)
  {
    DepthAppend(a, b);
    forall k | 0 <= k <= |a + b|
      ensures Depth((a + b)[..k]) >= 0
    {
      if k <= |a| {
        assert (a + b)[..k] == a[..k];
      } else {
        assert (a + b)[..k] == a + b[..k - |a|];
        DepthAppend(a, b[..k - |a|]);
      }
    }
  }

  /** A start event, a balanced run and an end event: balanced, and every proper, non-empty prefix is strictly inside. */
  lemma {:induction false} WrappedShape(s: seq<Event>, inner: seq<Event>)
    requires |s| >= 2 && s == [s[0]] + inner + [s[|s| - 1]]
    requires Delta(s[0]) == 1 && Delta(s[|s| - 1]) == -1 && Balanced(inner)
    ensures Balanced(s)
    ensures forall k :: 0 < k < |s| ==> Depth(s[..k]) > 0
  {
    var open, close := s[0], s[|s| - 1];
    DepthAppend([open] + inner, [close]);
    DepthAppend([open], inner);
    assert Depth([open]) == 1 by { assert [open][..0] == []; }
    assert Depth([close]) == -1 by { assert [close][..0] == []; }
    assert s[..0] == [] && s[..|s|] == s;
    forall k | 0 < k < |s|
      ensures Depth(s[..k]) > 0
    {
      assert s[..k] == [open] + inner[..k - 1];
      DepthAppend([open], inner[..k - 1]);
    }
  }

  /**
    The events of a node are balanced; a scalar or alias is one event, and the events of a
    sequence or mapping stay strictly above the starting depth until its end event.
   */
  lemma {:induction false} NodeShape(n: Node)
    ensures Balanced(Flatten(n))
    ensures !IsContainer(n) ==> |Flatten(n)| == 1 && Delta(Flatten(n)[0]) == 0
    ensures IsContainer(n) ==> |Flatten(n)| >= 2 && forall k :: 0 < k < |Flatten(n)| ==> Depth(Flatten(n)[..k]) > 0
    decreases n, 1
  {
    var f := Flatten(n);
    match n.body
    case ScalarBody(_) =>
      assert f[..0] == [] && f[..1] == f;
    case AliasBody(_) =>
      assert f[..0] == [] && f[..1] == f;
    case SequenceBody(items) =>
      ItemsShape(items);
      WrappedShape(f, FlattenItems(items));
    case MappingBody(entries) =>
      EntriesShape(entries);
      WrappedShape(f, FlattenEntries(entries));
  }

  lemma {:induction false} ItemsShape(items: seq<Node>)
    ensures Balanced(FlattenItems(items))
    decreases items, 0
  {
    if items == [] {
      assert FlattenItems(items)[..0] == [];
    } else {
      NodeShape(items[0]);
      ItemsShape(items[1..]);
      ConcatBalanced(Flatten(items[0]), FlattenItems(items[1..]));
    }
  }

  lemma {:induction false} EntriesShape(entries: seq<Entry>)
    ensures Balanced(FlattenEntries(entries))
    decreases entries, 0
  {
    if entries == [] {
      assert FlattenEntries(entries)[..0] == [];
    } else {
      EntryShape(entries[0]);
      EntriesShape(entries[1..]);
      ConcatBalanced(FlattenEntry(entries[0]), FlattenEntries(entries[1..]));
    }
  }

  lemma {:induction false} EntryShape(e: Entry)
    ensures Balanced(FlattenEntry(e))
    decreases e, 2
  {
    NodeShape(e.key);
    NodeShape(e.value);
    ConcatBalanced(Flatten(e.key), Flatten(e.value));
  }

  /**
    Where a depth-counting scan that starts at position `k`, already `depth` levels deep,
    stops: just after the event that brings the depth back to zero, or at the end of the
    stream if that never happens.
   */
  function ScanClose(events: seq<Event>, k: nat, depth: nat): (r: nat)
    ensures k <= r
    ensures r <= |events| || r == k
    decreases |events| - k
  {
    if k >= |events| then k
    else
      var d := depth + Delta(events[k]);
      if d <= 0 then k + 1 else ScanClose(events, k + 1, d)
  }

  /**
    `SkipCurrentNode()` at position `c`: a scalar or alias is one event; a sequence or mapping
    runs to its matching end event; anything else is not the start of a node.
   */
  function SkipSpec(events: seq<Event>, c: nat): (r: Result<nat, Exception>)
    ensures r.Success? ==> c < r.value <= |events|
  {
    if c >= |events| then Failure(InvalidOperation)
    else
      var kind := events[c].kind;
      if kind == Scalar || kind == Alias then Success(c + 1)
      else if kind == MappingStart || kind == SequenceStart then Success(ScanClose(events, c + 1, 1))
      else Failure(InvalidOperation)
  }

  lemma {:induction false} NodeAtIndex(events: seq<Event>, p: nat, n: Node, j: nat)
    requires NodeAt(events, p, n) && j < |Flatten(n)|
    ensures events[p + j] == Flatten(n)[j]
  {
    assert events[p..p + |Flatten(n)|][j] == events[p + j];
  }

  lemma {:induction false} ScanCloseInside(events: seq<Event>, p: nat, n: Node, j: nat)
    requires NodeAt(events, p, n) && IsContainer(n)
    requires 0 < j < |Flatten(n)|
    ensures Depth(Flatten(n)[..j]) > 0
    ensures ScanClose(events, p + j, Depth(Flatten(n)[..j])) == p + |Flatten(n)|
    decreases |Flatten(n)| - j
  {
    var f := Flatten(n);
    NodeShape(n);
    NodeAtIndex(events, p, n, j);
    assert f[..j + 1][..j] == f[..j];
    assert Depth(f[..j + 1]) == Depth(f[..j]) + Delta(f[j]);
    if j + 1 == |f| {
      assert f[..j + 1] == f;
    } else {
      ScanCloseInside(events, p, n, j + 1);
    }
  }

  /** Skipping at the start of a node moves exactly past that node's events. */
  lemma {:induction false} SkipOverNode(events: seq<Event>, p: nat, n: Node)
    requires NodeAt(events, p, n)
    ensures SkipSpec(events, p) == Success(p + |Flatten(n)|)
  {
    NodeShape(n);
    NodeAtIndex(events, p, n, 0);
    if IsContainer(n) {
      assert Flatten(n)[..1] == [Flatten(n)[0]];
      assert Depth(Flatten(n)[..1]) == Delta(Flatten(n)[0]) by {
        assert Flatten(n)[..1][..0] == [];
      }
      ScanCloseInside(events, p, n, 1);
    }
  }

  /** A slice of a slice, as the layout lemmas below need it. */
  lemma {:induction false} SubSlice(events: seq<Event>, p: nat, s: seq<Event>, off: nat, len: nat)
    requires p + |s| <= |events| && events[p..p + |s|] == s
    requires off + len <= |s|
    ensures events[p + off..p + off + len] == s[off..off + len]
  {
    var outer, a, b := events[p..p + |s|], events[p + off..p + off + len], s[off..off + len];
    forall i | 0 <= i < len
      ensures a[i] == b[i]
    {
      assert outer[off + i] == events[p + off + i];
    }
    assert a == b;
  }

  /**
    The first entry of a mapping body, and the entries after it: the key at `p`, the value at
    `valueAt`, the remaining entries at `next`.
   */
  lemma {:induction false} EntriesAtSplit(events: seq<Event>, p: nat, entries: seq<Entry>, valueAt: nat, next: nat)
    requires EntriesAt(events, p, entries) && entries != []
    requires valueAt == p + |Flatten(entries[0].key)| && next == p + |FlattenEntry(entries[0])|
    ensures NodeAt(events, p, entries[0].key) && NodeAt(events, valueAt, entries[0].value)
    ensures EntriesAt(events, next, entries[1..])
    ensures next + |FlattenEntries(entries[1..])| == p + |FlattenEntries(entries)|
  {
    var f, r := FlattenEntry(entries[0]), FlattenEntries(entries[1..]);
    var s := FlattenEntries(entries);
    assert s == f + r;
    SubSlice(events, p, s, 0, |f|);
    assert s[0..|f|] == f;
    SubSlice(events, p, s, |f|, |r|);
    assert s[|f|..|f| + |r|] == r;
    EntryAtSplit(events, p, entries[0], valueAt);
  }

  /** The key and the value of an entry laid out at `p`. */
  lemma {:induction false} EntryAtSplit(events: seq<Event>, p: nat, e: Entry, valueAt: nat)
    requires p + |FlattenEntry(e)| <= |events| && events[p..p + |FlattenEntry(e)|] == FlattenEntry(e)
    requires valueAt == p + |Flatten(e.key)|
    ensures NodeAt(events, p, e.key) && NodeAt(events, valueAt, e.value)
  {
    var k, v, f := Flatten(e.key), Flatten(e.value), FlattenEntry(e);
    assert f == k + v;
    PartAt(events, p, f, 0, k);
    PartAt(events, p, f, |k|, v);
  }

  /** A part `s[off..off + |part|]` of events laid out at `p` is laid out at `p + off`. */
  lemma {:induction false} PartAt(events: seq<Event>, p: nat, s: seq<Event>, off: nat, part: seq<Event>)
    requires p + |s| <= |events| && events[p..p + |s|] == s
    requires off + |part| <= |s| && s[off..off + |part|] == part
    ensures p + off + |part| <= |events| && events[p + off..p + off + |part|] == part
  {
    SubSlice(events, p, s, off, |part|);
  }

  /** A mapping node: its start event, its entries, then its end event. */
  lemma {:induction false} MappingLayout(events: seq<Event>, p: nat, n: Node)
    requires NodeAt(events, p, n) && n.body.MappingBody?
    ensures p + 1 + |FlattenEntries(n.body.entries)| < |events|
    ensures events[p].kind == MappingStart
    ensures EntriesAt(events, p + 1, n.body.entries)
    ensures events[p + 1 + |FlattenEntries(n.body.entries)|].kind == MappingEnd
    ensures |Flatten(n)| == |FlattenEntries(n.body.entries)| + 2
  {
    var f := Flatten(n);
    var es := FlattenEntries(n.body.entries);
    NodeAtIndex(events, p, n, 0);
    NodeAtIndex(events, p, n, |f| - 1);
    SubSlice(events, p, f, 1, |es|);
    assert f[1..1 + |es|] == es;
  }

  /** The first event of a node: scalar, alias, or a start event, and never an end event. */
  lemma {:induction false} NodeFirstEvent(events: seq<Event>, p: nat, n: Node)
    requires NodeAt(events, p, n)
    ensures p < |events| && events[p] == Flatten(n)[0]
    ensures events[p].kind == Scalar <==> n.body.ScalarBody?
    ensures events[p].kind == MappingStart <==> n.body.MappingBody?
    ensures events[p].kind != MappingEnd && events[p].kind != StreamEnd
  {
    NodeAtIndex(events, p, n, 0);
  }
}
