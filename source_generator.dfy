/**
  `VYamlSourceGenerator` (VYaml.SourceGenerator.Roslyn3/VYamlSourceGenerator.cs): for every
  type the syntax receiver collected, either report why no formatter can be generated or add
  one source file holding the generated formatter.

  Roslyn's symbols are replaced by what the generator reads from them (`TypeMeta`), and the
  generated text by the structure it encodes (`GeneratedSource`); the behaviour of the
  generated `Deserialize` method is modelled in module `GeneratedDeserializers`.
 */
module SourceGenerator {
  import opened Wrappers
  import opened Runtime

  /** A serialized member: its C# name, type, YAML key and the key's UTF-8 bytes. */
  datatype MemberMeta = MemberMeta(name: string, fullTypeName: string, memberType: Type, keyName: string, keyBytes: seq<byte>)

  /** What the generator reads from an analysed type. */
  datatype TypeMeta = TypeMeta(
    symbolName: string,
    typeName: string,
    fullTypeName: string,
    isPartial: bool,
    isNested: bool,
    isRecord: bool,
    isValueType: bool,
    containingNamespace: Option<string>,
    members: seq<MemberMeta>)

  datatype Diagnostic = MustBePartial(typeName: string) | NestedNotAllow(typeName: string)

  /** The content of a generated file: `partial <keyword> <TypeName>` holding `<TypeName>GeneratedFormatter`. */
  datatype GeneratedSource = GeneratedSource(
    containingNamespace: Option<string>,
    keyword: string,
    typeName: string,
    formatterName: string,
    returnType: string,
    members: seq<MemberMeta>)

  /** What the generator hands the compilation: a source file, or a diagnostic. */
  datatype Output = AddSource(hintName: string, source: GeneratedSource) | Report(diagnostic: Diagnostic)

  predicate StartsWith(s: string, prefix: string) {
    |prefix| <= |s| && s[..|prefix|] == prefix
  }

  predicate EndsWith(s: string, suffix: string) {
    |suffix| <= |s| && s[|s| - |suffix|..] == suffix
  }

  /** Modules of the Unity engine and editor are never processed. */
  predicate IsUnityModule(moduleName: string) {
    StartsWith(moduleName, "UnityEngine.") || StartsWith(moduleName, "UnityEditor.") || StartsWith(moduleName, "Unity.")
  }

  /** `String.Replace(pattern, replacement)`: every occurrence, scanning left to right without overlap. */
  function Replace(s: string, pattern: string, replacement: string): string
    requires |pattern| > 0
    decreases |s|
  {
    if |s| < |pattern| then s
    else if s[..|pattern|] == pattern then replacement + Replace(s[|pattern|..], pattern, replacement)
    else [s[0]] + Replace(s[1..], pattern, replacement)
  }

  /** A reference definition for single-character replacement: the string with every `from` turned into `to`. */
  function MapChar(s: string, from: char, to: char): (r: string)
    ensures |r| == |s|
    ensures forall i :: 0 <= i < |s| ==> r[i] == if s[i] == from then to else s[i]
  {
    seq(|s|, i requires 0 <= i < |s| => if s[i] == from then to else s[i])
  }

  /** Replacing one character by another is `MapChar`. */
  lemma {:induction false} ReplaceCharIsMapChar(s: string, from: char, to: char)
    ensures Replace(s, [from], [to]) == MapChar(s, from, to)
    decreases |s|
  {
    if |s| >= 1 {
      ReplaceCharIsMapChar(s[1..], from, to);
      assert s[..1] == [s[0]];
      assert MapChar(s, from, to) == [if s[0] == from then to else s[0]] + MapChar(s[1..], from, to);
    }
  }

  /** A string missing some character of the pattern is left as it is. */
  lemma {:induction false} ReplaceWithoutOccurrence(s: string, pattern: string, replacement: string, c: char)
    requires |pattern| > 0 && c in pattern && c !in s
    ensures Replace(s, pattern, replacement) == s
    decreases |s|
  {
    if |s| >= |pattern| {
      assert s[..|pattern|] != pattern by {
        var j :| 0 <= j < |pattern| && pattern[j] == c;
        assert s[..|pattern|][j] == s[j];
      }
      ReplaceWithoutOccurrence(s[1..], pattern, replacement, c);
      assert [s[0]] + s[1..] == s;
    }
  }

  /** The file-name stem: `FullTypeName` without `global::`, angle brackets turned into underscores. */
  function HintStem(fullTypeName: string): string {
    Replace(Replace(Replace(fullTypeName, "global::", ""), "<", "_"), ">", "_")
  }

  /** `$"{fullType}.YamlFormatter.g.cs"` */
  function HintName(fullTypeName: string): string {
    HintStem(fullTypeName) + ".YamlFormatter.g.cs"
  }

  /** The hint name holds no angle bracket, and keeps every character of the name that is not one. */
  lemma {:induction false} HintStemShape(fullTypeName: string)
    ensures '<' !in HintStem(fullTypeName) && '>' !in HintStem(fullTypeName)
    ensures var g := Replace(fullTypeName, "global::", "");
      HintStem(fullTypeName) == MapChar(MapChar(g, '<', '_'), '>', '_')
  {
    var g := Replace(fullTypeName, "global::", "");
    ReplaceCharIsMapChar(g, '<', '_');
    ReplaceCharIsMapChar(MapChar(g, '<', '_'), '>', '_');
    var r := HintStem(fullTypeName);
    assert forall i :: 0 <= i < |r| ==> r[i] != '<' && r[i] != '>';
  }

  /** A fully qualified name `global::N` where `N` has no colon: only its angle brackets change. */
  lemma {:induction false} HintStemOfGlobalName(n: string)
    requires ':' !in n
    ensures HintStem("global::" + n) == MapChar(MapChar(n, '<', '_'), '>', '_')
  {
    var s := "global::" + n;
    assert s[..|"global::"|] == "global::";
    assert s[|"global::"|..] == n;
    assert "global::"[6] == ':';
    ReplaceWithoutOccurrence(n, "global::", "", ':');
    assert Replace(s, "global::", "") == "" + n;
    HintStemShape(s);
  }

  /** Distinct types can get one file name: `A<B>` and `A_B_` both become `A_B_`. */
  lemma {:induction false} HintNamesCanCollide()
    ensures HintName("global::A<B>") == HintName("global::A_B_")
    ensures "global::A<B>" != "global::A_B_"
  {
    HintStemOfGlobalName("A<B>");
    HintStemOfGlobalName("A_B_");
    assert MapChar(MapChar("A<B>", '<', '_'), '>', '_') == "A_B_";
    assert MapChar(MapChar("A_B_", '<', '_'), '>', '_') == "A_B_";
    assert "global::A<B>"[9] == '<';
  }

  /** The declaration keyword of the `partial` declaration that hosts the formatter. */
  function Keyword(isRecord: bool, isValueType: bool): string {
    match (isRecord, isValueType)
    case (true, true) => "record struct"
    case (true, false) => "record"
    case (false, true) => "struct"
    case (false, false) => "class"
  }

  /** The keyword says both facts back: it starts with `record` exactly for records, ends with `struct` exactly for value types. */
  lemma {:induction false} KeywordCharacterisation(isRecord: bool, isValueType: bool)
    ensures StartsWith(Keyword(isRecord, isValueType), "record") <==> isRecord
    ensures EndsWith(Keyword(isRecord, isValueType), "struct") <==> isValueType
  {
    var k := Keyword(isRecord, isValueType);
    if isRecord && isValueType {
      assert k[..6] == "record" && k[|k| - 6..] == "struct";
    } else if isRecord {
      assert k[..6] == "record" && k[|k| - 6..] == "record" != "struct";
    } else if isValueType {
      assert k[..6] == "struct" != "record" && k[|k| - 6..] == "struct";
    } else {
      assert k == "class" && |k| < 6;
    }
  }

  /** Different kinds of type never share a keyword. */
  lemma {:induction false} KeywordInjective(r1: bool, v1: bool, r2: bool, v2: bool)
    requires Keyword(r1, v1) == Keyword(r2, v2)
    ensures r1 == r2 && v1 == v2
  {
    KeywordCharacterisation(r1, v1);
    KeywordCharacterisation(r2, v2);
  }

  /** The formatter's type argument: the type itself for value types, its nullable form otherwise. */
  function ReturnType(meta: TypeMeta): (r: string)
    ensures meta.isValueType ==> r == meta.fullTypeName
    ensures !meta.isValueType ==> r == meta.fullTypeName + "?"
  {
    if meta.isValueType then meta.fullTypeName else meta.fullTypeName + "?"
  }

  /**
    `Emit`: a type that is not `partial` is reported as such (checked first), a nested type
    is reported as not allowed, and any other type gets its formatter file.
   */
  function Emit(meta: TypeMeta): (o: Output)
    ensures o.Report? <==> !meta.isPartial || meta.isNested
    ensures !meta.isPartial ==> o == Report(MustBePartial(meta.symbolName))
    ensures meta.isPartial && meta.isNested ==> o == Report(NestedNotAllow(meta.symbolName))
    ensures o.AddSource? ==>
      o.hintName == HintName(meta.fullTypeName) &&
      o.source.keyword == Keyword(meta.isRecord, meta.isValueType) &&
      o.source.typeName == meta.typeName &&
      o.source.formatterName == meta.typeName + "GeneratedFormatter" &&
      o.source.returnType == ReturnType(meta) &&
      o.source.containingNamespace == meta.containingNamespace &&
      o.source.members == meta.members
  {
    if !meta.isPartial then Report(MustBePartial(meta.symbolName))
    else if meta.isNested then Report(NestedNotAllow(meta.symbolName))
    else
      AddSource(
        HintName(meta.fullTypeName),
        GeneratedSource(
          meta.containingNamespace,
          Keyword(meta.isRecord, meta.isValueType),
          meta.typeName,
          meta.typeName + "GeneratedFormatter",
          ReturnType(meta),
          meta.members))
  }

  /** What the loop emits for a run of work items; items whose analysis gave `null` are skipped. */
  function Emitted(items: seq<Option<TypeMeta>>): seq<Output>
    decreases |items|
  {
    if items == [] then []
    else
      var last := items[|items| - 1];
      Emitted(items[..|items| - 1]) + (if last.Some? then [Emit(last.value)] else [])
  }

  /** `Execute`: nothing for Unity modules, without reference symbols or without a receiver. */
  function ExecuteSpec(moduleName: string, hasReferences: bool, workItems: Option<seq<Option<TypeMeta>>>): seq<Output> {
    if IsUnityModule(moduleName) || !hasReferences || workItems.None? then []
    else Emitted(workItems.value)
  }

  /** Every output answers one analysed type, in order: one output per analysed item. */
  lemma {:induction false} EmittedOnePerType(items: seq<Option<TypeMeta>>)
    ensures |Emitted(items)| == |set i | 0 <= i < |items| && items[i].Some?|
    ensures forall o :: o in Emitted(items) ==> exists m :: Some(m) in items && o == Emit(m)
    decreases |items|
  {
    if items != [] {
      var front := items[..|items| - 1];
      EmittedOnePerType(front);
      var s := set i | 0 <= i < |items| && items[i].Some?;
      var s' := set i | 0 <= i < |front| && front[i].Some?;
      if items[|items| - 1].Some? {
        assert s == s' + {|items| - 1};
      } else {
        assert s == s';
      }
      forall o | o in Emitted(items)
        ensures exists m :: Some(m) in items && o == Emit(m)
      {
        if o in Emitted(front) {
          var m :| Some(m) in front && o == Emit(m);
          assert Some(m) in items;
        } else {
          assert Some(items[|items| - 1].value) in items;
        }
      }
    }
  }

  /** Every added file belongs to a `partial`, non-nested type and is named after it. */
  lemma {:induction false} SourcesComeFromPartialTopLevelTypes(items: seq<Option<TypeMeta>>, o: Output)
    requires o in Emitted(items) && o.AddSource?
    ensures exists m :: Some(m) in items && m.isPartial && !m.isNested && o.hintName == HintName(m.fullTypeName)
  {
    EmittedOnePerType(items);
  }

  /** The engine's own modules are skipped whatever they contain. */
  lemma {:induction false} UnityModulesAreSkipped(hasReferences: bool, workItems: Option<seq<Option<TypeMeta>>>)
    ensures ExecuteSpec("UnityEngine.CoreModule", hasReferences, workItems) == []
    ensures ExecuteSpec("Unity.Mathematics", hasReferences, workItems) == []
    ensures !IsUnityModule("UnityFoo") && !IsUnityModule("Unity")
  {
    assert "UnityEngine.CoreModule"[..|"UnityEngine."|] == "UnityEngine.";
    assert "Unity.Mathematics"[..|"UnityEngine."|][5] != "UnityEngine."[5];
    assert "Unity.Mathematics"[..|"Unity."|] == "Unity.";
    assert "UnityFoo"[..|"Unity."|][5] != '.';
  }

  /** The compilation the generator reports into. */
  class GeneratorContext {
    var outputs: seq<Output>

    constructor ()
      ensures outputs == []
    {
      outputs := [];
    }

    /** `AddSource` or `ReportDiagnostic` */
    method Record(o: Output)
      modifies this
      ensures outputs == old(outputs) + [o]
    {
      outputs := outputs + [o];
    }
  }

  /**
    `Execute(context)`: `moduleName` is the compilation's module, `hasReferences` whether
    `ReferenceSymbols.Create` succeeded, and `workItems` the receiver's work items after
    `Analyze` (`None` when there is no receiver).
   */
  method Execute(context: GeneratorContext, moduleName: string, hasReferences: bool, workItems: Option<seq<Option<TypeMeta>>>)
    modifies context
    ensures context.outputs == old(context.outputs) + ExecuteSpec(moduleName, hasReferences, workItems)
  {
    if StartsWith(moduleName, "UnityEngine.") { return; }
    if StartsWith(moduleName, "UnityEditor.") { return; }
    if StartsWith(moduleName, "Unity.") { return; }
    if !hasReferences { return; }
    if workItems.None? { return; }
    var items := workItems.value;
    var i := 0;
    while i < |items|
      invariant 0 <= i <= |items|
      invariant context.outputs == old(context.outputs) + Emitted(items[..i])
    {
      assert items[..i + 1][..i] == items[..i];
      var typeMeta := items[i];
      if typeMeta.Some? {
        context.Record(Emit(typeMeta.value));
      }
      i := i + 1;
    }
    assert items[..|items|] == items;
  }
}
