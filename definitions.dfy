/** `_get_definitions`: the labelled function and class definitions of one
    Python file. Reading and parsing are outside the model: a file arrives as
    unreadable, or as its decoded text together with what `ast.parse` made of
    it, and a parsed tree as the node sequence `ast.walk` visits. */
module Definitions {
  import opened Seqs
  import opened Text

  datatype DefKind = Function | AsyncFunction | Class

  /** One node of `ast.walk(tree)`: a `FunctionDef`, `AsyncFunctionDef` or
      `ClassDef` with its name, or any other node. */
  datatype Node = Def(kind: DefKind, name: string) | OtherNode

  datatype ParseOutcome = SyntaxError | Parsed(walk: seq<Node>)

  /** A source file: opening or reading it raised, or its text (undecodable
      bytes already dropped) and the outcome of parsing that text. */
  datatype SourceFile = Unreadable | Readable(content: string, parse: ParseOutcome)

  /** The entry a walked node contributes: functions (plain or async) are
      marked private exactly when their name starts with `_`; classes carry
      no visibility mark; other nodes contribute nothing. */
  function LabelOf(n: Node): (r: Option<string>)
    ensures r.Some? <==> n.Def?
    ensures r.Some? ==> EndsWith(r.value, n.name)
    ensures r.Some? ==> (StartsWith(r.value, "🔒 def ") <==> n.kind != Class && StartsWith(n.name, "_"))
    ensures r.Some? ==> (StartsWith(r.value, "⚡ def ") <==> n.kind != Class && !StartsWith(n.name, "_"))
    ensures r.Some? ==> (StartsWith(r.value, "📦 class ") <==> n.kind == Class)
    ensures r.Some? ==> |r.value| == |n.name| + if n.kind == Class then 8 else 6
  {
    match n
    case OtherNode => None
    case Def(kind, name) =>
      if kind == Class then
        var r := "📦 class " + name;
        assert r[|r| - |name|..] == name;
        assert r[0] == '📦';
        Some(r)
      else
        var prefix := if StartsWith(name, "_") then "🔒 " else "⚡ ";
        var r := prefix + "def " + name;
        assert r[|r| - |name|..] == name;
        assert r[..|prefix| + 4] == prefix + "def ";
        assert r[0] == prefix[0] && prefix[0] != '📦';
        Some(r)
  }

  /** What `_get_definitions` returns for a file. */
  function ExtractDefinitions(src: SourceFile): seq<string> {
    match src
    case Unreadable => []
    case Readable(content, parse) =>
      if Strip(content) == [] then []
      else match parse
        case SyntaxError => []
        case Parsed(walk) => FilterMap(LabelOf, walk)
  }

  /** `_get_definitions`: an exception while reading or parsing, or a blank
      file, gives `[]`; otherwise one entry per definition node, in walk order. */
  method GetDefinitions(src: SourceFile) returns (definitions: seq<string>)
    ensures definitions == ExtractDefinitions(src)
  {
    definitions := [];
    if src.Unreadable? {
      return;
    }
    if Strip(src.content) == [] {
      return [];
    }
    if src.parse.SyntaxError? {
      return;
    }
    definitions := CollectDefinitions(src.parse.walk);
  }

  /** The `for node in ast.walk(tree)` loop of `_get_definitions`. */
  method CollectDefinitions(walk: seq<Node>) returns (definitions: seq<string>)
    ensures definitions == FilterMap(LabelOf, walk)
  {
    definitions := [];
    var i := 0;
    while i < |walk|
      invariant 0 <= i <= |walk|
      invariant definitions == FilterMap(LabelOf, walk[..i])
    {
      definitions := AppendLabel(definitions, walk[i]);
      TakeOneMore(walk, i);
      FilterMapAppend(LabelOf, walk[..i], [walk[i]]);
      i := i + 1;
    }
    TakeAll(walk);
  }

  /** One iteration of that loop: a function or async function appends its
      marked `def` entry, a class its `class` entry, any other node nothing. */
  method AppendLabel(done: seq<string>, node: Node) returns (definitions: seq<string>)
    ensures definitions == done + FilterMap(LabelOf, [node])
  {
    definitions := done;
    if node.Def? && (node.kind == Function || node.kind == AsyncFunction) {
      var prefix := if StartsWith(node.name, "_") then "🔒 " else "⚡ ";
      definitions := definitions + [prefix + "def " + node.name];
      assert LabelOf(node) == Some(prefix + "def " + node.name);
    } else if node.Def? && node.kind == Class {
      definitions := definitions + ["📦 class " + node.name];
      assert LabelOf(node) == Some("📦 class " + node.name);
    }
    FilterMapSingle(LabelOf, node);
  }

  /** The result is empty exactly when the file cannot be read, is blank, does
      not parse, or defines nothing. */
  lemma NoDefinitionsExactly(src: SourceFile)
    ensures ExtractDefinitions(src) == [] <==>
              || src.Unreadable?
              || AllSpace(src.content)
              || src.parse.SyntaxError?
              || forall i :: 0 <= i < |src.parse.walk| ==> src.parse.walk[i].OtherNode?
  {
    if src.Readable? && src.parse.Parsed? {
      FilterMapEmpty(LabelOf, src.parse.walk);
    }
  }

  /** Each entry of a parsed, non-blank file is the label of some walked
      definition, and every walked definition's label is an entry. */
  lemma DefinitionsComeFromNodes(content: string, walk: seq<Node>, entry: string)
    requires !AllSpace(content)
    ensures entry in ExtractDefinitions(Readable(content, Parsed(walk))) <==>
              exists i :: 0 <= i < |walk| && walk[i].Def? && LabelOf(walk[i]) == Some(entry)
  {
    FilterMapMembership(LabelOf, walk, entry);
  }

  /** The number of definition nodes in a walk. */
  function CountDefs(walk: seq<Node>): nat {
    if walk == [] then 0 else (if walk[0].Def? then 1 else 0) + CountDefs(walk[1..])
  }

  /** Exactly one entry per definition node. */
  lemma {:induction false} OneEntryPerDefinition(walk: seq<Node>)
    ensures |FilterMap(LabelOf, walk)| == CountDefs(walk)
  {
    if walk != [] {
      OneEntryPerDefinition(walk[1..]);
    }
  }

  /** The three marks, on concrete names. */
  lemma LabelExamples()
    ensures LabelOf(Def(Class, "Runner")) == Some("📦 class Runner")
    ensures LabelOf(Def(Function, "run")) == Some("⚡ def run")
    ensures LabelOf(Def(AsyncFunction, "_helper")) == Some("🔒 def _helper")
  {
    ClassLabelExample();
    PublicLabelExample();
    PrivateLabelExample();
  }

  lemma ClassLabelExample()
    ensures LabelOf(Def(Class, "Runner")) == Some("📦 class Runner")
  {
    assert "📦 class " + "Runner" == "📦 class Runner";
  }

  lemma PublicLabelExample()
    ensures LabelOf(Def(Function, "run")) == Some("⚡ def run")
  {
    assert "run"[0] != '_';
    assert "⚡ " + "def " + "run" == "⚡ def run";
  }

  lemma PrivateLabelExample()
    ensures LabelOf(Def(AsyncFunction, "_helper")) == Some("🔒 def _helper")
  {
    assert "_helper"[..1] == "_";
    assert "🔒 " + "def " + "_helper" == "🔒 def _helper";
  }

  /** The walk of a module holding a class `Runner`, a function `run` and an
      async function `_helper`: three entries, each with its mark, in walk
      order, and nothing for the other nodes. */
  lemma ClassAndFunctionsExample()
    ensures ExtractDefinitions(Readable("class Runner: ...",
              Parsed([OtherNode, Def(Class, "Runner"), Def(Function, "run"), OtherNode, Def(AsyncFunction, "_helper")])))
            == ["📦 class Runner", "⚡ def run", "🔒 def _helper"]
  {
    var content := "class Runner: ...";
    assert !IsSpace(content[0]);
    LabelExamples();
    FilterMapSkipsNone(LabelOf, OtherNode, Def(Class, "Runner"), Def(Function, "run"), Def(AsyncFunction, "_helper"));
  }
}
