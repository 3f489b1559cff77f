/**
  The chunker of `ingestion/chunker.py`: a depth-first walk of a file's
  syntax tree that emits one chunk per function (a "method" inside a class
  body) and one per class, and the repository pass that chunks every Python
  file not under a skipped directory.

  Each operation that fills the shared `chunks` list of the source takes the
  list built so far and returns it extended; its contract ties the result to
  a specification function (`Chunks`, `FileChunks`, `RepoChunks`) about which
  the lemmas below are proved.
 */
module Chunker {
  import opened Wrappers
  import opened Text
  import opened SyntaxTree
  import opened ChunkModel
  import opened NodeSearch
  import opened CallRefs
  import opened ClassHeader

  // ---------------------------------------------------------------------
  // The chunk of one definition.

  /** The chunk `_extract_function` builds for a `function_definition`. */
  function FunctionChunk(n: Node, content: string, path: string, parentClass: Option<string>): CodeChunk {
    CodeChunk(
      Slice(content, n.startByte, n.endByte),
      if Truthy(parentClass) then Method else Function,
      path,
      n.startRow + 1,
      n.endRow + 1,
      NodeName(n),
      parentClass,
      ExtractDocstring(n),
      CallList(n))
  }

  /** The chunk `_extract_class` builds for a `class_definition`. */
  function ClassChunk(n: Node, content: string, path: string): CodeChunk {
    CodeChunk(
      ClassHeaderText(Slice(content, n.startByte, n.endByte)),
      Class,
      path,
      n.startRow + 1,
      n.endRow + 1,
      NodeName(n),
      None,
      ExtractDocstring(n),
      [])
  }

  /** `_extract_function`. */
  method ExtractFunction(node: Node, content: string, path: string, parentClass: Option<string>)
    returns (chunk: CodeChunk)
    ensures chunk == FunctionChunk(node, content, path, parentClass)
  {
    var name := NodeName(node);
    var funcContent := Slice(content, node.startByte, node.endByte);
    var chunkType := if Truthy(parentClass) then Method else Function;
    var docstring := ExtractDocstring(node);
    var calls := ExtractCalls(node);
    chunk := CodeChunk(
      funcContent, chunkType, path, node.startRow + 1, node.endRow + 1,
      name, parentClass, docstring, calls);
    SameChunk(chunk, FunctionChunk(node, content, path, parentClass));
  }

  /** `_extract_class`: the header scan runs line by line over the class
      text, keeping lines until a `def ` line outside any docstring. */
  method ExtractClass(node: Node, content: string, path: string) returns (chunk: CodeChunk)
    ensures chunk == ClassChunk(node, content, path)
  {
    var name := NodeName(node);
    var classContent := Slice(content, node.startByte, node.endByte);
    var lines := SplitLines(classContent);
    var headerLines: seq<string> := [];
    var inDocstring := false;
    var docstringChar := "";
    for i := 0 to |lines|
      invariant HeaderLines(lines, false, "") ==
        headerLines + HeaderLines(lines[i..], inDocstring, docstringChar)
    {
      var line := lines[i];
      var stripped := Strip(line);
      ghost var next := Step(inDocstring, docstringChar, line);
      HeaderLinesFrom(lines, i, inDocstring, docstringChar);
      AppendAssoc(headerLines, [line], HeaderLines(lines[i + 1..], next.0, next.1));
      if !inDocstring && (StartsWith(stripped, TripleDouble) || StartsWith(stripped, TripleSingle)) {
        OpeningIsNotDef(stripped);
        docstringChar := stripped[..3];
        inDocstring := true;
        headerLines := headerLines + [line];
        if Count(stripped, docstringChar) >= 2 {
          inDocstring := false;
        }
        assert (inDocstring, docstringChar) == next;
        continue;
      }
      if inDocstring {
        headerLines := headerLines + [line];
        if Contains(stripped, docstringChar) {
          inDocstring := false;
        }
        assert (inDocstring, docstringChar) == next;
        continue;
      }
      if StartsWith(stripped, DefPrefix) {
        assert HeaderLines(lines, false, "") == headerLines;
        break;
      }
      assert (inDocstring, docstringChar) == next;
      headerLines := headerLines + [line];
    }
    assert lines[|lines|..] == [];
    assert HeaderLines(lines, false, "") == headerLines;
    var header := JoinWith(headerLines, "\n");
    assert header == ClassHeaderText(classContent);
    var docstring := ExtractDocstring(node);
    chunk := CodeChunk(
      header, Class, path, node.startRow + 1, node.endRow + 1,
      name, None, docstring, []);
    SameChunk(chunk, ClassChunk(node, content, path));
  }

  // ---------------------------------------------------------------------
  // The walk.

  /** The chunks `_walk_node` appends for the subtree of `n`, where
      `parentClass` is the class whose body the walk is in. A function is
      chunked and the walk goes on into it (so nested functions are chunked
      too, with the same parent class); a class is chunked and the walk goes
      on only into the statements of its `block` children, with the class's
      name as parent class; any other node is walked through. */
  function Chunks(n: Node, content: string, path: string, parentClass: Option<string>): seq<CodeChunk>
    decreases n, |n.children| + 1
  {
    if n.kind == FunctionDefinition then
      [FunctionChunk(n, content, path, parentClass)] +
      ChildChunks(n, |n.children|, content, path, parentClass)
    else if n.kind == ClassDefinition then
      [ClassChunk(n, content, path)] + BodyChunks(n, |n.children|, content, path, NodeName(n))
    else
      ChildChunks(n, |n.children|, content, path, parentClass)
  }

  /** The chunks of the subtrees of the first `i` children of `n`. */
  function ChildChunks(n: Node, i: nat, content: string, path: string, parentClass: Option<string>): seq<CodeChunk>
    requires i <= |n.children|
    decreases n, i
  {
    if i == 0 then []
    else ChildChunks(n, i - 1, content, path, parentClass) + Chunks(n.children[i - 1], content, path, parentClass)
  }

  /** The chunks of the statements of the `block`s among the first `i`
      children of the class `n`. */
  function BodyChunks(n: Node, i: nat, content: string, path: string, className: string): seq<CodeChunk>
    requires i <= |n.children|
    decreases n, i
  {
    if i == 0 then []
    else
      var child := n.children[i - 1];
      BodyChunks(n, i - 1, content, path, className) +
      (if child.kind == Block then ChildChunks(child, |child.children|, content, path, Some(className)) else [])
  }

  /** `_walk_node`: appends the chunks of the subtree of `node` to `chunks`. */
  method WalkNode(node: Node, content: string, path: string, chunks: seq<CodeChunk>, parentClass: Option<string>)
    returns (out: seq<CodeChunk>)
    ensures out == chunks + Chunks(node, content, path, parentClass)
    decreases node, 3
  {
    out := chunks;
    if node.kind == FunctionDefinition {
      var chunk := ExtractFunction(node, content, path, parentClass);
      out := out + [chunk];
    } else if node.kind == ClassDefinition {
      var className := NodeName(node);
      var chunk := ExtractClass(node, content, path);
      out := out + [chunk];
      out := WalkClassBody(node, content, path, out, className);
      return;
    }
    out := WalkChildren(node, content, path, out, parentClass);
  }

  /** The loop of `_walk_node` over the children of `node`, each walked with
      the same parent class. */
  method WalkChildren(node: Node, content: string, path: string, chunks: seq<CodeChunk>, parentClass: Option<string>)
    returns (out: seq<CodeChunk>)
    ensures out == chunks + ChildChunks(node, |node.children|, content, path, parentClass)
    decreases node, 1
  {
    out := chunks;
    for i := 0 to |node.children|
      invariant out == chunks + ChildChunks(node, i, content, path, parentClass)
    {
      out := WalkChild(node, i, content, path, chunks, out, parentClass);
    }
  }

  /** One iteration of that loop: walks child `i`. */
  method WalkChild(node: Node, i: nat, content: string, path: string, chunks: seq<CodeChunk>, done: seq<CodeChunk>,
    parentClass: Option<string>) returns (out: seq<CodeChunk>)
    requires i < |node.children| && done == chunks + ChildChunks(node, i, content, path, parentClass)
    ensures out == chunks + ChildChunks(node, i + 1, content, path, parentClass)
    decreases node, 0
  {
    ChildChunksStep(node, i, content, path, chunks, parentClass);
    out := WalkNode(node.children[i], content, path, done, parentClass);
  }

  /** One more child walked appends that child's chunks. */
  lemma {:induction false} ChildChunksStep(node: Node, i: nat, content: string, path: string, chunks: seq<CodeChunk>, parentClass: Option<string>)
    requires i < |node.children|
    ensures chunks + ChildChunks(node, i + 1, content, path, parentClass) ==
      (chunks + ChildChunks(node, i, content, path, parentClass)) + Chunks(node.children[i], content, path, parentClass)
  {
    AppendAssoc(chunks, ChildChunks(node, i, content, path, parentClass), Chunks(node.children[i], content, path, parentClass));
  }

  /** The loop of `_walk_node` over a class's children: the statements of each
      `block` are walked with the class's name as parent class. */
  method WalkClassBody(node: Node, content: string, path: string, chunks: seq<CodeChunk>, className: string)
    returns (out: seq<CodeChunk>)
    ensures out == chunks + BodyChunks(node, |node.children|, content, path, className)
    decreases node, 2
  {
    out := chunks;
    for i := 0 to |node.children|
      invariant out == chunks + BodyChunks(node, i, content, path, className)
    {
      var child := node.children[i];
      if child.kind == Block {
        AppendAssoc(chunks, BodyChunks(node, i, content, path, className),
          ChildChunks(child, |child.children|, content, path, Some(className)));
        out := WalkChildren(child, content, path, out, Some(className));
      } else {
        assert BodyChunks(node, i + 1, content, path, className) ==
          BodyChunks(node, i, content, path, className) + [];
      }
    }
  }

  // ---------------------------------------------------------------------
  // What every chunk satisfies.

  /** What the parser guarantees of every node of a tree: its last row is
      not before its first. */
  ghost predicate RowsOrdered(n: Node) {
    forall m :: m in Preorder(n) ==> m.startRow <= m.endRow
  }

  /** The invariants of a chunk of the file `content` at `path`: it names the
      file, its text is a stretch of the file, its lines are 1-based and in
      order, its call list is duplicate-free and short, its docstring is
      short; a class chunk has neither parent class nor calls, and a chunk is
      a method exactly when its parent class is a non-empty name. */
  ghost predicate WellFormed(c: CodeChunk, content: string, path: string) {
    c.filePath == path &&
    IsInfix(c.content, content) &&
    1 <= c.startLine <= c.endLine &&
    NoDuplicates(c.calls) && |c.calls| <= MaxCalls &&
    (c.docstring.Some? ==> |c.docstring.value| <= DocstringLimit) &&
    (c.chunkType == Class ==> c.parentClass.None? && c.calls == []) &&
    (c.chunkType == Method <==> Truthy(c.parentClass))
  }

  lemma {:induction false} FunctionChunkWellFormed(n: Node, content: string, path: string, parentClass: Option<string>)
    requires n.startRow <= n.endRow
    ensures WellFormed(FunctionChunk(n, content, path, parentClass), content, path)
    ensures FunctionChunk(n, content, path, parentClass).chunkType != Class
  {
    SliceIsInfix(content, n.startByte, n.endByte);
  }

  lemma {:induction false} ClassChunkWellFormed(n: Node, content: string, path: string)
    requires n.startRow <= n.endRow
    ensures WellFormed(ClassChunk(n, content, path), content, path)
  {
    var text := Slice(content, n.startByte, n.endByte);
    ClassHeaderCutsAtFirstDef(text);
    PrefixIsInfix(ClassHeaderText(text), text);
    SliceIsInfix(content, n.startByte, n.endByte);
    InfixTransitive(ClassHeaderText(text), text, content);
  }

  /** `c` is the chunk the walk makes for the definition `m`. */
  predicate ChunkOf(c: CodeChunk, m: Node, content: string, path: string) {
    (m.kind == FunctionDefinition && c == FunctionChunk(m, content, path, c.parentClass)) ||
    (m.kind == ClassDefinition && c == ClassChunk(m, content, path))
  }

  /** A node of a child's subtree is a node of the subtree. */
  lemma {:induction false} ChildPreorderHas(n: Node, i: nat, k: nat, m: Node)
    requires k < i <= |n.children|
    requires m in Preorder(n.children[k])
    ensures m in ChildPreorder(n, i)
    decreases i
  {
    if k < i - 1 {
      ChildPreorderHas(n, i - 1, k, m);
    }
  }

  /** `c` is the chunk of one of the nodes `ns`. */
  ghost predicate ChunkFrom(c: CodeChunk, ns: seq<Node>, content: string, path: string) {
    exists m :: m in ns && ChunkOf(c, m, content, path)
  }

  /** `c` is the chunk of a definition strictly inside `n`. */
  ghost predicate NestedChunk(c: CodeChunk, n: Node, content: string, path: string) {
    ChunkFrom(c, ChildPreorder(n, |n.children|), content, path)
  }

  lemma {:induction false} ChunkFromAppend(c: CodeChunk, a: seq<Node>, b: seq<Node>, content: string, path: string)
    requires ChunkFrom(c, a, content, path) || ChunkFrom(c, b, content, path)
    ensures ChunkFrom(c, a + b, content, path)
  {
    var m :| (m in a || m in b) && ChunkOf(c, m, content, path);
    assert m in a + b;
  }

  /** A chunk from a child's subtree comes from the node's strict subtree. */
  lemma {:induction false} ChunkFromChild(c: CodeChunk, n: Node, k: nat, content: string, path: string)
    requires k < |n.children|
    requires ChunkFrom(c, Preorder(n.children[k]), content, path)
    ensures NestedChunk(c, n, content, path)
  {
    var m :| m in Preorder(n.children[k]) && ChunkOf(c, m, content, path);
    ChildPreorderHas(n, |n.children|, k, m);
  }

  /** A chunk from strictly inside a child comes from strictly inside the node. */
  lemma {:induction false} ChunkFromGrandchild(c: CodeChunk, n: Node, k: nat, content: string, path: string)
    requires k < |n.children|
    requires NestedChunk(c, n.children[k], content, path)
    ensures NestedChunk(c, n, content, path)
  {
    var child := n.children[k];
    ChunkFromAppend(c, [child], ChildPreorder(child, |child.children|), content, path);
    ChunkFromChild(c, n, k, content, path);
  }

  /** A chunk from strictly inside `n` comes from the subtree of `n`. */
  lemma {:induction false} NestedChunkInSubtree(c: CodeChunk, n: Node, content: string, path: string)
    requires NestedChunk(c, n, content, path)
    ensures exists m :: m in Preorder(n) && ChunkOf(c, m, content, path)
  {
    ChunkFromAppend(c, [n], ChildPreorder(n, |n.children|), content, path);
  }

  /** Every chunk of the walk over `n` is the chunk of a definition node of the
      subtree of `n`. */
  lemma {:induction false} ChunksComeFromDefinitions(n: Node, content: string, path: string, parentClass: Option<string>)
    ensures forall c :: c in Chunks(n, content, path, parentClass) ==>
      exists m :: m in Preorder(n) && ChunkOf(c, m, content, path)
    decreases n, |n.children| + 1
  {
    var all := |n.children|;
    var cs := Chunks(n, content, path, parentClass);
    var rest := if n.kind == ClassDefinition then BodyChunks(n, all, content, path, NodeName(n))
      else ChildChunks(n, all, content, path, parentClass);
    if n.kind == ClassDefinition {
      BodyChunksComeFromDefinitions(n, all, content, path, NodeName(n));
    } else {
      ChildChunksComeFromDefinitions(n, all, content, path, parentClass);
    }
    assert cs == rest || (|cs| >= 1 && ChunkOf(cs[0], n, content, path) && cs == [cs[0]] + rest);
    forall c | c in cs ensures exists m :: m in Preorder(n) && ChunkOf(c, m, content, path) {
      if c in rest {
        NestedChunkInSubtree(c, n, content, path);
      } else {
        assert ChunkOf(c, n, content, path);
      }
    }
  }

  /** Pre-order: a definition's own chunk comes first, and every chunk after
      it belongs to a definition nested strictly inside it. */
  lemma {:induction false} DefinitionChunkComesFirst(n: Node, content: string, path: string, parentClass: Option<string>)
    requires n.kind == FunctionDefinition || n.kind == ClassDefinition
    ensures |Chunks(n, content, path, parentClass)| >= 1
    ensures ChunkOf(Chunks(n, content, path, parentClass)[0], n, content, path)
    ensures forall k :: 1 <= k < |Chunks(n, content, path, parentClass)| ==>
      NestedChunk(Chunks(n, content, path, parentClass)[k], n, content, path)
  {
    var all := |n.children|;
    var cs := Chunks(n, content, path, parentClass);
    var own := OwnChunk(n, content, path, parentClass);
    var rest := if n.kind == ClassDefinition then BodyChunks(n, all, content, path, NodeName(n))
      else ChildChunks(n, all, content, path, parentClass);
    if n.kind == ClassDefinition {
      BodyChunksComeFromDefinitions(n, all, content, path, NodeName(n));
    } else {
      ChildChunksComeFromDefinitions(n, all, content, path, parentClass);
    }
    assert cs == [own] + rest;
    forall k | 1 <= k < |cs| ensures NestedChunk(cs[k], n, content, path) {
      ConsIndex(cs, own, rest, k);
    }
  }

  /** The chunk a definition makes of itself. */
  function OwnChunk(n: Node, content: string, path: string, parentClass: Option<string>): (c: CodeChunk)
    requires n.kind == FunctionDefinition || n.kind == ClassDefinition
    ensures ChunkOf(c, n, content, path)
  {
    if n.kind == ClassDefinition then ClassChunk(n, content, path)
    else FunctionChunk(n, content, path, parentClass)
  }

  /** The chunks of the first `i` children's subtrees come from those
      subtrees. */
  lemma {:induction false} ChildChunksComeFromDefinitions(n: Node, i: nat, content: string, path: string, parentClass: Option<string>)
    requires i <= |n.children|
    ensures forall c :: c in ChildChunks(n, i, content, path, parentClass) ==>
      ChunkFrom(c, ChildPreorder(n, i), content, path)
  {
    ChildChunksPaired(n, i, content, path, parentClass);
    ChildSourcesInPreorder(n, i);
    SubsequenceWithin(ChildSources(n, i), ChildPreorder(n, i));
    PairedFrom(ChildChunks(n, i, content, path, parentClass), ChildSources(n, i), ChildPreorder(n, i), content, path);
  }

  /** Chunks paired with nodes among `ms` are chunks of nodes of `ms`. */
  lemma {:induction false} PairedFrom(cs: seq<CodeChunk>, ns: seq<Node>, ms: seq<Node>, content: string, path: string)
    requires Paired(cs, ns, content, path) && Within(ns, ms)
    ensures forall c :: c in cs ==> ChunkFrom(c, ms, content, path)
  {
    forall c | c in cs ensures ChunkFrom(c, ms, content, path) {
      var k :| 0 <= k < |cs| && cs[k] == c;
      assert ns[k] in ns;
    }
  }

  /** The chunks of the blocks among the first `i` children of a class come
      from strictly inside the class. */
  lemma {:induction false} BodyChunksComeFromDefinitions(n: Node, i: nat, content: string, path: string, className: string)
    requires i <= |n.children|
    ensures forall c :: c in BodyChunks(n, i, content, path, className) ==> NestedChunk(c, n, content, path)
    decreases n, i
  {
    if i > 0 {
      var child := n.children[i - 1];
      var prev := BodyChunks(n, i - 1, content, path, className);
      var more := if child.kind == Block then ChildChunks(child, |child.children|, content, path, Some(className)) else [];
      assert BodyChunks(n, i, content, path, className) == prev + more;
      BodyChunksComeFromDefinitions(n, i - 1, content, path, className);
      if child.kind == Block {
        BlockChunksNested(n, i - 1, content, path, className);
      }
    }
  }

  /** The chunks of a `block` child of a class come from strictly inside the
      class. */
  lemma {:induction false} BlockChunksNested(n: Node, k: nat, content: string, path: string, className: string)
    requires k < |n.children|
    ensures var b := n.children[k];
      forall c :: c in ChildChunks(b, |b.children|, content, path, Some(className)) ==>
        NestedChunk(c, n, content, path)
  {
    var b := n.children[k];
    ChildChunksComeFromDefinitions(b, |b.children|, content, path, Some(className));
    forall c | c in ChildChunks(b, |b.children|, content, path, Some(className))
      ensures NestedChunk(c, n, content, path)
    {
      ChunkFromGrandchild(c, n, k, content, path);
    }
  }

  /** Every chunk of the walk over a parsed tree satisfies the chunk
      invariants. */
  lemma {:induction false} ChunksWellFormed(n: Node, content: string, path: string, parentClass: Option<string>)
    requires RowsOrdered(n)
    ensures forall c :: c in Chunks(n, content, path, parentClass) ==> WellFormed(c, content, path)
  {
    ChunksComeFromDefinitions(n, content, path, parentClass);
    forall c | c in Chunks(n, content, path, parentClass) ensures WellFormed(c, content, path) {
      var m :| m in Preorder(n) && ChunkOf(c, m, content, path);
      if m.kind == FunctionDefinition {
        FunctionChunkWellFormed(m, content, path, c.parentClass);
      } else {
        ClassChunkWellFormed(m, content, path);
      }
    }
  }

  // ---------------------------------------------------------------------
  // The order of the walk.

  /** The definition nodes the walk makes chunks of, in the order it makes
      them: the recursion of `Chunks`, keeping the node instead of its chunk. */
  function ChunkSources(n: Node): seq<Node>
    decreases n, |n.children| + 1
  {
    if n.kind == FunctionDefinition then [n] + ChildSources(n, |n.children|)
    else if n.kind == ClassDefinition then [n] + BodySources(n, |n.children|)
    else ChildSources(n, |n.children|)
  }

  function ChildSources(n: Node, i: nat): seq<Node>
    requires i <= |n.children|
    decreases n, i
  {
    if i == 0 then [] else ChildSources(n, i - 1) + ChunkSources(n.children[i - 1])
  }

  function BodySources(n: Node, i: nat): seq<Node>
    requires i <= |n.children|
    decreases n, i
  {
    if i == 0 then []
    else
      var child := n.children[i - 1];
      BodySources(n, i - 1) + (if child.kind == Block then ChildSources(child, |child.children|) else [])
  }

  /** `cs` are the chunks of the nodes `ns`, position by position. */
  ghost predicate Paired(cs: seq<CodeChunk>, ns: seq<Node>, content: string, path: string) {
    |cs| == |ns| && forall k :: 0 <= k < |cs| ==> ChunkOf(cs[k], ns[k], content, path)
  }

  lemma {:induction false} PairedAppend(cs: seq<CodeChunk>, ns: seq<Node>, ds: seq<CodeChunk>, ms: seq<Node>, content: string, path: string)
    requires Paired(cs, ns, content, path) && Paired(ds, ms, content, path)
    ensures Paired(cs + ds, ns + ms, content, path)
  {
    forall k | 0 <= k < |cs + ds| ensures ChunkOf((cs + ds)[k], (ns + ms)[k], content, path) {
      if k < |cs| {
        assert (cs + ds)[k] == cs[k] && (ns + ms)[k] == ns[k];
      } else {
        assert (cs + ds)[k] == ds[k - |cs|] && (ns + ms)[k] == ms[k - |ns|];
      }
    }
  }

  /** The `k`-th chunk of the walk is the chunk of its `k`-th source. */
  lemma {:induction false} ChunksPaired(n: Node, content: string, path: string, parentClass: Option<string>)
    ensures Paired(Chunks(n, content, path, parentClass), ChunkSources(n), content, path)
    decreases n, |n.children| + 1
  {
    var all := |n.children|;
    if n.kind == FunctionDefinition || n.kind == ClassDefinition {
      var own := OwnChunk(n, content, path, parentClass);
      assert Paired([own], [n], content, path);
      if n.kind == ClassDefinition {
        BodyChunksPaired(n, all, content, path, NodeName(n));
        PairedAppend([own], [n], BodyChunks(n, all, content, path, NodeName(n)), BodySources(n, all), content, path);
      } else {
        ChildChunksPaired(n, all, content, path, parentClass);
        PairedAppend([own], [n], ChildChunks(n, all, content, path, parentClass), ChildSources(n, all), content, path);
      }
    } else {
      ChildChunksPaired(n, all, content, path, parentClass);
    }
  }

  lemma {:induction false} ChildChunksPaired(n: Node, i: nat, content: string, path: string, parentClass: Option<string>)
    requires i <= |n.children|
    ensures Paired(ChildChunks(n, i, content, path, parentClass), ChildSources(n, i), content, path)
    decreases n, i
  {
    if i > 0 {
      var child := n.children[i - 1];
      ChildChunksPaired(n, i - 1, content, path, parentClass);
      ChunksPaired(child, content, path, parentClass);
      PairedAppend(ChildChunks(n, i - 1, content, path, parentClass), ChildSources(n, i - 1),
        Chunks(child, content, path, parentClass), ChunkSources(child), content, path);
    }
  }

  lemma {:induction false} BodyChunksPaired(n: Node, i: nat, content: string, path: string, className: string)
    requires i <= |n.children|
    ensures Paired(BodyChunks(n, i, content, path, className), BodySources(n, i), content, path)
    decreases n, i
  {
    if i > 0 {
      var child := n.children[i - 1];
      BodyChunksPaired(n, i - 1, content, path, className);
      var cs := if child.kind == Block then ChildChunks(child, |child.children|, content, path, Some(className)) else [];
      var ns := if child.kind == Block then ChildSources(child, |child.children|) else [];
      if child.kind == Block {
        ChildChunksPaired(child, |child.children|, content, path, Some(className));
      }
      PairedAppend(BodyChunks(n, i - 1, content, path, className), BodySources(n, i - 1), cs, ns, content, path);
    }
  }

  /** The sources are met in depth-first pre-order: they are the pre-order of
      the subtree with the nodes that make no chunk left out. */
  lemma {:induction false} ChunkSourcesInPreorder(n: Node)
    ensures Subsequence(ChunkSources(n), Preorder(n))
    decreases n, |n.children| + 1
  {
    var all := |n.children|;
    if n.kind == ClassDefinition {
      BodySourcesInPreorder(n, all);
      SubsequenceCons(n, BodySources(n, all), ChildPreorder(n, all));
    } else if n.kind == FunctionDefinition {
      ChildSourcesInPreorder(n, all);
      SubsequenceCons(n, ChildSources(n, all), ChildPreorder(n, all));
    } else {
      ChildSourcesInPreorder(n, all);
      SubsequenceExtend(ChildSources(n, all), [n], ChildPreorder(n, all));
    }
  }

  lemma {:induction false} ChildSourcesInPreorder(n: Node, i: nat)
    requires i <= |n.children|
    ensures Subsequence(ChildSources(n, i), ChildPreorder(n, i))
    decreases n, i
  {
    if i > 0 {
      var child := n.children[i - 1];
      ChildSourcesInPreorder(n, i - 1);
      ChunkSourcesInPreorder(child);
      SubsequenceAppend(ChildSources(n, i - 1), ChildPreorder(n, i - 1), ChunkSources(child), Preorder(child));
    }
  }

  /** A class body's sources lie in the pre-order of the class's children:
      the walk skips the children that are not blocks and the blocks
      themselves. */
  lemma {:induction false} BodySourcesInPreorder(n: Node, i: nat)
    requires i <= |n.children|
    ensures Subsequence(BodySources(n, i), ChildPreorder(n, i))
    decreases n, i
  {
    if i > 0 {
      var child := n.children[i - 1];
      BodySourcesInPreorder(n, i - 1);
      var ns := if child.kind == Block then ChildSources(child, |child.children|) else [];
      if child.kind == Block {
        ChildSourcesInPreorder(child, |child.children|);
        SubsequenceExtend(ns, [child], ChildPreorder(child, |child.children|));
        assert Preorder(child) == [child] + ChildPreorder(child, |child.children|);
      } else {
        assert ns == [];
      }
      assert Subsequence(ns, Preorder(child));
      assert BodySources(n, i) == BodySources(n, i - 1) + ns;
      assert ChildPreorder(n, i) == ChildPreorder(n, i - 1) + Preorder(child);
      SubsequenceAppend(BodySources(n, i - 1), ChildPreorder(n, i - 1), ns, Preorder(child));
    }
  }

  /** `idx` places the chunks `cs` at strictly increasing positions of the
      pre-order of `n`, each chunk at the definition it is made of. */
  ghost predicate PreorderPositions(idx: seq<nat>, cs: seq<CodeChunk>, n: Node, content: string, path: string) {
    |idx| == |cs| &&
    (forall k :: 0 <= k < |idx| ==> idx[k] < |Preorder(n)| && ChunkOf(cs[k], Preorder(n)[idx[k]], content, path)) &&
    (forall j, k :: 0 <= j < k < |idx| ==> idx[j] < idx[k])
  }

  /** Depth-first pre-order: the walk emits the chunks of the definitions of
      the subtree in the order of the subtree's pre-order. */
  lemma {:induction false} ChunksFollowPreorder(n: Node, content: string, path: string, parentClass: Option<string>)
    ensures exists idx :: PreorderPositions(idx, Chunks(n, content, path, parentClass), n, content, path)
  {
    var cs := Chunks(n, content, path, parentClass);
    ChunksPaired(n, content, path, parentClass);
    ChunkSourcesInPreorder(n);
    var idx := SubsequencePositions(ChunkSources(n), Preorder(n));
    assert PreorderPositions(idx, cs, n, content, path);
  }

  // ---------------------------------------------------------------------
  // Where the walk looks.

  /** The chunks of any child's subtree are among the chunks of the first `i`
      children. */
  lemma {:induction false} ChildChunksInclude(n: Node, i: nat, k: nat, content: string, path: string, parentClass: Option<string>)
    requires k < i <= |n.children|
    ensures Within(Chunks(n.children[k], content, path, parentClass), ChildChunks(n, i, content, path, parentClass))
    decreases i
  {
    var mine := Chunks(n.children[k], content, path, parentClass);
    var prev := ChildChunks(n, i - 1, content, path, parentClass);
    var last := Chunks(n.children[i - 1], content, path, parentClass);
    assert ChildChunks(n, i, content, path, parentClass) == prev + last;
    WithinAppend(prev, last);
    if k < i - 1 {
      ChildChunksInclude(n, i - 1, k, content, path, parentClass);
      WithinTransitive(mine, prev, prev + last);
    } else {
      assert last == mine;
    }
  }

  /** Outside a class body the walk reaches every child with the same parent
      class: in particular a function nested in a function is chunked, with
      the outer function's parent class. */
  lemma {:induction false} NestedChunksKeepParent(n: Node, k: nat, content: string, path: string, parentClass: Option<string>)
    requires n.kind != ClassDefinition && k < |n.children|
    ensures forall c :: c in Chunks(n.children[k], content, path, parentClass) ==>
      c in Chunks(n, content, path, parentClass)
  {
    ChildChunksInclude(n, |n.children|, k, content, path, parentClass);
  }

  /** A function written directly in a class body is chunked as a method of
      that class (provided the class name is not empty). */
  lemma {:induction false} MethodsCarryTheirClass(n: Node, i: nat, j: nat, content: string, path: string, parentClass: Option<string>)
    requires n.kind == ClassDefinition && i < |n.children| && n.children[i].kind == Block
    requires j < |n.children[i].children| && n.children[i].children[j].kind == FunctionDefinition
    ensures var f := FunctionChunk(n.children[i].children[j], content, path, Some(NodeName(n)));
      f in Chunks(n, content, path, parentClass) &&
      f.parentClass == Some(NodeName(n)) &&
      (NodeName(n) != [] ==> f.chunkType == Method)
  {
    BodyFunctionIsChunked(n, i, j, content, path, parentClass);
  }

  lemma {:induction false} BodyFunctionIsChunked(n: Node, i: nat, j: nat, content: string, path: string, parentClass: Option<string>)
    requires n.kind == ClassDefinition && i < |n.children| && n.children[i].kind == Block
    requires j < |n.children[i].children| && n.children[i].children[j].kind == FunctionDefinition
    ensures FunctionChunk(n.children[i].children[j], content, path, Some(NodeName(n))) in
      Chunks(n, content, path, parentClass)
  {
    var stmt := n.children[i].children[j];
    OwnChunkLeads(stmt, content, path, Some(NodeName(n)));
    BlockStatementChunksInClass(n, i, j, content, path, parentClass);
  }

  /** A definition's walk starts with the definition's own chunk. */
  lemma {:induction false} OwnChunkLeads(n: Node, content: string, path: string, parentClass: Option<string>)
    requires n.kind == FunctionDefinition || n.kind == ClassDefinition
    ensures OwnChunk(n, content, path, parentClass) in Chunks(n, content, path, parentClass)
  {
    if n.kind == ClassDefinition {
      assert Chunks(n, content, path, parentClass) ==
        [OwnChunk(n, content, path, parentClass)] + BodyChunks(n, |n.children|, content, path, NodeName(n));
    } else {
      assert Chunks(n, content, path, parentClass) ==
        [OwnChunk(n, content, path, parentClass)] + ChildChunks(n, |n.children|, content, path, parentClass);
    }
  }

  /** Every chunk of a statement in a class body's block is a chunk of the
      class, walked with the class's name as parent class. */
  lemma {:induction false} BlockStatementChunksInClass(n: Node, i: nat, j: nat, content: string, path: string, parentClass: Option<string>)
    requires n.kind == ClassDefinition && i < |n.children| && n.children[i].kind == Block
    requires j < |n.children[i].children|
    ensures forall c :: c in Chunks(n.children[i].children[j], content, path, Some(NodeName(n))) ==>
      c in Chunks(n, content, path, parentClass)
  {
    var block := n.children[i];
    var name := NodeName(n);
    var mine := Chunks(block.children[j], content, path, Some(name));
    var blockChunks := ChildChunks(block, |block.children|, content, path, Some(name));
    var body := BodyChunks(n, |n.children|, content, path, name);
    ChildChunksInclude(block, |block.children|, j, content, path, Some(name));
    BodyChunksInclude(n, |n.children|, i, content, path, name);
    WithinTransitive(mine, blockChunks, body);
    assert Chunks(n, content, path, parentClass) == [ClassChunk(n, content, path)] + body;
    WithinAppend([ClassChunk(n, content, path)], body);
    WithinTransitive(mine, body, Chunks(n, content, path, parentClass));
  }

  lemma {:induction false} BodyChunksInclude(n: Node, i: nat, k: nat, content: string, path: string, className: string)
    requires k < i <= |n.children| && n.children[k].kind == Block
    ensures Within(ChildChunks(n.children[k], |n.children[k].children|, content, path, Some(className)),
      BodyChunks(n, i, content, path, className))
    decreases i
  {
    var child := n.children[i - 1];
    var mine := ChildChunks(n.children[k], |n.children[k].children|, content, path, Some(className));
    var prev := BodyChunks(n, i - 1, content, path, className);
    var last := if child.kind == Block then ChildChunks(child, |child.children|, content, path, Some(className)) else [];
    assert BodyChunks(n, i, content, path, className) == prev + last;
    WithinAppend(prev, last);
    if k < i - 1 {
      BodyChunksInclude(n, i - 1, k, content, path, className);
      WithinTransitive(mine, prev, prev + last);
    } else {
      assert last == mine;
    }
  }

  /** Only `block` children of a class are walked: a class whose children
      hold no `block` yields its own chunk alone. */
  lemma {:induction false} ClassWithoutBlock(n: Node, content: string, path: string, parentClass: Option<string>)
    requires n.kind == ClassDefinition
    requires forall i :: 0 <= i < |n.children| ==> n.children[i].kind != Block
    ensures Chunks(n, content, path, parentClass) == [ClassChunk(n, content, path)]
  {
    NoBlockNoBody(n, |n.children|, content, path, NodeName(n));
  }

  lemma {:induction false} NoBlockNoBody(n: Node, i: nat, content: string, path: string, className: string)
    requires i <= |n.children|
    requires forall k :: 0 <= k < i ==> n.children[k].kind != Block
    ensures BodyChunks(n, i, content, path, className) == []
    decreases i
  {
    if i > 0 {
      NoBlockNoBody(n, i - 1, content, path, className);
    }
  }

  /** The chunks of one file: none when the parser fails, else those of the
      walk from the root with no enclosing class. */
  function FileChunks(path: string, content: string, tree: Option<Node>): seq<CodeChunk> {
    match tree
    case None => []
    case Some(root) => Chunks(root, content, path, None)
  }

  /** `_chunk_file`; `tree` is what the parser produced for `content`, `None`
      when it raised. */
  method ChunkFile(path: string, content: string, tree: Option<Node>) returns (chunks: seq<CodeChunk>)
    ensures chunks == FileChunks(path, content, tree)
  {
    if tree.None? {
      return [];
    }
    chunks := [];
    chunks := WalkNode(tree.value, content, path, chunks, None);
  }

  // ---------------------------------------------------------------------
  // The repository pass.

  /** Directory and file names that exclude every file below them. */
  const SkipPatterns: set<string> := {
    "__pycache__", ".git", "venv", ".venv", "env", ".env",
    "node_modules", ".tox", ".pytest_cache", "dist", "build", "egg-info"
  }

  /** `_should_skip`: some component of the path is exactly one of the
      patterns. */
  predicate ShouldSkip(parts: seq<string>)
    ensures ShouldSkip(parts) <==> exists i :: 0 <= i < |parts| && parts[i] in SkipPatterns
  {
    exists skip :: skip in SkipPatterns && skip in parts
  }

  /** What reading a file gave: an error, or its text and the parser's tree
      for it (`None` when parsing raised). */
  datatype ReadOutcome = Unreadable | Read(content: string, tree: Option<Node>)

  /** A `*.py` file found under the repository: the components of its full
      path, its path relative to the repository root, and its reading. */
  datatype SourceFile = SourceFile(parts: seq<string>, relPath: string, outcome: ReadOutcome)

  /** The chunks one file adds to the repository's list. */
  function FileContribution(f: SourceFile): seq<CodeChunk> {
    if ShouldSkip(f.parts) then []
    else
      match f.outcome
      case Unreadable => []
      case Read(content, tree) => FileChunks(f.relPath, content, tree)
  }

  /** The chunks of `files`, file after file in the order they are found. */
  function RepoChunks(files: seq<SourceFile>): seq<CodeChunk>
    decreases |files|
  {
    if files == [] then []
    else RepoChunks(files[..|files| - 1]) + FileContribution(files[|files| - 1])
  }

  /** `chunk_repo`, over the files in the order the directory walk yields
      them. */
  method ChunkRepo(files: seq<SourceFile>) returns (allChunks: seq<CodeChunk>)
    ensures allChunks == RepoChunks(files)
  {
    allChunks := [];
    for i := 0 to |files|
      invariant allChunks == RepoChunks(files[..i])
    {
      var f := files[i];
      assert files[..i + 1][..i] == files[..i];
      if ShouldSkip(f.parts) {
        continue;
      }
      if f.outcome.Unreadable? {
        continue;
      }
      var chunks := ChunkFile(f.relPath, f.outcome.content, f.outcome.tree);
      allChunks := allChunks + chunks;
    }
    assert files[..|files|] == files;
  }

  // ---------------------------------------------------------------------
  // Properties of the repository pass.

  /** Chunking two runs of files one after the other is chunking both. */
  lemma {:induction false} RepoChunksAppend(a: seq<SourceFile>, b: seq<SourceFile>)
    ensures RepoChunks(a + b) == RepoChunks(a) + RepoChunks(b)
    decreases |b|
  {
    if b == [] {
      assert a + b == a;
    } else {
      var b' := b[..|b| - 1];
      var last := b[|b| - 1];
      assert (a + b)[..|a + b| - 1] == a + b' && (a + b)[|a + b| - 1] == last;
      assert RepoChunks(a + b) == RepoChunks(a + b') + FileContribution(last);
      RepoChunksAppend(a, b');
      AppendAssoc(RepoChunks(a), RepoChunks(b'), FileContribution(last));
    }
  }

  /** `c` is one of the chunks of the file `f`, which is not skipped, was
      read and was parsed. */
  predicate FromFile(c: CodeChunk, f: SourceFile) {
    !ShouldSkip(f.parts) && f.outcome.Read? && f.outcome.tree.Some? &&
    c in Chunks(f.outcome.tree.value, f.outcome.content, f.relPath, None)
  }

  /** Every chunk of the repository comes from one of its files that is not
      skipped and was read and parsed, and carries that file's relative path;
      a skipped, unreadable or unparsable file contributes nothing. */
  lemma {:induction false} RepoChunksFromFiles(files: seq<SourceFile>)
    ensures forall c :: c in RepoChunks(files) ==>
      exists k :: 0 <= k < |files| && FromFile(c, files[k]) && c.filePath == files[k].relPath
    decreases |files|
  {
    if files != [] {
      var init := files[..|files| - 1];
      var f := files[|files| - 1];
      RepoChunksFromFiles(init);
      forall c | c in RepoChunks(files)
        ensures exists k :: 0 <= k < |files| && FromFile(c, files[k]) && c.filePath == files[k].relPath
      {
        if c in RepoChunks(init) {
          var k :| 0 <= k < |init| && FromFile(c, init[k]) && c.filePath == init[k].relPath;
          assert files[k] == init[k];
        } else {
          assert c in FileContribution(f);
          ChunksComeFromDefinitions(f.outcome.tree.value, f.outcome.content, f.relPath, None);
          var m :| m in Preorder(f.outcome.tree.value) && ChunkOf(c, m, f.outcome.content, f.relPath);
          assert files[|files| - 1] == f;
        }
      }
    }
  }

  /** A path is skipped when any of its components is a pattern, wherever it
      sits: splitting the path anywhere, one side or the other is skipped. */
  lemma {:induction false} ShouldSkipSplit(a: seq<string>, b: seq<string>)
    ensures ShouldSkip(a + b) <==> ShouldSkip(a) || ShouldSkip(b)
  {
    if ShouldSkip(a + b) {
      var skip :| skip in SkipPatterns && skip in a + b;
      assert skip in a || skip in b;
    }
    if ShouldSkip(a) {
      var skip :| skip in SkipPatterns && skip in a;
      assert skip in a + b;
    }
    if ShouldSkip(b) {
      var skip :| skip in SkipPatterns && skip in b;
      assert skip in a + b;
    }
  }

  /** A file below a `venv` directory is skipped. */
  lemma {:induction false} VenvIsSkipped(parts: seq<string>)
    requires parts == ["project", "venv", "lib", "mod.py"]
    ensures ShouldSkip(parts)
  {
    assert "venv" in SkipPatterns && parts[1] == "venv";
  }

  /** Components are matched whole: `pkg.egg-info` is not `egg-info`, so a
      file under it is kept. */
  lemma {:induction false} EggInfoSuffixIsKept(parts: seq<string>)
    requires parts == ["project", "pkg.egg-info", "mod.py"]
    ensures !ShouldSkip(parts)
  {
    forall skip | skip in SkipPatterns ensures skip !in parts {
      assert skip != "project";
    }
  }
}
