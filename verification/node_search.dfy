/**
  The two searches of `ingestion/chunker.py` that only read the tree: the name
  of a definition (`_get_node_name`) and its docstring (`_extract_docstring`).
 */
module NodeSearch {
  import opened Wrappers
  import opened Text
  import opened SyntaxTree

  /** Docstrings longer than this are cut to this many characters. */
  const DocstringLimit: nat := 300

  /** Where `for child in children: if child.type == k: return ...` stops:
      the index of the first child of kind `k`, or `|cs|` when there is none. */
  function FirstOfKind(cs: seq<Node>, k: Kind): (i: nat)
    ensures i <= |cs|
    ensures forall j :: 0 <= j < i ==> cs[j].kind != k
    ensures i < |cs| ==> cs[i].kind == k
    decreases |cs|
  {
    if cs == [] then 0
    else if cs[0].kind == k then 0
    else
      var i := 1 + FirstOfKind(cs[1..], k);
      assert forall j :: 1 <= j < |cs| ==> cs[j] == cs[1..][j - 1];
      i
  }

  /** `_get_node_name`: the text of the first direct `identifier` child, else
      `"unknown"`. */
  function NodeName(n: Node): (name: string)
    ensures (forall i :: 0 <= i < |n.children| ==> n.children[i].kind != Identifier) ==>
      name == "unknown"
    ensures (exists i :: 0 <= i < |n.children| && n.children[i].kind == Identifier) ==>
      exists i :: 0 <= i < |n.children| && n.children[i].kind == Identifier &&
        name == n.children[i].text &&
        forall j :: 0 <= j < i ==> n.children[j].kind != Identifier
  {
    var i := FirstOfKind(n.children, Identifier);
    if i < |n.children| then n.children[i].text else "unknown"
  }

  /** `.strip("\"'").strip()`, then at most `DocstringLimit` characters. */
  function CleanDocstring(raw: string): (doc: string)
    ensures |doc| <= DocstringLimit
    ensures IsPrefix(doc, Strip(StripChars(raw, QuoteChars)))
    ensures |Strip(StripChars(raw, QuoteChars))| <= DocstringLimit ==>
      doc == Strip(StripChars(raw, QuoteChars))
    ensures |Strip(StripChars(raw, QuoteChars))| > DocstringLimit ==>
      doc == Strip(StripChars(raw, QuoteChars))[..DocstringLimit]
  {
    var d := Strip(StripChars(raw, QuoteChars));
    if |d| > DocstringLimit then d[..DocstringLimit] else d
  }

  /** The statement holds a `string` child the innermost loop returns. */
  predicate HasString(stmt: Node) {
    stmt.kind == ExpressionStatement && FirstOfKind(stmt.children, StringLiteral) < |stmt.children|
  }

  /** The index of the first statement of `stmts` that holds a string, or
      `|stmts|`. */
  function FirstWithString(stmts: seq<Node>): (j: nat)
    ensures j <= |stmts|
    ensures forall i :: 0 <= i < j ==> !HasString(stmts[i])
    ensures j < |stmts| ==> HasString(stmts[j])
    decreases |stmts|
  {
    if stmts == [] then 0
    else if HasString(stmts[0]) then 0
    else
      var j := 1 + FirstWithString(stmts[1..]);
      assert forall i :: 1 <= i < |stmts| ==> stmts[i] == stmts[1..][i - 1];
      j
  }

  /** The child is a `block` with a statement that holds a string. */
  predicate HasDocBlock(child: Node) {
    child.kind == Block && FirstWithString(child.children) < |child.children|
  }

  /** The index of the first child of `children` that is such a block, or
      `|children|`. */
  function FirstDocBlock(children: seq<Node>): (i: nat)
    ensures i <= |children|
    ensures forall j :: 0 <= j < i ==> !HasDocBlock(children[j])
    ensures i < |children| ==> HasDocBlock(children[i])
    decreases |children|
  {
    if children == [] then 0
    else if HasDocBlock(children[0]) then 0
    else
      var i := 1 + FirstDocBlock(children[1..]);
      assert forall j :: 1 <= j < |children| ==> children[j] == children[1..][j - 1];
      i
  }

  /** The three nested loops of `_extract_docstring` meet at child `i` (a
      `block`), its statement `j` (an `expression_statement`) and that
      statement's child `k` (a `string`). */
  predicate DocstringAt(n: Node, i: int, j: int, k: int) {
    0 <= i < |n.children| && n.children[i].kind == Block &&
    0 <= j < |n.children[i].children| &&
    n.children[i].children[j].kind == ExpressionStatement &&
    0 <= k < |n.children[i].children[j].children| &&
    n.children[i].children[j].children[k].kind == StringLiteral
  }

  /** `(i, j, k)` comes no later than `(i', j', k')` in the loops' order. */
  predicate NoLater(i: int, j: int, k: int, i': int, j': int, k': int) {
    i < i' || (i == i' && (j < j' || (j == j' && k <= k')))
  }

  /** Where the three loops return: the first block with a string-holding
      statement, its first such statement, and that statement's first
      string. */
  function DocstringPosition(n: Node): (pos: (nat, nat, nat))
    requires FirstDocBlock(n.children) < |n.children|
    ensures DocstringAt(n, pos.0, pos.1, pos.2)
  {
    var i := FirstDocBlock(n.children);
    var b := n.children[i];
    var j := FirstWithString(b.children);
    var st := b.children[j];
    (i, j, FirstOfKind(st.children, StringLiteral))
  }

  /** `_extract_docstring`. */
  function ExtractDocstring(n: Node): (doc: Option<string>)
    ensures doc.Some? ==> |doc.value| <= DocstringLimit
  {
    if FirstDocBlock(n.children) < |n.children| then
      var (i, j, k) := DocstringPosition(n);
      Some(CleanDocstring(n.children[i].children[j].children[k].text))
    else None
  }

  /** A string under an `expression_statement` of a `block` is a candidate
      the search cannot miss. */
  lemma {:induction false} StringIsFound(n: Node, i: int, j: int, k: int)
    requires DocstringAt(n, i, j, k)
    ensures FirstDocBlock(n.children) < |n.children|
  {
    assert HasString(n.children[i].children[j]);
    assert HasDocBlock(n.children[i]);
  }

  /** The docstring is absent exactly when no `string` sits directly under an
      `expression_statement` of a `block` child. */
  lemma {:induction false} DocstringAbsent(n: Node)
    ensures ExtractDocstring(n).None? <==> forall i, j, k :: !DocstringAt(n, i, j, k)
  {
    forall i, j, k | DocstringAt(n, i, j, k) ensures ExtractDocstring(n).Some? {
      StringIsFound(n, i, j, k);
    }
  }

  /** Otherwise the docstring is the cleaned text of the first such string in
      loop order, which need not belong to the block's first statement. */
  lemma {:induction false} DocstringIsFirstStringInLoopOrder(n: Node)
    requires ExtractDocstring(n).Some?
    ensures exists i, j, k ::
      DocstringAt(n, i, j, k) &&
      ExtractDocstring(n).value == CleanDocstring(n.children[i].children[j].children[k].text) &&
      forall i', j', k' :: DocstringAt(n, i', j', k') ==> NoLater(i, j, k, i', j', k')
  {
    var (i, j, k) := DocstringPosition(n);
    forall i', j', k' | !NoLater(i, j, k, i', j', k') ensures !DocstringAt(n, i', j', k') {
      if 0 <= i' < i {
        NoStringInBlock(n.children[i']);
      } else if i' == i && 0 <= j' < j {
        NoStringInStatement(n.children[i].children[j']);
      }
    }
    assert DocstringAt(n, i, j, k);
  }

  lemma {:induction false} NoStringInStatement(st: Node)
    requires !HasString(st)
    ensures st.kind == ExpressionStatement ==>
      forall k :: 0 <= k < |st.children| ==> st.children[k].kind != StringLiteral
  {
  }

  lemma {:induction false} NoStringInBlock(b: Node)
    requires !HasDocBlock(b)
    ensures b.kind == Block ==>
      forall j, k ::
        (0 <= j < |b.children| && b.children[j].kind == ExpressionStatement &&
         0 <= k < |b.children[j].children|) ==> b.children[j].children[k].kind != StringLiteral
  {
    if b.kind == Block {
      forall j | 0 <= j < |b.children| {
        NoStringInStatement(b.children[j]);
      }
    }
  }

  /** The docstring does not depend on the quote style, nor on whether the
      text sits on the quote line or on lines of its own: any quote runs
      around any whitespace runs around the text `x` give `x` (cut to 300). */
  lemma {:induction false} DocstringLayoutIndependent(q1: string, w1: string, x: string, w2: string, q2: string)
    requires forall i :: 0 <= i < |q1| ==> q1[i] in QuoteChars
    requires forall i :: 0 <= i < |q2| ==> q2[i] in QuoteChars
    requires forall i :: 0 <= i < |w1| ==> w1[i] in Whitespace
    requires forall i :: 0 <= i < |w2| ==> w2[i] in Whitespace
    requires x != [] ==> x[0] !in QuoteChars + Whitespace && x[|x| - 1] !in QuoteChars + Whitespace
    ensures CleanDocstring(q1 + w1 + x + w2 + q2) ==
      if |x| > DocstringLimit then x[..DocstringLimit] else x
  {
    var inner := w1 + x + w2;
    if w1 != [] {
      assert inner[0] == w1[0];
    } else if x != [] {
      assert inner[0] == x[0];
    } else if w2 != [] {
      assert inner[0] == w2[0];
    }
    if w2 != [] {
      assert inner[|inner| - 1] == w2[|w2| - 1];
    } else if x != [] {
      assert inner[|inner| - 1] == x[|x| - 1];
    } else if w1 != [] {
      assert inner[|inner| - 1] == w1[|w1| - 1];
    }
    assert q1 + w1 + x + w2 + q2 == q1 + inner + q2;
    StripAround(q1, inner, q2, QuoteChars);
    StripAround(w1, x, w2, Whitespace);
  }
}
