/**
  Call references of a definition (`_extract_calls` and `_find_calls` in
  `ingestion/chunker.py`): every `call` node of the subtree whose callee is a
  bare name or a dotted attribute contributes the callee's text; the list is
  then deduplicated in first-occurrence order and cut to 15 entries.
 */
module CallRefs {
  import opened Text
  import opened SyntaxTree

  /** At most this many call references are kept per chunk. */
  const MaxCalls: nat := 15

  /** What a single node contributes: the callee text of a `call` whose first
      child is an `identifier` or an `attribute`, and nothing otherwise. */
  function OwnCall(n: Node): (r: seq<string>)
    ensures |r| <= 1
    ensures r != [] <==>
      n.kind == Call && |n.children| > 0 &&
      (n.children[0].kind == Identifier || n.children[0].kind == Attribute)
    ensures r != [] ==> r[0] == n.children[0].text
  {
    if n.kind == Call && |n.children| > 0 then
      var callee := n.children[0];
      if callee.kind == Identifier then [callee.text]
      else if callee.kind == Attribute then [callee.text]
      else []
    else []
  }

  /** Every call reference of the subtree of `n`, in the order `_find_calls`
      appends them: the node itself, then each child's subtree in turn. */
  function AllCalls(n: Node): seq<string>
    decreases n, |n.children| + 1
  {
    OwnCall(n) + ChildCalls(n, |n.children|)
  }

  /** The call references of the subtrees of the first `i` children of `n`. */
  function ChildCalls(n: Node, i: nat): seq<string>
    requires i <= |n.children|
    decreases n, i
  {
    if i == 0 then [] else ChildCalls(n, i - 1) + AllCalls(n.children[i - 1])
  }

  /** `_find_calls`: appends the subtree's call references to the shared list. */
  method FindCalls(node: Node, calls: seq<string>) returns (out: seq<string>)
    ensures out == calls + AllCalls(node)
    decreases node
  {
    out := calls;
    if node.kind == Call {
      if |node.children| > 0 {
        var callee := node.children[0];
        if callee.kind == Identifier {
          out := out + [callee.text];
        } else if callee.kind == Attribute {
          out := out + [callee.text];
        }
      }
    }
    for i := 0 to |node.children|
      invariant out == calls + OwnCall(node) + ChildCalls(node, i)
    {
      AppendAssoc(calls + OwnCall(node), ChildCalls(node, i), AllCalls(node.children[i]));
      out := FindCalls(node.children[i], out);
    }
  }

  // ---------------------------------------------------------------------
  // The subtree in pre-order, and call collection as a visitor over it.

  /** Every node of the subtree of `n`, depth first, parents before children. */
  function Preorder(n: Node): (r: seq<Node>)
    ensures |r| >= 1 && r[0] == n
    decreases n, |n.children| + 1
  {
    [n] + ChildPreorder(n, |n.children|)
  }

  function ChildPreorder(n: Node, i: nat): seq<Node>
    requires i <= |n.children|
    decreases n, i
  {
    if i == 0 then [] else ChildPreorder(n, i - 1) + Preorder(n.children[i - 1])
  }

  /** The contributions of the nodes of `ns`, in order. */
  function Collect(ns: seq<Node>): seq<string>
    decreases |ns|
  {
    if ns == [] then [] else Collect(ns[..|ns| - 1]) + OwnCall(ns[|ns| - 1])
  }

  lemma {:induction false} CollectAppend(a: seq<Node>, b: seq<Node>)
    ensures Collect(a + b) == Collect(a) + Collect(b)
    decreases |b|
  {
    if b == [] {
      assert a + b == a;
    } else {
      var b' := b[..|b| - 1];
      var last := b[|b| - 1];
      assert (a + b)[..|a + b| - 1] == a + b' && (a + b)[|a + b| - 1] == last;
      assert Collect(a + b) == Collect(a + b') + OwnCall(last);
      CollectAppend(a, b');
      AppendAssoc(Collect(a), Collect(b'), OwnCall(last));
    }
  }

  /** `_find_calls` collects exactly the contributions of the subtree's nodes
      in pre-order. */
  lemma {:induction false} CallsArePreorderCalls(n: Node)
    ensures AllCalls(n) == Collect(Preorder(n))
  {
    ChildCallsArePreorderCalls(n, |n.children|);
    OwnCallsFirst(n);
  }

  /** The inductive step of `CallsArePreorderCalls`: once the children's
      references are the collection over their pre-order, the node's are the
      collection over its own pre-order, its own contribution first. */
  lemma {:induction false} OwnCallsFirst(n: Node)
    requires ChildCalls(n, |n.children|) == Collect(ChildPreorder(n, |n.children|))
    ensures AllCalls(n) == Collect(Preorder(n))
  {
    CollectAppend([n], ChildPreorder(n, |n.children|));
    assert Collect([n]) == Collect([]) + OwnCall(n);
  }

  lemma {:induction false} ChildCallsArePreorderCalls(n: Node, i: nat)
    requires i <= |n.children|
    ensures ChildCalls(n, i) == Collect(ChildPreorder(n, i))
    decreases n, i
  {
    if i == 0 {
      assert ChildPreorder(n, 0) == [];
    } else {
      var child := n.children[i - 1];
      ChildCallsArePreorderCalls(n, i - 1);
      ChildCallsArePreorderCalls(child, |child.children|);
      OwnCallsFirst(child);
      ChildCallsStep(n, i);
    }
  }

  /** One more child: its subtree's calls and nodes are appended on both
      sides. */
  lemma {:induction false} ChildCallsStep(n: Node, i: nat)
    requires 0 < i <= |n.children|
    requires ChildCalls(n, i - 1) == Collect(ChildPreorder(n, i - 1))
    requires AllCalls(n.children[i - 1]) == Collect(Preorder(n.children[i - 1]))
    ensures ChildCalls(n, i) == Collect(ChildPreorder(n, i))
  {
    var child := n.children[i - 1];
    CollectAppend(ChildPreorder(n, i - 1), Preorder(child));
    assert ChildPreorder(n, i) == ChildPreorder(n, i - 1) + Preorder(child);
  }

  /** `x` is collected from `ns` exactly when some node of `ns` contributes it. */
  lemma {:induction false} CollectMembers(ns: seq<Node>, x: string)
    ensures x in Collect(ns) <==> exists m :: m in ns && OwnCall(m) == [x]
    decreases |ns|
  {
    if ns != [] {
      var init := ns[..|ns| - 1];
      CollectMembers(init, x);
      assert ns == init + [ns[|ns| - 1]];
      if x in Collect(ns) && x !in Collect(init) {
        assert OwnCall(ns[|ns| - 1]) == [x];
      }
    }
  }

  /** A call reference is found exactly when some `call` node of the subtree
      has that identifier or attribute as its callee. */
  lemma {:induction false} CallsOfSubtree(n: Node, x: string)
    ensures x in AllCalls(n) <==>
      exists m :: m in Preorder(n) && m.kind == Call && |m.children| > 0 &&
        (m.children[0].kind == Identifier || m.children[0].kind == Attribute) &&
        m.children[0].text == x
  {
    CallsArePreorderCalls(n);
    CollectMembers(Preorder(n), x);
  }

  // ---------------------------------------------------------------------
  // `list(dict.fromkeys(calls))[:15]`

  predicate NoDuplicates(s: seq<string>) {
    forall i, j :: 0 <= i < j < |s| ==> s[i] != s[j]
  }

  /** The position of the first occurrence of `x` in `s`. */
  function FirstIndex(s: seq<string>, x: string): (k: nat)
    requires x in s
    ensures k < |s| && s[k] == x
    ensures forall j :: 0 <= j < k ==> s[j] != x
  {
    if s[0] == x then 0 else 1 + FirstIndex(s[1..], x)
  }

  /** `list(dict.fromkeys(s))`: the keys in insertion order. */
  function Dedupe(s: seq<string>): (d: seq<string>)
    ensures NoDuplicates(d)
    ensures forall x :: x in d <==> x in s
    decreases |s|
  {
    if s == [] then []
    else
      var d := Dedupe(s[..|s| - 1]);
      var x := s[|s| - 1];
      assert s == s[..|s| - 1] + [x];
      if x in d then d else d + [x]
  }

  lemma {:induction false} FirstIndexAppend(p: seq<string>, x: string, y: string)
    requires y in p
    ensures FirstIndex(p + [x], y) == FirstIndex(p, y)
  {
    assert forall j :: 0 <= j < |p| ==> (p + [x])[j] == p[j];
  }

  /** The deduplicated list orders its entries by their first occurrence. */
  lemma {:induction false} DedupeKeepsFirstOccurrenceOrder(s: seq<string>)
    ensures forall i, j :: 0 <= i < j < |Dedupe(s)| ==>
      FirstIndex(s, Dedupe(s)[i]) < FirstIndex(s, Dedupe(s)[j])
    decreases |s|
  {
    if s != [] {
      var p := s[..|s| - 1];
      var x := s[|s| - 1];
      var d := Dedupe(p);
      DedupeKeepsFirstOccurrenceOrder(p);
      assert s == p + [x];
      forall y | y in p ensures FirstIndex(s, y) == FirstIndex(p, y) {
        FirstIndexAppend(p, x, y);
      }
      if x !in d {
        assert x !in p;
        assert FirstIndex(s, x) == |p| by {
          assert s[|p|] == x;
        }
      }
    }
  }

  /** `l[:n]`. */
  function Take(s: seq<string>, n: nat): (r: seq<string>)
    ensures |r| == if |s| <= n then |s| else n
    ensures r == s[..|r|]
  {
    if |s| > n then s[..n] else s
  }

  /** The `calls` field of a function chunk. */
  function CallList(n: Node): (calls: seq<string>)
    ensures NoDuplicates(calls)
    ensures |calls| <= MaxCalls
    ensures |calls| <= |Dedupe(AllCalls(n))| && calls == Dedupe(AllCalls(n))[..|calls|]
    ensures |Dedupe(AllCalls(n))| >= MaxCalls ==> |calls| == MaxCalls
    ensures |Dedupe(AllCalls(n))| <= MaxCalls ==> calls == Dedupe(AllCalls(n))
    ensures forall x :: x in calls ==> x in AllCalls(n)
  {
    var d := Dedupe(AllCalls(n));
    var r := Take(d, MaxCalls);
    assert forall x :: x in r ==> x in d;
    r
  }

  /** `_extract_calls`. */
  method ExtractCalls(node: Node) returns (calls: seq<string>)
    ensures calls == CallList(node)
  {
    var found := FindCalls(node, []);
    assert found == AllCalls(node);
    calls := Take(Dedupe(found), MaxCalls);
  }
}
