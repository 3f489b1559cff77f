/**
  The embedding side of `embeddings/voyage.py`: the text each chunk is
  embedded as (`_chunk_to_text`), and `embed_chunks`, which embeds those texts
  in consecutive batches and pairs the results back with the chunks. The
  embedding service is a function parameter from a batch of texts to the
  batch's embeddings, of an opaque type `E`.
 */
module Embedder {
  import opened Wrappers
  import opened Text
  import opened ChunkModel

  // ---------------------------------------------------------------------
  // `_chunk_to_text`

  /** The first part: what the chunk is and what it is called. */
  function Heading(c: CodeChunk): string {
    if Truthy(c.parentClass) then "Method " + c.name + " in class " + c.parentClass.value
    else if c.chunkType == Class then "Class " + c.name
    else "Function " + c.name
  }

  /** The parts `_chunk_to_text` collects, in order: heading, description (for
      a non-empty docstring), calls (for a non-empty call list), code. */
  function Parts(c: CodeChunk): (parts: seq<string>)
    ensures 2 <= |parts| <= 4
    ensures parts[0] == Heading(c) && parts[|parts| - 1] == "Code:\n" + c.content
  {
    [Heading(c)] +
    (if Truthy(c.docstring) then ["Description: " + c.docstring.value] else []) +
    (if c.calls != [] then ["Calls: " + JoinWith(c.calls, ", ")] else []) +
    ["Code:\n" + c.content]
  }

  /** `_chunk_to_text`: the parts joined by newlines. */
  function ChunkToText(c: CodeChunk): string {
    JoinWith(Parts(c), "\n")
  }

  /** The description line, with its newline, or nothing. */
  function DescriptionLine(c: CodeChunk): string {
    if Truthy(c.docstring) then "Description: " + c.docstring.value + "\n" else ""
  }

  /** The calls line, with its newline, or nothing. */
  function CallsLine(c: CodeChunk): string {
    if c.calls != [] then "Calls: " + JoinWith(c.calls, ", ") + "\n" else ""
  }

  lemma {:induction false} JoinTwo(a: string, b: string, sep: string)
    ensures JoinWith([a, b], sep) == a + sep + b
  {
    assert [a, b][1..] == [b];
  }

  lemma {:induction false} JoinCons(a: string, rest: seq<string>, sep: string)
    requires rest != []
    ensures JoinWith([a] + rest, sep) == a + sep + JoinWith(rest, sep)
  {
    assert ([a] + rest)[1..] == rest;
  }

  /** The text laid out in full: heading, then the description line and the
      calls line when present, then `Code:` and the chunk's content. */
  lemma {:induction false} ChunkToTextLayout(c: CodeChunk)
    ensures ChunkToText(c) ==
      Heading(c) + "\n" + DescriptionLine(c) + CallsLine(c) + "Code:\n" + c.content
  {
    var h := Heading(c);
    var code := "Code:\n" + c.content;
    var d := "Description: " + if c.docstring.Some? then c.docstring.value else "";
    var k := "Calls: " + JoinWith(c.calls, ", ");
    if Truthy(c.docstring) && c.calls != [] {
      assert Parts(c) == [h] + [d, k, code];
      JoinCons(h, [d, k, code], "\n");
      JoinCons(d, [k, code], "\n");
      JoinTwo(k, code, "\n");
    } else if Truthy(c.docstring) {
      assert Parts(c) == [h] + [d, code];
      JoinCons(h, [d, code], "\n");
      JoinTwo(d, code, "\n");
    } else if c.calls != [] {
      assert Parts(c) == [h] + [k, code];
      JoinCons(h, [k, code], "\n");
      JoinTwo(k, code, "\n");
    } else {
      assert Parts(c) == [h, code];
      JoinTwo(h, code, "\n");
    }
  }

  /** A description part is present exactly when the docstring is non-empty,
      and a calls part exactly when there are calls, listed in order and
      separated by `", "`. */
  lemma {:induction false} OptionalParts(c: CodeChunk)
    ensures |Parts(c)| == 2 + (if Truthy(c.docstring) then 1 else 0) + (if c.calls != [] then 1 else 0)
    ensures Truthy(c.docstring) ==> Parts(c)[1] == "Description: " + c.docstring.value
    ensures c.calls != [] ==> Parts(c)[|Parts(c)| - 2] == "Calls: " + JoinWith(c.calls, ", ")
    ensures (exists i :: 0 <= i < |Parts(c)| && StartsWith(Parts(c)[i], "Description: ")) <==>
      Truthy(c.docstring)
    ensures (exists i :: 0 <= i < |Parts(c)| && StartsWith(Parts(c)[i], "Calls: ")) <==>
      c.calls != []
  {
    var p := Parts(c);
    if Truthy(c.docstring) {
      assert StartsWith(p[1], "Description: ");
    }
    if c.calls != [] {
      assert StartsWith(p[|p| - 2], "Calls: ");
    }
    forall i | 0 <= i < |p|
      ensures StartsWith(p[i], "Description: ") ==> Truthy(c.docstring)
      ensures StartsWith(p[i], "Calls: ") ==> c.calls != []
    {
      if i == 0 {
        assert p[i][0] in "MCF" && p[i][1] in "elu";
      } else if i == |p| - 1 {
        assert p[i][0] == 'C' && p[i][1] == 'o';
      } else if Truthy(c.docstring) && i == 1 {
        assert p[i][0] == 'D';
      } else {
        assert p[i][0] == 'C';
      }
    }
  }

  /** The text starts with the heading. */
  lemma {:induction false} HeadingIsPrefix(c: CodeChunk)
    ensures IsPrefix(Heading(c), ChunkToText(c))
  {
    var p := Parts(c);
    JoinPrefix(p, 1, "\n");
    assert p[..1] == [Heading(c)];
  }

  /** The heading follows the chunk's kind for every chunk the chunker makes,
      where a method is exactly a chunk with a non-empty parent class and a
      class chunk has none. */
  lemma {:induction false} HeadingFollowsChunkType(c: CodeChunk)
    requires c.chunkType == Method <==> Truthy(c.parentClass)
    requires c.chunkType == Class ==> c.parentClass.None?
    ensures c.chunkType == Method ==> StartsWith(ChunkToText(c), "Method " + c.name + " in class ")
    ensures c.chunkType == Class ==> StartsWith(ChunkToText(c), "Class " + c.name)
    ensures c.chunkType == Function ==> StartsWith(ChunkToText(c), "Function " + c.name)
  {
    HeadingIsPrefix(c);
    if c.chunkType == Method {
      var p := "Method " + c.name + " in class ";
      assert Heading(c) == p + c.parentClass.value;
      PrefixOfAppend(p, c.parentClass.value);
      PrefixTransitive(p, Heading(c), ChunkToText(c));
    }
  }

  /** When the heading has no line break (names never do), it is the first
      line of the text, and the chunk's content is everything after the
      last `Code:` line break. */
  lemma {:induction false} FirstLineIsHeading(c: CodeChunk)
    requires '\n' !in Heading(c)
    ensures SplitLines(ChunkToText(c))[0] == Heading(c)
    ensures exists pre :: ChunkToText(c) == pre + "Code:\n" + c.content
  {
    var p := Parts(c);
    assert ChunkToText(c) == Heading(c) + "\n" + JoinWith(p[1..], "\n");
    SplitLinesAfterLine(Heading(c), JoinWith(p[1..], "\n"));
    JoinEndsWithLast(p, "\n");
    var text := ChunkToText(c);
    var pre := text[..|text| - |p[|p| - 1]|];
    AppendAssoc(pre, "Code:\n", c.content);
  }

  // ---------------------------------------------------------------------
  // `embed_chunks`

  /** Texts are embedded this many at a time. */
  const BatchSize: nat := 128

  /** `[self._chunk_to_text(c) for c in chunks]`. */
  function Texts(chunks: seq<CodeChunk>): (texts: seq<string>)
    ensures |texts| == |chunks|
    ensures forall i :: 0 <= i < |chunks| ==> texts[i] == ChunkToText(chunks[i])
  {
    seq(|chunks|, i requires 0 <= i < |chunks| => ChunkToText(chunks[i]))
  }

  /** The number of batches: the text count divided by the batch size,
      rounded up. */
  function BatchCount(n: nat): nat {
    (n + BatchSize - 1) / BatchSize
  }

  /** `texts[i:i + BATCH_SIZE]` for `i = BatchSize * k`, cut at the end of the
      list as Python slicing does. */
  function Batch(texts: seq<string>, k: nat): (batch: seq<string>)
    requires k < BatchCount(|texts|)
    ensures 1 <= |batch| <= BatchSize
    ensures BatchSize * k + |batch| <= |texts|
    ensures batch == texts[BatchSize * k .. BatchSize * k + |batch|]
    ensures k + 1 < BatchCount(|texts|) ==> |batch| == BatchSize
  {
    var start := BatchSize * k;
    var end := if start + BatchSize <= |texts| then start + BatchSize else |texts|;
    texts[start..end]
  }

  /** The batches of `texts`, in order. */
  function Batches(texts: seq<string>): (batches: seq<seq<string>>)
    ensures |batches| == BatchCount(|texts|)
    ensures forall k :: 0 <= k < |batches| ==> batches[k] == Batch(texts, k)
  {
    seq(BatchCount(|texts|), k requires 0 <= k < BatchCount(|texts|) => Batch(texts, k))
  }

  /** What the service returns for each batch, in order. */
  function Replies<E>(texts: seq<string>, embed: seq<string> -> seq<E>): (replies: seq<seq<E>>)
    ensures |replies| == BatchCount(|texts|)
    ensures forall k :: 0 <= k < |replies| ==> replies[k] == embed(Batch(texts, k))
  {
    seq(BatchCount(|texts|), k requires 0 <= k < BatchCount(|texts|) => embed(Batch(texts, k)))
  }

  /** The concatenation of a list of lists, as repeated `extend` builds it. */
  function Concat<T>(xss: seq<seq<T>>): seq<T>
    decreases |xss|
  {
    if xss == [] then [] else Concat(xss[..|xss| - 1]) + xss[|xss| - 1]
  }

  /** `list(zip(xs, ys))`: pairs up to the shorter of the two. */
  function Zip<A, B>(xs: seq<A>, ys: seq<B>): (pairs: seq<(A, B)>)
    ensures |pairs| == if |xs| <= |ys| then |xs| else |ys|
    ensures forall i :: 0 <= i < |pairs| ==> pairs[i] == (xs[i], ys[i])
  {
    var n := if |xs| <= |ys| then |xs| else |ys|;
    seq(n, i requires 0 <= i < n => (xs[i], ys[i]))
  }

  /** `embed_chunks`, with the embedding service as `embed`: the chunks paired
      with the service's replies to the batches, concatenated. */
  method EmbedChunks<E>(chunks: seq<CodeChunk>, embed: seq<string> -> seq<E>)
    returns (pairs: seq<(CodeChunk, E)>)
    ensures pairs == Zip(chunks, Concat(Replies(Texts(chunks), embed)))
  {
    var texts := Texts(chunks);
    ghost var replies := Replies(texts, embed);
    var allEmbeddings: seq<E> := [];
    var i := 0;
    ghost var k := 0;
    while i < |texts|
      invariant i == BatchSize * k && k <= |replies|
      invariant i < |texts| <==> k < |replies|
      invariant allEmbeddings == Concat(replies[..k])
      decreases |texts| - i
    {
      var end := if i + BatchSize <= |texts| then i + BatchSize else |texts|;
      var batch := texts[i..end];
      assert batch == Batch(texts, k);
      assert replies[..k + 1][..k] == replies[..k];
      allEmbeddings := allEmbeddings + embed(batch);
      i := i + BatchSize;
      k := k + 1;
    }
    assert replies[..k] == replies;
    pairs := Zip(chunks, allEmbeddings);
  }

  // ---------------------------------------------------------------------
  // Properties of the batching.

  /** The end of batch `k`: `BatchSize * (k + 1)`, cut at `n`. */
  function BatchEnd(n: nat, k: nat): nat {
    if BatchSize * (k + 1) <= n then BatchSize * (k + 1) else n
  }

  /** Lists that are the consecutive `BatchSize`-slices of `ys` concatenate,
      up to list `k`, to the prefix of `ys` those slices cover. */
  lemma {:induction false} ConcatOfSlicesPrefix<T>(xss: seq<seq<T>>, ys: seq<T>, k: nat)
    requires 0 < k <= |xss|
    requires forall j :: 0 <= j < |xss| ==>
      BatchSize * j <= BatchEnd(|ys|, j) && xss[j] == ys[BatchSize * j .. BatchEnd(|ys|, j)]
    ensures Concat(xss[..k]) == ys[..BatchEnd(|ys|, k - 1)]
  {
    if k == 1 {
      assert xss[..k] == [xss[0]];
      assert Concat(xss[..k]) == [] + xss[0];
    } else {
      ConcatOfSlicesPrefix(xss, ys, k - 1);
      assert xss[..k][..k - 1] == xss[..k - 1];
      var start := BatchSize * (k - 1);
      assert start <= BatchEnd(|ys|, k - 1) <= |ys|;
      assert BatchEnd(|ys|, k - 2) == start;
      assert ys[..BatchEnd(|ys|, k - 1)] == ys[..start] + ys[start .. BatchEnd(|ys|, k - 1)];
    }
  }

  /** All of them concatenate to `ys`. */
  lemma {:induction false} ConcatOfSlices<T>(xss: seq<seq<T>>, ys: seq<T>)
    requires |xss| == BatchCount(|ys|)
    requires forall j :: 0 <= j < |xss| ==>
      BatchSize * j <= BatchEnd(|ys|, j) && xss[j] == ys[BatchSize * j .. BatchEnd(|ys|, j)]
    ensures Concat(xss) == ys
  {
    if xss != [] {
      ConcatOfSlicesPrefix(xss, ys, |xss|);
      assert xss[..|xss|] == xss;
      assert ys[..|ys|] == ys;
    }
  }

  /** The batches are consecutive slices of at most `BatchSize` texts, all
      but the last full, and together they are exactly the texts. */
  lemma {:induction false} BatchesPartition(texts: seq<string>)
    ensures Concat(Batches(texts)) == texts
    ensures forall k :: 0 <= k < |Batches(texts)| ==>
      1 <= |Batches(texts)[k]| <= BatchSize &&
      (k + 1 < |Batches(texts)| ==> |Batches(texts)[k]| == BatchSize) &&
      Batches(texts)[k] == texts[BatchSize * k .. BatchSize * k + |Batches(texts)[k]|]
  {
    ConcatOfSlices(Batches(texts), texts);
  }

  /** There are `⌈n / BatchSize⌉` batches: enough for every text, one fewer
      would not be. */
  lemma {:induction false} BatchCountIsCeiling(n: nat)
    ensures BatchSize * BatchCount(n) >= n
    ensures BatchCount(n) > 0 ==> BatchSize * (BatchCount(n) - 1) < n
  {
  }

  /** When every reply holds one embedding per text of its batch, there is one
      embedding per chunk, so every chunk is paired with one. */
  lemma {:induction false} EmbeddingCount<E>(chunks: seq<CodeChunk>, embed: seq<string> -> seq<E>)
    requires forall k :: 0 <= k < BatchCount(|chunks|) ==>
      |Replies(Texts(chunks), embed)[k]| == |Batches(Texts(chunks))[k]|
    ensures |Concat(Replies(Texts(chunks), embed))| == |chunks|
    ensures |Zip(chunks, Concat(Replies(Texts(chunks), embed)))| == |chunks|
  {
    var texts := Texts(chunks);
    BatchesPartition(texts);
    ConcatLengths(Replies(texts, embed), Batches(texts), |Batches(texts)|);
  }

  lemma {:induction false} ConcatLengths<A, B>(xss: seq<seq<A>>, yss: seq<seq<B>>, k: nat)
    requires |xss| == |yss| && k <= |xss|
    requires forall j :: 0 <= j < |xss| ==> |xss[j]| == |yss[j]|
    ensures |Concat(xss[..k])| == |Concat(yss[..k])|
    ensures k == |xss| ==> |Concat(xss)| == |Concat(yss)|
  {
    if k > 0 {
      ConcatLengths(xss, yss, k - 1);
      assert xss[..k][..k - 1] == xss[..k - 1];
      assert yss[..k][..k - 1] == yss[..k - 1];
    }
    assert xss[..|xss|] == xss && yss[..|yss|] == yss;
  }

  /** When reply `k` holds, in order, the embeddings `vectors` gives the texts
      of batch `k`, the chunks are paired with `vectors`, chunk `i` with
      `vectors[i]`: the flattening keeps chunks and embeddings aligned. */
  lemma {:induction false} EmbedChunksAligned<E>(chunks: seq<CodeChunk>, embed: seq<string> -> seq<E>, vectors: seq<E>)
    requires |vectors| == |chunks|
    requires forall k :: 0 <= k < BatchCount(|chunks|) ==>
      Replies(Texts(chunks), embed)[k] ==
        vectors[BatchSize * k .. BatchSize * k + |Batch(Texts(chunks), k)|]
    ensures Concat(Replies(Texts(chunks), embed)) == vectors
    ensures var pairs := Zip(chunks, Concat(Replies(Texts(chunks), embed)));
      |pairs| == |chunks| && forall i :: 0 <= i < |chunks| ==> pairs[i] == (chunks[i], vectors[i])
  {
    var replies := Replies(Texts(chunks), embed);
    ConcatOfSlices(replies, vectors);
  }

  /** The service embeds each text on its own: one embedding per text of the
      batch, the embedding of a text being `e` of that text. */
  ghost predicate EmbedsEach<E>(embed: seq<string> -> seq<E>, e: string -> E) {
    forall b :: |embed(b)| == |b| && forall i :: 0 <= i < |b| ==> embed(b)[i] == e(b[i])
  }

  /** The embedding of each text on its own. */
  function EmbedEach<E>(texts: seq<string>, e: string -> E): (vectors: seq<E>)
    ensures |vectors| == |texts|
    ensures forall i :: 0 <= i < |texts| ==> vectors[i] == e(texts[i])
  {
    seq(|texts|, i requires 0 <= i < |texts| => e(texts[i]))
  }

  lemma {:induction false} BatchReplies<E>(texts: seq<string>, embed: seq<string> -> seq<E>, e: string -> E)
    requires EmbedsEach(embed, e)
    ensures forall k :: 0 <= k < BatchCount(|texts|) ==>
      Replies(texts, embed)[k] == EmbedEach(texts, e)[BatchSize * k .. BatchSize * k + |Batch(texts, k)|]
  {
    forall k | 0 <= k < BatchCount(|texts|)
      ensures Replies(texts, embed)[k] ==
        EmbedEach(texts, e)[BatchSize * k .. BatchSize * k + |Batch(texts, k)|]
    {
      BatchReply(texts, embed, e, k);
    }
  }

  /** The reply to batch `k` of such a service. */
  lemma {:induction false} BatchReply<E>(texts: seq<string>, embed: seq<string> -> seq<E>, e: string -> E, k: nat)
    requires EmbedsEach(embed, e)
    requires k < BatchCount(|texts|)
    ensures embed(Batch(texts, k)) == EmbedEach(texts, e)[BatchSize * k .. BatchSize * k + |Batch(texts, k)|]
  {
    var b := Batch(texts, k);
    var r := embed(b);
    var start := BatchSize * k;
    var v := EmbedEach(texts, e);
    assert |r| == |b| && forall i :: 0 <= i < |b| ==> r[i] == e(b[i]);
    var window := texts[start .. start + |b|];
    assert b == window;
    forall i | 0 <= i < |r| ensures r[i] == v[start + i] {
      assert b[i] == window[i] == texts[start + i];
    }
    assert r == v[start .. start + |b|];
  }

  /** With such a service, chunk `i` is paired with the embedding of its own
      text, whatever batch that text was sent in. */
  lemma {:induction false} EmbedChunksPointwise<E>(chunks: seq<CodeChunk>, embed: seq<string> -> seq<E>, e: string -> E)
    requires EmbedsEach(embed, e)
    ensures var pairs := Zip(chunks, Concat(Replies(Texts(chunks), embed)));
      |pairs| == |chunks| &&
      forall i :: 0 <= i < |chunks| ==> pairs[i] == (chunks[i], e(ChunkToText(chunks[i])))
  {
    BatchReplies(Texts(chunks), embed, e);
    EmbedChunksAligned(chunks, embed, EmbedEach(Texts(chunks), e));
  }
}
