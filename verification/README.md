# Semantic code chunker and embedder, modelled in Dafny

The repository indexes a Python code base for natural-language search. It has
two steps that this project models:

- `ingestion/chunker.py` walks every `*.py` file outside a skipped directory and
  splits it into semantic units (`CodeChunk`s). Each `function_definition`
  becomes a `function` chunk, or a `method` chunk when the enclosing class
  name is non-empty.
  Each `class_definition` becomes a `class` chunk whose content is only the
  class header: everything before the first `def ` line outside a docstring.
  Each chunk carries:
  - its name (the first identifier child, or `unknown`);
  - its 1-based lines;
  - its docstring, quote- and whitespace-stripped and cut to 300 characters;
  - up to 15 distinct callee references, in first-occurrence order.
- `embeddings/voyage.py` turns each chunk into an embeddable text
  (`_chunk_to_text`). `embed_chunks` sends those texts to the embedding
  service in batches of 128 and pairs every chunk with an embedding
  (`zip`).

The tree-sitter syntax tree is a `Node` datatype. It has a `Kind` for each
node type the chunker tests: `function_definition`, `class_definition`,
`block`, `expression_statement`, `string`, `identifier`, `attribute`,
`call`, and "any other". Each node also has its children, byte offsets,
rows and text.

Operations that fill a Python list are methods. The recursive walks
(`_walk_node`, `_find_calls`) share the caller's list (`chunks`, `calls`):
their methods take the list built so far and return it extended.
`chunk_repo` and `embed_chunks` start from an empty local list
(`all_chunks`, `all_embeddings`) and their methods do the same. Its `ensures` ties the result to a specification
function: `Chunks`, `AllCalls`, `RepoChunks`, or
`Zip(chunks, Concat(Replies(..)))`. The lemmas then state the source's
promises about those functions.

Modules:

| module | file | models |
|---|---|---|
| `Wrappers` | `wrappers.dfy` | `Option` |
| `Text` | `text.dfy` | `str.strip`, `startswith`, `in`, `count`, `split("\n")`, `join` and clamped slicing, one character per byte |
| `SyntaxTree` | `syntax_tree.dfy` | the parse tree |
| `ChunkModel` | `code_chunk.dfy` | `CodeChunk`, and Python truthiness of an optional string |
| `NodeSearch` | `node_search.dfy` | `_get_node_name` and `_extract_docstring` |
| `CallRefs` | `calls.dfy` | `_find_calls` and `_extract_calls` |
| `ClassHeader` | `class_header.dfy` | the header scanner of `_extract_class` |
| `Chunker` | `chunker.dfy` | `_extract_function`, `_extract_class`, `_walk_node`, `_chunk_file`, `chunk_repo`, `SKIP_PATTERNS` and `_should_skip` |
| `Embedder` | `embedder.dfy` | `_chunk_to_text` and `embed_chunks` |

Four behaviours of the code a reader may not expect:

- A function's chunk does not end the walk. The walk goes on into the
  function's body, so nested functions are chunked too, with the
  enclosing parent class (`Chunker.NestedChunksKeepParent`).
- The docstring is not only the body's first statement. It is the first
  `string` child of any `expression_statement` of any `block` child
  (`NodeSearch.DocstringIsFirstStringInLoopOrder`).
- `.strip("\"'")` removes every leading and trailing quote character, not
  one layer (`NodeSearch.DocstringLayoutIndependent`).
- Only a stripped line starting with `def ` ends a class header. An
  `async def` line does not (`ClassHeader.AsyncDefNeverEndsHeader`).

## Model

| member | source | states |
|---|---|---|
| Text.StartsWith | ingestion/chunker.py:109 | `s.startswith(p)`: `p` is a prefix of `s` |
| Text.Contains | ingestion/chunker.py:119 | `p in s`: `p` starts at some position of `s`, tried left to right |
| Text.Count | ingestion/chunker.py:113 | a positive count of a delimiter means the line contains it |
| Text.StripChars | ingestion/chunker.py:151 | `strip(chars)` never lengthens the text; its full meaning is `StripCharsSpec` |
| Text.Strip | ingestion/chunker.py:107 | `strip()` is `strip(chars)` over whitespace, and never lengthens the text |
| Text.StripCharsSpec | ingestion/chunker.py:151 | `strip(chars)` returns a contiguous piece of the input; everything removed before and after it is in the character set; the piece neither starts nor ends with one |
| Text.TrimLeftSpec | ingestion/chunker.py:107 | left trimming removes exactly a leading run of the character set |
| Text.TrimRightSpec | ingestion/chunker.py:107 | right trimming removes exactly a trailing run of the character set |
| Text.StripAround | ingestion/chunker.py:151 | stripping runs of the set from both sides of a text that neither starts nor ends with one gives that text back |
| Text.Slice | ingestion/chunker.py:83 | `content[start:end]` is `s[a..b]` when the offsets are in order and in range, the rest of the text from `a` when `end` is past the end, and empty when `end <= start` |
| Text.SliceIsInfix | ingestion/chunker.py:83 | a chunk's content is a contiguous piece of the file text |
| Text.SplitLines | ingestion/chunker.py:100 | `split("\n")` yields at least one line, and no line holds a newline |
| Text.JoinSplitLines | ingestion/chunker.py:100-129 | joining the split lines with `"\n"` gives the text back |
| Text.SplitJoinLines | ingestion/chunker.py:100-129 | splitting a `"\n"`-join of newline-free lines gives the lines back |
| Text.SplitLinesAfterLine | embeddings/voyage.py:49 | splitting a newline-free line, `"\n"` and a rest gives that line followed by the split of the rest |
| Text.JoinWith | embeddings/voyage.py:49 | `sep.join(xs)`: the pieces with `sep` between neighbours; `JoinSplitLines`, `SplitJoinLines` and `JoinPrefix` relate it to `split` |
| Text.JoinPrefix | ingestion/chunker.py:129 | joining a prefix of the lines gives a prefix of the joined text |
| NodeSearch.FirstOfKind | ingestion/chunker.py:139-141 | the index the search loop stops at: no earlier child has the kind; the child there has it, unless the search ran off the end |
| NodeSearch.NodeName | ingestion/chunker.py:138-142 | the name is the text of the first `identifier` child, or `unknown` when there is none |
| NodeSearch.CleanDocstring | ingestion/chunker.py:151-152 | the result is at most 300 characters and a prefix of the quote- and whitespace-stripped text; it is all of that text when it fits |
| NodeSearch.ExtractDocstring | ingestion/chunker.py:144-153 | a found docstring has at most 300 characters |
| NodeSearch.StringIsFound | ingestion/chunker.py:145-152 | a `string` under an `expression_statement` of a `block` child is never missed |
| NodeSearch.DocstringAbsent | ingestion/chunker.py:144-153 | the docstring is `None` exactly when there is no such `string` |
| NodeSearch.DocstringIsFirstStringInLoopOrder | ingestion/chunker.py:144-153 | otherwise it is the cleaned text of the first such `string` in the order of the three nested loops |
| NodeSearch.DocstringLayoutIndependent | ingestion/chunker.py:151-152 | quote style and the whitespace around the text do not change the docstring |
| CallRefs.OwnCall | ingestion/chunker.py:161-167 | a node contributes one reference exactly when it is a `call` whose first child is an `identifier` or `attribute`; the reference is that child's text |
| CallRefs.FindCalls | ingestion/chunker.py:160-170 | appends exactly the subtree's references to the list, node before children |
| CallRefs.CallsArePreorderCalls | ingestion/chunker.py:160-170 | the references collected are the contributions of the subtree's nodes in depth-first pre-order |
| CallRefs.ChildCallsArePreorderCalls | ingestion/chunker.py:169-170 | the same for the subtrees of the first `i` children |
| CallRefs.OwnCallsFirst | ingestion/chunker.py:161-170 | inductive step: when the children's references equal the collection over their pre-order, the node's references equal the collection over its own pre-order, its own reference first |
| CallRefs.CollectMembers | ingestion/chunker.py:160-170 | a reference is collected from a node list exactly when one of its nodes contributes it |
| CallRefs.CallsOfSubtree | ingestion/chunker.py:160-170 | a name is found exactly when some `call` in the subtree has it as an `identifier` or `attribute` callee |
| CallRefs.FirstIndex | ingestion/chunker.py:158 | the first position of an element in the list |
| CallRefs.Dedupe | ingestion/chunker.py:158 | `dict.fromkeys`: no duplicates, and the same elements as the input |
| CallRefs.DedupeKeepsFirstOccurrenceOrder | ingestion/chunker.py:158 | the deduplicated list keeps the order of first occurrences |
| CallRefs.Take | ingestion/chunker.py:158 | `[:n]` is the first `min(n, len)` elements |
| CallRefs.CallList | ingestion/chunker.py:155-158 | the call list has no duplicates and at most 15 entries; it is a prefix of the deduplicated references; it is exactly 15 long when there are at least 15 distinct ones, and all of them when there are at most 15; it holds only references found in the subtree |
| CallRefs.ExtractCalls | ingestion/chunker.py:155-158 | `_extract_calls` returns that list |
| ClassHeader.Step | ingestion/chunker.py:107-121 | the docstring state after a kept line: a line opening `"""` or `'''` outside a docstring sets the delimiter and stays open unless the delimiter occurs twice; inside one, a line holding the delimiter closes it |
| ClassHeader.HeaderLines | ingestion/chunker.py:106-126 | the lines the loop appends, stopping at the first `def ` line outside a docstring; pinned down by `HeaderIsPrefixBeforeFirstStop` |
| ClassHeader.ClassHeaderText | ingestion/chunker.py:100-129 | the kept lines joined with `"\n"`; pinned down by `ClassHeaderCutsAtFirstDef` |
| ClassHeader.OpeningIsNotDef | ingestion/chunker.py:109-124 | a line that opens a docstring never ends the header |
| ClassHeader.HeaderLinesFrom | ingestion/chunker.py:106-126 | one loop iteration: stop on a `def ` line outside a docstring, else keep the line and move to the next state |
| ClassHeader.StopsAtShift | ingestion/chunker.py:106-126 | where the scan stops is unchanged when the first line is consumed and the state advanced |
| ClassHeader.HeaderIsPrefixBeforeFirstStop | ingestion/chunker.py:106-126 | the kept lines are a prefix of the lines; no kept line ends the header; the first line not kept does |
| ClassHeader.ClassHeaderCutsAtFirstDef | ingestion/chunker.py:99-129 | the header is the class text cut just before the first `def ` line outside a docstring; it is a prefix of the class text, and all of it when there is no such line |
| ClassHeader.HeaderSplitsIntoKeptLines | ingestion/chunker.py:100-129 | when some line is kept, splitting the header text on `"\n"` gives exactly the kept lines |
| ClassHeader.AsyncDefNeverEndsHeader | ingestion/chunker.py:123 | an `async def` line never ends the header |
| ClassHeader.StrippedLine | ingestion/chunker.py:107 | `strip()` of an indented line is its text |
| ClassHeader.PlainLine | ingestion/chunker.py:123-126 | a line not starting with a quote or `d` is kept and leaves the state alone |
| ClassHeader.QuoteLine | ingestion/chunker.py:109-121 | a bare `"""` line opens a docstring outside one and closes it inside one |
| ClassHeader.DefLine | ingestion/chunker.py:117-124 | a `def ` line ends the header outside a docstring and is kept inside one |
| ClassHeader.DocsCount | ingestion/chunker.py:110-113 | `"""Docs"""` opens with `"""` and contains it twice |
| ClassHeader.OneLineDocstringLine | ingestion/chunker.py:109-115 | a one-line docstring opens and closes on its line |
| ClassHeader.ClassLine | ingestion/chunker.py:123-126 | the `class Foo:` line is kept |
| ClassHeader.AssignmentLine | ingestion/chunker.py:123-126 | a class attribute line is kept |
| ClassHeader.MethodLine | ingestion/chunker.py:123-124 | an indented `def` line ends the header outside a docstring |
| ClassHeader.OneLineDocstringCloses | ingestion/chunker.py:106-126 | `class Foo:` / `"""Docs"""` / `def bar(self):` keeps the first two lines |
| ClassHeader.DefInsideDocstringIsKept | ingestion/chunker.py:117-121 | a `def` line inside a multi-line docstring is kept, and the scan stops at the next `def` after the docstring closes |
| Chunker.ExtractFunction | ingestion/chunker.py:81-95 | the chunk of a `function_definition`: its byte span, `method` exactly when the parent class is truthy, 1-based lines, name, parent class, docstring and call list |
| Chunker.FunctionChunkWellFormed | ingestion/chunker.py:81-95 | for a node whose last row is not before its first, that chunk is well formed (as in `ChunksWellFormed`) and never a class chunk |
| Chunker.ExtractClass | ingestion/chunker.py:97-136 | the line loop computes the class header; the chunk is a `class` chunk with that header, the node's lines, name and docstring, no parent class and no calls |
| Chunker.ClassChunkWellFormed | ingestion/chunker.py:97-136 | for a node whose last row is not before its first, that chunk is well formed |
| Chunker.WalkNode | ingestion/chunker.py:64-79 | appends exactly `Chunks` of the node: its own chunk first for a definition; then the children for a function or other node, or only the class body's `block` statements for a class |
| Chunker.WalkChildren | ingestion/chunker.py:78-79 | appends the chunks of the children's subtrees in order |
| Chunker.WalkChild | ingestion/chunker.py:78-79 | one iteration of that loop: after child `i` is walked the list holds the chunks of the first `i + 1` children's subtrees |
| Chunker.WalkClassBody | ingestion/chunker.py:72-75 | appends the chunks of the statements of each `block` child, with the class name as parent class |
| Chunker.ChunksComeFromDefinitions | ingestion/chunker.py:64-79 | every chunk is the chunk of a `function_definition` or `class_definition` node of the subtree |
| Chunker.ChildChunksComeFromDefinitions | ingestion/chunker.py:78-79 | the same for the subtrees of the first `i` children |
| Chunker.BodyChunksComeFromDefinitions | ingestion/chunker.py:72-75 | the same for the blocks of a class body |
| Chunker.BlockChunksNested | ingestion/chunker.py:72-75 | every chunk of the statements of a `block` child comes from a definition strictly inside the node |
| Chunker.NestedChunkInSubtree | ingestion/chunker.py:72-79 | a definition nested in a child is in the subtree |
| Chunker.ChunksPaired | ingestion/chunker.py:64-79 | the `k`-th chunk of the walk is the chunk of the `k`-th definition node the walk meets (`ChunkSources`) |
| Chunker.ChildChunksPaired | ingestion/chunker.py:78-79 | the same for the subtrees of the first `i` children |
| Chunker.BodyChunksPaired | ingestion/chunker.py:72-75 | the same for the blocks of a class body |
| Chunker.ChunkSourcesInPreorder | ingestion/chunker.py:64-79 | those definition nodes are the pre-order of the subtree with some nodes left out, the rest in order |
| Chunker.ChildSourcesInPreorder | ingestion/chunker.py:78-79 | the same for the subtrees of the first `i` children |
| Chunker.BodySourcesInPreorder | ingestion/chunker.py:72-75 | the same for a class body, whose non-block children and blocks make no chunk |
| Chunker.ChunksFollowPreorder | ingestion/chunker.py:64-79 | depth-first pre-order: there are strictly increasing positions of the subtree's pre-order, one per chunk, each holding the definition that chunk is made of |
| Chunker.DefinitionChunkComesFirst | ingestion/chunker.py:64-79 | pre-order: a definition's own chunk is first; every later chunk comes from a definition strictly inside it |
| Chunker.ChunksWellFormed | ingestion/chunker.py:64-136 | over a tree whose nodes all end on or after the row they start on, every chunk has the file's path and a content that is a piece of the file, a start line from 1 and an end line not before it, at most 15 distinct calls and a docstring of at most 300 characters; it is a `method` exactly when its parent class is truthy; a class chunk has no parent and no calls |
| Chunker.ChildChunksInclude | ingestion/chunker.py:78-79 | every chunk of a child's subtree is among the children's chunks |
| Chunker.NestedChunksKeepParent | ingestion/chunker.py:64-79 | for a node that is not a class, every chunk of a child's subtree, made with the same parent class, is a chunk of the node; so a function nested in a function is chunked too |
| Chunker.BlockStatementChunksInClass | ingestion/chunker.py:72-75 | every chunk of a statement of a class body's `block`, walked with the class name as parent class, is a chunk of the class |
| Chunker.MethodsCarryTheirClass | ingestion/chunker.py:68-75 | a function among the statements of a class body is chunked with the class name as parent class, and as a `method` when the name is non-empty |
| Chunker.BodyChunksInclude | ingestion/chunker.py:72-75 | the chunks of every `block` child are among the class body's chunks |
| Chunker.ClassWithoutBlock | ingestion/chunker.py:68-76 | a class with no `block` child yields its own chunk only |
| Chunker.NoBlockNoBody | ingestion/chunker.py:72-75 | children that are not blocks contribute nothing |
| Chunker.ChunkFile | ingestion/chunker.py:54-62 | no chunks when parsing failed, else the walk of the root with no parent class |
| Chunker.ChunkRepo | ingestion/chunker.py:33-49 | the concatenation, file by file, of the chunks of every file that is not skipped and was read |
| Chunker.RepoChunksAppend | ingestion/chunker.py:35-49 | the chunks of two runs of files are the chunks of each run, in order |
| Chunker.RepoChunksFromFiles | ingestion/chunker.py:33-49 | every chunk comes from a file that is not skipped and was read and parsed, and carries that file's relative path |
| Chunker.ShouldSkip | ingestion/chunker.py:51-52 | a path is skipped exactly when one of its components equals a skip pattern |
| Chunker.ShouldSkipSplit | ingestion/chunker.py:51-52 | a path is skipped exactly when a component of either part of it is a skip pattern |
| Chunker.VenvIsSkipped | ingestion/chunker.py:25-28 | a file under a `venv` directory is skipped |
| Chunker.EggInfoSuffixIsKept | ingestion/chunker.py:51-52 | a component is matched whole: `pkg.egg-info` is not skipped by the `egg-info` pattern |
| Embedder.Heading | embeddings/voyage.py:34-39 | the heading line: `Method <name> in class <parent>` for a truthy parent class, else `Class <name>` for a class chunk, else `Function <name>`; related to the chunk type by `HeadingFollowsChunkType` |
| Embedder.ChunkToText | embeddings/voyage.py:30-49 | the parts joined with `"\n"`; laid out by `ChunkToTextLayout` and `FirstLineIsHeading` |
| Embedder.Parts | embeddings/voyage.py:32-47 | two to four parts, the heading first and `Code:` with the content last |
| Embedder.ChunkToTextLayout | embeddings/voyage.py:30-49 | the text is the heading, a newline, the description line and calls line when present, then `Code:`, a newline and the content |
| Embedder.OptionalParts | embeddings/voyage.py:41-45 | a `Description:` part is present exactly when the docstring is non-empty, and a `Calls:` part exactly when there are calls, the calls `", "`-joined |
| Embedder.HeadingFollowsChunkType | embeddings/voyage.py:34-39 | for a chunk as the chunker makes it, the text starts with `Method <name> in class `, `Class <name>` or `Function <name>` according to its type |
| Embedder.HeadingIsPrefix | embeddings/voyage.py:34-49 | the text starts with the heading |
| Embedder.FirstLineIsHeading | embeddings/voyage.py:34-49 | the heading is the first line of the text, and the text ends with `Code:` and the content |
| Embedder.Texts | embeddings/voyage.py:15 | one text per chunk, in order |
| Embedder.Batch | embeddings/voyage.py:18-19 | batch `k` is `texts[128k : 128k+128]` cut at the end: one to 128 texts, and 128 unless it is the last |
| Embedder.Batches | embeddings/voyage.py:18-19 | one batch per loop iteration, `⌈n/128⌉` of them |
| Embedder.Replies | embeddings/voyage.py:20 | the service's reply to each batch, in order |
| Embedder.Zip | embeddings/voyage.py:23 | `zip` pairs elements position by position, up to the shorter list |
| Embedder.EmbedChunks | embeddings/voyage.py:13-23 | the loop sends each batch once, in order, and pairs the chunks with the concatenated replies |
| Embedder.ConcatOfSlices | embeddings/voyage.py:18-21 | lists that are consecutive 128-slices of a list concatenate to that list |
| Embedder.BatchesPartition | embeddings/voyage.py:18-19 | the batches are consecutive slices, each non-empty and at most 128 long, all but the last full, and together exactly the texts |
| Embedder.BatchCountIsCeiling | embeddings/voyage.py:18 | the batches cover every text, and one fewer would not |
| Embedder.EmbeddingCount | embeddings/voyage.py:17-23 | when each reply has one embedding per text, every chunk is paired |
| Embedder.ConcatLengths | embeddings/voyage.py:21 | replies as long as their batches concatenate to a list as long as the texts |
| Embedder.EmbedChunksAligned | embeddings/voyage.py:17-23 | when reply `k` holds the embeddings of batch `k`'s texts in order, chunk `i` is paired with the embedding of text `i` |
| Embedder.BatchReply | embeddings/voyage.py:18-20 | a service that embeds texts one by one replies to batch `k` with the embeddings of texts `128k` onwards, as many as the batch holds |
| Embedder.BatchReplies | embeddings/voyage.py:18-21 | a service that embeds texts one by one replies to each batch with the embeddings of its texts |
| Embedder.EmbedChunksPointwise | embeddings/voyage.py:13-23 | with such a service, every chunk is paired with the embedding of its own text |

## Left out

- Parsing is not modelled. The tree-sitter tree is an input, and a parse that raised is `None`.
- `SyntaxTree.Kind` collapses every node type the chunker does not test into one value.
- `ChunkModel.ChunkType` stands for the `"function"`, `"method"` and `"class"` strings.
- The file system walk is not modelled: `rglob("*.py")`, `read_text` and `relative_to`. `Chunker.ChunkRepo` takes the files found, in the order found. Each file has its path components, its relative path and either its text and tree or `Unreadable`.
- Chunker.ChunkRepo: exceptions raised while walking a file's tree are not modelled; the code skips such a file. Examples are a `RecursionError` on a very deep tree, or a failed `.decode()`.
- Text.Slice: byte offsets are read as character positions, so the model is exact only for ASCII text. `.decode()` of a node's text is the identity.
- Text.Strip: `str.strip()` uses the ASCII whitespace that Python's `isspace` accepts; other Unicode spaces are not stripped.
- Chunker.ChunksWellFormed: assumes every node ends on or after the row it starts on (`RowsOrdered`); tree-sitter guarantees this, and the model takes it as a precondition. FunctionChunkWellFormed and ClassChunkWellFormed assume the same of their node.
- CallRefs.OwnCall: `if func:` on a tree-sitter node is modelled as "the call has a child". A node object is always truthy.
- The walk's loops are separate methods (`Chunker.WalkChildren`, `Chunker.WalkClassBody`) called from `Chunker.WalkNode`; the body of the loop over the children is a method of its own (`Chunker.WalkChild`). The shared Python lists are passed in and returned.
- `embed_query` is not modelled: it is a single call into the service.
- The embedding service is a function parameter from a batch of texts to a list of embeddings of an opaque type. The Voyage client is not modelled, nor its model name, `input_type`, network errors or the floats inside an embedding.
- Embedder.EmbedChunks: pairs with however many embeddings the service returns, as `zip` does. A full pairing is proved only for a service that returns one embedding per text (`Embedder.EmbeddingCount`).
- `main.py`, the GitHub fetcher, the vector store and the search engine are not part of this model.
