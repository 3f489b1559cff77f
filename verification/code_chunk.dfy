/** The record the chunker emits for one function, method or class. */
module ChunkModel {
  import opened Wrappers

  /** The `chunk_type` values: "function", "method" and "class". */
  datatype ChunkType = Function | Method | Class

  datatype CodeChunk = CodeChunk(
    content: string,
    chunkType: ChunkType,
    filePath: string,
    startLine: nat,
    endLine: nat,
    name: string,
    parentClass: Option<string>,
    docstring: Option<string>,
    calls: seq<string>)

  /** Two chunks are equal when their fields are. */
  lemma {:induction false} SameChunk(a: CodeChunk, b: CodeChunk)
    requires a.content == b.content && a.chunkType == b.chunkType && a.filePath == b.filePath
    requires a.startLine == b.startLine && a.endLine == b.endLine && a.name == b.name
    requires a.parentClass == b.parentClass && a.docstring == b.docstring && a.calls == b.calls
    ensures a == b
  {
  }

  /** Python truthiness of an `Optional[str]`: present and non-empty. */
  predicate Truthy(s: Option<string>) {
    s.Some? && s.value != []
  }
}
