/**
  The parsed syntax tree the chunker consumes. The parser itself is a foreign
  library; here a tree is a given value. Each node carries its grammar type,
  its ordered children, its byte span in the file, its 0-based first and last
  row, and its own source text.
 */
module SyntaxTree {

  /** The grammar types the chunker tells apart (`function_definition`,
      `class_definition`, `block`, `expression_statement`, `string`,
      `identifier`, `attribute`, `call`); every other type is `Other`. */
  datatype Kind =
    | FunctionDefinition
    | ClassDefinition
    | Block
    | ExpressionStatement
    | StringLiteral
    | Identifier
    | Attribute
    | Call
    | Other

  datatype Node = Node(
    kind: Kind,
    children: seq<Node>,
    startByte: nat,
    endByte: nat,
    startRow: nat,
    endRow: nat,
    text: string)

}
