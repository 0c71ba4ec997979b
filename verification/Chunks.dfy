/** The chunk shapes that flow through the packing and exact-splitting passes. */
module Chunks {
  import opened Common

  datatype Chunk = Chunk(
    ord: int,
    anchor: Option<string>,
    text: string,
    definitionText: Option<string>,
    tokenCount: nat,
    tokenIds: Option<seq<int>>,
    headingContext: Option<string>)

  const PARAGRAPH_BREAK := "\n\n"

  /** A heading context, when present, opens the text together with a paragraph break. */
  predicate ContextOpensText(context: Option<string>, text: string) {
    context.Some? ==> context.value + PARAGRAPH_BREAK <= text
  }
}
