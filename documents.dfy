/** The records passed between the vector-store layers: chunk metadata and
    the `{content, metadata, distance}` dictionaries retrieval produces. */
module Documents {

  /** A metadata value as the vector store keeps it. Distances and float
      metadata are carried through, never computed on. */
  datatype MetaValue = MStr(s: string) | MInt(i: int) | MFloat(f: real) | MBool(b: bool)

  type Metadata = map<string, MetaValue>

  /** One retrieved document. */
  datatype Doc = Doc(content: string, metadata: Metadata, distance: real)
}
