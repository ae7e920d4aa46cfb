/** The IDs symbols are known by in the index, the call graph and the embeddings. */
module SymbolIds {

  datatype Id = Id(name: string)
}
