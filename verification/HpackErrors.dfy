module HpackErrors {
  import HuffmanStrings

  datatype HpackError =
    | Incomplete
    | InvalidInteger
    | InvalidHuffman(error: HuffmanStrings.HuffmanError)
    | InvalidIndex(index: nat)
    | InvalidTableSize
}
