/** Strings and header fields as bytes: what the encoder writes, and what the decoder makes of any input. */
module HpackCoding {
  import opened Bytes
  import opened Bits
  import opened PrefixCodes
  import opened HuffmanTable
  import opened HuffmanStrings
  import opened HpackErrors
  import opened Integers
  import opened Tables
  import StaticTable

  /** The two fixed tables of the format. */
  datatype Codec = Codec(predefined: seq<HeaderField>, huffman: Table) {
    ghost predicate Valid() {
      |predefined| == StaticTable.STATIC_LEN + 1 && FittingTable(huffman) && HpackCode(Book(huffman))
    }
  }

  /** The tables of the standard. */
  const RFC7541 := Codec(StaticTable.ENTRIES, HUFFMAN_ENCODE)

  lemma StandardIsValid()
    ensures RFC7541.Valid()
  {
    TableIsFitting();
    BookIsHpackCode();
  }

  // ----- Strings -----

  /** Huffman coding is used when it is enabled and makes the string strictly shorter. */
  function StringBytes(cx: Codec, useHuffman: bool, s: seq<byte>): seq<byte>
    requires |cx.huffman| == SYMBOLS
  {
    var coded := EncodedString(Book(cx.huffman), s);
    if useHuffman && |coded| < |s| then IntegerBytes(|coded|, 7, 0x80) + coded
    else IntegerBytes(|s|, 7, 0) + s
  }

  type StringResult = Result<(seq<byte>, nat), HpackError>

  function StringEnd(consumed: nat, length: nat, available: nat): (r: Result<nat, HpackError>)
    ensures r.Ok? ==> r.value == consumed + length <= available
    ensures r == Err(InvalidInteger) <==> consumed + length > USIZE_MAX
    ensures r == Err(Incomplete) <==> available < consumed + length <= USIZE_MAX
    ensures r.Err? ==> r.error in {InvalidInteger, Incomplete}
  {
    var end := consumed + length;
    if end > USIZE_MAX then Err(InvalidInteger)
    else if end > available then Err(Incomplete)
    else Ok(end)
  }

  ghost function StringOf(cx: Codec, data: seq<byte>): (r: StringResult)
    requires |cx.huffman| == SYMBOLS
    ensures r.Ok? ==> 1 <= r.value.1 <= |data|
  {
    if data == [] then Err(Incomplete)
    else
      match Integer(data, 7)
      case Err(e) => Err(e)
      case Ok((length, consumed)) =>
        match StringEnd(consumed, length, |data|)
        case Err(e) => Err(e)
        case Ok(end) =>
          if data[0] >= 0x80 then
            match Decoded(Book(cx.huffman), Unpack(data[consumed..end]))
            case Ok(s) => Ok((s, end))
            case Err(e) => Err(InvalidHuffman(e))
          else Ok((data[consumed..end], end))
  }

  // ----- Encoding a field -----

  /** The index of a dynamic table entry comes after those of the static table. */
  function DynamicIndex(i: nat): nat {
    StaticTable.STATIC_LEN + 1 + i
  }

  datatype Representation = Indexed(index: nat) | NameIndexed(index: nat) | NewName

  /** An exact match is best, in the static table first; then a name match, in the same order. */
  function Choose(inStatic: Option<(nat, bool)>, inDynamic: Option<(nat, bool)>): Representation {
    if inStatic.Some? && inStatic.value.1 then Indexed(inStatic.value.0)
    else if inDynamic.Some? && inDynamic.value.1 then Indexed(DynamicIndex(inDynamic.value.0))
    else if inStatic.Some? then NameIndexed(inStatic.value.0)
    else if inDynamic.Some? then NameIndexed(DynamicIndex(inDynamic.value.0))
    else NewName
  }

  function Represent(cx: Codec, t: TableView, h: HeaderField): Representation {
    Choose(Search(cx.predefined, h, 1), Search(t.entries, h, 0))
  }

  /** The table after encoding `h`, and the bytes written for it. */
  function FieldBytes(cx: Codec, t: TableView, useHuffman: bool, h: HeaderField): (TableView, seq<byte>)
    requires |cx.huffman| == SYMBOLS
  {
    match Represent(cx, t, h)
    case Indexed(i) => (t, IntegerBytes(i, 7, 0x80))
    case NameIndexed(i) => (t.Inserted(h), IntegerBytes(i, 6, 0x40) + StringBytes(cx, useHuffman, h.value))
    case NewName =>
      (t.Inserted(h), [0x40] + StringBytes(cx, useHuffman, h.name) + StringBytes(cx, useHuffman, h.value))
  }

  function BlockBytes(cx: Codec, t: TableView, useHuffman: bool, headers: seq<HeaderField>): (TableView, seq<byte>)
    requires |cx.huffman| == SYMBOLS
    decreases |headers|
  {
    if headers == [] then (t, [])
    else
      var (t', first) := FieldBytes(cx, t, useHuffman, headers[0]);
      var (t'', rest) := BlockBytes(cx, t', useHuffman, headers[1..]);
      (t'', first + rest)
  }

  function SizeUpdateBytes(size: nat): seq<byte> {
    IntegerBytes(size, 5, 0x20)
  }

  // ----- Decoding a field -----

  /** What one representation yields: a field, or nothing for a size update; and the bytes it took. */
  type FieldResult = Result<(Option<HeaderField>, nat), HpackError>

  function Lookup(cx: Codec, entries: seq<HeaderField>, index: nat): Result<HeaderField, HpackError>
    requires |cx.predefined| == StaticTable.STATIC_LEN + 1
  {
    if index == 0 then Err(InvalidIndex(0))
    else if index <= StaticTable.STATIC_LEN then Ok(cx.predefined[index])
    else
      var i := index - StaticTable.STATIC_LEN - 1;
      if i < |entries| then Ok(entries[i]) else Err(InvalidIndex(index))
  }

  function IndexedOf(cx: Codec, entries: seq<HeaderField>, data: seq<byte>): (r: FieldResult)
    requires |cx.predefined| == StaticTable.STATIC_LEN + 1
    ensures r.Ok? ==> r.value.0.Some? && 1 <= r.value.1 <= |data|
  {
    match Integer(data, 7)
    case Err(e) => Err(e)
    case Ok((index, consumed)) =>
      match Lookup(cx, entries, index)
      case Err(e) => Err(e)
      case Ok(h) => Ok((Some(h), consumed))
  }

  ghost function NameOf(cx: Codec, entries: seq<HeaderField>, data: seq<byte>, n: nat): (r: StringResult)
    requires cx.Valid() && PrefixWidth(n)
    ensures r.Ok? ==> 1 <= r.value.1 <= |data|
  {
    match Integer(data, n)
    case Err(e) => Err(e)
    case Ok((index, consumed)) =>
      if index > 0 then
        match Lookup(cx, entries, index)
        case Err(e) => Err(e)
        case Ok(h) => Ok((h.name, consumed))
      else
        match StringOf(cx, data[consumed..])
        case Err(e) => Err(e)
        case Ok((name, c)) => Ok((name, consumed + c))
  }

  /** A literal: a name, given by index or spelled out, and a value. */
  ghost function LiteralOf(cx: Codec, entries: seq<HeaderField>, data: seq<byte>, n: nat): (r: FieldResult)
    requires cx.Valid() && PrefixWidth(n)
    ensures r.Ok? ==> r.value.0.Some? && 1 <= r.value.1 <= |data|
  {
    match NameOf(cx, entries, data, n)
    case Err(e) => Err(e)
    case Ok((name, consumed)) =>
      match StringOf(cx, data[consumed..])
      case Err(e) => Err(e)
      case Ok((value, c)) => Ok((Some(HeaderField(name, value)), consumed + c))
  }

  /** The table after one representation, whether it was understood or not, and what it yields. */
  ghost function FieldOf(cx: Codec, t: TableView, limit: nat, data: seq<byte>): (r: (TableView, FieldResult))
    requires cx.Valid()
    ensures r.1.Ok? ==> 1 <= r.1.value.1 <= |data|
    ensures t.Valid() ==> r.0.Valid()
  {
    if data == [] then (t, Err(Incomplete))
    else if data[0] >= 0x80 then (t, IndexedOf(cx, t.entries, data))
    else if data[0] >= 0x40 then
      var r := LiteralOf(cx, t.entries, data, 6);
      (if r.Ok? then t.Inserted(r.value.0.value) else t, r)
    else if data[0] >= 0x20 then
      match Integer(data, 5)
      case Err(e) => (t, Err(e))
      case Ok((size, consumed)) =>
        if size > limit then (t, Err(InvalidTableSize))
        else (t.Resized(size), Ok((None, consumed)))
    else (t, LiteralOf(cx, t.entries, data, 4))
  }

  type BlockResult = Result<seq<HeaderField>, HpackError>

  /** The table and the fields after a whole block; the first error stops it. */
  ghost function BlockOf(cx: Codec, t: TableView, limit: nat, data: seq<byte>): (r: (TableView, BlockResult))
    requires cx.Valid()
    ensures t.Valid() ==> r.0.Valid()
    decreases |data|
  {
    if data == [] then (t, Ok([]))
    else
      match FieldOf(cx, t, limit, data)
      case (t', Err(e)) => (t', Err(e))
      case (t', Ok((field, consumed))) =>
        match BlockOf(cx, t', limit, data[consumed..])
        case (t'', Err(e)) => (t'', Err(e))
        case (t'', Ok(rest)) => (t'', Ok(if field.Some? then [field.value] + rest else rest))
  }
}
