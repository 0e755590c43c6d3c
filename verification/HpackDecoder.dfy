/** The HPACK decoder: a loop over representations that keeps its own dynamic table. */
module HpackDecoder {
  import opened Bytes
  import opened Bits
  import opened HuffmanTable
  import opened HuffmanStrings
  import HuffmanDecode
  import opened HpackErrors
  import opened Integers
  import opened Tables
  import opened StaticTable
  import opened HpackCoding

  class Decoder {
    const cx: Codec
    const table: DynamicTable
    var maxTableSize: nat

    ghost predicate Valid()
      reads this, table
    {
      cx.Valid() && table.Valid()
    }

    constructor (cx: Codec, size: nat)
      requires cx.Valid()
      ensures Valid() && fresh(table) && this.cx == cx
      ensures table.View() == TableView([], size) && maxTableSize == size
    {
      this.cx := cx;
      table := new DynamicTable(size);
      maxTableSize := size;
    }

    method SetMaxTableSize(size: nat)
      requires Valid()
      modifies this
      ensures Valid() && maxTableSize == size
    {
      maxTableSize := size;
    }

    /** Decodes a block. The table is valid afterwards even if an error stops the block midway. */
    method Decode(data: seq<byte>) returns (r: BlockResult)
      requires Valid()
      modifies table
      ensures Valid() && (table.View(), r) == BlockOf(cx, old(table.View()), maxTableSize, data)
    {
      CollectedFromStart(cx, table.View(), maxTableSize, data);
      var headers: seq<HeaderField> := [];
      var left := data;
      while left != []
        invariant Valid()
        invariant Collected(cx, old(table.View()), maxTableSize, data, [])
                  == Collected(cx, table.View(), maxTableSize, left, headers)
        decreases |left|
      {
        var step := DecodeHeader(left);
        if step.Err? {
          return Err(step.error);
        }
        var (field, consumed) := step.value;
        if field.Some? {
          headers := headers + [field.value];
        }
        left := left[consumed..];
      }
      return Ok(headers);
    }

    method DecodeHeader(data: seq<byte>) returns (r: FieldResult)
      requires Valid()
      modifies table
      ensures Valid() && (table.View(), r) == FieldOf(cx, old(table.View()), maxTableSize, data)
    {
      if data == [] {
        return Err(Incomplete);
      }
      if data[0] >= 0x80 {
        r := DecodeIndexed(data);
      } else if data[0] >= 0x40 {
        r := DecodeLiteral(data, 6);
        if r.Ok? {
          table.Insert(r.value.0.value);
        }
      } else if data[0] >= 0x20 {
        r := DecodeTableSizeUpdate(data);
      } else {
        r := DecodeLiteral(data, 4);
      }
    }

    method DecodeIndexed(data: seq<byte>) returns (r: FieldResult)
      requires Valid()
      ensures r == IndexedOf(cx, table.entries, data)
    {
      var index := DecodeInteger(USIZE_BITS, USIZE_MAX, data, 7);
      match index
      case Err(e) => return Err(e);
      case Ok((i, consumed)) =>
        match GetHeader(i) {
          case Err(e) => return Err(e);
          case Ok(h) => return Ok((Some(h), consumed));
        }
    }

    /** Both kinds of literal; only the caller of the indexed kind inserts the field. */
    method DecodeLiteral(data: seq<byte>, n: nat) returns (r: FieldResult)
      requires Valid() && PrefixWidth(n)
      ensures r == LiteralOf(cx, table.entries, data, n)
    {
      var name := DecodeName(data, n);
      if name.Err? {
        return Err(name.error);
      }
      var consumed := name.value.1;
      var v := DecodeString(data[consumed..]);
      if v.Err? {
        return Err(v.error);
      }
      return Ok((Some(HeaderField(name.value.0, v.value.0)), consumed + v.value.1));
    }

    /** The name of a literal: by index, or spelled out if the index is 0. */
    method DecodeName(data: seq<byte>, n: nat) returns (r: StringResult)
      requires Valid() && PrefixWidth(n)
      ensures r == NameOf(cx, table.entries, data, n)
    {
      var index := DecodeInteger(USIZE_BITS, USIZE_MAX, data, n);
      if index.Err? {
        return Err(index.error);
      }
      var (nameIndex, consumed) := index.value;
      if nameIndex > 0 {
        match GetHeader(nameIndex) {
          case Err(e) => return Err(e);
          case Ok(h) => return Ok((h.name, consumed));
        }
      }
      var s := DecodeString(data[consumed..]);
      if s.Err? {
        return Err(s.error);
      }
      return Ok((s.value.0, consumed + s.value.1));
    }

    method DecodeTableSizeUpdate(data: seq<byte>) returns (r: FieldResult)
      requires Valid() && data != [] && 0x20 <= data[0] < 0x40
      modifies table
      ensures Valid() && (table.View(), r) == FieldOf(cx, old(table.View()), maxTableSize, data)
    {
      var size := DecodeInteger(USIZE_BITS, USIZE_MAX, data, 5);
      match size
      case Err(e) => return Err(e);
      case Ok((newSize, consumed)) =>
        if newSize > maxTableSize {
          return Err(InvalidTableSize);
        }
        table.SetMaxSize(newSize);
        return Ok((None, consumed));
    }

    function GetHeader(index: nat): (r: Result<HeaderField, HpackError>)
      requires |cx.predefined| == STATIC_LEN + 1
      reads this, table
      ensures r == Lookup(cx, table.entries, index)
    {
      if index == 0 then Err(InvalidIndex(0))
      else if index <= STATIC_LEN then
        match StaticTable.Get(cx.predefined, index)
        case None => Err(InvalidIndex(index))
        case Some(h) => Ok(h)
      else
        match table.Get(index - STATIC_LEN - 1)
        case None => Err(InvalidIndex(index))
        case Some(h) => Ok(h)
    }

    method DecodeString(data: seq<byte>) returns (r: StringResult)
      requires Valid()
      ensures r == StringOf(cx, data)
    {
      if data == [] {
        return Err(Incomplete);
      }
      var length := DecodeInteger(USIZE_BITS, USIZE_MAX, data, 7);
      if length.Err? {
        return Err(length.error);
      }
      var consumed := length.value.1;
      var end := StringEnd(consumed, length.value.0, |data|);
      if end.Err? {
        return Err(end.error);
      }
      var stringData := data[consumed..end.value];
      if data[0] >= 0x80 {
        var decoded := new ByteBuffer();
        var h := HuffmanDecode.Decode(cx.huffman, stringData, decoded);
        if h.Err? {
          return Err(InvalidHuffman(h.error));
        }
        ghost var s := Decoded(Book(cx.huffman), Unpack(stringData));
        assert [] + s.value == s.value;
        return Ok((decoded.bytes, end.value));
      } else {
        return Ok((stringData, end.value));
      }
    }
  }

  /** The outcome of the rest of a block, when the fields before it have been collected already. */
  ghost function Collected(cx: Codec, t: TableView, limit: nat, data: seq<byte>,
                           headers: seq<HeaderField>): (TableView, BlockResult)
    requires cx.Valid()
    decreases |data|
  {
    if data == [] then (t, Ok(headers))
    else
      match FieldOf(cx, t, limit, data)
      case (t', Err(e)) => (t', Err(e))
      case (t', Ok((field, consumed))) =>
        Collected(cx, t', limit, data[consumed..], if field.Some? then headers + [field.value] else headers)
  }

  lemma {:induction false} CollectedIsBlock(cx: Codec, t: TableView, limit: nat, data: seq<byte>,
                                            headers: seq<HeaderField>)
    requires cx.Valid()
    ensures var (t', r) := BlockOf(cx, t, limit, data);
            Collected(cx, t, limit, data, headers) == (t', if r.Ok? then Ok(headers + r.value) else r)
    decreases |data|
  {
    if data == [] {
      assert headers + [] == headers;
    } else {
      var (t', r) := FieldOf(cx, t, limit, data);
      if r.Ok? {
        var (field, consumed) := r.value;
        if field.Some? {
          CollectedIsBlock(cx, t', limit, data[consumed..], headers + [field.value]);
          var rest := BlockOf(cx, t', limit, data[consumed..]).1;
          if rest.Ok? {
            AppendAssociates(headers, [field.value], rest.value);
          }
        } else {
          CollectedIsBlock(cx, t', limit, data[consumed..], headers);
        }
      }
    }
  }

  lemma CollectedFromStart(cx: Codec, t: TableView, limit: nat, data: seq<byte>)
    requires cx.Valid()
    ensures Collected(cx, t, limit, data, []) == BlockOf(cx, t, limit, data)
  {
    CollectedIsBlock(cx, t, limit, data, []);
    var r := BlockOf(cx, t, limit, data).1;
    if r.Ok? {
      NothingBefore(r.value);
    }
  }

  lemma NothingBefore(headers: seq<HeaderField>)
    ensures [] + headers == headers
  {
  }
}
