/** The HPACK encoder: it searches the tables, appends the chosen representation, and keeps its own table. */
module HpackEncoder {
  import opened Bytes
  import opened PrefixCodes
  import Huffman
  import opened Integers
  import opened Tables
  import opened HpackCoding
  import opened HpackSession

  class Encoder {
    const cx: Codec
    const table: DynamicTable
    var useHuffman: bool

    ghost predicate Valid()
      reads this, table
    {
      cx.Valid() && table.Valid()
    }

    ghost function View(): EncoderView
      reads this, table
    {
      EncoderView(table.View(), useHuffman)
    }

    constructor (cx: Codec, size: nat)
      requires cx.Valid()
      ensures Valid() && fresh(table) && this.cx == cx
      ensures View() == EncoderView(TableView([], size), true)
    {
      this.cx := cx;
      table := new DynamicTable(size);
      useHuffman := true;
    }

    method DoSetHuffman(on: bool)
      requires Valid()
      modifies this
      ensures Valid() && View() == Acted(cx, old(View()), SetHuffman(on)).0
    {
      useHuffman := on;
    }

    method DoSetTableSize(size: nat)
      requires Valid()
      modifies table
      ensures Valid() && View() == Acted(cx, old(View()), SetTableSize(size)).0
    {
      table.SetMaxSize(size);
    }

    /** Appends a block for the given fields. */
    method Encode(headers: seq<HeaderField>, buf: ByteBuffer)
      requires Valid()
      modifies table, buf
      ensures Valid()
      ensures (table.View(), buf.bytes) ==
                Preceded(old(buf.bytes), BlockBytes(cx, old(table.View()), useHuffman, headers))
    {
      assert headers[0..] == headers;
      for i := 0 to |headers|
        invariant Valid()
        invariant Preceded(old(buf.bytes), BlockBytes(cx, old(table.View()), useHuffman, headers))
                  == Preceded(buf.bytes, BlockBytes(cx, table.View(), useHuffman, headers[i..]))
      {
        PrecededStep(cx, table.View(), useHuffman, headers, i, buf.bytes);
        EncodeHeader(headers[i], buf);
      }
      PrecededEnd(cx, table.View(), useHuffman, headers[|headers|..], buf.bytes);
    }

    method EncodeHeader(h: HeaderField, buf: ByteBuffer)
      requires Valid()
      modifies table, buf
      ensures Valid()
      ensures (table.View(), buf.bytes) ==
                Preceded(old(buf.bytes), FieldBytes(cx, old(table.View()), useHuffman, h))
    {
      var inStatic := FindEntry(cx.predefined, h.name, h.value, 1);
      var inDynamic := table.Find(h.name, h.value);
      match Choose(inStatic, inDynamic)
      case Indexed(i) =>
        EncodeIndexed(i, buf);
      case NameIndexed(i) =>
        EncodeLiteralIndexed(i, h.value, buf);
        table.Insert(h);
      case NewName =>
        EncodeLiteralNew(h.name, h.value, buf);
        table.Insert(h);
    }

    method EncodeIndexed(index: nat, buf: ByteBuffer)
      modifies buf
      ensures buf.bytes == old(buf.bytes) + IntegerBytes(index, 7, 0x80)
    {
      EncodeInteger(index, 7, 0x80, buf);
    }

    method EncodeLiteralIndexed(nameIndex: nat, value: seq<byte>, buf: ByteBuffer)
      requires Valid()
      modifies buf
      ensures buf.bytes == old(buf.bytes) + (IntegerBytes(nameIndex, 6, 0x40) + StringBytes(cx, useHuffman, value))
    {
      EncodeInteger(nameIndex, 6, 0x40, buf);
      EncodeString(value, buf);
    }

    method EncodeLiteralNew(name: seq<byte>, value: seq<byte>, buf: ByteBuffer)
      requires Valid()
      modifies buf
      ensures buf.bytes ==
                old(buf.bytes) + ([0x40] + StringBytes(cx, useHuffman, name) + StringBytes(cx, useHuffman, value))
    {
      buf.PutU8(0x40);
      EncodeString(name, buf);
      EncodeString(value, buf);
    }

    method EncodeString(data: seq<byte>, buf: ByteBuffer)
      requires Valid()
      modifies buf
      ensures buf.bytes == old(buf.bytes) + StringBytes(cx, useHuffman, data)
    {
      if useHuffman {
        var huffmanLen := Huffman.EncodedLen(cx.huffman, data);
        if huffmanLen < |data| {
          EncodeInteger(huffmanLen, 7, 0x80, buf);
          Huffman.Encode(cx.huffman, data, buf);
          return;
        }
      }
      EncodeInteger(|data|, 7, 0, buf);
      buf.Extend(data);
    }

    /** Announces a table size to the decoder; the encoder's own table keeps its size. */
    method EncodeTableSizeUpdate(size: nat, buf: ByteBuffer)
      requires Valid()
      modifies buf
      ensures Valid() && View() == Acted(cx, old(View()), SizeUpdate(size)).0
      ensures buf.bytes == old(buf.bytes) + Acted(cx, old(View()), SizeUpdate(size)).1
    {
      EncodeInteger(size, 5, 0x20, buf);
    }
  }

  ghost function Preceded(done: seq<byte>, rest: (TableView, seq<byte>)): (TableView, seq<byte>) {
    (rest.0, done + rest.1)
  }

  lemma PrecededEnd(cx: Codec, t: TableView, useHuffman: bool, headers: seq<HeaderField>, done: seq<byte>)
    requires |cx.huffman| == SYMBOLS && headers == []
    ensures Preceded(done, BlockBytes(cx, t, useHuffman, headers)) == (t, done)
  {
    assert done + [] == done;
  }

  lemma PrecededStep(cx: Codec, t: TableView, useHuffman: bool, headers: seq<HeaderField>, i: nat, done: seq<byte>)
    requires |cx.huffman| == SYMBOLS && i < |headers|
    ensures var (t', first) := FieldBytes(cx, t, useHuffman, headers[i]);
            Preceded(done, BlockBytes(cx, t, useHuffman, headers[i..]))
            == Preceded(done + first, BlockBytes(cx, t', useHuffman, headers[i + 1..]))
  {
    var (t', first) := FieldBytes(cx, t, useHuffman, headers[i]);
    assert headers[i..][1..] == headers[i + 1..];
    var rest := BlockBytes(cx, t', useHuffman, headers[i + 1..]).1;
    assert done + (first + rest) == done + first + rest;
  }

  /** Encoding a list of fields is the run of one action per field. */
  function FieldActions(headers: seq<HeaderField>): seq<Action> {
    seq(|headers|, i requires 0 <= i < |headers| => Field(headers[i]))
  }

  lemma {:induction false} BlockIsRun(cx: Codec, e: EncoderView, headers: seq<HeaderField>)
    requires |cx.huffman| == SYMBOLS
    ensures var (t, bytes) := BlockBytes(cx, e.table, e.useHuffman, headers);
            Written(cx, e, FieldActions(headers)) == (e.(table := t), bytes)
    ensures Sent(FieldActions(headers)) == headers
    decreases |headers|
  {
    if headers != [] {
      var e' := Acted(cx, e, Field(headers[0])).0;
      assert FieldActions(headers)[1..] == FieldActions(headers[1..]);
      BlockIsRun(cx, e', headers[1..]);
    }
  }

  lemma {:induction false} FieldsAdmissible(encMax: nat, decMax: nat, limit: nat, headers: seq<HeaderField>)
    ensures Admissible(encMax, decMax, limit, FieldActions(headers))
    ensures Sizes(encMax, decMax, FieldActions(headers)) == (encMax, decMax)
    decreases |headers|
  {
    if headers != [] {
      assert FieldActions(headers)[1..] == FieldActions(headers[1..]);
      FieldsAdmissible(encMax, decMax, limit, headers[1..]);
    }
  }

  /** One block of plain fields, the way the connections use the codec. */
  lemma HeadersRoundTrip(cx: Codec, enc: TableView, dec: TableView, useHuffman: bool, limit: nat,
                         headers: seq<HeaderField>)
    requires cx.Valid() && Related(enc, dec) && dec.max <= USIZE_MAX && limit <= USIZE_MAX
    requires |BlockBytes(cx, enc, useHuffman, headers).1| <= USIZE_MAX
    ensures var (enc', bytes) := BlockBytes(cx, enc, useHuffman, headers);
            var (dec', r) := BlockOf(cx, dec, limit, bytes);
            r == Ok(headers) && Related(enc', dec') && (enc'.max, dec'.max) == (enc.max, dec.max)
  {
    var e := EncoderView(enc, useHuffman);
    BlockIsRun(cx, e, headers);
    FieldsAdmissible(enc.max, dec.max, limit, headers);
    BlockRoundTrip(cx, e, dec, limit, FieldActions(headers));
  }
}
