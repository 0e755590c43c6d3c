/**
 When an encoder may use a table of another size than the decoder's without announcing it: exactly
 when its table is not larger, or is too small to hold anything at all.
 */
module HpackGrowth {
  import opened Bytes
  import opened PrefixCodes
  import opened HuffmanTable
  import opened HuffmanStrings
  import opened Integers
  import opened Tables
  import StaticTable
  import opened HpackErrors
  import opened HpackCoding
  import opened HpackSession
  import opened HpackEncoder

  /** No predefined field has an empty name, as in the standard. */
  ghost predicate NamesPresent(cx: Codec) {
    forall i :: 1 <= i < |cx.predefined| ==> cx.predefined[i].name != []
  }

  /** Does every list of fields that the encoder writes now decode to itself? */
  ghost predicate Follows(cx: Codec, enc: TableView, dec: TableView, useHuffman: bool, limit: nat)
    requires cx.Valid()
  {
    forall headers :: Decodes(cx, enc, dec, useHuffman, limit, headers)
  }

  ghost predicate Decodes(cx: Codec, enc: TableView, dec: TableView, useHuffman: bool, limit: nat,
                          headers: seq<HeaderField>)
    requires cx.Valid()
  {
    var bytes := BlockBytes(cx, enc, useHuffman, headers).1;
    |bytes| <= USIZE_MAX ==> BlockOf(cx, dec, limit, bytes).1 == Ok(headers)
  }

  // ----- A table too small to hold anything -----

  /** Every field takes at least 32 bytes. */
  lemma NothingFits(f: HeaderField, max: nat)
    requires max < 32
    ensures TableView([], max).Inserted(f) == TableView([], max)
  {
    assert ([f] + [])[0] == f;
  }

  lemma {:induction false} SmallTablesWriteTheSame(cx: Codec, max: nat, useHuffman: bool, headers: seq<HeaderField>)
    requires |cx.huffman| == SYMBOLS && max < 32
    ensures BlockBytes(cx, TableView([], max), useHuffman, headers).1
            == BlockBytes(cx, TableView([], 0), useHuffman, headers).1
    decreases |headers|
  {
    if headers != [] {
      NothingFits(headers[0], max);
      NothingFits(headers[0], 0);
      SmallTablesWriteTheSame(cx, max, useHuffman, headers[1..]);
    }
  }

  lemma EmptyTable(t: TableView)
    requires t.Valid() && t.max < 32
    ensures t.entries == []
  {
    EntriesBounded(t.entries);
  }

  lemma HarmlessFollows(cx: Codec, enc: TableView, dec: TableView, useHuffman: bool, limit: nat)
    requires cx.Valid() && enc.Valid() && dec.Valid() && enc.entries <= dec.entries
    requires dec.max <= USIZE_MAX && limit <= USIZE_MAX
    requires enc.max <= dec.max || enc.max < 32
    ensures Follows(cx, enc, dec, useHuffman, limit)
  {
    forall headers
      ensures Decodes(cx, enc, dec, useHuffman, limit, headers)
    {
      if |BlockBytes(cx, enc, useHuffman, headers).1| <= USIZE_MAX {
        if enc.max <= dec.max {
          HeadersRoundTrip(cx, enc, dec, useHuffman, limit, headers);
        } else {
          EmptyTable(enc);
          SmallTablesWriteTheSame(cx, enc.max, useHuffman, headers);
          HeadersRoundTrip(cx, TableView([], 0), dec, useHuffman, limit, headers);
        }
      }
    }
  }

  // ----- A table that is larger -----

  /** A field without a name that takes exactly `size` bytes. */
  function Filler(size: nat): (h: HeaderField)
    requires size >= 32
    ensures h.Size() == size
  {
    HeaderField([], seq(size - 32, _ => 0))
  }

  lemma {:induction false} DigitsLength(v: nat)
    ensures |Digits(v)| <= v + 1
  {
    if v >= 128 {
      DigitsLength(v / 128);
    }
  }

  lemma StringBytesLength(cx: Codec, useHuffman: bool, s: seq<byte>)
    requires |cx.huffman| == SYMBOLS
    ensures |StringBytes(cx, useHuffman, s)| <= 2 * |s| + 2
  {
    var coded := EncodedString(Book(cx.huffman), s);
    if useHuffman && |coded| < |s| {
      IntegerBytesLength(|coded|, 7, 0x80);
    } else {
      IntegerBytesLength(|s|, 7, 0);
    }
  }

  lemma IntegerBytesLength(v: nat, n: nat, flag: byte)
    requires PrefixWidth(n) && PrefixOf(flag, n) == 0
    ensures |IntegerBytes(v, n, flag)| <= v + 2
  {
    if v >= MaxPrefix(n) {
      DigitsLength(v - MaxPrefix(n));
    }
  }

  lemma {:induction false} TooLargeNotIn(entries: seq<HeaderField>, h: HeaderField)
    requires TotalSize(entries) < h.Size()
    ensures h !in entries
  {
    if entries != [] {
      TooLargeNotIn(entries[1..], h);
      assert entries == [entries[0]] + entries[1..];
    }
  }

  /** The filler is not predefined and not in the table yet. */
  lemma FillerIsNew(cx: Codec, enc: TableView, dec: TableView, size: nat)
    requires NamesPresent(cx) && dec.Valid() && enc.entries <= dec.entries && 32 <= size && dec.max < size
    ensures Search(cx.predefined, Filler(size), 1).None?
    ensures Search(enc.entries, Filler(size), 0).Some? ==> !Search(enc.entries, Filler(size), 0).value.1
  {
    TotalSizePrefix(enc.entries, dec.entries);
    TooLargeNotIn(enc.entries, Filler(size));
  }

  /** Once the encoder has the filler in its table, it refers to it by its index. */
  lemma FillerIndexed(cx: Codec, enc: TableView, useHuffman: bool, size: nat)
    requires |cx.huffman| == SYMBOLS && 32 <= size && Search(cx.predefined, Filler(size), 1).None?
    requires enc.entries != [] && enc.entries[0] == Filler(size)
    ensures FieldBytes(cx, enc, useHuffman, Filler(size)) == (enc, IntegerBytes(62, 7, 0x80))
  {
    assert ExactFrom(enc.entries, Filler(size), 0) == Some(0);
  }

  /** The decoder could not keep the filler, so the index means nothing to it. */
  lemma IndexRefused(cx: Codec, t: TableView, limit: nat)
    requires cx.Valid() && t.entries == []
    ensures BlockOf(cx, t, limit, IntegerBytes(62, 7, 0x80)).1 == Err(InvalidIndex(62))
  {
    var b := IntegerBytes(62, 7, 0x80);
    IntegerRoundTrip(62, 7, 0x80, []);
    assert b + [] == b;
    FirstByte(62, 7, 0x80);
  }

  lemma TooLargeEmpties(t: TableView, h: HeaderField)
    requires t.max < h.Size()
    ensures t.Inserted(h).entries == []
  {
    assert ([h] + t.entries)[0] == h;
  }

  lemma FillerEntersTable(enc: TableView, size: nat)
    requires 32 <= size <= enc.max
    ensures enc.Inserted(Filler(size)).entries != [] && enc.Inserted(Filler(size)).entries[0] == Filler(size)
  {
    var h := Filler(size);
    assert ([h] + enc.entries)[0] == h;
  }

  /** The first filler arrives, but only the encoder keeps it. */
  lemma FillerRoundTrip(cx: Codec, enc: TableView, dec: TableView, useHuffman: bool, limit: nat, size: nat,
                        rest: seq<byte>)
    requires cx.Valid() && NamesPresent(cx) && dec.Valid() && enc.entries <= dec.entries
    requires dec.max < size && 32 <= size && dec.max <= USIZE_MAX
    requires |FieldBytes(cx, enc, useHuffman, Filler(size)).1 + rest| <= USIZE_MAX
    ensures var bytes := FieldBytes(cx, enc, useHuffman, Filler(size)).1;
            var (dec', r) := FieldOf(cx, dec, limit, bytes + rest);
            bytes != [] && r == Ok((Some(Filler(size)), |bytes|)) && dec'.entries == []
  {
    var h, small := Filler(size), TableView(enc.entries, dec.max);
    TotalSizePrefix(enc.entries, dec.entries);
    FillerIsNew(cx, enc, dec, size);
    FieldRoundTrip(cx, small, dec, useHuffman, h, limit, rest);
    TooLargeEmpties(small, h);
    TooLargeEmpties(dec, h);
    LiteralIsInserted(cx, enc, dec, useHuffman, limit, size, rest);
  }

  lemma LiteralIsInserted(cx: Codec, enc: TableView, dec: TableView, useHuffman: bool, limit: nat, size: nat,
                          rest: seq<byte>)
    requires cx.Valid() && 32 <= size && dec.max < size && Search(cx.predefined, Filler(size), 1).None?
    requires Search(enc.entries, Filler(size), 0).Some? ==> !Search(enc.entries, Filler(size), 0).value.1
    requires var bytes := FieldBytes(cx, enc, useHuffman, Filler(size)).1;
             FieldOf(cx, dec, limit, bytes + rest).1 == Ok((Some(Filler(size)), |bytes|))
    ensures FieldOf(cx, dec, limit, FieldBytes(cx, enc, useHuffman, Filler(size)).1 + rest).0
            == dec.Inserted(Filler(size))
  {
    var h := Filler(size);
    if Represent(cx, enc, h).NameIndexed? {
      FirstByte(Represent(cx, enc, h).index, 6, 0x40);
    }
  }

  lemma FillerTwice(cx: Codec, enc: TableView, dec: TableView, useHuffman: bool, limit: nat, size: nat)
    requires cx.Valid() && NamesPresent(cx) && dec.Valid() && enc.entries <= dec.entries
    requires dec.max < size <= enc.max && 32 <= size && dec.max <= USIZE_MAX
    requires |BlockBytes(cx, enc, useHuffman, [Filler(size), Filler(size)]).1| <= USIZE_MAX
    ensures BlockOf(cx, dec, limit, BlockBytes(cx, enc, useHuffman, [Filler(size), Filler(size)]).1).1
            == Err(InvalidIndex(62))
  {
    var h := Filler(size);
    var (enc', first) := FieldBytes(cx, enc, useHuffman, h);
    var second := IntegerBytes(62, 7, 0x80);
    FillerIsNew(cx, enc, dec, size);
    FillerEntersTable(enc, size);
    FillerIndexed(cx, enc', useHuffman, size);
    assert [h, h][1..] == [h] && [h][1..] == [];
    assert BlockBytes(cx, enc', useHuffman, [h]).1 == second + [] == second;
    FillerRoundTrip(cx, enc, dec, useHuffman, limit, size, second);
    var dec' := FieldOf(cx, dec, limit, first + second).0;
    BlockFront(cx, dec, limit, first, second, dec', Some(h));
    IndexRefused(cx, dec', limit);
  }

  lemma FillersFit(cx: Codec, enc: TableView, useHuffman: bool, size: nat)
    requires cx.Valid() && enc.Valid() && 32 <= size <= enc.max <= 0xffff_ffff
    requires Search(cx.predefined, Filler(size), 1).None?
    requires Search(enc.entries, Filler(size), 0).Some? ==> !Search(enc.entries, Filler(size), 0).value.1
    ensures |BlockBytes(cx, enc, useHuffman, [Filler(size), Filler(size)]).1| <= USIZE_MAX
  {
    var h := Filler(size);
    StringBytesLength(cx, useHuffman, h.name);
    StringBytesLength(cx, useHuffman, h.value);
    EntriesBounded(enc.entries);
    if Represent(cx, enc, h).NameIndexed? {
      IntegerBytesLength(Represent(cx, enc, h).index, 6, 0x40);
    }
    FillerEntersTable(enc, size);
    var enc' := FieldBytes(cx, enc, useHuffman, h).0;
    FillerIndexed(cx, enc', useHuffman, size);
    IntegerBytesLength(62, 7, 0x80);
    assert [h, h][1..] == [h] && [h][1..] == [];
    assert BlockBytes(cx, enc', useHuffman, [h]).1 == IntegerBytes(62, 7, 0x80) + [];
  }

  /**
   From tables that agree in their entries, whatever their sizes are: everything the encoder may
   write decodes to itself exactly when its table is not larger than the decoder's or holds nothing.
   */
  lemma FollowsExactly(cx: Codec, enc: TableView, dec: TableView, useHuffman: bool, limit: nat)
    requires cx.Valid() && NamesPresent(cx) && enc.Valid() && dec.Valid() && enc.entries <= dec.entries
    requires enc.max <= 0xffff_ffff && dec.max <= USIZE_MAX && limit <= USIZE_MAX
    ensures Follows(cx, enc, dec, useHuffman, limit) <==> enc.max <= dec.max || enc.max < 32
  {
    if enc.max <= dec.max || enc.max < 32 {
      HarmlessFollows(cx, enc, dec, useHuffman, limit);
    } else {
      var size := enc.max;
      FillerIsNew(cx, enc, dec, size);
      FillersFit(cx, enc, useHuffman, size);
      FillerTwice(cx, enc, dec, useHuffman, limit, size);
      assert !Decodes(cx, enc, dec, useHuffman, limit, [Filler(size), Filler(size)]);
    }
  }

  lemma StandardNamesPresent()
    ensures NamesPresent(RFC7541)
  {
    forall i | 1 <= i < |RFC7541.predefined|
      ensures RFC7541.predefined[i].name != []
    {
      if i < 16 {
        NamesFrom1(i);
      } else if i < 31 {
        NamesFrom16(i);
      } else if i < 46 {
        NamesFrom31(i);
      } else {
        NamesFrom46(i);
      }
    }
  }

  lemma NamesFrom1(i: nat)
    requires 1 <= i < 16
    ensures StaticTable.Entry(i).name != []
  {
  }

  lemma NamesFrom16(i: nat)
    requires 16 <= i < 31
    ensures StaticTable.Entry(i).name != []
  {
  }

  lemma NamesFrom31(i: nat)
    requires 31 <= i < 46
    ensures StaticTable.Entry(i).name != []
  {
  }

  lemma NamesFrom46(i: nat)
    requires 46 <= i <= StaticTable.STATIC_LEN
    ensures StaticTable.Entry(i).name != []
  {
  }
}
