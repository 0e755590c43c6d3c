/**
 A session: the encoder's and the decoder's tables are never exchanged, so every block is decoded
 correctly only because the tables stay related over the whole run. They need not be equal: the
 encoder may shrink its table without telling, so its entries are a prefix of the decoder's.
 */
module HpackSession {
  import opened Bytes
  import opened PrefixCodes
  import opened HuffmanTable
  import opened HuffmanStrings
  import opened Integers
  import opened Tables
  import opened HpackCoding

  ghost predicate Related(enc: TableView, dec: TableView) {
    enc.Valid() && dec.Valid() && enc.entries <= dec.entries && enc.max <= dec.max
  }

  // ----- One field -----

  lemma SliceMiddle<T>(a: seq<T>, b: seq<T>, c: seq<T>)
    ensures (a + b + c)[|a|..] == b + c
    ensures (a + b + c)[|a|..|a| + |b|] == b
    ensures a + b + c == a + (b + c)
  {
  }

  lemma FirstByte(value: nat, n: nat, flag: byte)
    requires PrefixWidth(n) && PrefixOf(flag, n) == 0
    ensures flag <= IntegerBytes(value, n, flag)[0] <= flag + MaxPrefix(n) < 0x100
  {
    FlagAndPrefix(MaxPrefix(n), n, flag);
  }

  /** A written string reads back, whatever follows it. */
  lemma StringRoundTrip(cx: Codec, useHuffman: bool, s: seq<byte>, rest: seq<byte>)
    requires cx.Valid() && |StringBytes(cx, useHuffman, s) + rest| <= USIZE_MAX
    ensures StringOf(cx, StringBytes(cx, useHuffman, s) + rest) == Ok((s, |StringBytes(cx, useHuffman, s)|))
  {
    var book := Book(cx.huffman);
    var coded := EncodedString(book, s);
    if useHuffman && |coded| < |s| {
      var prefix := IntegerBytes(|coded|, 7, 0x80);
      SliceMiddle(prefix, coded, rest);
      IntegerRoundTrip(|coded|, 7, 0x80, coded + rest);
      FirstByte(|coded|, 7, 0x80);
      RoundTrip(book, s);
    } else {
      var prefix := IntegerBytes(|s|, 7, 0);
      SliceMiddle(prefix, s, rest);
      IntegerRoundTrip(|s|, 7, 0, s + rest);
      FirstByte(|s|, 7, 0);
    }
  }

  /** The chosen index means the same thing to the decoder: what the encoder found at it. */
  lemma RepresentLookup(cx: Codec, enc: TableView, dec: TableView, h: HeaderField)
    requires cx.Valid() && Related(enc, dec)
    ensures match Represent(cx, enc, h)
            case Indexed(i) => Lookup(cx, dec.entries, i) == Ok(h)
            case NameIndexed(i) =>
              i > 0 && Lookup(cx, dec.entries, i).Ok? && Lookup(cx, dec.entries, i).value.name == h.name
            case NewName => true
  {
  }

  lemma IndexFitsWord(cx: Codec, enc: TableView, h: HeaderField)
    requires cx.Valid() && enc.Valid() && enc.max <= USIZE_MAX
    ensures !Represent(cx, enc, h).NewName? ==> Represent(cx, enc, h).index <= USIZE_MAX
  {
    EntriesBounded(enc.entries);
  }

  lemma InsertRelated(enc: TableView, dec: TableView, h: HeaderField)
    requires Related(enc, dec)
    ensures Related(enc.Inserted(h), dec.Inserted(h))
  {
    FitMonotone([h] + enc.entries, [h] + dec.entries, enc.max, dec.max);
  }

  lemma LiteralRoundTrip(cx: Codec, dec: TableView, useHuffman: bool, h: HeaderField, name: seq<byte>, n: nat,
                         rest: seq<byte>)
    requires cx.Valid() && PrefixWidth(n)
    requires var value := StringBytes(cx, useHuffman, h.value);
             && |name + value + rest| <= USIZE_MAX
             && NameOf(cx, dec.entries, name + value + rest, n) == Ok((h.name, |name|))
    ensures var value := StringBytes(cx, useHuffman, h.value);
            LiteralOf(cx, dec.entries, name + value + rest, n) == Ok((Some(h), |name + value|))
  {
    var value := StringBytes(cx, useHuffman, h.value);
    SliceMiddle(name, value, rest);
    StringRoundTrip(cx, useHuffman, h.value, rest);
  }

  lemma IndexedNameRoundTrip(cx: Codec, dec: TableView, i: nat, h: HeaderField, after: seq<byte>)
    requires cx.Valid() && 0 < i <= USIZE_MAX
    requires Lookup(cx, dec.entries, i).Ok? && Lookup(cx, dec.entries, i).value.name == h.name
    ensures NameOf(cx, dec.entries, IntegerBytes(i, 6, 0x40) + after, 6) == Ok((h.name, |IntegerBytes(i, 6, 0x40)|))
  {
    IntegerRoundTrip(i, 6, 0x40, after);
  }

  lemma NewNameRoundTrip(cx: Codec, dec: TableView, useHuffman: bool, s: seq<byte>, after: seq<byte>)
    requires cx.Valid()
    requires |[0x40] + StringBytes(cx, useHuffman, s) + after| <= USIZE_MAX
    ensures var name := [0x40] + StringBytes(cx, useHuffman, s);
            NameOf(cx, dec.entries, name + after, 6) == Ok((s, |name|))
  {
    var b := StringBytes(cx, useHuffman, s);
    IntegerRoundTrip(0, 6, 0x40, b + after);
    assert IntegerBytes(0, 6, 0x40) == [0x40];
    SliceMiddle([0x40], b, after);
    StringRoundTrip(cx, useHuffman, s, after);
  }

  /** One field, whatever follows it: the decoder yields it, and the tables stay related. */
  lemma FieldRoundTrip(cx: Codec, enc: TableView, dec: TableView, useHuffman: bool, h: HeaderField, limit: nat,
                       rest: seq<byte>)
    requires cx.Valid() && Related(enc, dec) && enc.max <= USIZE_MAX
    requires |FieldBytes(cx, enc, useHuffman, h).1 + rest| <= USIZE_MAX
    ensures var (enc', bytes) := FieldBytes(cx, enc, useHuffman, h);
            var (dec', r) := FieldOf(cx, dec, limit, bytes + rest);
            r == Ok((Some(h), |bytes|)) && Related(enc', dec') && |bytes| > 0
            && enc'.max == enc.max && dec'.max == dec.max
  {
    RepresentLookup(cx, enc, dec, h);
    IndexFitsWord(cx, enc, h);
    InsertRelated(enc, dec, h);
    match Represent(cx, enc, h)
    case Indexed(i) =>
      IntegerRoundTrip(i, 7, 0x80, rest);
      FirstByte(i, 7, 0x80);
    case NameIndexed(i) =>
      var name, value := IntegerBytes(i, 6, 0x40), StringBytes(cx, useHuffman, h.value);
      FirstByte(i, 6, 0x40);
      SliceMiddle(name, value, rest);
      IndexedNameRoundTrip(cx, dec, i, h, value + rest);
      LiteralRoundTrip(cx, dec, useHuffman, h, name, 6, rest);
    case NewName =>
      var name, value := [0x40] + StringBytes(cx, useHuffman, h.name), StringBytes(cx, useHuffman, h.value);
      SliceMiddle(name, value, rest);
      NewNameRoundTrip(cx, dec, useHuffman, h.name, value + rest);
      LiteralRoundTrip(cx, dec, useHuffman, h, name, 6, rest);
  }

  // ----- Blocks and runs -----

  /** What the owner of an encoder may do while it writes a block. */
  datatype Action =
    | Field(h: HeaderField)
    | SizeUpdate(size: nat)
    | SetTableSize(size: nat)
    | SetHuffman(on: bool)

  datatype EncoderView = EncoderView(table: TableView, useHuffman: bool)

  /** The encoder after one action, and the bytes it writes. */
  function Acted(cx: Codec, e: EncoderView, a: Action): (EncoderView, seq<byte>)
    requires |cx.huffman| == SYMBOLS
  {
    match a
    case Field(h) =>
      var (t, bytes) := FieldBytes(cx, e.table, e.useHuffman, h);
      (e.(table := t), bytes)
    case SizeUpdate(size) => (e, SizeUpdateBytes(size))
    case SetTableSize(size) => (e.(table := e.table.Resized(size)), [])
    case SetHuffman(on) => (e.(useHuffman := on), [])
  }

  function Written(cx: Codec, e: EncoderView, actions: seq<Action>): (EncoderView, seq<byte>)
    requires |cx.huffman| == SYMBOLS
    decreases |actions|
  {
    if actions == [] then (e, [])
    else
      var (e', first) := Acted(cx, e, actions[0]);
      var (e'', rest) := Written(cx, e', actions[1..]);
      (e'', first + rest)
  }

  function Sent(actions: seq<Action>): seq<HeaderField> {
    if actions == [] then []
    else if actions[0].Field? then [actions[0].h] + Sent(actions[1..])
    else Sent(actions[1..])
  }

  /**
   What a caller has to respect, knowing only the table sizes: the encoder's table is never set
   larger than the decoder's, and an announced size is neither below the encoder's nor above
   the decoder's limit.
   */
  predicate Admissible(encMax: nat, decMax: nat, limit: nat, actions: seq<Action>)
    decreases |actions|
  {
    if actions == [] then true
    else
      match actions[0]
      case SetTableSize(size) => size <= decMax && Admissible(size, decMax, limit, actions[1..])
      case SizeUpdate(size) => encMax <= size <= limit && Admissible(encMax, size, limit, actions[1..])
      case _ => Admissible(encMax, decMax, limit, actions[1..])
  }

  /** The sizes of the two tables after some actions. */
  function Sizes(encMax: nat, decMax: nat, actions: seq<Action>): (nat, nat)
    decreases |actions|
  {
    if actions == [] then (encMax, decMax)
    else
      match actions[0]
      case SetTableSize(size) => Sizes(size, decMax, actions[1..])
      case SizeUpdate(size) => Sizes(encMax, size, actions[1..])
      case _ => Sizes(encMax, decMax, actions[1..])
  }

  lemma ResizeRelated(enc: TableView, dec: TableView, size: nat)
    requires Related(enc, dec) && size <= dec.max
    ensures Related(enc.Resized(size), dec)
  {
  }

  /** A size that the encoder's entries fit evicts none of their copies. */
  lemma UpdateRelated(enc: TableView, dec: TableView, size: nat)
    requires Related(enc, dec) && enc.max <= size
    ensures Related(enc, dec.Resized(size))
  {
    FitIsLongest(dec.entries, size, enc.entries);
  }

  lemma SizeUpdateRoundTrip(cx: Codec, dec: TableView, size: nat, limit: nat, rest: seq<byte>)
    requires cx.Valid() && size <= limit <= USIZE_MAX
    ensures FieldOf(cx, dec, limit, SizeUpdateBytes(size) + rest)
            == (dec.Resized(size), Ok((None, |SizeUpdateBytes(size)|)))
  {
    FirstByte(size, 5, 0x20);
    IntegerRoundTrip(size, 5, 0x20, rest);
  }

  /** The tables and the bytes are such that the decoder can follow. */
  ghost predicate InStep(cx: Codec, e: EncoderView, dec: TableView, limit: nat, actions: seq<Action>) {
    && cx.Valid() && Related(e.table, dec) && dec.max <= USIZE_MAX && limit <= USIZE_MAX
    && Admissible(e.table.max, dec.max, limit, actions)
  }

  function FieldSent(a: Action): Option<HeaderField> {
    if a.Field? then Some(a.h) else None
  }

  /** One action, whatever bytes follow: the decoder keeps up. */
  lemma ActionRoundTrip(cx: Codec, e: EncoderView, dec: TableView, limit: nat, a: Action, rest: seq<byte>)
      returns (dec': TableView)
    requires InStep(cx, e, dec, limit, [a])
    requires |Acted(cx, e, a).1 + rest| <= USIZE_MAX
    ensures var (e', first) := Acted(cx, e, a);
            && Related(e'.table, dec') && (e'.table.max, dec'.max) == Sizes(e.table.max, dec.max, [a])
            && dec'.max <= USIZE_MAX
            && if first == [] then dec' == dec && FieldSent(a).None?
               else FieldOf(cx, dec, limit, first + rest) == (dec', Ok((FieldSent(a), |first|)))
  {
    assert [a][1..] == [];
    var first := Acted(cx, e, a).1;
    match a
    case Field(h) =>
      FieldRoundTrip(cx, e.table, dec, e.useHuffman, h, limit, rest);
      dec' := FieldOf(cx, dec, limit, first + rest).0;
    case SizeUpdate(size) =>
      SizeUpdateRoundTrip(cx, dec, size, limit, rest);
      UpdateRelated(e.table, dec, size);
      dec' := dec.Resized(size);
    case SetTableSize(size) =>
      ResizeRelated(e.table, dec, size);
      dec' := dec;
    case SetHuffman(_) =>
      dec' := dec;
  }

  lemma AdmissibleFront(encMax: nat, decMax: nat, limit: nat, actions: seq<Action>)
    requires actions != []
    ensures var (encMax', decMax') := Sizes(encMax, decMax, [actions[0]]);
            && (Admissible(encMax, decMax, limit, actions) <==>
                  Admissible(encMax, decMax, limit, [actions[0]]) && Admissible(encMax', decMax', limit, actions[1..]))
            && Sizes(encMax, decMax, actions) == Sizes(encMax', decMax', actions[1..])
  {
    assert [actions[0]][1..] == [];
  }

  lemma BlockFront(cx: Codec, dec: TableView, limit: nat, first: seq<byte>, rest: seq<byte>, dec': TableView,
                   field: Option<HeaderField>)
    requires cx.Valid() && first != []
    requires FieldOf(cx, dec, limit, first + rest) == (dec', Ok((field, |first|)))
    ensures BlockOf(cx, dec, limit, first + rest) ==
              match BlockOf(cx, dec', limit, rest)
              case (t, Err(e)) => (t, Err(e))
              case (t, Ok(more)) => (t, Ok(if field.Some? then [field.value] + more else more))
  {
    assert (first + rest)[|first|..] == rest;
  }

  /** A block decodes to exactly the fields that were encoded, and the tables stay related. */
  lemma {:induction false} BlockRoundTrip(cx: Codec, e: EncoderView, dec: TableView, limit: nat, actions: seq<Action>)
    requires InStep(cx, e, dec, limit, actions)
    requires |Written(cx, e, actions).1| <= USIZE_MAX
    ensures var (e', bytes) := Written(cx, e, actions);
            var (dec', r) := BlockOf(cx, dec, limit, bytes);
            r == Ok(Sent(actions)) && Related(e'.table, dec') && dec'.max <= USIZE_MAX
            && (e'.table.max, dec'.max) == Sizes(e.table.max, dec.max, actions)
    decreases |actions|
  {
    if actions != [] {
      var (e', first) := Acted(cx, e, actions[0]);
      var rest := Written(cx, e', actions[1..]).1;
      AdmissibleFront(e.table.max, dec.max, limit, actions);
      var dec' := ActionRoundTrip(cx, e, dec, limit, actions[0], rest);
      BlockRoundTrip(cx, e', dec', limit, actions[1..]);
      if first == [] {
        assert first + rest == rest;
      } else {
        BlockFront(cx, dec, limit, first, rest, dec', FieldSent(actions[0]));
      }
    }
  }

  /** One block: what the encoder's owner does, and the decoder's limit when it arrives. */
  datatype Block = Block(actions: seq<Action>, limit: nat)

  ghost predicate RunInStep(cx: Codec, e: EncoderView, encMax: nat, decMax: nat, run: seq<Block>)
    requires |cx.huffman| == SYMBOLS
    decreases |run|
  {
    run == [] ||
    (var (e', bytes) := Written(cx, e, run[0].actions);
     var (encMax', decMax') := Sizes(encMax, decMax, run[0].actions);
     && Admissible(encMax, decMax, run[0].limit, run[0].actions) && run[0].limit <= USIZE_MAX
     && |bytes| <= USIZE_MAX
     && RunInStep(cx, e', encMax', decMax', run[1..]))
  }

  function RunWritten(cx: Codec, e: EncoderView, run: seq<Block>): (EncoderView, seq<seq<byte>>)
    requires |cx.huffman| == SYMBOLS
    decreases |run|
  {
    if run == [] then (e, [])
    else
      var (e', bytes) := Written(cx, e, run[0].actions);
      var (e'', rest) := RunWritten(cx, e', run[1..]);
      (e'', [bytes] + rest)
  }

  /** The decoder's table and the fields of each block, decoded in order. */
  ghost function RunDecoded(cx: Codec, dec: TableView, run: seq<Block>, wire: seq<seq<byte>>)
      : (TableView, seq<BlockResult>)
    requires cx.Valid() && |wire| == |run|
    decreases |run|
  {
    if run == [] then (dec, [])
    else
      var (dec', first) := BlockOf(cx, dec, run[0].limit, wire[0]);
      var (dec'', rest) := RunDecoded(cx, dec', run[1..], wire[1..]);
      (dec'', [first] + rest)
  }

  lemma {:induction false} RunWrittenLength(cx: Codec, e: EncoderView, run: seq<Block>)
    requires |cx.huffman| == SYMBOLS
    ensures |RunWritten(cx, e, run).1| == |run|
    decreases |run|
  {
    if run != [] {
      RunWrittenLength(cx, Written(cx, e, run[0].actions).0, run[1..]);
    }
  }

  /**
   Session correctness: over every admissible run from related tables, each block decodes, in order,
   to exactly the fields that were encoded into it, and the tables are related at the end.
   */
  lemma {:induction false} SessionCorrect(cx: Codec, e: EncoderView, dec: TableView, run: seq<Block>)
    requires cx.Valid() && Related(e.table, dec) && dec.max <= USIZE_MAX
    requires RunInStep(cx, e, e.table.max, dec.max, run)
    ensures var (e', wire) := RunWritten(cx, e, run);
            && |wire| == |run|
            && var (dec', results) := RunDecoded(cx, dec, run, wire);
               && Related(e'.table, dec') && |results| == |run|
               && forall i :: 0 <= i < |run| ==> results[i] == Ok(Sent(run[i].actions))
    decreases |run|
  {
    RunWrittenLength(cx, e, run);
    if run != [] {
      var (e', bytes) := Written(cx, e, run[0].actions);
      BlockRoundTrip(cx, e, dec, run[0].limit, run[0].actions);
      var dec' := BlockOf(cx, dec, run[0].limit, bytes).0;
      SessionCorrect(cx, e', dec', run[1..]);
      assert RunWritten(cx, e, run).1[1..] == RunWritten(cx, e', run[1..]).1;
    }
  }
}
