/**
 The representations of section 6 of RFC 7541, byte by byte: what each does to the decoder and its
 table, including those that the encoder never writes, and which of them the encoder chooses.
 */
module HpackFormat {
  import opened Bytes
  import opened Bits
  import opened PrefixCodes
  import opened HuffmanTable
  import opened HuffmanStrings
  import opened HpackErrors
  import opened Integers
  import opened Tables
  import opened HpackCoding
  import opened HpackSession

  // ----- Integers -----

  /** A prefix of n bits holds the numbers below 2^n, and the greatest of them announces digits. */
  lemma PrefixIsPower(n: nat, b: byte)
    requires PrefixWidth(n)
    ensures MaxPrefix(n) == Pow2(n) - 1 && PrefixOf(b, n) == b % Pow2(n)
  {
    assert Pow2(4) == 0x10 && Pow2(5) == 0x20 && Pow2(6) == 0x40 && Pow2(7) == 0x80;
  }

  lemma {:induction false} DigitsAreShortest(v: nat)
    ensures Delimited(Digits(v)) && DigitSum(Digits(v)) == v
    ensures v > 0 ==> Digits(v)[|Digits(v)| - 1] > 0
  {
    if v >= 128 {
      DigitsAreShortest(v / 128);
      assert Digits(v)[1..] == Digits(v / 128);
      DelimitedTail(Digits(v));
    } else {
      assert [v][1..] == [];
    }
  }

  lemma DigitsFollow(value: nat, n: nat, flag: byte)
    requires PrefixWidth(n) && PrefixOf(flag, n) == 0 && value >= MaxPrefix(n)
    ensures var s, most := IntegerBytes(value, n, flag), MaxPrefix(n);
            s[0] == flag + most && Delimited(s[1..]) && most + DigitSum(s[1..]) == value
            && (value > most ==> s[|s| - 1] > 0)
  {
    var digits, first := Digits(value - MaxPrefix(n)), flag + MaxPrefix(n);
    FlagAndPrefix(MaxPrefix(n), n, flag);
    DigitsAreShortest(value - MaxPrefix(n));
    assert ([first] + digits)[1..] == digits;
  }

  /** A number is written in the prefix if it fits, and otherwise as the shortest digits of what is left. */
  lemma IntegerFormat(value: nat, n: nat, flag: byte)
    requires PrefixWidth(n) && PrefixOf(flag, n) == 0
    ensures var s, most := IntegerBytes(value, n, flag), Pow2(n) - 1;
            if value < most then s == [flag + value]
            else s[0] == flag + most && Delimited(s[1..]) && most + DigitSum(s[1..]) == value
                 && (value > most ==> s[|s| - 1] > 0)
  {
    PrefixIsPower(n, flag);
    if value >= MaxPrefix(n) {
      DigitsFollow(value, n, flag);
    } else {
      FlagAndPrefix(value, n, flag);
    }
  }

  /** Sections C.1.1 and C.1.2 of RFC 7541. */
  lemma IntegerExamples()
    ensures IntegerBytes(10, 5, 0) == [0x0a]
    ensures IntegerBytes(1337, 5, 0) == [0x1f, 0x9a, 0x0a]
  {
    assert Digits(10) == [10];
    assert Digits(1306) == [154] + [10];
  }

  // ----- Strings -----

  /**
   A string is written with Huffman codes exactly if that is enabled and makes it shorter; the flag
   says which, the length is that of what follows, and what follows is the shorter of the two.
   */
  lemma ShorterString(cx: Codec, useHuffman: bool, s: seq<byte>)
    requires |cx.huffman| == SYMBOLS && |s| <= USIZE_MAX
    ensures var b, coded := StringBytes(cx, useHuffman, s), EncodedString(Book(cx.huffman), s);
            var payload := if useHuffman && |coded| < |s| then coded else s;
            && |payload| <= |s| && (useHuffman ==> |payload| <= |coded|)
            && (b[0] >= 0x80 <==> useHuffman && |coded| < |s|)
            && Integer(b, 7) == Ok((|payload|, |b| - |payload|)) && |b| > |payload|
            && b[|b| - |payload|..] == payload
  {
    var coded := EncodedString(Book(cx.huffman), s);
    if useHuffman && |coded| < |s| {
      IntegerRoundTrip(|coded|, 7, 0x80, coded);
      FirstByte(|coded|, 7, 0x80);
    } else {
      IntegerRoundTrip(|s|, 7, 0, s);
      FirstByte(|s|, 7, 0);
    }
  }

  // ----- What the first byte says about the table -----

  /**
   A field that was decoded enters the table exactly if its first byte is 0x40 to 0x7f. 0x20 to 0x3f
   announces a size, which is taken over if it is within the limit. Nothing else, and no error,
   changes the table.
   */
  lemma TableByFirstByte(cx: Codec, t: TableView, limit: nat, data: seq<byte>)
    requires cx.Valid()
    ensures var (t', r) := FieldOf(cx, t, limit, data);
            match r
            case Err(_) => t' == t
            case Ok((field, _)) =>
              && data != []
              && (field.None? <==> 0x20 <= data[0] < 0x40)
              && (0x40 <= data[0] < 0x80 ==> t' == t.Inserted(field.value))
              && (data[0] >= 0x80 || data[0] < 0x20 ==> t' == t)
              && (0x20 <= data[0] < 0x40 ==>
                    var size := Integer(data, 5);
                    size.Ok? && size.value.0 <= limit && t' == t.Resized(size.value.0))
  {
  }

  // ----- Indexed fields -----

  /** The entry at an index: the static table has 1 to 61, the dynamic one, newest first, all from 62 on. */
  predicate Holds(cx: Codec, t: TableView, index: nat, h: HeaderField) {
    if index <= 61 then 0 < index < |cx.predefined| && cx.predefined[index] == h
    else index - 62 < |t.entries| && t.entries[index - 62] == h
  }

  predicate Names(cx: Codec, t: TableView, index: nat, name: seq<byte>) {
    if index <= 61 then 0 < index < |cx.predefined| && cx.predefined[index].name == name
    else index - 62 < |t.entries| && t.entries[index - 62].name == name
  }

  predicate NoSuchIndex(t: TableView, index: nat) {
    index == 0 || index >= 62 + |t.entries|
  }

  /** An indexed field: the entry at the index, or an error if there is none. */
  lemma IndexedDecodes(cx: Codec, t: TableView, limit: nat, index: nat, h: HeaderField, rest: seq<byte>)
    requires cx.Valid() && index <= USIZE_MAX
    ensures var bytes := IntegerBytes(index, 7, 0x80);
            var r := FieldOf(cx, t, limit, bytes + rest);
            && (Holds(cx, t, index, h) ==> r == (t, Ok((Some(h), |bytes|))))
            && (NoSuchIndex(t, index) ==> r == (t, Err(InvalidIndex(index))))
  {
    IntegerRoundTrip(index, 7, 0x80, rest);
    FirstByte(index, 7, 0x80);
  }

  // ----- Literals -----

  /** Incremental indexing, section 6.2.1; without indexing, 6.2.2; never indexed, 6.2.3. */
  predicate LiteralFlag(flag: byte) {
    flag == 0x40 || flag == 0 || flag == 0x10
  }

  /** The width of the index behind such a flag. */
  function IndexWidth(flag: byte): (n: nat)
    requires LiteralFlag(flag)
    ensures PrefixWidth(n) && PrefixOf(flag, n) == 0
  {
    if flag == 0x40 then 6 else 4
  }

  /** A literal with its name spelled out, each string with or without Huffman codes, whatever follows. */
  lemma NewNameDecodes(cx: Codec, t: TableView, limit: nat, flag: byte, h: HeaderField, huffmanName: bool,
                       huffmanValue: bool, rest: seq<byte>)
    requires cx.Valid() && flag in {0x40, 0x00, 0x10}
    requires |[flag] + StringBytes(cx, huffmanName, h.name) + StringBytes(cx, huffmanValue, h.value) + rest|
             <= USIZE_MAX
    ensures var bytes := [flag] + StringBytes(cx, huffmanName, h.name) + StringBytes(cx, huffmanValue, h.value);
            FieldOf(cx, t, limit, bytes + rest)
            == (if flag == 0x40 then t.Inserted(h) else t, Ok((Some(h), |bytes|)))
  {
    var n := IndexWidth(flag);
    var name, value := StringBytes(cx, huffmanName, h.name), StringBytes(cx, huffmanValue, h.value);
    SliceMiddle([flag] + name, value, rest);
    SpelledName(cx, t, n, flag, huffmanName, h.name, value + rest);
    LiteralRoundTrip(cx, t, huffmanValue, h, [flag] + name, n, rest);
  }

  lemma SpelledName(cx: Codec, t: TableView, n: nat, flag: byte, huffman: bool, name: seq<byte>, after: seq<byte>)
    requires cx.Valid() && PrefixWidth(n) && PrefixOf(flag, n) == 0
    requires |[flag] + StringBytes(cx, huffman, name) + after| <= USIZE_MAX
    ensures var bytes := [flag] + StringBytes(cx, huffman, name);
            NameOf(cx, t.entries, bytes + after, n) == Ok((name, |bytes|))
  {
    var b := StringBytes(cx, huffman, name);
    ZeroPrefix(n, flag, b + after);
    SliceMiddle([flag], b, after);
    StringRoundTrip(cx, huffman, name, after);
  }

  lemma ZeroPrefix(n: nat, flag: byte, rest: seq<byte>)
    requires PrefixWidth(n) && PrefixOf(flag, n) == 0
    ensures Integer([flag] + rest, n) == Ok((0, 1))
  {
  }

  /** A literal whose name is given by its index: 6 bits behind 0x40, and 4 behind the other two flags. */
  lemma IndexedNameDecodes(cx: Codec, t: TableView, limit: nat, flag: byte, index: nat, h: HeaderField, huffman: bool,
                           rest: seq<byte>)
    requires cx.Valid() && flag in {0x40, 0x00, 0x10} && 0 < index <= USIZE_MAX && Names(cx, t, index, h.name)
    requires |IntegerBytes(index, if flag == 0x40 then 6 else 4, flag) + StringBytes(cx, huffman, h.value) + rest|
             <= USIZE_MAX
    ensures var bytes := IntegerBytes(index, if flag == 0x40 then 6 else 4, flag) + StringBytes(cx, huffman, h.value);
            FieldOf(cx, t, limit, bytes + rest)
            == (if flag == 0x40 then t.Inserted(h) else t, Ok((Some(h), |bytes|)))
  {
    var n := IndexWidth(flag);
    var name, value := IntegerBytes(index, n, flag), StringBytes(cx, huffman, h.value);
    FirstByte(index, n, flag);
    SliceMiddle(name, value, rest);
    IntegerRoundTrip(index, n, flag, value + rest);
    LiteralRoundTrip(cx, t, huffman, h, name, n, rest);
  }

  /** A name at an index that does not exist is refused, and the table stays as it is. */
  lemma NoSuchName(cx: Codec, t: TableView, limit: nat, flag: byte, index: nat, rest: seq<byte>)
    requires cx.Valid() && flag in {0x40, 0x00, 0x10} && 62 + |t.entries| <= index <= USIZE_MAX
    ensures FieldOf(cx, t, limit, IntegerBytes(index, if flag == 0x40 then 6 else 4, flag) + rest)
            == (t, Err(InvalidIndex(index)))
  {
    var n := IndexWidth(flag);
    FirstByte(index, n, flag);
    IntegerRoundTrip(index, n, flag, rest);
  }

  // ----- Size updates -----

  /** A size within the limit is taken over; one above it is refused and changes nothing. */
  lemma SizeUpdateDecodes(cx: Codec, t: TableView, limit: nat, size: nat, rest: seq<byte>)
    requires cx.Valid() && size <= USIZE_MAX
    ensures var bytes := IntegerBytes(size, 5, 0x20);
            FieldOf(cx, t, limit, bytes + rest)
            == if size <= limit then (t.Resized(size), Ok((None, |bytes|))) else (t, Err(InvalidTableSize))
  {
    FirstByte(size, 5, 0x20);
    IntegerRoundTrip(size, 5, 0x20, rest);
  }

  // ----- Blocks that break off -----

  /** A block that goes on: what was written before decodes to its fields, whatever follows. */
  lemma {:induction false} BlockGoesOn(cx: Codec, e: EncoderView, dec: TableView, limit: nat, actions: seq<Action>,
                                       rest: seq<byte>)
      returns (dec': TableView)
    requires InStep(cx, e, dec, limit, actions)
    requires |Written(cx, e, actions).1 + rest| <= USIZE_MAX
    ensures var (e', bytes) := Written(cx, e, actions);
            && Related(e'.table, dec')
            && BlockOf(cx, dec, limit, bytes + rest) ==
               match BlockOf(cx, dec', limit, rest)
               case (t, Err(err)) => (t, Err(err))
               case (t, Ok(more)) => (t, Ok(Sent(actions) + more))
    decreases |actions|
  {
    if actions == [] {
      dec' := dec;
      NothingSent(cx, dec, limit, rest);
    } else {
      var (e', first) := Acted(cx, e, actions[0]);
      var others := Written(cx, e', actions[1..]).1;
      AppendAssociates(first, others, rest);
      AdmissibleFront(e.table.max, dec.max, limit, actions);
      var next := ActionRoundTrip(cx, e, dec, limit, actions[0], others + rest);
      dec' := BlockGoesOn(cx, e', next, limit, actions[1..], rest);
      if first == [] {
        assert first + (others + rest) == others + rest;
      } else {
        BlockFront(cx, dec, limit, first, others + rest, next, FieldSent(actions[0]));
        if actions[0].Field? && BlockOf(cx, dec', limit, rest).1.Ok? {
          AppendAssociates([actions[0].h], Sent(actions[1..]), BlockOf(cx, dec', limit, rest).1.value);
        }
      }
    }
  }

  lemma NothingSent(cx: Codec, dec: TableView, limit: nat, rest: seq<byte>)
    requires cx.Valid()
    ensures [] + rest == rest
    ensures BlockOf(cx, dec, limit, rest).1.Ok? ==> [] + BlockOf(cx, dec, limit, rest).1.value
                                                    == BlockOf(cx, dec, limit, rest).1.value
  {
  }

  /** The first representation that is broken decides about the block, and the table keeps what came before it. */
  lemma BlockBreaksOff(cx: Codec, e: EncoderView, dec: TableView, limit: nat, actions: seq<Action>, bad: seq<byte>)
      returns (dec': TableView)
    requires InStep(cx, e, dec, limit, actions) && bad != []
    requires |Written(cx, e, actions).1 + bad| <= USIZE_MAX
    ensures Related(Written(cx, e, actions).0.table, dec')
    ensures match FieldOf(cx, dec', limit, bad).1
            case Err(err) => BlockOf(cx, dec, limit, Written(cx, e, actions).1 + bad) == (dec', Err(err))
            case Ok(_) => true
  {
    dec' := BlockGoesOn(cx, e, dec, limit, actions, bad);
    TableByFirstByte(cx, dec', limit, bad);
  }

  // ----- What the encoder chooses -----

  ghost predicate FirstEqual(entries: seq<HeaderField>, h: HeaderField, start: nat, i: nat) {
    start <= i < |entries| && entries[i] == h && forall k :: start <= k < i ==> entries[k] != h
  }

  ghost predicate FirstNamed(entries: seq<HeaderField>, name: seq<byte>, start: nat, i: nat) {
    start <= i < |entries| && entries[i].name == name && forall k :: start <= k < i ==> entries[k].name != name
  }

  ghost predicate NoneEqual(entries: seq<HeaderField>, h: HeaderField, start: nat) {
    forall k :: start <= k < |entries| ==> entries[k] != h
  }

  ghost predicate NoneNamed(entries: seq<HeaderField>, name: seq<byte>, start: nat) {
    forall k :: start <= k < |entries| ==> entries[k].name != name
  }

  lemma SearchFinds(entries: seq<HeaderField>, h: HeaderField, start: nat)
    ensures forall i: nat :: FirstEqual(entries, h, start, i) ==> Search(entries, h, start) == Some((i, true))
    ensures NoneEqual(entries, h, start) ==>
              forall i: nat :: FirstNamed(entries, h.name, start, i) ==> Search(entries, h, start) == Some((i, false))
    ensures NoneNamed(entries, h.name, start) ==> Search(entries, h, start) == None
  {
    SearchIsFirst(entries, h, start);
  }

  /**
   A field that is in a table is written as the index of the first equal entry, static first, with a
   prefix of 7 bits behind 0x80, and the table stays as it is.
   */
  lemma EncodesKnown(cx: Codec, t: TableView, useHuffman: bool, h: HeaderField)
    requires cx.Valid()
    ensures forall i: nat :: FirstEqual(cx.predefined, h, 1, i) ==>
                               FieldBytes(cx, t, useHuffman, h) == (t, IntegerBytes(i, 7, 0x80))
    ensures NoneEqual(cx.predefined, h, 1) ==>
              forall i: nat :: FirstEqual(t.entries, h, 0, i) ==>
                                 FieldBytes(cx, t, useHuffman, h) == (t, IntegerBytes(62 + i, 7, 0x80))
    ensures !NoneEqual(cx.predefined, h, 1) || !NoneEqual(t.entries, h, 0) ==>
              var (t', bytes) := FieldBytes(cx, t, useHuffman, h);
              t' == t && bytes[0] >= 0x80
  {
    SearchFinds(cx.predefined, h, 1);
    SearchFinds(t.entries, h, 0);
    SearchIsFirst(cx.predefined, h, 1);
    SearchIsFirst(t.entries, h, 0);
    var r := Represent(cx, t, h);
    if r.Indexed? {
      FirstByte(r.index, 7, 0x80);
    }
  }

  /**
   A field that is in no table is written as a literal and enters the dynamic table. Its name is
   written as the index of the first entry with that name, static first, or spelled out.
   */
  lemma EncodesUnknown(cx: Codec, t: TableView, useHuffman: bool, h: HeaderField)
    requires cx.Valid() && NoneEqual(cx.predefined, h, 1) && NoneEqual(t.entries, h, 0)
    ensures var (t', bytes) := FieldBytes(cx, t, useHuffman, h);
            var value := StringBytes(cx, useHuffman, h.value);
            && t' == t.Inserted(h) && |bytes| > 0 && 0x40 <= bytes[0] <= 0x7f
            && (forall i: nat :: FirstNamed(cx.predefined, h.name, 1, i) ==> bytes == IntegerBytes(i, 6, 0x40) + value)
            && (NoneNamed(cx.predefined, h.name, 1) ==>
                  && (forall i: nat :: FirstNamed(t.entries, h.name, 0, i) ==>
                                         bytes == IntegerBytes(62 + i, 6, 0x40) + value)
                  && (NoneNamed(t.entries, h.name, 0) ==>
                        bytes == [0x40] + StringBytes(cx, useHuffman, h.name) + value))
  {
    SearchFinds(cx.predefined, h, 1);
    SearchFinds(t.entries, h, 0);
    var r := Represent(cx, t, h);
    if r.NameIndexed? {
      FirstByte(r.index, 6, 0x40);
    }
  }
}
