/** How far the decoder's padding check is from section 5.2 of RFC 7541, which asks for ones. */
module HuffmanPadding {
  import opened Bytes
  import opened Bits
  import opened PrefixCodes
  import opened HuffmanTable
  import opened HuffmanStrings

  lemma PaddedLength(n: nat, k: nat)
    requires k < 8 && (n + k) % 8 == 0
    ensures k == PadLength(n)
  {
  }

  lemma SameTail<T>(a: seq<T>, b: seq<T>, c: seq<T>)
    ensures a + b == a + c <==> b == c
  {
    assert (a + b)[|a|..] == b && (a + c)[|a|..] == c;
  }

  /**
   Bytes that spell a string are what the encoder would have written for it exactly when they are
   padded with ones.
   */
  lemma PaddingDecides(book: CodeBook, data: seq<byte>, s: seq<byte>, tail: seq<bool>)
    requires |book| == SYMBOLS && Unpack(data) == Codes(book, s) + tail && |tail| < 8
    ensures data == EncodedString(book, s) <==> tail == Ones(|tail|)
  {
    PaddedLength(|Codes(book, s)|, |tail|);
    UnpackPack(PaddedCodes(book, s));
    PackUnpack(data);
    SameTail(Codes(book, s), tail, Ones(|tail|));
  }

  /** Accepted bytes are canonical exactly when the bits after the last code are ones. */
  lemma CanonicalExactly(book: CodeBook, data: seq<byte>, s: seq<byte>)
    requires HpackCode(book) && Decoded(book, Unpack(data)) == Ok(s)
    ensures var bits, c := Unpack(data), Codes(book, s);
            c <= bits && (data == EncodedString(book, s) <==> bits[|c|..] == Ones(|bits| - |c|))
  {
    DecodedOk(book, Unpack(data), s);
    var tail := Unpack(data)[|Codes(book, s)|..];
    assert Unpack(data) == Codes(book, s) + tail;
    PaddingDecides(book, data, s, tail);
  }

  /** One padding bit of either value is accepted if a code begins with it. */
  lemma OneBitAccepted(book: CodeBook, s: seq<byte>, b: bool)
    requires HpackCode(book) && Inner(book, [b])
    ensures Decoded(book, Codes(book, s) + [b]) == Ok(s)
  {
    var bits := Codes(book, s) + [b];
    assert bits[|Codes(book, s)|..] == [b];
    assert [b] + Ones(0) == [b];
    assert Spells(book, bits, s);
    DecodedOk(book, bits, s);
  }

  lemma CodesOfColonAndZero()
    ensures HUFFMAN_BOOK[0x3a] == BitsOf(0x5c, 7) && HUFFMAN_BOOK[0x30] == BitsOf(0, 5)
  {
    assert HUFFMAN_ENCODE[0x3a] == Entry(0x3a) && HUFFMAN_ENCODE[0x30] == Entry(0x30);
  }

  lemma BitsOfByte(v: nat, x: byte)
    requires x == 2 * v
    ensures Unpack([x]) == BitsOf(v, 7) + [false]
  {
    UnpackPush([], x);
    assert [] + [x] == [x] && [] + BitsOf(x, 8) == BitsOf(x, 8);
  }

  lemma ZeroBegins(n: nat)
    requires n > 1
    ensures [false] < BitsOf(0, n)
  {
    BitAt(0, n, 0);
    ZeroBit(n - 1);
  }

  lemma {:induction false} ZeroBit(k: nat)
    ensures !Bit(0, k)
  {
    if k > 0 {
      ZeroBit(k - 1);
    }
  }

  lemma ZeroPaddedCode(book: CodeBook, x: byte, y: byte, data: seq<byte>)
    requires HpackCode(book) && [false] < book[y] && Unpack(data) == book[x] + [false]
    ensures Decoded(book, Unpack(data)) == Ok([x]) && EncodedString(book, [x]) != data
  {
    CodesOfOne(book, x);
    assert Inner(book, [false]);
    OneBitAccepted(book, [x], false);
    PaddingDecides(book, data, [x], [false]);
    assert Ones(1)[0];
  }

  /** The byte b8 is the code of a colon and a zero bit: it is accepted, but is not how a colon is written. */
  lemma ZeroPaddingAccepted()
    ensures Decoded(HUFFMAN_BOOK, Unpack([0xb8])) == Ok([0x3a])
    ensures EncodedString(HUFFMAN_BOOK, [0x3a]) != [0xb8]
  {
    BookIsHpackCode();
    CodesOfColonAndZero();
    BitsOfByte(0x5c, 0xb8);
    ZeroBegins(5);
    ZeroPaddedCode(HUFFMAN_BOOK, 0x3a, 0x30, [0xb8]);
  }
}
