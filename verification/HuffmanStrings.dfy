/**
 What a Huffman-coded string means: which bit strings are accepted, and what they decode to.
 Everything here holds for any complete prefix code.
 */
module HuffmanStrings {
  import opened Bytes
  import opened Bits
  import opened PrefixCodes

  datatype HuffmanError = InvalidCode | EosEncountered | InvalidPadding

  /** The codes of the bytes of `s`, one after the other. */
  function Codes(book: CodeBook, s: seq<byte>): seq<bool>
    requires |book| == SYMBOLS
  {
    if s == [] then [] else Codes(book, s[..|s| - 1]) + book[s[|s| - 1]]
  }

  lemma CodesPush(book: CodeBook, s: seq<byte>, x: byte)
    requires |book| == SYMBOLS
    ensures Codes(book, s + [x]) == Codes(book, s) + book[x]
  {
    assert (s + [x])[..|s|] == s;
  }

  lemma {:induction false} CodesConcat(book: CodeBook, a: seq<byte>, b: seq<byte>)
    requires |book| == SYMBOLS
    ensures Codes(book, a + b) == Codes(book, a) + Codes(book, b)
  {
    if b == [] {
      assert a + b == a;
    } else {
      var init, last := b[..|b| - 1], b[|b| - 1];
      CodesConcat(book, a, init);
      assert a + b == (a + init) + [last] && b == init + [last];
      CodesPush(book, a + init, last);
      CodesPush(book, init, last);
    }
  }

  lemma CodesOfOne(book: CodeBook, x: byte)
    requires |book| == SYMBOLS
    ensures Codes(book, [x]) == book[x]
  {
    CodesPush(book, [], x);
    assert [] + [x] == [x];
  }

  lemma CodesFront(book: CodeBook, s: seq<byte>)
    requires |book| == SYMBOLS && s != []
    ensures Codes(book, s) == book[s[0]] + Codes(book, s[1..])
  {
    var x, rest := s[0], s[1..];
    CodesOfOne(book, x);
    CodesConcat(book, [x], rest);
    assert s == [x] + rest;
  }

  /** The number of padding bits that complete the last byte. */
  function PadLength(n: nat): (k: nat)
    ensures k < 8 && (n + k) % 8 == 0
  {
    (8 - n % 8) % 8
  }

  function PaddedCodes(book: CodeBook, s: seq<byte>): (b: seq<bool>)
    requires |book| == SYMBOLS
    ensures |b| % 8 == 0
  {
    var c := Codes(book, s);
    c + Ones(PadLength(|c|))
  }

  /** Section 5.2 of RFC 7541: the codes, padded to a byte with the first bits of the end-of-string code. */
  function EncodedString(book: CodeBook, s: seq<byte>): seq<byte>
    requires |book| == SYMBOLS
  {
    Pack(PaddedCodes(book, s))
  }

  /**
   Does `bits` spell the string `s`, followed by padding that passes the decoder's check? At most
   seven bits may follow the last code, and they must stay inside the code tree even when all but
   one of as many ones are appended to them.
   */
  ghost predicate Spells(book: CodeBook, bits: seq<bool>, s: seq<byte>)
    requires |book| == SYMBOLS
  {
    && Codes(book, s) <= bits
    && var tail := bits[|Codes(book, s)|..];
       |tail| <= 7 && (tail == [] || Inner(book, tail + Ones(|tail| - 1)))
  }

  /** Does the end-of-string code occur in `bits` where a symbol is expected? */
  ghost predicate HitsEos(book: CodeBook, bits: seq<bool>)
    requires |book| == SYMBOLS
  {
    exists s: seq<byte> :: Codes(book, s) + book[EOS] <= bits
  }

  /** The decoder's answer on a bit string, stated without a tree. */
  ghost function Decoded(book: CodeBook, bits: seq<bool>): Result<seq<byte>, HuffmanError>
    requires |book| == SYMBOLS
  {
    if exists s :: Spells(book, bits, s) then
      var s :| Spells(book, bits, s);
      Ok(s)
    else if HitsEos(book, bits) then
      Err(EosEncountered)
    else
      Err(InvalidPadding)
  }

  // ----- Parsing is unambiguous -----

  lemma TwoPrefixes<T>(a: seq<T>, b: seq<T>, c: seq<T>)
    requires a <= c && b <= c && |a| <= |b|
    ensures a <= b
  {
    assert b == c[..|b|];
  }

  lemma SameFirstCode(book: CodeBook, x: nat, y: nat, c: seq<bool>)
    requires PrefixFree(book) && x < |book| && y < |book|
    requires book[x] <= c && book[y] <= c
    ensures x == y
  {
    assert x != y ==> !Begins(book, x, y) && !Begins(book, y, x);
    if |book[x]| <= |book[y]| {
      TwoPrefixes(book[x], book[y], c);
    } else {
      TwoPrefixes(book[y], book[x], c);
    }
  }

  /** What may follow a decoded string: an unfinished code, or the end-of-string code. */
  ghost predicate Ending(book: CodeBook, tail: seq<bool>)
    requires |book| == SYMBOLS
  {
    Inner(book, tail) || book[EOS] <= tail
  }

  lemma ByteCodeNotEnding(book: CodeBook, x: byte, tail: seq<bool>)
    requires PrefixCode(book) && Ending(book, tail)
    ensures !(book[x] <= tail)
  {
    if Inner(book, tail) {
      CodeNotInner(book, x, tail);
    } else if book[x] <= tail {
      SameFirstCode(book, x, EOS, tail);
    }
  }

  lemma DropCode(book: CodeBook, bits: seq<bool>, s: seq<byte>)
    requires |book| == SYMBOLS && s != [] && Codes(book, s) <= bits
    ensures book[s[0]] <= bits
    ensures Codes(book, s[1..]) <= bits[|book[s[0]]|..]
    ensures bits[|book[s[0]]|..][|Codes(book, s[1..])|..] == bits[|Codes(book, s)|..]
  {
    CodesFront(book, s);
    var c, r := book[s[0]], Codes(book, s[1..]);
    assert bits == (c + r) + bits[|c + r|..] == c + (r + bits[|c + r|..]);
  }

  lemma {:induction false} UniqueParse(book: CodeBook, bits: seq<bool>, s: seq<byte>, s': seq<byte>)
    requires PrefixCode(book)
    requires Codes(book, s) <= bits && Ending(book, bits[|Codes(book, s)|..])
    requires Codes(book, s') <= bits && Ending(book, bits[|Codes(book, s')|..])
    ensures s == s'
  {
    if s == [] || s' == [] {
      NothingSpelled(book, bits, s);
      NothingSpelled(book, bits, s');
    } else {
      DropCode(book, bits, s);
      DropCode(book, bits, s');
      SameFirstCode(book, s[0], s'[0], bits);
      UniqueParse(book, bits[|book[s[0]]|..], s[1..], s'[1..]);
      assert s == [s[0]] + s[1..] && s' == [s'[0]] + s'[1..];
    }
  }

  lemma NothingSpelled(book: CodeBook, bits: seq<bool>, s: seq<byte>)
    requires PrefixCode(book) && Codes(book, s) <= bits
    ensures Ending(book, bits) ==> s == []
  {
    if Ending(book, bits) && s != [] {
      ByteCodeNotEnding(book, s[0], bits);
      DropCode(book, bits, s);
    }
  }

  lemma SpellsEnding(book: CodeBook, bits: seq<bool>, s: seq<byte>)
    requires PrefixCode(book) && Spells(book, bits, s)
    ensures Inner(book, bits[|Codes(book, s)|..])
  {
    var tail := bits[|Codes(book, s)|..];
    if tail == [] {
      RootIsInner(book);
    } else {
      InnerShorter(book, tail, tail + Ones(|tail| - 1));
    }
  }

  lemma SpellsUnique(book: CodeBook, bits: seq<bool>, s: seq<byte>, s': seq<byte>)
    requires PrefixCode(book) && Spells(book, bits, s) && Spells(book, bits, s')
    ensures s == s'
  {
    SpellsEnding(book, bits, s);
    SpellsEnding(book, bits, s');
    UniqueParse(book, bits, s, s');
  }

  lemma EosExcludesInner(book: CodeBook, bits: seq<bool>, s: seq<byte>)
    requires PrefixCode(book) && Codes(book, s) <= bits && Inner(book, bits[|Codes(book, s)|..])
    ensures !HitsEos(book, bits)
  {
    CodeNotInner(book, EOS, bits[|Codes(book, s)|..]);
    if s': seq<byte> :| Codes(book, s') + book[EOS] <= bits {
      assert book[EOS] == bits[|Codes(book, s')|..][..|book[EOS]|];
      UniqueParse(book, bits, s, s');
    }
  }

  /** Accepted exactly when some string is spelled, and then that string is the answer. */
  lemma DecodedOk(book: CodeBook, bits: seq<bool>, s: seq<byte>)
    requires PrefixCode(book)
    ensures Decoded(book, bits) == Ok(s) <==> Spells(book, bits, s)
  {
    if Spells(book, bits, s) {
      var s' :| Spells(book, bits, s') && Decoded(book, bits) == Ok(s');
      SpellsUnique(book, bits, s, s');
    }
  }

  /** Refused for an end-of-string code exactly when one is met. */
  lemma DecodedEos(book: CodeBook, bits: seq<bool>)
    requires PrefixCode(book)
    ensures Decoded(book, bits) == Err(EosEncountered) <==> HitsEos(book, bits)
  {
    if s :| Spells(book, bits, s) {
      SpellsEnding(book, bits, s);
      EosExcludesInner(book, bits, s);
    }
  }

  /** Everything else is refused for its padding: no bits lead out of the code. */
  lemma DecodedElse(book: CodeBook, bits: seq<bool>)
    requires PrefixCode(book)
    ensures Decoded(book, bits) == Err(InvalidPadding) <==>
              !HitsEos(book, bits) && !exists s: seq<byte> :: Spells(book, bits, s)
    ensures Decoded(book, bits) != Err(InvalidCode)
  {
    DecodedEos(book, bits);
  }

  lemma OnesInner(book: CodeBook, k: nat)
    requires HpackCode(book) && k < MAX_BITS
    ensures Inner(book, Ones(k))
  {
    assert Ones(k) < book[EOS];
  }

  /** The padding of ones stays inside the path to the end-of-string code. */
  lemma PaddingSpells(book: CodeBook, s: seq<byte>)
    requires HpackCode(book)
    ensures Spells(book, PaddedCodes(book, s), s)
  {
    var c := Codes(book, s);
    var k := PadLength(|c|);
    assert (c + Ones(k))[|c|..] == Ones(k);
    if k > 0 {
      OnesInner(book, 2 * k - 1);
      assert Ones(k) + Ones(k - 1) == Ones(2 * k - 1);
    }
  }

  /** Decoding inverts encoding, for every byte string. */
  lemma RoundTrip(book: CodeBook, s: seq<byte>)
    requires HpackCode(book)
    ensures Decoded(book, Unpack(EncodedString(book, s))) == Ok(s)
  {
    UnpackPack(PaddedCodes(book, s));
    PaddingSpells(book, s);
    DecodedOk(book, PaddedCodes(book, s), s);
  }

  /** Different strings have different encodings. */
  lemma EncodingInjective(book: CodeBook, s: seq<byte>, s': seq<byte>)
    requires HpackCode(book)
    requires EncodedString(book, s) == EncodedString(book, s')
    ensures s == s'
  {
    RoundTrip(book, s);
    RoundTrip(book, s');
  }
}
