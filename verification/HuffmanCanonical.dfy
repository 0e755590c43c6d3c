/**
 Which code of Appendix B of RFC 7541 belongs to which symbol. The lengths are given in numbers, and
 the code is canonical: sorted by length, and by symbol where the lengths are equal, the codes tile
 the 30-bit numbers. Both together leave no other code.
 */
module HuffmanCanonical {
  import opened Bits
  import opened PrefixCodes
  import opened HuffmanTable

  // ----- Lengths -----

  lemma LengthsUpTo6(s: nat)
    requires s < 257 && |HUFFMAN_BOOK| == 257
    ensures |HUFFMAN_BOOK[s]| == 5 <== s in {48, 49, 50, 97, 99, 101, 105, 111, 115, 116}
    ensures |HUFFMAN_BOOK[s]| == 6 <== s in {32, 37, 45, 46, 47, 51, 52, 53, 54, 55, 56, 57, 61, 65, 95, 98, 100, 102,
              103, 104, 108, 109, 110, 112, 114, 117}
  {
  }

  lemma LengthsUpTo7(s: nat)
    requires s < 257 && |HUFFMAN_BOOK| == 257
    ensures |HUFFMAN_BOOK[s]| == 7 <== s in {58, 66, 67, 68, 69, 70, 71, 72, 73, 74, 75, 76, 77, 78, 79, 80, 81, 82,
              83, 84, 85, 86, 87, 89, 106, 107, 113, 118, 119, 120, 121, 122}
  {
  }

  lemma LengthsUpTo21(s: nat)
    requires s < 257 && |HUFFMAN_BOOK| == 257
    ensures |HUFFMAN_BOOK[s]| == 8 <== s in {38, 42, 44, 59, 88, 90}
    ensures |HUFFMAN_BOOK[s]| == 10 <== s in {33, 34, 40, 41, 63}
    ensures |HUFFMAN_BOOK[s]| == 11 <== s in {39, 43, 124}
    ensures |HUFFMAN_BOOK[s]| == 12 <== s in {35, 62}
    ensures |HUFFMAN_BOOK[s]| == 13 <== s in {0, 36, 64, 91, 93, 126}
    ensures |HUFFMAN_BOOK[s]| == 14 <== s in {94, 125}
    ensures |HUFFMAN_BOOK[s]| == 15 <== s in {60, 96, 123}
    ensures |HUFFMAN_BOOK[s]| == 19 <== s in {92, 195, 208}
    ensures |HUFFMAN_BOOK[s]| == 20 <== s in {128, 130, 131, 162, 184, 194, 224, 226}
    ensures |HUFFMAN_BOOK[s]| == 21 <== s in {153, 161, 167, 172, 176, 177, 179, 209, 216, 217, 227, 229, 230}
  {
  }

  lemma LengthsUpTo22(s: nat)
    requires s < 257 && |HUFFMAN_BOOK| == 257
    ensures |HUFFMAN_BOOK[s]| == 22 <== s in {129, 132, 133, 134, 136, 146, 154, 156, 160, 163, 164, 169, 170, 173,
              178, 181, 185, 186, 187, 189, 190, 196, 198, 228, 232, 233}
  {
  }

  lemma LengthsUpTo23(s: nat)
    requires s < 257 && |HUFFMAN_BOOK| == 257
    ensures |HUFFMAN_BOOK[s]| == 23 <== s in {1, 135, 137, 138, 139, 140, 141, 143, 147, 149, 150, 151, 152, 155, 157,
              158, 165, 166, 168, 174, 175, 180, 182, 183, 188, 191, 197, 231, 239}
  {
  }

  lemma LengthsUpTo27(s: nat)
    requires s < 257 && |HUFFMAN_BOOK| == 257
    ensures |HUFFMAN_BOOK[s]| == 24 <== s in {9, 142, 144, 145, 148, 159, 171, 206, 215, 225, 236, 237}
    ensures |HUFFMAN_BOOK[s]| == 25 <== s in {199, 207, 234, 235}
    ensures |HUFFMAN_BOOK[s]| == 26 <== s in {192, 193, 200, 201, 202, 205, 210, 213, 218, 219, 238, 240, 242, 243,
              255}
    ensures |HUFFMAN_BOOK[s]| == 27 <== s in {203, 204, 211, 212, 214, 221, 222, 223, 241, 244, 245, 246, 247, 248,
              250, 251, 252, 253, 254}
  {
  }

  lemma LengthsUpTo30(s: nat)
    requires s < 257 && |HUFFMAN_BOOK| == 257
    ensures |HUFFMAN_BOOK[s]| == 28 <== s in {2, 3, 4, 5, 6, 7, 8, 11, 12, 14, 15, 16, 17, 18, 19, 20, 21, 23, 24, 25,
              26, 27, 28, 29, 30, 31, 127, 220, 249}
    ensures |HUFFMAN_BOOK[s]| == 30 <== s in {10, 13, 22, 256}
  {
  }

  /** The length of every code: each of the 257 symbols stands in one of the sets. */
  lemma CodeLengths(s: nat)
    requires s < 257
    ensures |HUFFMAN_BOOK| == 257
    ensures |HUFFMAN_BOOK[s]| == 5 <== s in {48, 49, 50, 97, 99, 101, 105, 111, 115, 116}
    ensures |HUFFMAN_BOOK[s]| == 6 <== s in {32, 37, 45, 46, 47, 51, 52, 53, 54, 55, 56, 57, 61, 65, 95, 98, 100, 102,
              103, 104, 108, 109, 110, 112, 114, 117}
    ensures |HUFFMAN_BOOK[s]| == 7 <== s in {58, 66, 67, 68, 69, 70, 71, 72, 73, 74, 75, 76, 77, 78, 79, 80, 81, 82,
              83, 84, 85, 86, 87, 89, 106, 107, 113, 118, 119, 120, 121, 122}
    ensures |HUFFMAN_BOOK[s]| == 8 <== s in {38, 42, 44, 59, 88, 90}
    ensures |HUFFMAN_BOOK[s]| == 10 <== s in {33, 34, 40, 41, 63}
    ensures |HUFFMAN_BOOK[s]| == 11 <== s in {39, 43, 124}
    ensures |HUFFMAN_BOOK[s]| == 12 <== s in {35, 62}
    ensures |HUFFMAN_BOOK[s]| == 13 <== s in {0, 36, 64, 91, 93, 126}
    ensures |HUFFMAN_BOOK[s]| == 14 <== s in {94, 125}
    ensures |HUFFMAN_BOOK[s]| == 15 <== s in {60, 96, 123}
    ensures |HUFFMAN_BOOK[s]| == 19 <== s in {92, 195, 208}
    ensures |HUFFMAN_BOOK[s]| == 20 <== s in {128, 130, 131, 162, 184, 194, 224, 226}
    ensures |HUFFMAN_BOOK[s]| == 21 <== s in {153, 161, 167, 172, 176, 177, 179, 209, 216, 217, 227, 229, 230}
    ensures |HUFFMAN_BOOK[s]| == 22 <== s in {129, 132, 133, 134, 136, 146, 154, 156, 160, 163, 164, 169, 170, 173,
              178, 181, 185, 186, 187, 189, 190, 196, 198, 228, 232, 233}
    ensures |HUFFMAN_BOOK[s]| == 23 <== s in {1, 135, 137, 138, 139, 140, 141, 143, 147, 149, 150, 151, 152, 155, 157,
              158, 165, 166, 168, 174, 175, 180, 182, 183, 188, 191, 197, 231, 239}
    ensures |HUFFMAN_BOOK[s]| == 24 <== s in {9, 142, 144, 145, 148, 159, 171, 206, 215, 225, 236, 237}
    ensures |HUFFMAN_BOOK[s]| == 25 <== s in {199, 207, 234, 235}
    ensures |HUFFMAN_BOOK[s]| == 26 <== s in {192, 193, 200, 201, 202, 205, 210, 213, 218, 219, 238, 240, 242, 243,
              255}
    ensures |HUFFMAN_BOOK[s]| == 27 <== s in {203, 204, 211, 212, 214, 221, 222, 223, 241, 244, 245, 246, 247, 248,
              250, 251, 252, 253, 254}
    ensures |HUFFMAN_BOOK[s]| == 28 <== s in {2, 3, 4, 5, 6, 7, 8, 11, 12, 14, 15, 16, 17, 18, 19, 20, 21, 23, 24, 25,
              26, 27, 28, 29, 30, 31, 127, 220, 249}
    ensures |HUFFMAN_BOOK[s]| == 30 <== s in {10, 13, 22, 256}
  {
    LengthsUpTo6(s);
    LengthsUpTo7(s);
    LengthsUpTo21(s);
    LengthsUpTo22(s);
    LengthsUpTo23(s);
    LengthsUpTo27(s);
    LengthsUpTo30(s);
  }

  // ----- Order -----

  /** Within a length, symbols of higher rank are greater. */
  ghost predicate Ascends(r: nat)
    requires 0 < r < SYMBOLS
  {
    Group(r - 1).0 == Group(r).0 ==> SymbolAt(r - 1) < SymbolAt(r)
  }

  lemma Ascends1(r: nat)
    requires 0 < r < 48
    ensures Ascends(r)
  {
  }

  lemma Ascends2(r: nat)
    requires 48 <= r < 96
    ensures Ascends(r)
  {
  }

  lemma Ascends3(r: nat)
    requires 96 <= r < 144
    ensures Ascends(r)
  {
  }

  lemma Ascends4(r: nat)
    requires 144 <= r < 192
    ensures Ascends(r)
  {
  }

  lemma Ascends5(r: nat)
    requires 192 <= r < 224
    ensures Ascends(r)
  {
  }

  lemma Ascends6(r: nat)
    requires 224 <= r < 257
    ensures Ascends(r)
  {
  }

  lemma AscendsAll(r: nat)
    requires 0 < r < SYMBOLS
    ensures Ascends(r)
  {
    if r < 48 {
      Ascends1(r);
    } else if r < 96 {
      Ascends2(r);
    } else if r < 144 {
      Ascends3(r);
    } else if r < 192 {
      Ascends4(r);
    } else if r < 224 {
      Ascends5(r);
    } else {
      Ascends6(r);
    }
  }

  /** The ranks are sorted by length, and by symbol where the lengths are equal. */
  predicate Precedes(m: nat, s: nat, n: nat, t: nat) {
    m < n || (m == n && s < t)
  }

  lemma {:induction false} RanksSorted(i: nat, j: nat)
    requires i < j < SYMBOLS
    ensures Precedes(RankedEntry(i).bits, SymbolAt(i), RankedEntry(j).bits, SymbolAt(j))
    decreases j
  {
    RankedNext(j);
    AscendsAll(j);
    if i < j - 1 {
      RanksSorted(i, j - 1);
    }
  }

  lemma RankOf(s: nat) returns (r: nat)
    requires s < SYMBOLS
    ensures r < SYMBOLS && ORDER[r] == SymbolAt(r) == s && |HUFFMAN_BOOK[s]| == RankedEntry(r).bits
  {
    OrderCoversSymbols(s);
    r :| 0 <= r < |ORDER| && ORDER[r] == s;
    BookAt(r);
  }

  /** A shorter code, or one of the same length for a smaller symbol, comes first. */
  lemma CodesInOrder(s: nat, t: nat)
    requires s < 257 && t < 257 && Precedes(|HUFFMAN_BOOK[s]|, s, |HUFFMAN_BOOK[t]|, t)
    ensures |HUFFMAN_BOOK[s]| <= 30 && |HUFFMAN_BOOK[t]| <= 30
    ensures Last(HUFFMAN_BOOK[s]) < First(HUFFMAN_BOOK[t])
  {
    BookIsTiled();
    var i := RankOf(s);
    var j := RankOf(t);
    if j < i {
      RanksSorted(j, i);
    } else if i < j {
      TilesAscend(HUFFMAN_BOOK, ORDER, i, j);
    }
  }

  lemma ValuesInOrder(p: seq<bool>, q: seq<bool>)
    requires |p| == |q| <= MAX_BITS && Last(p) < First(q)
    ensures Value(p) < Value(q)
  {
    var n := MAX_BITS - |p|;
    Padded(p, n);
    Padded(q, n);
    if Value(q) <= Value(p) {
      ShlMonotone(Value(q), Value(p), n);
    }
  }

  /** The code is canonical: of two codes of equal length, that of the smaller symbol is the smaller number. */
  lemma Canonical(s: nat, t: nat)
    requires s < t < 257 && |HUFFMAN_BOOK[s]| == |HUFFMAN_BOOK[t]|
    ensures Value(HUFFMAN_BOOK[s]) < Value(HUFFMAN_BOOK[t])
  {
    CodesInOrder(s, t);
    ValuesInOrder(HUFFMAN_BOOK[s], HUFFMAN_BOOK[t]);
  }

  // ----- Nothing else -----

  lemma EndFollows(p: seq<bool>, q: seq<bool>)
    requires |p| == |q| <= MAX_BITS && First(p) == First(q)
    ensures p == q
  {
    Padded(p, MAX_BITS - |p|);
    Padded(q, MAX_BITS - |q|);
    PrefixNested(p, p);
    PrefixNested(q, q);
    SameInterval(p, q, First(p));
  }

  lemma {:induction false} SameTile(book: CodeBook, other: CodeBook, order: seq<nat>, r: nat)
    requires Tiled(book, order) && Tiled(other, order) && r < |order|
    requires forall s :: 0 <= s < SYMBOLS ==> |book[s]| == |other[s]|
    ensures book[order[r]] == other[order[r]]
  {
    if r > 0 {
      SameTile(book, other, order, r - 1);
    }
    EndFollows(book[order[r]], other[order[r]]);
  }

  /** A book with these lengths, whose codes tile in the same order, is the book of the standard. */
  lemma CanonicalIsUnique(book: CodeBook)
    requires Tiled(book, ORDER)
    requires forall s :: 0 <= s < SYMBOLS ==> |book[s]| == |HUFFMAN_BOOK[s]|
    ensures book == HUFFMAN_BOOK
  {
    BookIsTiled();
    forall s | 0 <= s < SYMBOLS
      ensures book[s] == HUFFMAN_BOOK[s]
    {
      var r := RankOf(s);
      SameTile(book, HUFFMAN_BOOK, ORDER, r);
    }
  }
}
