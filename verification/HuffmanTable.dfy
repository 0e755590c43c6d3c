/**
 The HPACK Huffman code of Appendix B of RFC 7541, and the proof that it is a complete prefix code.

 Sorted by length and then by code, the entries tile [0, 2^30). The sorted order is data too, and
 is checked entry by entry against the table.
 */
module HuffmanTable {
  import opened Bits
  import opened PrefixCodes

  datatype HuffmanCode = HuffmanCode(code: nat, bits: nat)

  type Table = seq<HuffmanCode>

  /** The bit strings that a table of numeric codes stands for. */
  function Book(t: Table): CodeBook {
    seq(|t|, s requires 0 <= s < |t| => BitsOf(t[s].code, t[s].bits))
  }

  predicate CodeFits(t: Table, s: nat) {
    s < |t| ==> t[s].code < Pow2(t[s].bits)
  }

  /** A usable table: every code fits the number of bits it is given. */
  ghost predicate FittingTable(t: Table) {
    Shaped(Book(t)) && forall s: nat :: CodeFits(t, s)
  }

  // The tables are laid out in rows of 16, so that a lookup is decided by two short case splits.

  function PickEntry(i: nat,
    x0: HuffmanCode, x1: HuffmanCode, x2: HuffmanCode, x3: HuffmanCode,
    x4: HuffmanCode, x5: HuffmanCode, x6: HuffmanCode, x7: HuffmanCode,
    x8: HuffmanCode, x9: HuffmanCode, xa: HuffmanCode, xb: HuffmanCode,
    xc: HuffmanCode, xd: HuffmanCode, xe: HuffmanCode, xf: HuffmanCode): HuffmanCode
  {
    match i
    case 0 => x0
    case 1 => x1
    case 2 => x2
    case 3 => x3
    case 4 => x4
    case 5 => x5
    case 6 => x6
    case 7 => x7
    case 8 => x8
    case 9 => x9
    case 10 => xa
    case 11 => xb
    case 12 => xc
    case 13 => xd
    case 14 => xe
    case _ => xf
  }

  /** The code of each byte value, and of the end-of-string symbol at 256. */
  function Entry(s: nat): HuffmanCode {
    match s / 16
    case 0 => PickEntry(s % 16,
      HuffmanCode(0x1ff8, 13), HuffmanCode(0x7fffd8, 23), HuffmanCode(0xfffffe2, 28), HuffmanCode(0xfffffe3, 28),
      HuffmanCode(0xfffffe4, 28), HuffmanCode(0xfffffe5, 28), HuffmanCode(0xfffffe6, 28), HuffmanCode(0xfffffe7, 28),
      HuffmanCode(0xfffffe8, 28), HuffmanCode(0xffffea, 24), HuffmanCode(0x3ffffffc, 30), HuffmanCode(0xfffffe9, 28),
      HuffmanCode(0xfffffea, 28), HuffmanCode(0x3ffffffd, 30), HuffmanCode(0xfffffeb, 28), HuffmanCode(0xfffffec, 28))
    case 1 => PickEntry(s % 16,
      HuffmanCode(0xfffffed, 28), HuffmanCode(0xfffffee, 28), HuffmanCode(0xfffffef, 28), HuffmanCode(0xffffff0, 28),
      HuffmanCode(0xffffff1, 28), HuffmanCode(0xffffff2, 28), HuffmanCode(0x3ffffffe, 30), HuffmanCode(0xffffff3, 28),
      HuffmanCode(0xffffff4, 28), HuffmanCode(0xffffff5, 28), HuffmanCode(0xffffff6, 28), HuffmanCode(0xffffff7, 28),
      HuffmanCode(0xffffff8, 28), HuffmanCode(0xffffff9, 28), HuffmanCode(0xffffffa, 28), HuffmanCode(0xffffffb, 28))
    case 2 => PickEntry(s % 16,
      HuffmanCode(0x14, 6), HuffmanCode(0x3f8, 10), HuffmanCode(0x3f9, 10), HuffmanCode(0xffa, 12),
      HuffmanCode(0x1ff9, 13), HuffmanCode(0x15, 6), HuffmanCode(0xf8, 8), HuffmanCode(0x7fa, 11),
      HuffmanCode(0x3fa, 10), HuffmanCode(0x3fb, 10), HuffmanCode(0xf9, 8), HuffmanCode(0x7fb, 11),
      HuffmanCode(0xfa, 8), HuffmanCode(0x16, 6), HuffmanCode(0x17, 6), HuffmanCode(0x18, 6))
    case 3 => PickEntry(s % 16,
      HuffmanCode(0x0, 5), HuffmanCode(0x1, 5), HuffmanCode(0x2, 5), HuffmanCode(0x19, 6),
      HuffmanCode(0x1a, 6), HuffmanCode(0x1b, 6), HuffmanCode(0x1c, 6), HuffmanCode(0x1d, 6),
      HuffmanCode(0x1e, 6), HuffmanCode(0x1f, 6), HuffmanCode(0x5c, 7), HuffmanCode(0xfb, 8),
      HuffmanCode(0x7ffc, 15), HuffmanCode(0x20, 6), HuffmanCode(0xffb, 12), HuffmanCode(0x3fc, 10))
    case 4 => PickEntry(s % 16,
      HuffmanCode(0x1ffa, 13), HuffmanCode(0x21, 6), HuffmanCode(0x5d, 7), HuffmanCode(0x5e, 7),
      HuffmanCode(0x5f, 7), HuffmanCode(0x60, 7), HuffmanCode(0x61, 7), HuffmanCode(0x62, 7),
      HuffmanCode(0x63, 7), HuffmanCode(0x64, 7), HuffmanCode(0x65, 7), HuffmanCode(0x66, 7),
      HuffmanCode(0x67, 7), HuffmanCode(0x68, 7), HuffmanCode(0x69, 7), HuffmanCode(0x6a, 7))
    case 5 => PickEntry(s % 16,
      HuffmanCode(0x6b, 7), HuffmanCode(0x6c, 7), HuffmanCode(0x6d, 7), HuffmanCode(0x6e, 7),
      HuffmanCode(0x6f, 7), HuffmanCode(0x70, 7), HuffmanCode(0x71, 7), HuffmanCode(0x72, 7),
      HuffmanCode(0xfc, 8), HuffmanCode(0x73, 7), HuffmanCode(0xfd, 8), HuffmanCode(0x1ffb, 13),
      HuffmanCode(0x7fff0, 19), HuffmanCode(0x1ffc, 13), HuffmanCode(0x3ffc, 14), HuffmanCode(0x22, 6))
    case 6 => PickEntry(s % 16,
      HuffmanCode(0x7ffd, 15), HuffmanCode(0x3, 5), HuffmanCode(0x23, 6), HuffmanCode(0x4, 5),
      HuffmanCode(0x24, 6), HuffmanCode(0x5, 5), HuffmanCode(0x25, 6), HuffmanCode(0x26, 6),
      HuffmanCode(0x27, 6), HuffmanCode(0x6, 5), HuffmanCode(0x74, 7), HuffmanCode(0x75, 7),
      HuffmanCode(0x28, 6), HuffmanCode(0x29, 6), HuffmanCode(0x2a, 6), HuffmanCode(0x7, 5))
    case 7 => PickEntry(s % 16,
      HuffmanCode(0x2b, 6), HuffmanCode(0x76, 7), HuffmanCode(0x2c, 6), HuffmanCode(0x8, 5),
      HuffmanCode(0x9, 5), HuffmanCode(0x2d, 6), HuffmanCode(0x77, 7), HuffmanCode(0x78, 7),
      HuffmanCode(0x79, 7), HuffmanCode(0x7a, 7), HuffmanCode(0x7b, 7), HuffmanCode(0x7ffe, 15),
      HuffmanCode(0x7fc, 11), HuffmanCode(0x3ffd, 14), HuffmanCode(0x1ffd, 13), HuffmanCode(0xffffffc, 28))
    case 8 => PickEntry(s % 16,
      HuffmanCode(0xfffe6, 20), HuffmanCode(0x3fffd2, 22), HuffmanCode(0xfffe7, 20), HuffmanCode(0xfffe8, 20),
      HuffmanCode(0x3fffd3, 22), HuffmanCode(0x3fffd4, 22), HuffmanCode(0x3fffd5, 22), HuffmanCode(0x7fffd9, 23),
      HuffmanCode(0x3fffd6, 22), HuffmanCode(0x7fffda, 23), HuffmanCode(0x7fffdb, 23), HuffmanCode(0x7fffdc, 23),
      HuffmanCode(0x7fffdd, 23), HuffmanCode(0x7fffde, 23), HuffmanCode(0xffffeb, 24), HuffmanCode(0x7fffdf, 23))
    case 9 => PickEntry(s % 16,
      HuffmanCode(0xffffec, 24), HuffmanCode(0xffffed, 24), HuffmanCode(0x3fffd7, 22), HuffmanCode(0x7fffe0, 23),
      HuffmanCode(0xffffee, 24), HuffmanCode(0x7fffe1, 23), HuffmanCode(0x7fffe2, 23), HuffmanCode(0x7fffe3, 23),
      HuffmanCode(0x7fffe4, 23), HuffmanCode(0x1fffdc, 21), HuffmanCode(0x3fffd8, 22), HuffmanCode(0x7fffe5, 23),
      HuffmanCode(0x3fffd9, 22), HuffmanCode(0x7fffe6, 23), HuffmanCode(0x7fffe7, 23), HuffmanCode(0xffffef, 24))
    case 10 => PickEntry(s % 16,
      HuffmanCode(0x3fffda, 22), HuffmanCode(0x1fffdd, 21), HuffmanCode(0xfffe9, 20), HuffmanCode(0x3fffdb, 22),
      HuffmanCode(0x3fffdc, 22), HuffmanCode(0x7fffe8, 23), HuffmanCode(0x7fffe9, 23), HuffmanCode(0x1fffde, 21),
      HuffmanCode(0x7fffea, 23), HuffmanCode(0x3fffdd, 22), HuffmanCode(0x3fffde, 22), HuffmanCode(0xfffff0, 24),
      HuffmanCode(0x1fffdf, 21), HuffmanCode(0x3fffdf, 22), HuffmanCode(0x7fffeb, 23), HuffmanCode(0x7fffec, 23))
    case 11 => PickEntry(s % 16,
      HuffmanCode(0x1fffe0, 21), HuffmanCode(0x1fffe1, 21), HuffmanCode(0x3fffe0, 22), HuffmanCode(0x1fffe2, 21),
      HuffmanCode(0x7fffed, 23), HuffmanCode(0x3fffe1, 22), HuffmanCode(0x7fffee, 23), HuffmanCode(0x7fffef, 23),
      HuffmanCode(0xfffea, 20), HuffmanCode(0x3fffe2, 22), HuffmanCode(0x3fffe3, 22), HuffmanCode(0x3fffe4, 22),
      HuffmanCode(0x7ffff0, 23), HuffmanCode(0x3fffe5, 22), HuffmanCode(0x3fffe6, 22), HuffmanCode(0x7ffff1, 23))
    case 12 => PickEntry(s % 16,
      HuffmanCode(0x3ffffe0, 26), HuffmanCode(0x3ffffe1, 26), HuffmanCode(0xfffeb, 20), HuffmanCode(0x7fff1, 19),
      HuffmanCode(0x3fffe7, 22), HuffmanCode(0x7ffff2, 23), HuffmanCode(0x3fffe8, 22), HuffmanCode(0x1ffffec, 25),
      HuffmanCode(0x3ffffe2, 26), HuffmanCode(0x3ffffe3, 26), HuffmanCode(0x3ffffe4, 26), HuffmanCode(0x7ffffde, 27),
      HuffmanCode(0x7ffffdf, 27), HuffmanCode(0x3ffffe5, 26), HuffmanCode(0xfffff1, 24), HuffmanCode(0x1ffffed, 25))
    case 13 => PickEntry(s % 16,
      HuffmanCode(0x7fff2, 19), HuffmanCode(0x1fffe3, 21), HuffmanCode(0x3ffffe6, 26), HuffmanCode(0x7ffffe0, 27),
      HuffmanCode(0x7ffffe1, 27), HuffmanCode(0x3ffffe7, 26), HuffmanCode(0x7ffffe2, 27), HuffmanCode(0xfffff2, 24),
      HuffmanCode(0x1fffe4, 21), HuffmanCode(0x1fffe5, 21), HuffmanCode(0x3ffffe8, 26), HuffmanCode(0x3ffffe9, 26),
      HuffmanCode(0xffffffd, 28), HuffmanCode(0x7ffffe3, 27), HuffmanCode(0x7ffffe4, 27), HuffmanCode(0x7ffffe5, 27))
    case 14 => PickEntry(s % 16,
      HuffmanCode(0xfffec, 20), HuffmanCode(0xfffff3, 24), HuffmanCode(0xfffed, 20), HuffmanCode(0x1fffe6, 21),
      HuffmanCode(0x3fffe9, 22), HuffmanCode(0x1fffe7, 21), HuffmanCode(0x1fffe8, 21), HuffmanCode(0x7ffff3, 23),
      HuffmanCode(0x3fffea, 22), HuffmanCode(0x3fffeb, 22), HuffmanCode(0x1ffffee, 25), HuffmanCode(0x1ffffef, 25),
      HuffmanCode(0xfffff4, 24), HuffmanCode(0xfffff5, 24), HuffmanCode(0x3ffffea, 26), HuffmanCode(0x7ffff4, 23))
    case 15 => PickEntry(s % 16,
      HuffmanCode(0x3ffffeb, 26), HuffmanCode(0x7ffffe6, 27), HuffmanCode(0x3ffffec, 26), HuffmanCode(0x3ffffed, 26),
      HuffmanCode(0x7ffffe7, 27), HuffmanCode(0x7ffffe8, 27), HuffmanCode(0x7ffffe9, 27), HuffmanCode(0x7ffffea, 27),
      HuffmanCode(0x7ffffeb, 27), HuffmanCode(0xffffffe, 28), HuffmanCode(0x7ffffec, 27), HuffmanCode(0x7ffffed, 27),
      HuffmanCode(0x7ffffee, 27), HuffmanCode(0x7ffffef, 27), HuffmanCode(0x7fffff0, 27), HuffmanCode(0x3ffffee, 26))
    case _ => HuffmanCode(0x3fffffff, 30)
  }

  const HUFFMAN_ENCODE: Table := seq(SYMBOLS, (s: nat) => Entry(s))

  const HUFFMAN_BOOK: CodeBook := Book(HUFFMAN_ENCODE)

  ghost function PickSymbol(i: nat,
    x0: nat, x1: nat, x2: nat, x3: nat, x4: nat, x5: nat, x6: nat, x7: nat,
    x8: nat, x9: nat, xa: nat, xb: nat, xc: nat, xd: nat, xe: nat, xf: nat): nat
  {
    match i
    case 0 => x0
    case 1 => x1
    case 2 => x2
    case 3 => x3
    case 4 => x4
    case 5 => x5
    case 6 => x6
    case 7 => x7
    case 8 => x8
    case 9 => x9
    case 10 => xa
    case 11 => xb
    case 12 => xc
    case 13 => xd
    case 14 => xe
    case _ => xf
  }

  /** The symbol of rank `r` in the order of code length, then code. */
  ghost function SymbolAt(r: nat): nat {
    match r / 16
    case 0 => PickSymbol(r % 16,
      48, 49, 50, 97, 99, 101, 105, 111, 115, 116, 32, 37, 45, 46, 47, 51)
    case 1 => PickSymbol(r % 16,
      52, 53, 54, 55, 56, 57, 61, 65, 95, 98, 100, 102, 103, 104, 108, 109)
    case 2 => PickSymbol(r % 16,
      110, 112, 114, 117, 58, 66, 67, 68, 69, 70, 71, 72, 73, 74, 75, 76)
    case 3 => PickSymbol(r % 16,
      77, 78, 79, 80, 81, 82, 83, 84, 85, 86, 87, 89, 106, 107, 113, 118)
    case 4 => PickSymbol(r % 16,
      119, 120, 121, 122, 38, 42, 44, 59, 88, 90, 33, 34, 40, 41, 63, 39)
    case 5 => PickSymbol(r % 16,
      43, 124, 35, 62, 0, 36, 64, 91, 93, 126, 94, 125, 60, 96, 123, 92)
    case 6 => PickSymbol(r % 16,
      195, 208, 128, 130, 131, 162, 184, 194, 224, 226, 153, 161, 167, 172, 176, 177)
    case 7 => PickSymbol(r % 16,
      179, 209, 216, 217, 227, 229, 230, 129, 132, 133, 134, 136, 146, 154, 156, 160)
    case 8 => PickSymbol(r % 16,
      163, 164, 169, 170, 173, 178, 181, 185, 186, 187, 189, 190, 196, 198, 228, 232)
    case 9 => PickSymbol(r % 16,
      233, 1, 135, 137, 138, 139, 140, 141, 143, 147, 149, 150, 151, 152, 155, 157)
    case 10 => PickSymbol(r % 16,
      158, 165, 166, 168, 174, 175, 180, 182, 183, 188, 191, 197, 231, 239, 9, 142)
    case 11 => PickSymbol(r % 16,
      144, 145, 148, 159, 171, 206, 215, 225, 236, 237, 199, 207, 234, 235, 192, 193)
    case 12 => PickSymbol(r % 16,
      200, 201, 202, 205, 210, 213, 218, 219, 238, 240, 242, 243, 255, 203, 204, 211)
    case 13 => PickSymbol(r % 16,
      212, 214, 221, 222, 223, 241, 244, 245, 246, 247, 248, 250, 251, 252, 253, 254)
    case 14 => PickSymbol(r % 16,
      2, 3, 4, 5, 6, 7, 8, 11, 12, 14, 15, 16, 17, 18, 19, 20)
    case 15 => PickSymbol(r % 16,
      21, 23, 24, 25, 26, 27, 28, 29, 30, 31, 127, 220, 249, 10, 13, 22)
    case _ => 256
  }

  ghost const ORDER: seq<nat> := seq(SYMBOLS, (r: nat) => SymbolAt(r))

  /** The common length of the codes around rank `r`, the first such code, and its rank. */
  ghost function Group(r: nat): (nat, nat, nat) {
    if r < 10 then (5, 0x0, 0)
    else if r < 36 then (6, 0x14, 10)
    else if r < 68 then (7, 0x5c, 36)
    else if r < 74 then (8, 0xf8, 68)
    else if r < 79 then (10, 0x3f8, 74)
    else if r < 82 then (11, 0x7fa, 79)
    else if r < 84 then (12, 0xffa, 82)
    else if r < 90 then (13, 0x1ff8, 84)
    else if r < 92 then (14, 0x3ffc, 90)
    else if r < 95 then (15, 0x7ffc, 92)
    else if r < 98 then (19, 0x7fff0, 95)
    else if r < 106 then (20, 0xfffe6, 98)
    else if r < 119 then (21, 0x1fffdc, 106)
    else if r < 145 then (22, 0x3fffd2, 119)
    else if r < 174 then (23, 0x7fffd8, 145)
    else if r < 186 then (24, 0xffffea, 174)
    else if r < 190 then (25, 0x1ffffec, 186)
    else if r < 205 then (26, 0x3ffffe0, 190)
    else if r < 224 then (27, 0x7ffffde, 205)
    else if r < 253 then (28, 0xfffffe2, 224)
    else (30, 0x3ffffffc, 253)
  }

  ghost function RankedEntry(r: nat): HuffmanCode
    requires r < SYMBOLS
  {
    var (bits, first, start) := Group(r);
    HuffmanCode(first + (r - start), bits)
  }

  ghost predicate Ranks(r: nat)
    requires r < SYMBOLS
  {
    SymbolAt(r) < SYMBOLS && Entry(SymbolAt(r)) == RankedEntry(r)
  }

  lemma RanksQuarter1(r: nat)
    requires 0 <= r < 64
    ensures Ranks(r)
  {
  }

  lemma RanksQuarter2(r: nat)
    requires 64 <= r < 128
    ensures Ranks(r)
  {
  }

  lemma RanksQuarter3(r: nat)
    requires 128 <= r < 192
    ensures Ranks(r)
  {
  }

  lemma RanksQuarter4(r: nat)
    requires 192 <= r < 257
    ensures Ranks(r)
  {
  }

  lemma RanksAll(r: nat)
    requires r < SYMBOLS
    ensures Ranks(r)
  {
    if r < 64 {
      RanksQuarter1(r);
    } else if r < 128 {
      RanksQuarter2(r);
    } else if r < 192 {
      RanksQuarter3(r);
    } else {
      RanksQuarter4(r);
    }
  }

  lemma Powers()
    ensures Pow2(5) == 0x20 && Pow2(6) == 0x40 && Pow2(7) == 0x80 && Pow2(8) == 0x100
    ensures Pow2(10) == 0x400 && Pow2(11) == 0x800 && Pow2(12) == 0x1000 && Pow2(13) == 0x2000
    ensures Pow2(14) == 0x4000 && Pow2(15) == 0x8000 && Pow2(19) == 0x8_0000 && Pow2(20) == 0x10_0000
    ensures Pow2(21) == 0x20_0000 && Pow2(22) == 0x40_0000 && Pow2(23) == 0x80_0000
    ensures Pow2(24) == 0x100_0000 && Pow2(25) == 0x200_0000 && Pow2(26) == 0x400_0000
    ensures Pow2(27) == 0x800_0000 && Pow2(28) == 0x1000_0000 && Pow2(30) == 0x4000_0000
  {
    assert Pow2(5) == 0x20;
    assert Pow2(9) == 0x200;
    assert Pow2(13) == 0x2000;
    assert Pow2(17) == 0x2_0000;
    assert Pow2(21) == 0x20_0000;
    assert Pow2(25) == 0x200_0000;
    assert Pow2(29) == 0x2000_0000;
  }

  lemma RankedFits(r: nat)
    requires r < SYMBOLS
    ensures 5 <= RankedEntry(r).bits <= MAX_BITS
    ensures RankedEntry(r).code < Pow2(RankedEntry(r).bits)
  {
    Powers();
  }

  /** Canonical codes: each is one more than its predecessor, extended with zeros to its own length. */
  lemma RankedNext(r: nat)
    requires 0 < r < SYMBOLS
    ensures var a, b := RankedEntry(r - 1), RankedEntry(r);
            a.bits <= b.bits && b.code == Shl(a.code + 1, b.bits - a.bits)
  {
    var x := RankedEntry(r - 1).code + 1;
    assert Shl(x, 0) == x && Shl(x, 1) == 2 * x && Shl(x, 2) == 4 * x && Shl(x, 4) == 16 * x;
  }

  lemma EntryInterval(e: HuffmanCode)
    requires e.bits <= MAX_BITS && e.code < Pow2(e.bits)
    ensures First(BitsOf(e.code, e.bits)) == Shl(e.code, MAX_BITS - e.bits)
    ensures Last(BitsOf(e.code, e.bits)) + 1 == Shl(e.code + 1, MAX_BITS - e.bits)
  {
    Padded(BitsOf(e.code, e.bits), MAX_BITS - e.bits);
    ValueOfBits(e.code, e.bits);
  }

  lemma Adjoins(a: HuffmanCode, b: HuffmanCode)
    requires a.bits <= b.bits <= MAX_BITS && b.code == Shl(a.code + 1, b.bits - a.bits)
    requires a.code < Pow2(a.bits) && b.code < Pow2(b.bits)
    ensures Last(BitsOf(a.code, a.bits)) + 1 == First(BitsOf(b.code, b.bits))
  {
    EntryInterval(a);
    EntryInterval(b);
    ShlTwice(a.code + 1, b.bits - a.bits, MAX_BITS - b.bits);
  }

  lemma RankedAdjoins(r: nat)
    requires 0 < r < SYMBOLS
    ensures var a, b := RankedEntry(r - 1), RankedEntry(r);
            && a.bits <= MAX_BITS && b.bits <= MAX_BITS
            && Last(BitsOf(a.code, a.bits)) + 1 == First(BitsOf(b.code, b.bits))
  {
    RankedFits(r - 1);
    RankedFits(r);
    RankedNext(r);
    Adjoins(RankedEntry(r - 1), RankedEntry(r));
  }

  // ----- Every symbol has a rank -----

  ghost function Below(n: nat): (b: set<nat>)
    ensures |b| == n
    ensures forall x: nat :: x in b <==> x < n
  {
    if n == 0 then {} else Below(n - 1) + {n - 1}
  }

  lemma SubsetSize(a: set<nat>, b: set<nat>)
    requires a <= b
    ensures |a| <= |b|
  {
    assert b == a + (b - a);
  }

  ghost function Elements(s: seq<nat>): (e: set<nat>)
    ensures forall x :: x in e <==> x in s
  {
    if s == [] then {} else Elements(s[..|s| - 1]) + {s[|s| - 1]}
  }

  lemma {:induction false} InjectiveSize(s: seq<nat>)
    requires forall i, j :: 0 <= i < j < |s| ==> s[i] != s[j]
    ensures |Elements(s)| == |s|
  {
    if s != [] {
      InjectiveSize(s[..|s| - 1]);
      assert s[|s| - 1] !in s[..|s| - 1];
    }
  }

  /** An injective sequence of n numbers below n holds each of them. */
  lemma InjectiveIsSurjective(s: seq<nat>, v: nat)
    requires forall i, j :: 0 <= i < j < |s| ==> s[i] != s[j]
    requires forall i :: 0 <= i < |s| ==> s[i] < |s|
    requires v < |s|
    ensures v in s
  {
    InjectiveSize(s);
    if v !in Elements(s) {
      SubsetSize(Elements(s), Below(|s|) - {v});
    }
  }

  lemma OrderIsInjective(i: nat, j: nat)
    requires i < j < SYMBOLS
    ensures SymbolAt(i) != SymbolAt(j)
  {
    RanksAll(i);
    RanksAll(j);
    assert RankedEntry(i) != RankedEntry(j);
  }

  lemma OrderCoversSymbols(v: nat)
    requires v < SYMBOLS
    ensures v in ORDER
  {
    forall i, j | 0 <= i < j < |ORDER|
      ensures ORDER[i] != ORDER[j]
    {
      OrderIsInjective(i, j);
    }
    forall i | 0 <= i < |ORDER|
      ensures ORDER[i] < |ORDER|
    {
      RanksAll(i);
    }
    InjectiveIsSurjective(ORDER, v);
  }

  lemma TableIsFitting()
    ensures FittingTable(HUFFMAN_ENCODE)
  {
    forall s: nat
      ensures s < SYMBOLS ==> 5 <= HUFFMAN_ENCODE[s].bits <= MAX_BITS
      ensures CodeFits(HUFFMAN_ENCODE, s)
    {
      if s < SYMBOLS {
        OrderCoversSymbols(s);
        var r :| 0 <= r < |ORDER| && ORDER[r] == s;
        RanksAll(r);
        RankedFits(r);
      }
    }
  }

  lemma BookAt(r: nat)
    requires r < SYMBOLS
    ensures ORDER[r] < SYMBOLS
    ensures HUFFMAN_BOOK[ORDER[r]] == BitsOf(RankedEntry(r).code, RankedEntry(r).bits)
  {
    RanksAll(r);
  }

  lemma BookAdjoins(r: nat)
    requires 0 < r < SYMBOLS && Shaped(HUFFMAN_BOOK)
    requires ORDER[r - 1] < SYMBOLS && ORDER[r] < SYMBOLS
    ensures Last(HUFFMAN_BOOK[ORDER[r - 1]]) + 1 == First(HUFFMAN_BOOK[ORDER[r]])
  {
    BookAt(r - 1);
    BookAt(r);
    RankedAdjoins(r);
  }

  lemma BookStarts()
    requires Shaped(HUFFMAN_BOOK) && ORDER[0] < SYMBOLS
    ensures First(HUFFMAN_BOOK[ORDER[0]]) == 0
  {
    BookAt(0);
    RankedFits(0);
    EntryInterval(RankedEntry(0));
    ShlIsProduct(0, MAX_BITS - 5);
  }

  lemma BookEnds()
    requires Shaped(HUFFMAN_BOOK) && ORDER[SYMBOLS - 1] < SYMBOLS
    ensures Last(HUFFMAN_BOOK[ORDER[SYMBOLS - 1]]) == Pow2(MAX_BITS) - 1
  {
    BookAt(SYMBOLS - 1);
    RankedFits(SYMBOLS - 1);
    LastEntry();
    EntryInterval(RankedEntry(SYMBOLS - 1));
  }

  lemma LastEntry()
    ensures RankedEntry(SYMBOLS - 1) == HuffmanCode(0x3fff_ffff, MAX_BITS)
    ensures Pow2(MAX_BITS) == 0x4000_0000
  {
    Powers();
  }

  lemma BookIsTiled()
    ensures Tiled(HUFFMAN_BOOK, ORDER)
  {
    TableIsFitting();
    forall r | 0 <= r < SYMBOLS
      ensures ORDER[r] < SYMBOLS
    {
      RanksAll(r);
    }
    forall r | 0 < r < SYMBOLS
      ensures Last(HUFFMAN_BOOK[ORDER[r - 1]]) + 1 == First(HUFFMAN_BOOK[ORDER[r]])
    {
      BookAdjoins(r);
    }
    BookStarts();
    BookEnds();
    forall s | 0 <= s < SYMBOLS
      ensures s in ORDER
    {
      OrderCoversSymbols(s);
    }
  }

  /** The table of the standard is a complete prefix code whose end-of-string code is thirty ones. */
  lemma BookIsHpackCode()
    ensures HpackCode(HUFFMAN_BOOK)
  {
    BookIsTiled();
    TiledIsPrefixCode(HUFFMAN_BOOK, ORDER);
    Powers();
    assert HUFFMAN_ENCODE[EOS] == Entry(EOS);
    BitsOfOnes(MAX_BITS);
  }
}
