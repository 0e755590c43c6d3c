/**
 The Huffman coder: a 64-bit shift register on the way out, a tree walk on the way in.
 Each method is proved against the tree-free meaning of strings in `HuffmanStrings`.
 */
module Huffman {
  import opened Bytes
  import opened Bits
  import opened PrefixCodes
  import opened HuffmanTable
  import opened HuffmanStrings
  import opened HuffmanTree

  // ----- Encoding -----

  /** The number of bytes that a string takes when encoded. */
  method EncodedLen(t: Table, data: seq<byte>) returns (n: nat)
    requires FittingTable(t)
    ensures n == |EncodedString(Book(t), data)|
  {
    var bits: nat := 0;
    for i := 0 to |data|
      invariant bits == |Codes(Book(t), data[..i])|
    {
      CodesPush(Book(t), data[..i], data[i]);
      assert data[..i] + [data[i]] == data[..i + 1];
      bits := bits + t[data[i]].bits;
    }
    assert data[..|data|] == data;
    n := (bits + 7) / 8;
  }

  /**
   `(register << n) | code` in 64 bits. The shift clears the low `n` bits, so the disjunction
   with an `n`-bit code is a sum.
   */
  function ShiftIn(register: nat, code: nat, n: nat): nat {
    Low(Shl(register, n), 64) + code
  }

  lemma {:induction false} LowShl(v: nat, n: nat, m: nat)
    requires n <= m
    ensures Low(Shl(v, n), m) == Shl(Low(v, m - n), n)
  {
    if n != 0 {
      LowShl(v, n - 1, m - 1);
    }
  }

  /**
   The register is never masked: bits already emitted stay above the `k` pending ones, and are
   never read again.
   */
  lemma ShiftInBits(register: nat, code: nat, k: nat, n: nat)
    requires code < Pow2(n) && k + n <= 64
    ensures BitsOf(ShiftIn(register, code, n), k + n) == BitsOf(register, k) + BitsOf(code, n)
  {
    LowShl(register, n, 64);
    BitsJoin(Low(register, 64 - n), code, k, n);
    BitsOfLow(register, 64 - n, k);
  }

  /** The register stays a 64-bit number. */
  lemma ShiftInFits(register: nat, code: nat, n: nat)
    requires code < Pow2(n) && n <= 64
    ensures ShiftIn(register, code, n) < U64
  {
    Pow2SixtyFour();
    LowShl(register, n, 64);
    ShrLow(register, 64 - n);
    ShlBounded(Low(register, 64 - n), 64 - n, n);
  }

  function LowByte(v: nat): byte {
    v % 0x100
  }

  lemma ModUnique(v: nat, q: nat, r: nat)
    requires v == 0x100 * q + r && r < 0x100
    ensures v % 0x100 == r
  {
  }

  lemma LowEight(v: nat)
    ensures Low(v, 8) == v % 0x100
  {
    ShrLow(v, 8);
    Pow2Eight();
    ShlIsProduct(Shr(v, 8), 8);
    ModUnique(v, Shr(v, 8), Low(v, 8));
  }

  lemma LowByteBits(v: nat)
    ensures BitsOf(LowByte(v), 8) == BitsOf(v, 8)
  {
    LowEight(v);
    BitsOfLow(v, 8, 8);
  }

  /** Shifting the register right by `k` and keeping a byte takes the oldest eight pending bits. */
  lemma EmitBits(register: nat, k: nat)
    ensures BitsOf(register, k + 8) == BitsOf(LowByte(Shr(register, k)), 8) + BitsOf(register, k)
  {
    BitsSplit(register, 8, k);
    LowByteBits(Shr(register, k));
  }

  /** The bytes emitted so far and the pending bits of the register spell `codes`. */
  ghost predicate Pending(codes: seq<bool>, emitted: seq<byte>, register: nat, bitCount: nat) {
    Unpack(emitted) + BitsOf(register, bitCount) == codes
  }

  lemma ShiftInPending(codes: seq<bool>, emitted: seq<byte>, register: nat, bitCount: nat, code: nat, n: nat)
    requires Pending(codes, emitted, register, bitCount)
    requires code < Pow2(n) && bitCount + n <= 64
    ensures Pending(codes + BitsOf(code, n), emitted, ShiftIn(register, code, n), bitCount + n)
    ensures ShiftIn(register, code, n) < U64
  {
    ShiftInBits(register, code, bitCount, n);
    ShiftInFits(register, code, n);
  }

  lemma EmitPending(codes: seq<bool>, emitted: seq<byte>, register: nat, bitCount: nat)
    requires Pending(codes, emitted, register, bitCount + 8)
    ensures Pending(codes, emitted + [LowByte(Shr(register, bitCount))], register, bitCount)
  {
    var b := LowByte(Shr(register, bitCount));
    EmitBits(register, bitCount);
    UnpackPush(emitted, b);
  }

  /** The pending bits, completed with ones. */
  function FinalByte(register: nat, bitCount: nat): byte
    requires bitCount < 8
  {
    LowByte(ShiftIn(register, Pow2(8 - bitCount) - 1, 8 - bitCount))
  }

  lemma FinalByteBits(register: nat, bitCount: nat)
    requires bitCount < 8
    ensures BitsOf(FinalByte(register, bitCount), 8) == BitsOf(register, bitCount) + Ones(8 - bitCount)
  {
    var k := 8 - bitCount;
    LowByteBits(ShiftIn(register, Pow2(k) - 1, k));
    ShiftInBits(register, Pow2(k) - 1, bitCount, k);
    BitsOfOnes(k);
  }

  lemma PadLengthAfter(n: nat, q: nat, r: nat)
    requires n == 8 * q + r && 0 < r < 8
    ensures PadLength(n) == 8 - r
  {
  }

  lemma CompleteLastByte(codes: seq<bool>, emitted: seq<byte>, pending: seq<bool>, last: byte)
    requires Unpack(emitted) + pending == codes && 0 < |pending| < 8
    requires BitsOf(last, 8) == pending + Ones(8 - |pending|)
    ensures Unpack(emitted + [last]) == codes + Ones(PadLength(|codes|))
  {
    UnpackPush(emitted, last);
    PadLengthAfter(|codes|, |emitted|, |pending|);
  }

  lemma PaddedPending(book: CodeBook, data: seq<byte>, emitted: seq<byte>, register: nat, bitCount: nat)
    requires |book| == SYMBOLS && 0 < bitCount < 8
    requires Pending(Codes(book, data), emitted, register, bitCount)
    ensures emitted + [FinalByte(register, bitCount)] == EncodedString(book, data)
  {
    var last := FinalByte(register, bitCount);
    FinalByteBits(register, bitCount);
    CompleteLastByte(Codes(book, data), emitted, BitsOf(register, bitCount), last);
    PackUnpack(emitted + [last]);
  }

  lemma WholePending(book: CodeBook, data: seq<byte>, emitted: seq<byte>, register: nat)
    requires |book| == SYMBOLS && Pending(Codes(book, data), emitted, register, 0)
    ensures emitted == EncodedString(book, data)
  {
    assert PaddedCodes(book, data) == Unpack(emitted);
    PackUnpack(emitted);
  }

  /** Adds one code to the register, and moves complete bytes from it to the output. */
  method PutCode(entry: HuffmanCode, register0: nat, bitCount0: nat, out: ByteBuffer,
                 ghost codes: seq<bool>, ghost before: seq<byte>)
      returns (register: nat, bitCount: nat, ghost emitted: seq<byte>)
    requires bitCount0 < 8 && entry.bits <= MAX_BITS && entry.code < Pow2(entry.bits)
    requires Pending(codes, before, register0, bitCount0)
    modifies out
    ensures register < U64 && bitCount < 8
    ensures before <= emitted && out.bytes == old(out.bytes) + emitted[|before|..]
    ensures Pending(codes + BitsOf(entry.code, entry.bits), emitted, register, bitCount)
  {
    ShiftInPending(codes, before, register0, bitCount0, entry.code, entry.bits);
    register := ShiftIn(register0, entry.code, entry.bits);
    bitCount, emitted := bitCount0 + entry.bits, before;
    ghost var codes' := codes + BitsOf(entry.code, entry.bits);
    while bitCount >= 8
      invariant before <= emitted && out.bytes == old(out.bytes) + emitted[|before|..]
      invariant Pending(codes', emitted, register, bitCount)
    {
      bitCount := bitCount - 8;
      var b := LowByte(Shr(register, bitCount));
      EmitPending(codes', emitted, register, bitCount);
      emitted := emitted + [b];
      out.PutU8(b);
    }
  }

  method Encode(t: Table, data: seq<byte>, out: ByteBuffer)
    requires FittingTable(t)
    modifies out
    ensures out.bytes == old(out.bytes) + EncodedString(Book(t), data)
  {
    var register: nat, bitCount: nat := 0, 0;
    ghost var emitted: seq<byte> := [];
    for i := 0 to |data|
      invariant bitCount < 8 && register < U64
      invariant out.bytes == old(out.bytes) + emitted
      invariant Pending(Codes(Book(t), data[..i]), emitted, register, bitCount)
    {
      CodesStep(t, data, i);
      register, bitCount, emitted :=
        PutCode(t[data[i]], register, bitCount, out, Codes(Book(t), data[..i]), emitted);
    }
    assert data[..|data|] == data;
    if bitCount > 0 {
      PaddedPending(Book(t), data, emitted, register, bitCount);
      out.PutU8(FinalByte(register, bitCount));
    } else {
      WholePending(Book(t), data, emitted, register);
    }
  }

  lemma CodesStep(t: Table, data: seq<byte>, i: nat)
    requires FittingTable(t) && i < |data|
    ensures var e := t[data[i]];
            && e.bits <= MAX_BITS && e.code < Pow2(e.bits)
            && Codes(Book(t), data[..i + 1]) == Codes(Book(t), data[..i]) + BitsOf(e.code, e.bits)
  {
    assert |Book(t)[data[i]]| <= MAX_BITS;
    assert CodeFits(t, data[i]);
    CodesPush(Book(t), data[..i], data[i]);
    assert data[..i] + [data[i]] == data[..i + 1];
  }

  // ----- Building the tree -----

  /** The first `sym` codes are planted, and the path `cur` towards the next one. */
  ghost predicate Planting(book: CodeBook, nodes: Tree, at: map<seq<bool>, nat>, sym: nat, cur: seq<bool>) {
    && sym <= |book|
    && WellFormed(nodes) && Grown(book, nodes, at, sym, cur) && LeavesPlanted(book, nodes, at, sym)
  }

  lemma PlantNode(book: CodeBook, nodes: Tree, at: map<seq<bool>, nat>, sym: nat, cur: seq<bool>, b: bool, node: Node)
      returns (at': map<seq<bool>, nat>)
    requires Planting(book, nodes, at, sym, cur) && cur in at && nodes[at[cur]].Internal?
    requires cur + [b] !in at
    requires (node == Leaf(sym) && sym < |book| == SYMBOLS && cur + [b] == book[sym]) || node == Internal(0, 0)
    ensures at' == at[cur + [b] := |nodes|]
    ensures Planting(book, nodes[at[cur] := nodes[at[cur]].WithChild(b, |nodes|)] + [node], at', sym, cur + [b])
  {
    NewPathIsFresh(book, nodes, at, sym, cur, cur + [b], false);
    NewPathIsFresh(book, nodes, at, sym, cur, cur + [b], true);
    at' := at[cur + [b] := |nodes|];
    assert forall x: bool :: cur + [b] + [x] !in at' by {
      forall x: bool
        ensures cur + [b] + [x] !in at'
      {
        assert |cur + [b] + [x]| != |cur + [b]|;
      }
    }
    var nodes', at'' := Hang(book, nodes, at, sym, cur, b, node);
    forall s | 0 <= s < sym
      ensures LeafPlanted(book, nodes', at', s)
    {
      assert LeafPlanted(book, nodes, at, s);
    }
  }

  lemma PlantingFinished(book: CodeBook, nodes: Tree, at: map<seq<bool>, nat>, sym: nat)
    requires sym < |book| && Planting(book, nodes, at, sym, book[sym])
    requires LeafPlanted(book, nodes, at, sym)
    ensures Planting(book, nodes, at, sym + 1, [])
  {
    FinishCode(book, nodes, at, sym);
  }

  /** What the code finds at the current node: an internal node whose child is where `at` says. */
  lemma CurrentNode(book: CodeBook, nodes: Tree, at: map<seq<bool>, nat>, sym: nat, cur: seq<bool>, b: bool)
    requires PrefixCode(book) && Planting(book, nodes, at, sym, cur)
    requires sym < |book| && cur + [b] <= book[sym]
    ensures cur in at && at[cur] < |nodes| && nodes[at[cur]].Internal?
    ensures nodes[at[cur]].Child(b) == Index(at, cur + [b])
    ensures nodes[at[cur]].Child(b) == 0 <==> cur + [b] !in at
    ensures cur + [b] == book[sym] ==> cur + [b] !in at
    ensures cur + [b] in at ==> Planting(book, nodes, at, sym, cur + [b])
  {
    assert Covers(book, sym, cur, cur);
    assert cur < cur + [b] <= book[sym];
    NoCollision(book, nodes, at, sym, cur);
    assert FitsAt(book, nodes, at, cur);
    CodeIsFresh(book, nodes, at, sym, cur);
    if cur + [b] in at {
      Descend(book, nodes, at, sym, cur, b);
    }
  }

  method BuildDecodeTree(t: Table) returns (nodes: Tree)
    requires FittingTable(t) && PrefixCode(Book(t))
    ensures IsDecodeTree(Book(t), nodes)
    ensures |nodes| < 0x1_0000
  {
    nodes := [Internal(0, 0)];
    ghost var at: map<seq<bool>, nat> := map[[] := 0];
    for sym := 0 to |t|
      invariant Planting(Book(t), nodes, at, sym, [])
      invariant |nodes| <= 1 + 30 * sym
    {
      nodes, at := PlantCode(t, nodes, at, sym);
    }
    GrownIsDecodeTree(Book(t), nodes, at);
  }

  /** `n as u16` */
  function Cast16(n: nat): nat {
    if n < 0x1_0000 then n else Cast16(n - 0x1_0000)
  }

  /** Follows or creates the branch for one bit of a code: one round of the inner loop. */
  method PlantBit(ghost book: CodeBook, nodes: Tree, ghost at: map<seq<bool>, nat>, sym: nat, ghost cur: seq<bool>,
                  nodeIdx: nat, bit: bool, isLast: bool)
      returns (nodes': Tree, ghost at': map<seq<bool>, nat>, nodeIdx': nat)
    requires PrefixCode(book) && sym < |book| && Planting(book, nodes, at, sym, cur)
    requires cur + [bit] <= book[sym] && (isLast <==> cur + [bit] == book[sym])
    requires nodeIdx == Index(at, cur) && |nodes| < 0x1_0000
    ensures Planting(book, nodes', at', sym, cur + [bit])
    ensures isLast ==> LeafPlanted(book, nodes', at', sym)
    ensures !isLast ==> nodeIdx' == Index(at', cur + [bit])
    ensures |nodes'| <= |nodes| + 1
  {
    CurrentNode(book, nodes, at, sym, cur, bit);
    var child := nodes[nodeIdx].Child(bit);
    var newIdx := Cast16(|nodes|);
    nodeIdx' := child;
    if isLast {
      at' := PlantNode(book, nodes, at, sym, cur, bit, Leaf(sym));
      nodes' := nodes[nodeIdx := nodes[nodeIdx].WithChild(bit, newIdx)] + [Leaf(sym)];
    } else if child == 0 {
      at' := PlantNode(book, nodes, at, sym, cur, bit, Internal(0, 0));
      nodes' := nodes[nodeIdx := nodes[nodeIdx].WithChild(bit, newIdx)] + [Internal(0, 0)];
      nodeIdx' := newIdx;
    } else {
      nodes', at' := nodes, at;
    }
  }

  /** One round of the outer loop: adds the path of one code, and its leaf. */
  method PlantCode(t: Table, nodes0: Tree, ghost at0: map<seq<bool>, nat>, sym: nat)
      returns (nodes: Tree, ghost at: map<seq<bool>, nat>)
    requires FittingTable(t) && PrefixCode(Book(t)) && sym < |t| && Planting(Book(t), nodes0, at0, sym, [])
    requires |nodes0| <= 1 + 30 * sym
    ensures Planting(Book(t), nodes, at, sym + 1, [])
    ensures |nodes| <= 1 + 30 * (sym + 1)
  {
    nodes, at := nodes0, at0;
    var entry := t[sym];
    var nodeIdx: nat := 0;
    ghost var code := Book(t)[sym];
    ghost var cur: seq<bool> := [];
    RootIndex(Book(t), nodes, at, sym);
    for bitPos := entry.bits downto 0
      invariant Planting(Book(t), nodes, at, sym, cur)
      invariant cur == code[..entry.bits - bitPos]
      invariant bitPos > 0 ==> nodeIdx == Index(at, cur)
      invariant bitPos == 0 ==> LeafPlanted(Book(t), nodes, at, sym)
      invariant |nodes| <= 1 + 30 * sym + (entry.bits - bitPos)
    {
      var bit := Bit(entry.code, bitPos);
      BitAt(entry.code, entry.bits, entry.bits - bitPos - 1);
      nodes, at, nodeIdx := PlantBit(Book(t), nodes, at, sym, cur, nodeIdx, bit, bitPos == 0);
      cur := cur + [bit];
    }
    assert cur == code;
    PlantingFinished(Book(t), nodes, at, sym);
  }

  lemma RootIndex(book: CodeBook, nodes: Tree, at: map<seq<bool>, nat>, sym: nat)
    requires Planting(book, nodes, at, sym, [])
    ensures Index(at, []) == 0
  {
  }
}
