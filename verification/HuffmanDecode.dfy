/**
 Decoding by walking the tree bit by bit. The walk is first a function of the tree and the bits;
 on a decoding tree it gives the tree-free answer of `HuffmanStrings.Decoded`.
 */
module HuffmanDecode {
  import opened Bytes
  import opened Bits
  import opened PrefixCodes
  import opened HuffmanTable
  import opened HuffmanStrings
  import opened HuffmanTree
  import Huffman

  /** After some bits: the output, the current node and the bits read since the last symbol; or an error. */
  datatype Walk = Walking(out: seq<byte>, node: nat, run: nat) | Failed(error: HuffmanError)

  ghost predicate Sound(tree: Tree, w: Walk) {
    w.Walking? ==> w.node < |tree| && tree[w.node].Internal?
  }

  function Advance(tree: Tree, w: Walk, bit: bool): (w': Walk)
    requires WellFormed(tree) && Sound(tree, w)
    ensures Sound(tree, w')
  {
    if w.Failed? then w
    else
      var next := tree[w.node].Child(bit);
      if next == 0 then Failed(InvalidCode)
      else
        match tree[next]
        case Internal(_, _) => Walking(w.out, next, w.run + 1)
        case Leaf(sym) =>
          if sym == EOS then Failed(EosEncountered)
          else Walking(w.out + [sym], 0, 0)
  }

  function Walked(tree: Tree, bits: seq<bool>): (w: Walk)
    requires WellFormed(tree)
    ensures Sound(tree, w)
  {
    if bits == [] then Walking([], 0, 0)
    else Advance(tree, Walked(tree, bits[..|bits| - 1]), bits[|bits| - 1])
  }

  /** The check on the last `k` bits: go right `k` times, stopping at the end-of-string leaf. */
  function PaddingPasses(tree: Tree, node: nat, k: nat): bool
    requires WellFormed(tree) && node < |tree|
    decreases k
  {
    if k == 0 then true
    else
      match tree[node]
      case Internal(_, right) => right != 0 && PaddingPasses(tree, right, k - 1)
      case Leaf(sym) => sym == EOS
  }

  function Finished(tree: Tree, w: Walk): Result<seq<byte>, HuffmanError>
    requires WellFormed(tree) && Sound(tree, w)
  {
    match w
    case Failed(e) => Err(e)
    case Walking(out, node, run) =>
      if node == 0 then Ok(out)
      else if run > 7 || !PaddingPasses(tree, node, run) then Err(InvalidPadding)
      else Ok(out)
  }

  lemma WalkedPush(tree: Tree, bits: seq<bool>, b: bool)
    requires WellFormed(tree)
    ensures Walked(tree, bits + [b]) == Advance(tree, Walked(tree, bits), b)
  {
    assert (bits + [b])[..|bits|] == bits;
  }

  lemma {:induction false} FailureStays(tree: Tree, bits: seq<bool>, more: seq<bool>)
    requires WellFormed(tree) && Walked(tree, bits).Failed?
    ensures Walked(tree, bits + more) == Walked(tree, bits)
  {
    if more == [] {
      assert bits + more == bits;
    } else {
      var n := |more| - 1;
      FailureStays(tree, bits, more[..n]);
      assert bits + more == bits + more[..n] + [more[n]];
      WalkedPush(tree, bits + more[..n], more[n]);
    }
  }

  // ----- The meaning of the walk on a decoding tree -----

  /** `node` is where the bits after the first `n` lead, inside the tree. */
  ghost predicate AtNode(book: CodeBook, tree: Tree, bits: seq<bool>, n: nat, node: nat)
    requires WellFormed(tree)
  {
    n <= |bits| && Inner(book, bits[n..]) && node == NodeAt(tree, bits[n..])
  }

  /** The symbols so far and the path to the current node are a parse of the bits. */
  ghost predicate Parsed(book: CodeBook, tree: Tree, bits: seq<bool>, w: Walk)
    requires |book| == SYMBOLS && WellFormed(tree)
  {
    match w
    case Failed(e) => e == EosEncountered && HitsEos(book, bits)
    case Walking(out, node, run) =>
      var n := |bits| - run;
      n >= 0 && Codes(book, out) == bits[..n] && AtNode(book, tree, bits, n, node)
  }

  lemma HitsEosStays(book: CodeBook, bits: seq<bool>, b: bool)
    requires |book| == SYMBOLS && HitsEos(book, bits)
    ensures HitsEos(book, bits + [b])
  {
    var s: seq<byte> :| Codes(book, s) + book[EOS] <= bits;
    assert Codes(book, s) + book[EOS] <= bits + [b];
  }

  lemma InnerOnPath(book: CodeBook, p: seq<bool>)
    requires Inner(book, p)
    ensures OnPath(book, p)
  {
    var x :| 0 <= x < |book| && p < book[x];
    assert p <= book[x];
  }

  /** One step down from an internal path: to a further internal path, or to the symbol it spells. */
  lemma NextNode(book: CodeBook, tree: Tree, p: seq<bool>, b: bool) returns (s: nat)
    requires PrefixCode(book) && IsDecodeTree(book, tree) && Inner(book, p)
    ensures tree[NodeAt(tree, p)].Internal?
    ensures NodeAt(tree, p + [b]) == tree[NodeAt(tree, p)].Child(b) != 0
    ensures Inner(book, p + [b]) ==> tree[NodeAt(tree, p + [b])].Internal?
    ensures !Inner(book, p + [b]) ==>
              s < SYMBOLS && p + [b] == book[s] && tree[NodeAt(tree, p + [b])] == Leaf(s)
  {
    assert Reaches(book, tree, p) && Reaches(book, tree, p + [b]);
    InnerOnPath(book, p);
    NodeAtStep(tree, p, b);
    assert Branches(book, p, b);
    s := OnPathCases(book, p + [b]);
  }

  lemma SymbolParsed(book: CodeBook, tree: Tree, bits: seq<bool>, out: seq<byte>, n: nat, sym: nat, b: bool)
    requires PrefixCode(book) && IsDecodeTree(book, tree) && sym < SYMBOLS
    requires n <= |bits| && Codes(book, out) == bits[..n] && bits[n..] + [b] == book[sym]
    ensures sym == EOS ==> HitsEos(book, bits + [b])
    ensures sym != EOS ==> Parsed(book, tree, bits + [b], Walking(out + [sym], 0, 0))
  {
    var all := bits + [b];
    assert all == bits[..n] + (bits[n..] + [b]);
    if sym == EOS {
      assert Codes(book, out) + book[EOS] <= all;
    } else {
      CodesPush(book, out, sym);
      RootIsInner(book);
      assert all[..|all|] == all && all[|all|..] == [];
    }
  }

  lemma InnerParsed(book: CodeBook, tree: Tree, bits: seq<bool>, out: seq<byte>, n: nat, b: bool)
    requires PrefixCode(book) && IsDecodeTree(book, tree)
    requires n <= |bits| && Codes(book, out) == bits[..n] && Inner(book, bits[n..] + [b])
    ensures Parsed(book, tree, bits + [b], Walking(out, NodeAt(tree, bits[n..] + [b]), |bits| - n + 1))
  {
    assert (bits + [b])[n..] == bits[n..] + [b] && (bits + [b])[..n] == bits[..n];
  }

  lemma AdvanceParsed(book: CodeBook, tree: Tree, bits: seq<bool>, w: Walk, b: bool)
    requires PrefixCode(book) && IsDecodeTree(book, tree) && Sound(tree, w)
    requires Parsed(book, tree, bits, w)
    ensures Parsed(book, tree, bits + [b], Advance(tree, w, b))
  {
    if w.Failed? {
      HitsEosStays(book, bits, b);
    } else {
      var n := |bits| - w.run;
      var s := NextNode(book, tree, bits[n..], b);
      if Inner(book, bits[n..] + [b]) {
        InnerParsed(book, tree, bits, w.out, n, b);
      } else {
        SymbolParsed(book, tree, bits, w.out, n, s, b);
      }
    }
  }

  lemma {:induction false} WalkedParsed(book: CodeBook, tree: Tree, bits: seq<bool>)
    requires PrefixCode(book) && IsDecodeTree(book, tree)
    ensures Parsed(book, tree, bits, Walked(tree, bits))
  {
    if bits == [] {
      RootIsInner(book);
    } else {
      var init, last := bits[..|bits| - 1], bits[|bits| - 1];
      WalkedParsed(book, tree, init);
      AdvanceParsed(book, tree, init, Walked(tree, init), last);
      assert init + [last] == bits;
    }
  }

  /**
   What the padding check really establishes: the path stays inside the tree when all but one of
   the `k` ones are appended. It does not look at the padding bits themselves.
   */
  lemma {:induction false} PaddingMeaning(book: CodeBook, tree: Tree, p: seq<bool>, k: nat)
    requires HpackCode(book) && IsDecodeTree(book, tree)
    requires Inner(book, p) && |p| + k < MAX_BITS
    ensures PaddingPasses(tree, NodeAt(tree, p), k) <==> k == 0 || Inner(book, p + Ones(k - 1))
    decreases k
  {
    if k > 0 {
      var q := p + [true];
      var s := NextNode(book, tree, p, true);
      if k == 1 {
        assert p + Ones(0) == p;
      } else {
        assert p + Ones(k - 1) == q + Ones(k - 2);
        if Inner(book, q) {
          PaddingMeaning(book, tree, q, k - 1);
        } else {
          LeafStopsPadding(book, s, q + Ones(k - 2));
        }
      }
    }
  }

  lemma LeafStopsPadding(book: CodeBook, s: nat, p: seq<bool>)
    requires HpackCode(book) && s < SYMBOLS && book[s] <= p && |p| < MAX_BITS
    ensures s != EOS && !Inner(book, p)
  {
    if Inner(book, p) {
      CodeNotInner(book, s, p);
    }
  }

  /** Walking a decoding tree gives the tree-free answer; in particular it never reports an invalid code. */
  lemma WalkDecodes(book: CodeBook, tree: Tree, bits: seq<bool>)
    requires HpackCode(book) && IsDecodeTree(book, tree)
    ensures Finished(tree, Walked(tree, bits)) == Decoded(book, bits)
  {
    WalkedParsed(book, tree, bits);
    var w := Walked(tree, bits);
    if w.Failed? {
      DecodedEos(book, bits);
    } else {
      var n := |bits| - w.run;
      assert Codes(book, w.out) <= bits && |Codes(book, w.out)| == n;
      if n < |bits| {
        assert Reaches(book, tree, bits[n..]);
        InnerOnPath(book, bits[n..]);
        if w.run <= 7 {
          PaddingMeaning(book, tree, bits[n..], w.run);
        }
      }
      DecodedWhenInner(book, bits, w.out);
    }
  }

  lemma DecodedWhenInner(book: CodeBook, bits: seq<bool>, s: seq<byte>)
    requires PrefixCode(book) && Codes(book, s) <= bits && Inner(book, bits[|Codes(book, s)|..])
    ensures Decoded(book, bits) == if Spells(book, bits, s) then Ok(s) else Err(InvalidPadding)
  {
    EosExcludesInner(book, bits, s);
    DecodedOk(book, bits, s);
    if s' :| Spells(book, bits, s') {
      SpellsEnding(book, bits, s');
      UniqueParse(book, bits, s, s');
    }
  }

  // ----- The loops -----

  method CheckPadding(tree: Tree, node: nat, k: nat) returns (ok: bool)
    requires WellFormed(tree) && node < |tree|
    ensures ok == PaddingPasses(tree, node, k)
  {
    var checkNode: nat := node;
    for i := 0 to k
      invariant checkNode < |tree|
      invariant PaddingPasses(tree, node, k) == PaddingPasses(tree, checkNode, k - i)
    {
      match tree[checkNode]
      case Internal(_, right) =>
        if right == 0 {
          return false;
        }
        checkNode := right;
      case Leaf(sym) =>
        return sym == EOS;
    }
    return true;
  }

  ghost function Min(a: nat, b: nat): nat {
    if a < b then a else b
  }

  /** What the walk has done to the decoder's variables. */
  ghost predicate Holds(tree: Tree, w: Walk, bits: seq<bool>, nodeIdx: nat)
    requires WellFormed(tree)
  {
    w.Walking? && Sound(tree, w) && w == Walked(tree, bits) && nodeIdx == w.node
  }

  lemma HoldsNext(tree: Tree, w: Walk, before: seq<bool>, byteBits: seq<bool>, k: nat, nodeIdx: nat) returns (w': Walk)
    requires WellFormed(tree) && k < |byteBits| && Holds(tree, w, before + byteBits[..k], nodeIdx)
    ensures w' == Advance(tree, w, byteBits[k]) == Walked(tree, before + byteBits[..k + 1])
  {
    w' := Advance(tree, w, byteBits[k]);
    assert before + byteBits[..k + 1] == before + byteBits[..k] + [byteBits[k]];
    WalkedPush(tree, before + byteBits[..k], byteBits[k]);
  }

  /** The walk over the bits of one byte. */
  method DecodeByte(tree: Tree, b: byte, isLastByte: bool, out: ByteBuffer, nodeIdx0: nat,
                    ghost w0: Walk, ghost before: seq<bool>)
      returns (error: Option<HuffmanError>, nodeIdx: nat, paddingBits: nat, ghost w: Walk, ghost k: nat)
    requires WellFormed(tree) && Holds(tree, w0, before, nodeIdx0)
    modifies out
    ensures old(out.bytes) <= out.bytes
    ensures error.None? ==> k == 8 && Holds(tree, w, before + BitsOf(b, 8), nodeIdx)
    ensures error.None? ==> w0.out <= w.out && out.bytes == old(out.bytes) + w.out[|w0.out|..]
    ensures error.None? ==> paddingBits == if isLastByte then Min(w.run, 8) else 0
    ensures error.Some? ==> k <= 8 && Walked(tree, before + BitsOf(b, 8)[..k]) == Failed(error.value)
  {
    nodeIdx, paddingBits, w, k := nodeIdx0, 0, w0, 0;
    ghost var byteBits := BitsOf(b, 8);
    assert before + byteBits[..0] == before;
    for bitPos := 8 downto 0
      invariant k == 8 - bitPos && Holds(tree, w, before + byteBits[..k], nodeIdx)
      invariant w0.out <= w.out && out.bytes == old(out.bytes) + w.out[|w0.out|..]
      invariant paddingBits == if isLastByte then Min(w.run, k) else 0
    {
      var bit := Bit(b, bitPos);
      BitAt(b, 8, k);
      w := HoldsNext(tree, w, before, byteBits, k, nodeIdx);
      k := k + 1;
      nodeIdx := tree[nodeIdx].Child(bit);
      if nodeIdx == 0 {
        return Some(InvalidCode), nodeIdx, paddingBits, w, k;
      }
      match tree[nodeIdx]
      case Leaf(sym) =>
        if sym == EOS {
          return Some(EosEncountered), nodeIdx, paddingBits, w, k;
        }
        out.PutU8(sym);
        nodeIdx := 0;
        paddingBits := 0;
      case Internal(_, _) =>
        if isLastByte {
          paddingBits := paddingBits + 1;
        }
    }
    error := None;
    assert byteBits[..8] == byteBits;
  }

  /** The walk over whole bytes. Padding bits are counted in the last byte only. */
  method DecodeWith(tree: Tree, data: seq<byte>, out: ByteBuffer) returns (r: Result<(), HuffmanError>)
    requires WellFormed(tree)
    modifies out
    ensures match Finished(tree, Walked(tree, Unpack(data)))
            case Ok(s) => r == Ok(()) && out.bytes == old(out.bytes) + s
            case Err(e) => r == Err(e) && old(out.bytes) <= out.bytes
  {
    var nodeIdx: nat, paddingBits: nat := 0, 0;
    ghost var w := Walking([], 0, 0);
    for i := 0 to |data|
      invariant Holds(tree, w, Unpack(data[..i]), nodeIdx)
      invariant out.bytes == old(out.bytes) + w.out
      invariant i == |data| > 0 ==> paddingBits == Min(w.run, 8)
    {
      ghost var before, k := Unpack(data[..i]), 0;
      UnpackPush(data[..i], data[i]);
      assert data[..i] + [data[i]] == data[..i + 1];
      var error;
      error, nodeIdx, paddingBits, w, k := DecodeByte(tree, data[i], i == |data| - 1, out, nodeIdx, w, before);
      if error.Some? {
        StopsHere(tree, data, i, BitsOf(data[i], 8), k);
        return Err(error.value);
      }
    }
    assert data[..|data|] == data;
    if nodeIdx != 0 {
      if paddingBits > 7 {
        return Err(InvalidPadding);
      }
      var ok := CheckPadding(tree, nodeIdx, paddingBits);
      if !ok {
        return Err(InvalidPadding);
      }
    }
    return Ok(());
  }

  lemma {:induction false} UnpackConcat(a: seq<byte>, b: seq<byte>)
    ensures Unpack(a + b) == Unpack(a) + Unpack(b)
  {
    if b == [] {
      assert a + b == a;
    } else {
      var init, last := b[..|b| - 1], b[|b| - 1];
      UnpackConcat(a, init);
      assert a + b == (a + init) + [last];
      UnpackPush(a + init, last);
      UnpackPush(init, last);
      assert init + [last] == b;
    }
  }

  lemma Regroup<T>(a: seq<T>, b: seq<T>, k: nat, c: seq<T>)
    requires k <= |b|
    ensures a + b + c == (a + b[..k]) + (b[k..] + c)
  {
  }

  /** An error met inside byte `i` is the answer for the whole string. */
  lemma StopsHere(tree: Tree, data: seq<byte>, i: nat, byteBits: seq<bool>, k: nat)
    requires WellFormed(tree) && i < |data| && k <= |byteBits|
    requires Unpack(data[..i + 1]) == Unpack(data[..i]) + byteBits
    requires Walked(tree, Unpack(data[..i]) + byteBits[..k]).Failed?
    ensures Walked(tree, Unpack(data)) == Walked(tree, Unpack(data[..i]) + byteBits[..k])
  {
    var before, rest := Unpack(data[..i]), Unpack(data[i + 1..]);
    UnpackConcat(data[..i + 1], data[i + 1..]);
    assert data[..i + 1] + data[i + 1..] == data;
    Regroup(before, byteBits, k, rest);
    FailureStays(tree, before + byteBits[..k], byteBits[k..] + rest);
  }

  /** Decodes a Huffman string; the tree is built for the occasion rather than cached. */
  method Decode(t: Table, data: seq<byte>, out: ByteBuffer) returns (r: Result<(), HuffmanError>)
    requires FittingTable(t) && HpackCode(Book(t))
    modifies out
    ensures match Decoded(Book(t), Unpack(data))
            case Ok(s) => r == Ok(()) && out.bytes == old(out.bytes) + s
            case Err(e) => r == Err(e) && old(out.bytes) <= out.bytes
  {
    var tree := Huffman.BuildDecodeTree(t);
    WalkDecodes(Book(t), tree, Unpack(data));
    if data == [] {
      return Ok(());
    }
    r := DecodeWith(tree, data, out);
  }
}
