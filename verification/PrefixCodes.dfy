/**
 Prefix codes over 257 symbols: the byte values and the end-of-string symbol.

 A code of n bits is the dyadic interval of all 30-bit strings that begin with it. Codes whose
 intervals tile [0, 2^30) are prefix-free, and no bit string can leave the tree they span.
 */
module PrefixCodes {
  import opened Bytes
  import opened Bits

  /** The code of each symbol, as a bit string. */
  type CodeBook = seq<seq<bool>>

  const EOS := 256
  const SYMBOLS := 257
  const MAX_BITS := 30

  /** Every symbol has a code of 5 to 30 bits. */
  predicate Shaped(book: CodeBook) {
    |book| == SYMBOLS && forall s :: 0 <= s < |book| ==> 5 <= |book[s]| <= MAX_BITS
  }

  /** `p` begins some code. */
  ghost predicate OnPath(book: CodeBook, p: seq<bool>) {
    exists s :: 0 <= s < |book| && p <= book[s]
  }

  /** `p` begins some code and is not all of it: an internal node of the code tree. */
  ghost predicate Inner(book: CodeBook, p: seq<bool>) {
    exists s :: 0 <= s < |book| && p < book[s]
  }

  ghost predicate Begins(book: CodeBook, a: nat, b: nat)
    requires a < |book| && b < |book|
  {
    book[a] <= book[b]
  }

  ghost predicate PrefixFree(book: CodeBook) {
    forall a, b :: 0 <= a < |book| && 0 <= b < |book| && Begins(book, a, b) ==> a == b
  }

  ghost predicate Branches(book: CodeBook, p: seq<bool>, b: bool) {
    Inner(book, p) ==> OnPath(book, p + [b])
  }

  ghost predicate Complete(book: CodeBook) {
    forall p, b :: Branches(book, p, b)
  }

  ghost predicate PrefixCode(book: CodeBook) {
    Shaped(book) && PrefixFree(book) && Complete(book)
  }

  /** A complete prefix code whose end-of-string code is thirty ones. */
  ghost predicate HpackCode(book: CodeBook) {
    PrefixCode(book) && book[EOS] == Ones(MAX_BITS)
  }

  lemma SamePrefix<T>(a: seq<T>, b: seq<T>, c: seq<T>)
    requires b <= c && |a| <= |b|
    ensures a <= b <==> a <= c
  {
    assert b == c[..|b|];
  }

  /** No code ends on the way to another one. */
  lemma CodeNotInner(book: CodeBook, s: nat, p: seq<bool>)
    requires PrefixFree(book) && s < |book|
    requires Inner(book, p)
    ensures !(book[s] <= p)
  {
    var x :| 0 <= x < |book| && p < book[x];
    assert s != x ==> !Begins(book, s, x);
    if |book[s]| <= |p| {
      SamePrefix(book[s], p, book[x]);
    }
  }

  lemma OnPathCases(book: CodeBook, p: seq<bool>) returns (s: nat)
    requires OnPath(book, p)
    ensures s < |book| && p <= book[s]
    ensures !Inner(book, p) ==> p == book[s]
  {
    s :| 0 <= s < |book| && p <= book[s];
  }

  lemma RootIsInner(book: CodeBook)
    requires Shaped(book)
    ensures Inner(book, [])
  {
    assert [] < book[0];
  }

  lemma InnerShorter(book: CodeBook, p: seq<bool>, q: seq<bool>)
    requires p <= q && Inner(book, q)
    ensures Inner(book, p)
  {
    var s :| 0 <= s < |book| && q < book[s];
    assert p < book[s];
  }

  // ----- Intervals -----

  ghost function Zeros(n: nat): (b: seq<bool>)
    ensures |b| == n
  {
    seq(n, _ => false)
  }

  /** The least 30-bit number that begins with `p`. */
  ghost function First(p: seq<bool>): nat
    requires |p| <= MAX_BITS
  {
    Value(p + Zeros(MAX_BITS - |p|))
  }

  /** The greatest 30-bit number that begins with `p`. */
  ghost function Last(p: seq<bool>): nat
    requires |p| <= MAX_BITS
  {
    Value(p + Ones(MAX_BITS - |p|))
  }

  lemma {:induction false} ZerosAndOnes(n: nat)
    ensures Value(Zeros(n)) == 0
    ensures Value(Ones(n)) == Pow2(n) - 1
  {
    if n != 0 {
      ZerosAndOnes(n - 1);
      assert Zeros(n)[..n - 1] == Zeros(n - 1) && Ones(n)[..n - 1] == Ones(n - 1);
    }
  }

  /** The numbers that begin with `p` and go on for `n` bits. */
  lemma Padded(p: seq<bool>, n: nat)
    ensures Value(p + Zeros(n)) == Shl(Value(p), n)
    ensures Value(p + Ones(n)) == Shl(Value(p), n) + Pow2(n) - 1
    ensures Value(p + Ones(n)) + 1 == Shl(Value(p) + 1, n)
  {
    ZerosAndOnes(n);
    ValueConcat(p, Zeros(n));
    ValueConcat(p, Ones(n));
    ShlSuccessor(Value(p), n);
  }

  lemma PrefixNested(p: seq<bool>, q: seq<bool>)
    requires p <= q && |q| <= MAX_BITS
    ensures First(p) <= First(q) <= Last(q) <= Last(p)
  {
    var r, n := q[|p|..], MAX_BITS - |q|;
    assert q == p + r;
    AppendAssociates(p, r, Zeros(n));
    AppendAssociates(p, r, Ones(n));
    Padded(p, MAX_BITS - |p|);
    Padded(q, n);
    ValueConcat(p, r + Zeros(n));
    ValueConcat(p, r + Ones(n));
    ValueBounded(r + Ones(n));
  }

  /** Cells of equal width that share a point are the same cell. */
  lemma SameCell(a: nat, b: nat, n: nat, x: nat)
    requires Shl(a, n) <= x < Shl(a + 1, n)
    requires Shl(b, n) <= x < Shl(b + 1, n)
    ensures a == b
  {
    if a < b {
      ShlMonotone(a + 1, b, n);
    } else if b < a {
      ShlMonotone(b + 1, a, n);
    }
  }

  lemma SharePoint(p: seq<bool>, q: seq<bool>, x: nat)
    requires |p| <= |q| <= MAX_BITS
    requires First(p) <= x <= Last(p) && First(q) <= x <= Last(q)
    ensures p <= q
  {
    var p' := q[..|p|];
    PrefixNested(p', q);
    SameInterval(p, p', x);
  }

  lemma SameInterval(p: seq<bool>, q: seq<bool>, x: nat)
    requires |p| == |q| <= MAX_BITS
    requires First(p) <= x <= Last(p) && First(q) <= x <= Last(q)
    ensures p == q
  {
    Padded(p, MAX_BITS - |p|);
    Padded(q, MAX_BITS - |q|);
    SameCell(Value(p), Value(q), MAX_BITS - |p|, x);
    BitsOfValue(p);
    BitsOfValue(q);
  }

  /** In the given order the intervals of the codes follow one another from 0 to 2^30. */
  ghost predicate Tiled(book: CodeBook, order: seq<nat>) {
    && Shaped(book)
    && |order| == SYMBOLS
    && (forall r :: 0 <= r < |order| ==> order[r] < |book|)
    && First(book[order[0]]) == 0
    && (forall r :: 0 < r < |order| ==> Last(book[order[r - 1]]) + 1 == First(book[order[r]]))
    && Last(book[order[SYMBOLS - 1]]) == Pow2(MAX_BITS) - 1
    && (forall s :: 0 <= s < |book| ==> s in order)
  }

  lemma {:induction false} TilesAscend(book: CodeBook, order: seq<nat>, i: nat, j: nat)
    requires Tiled(book, order) && i < j < |order|
    ensures Last(book[order[i]]) < First(book[order[j]])
    decreases j
  {
    if i + 1 < j {
      TilesAscend(book, order, i, j - 1);
      PrefixNested(book[order[j - 1]], book[order[j - 1]]);
    }
  }

  lemma {:induction false} Locate(book: CodeBook, order: seq<nat>, x: nat, n: nat) returns (r: nat)
    requires Tiled(book, order) && n < |order|
    requires x <= Last(book[order[n]])
    ensures r < |order| && First(book[order[r]]) <= x <= Last(book[order[r]])
  {
    if n == 0 || First(book[order[n]]) <= x {
      r := n;
    } else {
      r := Locate(book, order, x, n - 1);
    }
  }

  lemma TiledIsPrefixFree(book: CodeBook, order: seq<nat>)
    requires Tiled(book, order)
    ensures PrefixFree(book)
  {
    forall a, b | 0 <= a < |book| && 0 <= b < |book| && Begins(book, a, b)
      ensures a == b
    {
      PrefixNested(book[a], book[b]);
      SharedPointSameSymbol(book, order, a, b, First(book[b]));
    }
  }

  lemma SharedPointSameSymbol(book: CodeBook, order: seq<nat>, a: nat, b: nat, x: nat)
    requires Tiled(book, order) && a < |book| && b < |book|
    requires First(book[a]) <= x <= Last(book[a])
    requires First(book[b]) <= x <= Last(book[b])
    ensures a == b
  {
    assert a in order && b in order;
    var i :| 0 <= i < |order| && order[i] == a;
    var j :| 0 <= j < |order| && order[j] == b;
    if i < j {
      TilesAscend(book, order, i, j);
    } else if j < i {
      TilesAscend(book, order, j, i);
    }
  }

  /** Some code contains the first point of `p + [b]`; it cannot end at or above `p`, so it begins with `p + [b]`. */
  lemma ExtendPath(book: CodeBook, order: seq<nat>, p: seq<bool>, b: bool)
    requires Tiled(book, order) && PrefixFree(book)
    requires Inner(book, p)
    ensures OnPath(book, p + [b])
  {
    assert |p| < MAX_BITS;
    var q := p + [b];
    var x := First(q);
    ValueBounded(q + Zeros(MAX_BITS - |q|));
    PrefixNested(p, q);
    var r := Locate(book, order, x, SYMBOLS - 1);
    var s := order[r];
    CodeNotInner(book, s, p);
    if |book[s]| <= |p| {
      SharePoint(book[s], p, x);
    } else {
      SharePoint(q, book[s], x);
    }
  }

  lemma TiledIsComplete(book: CodeBook, order: seq<nat>)
    requires Tiled(book, order) && PrefixFree(book)
    ensures Complete(book)
  {
    forall p, b
      ensures Branches(book, p, b)
    {
      if Inner(book, p) {
        ExtendPath(book, order, p, b);
      }
    }
  }

  lemma TiledIsPrefixCode(book: CodeBook, order: seq<nat>)
    requires Tiled(book, order)
    ensures PrefixCode(book)
  {
    TiledIsPrefixFree(book, order);
    TiledIsComplete(book, order);
  }
}
