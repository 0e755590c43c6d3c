/**
 The decoding tree: a vector of nodes in which index 0 is the root and, as a child, means "none".
 It is grown by planting the codes one after the other.
 */
module HuffmanTree {
  import opened PrefixCodes

  datatype Node = Internal(left: nat, right: nat) | Leaf(sym: nat) {
    function Child(b: bool): nat
      requires Internal?
    {
      if b then right else left
    }

    function WithChild(b: bool, i: nat): Node
      requires Internal?
    {
      if b then this.(right := i) else this.(left := i)
    }
  }

  type Tree = seq<Node>

  /** The root is internal, every child index is in range, and leaves hold symbols. */
  ghost predicate WellFormed(tree: Tree) {
    && |tree| > 0 && tree[0].Internal?
    && forall i :: 0 <= i < |tree| ==>
         match tree[i]
         case Internal(left, right) => left < |tree| && right < |tree|
         case Leaf(sym) => sym < SYMBOLS
  }

  /** The node that the path `p` leads to from the root, or 0 if it leaves the tree. */
  ghost function NodeAt(tree: Tree, p: seq<bool>): (i: nat)
    requires WellFormed(tree)
    ensures i < |tree|
  {
    if p == [] then 0
    else
      var q := p[..|p| - 1];
      var j := NodeAt(tree, q);
      if (j == 0 && q != []) || tree[j].Leaf? then 0 else tree[j].Child(p[|p| - 1])
  }

  /** `p` leads to a node exactly if it begins a code, and to an internal one if the code goes on. */
  ghost predicate Reaches(book: CodeBook, tree: Tree, p: seq<bool>)
    requires WellFormed(tree)
  {
    && (p != [] ==> (NodeAt(tree, p) != 0 <==> OnPath(book, p)))
    && (Inner(book, p) ==> tree[NodeAt(tree, p)].Internal?)
  }

  /** The paths of the tree are exactly the beginnings of codes, and each code ends at its symbol. */
  ghost predicate IsDecodeTree(book: CodeBook, tree: Tree) {
    && WellFormed(tree)
    && (forall p :: Reaches(book, tree, p))
    && (forall s :: 0 <= s < |book| ==> tree[NodeAt(tree, book[s])] == Leaf(s))
  }

  // ----- Planting codes -----

  /** The paths present once the first `k` codes and the path `cur` are planted. */
  ghost predicate Covers(book: CodeBook, k: nat, cur: seq<bool>, p: seq<bool>)
    requires k <= |book|
  {
    p <= cur || exists s :: 0 <= s < k && p <= book[s]
  }

  ghost function Index(at: map<seq<bool>, nat>, p: seq<bool>): nat {
    if p in at then at[p] else 0
  }

  /** `node` belongs at `p`: its children are where `at` says, or it is the leaf of the code `p`. */
  ghost predicate Fits(book: CodeBook, node: Node, at: map<seq<bool>, nat>, p: seq<bool>) {
    match node
    case Internal(left, right) => left == Index(at, p + [false]) && right == Index(at, p + [true])
    case Leaf(s) => s < |book| && p == book[s]
  }

  /** The node that `at` gives for `p`, if any, is the one that belongs there. */
  ghost predicate FitsAt(book: CodeBook, tree: Tree, at: map<seq<bool>, nat>, p: seq<bool>) {
    p in at ==> at[p] < |tree| && Fits(book, tree[at[p]], at, p)
  }

  ghost predicate SameNode(at: map<seq<bool>, nat>, p: seq<bool>, q: seq<bool>) {
    p in at && q in at && at[p] == at[q]
  }

  /** `at` gives the index of every path planted so far. */
  ghost predicate Grown(book: CodeBook, tree: Tree, at: map<seq<bool>, nat>, k: nat, cur: seq<bool>)
    requires k <= |book|
  {
    && (forall p :: p in at <==> Covers(book, k, cur, p))
    && (forall p :: p in at ==> at[p] < |tree| && (at[p] == 0 <==> p == []))
    && (forall p, q :: SameNode(at, p, q) ==> p == q)
    && (forall p :: FitsAt(book, tree, at, p))
  }

  ghost predicate LeafPlanted(book: CodeBook, tree: Tree, at: map<seq<bool>, nat>, s: nat)
    requires s < |book|
  {
    book[s] in at && at[book[s]] < |tree| && tree[at[book[s]]] == Leaf(s)
  }

  ghost predicate LeavesPlanted(book: CodeBook, tree: Tree, at: map<seq<bool>, nat>, k: nat)
    requires k <= |book|
  {
    forall s :: 0 <= s < k ==> LeafPlanted(book, tree, at, s)
  }

  lemma ExtendCovers(book: CodeBook, k: nat, cur: seq<bool>, b: bool, p: seq<bool>)
    requires k <= |book|
    ensures Covers(book, k, cur + [b], p) <==> Covers(book, k, cur, p) || p == cur + [b]
  {
    assert p <= cur + [b] <==> p <= cur || p == cur + [b] by {
      if |p| <= |cur| {
        assert cur == (cur + [b])[..|cur|];
      }
    }
  }

  /** Hanging a new node below the current one keeps everything planted before. */
  lemma Hang(book: CodeBook, tree: Tree, at: map<seq<bool>, nat>, k: nat, cur: seq<bool>, b: bool, node: Node)
      returns (tree': Tree, at': map<seq<bool>, nat>)
    requires k <= |book| && Grown(book, tree, at, k, cur) && cur in at
    requires tree[at[cur]].Internal? && cur + [b] !in at
    requires Fits(book, node, at[cur + [b] := |tree|], cur + [b])
    requires WellFormed(tree) && (node == Internal(0, 0) || (node.Leaf? && node.sym < SYMBOLS))
    ensures WellFormed(tree')
    ensures tree' == tree[at[cur] := tree[at[cur]].WithChild(b, |tree|)] + [node]
    ensures at' == at[cur + [b] := |tree|]
    ensures Grown(book, tree', at', k, cur + [b])
    ensures forall p :: p in at && p != cur ==> tree'[at'[p]] == tree[at[p]]
  {
    var q := cur + [b];
    tree' := tree[at[cur] := tree[at[cur]].WithChild(b, |tree|)] + [node];
    at' := at[q := |tree|];
    forall p
      ensures p in at' <==> Covers(book, k, q, p)
    {
      ExtendCovers(book, k, cur, b, p);
    }
    forall p | p in at && p != cur
      ensures at[p] != at[cur]
    {
      assert !SameNode(at, p, cur);
    }
    forall p, p' | SameNode(at', p, p')
      ensures p == p'
    {
      assert p != p' ==> !SameNode(at, p, p');
    }
    forall p
      ensures FitsAt(book, tree', at', p)
    {
      if p in at && p != q {
        HangKeepsFit(book, tree, at, k, cur, b, p);
      }
    }
  }

  lemma HangKeepsFit(book: CodeBook, tree: Tree, at: map<seq<bool>, nat>, k: nat, cur: seq<bool>, b: bool, p: seq<bool>)
    requires k <= |book| && Grown(book, tree, at, k, cur) && cur in at
    requires tree[at[cur]].Internal? && cur + [b] !in at && p in at
    ensures var node := if p == cur then tree[at[p]].WithChild(b, |tree|) else tree[at[p]];
            Fits(book, node, at[cur + [b] := |tree|], p)
  {
    forall x: bool
      ensures p + [x] == cur + [b] <==> p == cur && x == b
    {
      assert (p + [x])[..|p|] == p && (cur + [b])[..|cur|] == cur;
      assert (p + [x])[|p|] == x && (cur + [b])[|cur|] == b;
    }
    assert FitsAt(book, tree, at, p);
  }

  /** Moving down to a node that is already there changes nothing. */
  lemma Descend(book: CodeBook, tree: Tree, at: map<seq<bool>, nat>, k: nat, cur: seq<bool>, b: bool)
    requires k <= |book| && Grown(book, tree, at, k, cur) && cur + [b] in at
    ensures Grown(book, tree, at, k, cur + [b])
  {
    forall p
      ensures p in at <==> Covers(book, k, cur + [b], p)
    {
      ExtendCovers(book, k, cur, b, p);
    }
  }

  lemma FinishCode(book: CodeBook, tree: Tree, at: map<seq<bool>, nat>, k: nat)
    requires k < |book| && Grown(book, tree, at, k, book[k])
    ensures Grown(book, tree, at, k + 1, [])
  {
    forall p
      ensures p in at <==> Covers(book, k + 1, [], p)
    {
      if p <= book[k] {
        assert Covers(book, k + 1, [], p);
      } else if s :| 0 <= s < k && p <= book[s] {
        assert Covers(book, k + 1, [], p);
      }
    }
  }

  lemma CoversShorter(book: CodeBook, k: nat, cur: seq<bool>, p: seq<bool>, q: seq<bool>)
    requires k <= |book| && p <= q && Covers(book, k, cur, q)
    ensures Covers(book, k, cur, p)
  {
    if q <= cur {
      assert p <= cur;
    } else {
      var s :| 0 <= s < k && q <= book[s];
      assert p <= book[s];
    }
  }

  /** A new internal node has no children yet. */
  lemma NewPathIsFresh(book: CodeBook, tree: Tree, at: map<seq<bool>, nat>, k: nat, cur: seq<bool>, q: seq<bool>,
                       x: bool)
    requires k <= |book| && Grown(book, tree, at, k, cur)
    requires q !in at
    ensures q + [x] !in at
  {
    if Covers(book, k, cur, q + [x]) {
      CoversShorter(book, k, cur, q, q + [x]);
    }
  }

  /** The node where a code is to end has not been planted: no earlier code is overwritten. */
  lemma CodeIsFresh(book: CodeBook, tree: Tree, at: map<seq<bool>, nat>, k: nat, cur: seq<bool>)
    requires PrefixFree(book) && k < |book| && Grown(book, tree, at, k, cur)
    requires |cur| < |book[k]|
    ensures book[k] !in at
  {
    forall s | 0 <= s < k
      ensures !(book[k] <= book[s])
    {
      assert !Begins(book, k, s);
    }
  }

  /** No leaf lies on the way to a code: the collision panic cannot happen. */
  lemma NoCollision(book: CodeBook, tree: Tree, at: map<seq<bool>, nat>, k: nat, cur: seq<bool>)
    requires PrefixFree(book) && k < |book| && Grown(book, tree, at, k, cur) && cur in at
    requires cur < book[k]
    ensures tree[at[cur]].Internal?
  {
    assert Inner(book, cur);
    assert FitsAt(book, tree, at, cur);
    if tree[at[cur]].Leaf? {
      CodeNotInner(book, tree[at[cur]].sym, cur);
    }
  }

  lemma NodeAtStep(tree: Tree, q: seq<bool>, b: bool)
    requires WellFormed(tree)
    ensures var j := NodeAt(tree, q);
            NodeAt(tree, q + [b]) == if (j == 0 && q != []) || tree[j].Leaf? then 0 else tree[j].Child(b)
  {
    assert (q + [b])[..|q|] == q;
  }

  lemma IndexStep(book: CodeBook, tree: Tree, at: map<seq<bool>, nat>, q: seq<bool>, b: bool)
    requires PrefixFree(book) && |book| > 0 && Grown(book, tree, at, |book|, [])
    ensures Index(at, q + [b]) == if q in at && tree[at[q]].Internal? then tree[at[q]].Child(b) else 0
  {
    if q in at {
      assert FitsAt(book, tree, at, q);
      if tree[at[q]].Leaf? {
        LeafEndsPath(book, tree, at, tree[at[q]].sym, q + [b]);
      }
    } else {
      NewPathIsFresh(book, tree, at, |book|, [], q, b);
    }
  }

  /** Walking the finished vector agrees with `at`. */
  lemma {:induction false} WalkAgrees(book: CodeBook, tree: Tree, at: map<seq<bool>, nat>, p: seq<bool>)
    requires PrefixFree(book) && |book| > 0 && Grown(book, tree, at, |book|, []) && WellFormed(tree)
    ensures NodeAt(tree, p) == Index(at, p)
  {
    if p == [] {
      assert Covers(book, |book|, [], p);
    } else {
      var q, b := p[..|p| - 1], p[|p| - 1];
      WalkAgrees(book, tree, at, q);
      assert p == q + [b];
      NodeAtStep(tree, q, b);
      IndexStep(book, tree, at, q, b);
    }
  }

  lemma LeafEndsPath(book: CodeBook, tree: Tree, at: map<seq<bool>, nat>, s: nat, p: seq<bool>)
    requires PrefixFree(book) && Grown(book, tree, at, |book|, []) && s < |book|
    requires book[s] < p
    ensures p !in at
  {
    if x :| 0 <= x < |book| && p <= book[x] {
      assert book[s] < book[x];
      assert Inner(book, book[s]);
      CodeNotInner(book, s, book[s]);
    }
  }

  lemma GrownReaches(book: CodeBook, tree: Tree, at: map<seq<bool>, nat>, p: seq<bool>)
    requires PrefixCode(book) && Grown(book, tree, at, |book|, []) && WellFormed(tree)
    ensures Reaches(book, tree, p)
  {
    WalkAgrees(book, tree, at, p);
    if p != [] {
      assert p in at <==> OnPath(book, p);
    }
    if Inner(book, p) {
      var x :| 0 <= x < |book| && p < book[x];
      assert Covers(book, |book|, [], p);
      assert FitsAt(book, tree, at, p);
      if tree[at[p]].Leaf? {
        CodeNotInner(book, tree[at[p]].sym, p);
      }
    }
  }

  lemma GrownIsDecodeTree(book: CodeBook, tree: Tree, at: map<seq<bool>, nat>)
    requires PrefixCode(book) && Grown(book, tree, at, |book|, []) && LeavesPlanted(book, tree, at, |book|)
             && WellFormed(tree)
    ensures IsDecodeTree(book, tree)
  {
    forall p
      ensures Reaches(book, tree, p)
    {
      GrownReaches(book, tree, at, p);
    }
    forall s | 0 <= s < |book|
      ensures tree[NodeAt(tree, book[s])] == Leaf(s)
    {
      assert LeafPlanted(book, tree, at, s);
      WalkAgrees(book, tree, at, book[s]);
    }
  }
}
