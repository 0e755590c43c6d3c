/** Bit strings, most significant bit first, and their relation to numbers and bytes. */
module Bits {
  import opened Bytes

  function Pow2(n: nat): (p: nat)
    ensures p >= 1
  {
    if n == 0 then 1 else 2 * Pow2(n - 1)
  }

  /** `v >> m` */
  function Shr(v: nat, m: nat): nat {
    if m == 0 then v else Shr(v / 2, m - 1)
  }

  /** Is bit `k` of `v` set? */
  function Bit(v: nat, k: nat): bool {
    if k == 0 then v % 2 == 1 else Bit(v / 2, k - 1)
  }

  /** The low `n` bits of `v`. */
  function BitsOf(v: nat, n: nat): (b: seq<bool>)
    ensures |b| == n
  {
    if n == 0 then [] else BitsOf(v / 2, n - 1) + [v % 2 == 1]
  }

  lemma {:induction false} BitAt(v: nat, n: nat, i: nat)
    requires i < n
    ensures BitsOf(v, n)[i] == Bit(v, n - 1 - i)
  {
    if i < n - 1 {
      BitAt(v / 2, n - 1, i);
    }
  }

  function Value(b: seq<bool>): nat {
    if b == [] then 0 else 2 * Value(b[..|b| - 1]) + if b[|b| - 1] then 1 else 0
  }

  lemma {:induction false} ValueBounded(b: seq<bool>)
    ensures Value(b) < Pow2(|b|)
  {
    if b != [] {
      ValueBounded(b[..|b| - 1]);
    }
  }

  lemma {:induction false} BitsOfValue(b: seq<bool>)
    ensures BitsOf(Value(b), |b|) == b
  {
    if b != [] {
      BitsOfValue(b[..|b| - 1]);
    }
  }

  lemma {:induction false} ValueOfBits(v: nat, n: nat)
    requires v < Pow2(n)
    ensures Value(BitsOf(v, n)) == v
  {
    if n != 0 {
      ValueOfBits(v / 2, n - 1);
      assert BitsOf(v, n)[..n - 1] == BitsOf(v / 2, n - 1);
    }
  }

  /** `v` reduced to its low `m` bits, as a cast to an `m`-bit type does. */
  function Low(v: nat, m: nat): nat {
    if m == 0 then 0 else 2 * Low(v / 2, m - 1) + v % 2
  }

  /** `v << m`, before any truncation. */
  function Shl(v: nat, m: nat): nat {
    if m == 0 then v else 2 * Shl(v, m - 1)
  }

  lemma {:induction false} ValueConcat(p: seq<bool>, q: seq<bool>)
    ensures Value(p + q) == Shl(Value(p), |q|) + Value(q)
  {
    if q == [] {
      assert p + q == p;
    } else {
      var q' := q[..|q| - 1];
      ValueConcat(p, q');
      assert (p + q)[..|p + q| - 1] == p + q';
    }
  }

  lemma {:induction false} ShlSuccessor(v: nat, m: nat)
    ensures Shl(v + 1, m) == Shl(v, m) + Pow2(m)
  {
    if m != 0 {
      ShlSuccessor(v, m - 1);
    }
  }

  lemma {:induction false} ShlMonotone(v: nat, w: nat, m: nat)
    requires v <= w
    ensures Shl(v, m) <= Shl(w, m)
  {
    if m != 0 {
      ShlMonotone(v, w, m - 1);
    }
  }

  lemma {:induction false} Pow2Monotone(m: nat, n: nat)
    requires m <= n
    ensures Pow2(m) <= Pow2(n)
  {
    if m < n {
      Pow2Monotone(m, n - 1);
    }
  }

  lemma {:induction false} ShlTwice(v: nat, m: nat, n: nat)
    ensures Shl(Shl(v, m), n) == Shl(v, m + n)
  {
    if n != 0 {
      ShlTwice(v, m, n - 1);
    }
  }

  /** A left shift multiplies by a power of two. */
  lemma {:induction false} ShlIsProduct(v: nat, m: nat)
    ensures Shl(v, m) == v * Pow2(m)
  {
    if m != 0 {
      ShlIsProduct(v, m - 1);
    }
  }

  /** Right shift and truncation are quotient and remainder by a power of two. */
  lemma {:induction false} ShrLow(v: nat, m: nat)
    ensures v == Shl(Shr(v, m), m) + Low(v, m)
    ensures Low(v, m) < Pow2(m)
  {
    if m != 0 {
      ShrLow(v / 2, m - 1);
    }
  }

  /** A number of `m` bits shifted left by `n` leaves room for `n` bits below 2^(m+n). */
  lemma {:induction false} ShlBounded(v: nat, m: nat, n: nat)
    requires v < Pow2(m)
    ensures Shl(v, n) + Pow2(n) <= Pow2(m + n)
  {
    if n != 0 {
      ShlBounded(v, m, n - 1);
    }
  }

  /** Putting `b` below `a` in a register concatenates their bits. */
  lemma {:induction false} BitsJoin(a: nat, b: nat, n: nat, m: nat)
    requires b < Pow2(m)
    ensures BitsOf(Shl(a, m) + b, n + m) == BitsOf(a, n) + BitsOf(b, m)
  {
    if m == 0 {
    } else {
      BitsJoin(a, b / 2, n, m - 1);
    }
  }

  /** Bits above the `k` that are read do not matter. */
  lemma {:induction false} BitsOfLow(v: nat, m: nat, k: nat)
    requires k <= m
    ensures BitsOf(Low(v, m), k) == BitsOf(v, k)
  {
    if k != 0 {
      BitsOfLow(v / 2, m - 1, k - 1);
    }
  }

  /** Shifting right by `m` drops the low `m` bits. */
  lemma {:induction false} BitsSplit(v: nat, n: nat, m: nat)
    ensures BitsOf(v, n + m) == BitsOf(Shr(v, m), n) + BitsOf(v, m)
  {
    if m != 0 {
      BitsSplit(v / 2, n, m - 1);
    }
  }

  function Ones(n: nat): (b: seq<bool>)
    ensures |b| == n
  {
    seq(n, _ => true)
  }

  lemma {:induction false} BitsOfOnes(n: nat)
    ensures BitsOf(Pow2(n) - 1, n) == Ones(n)
  {
    if n != 0 {
      BitsOfOnes(n - 1);
      assert Ones(n) == Ones(n - 1) + [true];
    }
  }

  const U64 := 0x1_0000_0000_0000_0000

  lemma Pow2SixtyFour()
    ensures Pow2(64) == U64
  {
    assert Pow2(8) == 0x100;
    assert Pow2(16) == 0x1_0000;
    assert Pow2(24) == 0x100_0000;
    assert Pow2(32) == 0x1_0000_0000;
    assert Pow2(40) == 0x100_0000_0000;
    assert Pow2(48) == 0x1_0000_0000_0000;
    assert Pow2(56) == 0x100_0000_0000_0000;
  }

  lemma Pow2Eight()
    ensures Pow2(8) == 256
  {
    assert Pow2(4) == 16;
  }

  /** The bits of a byte string, first byte first. */
  function Unpack(s: seq<byte>): (b: seq<bool>)
    ensures |b| == 8 * |s|
  {
    if s == [] then [] else Unpack(s[..|s| - 1]) + BitsOf(s[|s| - 1], 8)
  }

  lemma UnpackPush(s: seq<byte>, x: byte)
    ensures Unpack(s + [x]) == Unpack(s) + BitsOf(x, 8)
  {
    assert (s + [x])[..|s|] == s;
  }

  /** The byte string with the given bits. */
  function Pack(b: seq<bool>): (s: seq<byte>)
    requires |b| % 8 == 0
    ensures |s| == |b| / 8
  {
    if b == [] then []
    else
      var n := |b| - 8;
      ValueBounded(b[n..]);
      Pow2Eight();
      Pack(b[..n]) + [Value(b[n..])]
  }

  lemma PackJoin(b: seq<bool>, last: seq<bool>)
    requires |b| % 8 == 0 && |last| == 8
    ensures Value(last) < 256 && Pack(b + last) == Pack(b) + [Value(last)]
  {
    ValueBounded(last);
    Pow2Eight();
    assert (b + last)[..|b|] == b && (b + last)[|b|..] == last;
  }

  lemma LastEight(b: seq<bool>) returns (init: seq<bool>, last: seq<bool>)
    requires |b| >= 8
    ensures b == init + last && |last| == 8
  {
    init, last := b[..|b| - 8], b[|b| - 8..];
  }

  lemma {:induction false} UnpackPack(b: seq<bool>)
    requires |b| % 8 == 0
    ensures Unpack(Pack(b)) == b
    decreases |b|
  {
    if b != [] {
      var init, last := LastEight(b);
      UnpackPack(init);
      PackJoin(init, last);
      UnpackPush(Pack(init), Value(last));
      BitsOfValue(last);
    }
  }

  lemma PackPush(b: seq<bool>, x: byte)
    requires |b| % 8 == 0
    ensures Pack(b + BitsOf(x, 8)) == Pack(b) + [x]
  {
    PackJoin(b, BitsOf(x, 8));
    Pow2Eight();
    ValueOfBits(x, 8);
  }

  lemma LastByte(s: seq<byte>) returns (init: seq<byte>, x: byte)
    requires s != []
    ensures s == init + [x]
  {
    init, x := s[..|s| - 1], s[|s| - 1];
  }

  lemma {:induction false} PackUnpack(s: seq<byte>)
    ensures Pack(Unpack(s)) == s
    decreases |s|
  {
    if s != [] {
      var init, x := LastByte(s);
      PackUnpack(init);
      UnpackPush(init, x);
      PackPush(Unpack(init), x);
    }
  }
}
