/**
 Flow control windows. They live in 32-bit integers whose arithmetic wraps, except that crediting a
 WINDOW_UPDATE is checked.
 */
module FlowControl {
  import opened Bytes

  // ----- 32-bit integers -----

  const MAX_WINDOW := 0x7fff_ffff

  type i32 = x: int | -0x8000_0000 <= x < 0x8000_0000

  /** The 32-bit two's complement integer that is congruent to `x`. */
  function Wrap(x: int): (r: i32)
    ensures -0x8000_0000 <= x < 0x8000_0000 ==> r == x
    decreases if x >= 0x8000_0000 then x else if x < -0x8000_0000 then -x else 0
  {
    if x >= 0x8000_0000 then Wrap(x - 0x1_0000_0000)
    else if x < -0x8000_0000 then Wrap(x + 0x1_0000_0000)
    else x
  }

  lemma WrapUp(x: int)
    ensures Wrap(x + 0x1_0000_0000) == Wrap(x)
    decreases if x >= 0x8000_0000 then x else if x < -0x8000_0000 then -x else 0
  {
    if x < -0x1_8000_0000 {
      WrapUp(x + 0x1_0000_0000);
    }
  }

  lemma {:induction false} WrapAdd(x: int, y: int)
    ensures Wrap(Wrap(x) + y) == Wrap(x + y)
    decreases if x >= 0x8000_0000 then x else if x < -0x8000_0000 then -x else 0
  {
    if x >= 0x8000_0000 {
      WrapAdd(x - 0x1_0000_0000, y);
      WrapUp(x - 0x1_0000_0000 + y);
    } else if x < -0x8000_0000 {
      WrapAdd(x + 0x1_0000_0000, y);
      WrapUp(x + y);
    }
  }

  /** `u as i32` */
  function AsI32(u: u32): i32 {
    Wrap(u)
  }

  /** `a + b` on u32 */
  function AddU32(a: u32, b: u32): u32 {
    if a + b < 0x1_0000_0000 then a + b else a + b - 0x1_0000_0000
  }

  /** `w as usize` */
  function AsUsize(w: i32): nat {
    if w >= 0 then w else w + 0x1_0000_0000_0000_0000
  }

  /** `n as u32` */
  function AsU32(n: nat): (r: u32)
    ensures n < 0x1_0000_0000 ==> r == n
  {
    n % 0x1_0000_0000
  }

  lemma {:induction false} WrapTimes(x: int, k: nat)
    ensures Wrap(x + 0x1_0000_0000 * k) == Wrap(x)
    decreases k
  {
    if k > 0 {
      WrapTimes(x, k - 1);
      WrapUp(x + 0x1_0000_0000 * (k - 1));
    }
  }

  lemma WrapAddU32(x: int, u: u32)
    ensures Wrap(Wrap(x) + AsI32(u)) == Wrap(x + u)
  {
    WrapAdd(x, AsI32(u));
    if u >= 0x8000_0000 {
      WrapUp(x + u - 0x1_0000_0000);
    }
  }

  lemma WrapSubU32(x: int, u: u32)
    ensures Wrap(Wrap(x) - AsI32(u)) == Wrap(x - u)
  {
    var signed: int := AsI32(u);
    WrapAdd(x, -signed);
    if u >= 0x8000_0000 {
      WrapUp(x - u);
    }
  }

  /** Subtracting a truncated amount is subtracting the amount. */
  lemma WrapSubTruncated(x: int, n: nat)
    ensures Wrap(Wrap(x) - AsI32(AsU32(n))) == Wrap(x - n)
  {
    WrapSubU32(x, AsU32(n));
    WrapTimes(x - n, n / 0x1_0000_0000);
    assert n == 0x1_0000_0000 * (n / 0x1_0000_0000) + AsU32(n);
  }

  // ----- Connection level -----

  datatype Flow = Flow(window: i32, initial: u32, consumed: u32, threshold: u32) {
    function Consume(amount: u32): Flow {
      this.(window := Wrap(window - AsI32(amount)), consumed := AddU32(consumed, amount))
    }

    predicate ShouldUpdate() {
      consumed >= threshold
    }

    function ResetPending(): Flow {
      this.(window := Wrap(window + AsI32(consumed)), consumed := 0)
    }

    /** Is there room for a WINDOW_UPDATE of this size? */
    predicate Accepts(increment: u32) {
      window + increment <= MAX_WINDOW
    }

    function Increase(increment: u32): Flow {
      if window + increment <= 0x7fff_ffff then this.(window := window + increment) else this
    }

    /** Receiving data: the credit is given back as soon as enough has been consumed. */
    function Receive(amount: u32): Flow {
      var f := Consume(amount);
      if f.ShouldUpdate() then f.ResetPending() else f
    }

    /** The increment that is announced when data is received, if one is due. */
    function Due(amount: u32): Option<u32> {
      var f := Consume(amount);
      if f.ShouldUpdate() then Some(f.consumed) else None
    }
  }

  function NewFlow(initial: u32): Flow {
    Flow(AsI32(initial), initial, 0, initial / 2)
  }

  class FlowControl {
    var window: i32
    var initialWindow: u32
    var consumed: u32
    var updateThreshold: u32

    function View(): Flow
      reads this
    {
      Flow(window, initialWindow, consumed, updateThreshold)
    }

    constructor (initial: u32)
      ensures View() == NewFlow(initial)
    {
      window, initialWindow, consumed := AsI32(initial), initial, 0;
      updateThreshold := initial / 2;
    }

    /** Credits an increment, unless the window would exceed 2^31 - 1; says whether it did. */
    method IncreaseWindow(increment: u32) returns (applied: bool)
      modifies this
      ensures applied == old(View()).Accepts(increment)
      ensures View() == old(View()).Increase(increment)
    {
      if window + increment <= MAX_WINDOW {
        window := window + increment;
        return true;
      }
      return false;
    }

    method Consume(amount: u32)
      modifies this
      ensures View() == old(View()).Consume(amount)
    {
      window := Wrap(window - AsI32(amount));
      consumed := AddU32(consumed, amount);
    }

    predicate ShouldUpdate()
      reads this
    {
      consumed >= updateThreshold
    }

    method ResetPending()
      modifies this
      ensures View() == old(View()).ResetPending()
    {
      window := Wrap(window + AsI32(consumed));
      consumed := 0;
    }
  }

  // ----- Laws -----

  /**
   When data is received, with `k` the credit that is either left in the window or waiting to be
   given back: the window stays non-negative exactly when that credit fits a window, or nothing is
   given back yet. The proof rests on the threshold being at most half of the credit.
   */
  lemma ReceiveStaysNonNegative(f: Flow, k: nat, amount: u32)
    requires 0 <= f.window && f.window + f.consumed == k
    requires f.threshold <= 32767 && 65535 <= k <= 0xffff_0000 && amount <= 16384
    ensures 0 <= f.Receive(amount).window <==> (k <= MAX_WINDOW || f.consumed + amount < f.threshold)
    ensures k <= MAX_WINDOW ==> f.Receive(amount).window + f.Receive(amount).consumed == k
  {
  }

  /** The same two's complement arithmetic that loses a carry gives the bytes back without loss. */
  lemma ReceiveKeepsCredit(f: Flow, k: int, amount: u32)
    requires f.window == Wrap(k - f.consumed)
    ensures f.Receive(amount).window == Wrap(k - f.Receive(amount).consumed)
  {
    ConsumeKeepsCredit(f, k, amount);
    var g := f.Consume(amount);
    WrapAddU32(k - g.consumed, g.consumed);
  }

  lemma ConsumeKeepsCredit(f: Flow, k: int, amount: u32)
    requires f.window == Wrap(k - f.consumed)
    ensures f.Consume(amount).window == Wrap(k - f.Consume(amount).consumed)
  {
    WrapSubU32(k - f.consumed, amount);
    if f.consumed + amount >= 0x1_0000_0000 {
      WrapUp(k - f.consumed - amount);
    }
  }

  lemma IncreaseKeepsCredit(f: Flow, k: int, increment: u32)
    requires f.window == Wrap(k - f.consumed)
    ensures f.Increase(increment).window ==
              Wrap(k + (if f.Accepts(increment) then increment else 0) - f.consumed)
  {
    WrapAdd(k - f.consumed, increment);
  }
}
