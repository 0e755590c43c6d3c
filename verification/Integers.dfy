/**
 Prefix integers of section 5.1 of RFC 7541: a prefix of 4 to 7 bits, then base-128 digits, least
 significant first. The decoder works in machine words; its specification, `Continued`, adds
 in unbounded arithmetic and refuses a sum that a word cannot hold.
 */
module Integers {
  import opened Bytes
  import opened Bits
  import opened HpackErrors

  type IntResult = Result<(nat, nat), HpackError>

  /** `usize` on a 64-bit target. */
  const USIZE_BITS := 64
  const USIZE_MAX := 0xffff_ffff_ffff_ffff

  predicate PrefixWidth(n: nat) {
    4 <= n <= 7
  }

  function MaxPrefix(n: nat): nat
    requires PrefixWidth(n)
  {
    match n
    case 4 => 0xf
    case 5 => 0x1f
    case 6 => 0x3f
    case _ => 0x7f
  }

  /** The low `n` bits of a byte. */
  function PrefixOf(b: byte, n: nat): nat
    requires PrefixWidth(n)
  {
    match n
    case 4 => b % 0x10
    case 5 => b % 0x20
    case 6 => b % 0x40
    case _ => b % 0x80
  }

  // ----- Encoding -----

  function Digits(v: nat): (d: seq<byte>)
    ensures |d| >= 1
  {
    if v < 128 then [v] else [v % 128 + 128] + Digits(v / 128)
  }

  /** The flag bits are clear where the prefix goes, so setting both is a sum. */
  function IntegerBytes(value: nat, n: nat, flag: byte): (s: seq<byte>)
    requires PrefixWidth(n) && PrefixOf(flag, n) == 0
    ensures |s| >= 1
  {
    if value < MaxPrefix(n) then [flag + value]
    else [flag + MaxPrefix(n)] + Digits(value - MaxPrefix(n))
  }

  method EncodeInteger(value: nat, n: nat, flag: byte, buf: ByteBuffer)
    requires PrefixWidth(n) && PrefixOf(flag, n) == 0
    modifies buf
    ensures buf.bytes == old(buf.bytes) + IntegerBytes(value, n, flag)
  {
    var maxPrefix := MaxPrefix(n);
    if value < maxPrefix {
      buf.PutU8(flag + value);
    } else {
      buf.PutU8(flag + maxPrefix);
      var rest: nat := value - maxPrefix;
      while rest >= 128
        invariant buf.bytes + Digits(rest) == old(buf.bytes) + IntegerBytes(value, n, flag)
      {
        buf.PutU8(rest % 128 + 128);
        rest := rest / 128;
      }
      buf.PutU8(rest);
    }
  }

  // ----- Decoding -----

  /**
   The digits from `at` on, added to `value` from bit `shift` upwards, on a machine with `bits`-bit
   words up to `max`.
   */
  function Continued(bits: nat, max: nat, data: seq<byte>, value: nat, at: nat, shift: nat): (r: IntResult)
    ensures r.Ok? ==> at < r.value.1 <= |data| && r.value.0 <= max
    decreases |data| - at
  {
    if at >= |data| then Err(Incomplete)
    else if shift >= bits then Err(InvalidInteger)
    else
      var sum := value + Shl(data[at] % 128, shift);
      if sum > max then Err(InvalidInteger)
      else if data[at] < 128 then Ok((sum, at + 1))
      else Continued(bits, max, data, sum, at + 1, shift + 7)
  }

  function IntegerOn(bits: nat, max: nat, data: seq<byte>, n: nat): (r: IntResult)
    requires PrefixWidth(n)
    ensures r.Ok? ==> 1 <= r.value.1 <= |data|
    ensures r.Ok? && MaxPrefix(n) <= max ==> r.value.0 <= max
  {
    if data == [] then Err(Incomplete)
    else if PrefixOf(data[0], n) < MaxPrefix(n) then Ok((PrefixOf(data[0], n), 1))
    else Continued(bits, max, data, MaxPrefix(n), 1, 0)
  }

  /** A decoded integer takes at least one byte, no more than there are, and fits the word. */
  function Integer(data: seq<byte>, n: nat): (r: IntResult)
    requires PrefixWidth(n)
    ensures r.Ok? ==> 1 <= r.value.1 <= |data| && r.value.0 <= USIZE_MAX
  {
    IntegerOn(USIZE_BITS, USIZE_MAX, data, n)
  }

  /** Comparing with the maximum shifted right tells whether the left shift overflows. */
  lemma {:induction false} ShiftedComparison(v: nat, max: nat, k: nat)
    ensures v <= Shr(max, k) <==> Shl(v, k) <= max
  {
    if k != 0 {
      ShiftedComparison(v, max / 2, k - 1);
    }
  }

  /** The loop with its word-sized checks: no shift loses bits, and no sum wraps around. */
  method DecodeInteger(bits: nat, max: nat, data: seq<byte>, n: nat) returns (r: IntResult)
    requires PrefixWidth(n) && MaxPrefix(n) <= max
    ensures r == IntegerOn(bits, max, data, n)
  {
    if data == [] {
      return Err(Incomplete);
    }
    var maxPrefix := MaxPrefix(n);
    var value: nat, consumed: nat := PrefixOf(data[0], n), 1;
    if value < maxPrefix {
      return Ok((value, consumed));
    }
    var shift: nat := 0;
    while true
      invariant 1 <= consumed <= |data| && value <= max
      invariant IntegerOn(bits, max, data, n) == Continued(bits, max, data, value, consumed, shift)
      decreases |data| - consumed
    {
      if consumed >= |data| {
        return Err(Incomplete);
      }
      var b := data[consumed];
      consumed := consumed + 1;
      var digit := b % 128;
      ShiftedComparison(digit, max, shift);
      if shift >= bits || digit > Shr(max, shift) {
        return Err(InvalidInteger);
      }
      if value + Shl(digit, shift) > max {
        return Err(InvalidInteger);
      }
      value := value + Shl(digit, shift);
      if b < 128 {
        return Ok((value, consumed));
      }
      shift := shift + 7;
    }
  }

  // ----- What the decoder accepts -----

  /** The number that the digits stand for, in unbounded arithmetic. */
  function DigitSum(d: seq<byte>): nat {
    if d == [] then 0 else d[0] % 128 + 128 * DigitSum(d[1..])
  }

  /** All bytes but the last announce another one. */
  predicate Delimited(d: seq<byte>) {
    d != [] && d[|d| - 1] < 128 && forall i :: 0 <= i < |d| - 1 ==> d[i] >= 128
  }

  lemma ShlSeven(v: nat, k: nat)
    ensures Shl(v, k + 7) == Shl(128 * v, k)
  {
    ShlTwice(v, 7, k);
    ShlIsProduct(v, 7);
    assert Pow2(7) == 128;
  }

  lemma {:induction false} ShlSum(v: nat, w: nat, k: nat)
    ensures Shl(v + w, k) == Shl(v, k) + Shl(w, k)
  {
    if k != 0 {
      ShlSum(v, w, k - 1);
    }
  }

  lemma DigitSumShifted(d: seq<byte>, k: nat)
    requires d != []
    ensures Shl(DigitSum(d), k) == Shl(d[0] % 128, k) + Shl(DigitSum(d[1..]), k + 7)
  {
    ShlSum(d[0] % 128, 128 * DigitSum(d[1..]), k);
    ShlSeven(DigitSum(d[1..]), k);
  }

  lemma DelimitedTail(d: seq<byte>)
    requires |d| > 1
    ensures Delimited(d) <==> d[0] >= 128 && Delimited(d[1..])
  {
    var e := d[1..];
    assert forall i :: 0 <= i < |e| ==> e[i] == d[i + 1];
    if d[0] >= 128 && Delimited(e) {
      forall i | 0 <= i < |d| - 1
        ensures d[i] >= 128
      {
        assert i > 0 ==> d[i] == e[i - 1];
      }
    }
  }

  /** What it takes to accept the digits up to `end`. */
  predicate AcceptsDigits(bits: nat, max: nat, data: seq<byte>, value: nat, at: nat, shift: nat, v: nat, end: nat) {
    && at < end <= |data| && Delimited(data[at..end])
    && v == value + Shl(DigitSum(data[at..end]), shift)
    && v <= max && shift + 7 * (end - 1 - at) < bits
  }

  /** Accepted exactly when the delimited digits fit the word, and then the answer is their sum. */
  lemma {:induction false} ContinuedExact(bits: nat, max: nat, data: seq<byte>, value: nat, at: nat, shift: nat,
                                          v: nat, end: nat)
    ensures Continued(bits, max, data, value, at, shift) == Ok((v, end))
            <==> AcceptsDigits(bits, max, data, value, at, shift, v, end)
    decreases |data| - at
  {
    if at < |data| {
      var sum := value + Shl(data[at] % 128, shift);
      if at < end <= |data| {
        var d := data[at..end];
        DigitSumShifted(d, shift);
        if end == at + 1 {
          assert d[1..] == [] && DigitSum(d[1..]) == 0;
          ShlIsProduct(0, shift + 7);
        } else {
          DelimitedTail(d);
          assert d[1..] == data[at + 1..end];
        }
      }
      ContinuedExact(bits, max, data, sum, at + 1, shift + 7, v, end);
    }
  }

  /** The acceptance condition of the whole decoder, for every word size and inputs of every length. */
  lemma IntegerExact(bits: nat, max: nat, data: seq<byte>, n: nat, v: nat, end: nat)
    requires PrefixWidth(n)
    ensures IntegerOn(bits, max, data, n) == Ok((v, end)) <==>
              && data != []
              && if PrefixOf(data[0], n) < MaxPrefix(n) then v == PrefixOf(data[0], n) && end == 1
                 else AcceptsDigits(bits, max, data, MaxPrefix(n), 1, 0, v, end)
  {
    ContinuedExact(bits, max, data, MaxPrefix(n), 1, 0, v, end);
  }

  /** The digit at `i` is at a shift outside the word, or makes the partial sum too large for it. */
  predicate OverflowsAt(bits: nat, max: nat, data: seq<byte>, value: nat, at: nat, shift: nat, i: nat)
    requires at <= i < |data|
  {
    shift + 7 * (i - at) >= bits || value + Shl(DigitSum(data[at..i + 1]), shift) > max
  }

  /** The decoder reaches the digit at `i`, and it overflows. */
  predicate RefusedAt(bits: nat, max: nat, data: seq<byte>, value: nat, at: nat, shift: nat, i: nat) {
    && at <= i < |data| && (forall j :: at <= j < i ==> data[j] >= 128)
    && OverflowsAt(bits, max, data, value, at, shift, i)
  }

  /** Refused as invalid exactly when some digit that is reached overflows. */
  lemma {:induction false} ContinuedInvalid(bits: nat, max: nat, data: seq<byte>, value: nat, at: nat, shift: nat)
    ensures Continued(bits, max, data, value, at, shift) == Err(InvalidInteger) <==>
              exists i: nat :: RefusedAt(bits, max, data, value, at, shift, i)
    decreases |data| - at
  {
    if at < |data| {
      FirstDigit(bits, max, data, value, at, shift);
      var sum := value + Shl(data[at] % 128, shift);
      if shift >= bits || sum > max {
        assert RefusedAt(bits, max, data, value, at, shift, at);
      } else {
        var at', shift' := at + 1, shift + 7;
        ContinuedInvalid(bits, max, data, sum, at', shift');
        if i: nat :| RefusedAt(bits, max, data, value, at, shift, i) {
          assert i > at;
          RefusedLater(bits, max, data, value, at, shift, i);
        }
        if i: nat :| RefusedAt(bits, max, data, sum, at', shift', i) {
          RefusedLater(bits, max, data, value, at, shift, i);
        }
      }
    }
  }

  lemma RefusedLater(bits: nat, max: nat, data: seq<byte>, value: nat, at: nat, shift: nat, i: nat)
    requires at < i < |data|
    ensures RefusedAt(bits, max, data, value, at, shift, i) <==>
              data[at] >= 128 && RefusedAt(bits, max, data, value + Shl(data[at] % 128, shift), at + 1, shift + 7, i)
  {
    OverflowsLater(bits, max, data, value, at, shift, i);
  }

  lemma OverflowsLater(bits: nat, max: nat, data: seq<byte>, value: nat, at: nat, shift: nat, i: nat)
    requires at < i < |data|
    ensures OverflowsAt(bits, max, data, value, at, shift, i) <==>
              OverflowsAt(bits, max, data, value + Shl(data[at] % 128, shift), at + 1, shift + 7, i)
  {
    DigitSumShifted(data[at..i + 1], shift);
    assert data[at..i + 1][1..] == data[at + 1..i + 1];
  }

  lemma FirstDigit(bits: nat, max: nat, data: seq<byte>, value: nat, at: nat, shift: nat)
    requires at < |data|
    ensures OverflowsAt(bits, max, data, value, at, shift, at)
            <==> shift >= bits || value + Shl(data[at] % 128, shift) > max
  {
    var d := data[at..at + 1];
    DigitSumShifted(d, shift);
    assert d[1..] == [] && DigitSum(d[1..]) == 0;
    ShlIsProduct(0, shift + 7);
  }

  /** The digit at `i` announces another one, and it does not overflow. */
  predicate PassesAt(bits: nat, max: nat, data: seq<byte>, value: nat, at: nat, shift: nat, i: nat)
    requires at <= i < |data|
  {
    data[i] >= 128 && !OverflowsAt(bits, max, data, value, at, shift, i)
  }

  predicate Unfinished(bits: nat, max: nat, data: seq<byte>, value: nat, at: nat, shift: nat) {
    forall i :: at <= i < |data| ==> PassesAt(bits, max, data, value, at, shift, i)
  }

  /** The decoder asks for more exactly when every digit announces another one and none overflows. */
  lemma {:induction false} ContinuedIncomplete(bits: nat, max: nat, data: seq<byte>, value: nat, at: nat, shift: nat)
    ensures Continued(bits, max, data, value, at, shift) == Err(Incomplete) <==>
              Unfinished(bits, max, data, value, at, shift)
    decreases |data| - at
  {
    if at < |data| {
      FirstDigit(bits, max, data, value, at, shift);
      if PassesAt(bits, max, data, value, at, shift, at) {
        var sum := value + Shl(data[at] % 128, shift);
        ContinuedIncomplete(bits, max, data, sum, at + 1, shift + 7);
        UnfinishedTail(bits, max, data, value, at, shift);
      }
    }
  }

  lemma UnfinishedTail(bits: nat, max: nat, data: seq<byte>, value: nat, at: nat, shift: nat)
    requires at < |data| && PassesAt(bits, max, data, value, at, shift, at)
    ensures Unfinished(bits, max, data, value, at, shift) <==>
              Unfinished(bits, max, data, value + Shl(data[at] % 128, shift), at + 1, shift + 7)
  {
    var sum, at', shift' := value + Shl(data[at] % 128, shift), at + 1, shift + 7;
    forall i | at < i < |data|
      ensures PassesAt(bits, max, data, value, at, shift, i) <==> PassesAt(bits, max, data, sum, at', shift', i)
    {
      OverflowsLater(bits, max, data, value, at, shift, i);
    }
    if Unfinished(bits, max, data, sum, at', shift') {
      forall i | at <= i < |data|
        ensures PassesAt(bits, max, data, value, at, shift, i)
      {
        assert i > at ==> PassesAt(bits, max, data, sum, at', shift', i);
      }
    }
    if Unfinished(bits, max, data, value, at, shift) {
      forall i | at' <= i < |data|
        ensures PassesAt(bits, max, data, sum, at', shift', i)
      {
        assert PassesAt(bits, max, data, value, at, shift, i);
      }
    }
  }

  /** Which error the whole decoder reports, for every word size and inputs of every length. */
  lemma IntegerErrors(bits: nat, max: nat, data: seq<byte>, n: nat)
    requires PrefixWidth(n)
    ensures var full := data != [] && PrefixOf(data[0], n) == MaxPrefix(n);
            && (IntegerOn(bits, max, data, n) == Err(InvalidInteger) <==>
                  full && exists i: nat :: RefusedAt(bits, max, data, MaxPrefix(n), 1, 0, i))
            && (IntegerOn(bits, max, data, n) == Err(Incomplete) <==>
                  data == [] || (full && Unfinished(bits, max, data, MaxPrefix(n), 1, 0)))
  {
    ContinuedInvalid(bits, max, data, MaxPrefix(n), 1, 0);
    ContinuedIncomplete(bits, max, data, MaxPrefix(n), 1, 0);
  }

  // ----- Round trip -----

  lemma {:induction false} DigitsRoundTrip(bits: nat, max: nat, before: seq<byte>, v: nat, rest: seq<byte>,
                                           value: nat, shift: nat)
    requires max < Pow2(bits) && value + Shl(v, shift) <= max
    requires v == 0 ==> shift < bits
    ensures Continued(bits, max, before + Digits(v) + rest, value, |before|, shift)
            == Ok((value + Shl(v, shift), |before + Digits(v)|))
    decreases v
  {
    var data := before + Digits(v) + rest;
    ShiftInsideWord(bits, max, v, shift);
    if v < 128 {
      assert data[|before|] == v;
    } else {
      var d := v % 128 + 128;
      assert data == (before + [d]) + Digits(v / 128) + rest;
      assert data[|before|] == d;
      ShlSum(v % 128, 128 * (v / 128), shift);
      ShlSeven(v / 128, shift);
      DigitsRoundTrip(bits, max, before + [d], v / 128, rest, value + Shl(v % 128, shift), shift + 7);
    }
  }

  /** A number that fits the word when shifted is shifted by less than the word size. */
  lemma ShiftInsideWord(bits: nat, max: nat, v: nat, shift: nat)
    requires max < Pow2(bits) && Shl(v, shift) <= max
    ensures v > 0 ==> shift < bits
  {
    if v > 0 && shift >= bits {
      ShlMonotone(1, v, shift);
      ShlIsProduct(1, shift);
      Pow2Monotone(bits, shift);
    }
  }

  lemma FlagAndPrefix(value: nat, n: nat, flag: byte)
    requires PrefixWidth(n) && PrefixOf(flag, n) == 0 && value <= MaxPrefix(n)
    ensures flag + value < 0x100 && PrefixOf(flag + value, n) == value
  {
    match n
    case 4 => assert flag == 0x10 * (flag / 0x10);
    case 5 => assert flag == 0x20 * (flag / 0x20);
    case 6 => assert flag == 0x40 * (flag / 0x40);
    case _ => assert flag == 0x80 * (flag / 0x80);
  }

  /** Every word-sized value survives, whatever the prefix width, the flags and the bytes that follow. */
  lemma IntegerOnRoundTrip(bits: nat, max: nat, value: nat, n: nat, flag: byte, rest: seq<byte>)
    requires PrefixWidth(n) && PrefixOf(flag, n) == 0
    requires 0 < bits && max < Pow2(bits) && value <= max
    ensures IntegerOn(bits, max, IntegerBytes(value, n, flag) + rest, n) == Ok((value, |IntegerBytes(value, n, flag)|))
  {
    if value < MaxPrefix(n) {
      FlagAndPrefix(value, n, flag);
    } else {
      FlagAndPrefix(MaxPrefix(n), n, flag);
      var v := value - MaxPrefix(n);
      DigitsRoundTrip(bits, max, [flag + MaxPrefix(n)], v, rest, MaxPrefix(n), 0);
    }
  }

  lemma IntegerRoundTrip(value: nat, n: nat, flag: byte, rest: seq<byte>)
    requires PrefixWidth(n) && PrefixOf(flag, n) == 0 && value <= USIZE_MAX
    ensures Integer(IntegerBytes(value, n, flag) + rest, n) == Ok((value, |IntegerBytes(value, n, flag)|))
  {
    Pow2SixtyFour();
    IntegerOnRoundTrip(USIZE_BITS, USIZE_MAX, value, n, flag, rest);
  }
}
