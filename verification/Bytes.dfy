/** Bytes, big-endian words, results and the growable byte buffer that every encoder appends to. */
module Bytes {

  type byte = x: int | 0 <= x < 0x100
  type u16 = x: int | 0 <= x < 0x1_0000
  type u32 = x: int | 0 <= x < 0x1_0000_0000

  datatype Option<+T> = None | Some(value: T)
  datatype Result<+T, +E> = Ok(value: T) | Err(error: E)

  lemma AppendAssociates<T>(a: seq<T>, b: seq<T>, c: seq<T>)
    ensures a + b + c == a + (b + c)
  {
  }

  function U16Bytes(v: u16): (b: seq<byte>) {
    [v / 0x100, v % 0x100]
  }

  function U32Bytes(v: u32): (b: seq<byte>)
    ensures |b| == 4
  {
    [v / 0x100_0000, v / 0x1_0000 % 0x100, v / 0x100 % 0x100, v % 0x100]
  }

  function U16Of(b: seq<byte>): (v: u16)
    requires |b| >= 2
  {
    var b0: int, b1: int := b[0], b[1];
    b0 * 0x100 + b1
  }

  function U32Of(b: seq<byte>): (v: u32)
    requires |b| >= 4
  {
    var b0: int, b1: int, b2: int, b3: int := b[0], b[1], b[2], b[3];
    b0 * 0x100_0000 + b1 * 0x1_0000 + b2 * 0x100 + b3
  }

  lemma U32RoundTrip(v: u32, rest: seq<byte>)
    ensures U32Of(U32Bytes(v) + rest) == v
  {
    assert v == v / 0x100 * 0x100 + v % 0x100;
    assert v / 0x100 == v / 0x1_0000 * 0x100 + v / 0x100 % 0x100;
    assert v / 0x1_0000 == v / 0x100_0000 * 0x100 + v / 0x1_0000 % 0x100;
  }

  lemma U16RoundTrip(v: u16, rest: seq<byte>)
    ensures U16Of(U16Bytes(v) + rest) == v
  {
    assert v == v / 0x100 * 0x100 + v % 0x100;
  }

  /** A growable byte vector, used both as an output buffer and as a queue of unread input. */
  class ByteBuffer {
    var bytes: seq<byte>

    constructor ()
      ensures bytes == []
    {
      bytes := [];
    }

    method PutU8(b: byte)
      modifies this
      ensures bytes == old(bytes) + [b]
    {
      bytes := bytes + [b];
    }

    method PutU16(v: u16)
      modifies this
      ensures bytes == old(bytes) + U16Bytes(v)
    {
      bytes := bytes + U16Bytes(v);
    }

    method PutU32(v: u32)
      modifies this
      ensures bytes == old(bytes) + U32Bytes(v)
    {
      bytes := bytes + U32Bytes(v);
    }

    method Extend(s: seq<byte>)
      modifies this
      ensures bytes == old(bytes) + s
    {
      bytes := bytes + s;
    }

    method GetU8() returns (b: byte)
      requires |bytes| >= 1
      modifies this
      ensures b == old(bytes[0]) && bytes == old(bytes[1..])
    {
      b, bytes := bytes[0], bytes[1..];
    }

    method GetU16() returns (v: u16)
      requires |bytes| >= 2
      modifies this
      ensures v == old(U16Of(bytes[..2])) && bytes == old(bytes[2..])
    {
      v, bytes := U16Of(bytes[..2]), bytes[2..];
    }

    method GetU32() returns (v: u32)
      requires |bytes| >= 4
      modifies this
      ensures v == old(U32Of(bytes[..4])) && bytes == old(bytes[4..])
    {
      v, bytes := U32Of(bytes[..4]), bytes[4..];
    }

    /** Removes and returns the first `n` bytes. */
    method SplitTo(n: nat) returns (head: seq<byte>)
      requires n <= |bytes|
      modifies this
      ensures head == old(bytes[..n])
      ensures bytes == old(bytes[n..])
      ensures head + bytes == old(bytes)
    {
      head, bytes := bytes[..n], bytes[n..];
    }
  }
}
