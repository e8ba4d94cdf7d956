/** Bytes and big-endian fields, as the media tunnel writes them on the wire. */
module Bytes {

  type byte = bv8

  /** A 16-bit unsigned field: a length or an RTP sequence number. */
  type u16 = x: int | 0 <= x < 0x1_0000

  function Put16(x: u16): (s: seq<byte>)
    ensures |s| == 2
  {
    [(x / 256) as bv8, (x % 256) as bv8]
  }

  function Get16(hi: byte, lo: byte): (x: u16) {
    (hi as int) * 256 + (lo as int)
  }

  function Put32(x: bv32): (s: seq<byte>)
    ensures |s| == 4
  {
    [(x >> 24) as bv8, ((x >> 16) & 0xFF) as bv8, ((x >> 8) & 0xFF) as bv8, (x & 0xFF) as bv8]
  }

  function Get32(b0: byte, b1: byte, b2: byte, b3: byte): bv32 {
    ((b0 as bv32) << 24) | ((b1 as bv32) << 16) | ((b2 as bv32) << 8) | (b3 as bv32)
  }

  lemma Successor(b: byte)
    requires b != 0xFF
    ensures (b + 1) as int == b as int + 1
  {
  }

  /** Every number below 256 is the value of some byte, found by counting up from zero. */
  lemma {:induction false} ByteWithValue(n: nat) returns (b: byte)
    requires n < 256
    ensures b as int == n
  {
    if n == 0 {
      b := 0;
    } else {
      var p := ByteWithValue(n - 1);
      var last: byte := 0xFF;
      assert last as int == 255;
      Successor(p);
      b := p + 1;
    }
  }

  lemma IntOfByte(n: nat)
    requires n < 256
    ensures (n as bv8) as int == n
  {
    var b := ByteWithValue(n);
    ByteOfInt(b);
  }

  lemma ByteOfInt(b: byte)
    ensures (b as int) as bv8 == b
  {
  }

  lemma Get16Put16(x: u16)
    ensures Get16(Put16(x)[0], Put16(x)[1]) == x
  {
    IntOfByte(x / 256);
    IntOfByte(x % 256);
  }

  lemma Halves(h: int, l: int)
    requires 0 <= l < 256
    ensures (h * 256 + l) / 256 == h && (h * 256 + l) % 256 == l
  {
  }

  lemma Put16Get16(hi: byte, lo: byte)
    ensures Put16(Get16(hi, lo)) == [hi, lo]
  {
    var h, l := hi as int, lo as int;
    Halves(h, l);
    assert (h as bv8) == hi && (l as bv8) == lo;
  }

  lemma Get32Put32(x: bv32)
    ensures Get32(Put32(x)[0], Put32(x)[1], Put32(x)[2], Put32(x)[3]) == x
  {
  }

  lemma Put32Get32(b0: byte, b1: byte, b2: byte, b3: byte)
    ensures Put32(Get32(b0, b1, b2, b3)) == [b0, b1, b2, b3]
  {
  }
}
