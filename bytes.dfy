/** Fixed-width unsigned integers and their little-endian byte encoding.
    Every on-wire record of the NVMe decoder is a little-endian byte image;
    this module is the one place where integers become bytes and back. */
module Bytes {

  type byte = x: int | 0 <= x < 0x100
  type u16 = x: int | 0 <= x < 0x1_0000
  type u32 = x: int | 0 <= x < 0x1_0000_0000
  type u64 = x: int | 0 <= x < 0x1_0000_0000_0000_0000

  const TwoTo64: nat := 0x1_0000_0000_0000_0000

  function Pow256(n: nat): (p: nat)
    ensures p > 0
  {
    if n == 0 then 1 else 256 * Pow256(n - 1)
  }

  lemma Pow256Widths()
    ensures Pow256(1) == 0x100 && Pow256(2) == 0x1_0000
    ensures Pow256(4) == 0x1_0000_0000 && Pow256(8) == TwoTo64
  {
  }

  /** The value of a little-endian byte string: least significant byte first. */
  function LittleEndian(s: seq<byte>): nat
  {
    if s == [] then 0 else s[0] + 256 * LittleEndian(s[1..])
  }

  /** The n-byte little-endian image of x (x is taken modulo 256^n). */
  function ToLittleEndian(x: nat, n: nat): (s: seq<byte>)
    ensures |s| == n
  {
    if n == 0 then [] else [x % 256] + ToLittleEndian(x / 256, n - 1)
  }

  lemma {:induction false} LittleEndianBound(s: seq<byte>)
    ensures LittleEndian(s) < Pow256(|s|)
  {
    if s != [] {
      LittleEndianBound(s[1..]);
    }
  }

  /** Encoding then decoding gives back every value that fits in n bytes. */
  lemma {:induction false} DecodeEncode(x: nat, n: nat)
    requires x < Pow256(n)
    ensures LittleEndian(ToLittleEndian(x, n)) == x
  {
    if n > 0 {
      DecodeEncode(x / 256, n - 1);
      assert ToLittleEndian(x, n)[1..] == ToLittleEndian(x / 256, n - 1);
    }
  }

  /** Decoding then encoding gives back every byte string. */
  lemma {:induction false} EncodeDecode(s: seq<byte>)
    ensures ToLittleEndian(LittleEndian(s), |s|) == s
  {
    if s != [] {
      EncodeDecode(s[1..]);
      var x := LittleEndian(s);
      assert x % 256 == s[0] && x / 256 == LittleEndian(s[1..]);
    }
  }

  /** Unsigned integer fields read at a byte offset of a record image. */
  function U16At(b: seq<byte>, o: nat): (x: u16)
    requires o + 2 <= |b|
  {
    LittleEndianBound(b[o..o + 2]);
    Pow256Widths();
    LittleEndian(b[o..o + 2])
  }

  function U32At(b: seq<byte>, o: nat): (x: u32)
    requires o + 4 <= |b|
  {
    LittleEndianBound(b[o..o + 4]);
    Pow256Widths();
    LittleEndian(b[o..o + 4])
  }

  function U64At(b: seq<byte>, o: nat): (x: u64)
    requires o + 8 <= |b|
  {
    LittleEndianBound(b[o..o + 8]);
    Pow256Widths();
    LittleEndian(b[o..o + 8])
  }

  /** The readers above are plain little-endian offset arithmetic. */
  lemma U16AtBytes(b: seq<byte>, o: nat)
    requires o + 2 <= |b|
    ensures U16At(b, o) == b[o] as int + 0x100 * b[o + 1] as int
  {
    var s := b[o..o + 2];
    assert LittleEndian(s[1..]) == s[1] + 256 * LittleEndian(s[2..]);
    assert s[2..] == [];
  }

  lemma U32AtBytes(b: seq<byte>, o: nat)
    requires o + 4 <= |b|
    ensures U32At(b, o) == b[o] as int + 0x100 * b[o + 1] as int
                           + 0x1_0000 * b[o + 2] as int + 0x100_0000 * b[o + 3] as int
  {
    var s := b[o..o + 4];
    assert LittleEndian(s[1..]) == s[1] + 256 * LittleEndian(s[2..]);
    assert LittleEndian(s[2..]) == s[2] + 256 * LittleEndian(s[3..]);
    assert LittleEndian(s[3..]) == s[3] + 256 * LittleEndian(s[4..]);
    assert s[4..] == [];
  }

  lemma U64AtBytes(b: seq<byte>, o: nat)
    requires o + 8 <= |b|
    ensures U64At(b, o) == b[o] as int + 0x100 * b[o + 1] as int
                           + 0x1_0000 * b[o + 2] as int + 0x100_0000 * b[o + 3] as int
                           + 0x1_0000_0000 * b[o + 4] as int + 0x100_0000_0000 * b[o + 5] as int
                           + 0x1_0000_0000_0000 * b[o + 6] as int + 0x100_0000_0000_0000 * b[o + 7] as int
  {
    var s := b[o..o + 8];
    assert LittleEndian(s[1..]) == s[1] + 256 * LittleEndian(s[2..]);
    assert LittleEndian(s[2..]) == s[2] + 256 * LittleEndian(s[3..]);
    assert LittleEndian(s[3..]) == s[3] + 256 * LittleEndian(s[4..]);
    assert LittleEndian(s[4..]) == s[4] + 256 * LittleEndian(s[5..]);
    assert LittleEndian(s[5..]) == s[5] + 256 * LittleEndian(s[6..]);
    assert LittleEndian(s[6..]) == s[6] + 256 * LittleEndian(s[7..]);
    assert LittleEndian(s[7..]) == s[7] + 256 * LittleEndian(s[8..]);
    assert s[8..] == [];
  }

  function Le16(x: u16): (s: seq<byte>)
    ensures |s| == 2
  {
    ToLittleEndian(x, 2)
  }

  function Le32(x: u32): (s: seq<byte>)
    ensures |s| == 4
  {
    ToLittleEndian(x, 4)
  }

  function Le64(x: u64): (s: seq<byte>)
    ensures |s| == 8
  {
    ToLittleEndian(x, 8)
  }

  /** A field written with LeNN and read back at its offset gives its value. */
  lemma ReadU16(b: seq<byte>, o: nat, x: u16)
    requires o + 2 <= |b| && b[o..o + 2] == Le16(x)
    ensures U16At(b, o) == x
  {
    Pow256Widths();
    DecodeEncode(x, 2);
  }

  lemma ReadU32(b: seq<byte>, o: nat, x: u32)
    requires o + 4 <= |b| && b[o..o + 4] == Le32(x)
    ensures U32At(b, o) == x
  {
    Pow256Widths();
    DecodeEncode(x, 4);
  }

  lemma ReadU64(b: seq<byte>, o: nat, x: u64)
    requires o + 8 <= |b| && b[o..o + 8] == Le64(x)
    ensures U64At(b, o) == x
  {
    Pow256Widths();
    DecodeEncode(x, 8);
  }

  /** Re-encoding a field read at its offset gives back the bytes it was read from. */
  lemma WriteU16(b: seq<byte>, o: nat)
    requires o + 2 <= |b|
    ensures Le16(U16At(b, o)) == b[o..o + 2]
  {
    EncodeDecode(b[o..o + 2]);
  }

  lemma WriteU32(b: seq<byte>, o: nat)
    requires o + 4 <= |b|
    ensures Le32(U32At(b, o)) == b[o..o + 4]
  {
    EncodeDecode(b[o..o + 4]);
  }

  lemma WriteU64(b: seq<byte>, o: nat)
    requires o + 8 <= |b|
    ensures Le64(U64At(b, o)) == b[o..o + 8]
  {
    EncodeDecode(b[o..o + 8]);
  }

  /** A zero-initialised buffer, as Go's `var x T` and a fresh ctypes Structure are. */
  function Zeros(n: nat): (s: seq<byte>)
    ensures |s| == n && forall i :: 0 <= i < n ==> s[i] == 0
  {
    seq(n, _ => 0)
  }
}
