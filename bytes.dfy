/** Little-endian integers over byte sequences: how the level file stores every
    multi-byte field, and how the decoder's buffers hold it on a little-endian host.
    A byte is the number it holds. Counts, sizes and offsets are read as numbers
    (U16At, U32At, U64At); fields whose bits are unpacked later are read as
    bit-vectors (LeWord32, LeWord64). */
module Bytes {

  type u8 = x: int | 0 <= x < 0x100
  type u16 = x: int | 0 <= x < 0x1_0000
  type u32 = x: int | 0 <= x < 0x1_0000_0000
  type u64 = x: int | 0 <= x < 0x1_0000_0000_0000_0000

  // ---------------------------------------------------------------- numbers

  /** The unsigned 16-bit little-endian number in two bytes. */
  function U16(b: seq<u8>): (n: u16)
    requires |b| == 2
  {
    b[0] as int + 0x100 * b[1] as int
  }

  /** The unsigned 32-bit little-endian number in four bytes. */
  function U32(b: seq<u8>): (n: u32)
    requires |b| == 4
  {
    U16(b[..2]) + 0x1_0000 * U16(b[2..])
  }

  /** The unsigned 64-bit little-endian number in eight bytes. */
  function U64(b: seq<u8>): (n: u64)
    requires |b| == 8
  {
    U32(b[..4]) + 0x1_0000_0000 * U32(b[4..])
  }

  /** The unsigned 16-bit little-endian number stored at offset p. */
  function U16At(d: seq<u8>, p: nat): (n: u16)
    requires p + 2 <= |d|
    ensures n == U16(d[p .. p + 2])
  {
    d[p] as int + 0x100 * d[p + 1] as int
  }

  /** The unsigned 32-bit little-endian number stored at offset p. */
  function U32At(d: seq<u8>, p: nat): (n: u32)
    requires p + 4 <= |d|
    ensures n == U32(d[p .. p + 4])
  {
    assert d[p .. p + 4][..2] == d[p .. p + 2] && d[p .. p + 4][2..] == d[p + 2 .. p + 4];
    U16At(d, p) + 0x1_0000 * U16At(d, p + 2)
  }

  /** The unsigned 64-bit little-endian number stored at offset p. */
  function U64At(d: seq<u8>, p: nat): (n: u64)
    requires p + 8 <= |d|
    ensures n == U64(d[p .. p + 8])
  {
    assert d[p .. p + 8][..4] == d[p .. p + 4] && d[p .. p + 8][4..] == d[p + 4 .. p + 8];
    U32At(d, p) + 0x1_0000_0000 * U32At(d, p + 4)
  }

  /** The two bytes that store `n`, least significant first. */
  function U16Bytes(n: u16): (b: seq<u8>)
    ensures |b| == 2 && U16(b) == n
  {
    [n % 0x100, n / 0x100]
  }

  /** The four bytes that store `n`, least significant first. */
  function U32Bytes(n: u32): (b: seq<u8>)
    ensures |b| == 4 && U32(b) == n
  {
    var lo, hi := U16Bytes(n % 0x1_0000), U16Bytes(n / 0x1_0000);
    assert (lo + hi)[..2] == lo && (lo + hi)[2..] == hi;
    lo + hi
  }

  /** Every pair of bytes is the encoding of the number it holds. */
  lemma U16BytesOfU16(b: seq<u8>)
    requires |b| == 2
    ensures U16Bytes(U16(b)) == b
  {
  }

  /** Every quadruple of bytes is the encoding of the number it holds. */
  lemma U32BytesOfU32(b: seq<u8>)
    requires |b| == 4
    ensures U32Bytes(U32(b)) == b
  {
    var lo, hi := b[..2], b[2..];
    assert U32(b) % 0x1_0000 == U16(lo) && U32(b) / 0x1_0000 == U16(hi);
    U16BytesOfU16(lo);
    U16BytesOfU16(hi);
    assert b == lo + hi;
  }

  // ---------------------------------------------------------------- words

  /** The 32-bit little-endian word of four bytes: byte k is bits 8k to 8k+7. */
  function LeWord32(b: seq<u8>): (v: bv32)
    requires |b| == 4
    ensures v & 0xFF == b[0] as bv32 && (v >> 8) & 0xFF == b[1] as bv32
    ensures (v >> 16) & 0xFF == b[2] as bv32 && v >> 24 == b[3] as bv32
  {
    (b[0] as bv32) | ((b[1] as bv32) << 8) | ((b[2] as bv32) << 16) | ((b[3] as bv32) << 24)
  }

  /** The 64-bit little-endian word of eight bytes: the first four bytes are the low half. */
  function LeWord64(b: seq<u8>): (v: bv64)
    requires |b| == 8
    ensures (v & 0xFFFF_FFFF) as bv32 == LeWord32(b[..4]) && (v >> 32) as bv32 == LeWord32(b[4..])
  {
    (LeWord32(b[..4]) as bv64) | ((LeWord32(b[4..]) as bv64) << 32)
  }
}
