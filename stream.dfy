/** The decoder's `FILE *`: the bytes of the level file and a cursor. The cursor may
    lie past the end, as after an `fseek` beyond end-of-file. */
module Streams {
  import opened Bytes

  class Stream {
    const data: seq<u8>
    var pos: nat

    constructor (data: seq<u8>, pos: nat)
      ensures this.data == data && this.pos == pos
    {
      this.data := data;
      this.pos := pos;
    }

    /** ftell */
    method Tell() returns (p: nat)
      ensures p == pos
    {
      p := pos;
    }

    /** fseek(f, target, SEEK_SET) with a non-negative target, which always succeeds. */
    method Seek(target: nat)
      modifies this
      ensures pos == target
    {
      pos := target;
    }

    /** fseek(f, n, SEEK_CUR) with a non-negative offset. */
    method Skip(n: nat)
      modifies this
      ensures pos == old(pos) + n
    {
      pos := pos + n;
    }

    /** fread(buf, n, 1, f): it reports success only when one whole item of n > 0 bytes
        was read. A short read consumes what is left of the file; a zero-sized item
        reads nothing and reports failure. */
    method Read(n: nat) returns (ok: bool, bytes: seq<u8>)
      modifies this
      ensures ok <==> 0 < n && old(pos) + n <= |data|
      ensures ok ==> bytes == data[old(pos) .. old(pos) + n] && pos == old(pos) + n
      ensures !ok ==> pos == if n == 0 || |data| <= old(pos) then old(pos) else |data|
    {
      if 0 < n && pos + n <= |data| {
        ok, bytes := true, data[pos .. pos + n];
        pos := pos + n;
      } else {
        ok, bytes := false, [];
        if n != 0 && pos < |data| {
          pos := |data|;
        }
      }
    }

    /** fread into a one-byte field. */
    method ReadU8() returns (ok: bool, v: u8)
      modifies this
      ensures ok <==> old(pos) + 1 <= |data|
      ensures ok ==> v == data[old(pos)] && pos == old(pos) + 1
    {
      var b;
      ok, b := Read(1);
      v := if ok then b[0] else 0;
    }

    /** fread into a `uint16_t` field on a little-endian host. */
    method ReadU16() returns (ok: bool, v: u16)
      modifies this
      ensures ok <==> old(pos) + 2 <= |data|
      ensures ok ==> v == U16At(data, old(pos)) && pos == old(pos) + 2
    {
      var b;
      ok, b := Read(2);
      v := if ok then U16(b) else 0;
    }

    /** fread into a `uint32_t` field on a little-endian host. */
    method ReadU32() returns (ok: bool, v: u32)
      modifies this
      ensures ok <==> old(pos) + 4 <= |data|
      ensures ok ==> v == U32At(data, old(pos)) && pos == old(pos) + 4
    {
      var b;
      ok, b := Read(4);
      if ok {
        assert b[..2] == data[old(pos) .. old(pos) + 2] && b[2..] == data[old(pos) + 2 .. old(pos) + 4];
      }
      v := if ok then U32(b) else 0;
    }

    /** fread into a 32-bit field whose bits are unpacked later. */
    method ReadWord32() returns (ok: bool, v: bv32)
      modifies this
      ensures ok <==> old(pos) + 4 <= |data|
      ensures ok ==> v == LeWord32(data[old(pos) .. old(pos) + 4]) && pos == old(pos) + 4
    {
      var b;
      ok, b := Read(4);
      v := if ok then LeWord32(b) else 0;
    }

    /** fread into a `uint64_t` field on a little-endian host. */
    method ReadU64() returns (ok: bool, v: u64)
      modifies this
      ensures ok <==> old(pos) + 8 <= |data|
      ensures ok ==> v == U64At(data, old(pos)) && pos == old(pos) + 8
    {
      var b;
      ok, b := Read(8);
      if ok {
        assert b[..4] == data[old(pos) .. old(pos) + 4] && b[4..] == data[old(pos) + 4 .. old(pos) + 8];
      }
      v := if ok then U64(b) else 0;
    }
  }
}
