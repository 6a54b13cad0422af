/** The read/write cursor over a byte buffer of sensor-server/binary_data.go. */
module BinaryBuffer {
  import opened Words

  class BinaryData {
    const buf: array<Byte>
    var off: nat

    constructor (buf: array<Byte>, off: nat)
      requires off <= buf.Length
      ensures this.buf == buf && this.off == off
    {
      this.buf := buf;
      this.off := off;
    }

    /** Every read returns the little-endian value of the next bytes, advances
        the cursor past them and leaves the buffer alone. */
    method ReadUint8() returns (value: Byte)
      requires off + 1 <= buf.Length
      modifies this
      ensures value == old(buf[..])[old(off)] && off == old(off) + 1
      ensures buf[..] == old(buf[..])
    {
      value := buf[off];
      off := off + 1;
    }

    method ReadUint(width: nat) returns (value: nat)
      requires off + width <= buf.Length
      modifies this
      ensures value == LeValue(old(buf[..])[old(off)..old(off) + width]) && off == old(off) + width
      ensures buf[..] == old(buf[..])
    {
      value := 0;
      var k := width;
      while k > 0
        invariant 0 <= k <= width && off == old(off)
        invariant value == LeValue(buf[off + k..off + width])
      {
        k := k - 1;
        assert buf[off + k..off + width][1..] == buf[off + k + 1..off + width];
        value := buf[off + k] + 256 * value;
      }
      off := off + width;
    }

    method ReadInt24() returns (value: Int32)
      requires off + 3 <= buf.Length
      modifies this
      ensures value == Int24(old(buf[..])[old(off)..old(off) + 3]) && off == old(off) + 3
      ensures buf[..] == old(buf[..])
    {
      value := Int24(buf[off..off + 3]);
      off := off + 3;
    }

    method ReadBytes(length: nat) returns (bytes: seq<Byte>)
      requires off + length <= buf.Length
      modifies this
      ensures bytes == old(buf[..])[old(off)..old(off) + length] && off == old(off) + length
      ensures buf[..] == old(buf[..])
    {
      bytes := buf[off..off + length];
      off := off + length;
    }

    /** Every write stores bytes at the cursor: what lies before stays, the
        bytes follow it, and what lies behind is untouched. */
    method WriteBytes(bytes: seq<Byte>)
      requires off + |bytes| <= buf.Length
      modifies this, buf
      ensures off == old(off) + |bytes|
      ensures buf[..off] == old(buf[..off]) + bytes
      ensures buf[off..] == old(buf[off + |bytes|..])
    {
      var k := 0;
      while k < |bytes|
        invariant 0 <= k <= |bytes| && off == old(off)
        invariant buf[..off] == old(buf[..off])
        invariant buf[off..off + k] == bytes[..k]
        invariant buf[off + |bytes|..] == old(buf[off + |bytes|..])
      {
        buf[off + k] := bytes[k];
        k := k + 1;
        assert buf[off..off + k] == buf[off..off + k - 1] + [bytes[k - 1]];
      }
      off := off + |bytes|;
      assert buf[..off] == buf[..old(off)] + buf[old(off)..off];
    }

    method WriteUint(width: nat, value: nat)
      requires off + width <= buf.Length
      modifies this, buf
      ensures off == old(off) + width
      ensures buf[..off] == old(buf[..off]) + Le(width, value)
      ensures buf[off..] == old(buf[off + width..])
    {
      WriteBytes(Le(width, value));
    }

    /** An absolute store that does not move the cursor. */
    method WriteUint32At(value: nat, offset: nat)
      requires offset + 4 <= buf.Length
      modifies buf
      ensures buf[..] == old(buf[..])[..offset] + Le(4, value) + old(buf[..])[offset + 4..]
    {
      var bytes := Le(4, value);
      ghost var before := buf[..];
      buf[offset], buf[offset + 1] := bytes[0], bytes[1];
      buf[offset + 2], buf[offset + 3] := bytes[2], bytes[3];
      assert buf[offset..offset + 4] == bytes;
      assert buf[..offset] == before[..offset] && buf[offset + 4..] == before[offset + 4..];
      assert buf[..] == buf[..offset] + buf[offset..offset + 4] + buf[offset + 4..];
    }
  }
}
