/**
 * The slice of Java the Java client's tag handling runs on: 32-bit `int`,
 * signed `byte`, and `java.nio.ByteBuffer` in its default big-endian order,
 * whose relative `put`/`putInt`/`get`/`getInt` advance the position and throw
 * when fewer bytes remain than they need.
 */
module JavaNio {
  import opened Wrappers
  import opened Bytes

  type Int32 = x: int | -0x8000_0000 <= x < 0x8000_0000
  type JByte = x: int | -0x80 <= x < 0x80

  const INTEGER_BYTES: nat := 4   // Integer.BYTES
  const BYTE_BYTES: nat := 1      // Byte.BYTES

  datatype NioError = BufferOverflow | BufferUnderflow

  /** The Java byte a wire byte reads as: the same bits, two's complement. */
  function ToJByte(b: Byte): (j: JByte)
    ensures j % 0x100 == b
  {
    if b < 0x80 then b else b - 0x100
  }

  /** The wire byte a Java byte is written as. */
  function FromJByte(j: JByte): (b: Byte)
    ensures ToJByte(b) == j
  {
    j % 0x100
  }

  /** putInt's layout of a value: its two's-complement bits, most significant byte first. */
  function Int32ToBytes(v: Int32): (bs: Bytes)
    ensures |bs| == INTEGER_BYTES
    ensures UnsignedBE(bs) == v % 0x1_0000_0000
  {
    Pow256Four();
    EncodeBE(v % 0x1_0000_0000, INTEGER_BYTES)
  }

  /** getInt's reading of four bytes: big-endian, signed. */
  function Int32FromBytes(bs: Bytes): (v: Int32)
    requires |bs| == INTEGER_BYTES
    ensures v % 0x1_0000_0000 == UnsignedBE(bs)
    ensures v >= 0 <==> UnsignedBE(bs) < 0x8000_0000
  {
    Pow256Four();
    var u := UnsignedBE(bs);
    if u < 0x8000_0000 then u else u - 0x1_0000_0000
  }

  /** getInt reads back every int putInt wrote. */
  lemma Int32RoundTrip(v: Int32)
    ensures Int32FromBytes(Int32ToBytes(v)) == v
  {
  }

  /** putInt writes back every four bytes getInt read. */
  lemma Int32BytesRoundTrip(bs: Bytes)
    requires |bs| == INTEGER_BYTES
    ensures Int32ToBytes(Int32FromBytes(bs)) == bs
  {
    UnsignedBEInjective(Int32ToBytes(Int32FromBytes(bs)), bs);
  }

  class ByteBuffer {
    var hb: array<Byte>    // the backing array, what array() returns
    var position: nat
    var limit: nat

    ghost predicate Valid()
      reads this
    {
      position <= limit <= hb.Length
    }

    function Remaining(): nat
      reads this
      requires Valid()
    {
      limit - position
    }

    /** ByteBuffer.allocate: a zero-filled buffer, position 0, limit at the capacity. */
    constructor Allocate(capacity: nat)
      ensures Valid() && fresh(hb)
      ensures hb[..] == seq(capacity, _ => 0) && position == 0 && limit == capacity
    {
      hb := new Byte[capacity](_ => 0);
      position, limit := 0, capacity;
    }

    /** A buffer over given bytes, position 0, limit at the end: what getData() and getMetadata() hand out. */
    constructor Wrap(bs: Bytes)
      ensures Valid() && fresh(hb)
      ensures hb[..] == bs && position == 0 && limit == |bs|
    {
      hb := new Byte[|bs|](i requires 0 <= i < |bs| => bs[i]);
      position, limit := 0, |bs|;
    }

    method PutInt(v: Int32) returns (r: Result<(), NioError>)
      requires Valid()
      modifies this`position, hb
      ensures Valid() && limit == old(limit)
      ensures r.Err? <==> old(Remaining()) < INTEGER_BYTES
      ensures r.Err? ==> r.error == BufferOverflow && position == old(position) && hb[..] == old(hb[..])
      ensures r.Ok? ==> position == old(position) + INTEGER_BYTES
      ensures r.Ok? ==> hb[..] == old(hb[..])[..old(position)] + Int32ToBytes(v) + old(hb[..])[old(position) + INTEGER_BYTES..]
    {
      if limit - position < INTEGER_BYTES {
        return Err(BufferOverflow);
      }
      var bs := Int32ToBytes(v);
      var p := position;
      ghost var before := hb[..];
      hb[p], hb[p + 1], hb[p + 2], hb[p + 3] := bs[0], bs[1], bs[2], bs[3];
      assert hb[..] == before[..p] + bs + before[p + INTEGER_BYTES..];
      position := p + INTEGER_BYTES;
      return Ok(());
    }

    method Put(b: JByte) returns (r: Result<(), NioError>)
      requires Valid()
      modifies this`position, hb
      ensures Valid() && limit == old(limit)
      ensures r.Err? <==> old(Remaining()) < BYTE_BYTES
      ensures r.Err? ==> r.error == BufferOverflow && position == old(position) && hb[..] == old(hb[..])
      ensures r.Ok? ==> position == old(position) + BYTE_BYTES
      ensures r.Ok? ==> hb[..] == old(hb[..])[old(position) := FromJByte(b)]
    {
      if limit - position < BYTE_BYTES {
        return Err(BufferOverflow);
      }
      hb[position] := FromJByte(b);
      position := position + BYTE_BYTES;
      return Ok(());
    }

    method GetInt() returns (r: Result<Int32, NioError>)
      requires Valid()
      modifies this`position
      ensures Valid()
      ensures r.Err? <==> old(Remaining()) < INTEGER_BYTES
      ensures r.Err? ==> r.error == BufferUnderflow && position == old(position)
      ensures r.Ok? ==> position == old(position) + INTEGER_BYTES
      ensures r.Ok? ==> r.value == Int32FromBytes(hb[old(position)..old(position) + INTEGER_BYTES])
    {
      if limit - position < INTEGER_BYTES {
        return Err(BufferUnderflow);
      }
      var v := Int32FromBytes(hb[position..position + INTEGER_BYTES]);
      position := position + INTEGER_BYTES;
      return Ok(v);
    }

    method Get() returns (r: Result<JByte, NioError>)
      requires Valid()
      modifies this`position
      ensures Valid()
      ensures r.Err? <==> old(Remaining()) < BYTE_BYTES
      ensures r.Err? ==> r.error == BufferUnderflow && position == old(position)
      ensures r.Ok? ==> position == old(position) + BYTE_BYTES && r.value == ToJByte(hb[old(position)])
    {
      if limit - position < BYTE_BYTES {
        return Err(BufferUnderflow);
      }
      var b := ToJByte(hb[position]);
      position := position + BYTE_BYTES;
      return Ok(b);
    }
  }
}
