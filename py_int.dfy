/**
 * The two Python built-ins the V2 tag rides on: `int.to_bytes(length, byteorder)`
 * (unsigned, so a negative value or one that needs more than `length` bytes is an
 * `OverflowError`) and `int.from_bytes(bytes, byteorder, signed=False)`, which
 * accepts any number of bytes, the empty string included.
 */
module PyInt {
  import opened Wrappers
  import opened Bytes

  /** The exceptions the modelled Python code can raise. */
  datatype PyError =
    | OverflowError   // int.to_bytes on a value that does not fit
    | TypeError       // bytes(None), int.from_bytes(None), ParseFromString(None)
    | AttributeError  // None.hex()
    | DecodeError     // ParseFromString on bytes that are not a message

  /** `ctypes.sizeof(ctypes.c_int(x))`: the width of a C int, whatever x is. */
  const C_INT_SIZE: nat := 4

  function ToBytes(n: int, length: nat, order: ByteOrder): (r: Result<Bytes, PyError>)
    ensures r.Err? <==> n < 0 || n >= Pow256(length)
    ensures r.Err? ==> r.error == OverflowError
    ensures r.Ok? ==> |r.value| == length && UnsignedBE(Arrange(r.value, order)) == n
  {
    if n < 0 || n >= Pow256(length) then Err(OverflowError)
    else
      var be := EncodeBE(n, length);
      ArrangeInvolution(be, order);
      Ok(Arrange(be, order))
  }

  function FromBytes(bs: Bytes, order: ByteOrder): (n: nat)
    ensures n < Pow256(|bs|)
  {
    UnsignedBE(Arrange(bs, order))
  }

  /** Decoding what `ToBytes` wrote, in the same order, gives the value back. */
  lemma FromToBytes(n: int, length: nat, order: ByteOrder)
    requires 0 <= n < Pow256(length)
    ensures ToBytes(n, length, order).Ok?
    ensures FromBytes(ToBytes(n, length, order).value, order) == n
  {
  }

  /** Encoding a decoded value at the input's own width, in the same order, gives the input back. */
  lemma ToFromBytes(bs: Bytes, order: ByteOrder)
    ensures ToBytes(FromBytes(bs, order), |bs|, order) == Ok(bs)
  {
    var be := Arrange(bs, order);
    EncodeUnsignedBE(be);
    ArrangeInvolution(bs, order);
  }

  /** The empty byte string decodes to 0 in either order. */
  lemma FromBytesEmpty(order: ByteOrder)
    ensures FromBytes([], order) == 0
  {
  }

  /** The two orders write the same value as mirror images of each other. */
  lemma ToBytesOrders(n: int, length: nat)
    requires 0 <= n < Pow256(length)
    ensures ToBytes(n, length, Little).Ok? && ToBytes(n, length, Big).Ok?
    ensures ToBytes(n, length, Little).value == Reverse(ToBytes(n, length, Big).value)
  {
  }
}
