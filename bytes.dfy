/**
 * Bytes on the wire and the fixed-width unsigned integer codec that both the
 * Python `int.to_bytes`/`int.from_bytes` pair and Java's `ByteBuffer.putInt`/
 * `getInt` are built on. Everything is stated big-endian first; the other byte
 * order is the reversal of the big-endian layout.
 */
module Bytes {

  type Byte = b: int | 0 <= b < 256
  type Bytes = seq<Byte>

  /** The two values `sys.byteorder` and the `byteorder=` argument can take. */
  datatype ByteOrder = Little | Big

  /** 256 to the power n: the number of distinct n-byte strings. */
  function Pow256(n: nat): (r: nat)
    ensures r >= 1
  {
    if n == 0 then 1 else 256 * Pow256(n - 1)
  }

  lemma Pow256Four()
    ensures Pow256(4) == 0x1_0000_0000
  {
    assert Pow256(1) == 256;
    assert Pow256(2) == 0x1_0000;
    assert Pow256(3) == 0x100_0000;
  }

  lemma {:induction false} Pow256Monotonic(m: nat, n: nat)
    requires m <= n
    ensures Pow256(m) <= Pow256(n)
  {
    if m < n {
      Pow256Monotonic(m, n - 1);
    }
  }

  function Reverse<T>(s: seq<T>): (r: seq<T>)
    ensures |r| == |s|
    ensures forall i :: 0 <= i < |s| ==> r[i] == s[|s| - 1 - i]
  {
    if s == [] then [] else Reverse(s[1..]) + [s[0]]
  }

  lemma ReverseInvolution<T>(s: seq<T>)
    ensures Reverse(Reverse(s)) == s
  {
    assert forall i :: 0 <= i < |s| ==> Reverse(Reverse(s))[i] == s[i];
  }

  /** The byte string laid out in `order`, given its big-endian layout (and back). */
  function Arrange(bs: Bytes, order: ByteOrder): (r: Bytes)
    ensures |r| == |bs|
    ensures order == Big ==> r == bs
    ensures order == Little ==> forall i :: 0 <= i < |bs| ==> r[i] == bs[|bs| - 1 - i]
  {
    if order == Big then bs else Reverse(bs)
  }

  /** Arranging twice in the same order gives the bytes back. */
  lemma ArrangeInvolution(bs: Bytes, order: ByteOrder)
    ensures Arrange(Arrange(bs, order), order) == bs
  {
    if order == Little {
      ReverseInvolution(bs);
    }
  }

  /** The value of a byte string read most significant byte first. */
  function UnsignedBE(bs: Bytes): (n: nat)
    ensures n < Pow256(|bs|)
  {
    if bs == [] then 0
    else
      var hi := UnsignedBE(bs[..|bs| - 1]);
      assert hi * 256 <= (Pow256(|bs| - 1) - 1) * 256;
      hi * 256 + bs[|bs| - 1]
  }

  lemma UnsignedBEAppend(bs: Bytes, b: Byte)
    ensures UnsignedBE(bs + [b]) == UnsignedBE(bs) * 256 + b
  {
    assert (bs + [b])[..|bs|] == bs;
  }

  /** The value of four bytes, written out. */
  lemma UnsignedBEFour(bs: Bytes)
    requires |bs| == 4
    ensures UnsignedBE(bs) == bs[0] as int * 0x100_0000 + bs[1] as int * 0x1_0000 + bs[2] as int * 0x100 + bs[3]
  {
    assert bs[..3][..2][..1][..0] == [];
    assert UnsignedBE(bs[..1]) == bs[0];
    assert UnsignedBE(bs[..2]) == bs[0] as int * 0x100 + bs[1] by {
      assert bs[..2][..1] == bs[..1];
    }
    assert UnsignedBE(bs[..3]) == (bs[0] as int * 0x100 + bs[1]) * 0x100 + bs[2] by {
      assert bs[..3][..2] == bs[..2];
    }
  }

  /** The `len` bytes, most significant first, that hold `n`. */
  function EncodeBE(n: nat, len: nat): (bs: Bytes)
    requires n < Pow256(len)
    ensures |bs| == len
    ensures UnsignedBE(bs) == n
  {
    if len == 0 then []
    else
      var hi := EncodeBE(n / 256, len - 1);
      UnsignedBEAppend(hi, n % 256);
      hi + [n % 256]
  }

  /** A value below 256 is written in four bytes as three zero bytes and itself. */
  lemma EncodeBEOneByte(n: nat)
    requires n < 256
    ensures Pow256(4) > n
    ensures EncodeBE(n, 4) == [0, 0, 0, n]
  {
    Pow256Monotonic(1, 4);
    var bs: Bytes := [0, 0, 0, n];
    UnsignedBEFour(bs);
    UnsignedBEInjective(EncodeBE(n, 4), bs);
  }

  /** Reading a byte string and writing the value back at the same width gives the same bytes. */
  lemma {:induction false} EncodeUnsignedBE(bs: Bytes)
    ensures EncodeBE(UnsignedBE(bs), |bs|) == bs
  {
    if bs != [] {
      var init, last := bs[..|bs| - 1], bs[|bs| - 1];
      assert bs == init + [last];
      UnsignedBEAppend(init, last);
      var n := UnsignedBE(bs);
      assert n / 256 == UnsignedBE(init) && n % 256 == last;
      EncodeUnsignedBE(init);
    }
  }

  /** Two byte strings of one width with the same value are equal. */
  lemma UnsignedBEInjective(a: Bytes, b: Bytes)
    requires |a| == |b| && UnsignedBE(a) == UnsignedBE(b)
    ensures a == b
  {
    EncodeUnsignedBE(a);
    EncodeUnsignedBE(b);
  }
}
