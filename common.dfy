/** The primitive values a deposit transaction is built from: bytes, fixed
    width hashes and addresses, 64-bit counters and arbitrary-precision
    integers held behind a pointer. */
module Common {

  type byte = bv8

  const HashLength: nat := 32
  const AddressLength: nat := 20

  /** A 32-byte hash (`common.Hash`). */
  type Hash = s: seq<byte> | |s| == HashLength witness seq(32, _ => 0)

  /** A 20-byte account address (`common.Address`). */
  type Address = s: seq<byte> | |s| == AddressLength witness seq(20, _ => 0)

  /** Go's `uint64`. */
  type uint64 = x: int | 0 <= x < 0x1_0000_0000_0000_0000

  /** A `*big.Int`: a mutable integer cell that may be shared between
      holders, so that writing through one pointer is seen through all. */
  class BigInt {
    var val: int

    /** `new(big.Int)`: a fresh cell holding zero. */
    constructor ()
      ensures val == 0
    {
      val := 0;
    }

    /** `z.Set(x)`: overwrites this cell with the value of `x` and returns
        this same cell. */
    method Set(x: BigInt) returns (z: BigInt)
      modifies this
      ensures z == this
      ensures val == old(x.val)
    {
      val := x.val;
      z := this;
    }
  }

  /** `common.CopyBytes`: a newly allocated buffer holding the same bytes
      as `b`, so that writes to either buffer are not seen through the other. */
  method CopyBytes(b: array<byte>) returns (c: array<byte>)
    ensures fresh(c)
    ensures c[..] == b[..]
  {
    c := new byte[b.Length];
    var i := 0;
    while i < b.Length
      invariant 0 <= i <= b.Length
      invariant forall k :: 0 <= k < i ==> c[k] == b[k]
    {
      c[i] := b[i];
      i := i + 1;
    }
  }
}
