/** src/include/bitset.h: a packed array of bits, refining a sequence of booleans. */
module Bitset {
  import opened Words

  /** Bytes that `bitset_new` allocates for `size` bits. */
  function BytesFor(size: nat): nat {
    (if size % 8 != 0 then size + 8 else size) / 8
  }

  lemma BytesForIsLeast(size: nat)
    ensures 8 * BytesFor(size) >= size
    ensures size > 0 ==> 8 * (BytesFor(size) - 1) < size
  {
  }

  /** `1 << j`. */
  function Mask(j: nat): byte
    requires j < 8
  {
    (1 as byte) << j
  }

  function GetBit(bits: seq<byte>, idx: nat): bool
    requires idx / 8 < |bits|
  {
    bits[idx / 8] & Mask(idx % 8) != 0
  }

  function PutByte(b: byte, j: nat, val: bool): byte
    requires j < 8
  {
    if val then b | Mask(j) else b & !Mask(j)
  }

  /** Setting or clearing one bit of a byte reads back there and nowhere else. */
  lemma ByteBit(b: byte, j: nat, val: bool, k: nat)
    requires j < 8 && k < 8
    ensures (PutByte(b, j, val) & Mask(k) != 0) == if j == k then val else b & Mask(k) != 0
  {
  }

  /** The booleans a packed store of `size` bits stands for. */
  ghost function View(bits: seq<byte>, size: nat): (v: seq<bool>)
    requires |bits| == BytesFor(size)
    ensures |v| == size && forall i :: 0 <= i < size ==> v[i] == GetBit(bits, i)
  {
    seq(size, i requires 0 <= i < size => GetBit(bits, i))
  }

  /** `bitset_new`: contents are whatever malloc returned. */
  method New(size: nat) returns (bits: array<byte>)
    ensures fresh(bits) && bits.Length == BytesFor(size)
  {
    bits := new byte[BytesFor(size)];
  }

  /** `bitset_get`. */
  method Get(bits: array<byte>, idx: nat, ghost size: nat) returns (r: bool)
    requires bits.Length == BytesFor(size) && idx < size
    ensures r == View(bits[..], size)[idx]
  {
    r := bits[idx / 8] & Mask(idx % 8) != 0;
  }

  /** `bitset_put`: one boolean changes, and no other. */
  method Put(bits: array<byte>, idx: nat, val: bool, ghost size: nat)
    requires bits.Length == BytesFor(size) && idx < size
    modifies bits
    ensures View(bits[..], size) == View(old(bits[..]), size)[idx := val]
  {
    PutRefines(bits[..], size, idx, val);
    if val {
      bits[idx / 8] := bits[idx / 8] | Mask(idx % 8);
    } else {
      bits[idx / 8] := bits[idx / 8] & !Mask(idx % 8);
    }
    assert bits[..] == old(bits[..])[idx / 8 := PutByte(old(bits[idx / 8]), idx % 8, val)];
  }

  lemma PutRefines(bits: seq<byte>, size: nat, idx: nat, val: bool)
    requires |bits| == BytesFor(size) && idx < size
    ensures View(bits[idx / 8 := PutByte(bits[idx / 8], idx % 8, val)], size) == View(bits, size)[idx := val]
  {
    var bits' := bits[idx / 8 := PutByte(bits[idx / 8], idx % 8, val)];
    forall i | 0 <= i < size ensures View(bits', size)[i] == View(bits, size)[idx := val][i] {
      ByteBit(bits[idx / 8], idx % 8, val, i % 8);
    }
  }
}
