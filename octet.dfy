/**
 * One octet of a PortList bitmap and the bit operations hpswitch/vlan.py
 * performs on it: the mask of a bit, and the octet with one bit set or cleared.
 */
module Octet {
  /**
   * The mask `1 << k` of bit `k` of an octet, bit 7 being the most
   * significant; spelled out so that no integer is converted to a bit-vector.
   */
  function Mask(k: nat): bv8
    requires k < 8
  {
    match k
    case 0 => 0x01 case 1 => 0x02 case 2 => 0x04 case 3 => 0x08
    case 4 => 0x10 case 5 => 0x20 case 6 => 0x40 case _ => 0x80
  }

  /** The table is the shift the source writes: `Mask(k) == 1 << k`, a single bit. */
  lemma MaskIsShift(k: nat)
    requires k < 8
    ensures Mask(k) == (1 as bv8) << k
    ensures Mask(k) != 0
  {
    match k
    case 0 => case 1 => case 2 => case 3 =>
    case 4 => case 5 => case 6 => case _ =>
  }

  /** The octet with bit `k` forced to `status`. */
  function WithBit(b: bv8, k: nat, status: bool): bv8
    requires k < 8
  {
    Force(b, Mask(k), status)
  }

  /** The octet `b` with the bits of `m` all set (`status`) or all cleared. */
  function Force(b: bv8, m: bv8, status: bool): bv8
  {
    if status then b | m else b & !m
  }

  /** Forcing bit `k` sets it to `status` and leaves the other seven bits alone. */
  lemma WithBitBits(b: bv8, k: nat, status: bool)
    requires k < 8
    ensures (WithBit(b, k, status) & Mask(k) != 0) == status
    ensures forall j | 0 <= j < 8 && j != k :: WithBit(b, k, status) & Mask(j) == b & Mask(j)
  {
    forall j | 0 <= j < 8 && j != k
      ensures WithBit(b, k, status) & Mask(j) == b & Mask(j)
    {
      var m, n := Mask(k), Mask(j);
      MasksDisjoint(k, j);
      ForceKeeps(b, m, n, status);
    }
    assert Mask(k) != 0;
  }

  /** Forcing bits leaves the bits outside the mask alone. */
  lemma ForceKeeps(b: bv8, m: bv8, n: bv8, status: bool)
    requires m & n == 0
    ensures Force(b, m, status) & n == b & n
  {
  }

  /** Forcing the same bits twice leaves what the second forcing says. */
  lemma ForceTwice(b: bv8, m: bv8, first: bool, second: bool)
    ensures Force(Force(b, m, first), m, second) == Force(b, m, second)
  {
  }

  /** The masks of two different bits share no bit. */
  lemma MasksDisjoint(k: nat, j: nat)
    requires k < 8 && j < 8 && k != j
    ensures Mask(k) & Mask(j) == 0
  {
  }

  /** Forcing the same bit twice leaves what the second forcing says. */
  lemma WithBitTwice(b: bv8, k: nat, first: bool, second: bool)
    requires k < 8
    ensures WithBit(WithBit(b, k, first), k, second) == WithBit(b, k, second)
  {
    ForceTwice(b, Mask(k), first, second);
  }

  /** Forcing bit `k` of an octet leaves its bit `j` alone. */
  lemma OctetOtherBit(b: bv8, k: nat, status: bool, j: nat)
    requires k < 8 && j < 8 && j != k
    ensures (WithBit(b, k, status) & Mask(j) != 0) == (b & Mask(j) != 0)
  {
    MasksDisjoint(k, j);
    ForceKeeps(b, Mask(k), Mask(j), status);
  }

  /** An octet is determined by its eight bits. */
  lemma OctetFromBits(x: bv8, y: bv8)
    requires forall k | 0 <= k < 8 :: x & Mask(k) == y & Mask(k)
    ensures x == y
  {
    assert x & Mask(0) == y & Mask(0) && x & Mask(1) == y & Mask(1);
    assert x & Mask(2) == y & Mask(2) && x & Mask(3) == y & Mask(3);
    assert x & Mask(4) == y & Mask(4) && x & Mask(5) == y & Mask(5);
    assert x & Mask(6) == y & Mask(6) && x & Mask(7) == y & Mask(7);
    assert Mask(0) == 1 && Mask(1) == 2 && Mask(2) == 4 && Mask(3) == 8;
    assert Mask(4) == 16 && Mask(5) == 32 && Mask(6) == 64 && Mask(7) == 128;
  }
}
