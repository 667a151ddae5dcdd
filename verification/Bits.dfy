/** Eight-bit bitmaps, seen as sets of bit numbers. */
module Bits {
  const FULL: bv8 := 0xFF

  function Mask(i: nat): bv8
    requires i < 8
  {
    if i == 0 then 1 else if i == 1 then 2 else if i == 2 then 4 else if i == 3 then 8
    else if i == 4 then 16 else if i == 5 then 32 else if i == 6 then 64 else 128
  }

  predicate Bit(b: bv8, i: nat)
    requires i < 8
  {
    b & Mask(i) != 0
  }

  lemma ConstantBits(i: nat)
    requires i < 8
    ensures !Bit(0, i) && Bit(FULL, i)
  {
  }

  lemma OrMask(a: bv8, b: bv8, m: bv8)
    ensures (a | b) & m != 0 <==> a & m != 0 || b & m != 0
  {
  }

  lemma OrBit(a: bv8, b: bv8, i: nat)
    requires i < 8
    ensures Bit(a | b, i) <==> Bit(a, i) || Bit(b, i)
  {
    OrMask(a, b, Mask(i));
  }

  lemma SetBit(a: bv8, i: nat, j: nat)
    requires i < 8 && j < 8
    ensures Bit(a | Mask(i), j) <==> Bit(a, j) || i == j
  {
    OrBit(a, Mask(i), j);
  }

  /** A bitmap is full exactly when every bit is set. */
  lemma FullIff(a: bv8)
    ensures a == FULL <==> forall i: nat :: i < 8 ==> Bit(a, i)
  {
    if forall i: nat :: i < 8 ==> Bit(a, i) {
      assert Bit(a, 0) && Bit(a, 1) && Bit(a, 2) && Bit(a, 3) && Bit(a, 4) && Bit(a, 5) && Bit(a, 6) && Bit(a, 7);
    } else {
      var i: nat :| i < 8 && !Bit(a, i);
    }
  }
}
