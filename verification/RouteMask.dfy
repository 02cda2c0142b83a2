/** Sets of up to sixteen subscribers as words, and the walk over their bits (bus.rs). */
module RouteMask {
  // ---- Masks ----

  function Single(i: nat): bv16
    requires i < 16
  {
    if i == 0 then 0x0001 else if i == 1 then 0x0002 else if i == 2 then 0x0004 else if i == 3 then 0x0008
    else if i == 4 then 0x0010 else if i == 5 then 0x0020 else if i == 6 then 0x0040 else if i == 7 then 0x0080
    else if i == 8 then 0x0100 else if i == 9 then 0x0200 else if i == 10 then 0x0400 else if i == 11 then 0x0800
    else if i == 12 then 0x1000 else if i == 13 then 0x2000 else if i == 14 then 0x4000 else 0x8000
  }

  function And(a: bv16, b: bv16): bv16 {
    a & b
  }

  function Or(a: bv16, b: bv16): bv16 {
    a | b
  }

  function WithoutLowest(m: bv16): bv16 {
    m & (m - 1)
  }

  predicate InMask(m: bv16, i: nat): (b: bool)
    ensures b ==> i < 16
  {
    i < 16 && And(m, Single(i)) != 0
  }

  // Facts about the sixteen single bits

  lemma OrKeeps(m: bv16, i: nat, j: nat)
    requires i < 16 && j < 16 && i != j
    ensures And(Or(m, Single(i)), Single(j)) == And(m, Single(j))
  {
  }

  lemma OrSets(m: bv16, i: nat)
    requires i < 16
    ensures And(Or(m, Single(i)), Single(i)) != 0
  {
  }

  /** Taking one off a word and masking clears its lowest bit alone. */
  lemma ClearsLowest(m: bv16, i: nat)
    requires i < 16 && And(m, Single(i)) != 0 && And(m, Under(i)) == 0
    ensures WithoutLowest(m) == And(m, !Single(i))
  {
  }

  lemma ClearedBit(m: bv16, i: nat)
    requires i < 16
    ensures And(And(m, !Single(i)), Single(i)) == 0
  {
  }

  lemma KeptBit(m: bv16, i: nat, j: nat)
    requires i < 16 && j < 16 && i != j
    ensures And(And(m, !Single(i)), Single(j)) == And(m, Single(j))
  {
  }

  lemma AddBit(m: bv16, i: nat, j: nat)
    requires i < 16 && j < 16
    ensures InMask(Or(m, Single(i)), j) <==> InMask(m, j) || j == i
  {
    hide Single, And, Or;
    if i != j {
      OrKeeps(m, i, j);
    } else {
      OrSets(m, i);
    }
  }

  /** The number of zero bits below the lowest one. */
  function TrailingZeros(m: bv16, from: nat): (i: nat)
    requires from <= 16
    ensures from <= i <= 16
    ensures i < 16 ==> InMask(m, i)
    ensures forall j | from <= j < i :: !InMask(m, j)
    decreases 16 - from
  {
    if from == 16 || InMask(m, from) then from else TrailingZeros(m, from + 1)
  }

  /** The word with all bits below bit `i`. */
  function Under(i: nat): bv16
    requires i < 16
  {
    Single(i) - 1
  }

  lemma UnderFirst(m: bv16)
    ensures And(m, Under(0)) == 0
  {
  }

  lemma UnderNext(m: bv16, i: nat)
    requires 0 < i < 16 && And(m, Under(i - 1)) == 0 && And(m, Single(i - 1)) == 0
    ensures And(m, Under(i)) == 0
  {
  }

  lemma {:induction false} NoLowerBits(m: bv16, i: nat)
    requires i < 16 && forall j | 0 <= j < i :: !InMask(m, j)
    ensures And(m, Under(i)) == 0
    decreases i
  {
    hide Single, And, Under;
    if i == 0 {
      UnderFirst(m);
    } else {
      NoLowerBits(m, i - 1);
      assert !InMask(m, i - 1);
      UnderNext(m, i);
    }
  }

  lemma NonzeroHasBit(m: bv16)
    requires m != 0
    ensures TrailingZeros(m, 0) < 16
  {
    hide Single, And, Under;
    if forall j | 0 <= j < 16 :: !InMask(m, j) {
      NoLowerBits(m, 15);
      assert !InMask(m, 15);
      TopBits(m);
    }
  }

  lemma TopBits(m: bv16)
    requires And(m, Under(15)) == 0 && And(m, Single(15)) == 0
    ensures m == 0
  {
  }

  /** `m & (m - 1)` takes out the lowest bit and leaves the others. */
  lemma LowestCleared(m: bv16, j: nat)
    requires m != 0 && j < 16
    ensures InMask(WithoutLowest(m), j) <==> InMask(m, j) && j != TrailingZeros(m, 0)
  {
    hide Single, And, WithoutLowest, Under;
    NonzeroHasBit(m);
    var i := TrailingZeros(m, 0);
    NoLowerBits(m, i);
    ClearsLowest(m, i);
    if j == i {
      ClearedBit(m, i);
    } else {
      KeptBit(m, i, j);
    }
  }
}
