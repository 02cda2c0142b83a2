/** Bytes as the eight line levels they hold, the first one in the top bit. */
module Bits {
  /** Bit `i` of a byte, counted from the top. */
  function Bit(b: bv8, i: nat): bool
    requires i < 8
  {
    if i == 0 then b & 0x80 != 0
    else if i == 1 then b & 0x40 != 0
    else if i == 2 then b & 0x20 != 0
    else if i == 3 then b & 0x10 != 0
    else if i == 4 then b & 0x08 != 0
    else if i == 5 then b & 0x04 != 0
    else if i == 6 then b & 0x02 != 0
    else b & 0x01 != 0
  }

  function ShiftIn(b: bv8, level: bool): bv8 {
    (b << 1) | (if level then 1 else 0)
  }

  lemma ShiftInBits(b: bv8, level: bool)
    ensures Bit(ShiftIn(b, level), 7) == level
    ensures forall i: nat | i < 7 :: Bit(ShiftIn(b, level), i) == Bit(b, i + 1)
  {
    var c := ShiftIn(b, level);
    assert Bit(c, 0) == Bit(b, 1) && Bit(c, 1) == Bit(b, 2) && Bit(c, 2) == Bit(b, 3) && Bit(c, 3) == Bit(b, 4);
    assert Bit(c, 4) == Bit(b, 5) && Bit(c, 5) == Bit(b, 6) && Bit(c, 6) == Bit(b, 7);
  }

  /** The levels shifted into a zero byte one after the other. */
  function Folded(levels: seq<bool>): bv8 {
    if levels == [] then 0 else ShiftIn(Folded(levels[..|levels| - 1]), levels[|levels| - 1])
  }

  /** The byte holds the last eight levels. */
  lemma {:induction false} FoldedBits(levels: seq<bool>, i: nat)
    requires i < 8
    ensures Bit(Folded(levels), i) == if |levels| + i < 8 then false else levels[|levels| + i - 8]
    decreases |levels|
  {
    hide ShiftIn;
    if levels == [] {
      assert Folded(levels) == 0;
      ZeroBits(i);
    } else {
      var rest, last := levels[..|levels| - 1], levels[|levels| - 1];
      ShiftInBits(Folded(rest), last);
      if i < 7 {
        FoldedBits(rest, i + 1);
      }
    }
  }

  lemma ZeroBits(i: nat)
    requires i < 8
    ensures !Bit(0, i) && Bit(0xFF, i)
  {
  }

  /** Two bytes with the same bits are the same. */
  lemma SameBits(a: bv8, b: bv8)
    requires forall i: nat | i < 8 :: Bit(a, i) == Bit(b, i)
    ensures a == b
  {
    assert Bit(a, 0) == Bit(b, 0) && Bit(a, 1) == Bit(b, 1) && Bit(a, 2) == Bit(b, 2) && Bit(a, 3) == Bit(b, 3);
    assert Bit(a, 4) == Bit(b, 4) && Bit(a, 5) == Bit(b, 5) && Bit(a, 6) == Bit(b, 6) && Bit(a, 7) == Bit(b, 7);
  }

  /** Level `m` of a byte string. */
  function LevelAt(bytes: seq<bv8>, m: nat): bool
    requires m < 8 * |bytes|
  {
    Bit(bytes[m / 8], m % 8)
  }
}
