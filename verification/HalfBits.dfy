/** A frame as Manchester half-bits (halfbits.rs). */
module HalfBits {
  import opened Wrappers
  import opened Bits

  const MAX_DATA_HALF_BITS := 72
  const DATA_LEN := 9

  /** Bit `i` of a value, counted from the least significant; nothing above bit 31. */
  function ValueBit(data: u32, i: nat): bool
    decreases i
  {
    if i >= 32 then false
    else if i == 0 then data % 2 == 1
    else ValueBit(data / 2, i - 1)
  }

  /** The `n` low bits of a value, the top one first. */
  function ValueBits(data: u32, n: nat): (b: seq<bool>)
    ensures |b| == n
    ensures forall k | 0 <= k < n :: b[k] == ValueBit(data, n - 1 - k)
  {
    if n == 0 then [] else [ValueBit(data, n - 1)] + ValueBits(data, n - 1)
  }

  /** A logical bit as two half-bits, true for a dominant one: a one is dominant first. */
  function Pair(one: bool): seq<bool> {
    [one, !one]
  }

  function Pairs(bits: seq<bool>): (h: seq<bool>)
    ensures |h| == 2 * |bits|
    ensures forall k | 0 <= k < |h| :: h[k] == if k % 2 == 0 then bits[k / 2] else !bits[k / 2]
  {
    if bits == [] then []
    else
      var rest := Pairs(bits[1..]);
      Pair(bits[0]) + rest
  }

  /** Start bit, value and two stop bits, which are recessive throughout. */
  function FrameHalfBits(data: u32, n: nat): (h: seq<bool>)
    ensures |h| == 2 * (n + 3)
  {
    Pairs([true] + ValueBits(data, n)) + [false, false, false, false]
  }

  /** Half-bit `k` of a buffer, as the transmitter picks it out. */
  predicate Dominant(data: seq<bv8>, k: nat)
    requires k < 8 * |data|
  {
    Bit(data[k / 8], k % 8)
  }

  /** These half-bits, as far as the bytes reach, and nothing after them. */
  predicate Shows(data: seq<bv8>, h: seq<bool>) {
    |data| == DATA_LEN && forall k | 0 <= k < 8 * DATA_LEN :: Dominant(data, k) == (k < |h| && h[k])
  }

  /** `data` shifted right, zero once the shift reaches the width. */
  function CheckedShr(data: u32, n: nat): u32 {
    if n >= 32 then 0 else Shr(data, n)
  }

  function Shr(data: u32, n: nat): u32 {
    if n == 0 then data else Shr(data / 2, n - 1)
  }

  lemma {:induction false} ShrBit(data: u32, n: nat)
    ensures (CheckedShr(data, n) % 2 == 1) == ValueBit(data, n)
    decreases n
  {
    if 0 < n < 32 {
      ShrBit(data / 2, n - 1);
    }
  }

  /** `pair << shift`, zero once the shift reaches the width. */
  function PairAt(pair: bv8, shift: int): bv8 {
    if shift == 6 then pair << 6
    else if shift == 4 then pair << 4
    else if shift == 2 then pair << 2
    else if shift == 0 then pair
    else 0
  }

  /** The two half-bits of a packed pair. */
  function Bits2(pair: bv8): seq<bool> {
    [pair & 2 != 0, pair & 1 != 0]
  }

  const ONE_PAIR: bv8 := 2
  const ZERO_PAIR: bv8 := 1
  const STOP_PAIR: bv8 := 0

  /** Putting a pair into two clear bits of a byte sets those and no others. */
  lemma OrPair(b: bv8, pair: bv8, o: nat)
    requires o == 0 || o == 2 || o == 4 || o == 6
    requires pair < 4 && forall i: nat | o <= i < 8 :: !Bit(b, i)
    ensures var c := b | PairAt(pair, 6 - o);
            && Bit(c, o) == (pair & 2 != 0) && Bit(c, o + 1) == (pair & 1 != 0)
            && (forall i: nat | i < o :: Bit(c, i) == Bit(b, i))
            && (forall i: nat | o + 2 <= i < 8 :: !Bit(c, i))
  {
    var c := b | PairAt(pair, 6 - o);
    assert !Bit(b, o) && !Bit(b, o + 1) && !Bit(b, 6) && !Bit(b, 7);
    if o == 0 {
      OrPair0(b, pair);
    } else if o == 2 {
      assert !Bit(b, 4) && !Bit(b, 5);
      OrPair2(b, pair);
    } else if o == 4 {
      OrPair4(b, pair);
    } else {
      OrPair6(b, pair);
    }
  }

  lemma OrPair0(b: bv8, pair: bv8)
    requires pair < 4 && forall i: nat | i < 8 :: !Bit(b, i)
    ensures var c := b | PairAt(pair, 6);
            && Bit(c, 0) == (pair & 2 != 0) && Bit(c, 1) == (pair & 1 != 0)
            && (forall i: nat | 2 <= i < 8 :: !Bit(c, i))
  {
    forall i: nat | i < 8 ensures Bit(b, i) == Bit(0, i) {
      ZeroBits(i);
    }
    SameBits(b, 0);
  }

  lemma OrPair2(b: bv8, pair: bv8)
    requires pair < 4 && !Bit(b, 2) && !Bit(b, 3) && !Bit(b, 4) && !Bit(b, 5) && !Bit(b, 6) && !Bit(b, 7)
    ensures var c := b | PairAt(pair, 4);
            && Bit(c, 2) == (pair & 2 != 0) && Bit(c, 3) == (pair & 1 != 0)
            && (forall i: nat | i < 2 :: Bit(c, i) == Bit(b, i)) && (forall i: nat | 4 <= i < 8 :: !Bit(c, i))
  {
  }

  lemma OrPair4(b: bv8, pair: bv8)
    requires pair < 4 && !Bit(b, 4) && !Bit(b, 5) && !Bit(b, 6) && !Bit(b, 7)
    ensures var c := b | PairAt(pair, 2);
            && Bit(c, 4) == (pair & 2 != 0) && Bit(c, 5) == (pair & 1 != 0)
            && (forall i: nat | i < 4 :: Bit(c, i) == Bit(b, i)) && (forall i: nat | 6 <= i < 8 :: !Bit(c, i))
  {
  }

  lemma OrPair6(b: bv8, pair: bv8)
    requires pair < 4 && !Bit(b, 6) && !Bit(b, 7)
    ensures var c := b | PairAt(pair, 0);
            && Bit(c, 6) == (pair & 2 != 0) && Bit(c, 7) == (pair & 1 != 0)
            && (forall i: nat | i < 6 :: Bit(c, i) == Bit(b, i))
  {
  }

  class HalfBitBuffer {
    var data: array<bv8>
    var length: u8

    constructor ()
      ensures fresh(data) && data.Length == DATA_LEN && length == 0
      ensures Holds([])
    {
      data := new bv8[DATA_LEN](_ => 0);
      length := 0;
      new;
      forall k | 0 <= k < 8 * DATA_LEN ensures !Dominant(data[..], k) {
        ZeroBits(k % 8);
      }
    }

    /** The buffer holds these half-bits, as far as it reaches, and nothing after them. */
    ghost predicate Holds(h: seq<bool>)
      reads this, data
    {
      data.Length == DATA_LEN && length == (if |h| <= 0xFF then |h| else 0xFF) && Shows(data[..], h)
    }

    method PushPair(pair: bv8, ghost h: seq<bool>)
      requires pair < 4 && Holds(h) && |h| % 2 == 0
      modifies this, data
      ensures data == old(data) && Holds(h + Bits2(pair))
    {
      hide Bit, PairAt, Shows;
      var at := length / 8;
      if at < DATA_LEN {
        var shift := 6 - length % 8;
        var o := length % 8;
        ghost var before := data[..];
        RestIsClear(before, h, at, o);
        OrPair(data[at], pair, o);
        data[at] := data[at] | PairAt(pair, shift);
        PairLands(before, data[..], h, at, o, pair);
      } else {
        PairBeyond(data[..], h, pair);
      }
      length := if length + 2 <= 0xFF then length + 2 else 0xFF;
    }

    /** One bit as its pair of half-bits. */
    method PushOne(one: bool, ghost sent: seq<bool>)
      requires Holds(Pairs(sent))
      modifies this, data
      ensures data == old(data) && Holds(Pairs(sent + [one]))
    {
      hide Bit, Shows, Bits2;
      PairBits();
      PairsGrow(sent, one);
      PushPair(if one then ONE_PAIR else ZERO_PAIR, Pairs(sent));
    }

    /** The frame of `bitCount` bits of `value`. */
    static method Encode(value: u32, bitCount: u8) returns (out: HalfBitBuffer)
      ensures fresh(out) && fresh(out.data)
      ensures out.Holds(FrameHalfBits(value, bitCount))
    {
      hide Bit, Shows, Bits2, CheckedShr, ValueBit, Dominant;
      out := new HalfBitBuffer();
      out.PushPair(ONE_PAIR, []);
      PairBits();
      PairsGrow([], true);
      assert [] + [true] == [true] && Pairs([]) + Pair(true) == [] + Bits2(ONE_PAIR);
      ghost var sent: seq<bool> := [true];
      var remaining := bitCount;
      while remaining > 0
        invariant fresh(out) && fresh(out.data)
        invariant sent == [true] + ValueBits(value, bitCount)[..bitCount - remaining]
        invariant out.Holds(Pairs(sent))
      {
        remaining := remaining - 1;
        var one := CheckedShr(value, remaining) % 2 == 1;
        ShrBit(value, remaining);
        out.PushOne(one, sent);
        sent := sent + [one];
      }
      ghost var body := Pairs(sent);
      assert sent == [true] + ValueBits(value, bitCount);
      out.PushPair(STOP_PAIR, body);
      out.PushPair(STOP_PAIR, body + [false, false]);
      assert body + [false, false] + [false, false] == FrameHalfBits(value, bitCount);
    }
  }

  lemma RestIsClear(data: seq<bv8>, h: seq<bool>, at: nat, o: nat)
    requires Shows(data, h) && at < DATA_LEN && |h| == 8 * at + o && o < 8
    ensures forall i: nat | o <= i < 8 :: !Bit(data[at], i)
  {
    hide Bit;
    forall i: nat | o <= i < 8 ensures !Bit(data[at], i) {
      assert !Dominant(data, 8 * at + i);
    }
  }

  /** Pairs past the end of the buffer are lost. */
  lemma PairBeyond(data: seq<bv8>, h: seq<bool>, pair: bv8)
    requires Shows(data, h) && |h| >= 8 * DATA_LEN
    ensures Shows(data, h + Bits2(pair))
  {
    hide Bit;
  }

  lemma PairBits()
    ensures Bits2(ONE_PAIR) == Pair(true)
    ensures Bits2(ZERO_PAIR) == Pair(false)
    ensures Bits2(STOP_PAIR) == [false, false]
  {
  }

  lemma PairsGrow(bits: seq<bool>, one: bool)
    ensures Pairs(bits + [one]) == Pairs(bits) + Pair(one)
  {
    assert forall k | 0 <= k < 2 * |bits| + 2 :: Pairs(bits + [one])[k] == (Pairs(bits) + Pair(one))[k];
  }

  lemma PairLands(before: seq<bv8>, after: seq<bv8>, h: seq<bool>, at: nat, o: nat, pair: bv8)
    requires Shows(before, h) && |after| == DATA_LEN && at < DATA_LEN && |h| == 8 * at + o && o < 8 && o % 2 == 0
    requires forall j | 0 <= j < DATA_LEN && j != at :: after[j] == before[j]
    requires Bit(after[at], o) == (pair & 2 != 0) && Bit(after[at], o + 1) == (pair & 1 != 0)
    requires forall i: nat | i < o :: Bit(after[at], i) == Bit(before[at], i)
    requires forall i: nat | o + 2 <= i < 8 :: !Bit(after[at], i)
    ensures Shows(after, h + Bits2(pair))
  {
    hide Bit;
    var h' := h + Bits2(pair);
    forall k | 0 <= k < 8 * DATA_LEN ensures Dominant(after, k) == (k < |h'| && h'[k]) {
      assert Dominant(before, k) == (k < |h| && h[k]);
    }
  }
}
