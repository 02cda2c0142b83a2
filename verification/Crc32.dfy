/** The reflected CRC-32 of the flash driver: one checksum with the chaining the store relies on. */
module Crc32 {
  import opened Wrappers
  import opened BankFormat

  function Shift(c: bv32): bv32 {
    if c & 1 == 1 then (c >> 1) ^ 0xEDB8_8320 else c >> 1
  }

  function Absorb(c: bv32, b: u8): bv32 {
    Shift(Shift(Shift(Shift(Shift(Shift(Shift(Shift(c ^ (b as bv32)))))))))
  }

  function Fold<S>(step: (S, u8) -> S, c: S, bytes: seq<u8>): S {
    if bytes == [] then c else Fold(step, step(c, bytes[0]), bytes[1..])
  }

  function Start(seed: u32): bv32 {
    !(seed as bv32)
  }

  function Finish(c: bv32): u32 {
    (!c) as int
  }

  function Checksum(seed: u32, bytes: seq<u8>): u32 {
    Finish(Fold(Absorb, Start(seed), bytes))
  }

  lemma {:induction false} FoldSplits<S>(step: (S, u8) -> S, c: S, a: seq<u8>, b: seq<u8>)
    ensures Fold(step, c, a + b) == Fold(step, Fold(step, c, a), b)
    decreases |a|
  {
    if a == [] {
      assert a + b == b;
    } else {
      assert (a + b)[1..] == a[1..] + b;
      FoldSplits(step, step(c, a[0]), a[1..], b);
    }
  }

  lemma ChecksumSplits(s: u32, a: seq<u8>, b: seq<u8>)
    ensures Checksum(Checksum(s, a), b) == Checksum(s, a + b)
  {
    hide Absorb, Fold, Start, Finish;
    FoldSplits(Absorb, Start(s), a, b);
    StartOfFinish(Fold(Absorb, Start(s), a));
  }

  /** CRC-32 can be computed chunk by chunk. */
  lemma ChecksumChains()
    ensures Chains(Checksum)
  {
    hide Checksum;
    EmptyChecksum();
    forall s: u32, a: seq<u8>, b: seq<u8>
      ensures Checksum(Checksum(s, a), b) == Checksum(s, a + b)
    {
      ChecksumSplits(s, a, b);
    }
  }

  lemma EmptyChecksum()
    ensures Checksum(0, []) == 0
  {
    hide Absorb;
    assert !(!(0 as bv32)) == 0;
  }

  /** A finished checksum is a seed to continue from. */
  lemma StartOfFinish(c: bv32)
    ensures Start(Finish(c)) == c
  {
    Recovers(!c);
  }

  lemma Recovers(c: bv32)
    ensures (c as int) as bv32 == c
  {
  }
}
