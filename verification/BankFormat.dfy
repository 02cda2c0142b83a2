/**
 One bank of a slot: NOR flash bytes, a 16-byte header and a payload under a CRC
 (the byte layer of slice_store_core.rs).
 */
module BankFormat {
  import opened Wrappers
  import opened SliceLayout

  const BANK_MAGIC: u32 := 0x4453_4C31
  const ERASED_BYTE: u8 := 0xFF

  /** No bank is longer than this, so the top byte of a length field is never erased-looking. */
  const MAX_BANK_BYTES := 0x100_0000

  /** The checksum the flash offers, as a function of a seed and bytes. */
  type Crc = (u32, seq<u8>) -> u32

  /** All that the store needs of its checksum: it can be computed chunk by chunk from seed 0. */
  ghost predicate Chains(crc: Crc) {
    && crc(0, []) == 0
    && forall s: u32, a: seq<u8>, b: seq<u8> {:trigger crc(crc(s, a), b)} :: crc(crc(s, a), b) == crc(s, a + b)
  }

  // ---- Bytes ----

  function Blank(n: nat): (b: seq<u8>)
    ensures |b| == n
    ensures forall i | 0 <= i < n :: b[i] == ERASED_BYTE
  {
    seq(n, i => ERASED_BYTE)
  }

  /** Programming a NOR cell can only clear bits. */
  function NorAnd(cell: u8, b: u8): u8 {
    ((cell as bv8) & (b as bv8)) as int
  }

  /** Programming an erased byte stores the new byte. */
  lemma NorAndErased(b: u8)
    ensures NorAnd(ERASED_BYTE, b) == b
  {
    assert (0xFF as bv8) & (b as bv8) == b as bv8;
  }

  /** `data` programmed into `f` from `off` on. */
  function Programmed(f: seq<u8>, off: nat, data: seq<u8>): (r: seq<u8>)
    requires off + |data| <= |f|
    ensures |r| == |f|
  {
    seq(|f|, i requires 0 <= i < |f| => if off <= i < off + |data| then NorAnd(f[i], data[i - off]) else f[i])
  }

  /** The first `len` bytes of `f` from `off` on erased. */
  function Erased(f: seq<u8>, off: nat, len: nat): (r: seq<u8>)
    requires off + len <= |f|
    ensures |r| == |f|
  {
    f[..off] + Blank(len) + f[off + len..]
  }

  predicate IsBlank(f: seq<u8>) {
    forall i | 0 <= i < |f| :: f[i] == ERASED_BYTE
  }

  /** On an erased range programming is plain storing. */
  lemma ProgramErased(f: seq<u8>, off: nat, data: seq<u8>)
    requires off + |data| <= |f| && IsBlank(f[off..off + |data|])
    ensures Programmed(f, off, data) == f[..off] + data + f[off + |data|..]
  {
    var r := Programmed(f, off, data);
    forall i | off <= i < off + |data| ensures r[i] == data[i - off] {
      assert f[i] == f[off..off + |data|][i - off];
      NorAndErased(data[i - off]);
    }
  }

  // ---- Headers ----

  function LeBytes(v: u32): (b: seq<u8>)
    ensures |b| == 4
  {
    var v1: int := v / 0x100;
    var v2: int := v1 / 0x100;
    [v % 0x100, v1 % 0x100, v2 % 0x100, v2 / 0x100]
  }

  function LeValue(b0: int, b1: int, b2: int, b3: int): int {
    b0 + 0x100 * (b1 + 0x100 * (b2 + 0x100 * b3))
  }

  function LeWord(raw: seq<u8>, i: nat): (w: u32)
    requires i + 4 <= |raw|
  {
    LeValue(raw[i], raw[i + 1], raw[i + 2], raw[i + 3])
  }

  lemma LeRoundTrip(v: u32)
    ensures LeWord(LeBytes(v), 0) == v
  {
  }

  datatype BankHeader = BankHeader(seqNo: u32, len: u32, crc: u32)

  function Encode(h: BankHeader): (raw: seq<u8>)
    ensures |raw| == BANK_HEADER_BYTES
  {
    LeBytes(BANK_MAGIC) + LeBytes(h.seqNo) + LeBytes(h.len) + LeBytes(h.crc)
  }

  function Decode(raw: seq<u8>): Option<BankHeader>
    requires |raw| >= BANK_HEADER_BYTES
  {
    if LeWord(raw, 0) == BANK_MAGIC then Some(BankHeader(LeWord(raw, 4), LeWord(raw, 8), LeWord(raw, 12)))
    else None
  }

  /** What was encoded decodes to itself. */
  lemma HeaderRoundTrip(h: BankHeader, rest: seq<u8>)
    ensures Decode(Encode(h) + rest) == Some(h)
  {
    var raw := Encode(h) + rest;
    LeWordOf(raw, 0, BANK_MAGIC);
    LeWordOf(raw, 4, h.seqNo);
    LeWordOf(raw, 8, h.len);
    LeWordOf(raw, 12, h.crc);
  }

  lemma LeWordOf(raw: seq<u8>, i: nat, v: u32)
    requires i + 4 <= |raw| && raw[i..i + 4] == LeBytes(v)
    ensures LeWord(raw, i) == v
  {
    assert raw[i] == LeBytes(v)[0] && raw[i + 1] == LeBytes(v)[1];
    assert raw[i + 2] == LeBytes(v)[2] && raw[i + 3] == LeBytes(v)[3];
    LeRoundTrip(v);
  }

  // ---- Banks ----

  predicate BankSized(b: seq<u8>) {
    BANK_HEADER_BYTES <= |b| <= MAX_BANK_BYTES
  }

  function Capacity(b: seq<u8>): nat
    requires BankSized(b)
  {
    |b| - BANK_HEADER_BYTES
  }

  /** A bank `load` will consider: its header has the magic and a length that fits. */
  predicate Candidate(b: seq<u8>) {
    BankSized(b) && Decode(b).Some? && Decode(b).value.len <= Capacity(b)
  }

  function SeqOf(b: seq<u8>): u32
    requires Candidate(b)
  {
    Decode(b).value.seqNo
  }

  function Payload(b: seq<u8>): seq<u8>
    requires Candidate(b)
  {
    b[BANK_HEADER_BYTES..BANK_HEADER_BYTES + Decode(b).value.len]
  }

  /** A candidate whose payload matches its checksum. */
  predicate Valid(crc: Crc, b: seq<u8>) {
    Candidate(b) && crc(0, Payload(b)) == Decode(b).value.crc
  }

  // ---- Torn banks ----

  /** A bank without its first magic byte is no candidate: what an erase leaves from its first byte on. */
  lemma ErasedFirstByte(b: seq<u8>)
    requires BankSized(b) && b[0] == ERASED_BYTE
    ensures !Candidate(b)
  {
  }

  /** A bank whose header write was cut after `cut` bytes. */
  function TornBank(h: BankHeader, body: seq<u8>, cut: nat): (b: seq<u8>)
    requires cut <= BANK_HEADER_BYTES
    ensures |b| == BANK_HEADER_BYTES + |body|
  {
    Encode(h)[..cut] + Blank(BANK_HEADER_BYTES - cut) + body
  }

  /**
   A torn header is no candidate before its length is complete, and then carries the new
   sequence number and length; it is valid only when nothing of it is missing after all.
   */
  lemma TornHeader(crc: Crc, h: BankHeader, body: seq<u8>, cut: nat)
    requires cut <= BANK_HEADER_BYTES && BankSized(TornBank(h, body, cut))
    requires h.len <= |body| && h.crc == crc(0, body[..h.len])
    ensures var b := TornBank(h, body, cut);
            && (Candidate(b) ==> cut >= 12 && SeqOf(b) == h.seqNo && Payload(b) == body[..h.len])
            && (Valid(crc, b) <==> b == Encode(h) + body)
  {
    var b := TornBank(h, body, cut);
    var full := Encode(h) + body;
    HeaderRoundTrip(h, body);
    assert Payload(full) == body[..h.len];
    if cut < 4 {
      assert b[3] == ERASED_BYTE;
    } else if cut < 12 {
      assert b[11] == ERASED_BYTE;
      assert full[11] == LeBytes(h.len)[3];
    } else {
      TornTail(h, body, cut);
      assert Payload(b) == body[..h.len];
      if Decode(b).value.crc == h.crc {
        assert LeBytes(h.crc) == full[12..16];
        LeBytesOf(b, 12);
        assert b[12..16] == full[12..16];
        assert b == b[..12] + b[12..16] + b[16..];
        assert full == full[..12] + full[12..16] + full[16..];
      }
    }
  }

  lemma LeBytesOf(raw: seq<u8>, i: nat)
    requires i + 4 <= |raw|
    ensures LeBytes(LeWord(raw, i)) == raw[i..i + 4]
  {
    LeDigits(raw[i], raw[i + 1], raw[i + 2], raw[i + 3]);
  }

  lemma LeDigits(b0: u8, b1: u8, b2: u8, b3: u8)
    ensures LeBytes(LeValue(b0, b1, b2, b3)) == [b0, b1, b2, b3]
  {
    var v := LeValue(b0, b1, b2, b3);
    var v1 := b1 + 0x100 * (b2 + 0x100 * b3);
    assert v % 0x100 == b0 && v / 0x100 == v1;
    assert v1 % 0x100 == b1 && v1 / 0x100 == b2 + 0x100 * b3;
  }

  lemma TornTail(h: BankHeader, body: seq<u8>, cut: nat)
    requires 12 <= cut <= BANK_HEADER_BYTES
    ensures var b := TornBank(h, body, cut);
            && b[..12] == (Encode(h) + body)[..12] && b[16..] == (Encode(h) + body)[16..]
            && Decode(b).Some? && Decode(b).value.seqNo == h.seqNo && Decode(b).value.len == h.len
  {
    var b := TornBank(h, body, cut);
    var full := Encode(h) + body;
    assert b[..12] == full[..12];
    assert full[0..4] == LeBytes(BANK_MAGIC) && full[4..8] == LeBytes(h.seqNo) && full[8..12] == LeBytes(h.len);
    assert b[0..4] == full[0..4] && b[4..8] == full[4..8] && b[8..12] == full[8..12];
    LeWordOf(b, 0, BANK_MAGIC);
    LeWordOf(b, 4, h.seqNo);
    LeWordOf(b, 8, h.len);
  }
}
