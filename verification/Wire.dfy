/**
  The 64-byte launcher frame: the in-place C encoder and the field layout that the Python
  decoder unpacks with one big-endian struct format.
 */
module Wire {
  import opened Common

  const FRAME_SIZE := 64
  const MAGIC: seq<Byte> := [0x42, 0x50, 0x45, 0x49, 0x46, 0x58, 0x31, 0x00]
  const VERSION := 1
  const PAYLOAD_SIZE := 40
  const RESERVED: seq<Byte> := [0, 0, 0, 0, 0, 0, 0, 0]

  // ---------------------------------------------------------------------------------------
  // Big-endian integers

  function Pow256(n: nat): (p: nat)
    ensures p > 0
  {
    if n == 0 then 1 else 256 * Pow256(n - 1)
  }

  function BigEndian(value: nat, n: nat): (s: seq<Byte>)
    ensures |s| == n
  {
    if n == 0 then [] else BigEndian(value / 256, n - 1) + [value % 256]
  }

  function FromBigEndian(s: seq<Byte>): (value: nat)
  {
    if s == [] then 0 else FromBigEndian(s[..|s| - 1]) * 256 + s[|s| - 1]
  }

  lemma {:induction false} BigEndianDecodes(value: nat, n: nat)
    requires value < Pow256(n)
    ensures FromBigEndian(BigEndian(value, n)) == value
  {
    if n > 0 {
      BigEndianDecodes(value / 256, n - 1);
      var s := BigEndian(value, n);
      assert s[..|s| - 1] == BigEndian(value / 256, n - 1);
    }
  }

  lemma {:induction false} BigEndianEncodes(s: seq<Byte>)
    ensures FromBigEndian(s) < Pow256(|s|)
    ensures BigEndian(FromBigEndian(s), |s|) == s
  {
    if s != [] {
      var front, last := s[..|s| - 1], s[|s| - 1];
      BigEndianEncodes(front);
      LastByte(FromBigEndian(front), last);
      assert s == front + [last];
    }
  }

  lemma LastByte(x: nat, b: Byte)
    ensures (x * 256 + b) / 256 == x && (x * 256 + b) % 256 == b
  {
  }

  lemma Widths()
    ensures Pow256(2) == 0x1_0000
    ensures Pow256(4) == 0x1_0000_0000
    ensures Pow256(8) == 0x1_0000_0000_0000_0000
  {
  }

  // ---------------------------------------------------------------------------------------
  // Frame layout

  /** The integers a frame carries, before any of them is read as an enumeration. */
  datatype RawFrame = RawFrame(
    frameType: nat, sequence: nat, status: nat, stage: nat, reason: nat,
    errorNumber: nat, value0: nat, value1: nat)

  /** The C parameter types: uint16_t, uint32_t and uint64_t. */
  predicate FitsWire(f: RawFrame)
  {
    && f.frameType < 0x1_0000
    && f.sequence < 0x1_0000_0000_0000_0000
    && f.status < 0x1_0000_0000
    && f.stage < 0x1_0000_0000
    && f.reason < 0x1_0000_0000
    && f.errorNumber < 0x1_0000_0000
    && f.value0 < 0x1_0000_0000_0000_0000
    && f.value1 < 0x1_0000_0000_0000_0000
  }

  function Header(frameType: nat): (s: seq<Byte>)
    ensures |s| == 16
  {
    MAGIC + BigEndian(VERSION, 2) + BigEndian(frameType, 2) + BigEndian(PAYLOAD_SIZE, 4)
  }

  function Encode(f: RawFrame): (s: seq<Byte>)
    ensures |s| == FRAME_SIZE
  {
    Header(f.frameType)
    + BigEndian(f.sequence, 8) + BigEndian(f.status, 4) + BigEndian(f.stage, 4)
    + BigEndian(f.reason, 4) + BigEndian(f.errorNumber, 4)
    + BigEndian(f.value0, 8) + BigEndian(f.value1, 8) + RESERVED
  }

  /** The integers found at the fixed offsets of a 64-byte record. */
  function Unpack(s: seq<Byte>): RawFrame
    requires |s| == FRAME_SIZE
  {
    RawFrame(
      FromBigEndian(s[10..12]), FromBigEndian(s[16..24]), FromBigEndian(s[24..28]),
      FromBigEndian(s[28..32]), FromBigEndian(s[32..36]), FromBigEndian(s[36..40]),
      FromBigEndian(s[40..48]), FromBigEndian(s[48..56]))
  }

  /** The constant part of a record that the decoder insists on. */
  predicate WellFramed(s: seq<Byte>)
    requires |s| == FRAME_SIZE
  {
    && s[0..8] == MAGIC
    && FromBigEndian(s[8..10]) == VERSION
    && FromBigEndian(s[12..16]) == PAYLOAD_SIZE
    && s[56..64] == RESERVED
  }

  lemma EncodeSlices(f: RawFrame)
    ensures var s := Encode(f);
            && s[0..8] == MAGIC && s[8..10] == BigEndian(VERSION, 2)
            && s[10..12] == BigEndian(f.frameType, 2) && s[12..16] == BigEndian(PAYLOAD_SIZE, 4)
            && s[16..24] == BigEndian(f.sequence, 8) && s[24..28] == BigEndian(f.status, 4)
            && s[28..32] == BigEndian(f.stage, 4) && s[32..36] == BigEndian(f.reason, 4)
            && s[36..40] == BigEndian(f.errorNumber, 4) && s[40..48] == BigEndian(f.value0, 8)
            && s[48..56] == BigEndian(f.value1, 8) && s[56..64] == RESERVED
  {
    hide BigEndian;
    var s, h := Encode(f), Header(f.frameType);
    assert s[0..16] == h;
    assert h[0..8] == MAGIC && h[8..10] == BigEndian(VERSION, 2) && h[10..12] == BigEndian(f.frameType, 2)
           && h[12..16] == BigEndian(PAYLOAD_SIZE, 4);
    assert s[0..8] == h[0..8] && s[8..10] == h[8..10] && s[10..12] == h[10..12] && s[12..16] == h[12..16];
  }

  /** Decoding an encoded frame finds the same integers in a well-framed record. */
  lemma EncodeUnpacks(f: RawFrame)
    requires FitsWire(f)
    ensures WellFramed(Encode(f))
    ensures Unpack(Encode(f)) == f
  {
    hide BigEndian, FromBigEndian, Pow256, Encode;
    EncodeSlices(f);
    Widths();
    BigEndianDecodes(VERSION, 2);
    BigEndianDecodes(PAYLOAD_SIZE, 4);
    BigEndianDecodes(f.frameType, 2);
    BigEndianDecodes(f.sequence, 8);
    BigEndianDecodes(f.status, 4);
    BigEndianDecodes(f.stage, 4);
    BigEndianDecodes(f.reason, 4);
    BigEndianDecodes(f.errorNumber, 4);
    BigEndianDecodes(f.value0, 8);
    BigEndianDecodes(f.value1, 8);
  }

  /** A well-framed record is, byte for byte, the encoding of the integers found in it. */
  lemma UnpackEncodes(s: seq<Byte>)
    requires |s| == FRAME_SIZE && WellFramed(s)
    ensures FitsWire(Unpack(s))
    ensures Encode(Unpack(s)) == s
  {
    hide BigEndian, FromBigEndian, Pow256;
    Widths();
    BigEndianEncodes(s[8..10]);
    BigEndianEncodes(s[10..12]);
    BigEndianEncodes(s[12..16]);
    BigEndianEncodes(s[16..24]);
    BigEndianEncodes(s[24..28]);
    BigEndianEncodes(s[28..32]);
    BigEndianEncodes(s[32..36]);
    BigEndianEncodes(s[36..40]);
    BigEndianEncodes(s[40..48]);
    BigEndianEncodes(s[48..56]);
    assert s[0..16] == s[0..8] + s[8..10] + s[10..12] + s[12..16];
    assert s[0..16] == Header(Unpack(s).frameType);
    assert s[16..64] == s[16..24] + s[24..28] + s[28..32] + s[32..36] + s[36..40] + s[40..48] + s[48..56] + s[56..64];
    assert s == s[0..16] + s[16..64];
  }

  // ---------------------------------------------------------------------------------------
  // The C encoder, writing a caller's buffer in place

  method PutBe16(output: array<Byte>, offset: nat, value: nat)
    requires offset + 2 <= output.Length && value < 0x1_0000
    modifies output
    ensures output[..offset + 2] == old(output[..offset]) + BigEndian(value, 2)
    ensures forall k :: offset + 2 <= k < output.Length ==> output[k] == old(output[k])
  {
    output[offset] := value / 0x100 % 256;
    output[offset + 1] := value % 256;
    assert BigEndian(value, 2) == BigEndian(value / 256, 1) + [value % 256];
    assert BigEndian(value / 256, 1) == BigEndian(value / 256 / 256, 0) + [value / 256 % 256];
  }

  method PutBe32(output: array<Byte>, offset: nat, value: nat)
    requires offset + 4 <= output.Length && value < 0x1_0000_0000
    modifies output
    ensures output[..offset + 4] == old(output[..offset]) + BigEndian(value, 4)
    ensures forall k :: offset + 4 <= k < output.Length ==> output[k] == old(output[k])
  {
    output[offset] := value / 0x100_0000 % 256;
    output[offset + 1] := value / 0x1_0000 % 256;
    output[offset + 2] := value / 0x100 % 256;
    output[offset + 3] := value % 256;
    BigEndian4(value);
  }

  method PutBe64(output: array<Byte>, offset: nat, value: nat)
    requires offset + 8 <= output.Length && value < 0x1_0000_0000_0000_0000
    modifies output
    ensures output[..offset + 8] == old(output[..offset]) + BigEndian(value, 8)
    ensures forall k :: offset + 8 <= k < output.Length ==> output[k] == old(output[k])
  {
    output[offset] := value / 0x100_0000_0000_0000 % 256;
    output[offset + 1] := value / 0x1_0000_0000_0000 % 256;
    output[offset + 2] := value / 0x100_0000_0000 % 256;
    output[offset + 3] := value / 0x1_0000_0000 % 256;
    output[offset + 4] := value / 0x100_0000 % 256;
    output[offset + 5] := value / 0x1_0000 % 256;
    output[offset + 6] := value / 0x100 % 256;
    output[offset + 7] := value % 256;
    BigEndian8(value);
  }

  /** The shifts of the C encoder select the big-endian bytes. */
  lemma BigEndian4(value: nat)
    ensures BigEndian(value, 4)
         == [value / 0x100_0000 % 256, value / 0x1_0000 % 256, value / 0x100 % 256, value % 256]
  {
    var b := value / 256;
    assert BigEndian(b / 256 / 256, 1) == BigEndian(b / 256 / 256 / 256, 0) + [b / 256 / 256 % 256];
    assert BigEndian(b / 256, 2) == BigEndian(b / 256 / 256, 1) + [b / 256 % 256];
    assert BigEndian(b, 3) == BigEndian(b / 256, 2) + [b % 256];
  }

  lemma BigEndian8(value: nat)
    ensures BigEndian(value, 8)
         == [value / 0x100_0000_0000_0000 % 256, value / 0x1_0000_0000_0000 % 256,
             value / 0x100_0000_0000 % 256, value / 0x1_0000_0000 % 256,
             value / 0x100_0000 % 256, value / 0x1_0000 % 256, value / 0x100 % 256, value % 256]
  {
    var h := value / 0x1_0000_0000;
    HighShifts(value);
    BigEndian4(h);
    BigEndianSplit(value);
  }

  lemma HighShifts(value: nat)
    ensures value / 0x1_0000_0000 / 0x100_0000 == value / 0x100_0000_0000_0000
    ensures value / 0x1_0000_0000 / 0x1_0000 == value / 0x1_0000_0000_0000
    ensures value / 0x1_0000_0000 / 0x100 == value / 0x100_0000_0000
  {
  }

  lemma BigEndianSplit(value: nat)
    ensures BigEndian(value, 8)
         == BigEndian(value / 0x1_0000_0000, 4)
            + [value / 0x100_0000 % 256, value / 0x1_0000 % 256, value / 0x100 % 256, value % 256]
  {
    var b := value / 0x100;
    var c := value / 0x1_0000;
    var d := value / 0x100_0000;
    var h := value / 0x1_0000_0000;
    assert b / 256 == c && c / 256 == d && d / 256 == h;
    BigEndianStep(value, 7);
    BigEndianStep(b, 6);
    BigEndianStep(c, 5);
    BigEndianStep(d, 4);
  }

  lemma BigEndianStep(value: nat, n: nat)
    ensures BigEndian(value, n + 1) == BigEndian(value / 256, n) + [value % 256]
  {
  }

  method EncodeFrame(output: array<Byte>, f: RawFrame)
    requires output.Length == FRAME_SIZE && FitsWire(f)
    modifies output
    ensures output[..] == Encode(f)
  {
    for i := 0 to FRAME_SIZE
      invariant forall k :: 0 <= k < i ==> output[k] == 0
    {
      output[i] := 0;
    }
    for i := 0 to 8
      invariant forall k :: 0 <= k < i ==> output[k] == MAGIC[k]
      invariant forall k :: 8 <= k < FRAME_SIZE ==> output[k] == 0
    {
      output[i] := MAGIC[i];
    }
    assert output[..8] == MAGIC;
    PutBe16(output, 8, VERSION);
    PutBe16(output, 10, f.frameType);
    PutBe32(output, 12, PAYLOAD_SIZE);
    assert output[..16] == Header(f.frameType);
    PutBe64(output, 16, f.sequence);
    PutBe32(output, 24, f.status);
    PutBe32(output, 28, f.stage);
    PutBe32(output, 32, f.reason);
    PutBe32(output, 36, f.errorNumber);
    PutBe64(output, 40, f.value0);
    PutBe64(output, 48, f.value1);
    assert output[56..] == RESERVED;
    assert output[..] == output[..56] + output[56..];
  }
}
