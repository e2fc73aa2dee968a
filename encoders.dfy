/**
 * The payload encoders of the Mustang model: one fixed 8-byte payload per CAN
 * identifier, built from the slice of vehicle state that identifier carries.
 */
module Encoders {
  import opened Wrappers
  import opened Bytes

  const VinLength := 17
  /** Byte 0 of every VIN frame. */
  const VinTag: byte := 0xC1
  /** Fills the one byte of the third VIN frame that the 17 characters do not reach. */
  const VinPad: byte := 0xFF

  /** The all-zero "nothing pressed" payload of frame 0x81. */
  const DefaultPayload: seq<byte> := [0x00, 0x00, 0x00, 0x00, 0x00, 0x00, 0x00, 0x00]
  /** Drivetrain-mode frame 0x109, constant. */
  const Payload109: seq<byte> := [0x00, 0x03, 0x01, 0x00, 0x00, 0x00, 0x00, 0x28]
  /** Stability-control status frame 0x416, constant. */
  const AbsTracPayload: seq<byte> := [0x50, 0x00, 0xFE, 0x00, 0x01, 0x00, 0x00, 0x00]
  /** Body-control template of frames 0x3B3 and 0x3B2, before the blinker bits. */
  const BlinkerTemplate: seq<byte> := [0x40, 0x48, 0xC0, 0x10, 0x10, 0x00, 0x00, 0x02]
  const RightBlinkerBit: byte := 0x08
  const LeftBlinkerBit: byte := 0x40

  /** A VIN character as it goes on the wire: `(unsigned char)` of its code. */
  function CharByte(c: char): byte
  {
    Low8(c as int)
  }

  /** The character a receiver reads back from a VIN byte. */
  function ByteChar(b: byte): char
  {
    (b as int) as char
  }

  // ---------------------------------------------------------------- VIN

  /** Frame `k` of the VIN: the tag, the frame index, then the VIN's `k`-th run
      of six characters, padded with 0xFF where the VIN runs out. */
  function VinChunk(vin: seq<char>, k: nat): (r: seq<byte>)
    requires |vin| == VinLength && k < 3
    ensures |r| == 8
  {
    var lo := 6 * k;
    var hi := if lo + 6 <= VinLength then lo + 6 else VinLength;
    [VinTag, k as byte]
      + seq(hi - lo, j requires 0 <= j < hi - lo => CharByte(vin[lo + j]))
      + seq(6 - (hi - lo), _ => VinPad)
  }

  /** The three frames that carry a 17-character VIN. */
  function VinFrames(vin: seq<char>): (r: seq<seq<byte>>)
    requires |vin| == VinLength
    ensures |r| == 3 && forall k :: 0 <= k < 3 ==> |r[k]| == 8
  {
    [VinChunk(vin, 0), VinChunk(vin, 1), VinChunk(vin, 2)]
  }

  /** Byte `j` of VIN frame `k`, position by position: tag, index, the VIN
      character `6k + j - 2` while there is one, and the pad after it. */
  function VinByteAt(vin: seq<char>, k: nat, j: nat): byte
    requires |vin| == VinLength && k < 3 && j < 8
  {
    if j == 0 then VinTag
    else if j == 1 then k as byte
    else if 6 * k + j - 2 < VinLength then CharByte(vin[6 * k + j - 2])
    else VinPad
  }

  lemma VinFrameAt(vin: seq<char>, k: nat, j: nat)
    requires |vin| == VinLength && k < 3 && j < 8
    ensures VinFrames(vin)[k][j] == VinByteAt(vin, k, j)
  {
    var frame := VinChunk(vin, k);
    assert VinFrames(vin)[k] == frame;
    var lo := 6 * k;
    var hi := if lo + 6 <= VinLength then lo + 6 else VinLength;
    var chars := seq(hi - lo, i requires 0 <= i < hi - lo => CharByte(vin[lo + i]));
    var pad := seq(6 - (hi - lo), _ => VinPad);
    assert frame == [VinTag, k as byte] + chars + pad;
    if 2 <= j < 2 + (hi - lo) {
      assert frame[j] == chars[j - 2];
    } else if 2 + (hi - lo) <= j {
      assert frame[j] == pad[j - 2 - (hi - lo)];
    }
  }

  /** The pad byte appears at exactly one position, the last byte of the
      third frame; every other data byte carries a VIN character. */
  lemma VinPadOnlyAtEnd(vin: seq<char>, k: nat, j: nat)
    requires |vin| == VinLength && k < 3 && 2 <= j < 8
    ensures !(k == 2 && j == 7) ==>
      6 * k + j - 2 < VinLength && VinFrames(vin)[k][j] == CharByte(vin[6 * k + j - 2])
    ensures VinFrames(vin)[2][7] == VinPad
  {
    VinFrameAt(vin, k, j);
    VinFrameAt(vin, 2, 7);
  }

  /** What a receiver reassembles from the three VIN frames: data bytes 2..7
      of each frame in order, cut at 17 characters. */
  function VinOfFrames(frames: seq<seq<byte>>): (vin: seq<char>)
    requires |frames| == 3 && forall k :: 0 <= k < 3 ==> |frames[k]| == 8
    ensures |vin| == VinLength
  {
    seq(VinLength, i requires 0 <= i < VinLength => ByteChar(frames[i / 6][i % 6 + 2]))
  }

  /** Packing loses nothing: a VIN whose characters fit in a byte is read back
      unchanged from its frames. */
  lemma VinRoundTrip(vin: seq<char>)
    requires |vin| == VinLength
    requires forall i :: 0 <= i < |vin| ==> vin[i] as int < 0x100
    ensures VinOfFrames(VinFrames(vin)) == vin
  {
    var back := VinOfFrames(VinFrames(vin));
    forall i | 0 <= i < VinLength
      ensures back[i] == vin[i]
    {
      VinFrameAt(vin, i / 6, i % 6 + 2);
    }
  }

  // ---------------------------------------------------------------- RPM, speed

  /** Frame 0x204: `rpm / 2` (truncated) as a big-endian 16-bit field in bytes 3 and 4
      of the template 00 00 00 09 C4 00 00 00; both template bytes are always overwritten. */
  function RpmPayload(rpm: int): (r: seq<byte>)
    ensures |r| == 8
    ensures r[3] as int * 0x100 + r[4] as int == TruncDiv(rpm, 2) % 0x1_0000
    ensures r[..3] == [0, 0, 0] && r[5..] == [0, 0, 0]
  {
    var rpmHex := TruncDiv(rpm, 2);
    BigEndian16(rpmHex);
    [0x00, 0x00, 0x00, High8(rpmHex), Low8(rpmHex), 0x00, 0x00, 0x00]
  }

  /** Frame 0x202: `speed * 159` as a big-endian 16-bit field in bytes 6 and 7
      after the fixed bytes 00 00 00 00 60 00. */
  function SpeedPayload(speed: int): (r: seq<byte>)
    ensures |r| == 8
    ensures r[6] as int * 0x100 + r[7] as int == (speed * 159) % 0x1_0000
    ensures r[..6] == [0x00, 0x00, 0x00, 0x00, 0x60, 0x00]
  {
    var speedHex := speed * 159;
    BigEndian16(speedHex);
    [0x00, 0x00, 0x00, 0x00, 0x60, 0x00, High8(speedHex), Low8(speedHex)]
  }

  lemma RpmExample()
    ensures RpmPayload(6000) == [0x00, 0x00, 0x00, 0x0B, 0xB8, 0x00, 0x00, 0x00]
  {
  }

  lemma SpeedExample()
    ensures SpeedPayload(60) == [0x00, 0x00, 0x00, 0x00, 0x60, 0x00, 0x25, 0x44]
  {
  }

  // ---------------------------------------------------------------- temperature

  /** The temperature byte stored by `TEMP`: `(F - 32) * 5 / 9 + 60` in C++
      `int` arithmetic, narrowed to `unsigned char`. */
  function TempByte(fahrenheit: int): byte
  {
    Low8(TruncDiv((fahrenheit - 32) * 5, 9) + 60)
  }

  /** Within -77..384 F the byte does not wrap, and byte - 60 is the Celsius
      reading rounded toward zero. */
  lemma TempByteMeaning(fahrenheit: int)
    requires -77 <= fahrenheit <= 384
    ensures var c := TempByte(fahrenheit) as int - 60;
      (fahrenheit >= 32 ==> 9 * c <= (fahrenheit - 32) * 5 < 9 * c + 9) &&
      (fahrenheit < 32 ==> 9 * c - 9 < (fahrenheit - 32) * 5 <= 9 * c)
  {
    var q := TruncDiv((fahrenheit - 32) * 5, 9);
    assert -60 <= q <= 195;
    assert TempByte(fahrenheit) as int == q + 60;
  }

  lemma TempExample()
    ensures TempByte(212) == 160
  {
  }

  // ---------------------------------------------------------------- tires

  /** Frame 0x3B5: tire `i`'s kPa figure, narrowed to a byte, at byte `2i + 1`;
      the even bytes stay zero. */
  function TirePayload(kpa: seq<int>): (r: seq<byte>)
    requires |kpa| == 4
    ensures |r| == 8
    ensures forall i :: 0 <= i < 4 ==> r[2 * i] == 0 && r[2 * i + 1] == Low8(kpa[i])
  {
    seq(8, j requires 0 <= j < 8 => if j % 2 == 1 then Low8(kpa[j / 2]) else 0)
  }

  // ---------------------------------------------------------------- blinkers

  function BitOr(a: byte, b: byte): byte
  {
    ((a as bv8) | (b as bv8)) as byte
  }

  /** Frames 0x3B3 and 0x3B2: the template with the right-blinker bit 0x08 set
      in byte 4 and the left-blinker bit 0x40 in byte 6, each only while the
      blink phase is on. */
  function BlinkerPayload(phase: bool, left: bool, right: bool): (r: seq<byte>)
    ensures |r| == 8
    ensures r[4] == if phase && right then 0x18 else 0x10
    ensures r[6] == if phase && left then 0x40 else 0x00
    ensures forall j :: 0 <= j < 8 && j != 4 && j != 6 ==> r[j] == BlinkerTemplate[j]
  {
    var b4 := if phase && right then BitOr(0x10, RightBlinkerBit) else 0x10;
    var b6 := if phase && left then BitOr(0x00, LeftBlinkerBit) else 0x00;
    BlinkerTemplate[4 := b4][6 := b6]
  }

  /** With both blinkers on, the two bits are set and cleared together: the
      left and right lamps flash in lockstep. */
  lemma BlinkersInLockstep(phase: bool)
    ensures var p := BlinkerPayload(phase, true, true);
      (p[4] == 0x18) == (p[6] == 0x40) == phase
  {
  }

  // ---------------------------------------------------------------- buttons

  /** The byte-0 / byte-1 code of each steering-wheel button of frame 0x81. */
  function ButtonCode(command: string): Option<(byte, byte)>
  {
    if command == "UP" then Some((0x08, 0x00))
    else if command == "DOWN" then Some((0x01, 0x00))
    else if command == "LEFT" then Some((0x02, 0x00))
    else if command == "RIGHT" then Some((0x04, 0x00))
    else if command == "OK" then Some((0x10, 0x00))
    else if command == "SETTINGS" then Some((0x46, 0x01))
    else None
  }

  /** Exactly the six button names have a code, and every button but
      SETTINGS leaves byte 1 clear. */
  lemma ButtonCodeDomain(command: string)
    ensures ButtonCode(command).Some? <==> command in {"UP", "DOWN", "LEFT", "RIGHT", "OK", "SETTINGS"}
    ensures ButtonCode(command).Some? && command != "SETTINGS" ==> ButtonCode(command).value.1 == 0x00
  {
  }

  /** No two buttons share a code. */
  lemma ButtonCodesDistinct(a: string, b: string)
    requires ButtonCode(a).Some? && ButtonCode(b).Some? && a != b
    ensures ButtonCode(a).value != ButtonCode(b).value
  {
  }
}
