/**
  Register codec of the MCP4728 quad 12-bit DAC driver.

  Pure functions between a channel's state (12-bit raw value, vref bit,
  gain bit) and the byte layouts the device speaks: the 24-byte status
  block it returns on a read, and the single-write, multi-EEPROM, sync and
  general-call command buffers the driver writes. The bit operations are
  Python's, from module Bits.
*/
module Codec {
  import opened Bits

  datatype Option<T> = None | Some(value: T)

  /** A flag the driver keeps as 0 or 1 (a Python bool after decoding, an int after a setter). */
  type Bit = b: int | 0 <= b <= 1

  /** Channels A, B, C, D carry the indices 0, 1, 2, 3. */
  type ChannelIndex = i: int | 0 <= i < 4

  /** Largest 12-bit raw value, 2**12 - 1. */
  const MaxRaw: int := 0xFFF
  /** Largest 16-bit scaled value, 2**16 - 1. */
  const MaxScaled: int := 0xFFFF

  /** The address the driver binds when the caller names none. */
  const DefaultAddress: int := 0x60

  const ChAMultiEeprom: Byte := 0x50
  const GeneralCallAddress: Byte := 0x00
  const GeneralCallReset: Byte := 0x06
  const GeneralCallWakeup: Byte := 0x09
  const GeneralCallSoftwareUpdate: Byte := 0x08

  /** Command byte of a write to one channel: 0 1 0 0 0 DAC1 DAC0 UDAC. */
  const WriteCommandBase: Byte := 0x40
  /** Prefix of the "write vref bits" command, 1 0 0 X VA VB VC VD. */
  const SyncVrefBase: Byte := 0x80
  /** Prefix of the "write gain bits" command, 1 1 0 X GA GB GC GD. */
  const SyncGainBase: Byte := 0xC0

  // ---------------------------------------------------------------------
  // Vref options

  /** The two reference sources, with their integer codes VDD = 0 and INTERNAL = 1. */
  datatype Vref = VDD | Internal {
    function Code(): Bit {
      match this
      case VDD => 0
      case Internal => 1
    }
  }

  /** Looks an integer up among the codes of the `Vref` options. */
  function VrefFromCode(value: int): (r: Option<Vref>)
    ensures r.Some? ==> r.value.Code() == value
    ensures r.None? ==> forall v: Vref :: v.Code() != value
  {
    if value == VDD.Code() then Some(VDD)
    else if value == Internal.Code() then Some(Internal)
    else None
  }

  /** A value is a valid vref exactly when it is the code of some `Vref` option. */
  predicate IsValidVref(value: int) {
    VrefFromCode(value).Some?
  }

  lemma IsValidVrefIffBit(value: int)
    ensures IsValidVref(value) <==> value == 0 || value == 1
    ensures IsValidVref(value) <==> exists v: Vref :: v.Code() == value
  {
    if value == 0 {
      assert VDD.Code() == value;
    } else if value == 1 {
      assert Internal.Code() == value;
    }
  }

  // ---------------------------------------------------------------------
  // Bit layout of the high byte: vref (7), power-down (6, 5), gain (4), value bits 11..8 (3..0)

  /** The high byte with value nibble `nibble`, vref `v` and gain `g` and clear power-down bits. */
  lemma FlagByte(nibble: nat, v: Bit, g: Bit)
    requires nibble < 16
    ensures var x := nibble + 128 * v + 16 * g;
            BitAt(x, 7) == v && BitAt(x, 6) == 0 && BitAt(x, 5) == 0 && BitAt(x, 4) == g && x % 16 == nibble
  {
    var x := nibble + 128 * v + 16 * g;
    assert BitAt(x, 7) == v by {
      ShiftRightIsDiv(x, 7);
      DivUnique(x, 128, v, nibble + 16 * g);
      DivUnique(v, 2, 0, v);
    }
    assert BitAt(x, 6) == 0 by {
      ShiftRightIsDiv(x, 6);
      DivUnique(x, 64, 2 * v, nibble + 16 * g);
      DivUnique(2 * v, 2, v, 0);
    }
    assert BitAt(x, 5) == 0 by {
      ShiftRightIsDiv(x, 5);
      DivUnique(x, 32, 4 * v, nibble + 16 * g);
      DivUnique(4 * v, 2, 2 * v, 0);
    }
    assert BitAt(x, 4) == g by {
      ShiftRightIsDiv(x, 4);
      DivUnique(x, 16, 8 * v + g, nibble);
      DivUnique(8 * v + g, 2, 4 * v, g);
    }
    DivUnique(x, 16, 8 * v + g, nibble);
  }

  /** A byte is the sum of its four flag bits and its low nibble. */
  lemma ByteFromFields(x: Byte)
    ensures x == 128 * BitAt(x, 7) + 64 * BitAt(x, 6) + 32 * BitAt(x, 5) + 16 * BitAt(x, 4) + x % 16
  {
    var q4, q5, q6, q7 := ShiftRight(x, 4), ShiftRight(x, 5), ShiftRight(x, 6), ShiftRight(x, 7);
    assert x == 16 * q4 + x % 16 by {
      ShiftRightIsDiv(x, 4);
    }
    assert q4 == 2 * q5 + BitAt(x, 4) by {
      ShiftRightLast(x, 4);
    }
    assert q5 == 2 * q6 + BitAt(x, 5) by {
      ShiftRightLast(x, 5);
    }
    assert q6 == 2 * q7 + BitAt(x, 6) by {
      ShiftRightLast(x, 6);
    }
    assert q7 == BitAt(x, 7) by {
      assert q7 <= 1;
    }
  }

  // ---------------------------------------------------------------------
  // Decoding the status block

  /** One channel's output register as the decode loop yields it: (value, vref, gain, power_state). */
  datatype Registers = Registers(value: int, vref: Bit, gain: Bit, powerState: int)

  /** Splits the flags out of the high byte of a channel's output register. */
  function GetFlags(high: Byte): (r: (Bit, Bit, int))
    ensures r.0 == BitAt(high, 7) && r.1 == BitAt(high, 4)
    ensures r.2 == 2 * BitAt(high, 6) + BitAt(high, 5)
    ensures 0 <= r.2 <= 3
  {
    BitTest(high, 7);
    BitTest(high, 4);
    TwoBitField(high, 5);
    var vref := if BitAnd(high, ShiftLeft(1, 7)) > 0 then 1 else 0;
    var gain := if BitAnd(high, ShiftLeft(1, 4)) > 0 then 1 else 0;
    var powerState := ShiftRight(BitAnd(high, ShiftLeft(3, 5)), 5);
    (vref, gain, powerState)
  }

  /** Concatenation of a sequence of sequences. */
  function Flatten<T>(parts: seq<seq<T>>): seq<T> {
    if |parts| == 0 then [] else parts[0] + Flatten(parts[1..])
  }

  function Min(a: int, b: int): int {
    if a <= b then a else b
  }

  /**
    Divides `s` into consecutive pieces of `size` elements; the last piece
    is shorter when `size` does not divide `|s|`, as a Python slice past
    the end is.
  */
  function Chunk<T>(s: seq<T>, size: nat): (r: seq<seq<T>>)
    requires size > 0
    ensures Flatten(r) == s
    ensures forall k :: 0 <= k < |r| ==> 0 < |r[k]| <= size
    ensures forall k :: 0 <= k < |r| - 1 ==> |r[k]| == size
    decreases |s|
  {
    if |s| == 0 then []
    else
      var piece := s[..Min(size, |s|)];
      var rest := Chunk(s[Min(size, |s|)..], size);
      assert Flatten([piece] + rest) == piece + Flatten(rest) by {
        assert ([piece] + rest)[1..] == rest;
      }
      [piece] + rest
  }

  /** The `k`-th of `count` aligned slices of width `size` lies inside a sequence of `count * size` elements. */
  lemma {:induction false} AlignedSliceInBounds(k: nat, count: nat, size: nat)
    requires k < count
    ensures 0 <= k * size && k * size + size <= count * size
    decreases count
  {
    if k + 1 < count {
      AlignedSliceInBounds(k, count - 1, size);
      assert count * size == (count - 1) * size + size;
    }
  }

  /** The aligned slice `k` of `s` is the aligned slice `k - 1` of `s` without its first `size` elements. */
  lemma AlignedSliceOfRest<T>(s: seq<T>, size: nat, count: nat, k: nat)
    requires 0 < k < count && |s| == count * size
    ensures size <= |s| && 0 <= k * size && k * size + size <= |s|
    ensures s[k * size .. k * size + size] == s[size..][(k - 1) * size .. (k - 1) * size + size]
  {
    AlignedSliceInBounds(k, count, size);
    AlignedSliceInBounds(0, count, size);
    var j := (k - 1) * size;
    assert j + size == k * size;
  }

  /** When `|s|` is `count` times `size`, the pieces are exactly the `count` aligned slices. */
  lemma {:induction false} ChunkOfMultiple<T>(s: seq<T>, size: nat, count: nat)
    requires size > 0 && |s| == count * size
    ensures |Chunk(s, size)| == count
    ensures forall k :: 0 <= k < count ==>
              0 <= k * size && k * size + size <= |s| && Chunk(s, size)[k] == s[k * size .. k * size + size]
  {
    if count == 0 {
      assert s == [];
    } else {
      AlignedSliceInBounds(0, count, size);
      var rest := s[size..];
      assert |rest| == (count - 1) * size;
      ChunkOfMultiple(rest, size, count - 1);
      var r := Chunk(s, size);
      assert r == [s[..size]] + Chunk(rest, size);
      forall k | 0 <= k < count
        ensures 0 <= k * size && k * size + size <= |s| && r[k] == s[k * size .. k * size + size]
      {
        AlignedSliceInBounds(k, count, size);
        if k > 0 {
          AlignedSliceOfRest(s, size, count, k);
        }
      }
    }
  }

  /** The 12-bit value is the high byte's low nibble above the low byte. */
  lemma RegisterValue(high: nat, low: nat)
    requires low < 256
    ensures BitOr(ShiftLeft(BitAnd(high, 15), 8), low) == 256 * (high % 16) + low
  {
    assert Pow2(8) == 256;
    MaskFifteen(high);
    ShiftLeftIsMul(high % 16, 8);
    OrBelowShifted(high % 16, low, 8);
  }

  /** Decodes one 6-byte group [header, high, low, eeprom x 3]: only `high` and `low` are read. */
  function DecodeGroup(group: seq<Byte>): (r: Registers)
    requires |group| == 6
    ensures 0 <= r.value <= MaxRaw
    ensures r.value == 256 * (group[1] as int % 16) + group[2] as int
    ensures r.vref == BitAt(group[1], 7) && r.gain == BitAt(group[1], 4)
    ensures r.powerState == 2 * BitAt(group[1], 6) + BitAt(group[1], 5)
  {
    var high, low := group[1], group[2];
    var value := BitOr(ShiftLeft(BitAnd(high, 15), 8), low);
    RegisterValue(high, low);
    var flags := GetFlags(high);
    Registers(value, flags.0, flags.1, flags.2)
  }

  /** The status block splits into four 6-byte groups, one per channel. */
  lemma StatusBlockGroups(block: seq<Byte>)
    requires |block| == 24
    ensures |Chunk(block, 6)| == 4
    ensures forall k :: 0 <= k < 4 ==> Chunk(block, 6)[k] == block[6 * k .. 6 * k + 6]
  {
    ChunkOfMultiple(block, 6, 4);
    forall k | 0 <= k < 4
      ensures Chunk(block, 6)[k] == block[6 * k .. 6 * k + 6]
    {
      assert k * 6 == 6 * k;
    }
  }

  /** The group [0x80, 0x01, 0x00, ...] decodes to raw value 256 with vref and gain 0. */
  lemma DecodeGroupExample()
    ensures DecodeGroup([0x80, 0x01, 0x00, 0x00, 0x00, 0x00]) == Registers(256, 0, 0, 0)
  {
    ShiftRightOfSmall(1, 7);
    ShiftRightOfSmall(1, 6);
    ShiftRightOfSmall(1, 5);
    ShiftRightOfSmall(1, 4);
  }

  /** Decodes the 24-byte status block into the four channels' registers, A to D. */
  function ReadRegisters(block: seq<Byte>): (r: seq<Registers>)
    requires |block| == 24
    ensures |r| == 4
    ensures forall k :: 0 <= k < 4 ==> r[k] == DecodeGroup(block[6 * k .. 6 * k + 6])
  {
    var groups := Chunk(block, 6);
    StatusBlockGroups(block);
    seq(4, k requires 0 <= k < 4 => DecodeGroup(groups[k]))
  }

  /** The header byte and the three EEPROM bytes of every group have no effect on the decoded registers. */
  lemma ReadRegistersIgnoresHeaderAndEeprom(block: seq<Byte>, other: seq<Byte>)
    requires |block| == 24 && |other| == 24
    requires forall k :: 0 <= k < 4 ==> block[6 * k + 1] == other[6 * k + 1] && block[6 * k + 2] == other[6 * k + 2]
    ensures ReadRegisters(block) == ReadRegisters(other)
  {
    forall k | 0 <= k < 4
      ensures ReadRegisters(block)[k] == ReadRegisters(other)[k]
    {
      var g, h := block[6 * k .. 6 * k + 6], other[6 * k .. 6 * k + 6];
      assert g[1] == h[1] && g[2] == h[2];
    }
  }

  // ---------------------------------------------------------------------
  // Encoding a channel

  /** The state a channel object keeps: raw value, vref bit, gain bit and its fixed index. */
  datatype Channel = Channel(rawValue: int, vref: Bit, gain: Bit, index: ChannelIndex)

  /** The raw value is a 12-bit quantity. */
  predicate ValidChannel(c: Channel) {
    0 <= c.rawValue <= MaxRaw
  }

  /** ORing vref into bit 7 and gain into bit 4 above a value nibble adds them. */
  lemma HighByteValue(nibble: nat, v: Bit, g: Bit)
    requires nibble < 16
    ensures BitOr(BitOr(nibble, ShiftLeft(v, 7)), ShiftLeft(g, 4)) == nibble + 128 * v + 16 * g
  {
    var withVref := BitOr(nibble, ShiftLeft(v, 7));
    assert ShiftLeft(v, 7) == 128 * v by {
      ShiftLeftIsMul(v, 7);
    }
    assert ShiftLeft(g, 4) == 16 * g by {
      ShiftLeftIsMul(g, 4);
    }
    assert withVref == nibble + 128 * v by {
      FlagByte(nibble, 0, 0);
      SetClearBit(nibble, v, 7);
    }
    assert BitOr(withVref, ShiftLeft(g, 4)) == withVref + 16 * g by {
      FlagByte(nibble, v, 0);
      SetClearBit(withVref, g, 4);
    }
  }

  /**
    Packs a channel into two bytes: the raw value as a big-endian 16-bit
    word, with vref ORed into bit 7 and gain into bit 4 of the first byte.
  */
  function EncodeChannel(c: Channel): (r: seq<Byte>)
    requires ValidChannel(c)
    ensures |r| == 2
    ensures 256 * (r[0] as int % 16) + r[1] as int == c.rawValue
    ensures BitAt(r[0], 7) == c.vref && BitAt(r[0], 4) == c.gain
    ensures BitAt(r[0], 6) == 0 && BitAt(r[0], 5) == 0
  {
    var packed := [c.rawValue / 256, c.rawValue % 256];
    var high := BitOr(BitOr(packed[0], ShiftLeft(c.vref, 7)), ShiftLeft(c.gain, 4));
    HighByteValue(packed[0], c.vref, c.gain);
    FlagByte(packed[0], c.vref, c.gain);
    [high, packed[1]]
  }

  /** Decoding an encoded channel gives back its raw value, vref and gain, with power state 0. */
  lemma DecodeEncodeRoundTrip(c: Channel, header: Byte, eeprom: seq<Byte>)
    requires ValidChannel(c) && |eeprom| == 3
    ensures DecodeGroup([header] + EncodeChannel(c) + eeprom) == Registers(c.rawValue, c.vref, c.gain, 0)
  {
    var e := EncodeChannel(c);
    var g := [header] + e + eeprom;
    assert g[1] == e[0] && g[2] == e[1];
  }

  /** The two encoded bytes, written out: the flags and the top nibble, then the low eight bits. */
  lemma EncodeChannelBytes(c: Channel)
    requires ValidChannel(c)
    ensures EncodeChannel(c) == [128 * c.vref + 16 * c.gain + c.rawValue / 256, c.rawValue % 256]
  {
    var e := EncodeChannel(c);
    ByteFromFields(e[0]);
    DivUnique(c.rawValue, 256, e[0] % 16, e[1]);
  }

  /**
    Re-encoding the fields read from a high and a low byte reproduces both
    bytes, except that the power-down bits 6 and 5 come back cleared.
  */
  lemma EncodeReadFields(high: Byte, low: Byte, index: ChannelIndex)
    ensures EncodeChannel(Channel(256 * (high as int % 16) + low as int, BitAt(high, 7), BitAt(high, 4), index))
              == [high - 64 * BitAt(high, 6) - 32 * BitAt(high, 5), low]
  {
    var c := Channel(256 * (high as int % 16) + low as int, BitAt(high, 7), BitAt(high, 4), index);
    EncodeChannelBytes(c);
    DivUnique(c.rawValue, 256, high % 16, low);
    ByteFromFields(high);
  }

  /** Re-encoding a decoded group reproduces its high and low bytes, with the power-down bits cleared. */
  lemma EncodeDecodeRoundTrip(group: seq<Byte>, index: ChannelIndex)
    requires |group| == 6
    ensures var d := DecodeGroup(group);
            EncodeChannel(Channel(d.value, d.vref, d.gain, index))
              == [group[1] - 64 * BitAt(group[1], 6) - 32 * BitAt(group[1], 5), group[2]]
  {
    EncodeReadFields(group[1], group[2], index);
  }

  // ---------------------------------------------------------------------
  // Command buffers

  /** The 3-byte buffer that writes one channel's value and flags to its DAC input register. */
  function SingleWriteCommand(c: Channel): (r: seq<Byte>)
    requires ValidChannel(c)
    ensures |r| == 3 && r[1..] == EncodeChannel(c)
    ensures r[0] == 0x40 + 2 * c.index
    ensures r[0] == 0x40 || r[0] == 0x42 || r[0] == 0x44 || r[0] == 0x46
    ensures BitAt(r[0], 0) == 0
    ensures 2 * BitAt(r[0], 2) + BitAt(r[0], 1) == c.index
  {
    var command := BitOr(WriteCommandBase, ShiftLeft(c.index, 1));
    assert command == 0x40 + 2 * c.index by {
      ShiftLeftIsMul(c.index, 1);
      assert BitAnd(WriteCommandBase, ShiftLeft(c.index, 1)) == 0 by {
        BitAndShiftedMask(WriteCommandBase, c.index, 1);
        ShiftOfZero(1);
      }
      BitOrDisjoint(WriteCommandBase, ShiftLeft(c.index, 1));
    }
    assert BitAt(command, 0) == 0 && 2 * BitAt(command, 2) + BitAt(command, 1) == c.index by {
      NibbleBits(4, 0, c.index / 2, c.index % 2, 0);
    }
    [command] + EncodeChannel(c)
  }

  /** The raw bytes of all four channels, A to D, two bytes each. */
  function ChannelBytes(channels: seq<Channel>): (r: seq<Byte>)
    requires |channels| == 4 && forall k :: 0 <= k < 4 ==> ValidChannel(channels[k])
    ensures |r| == 8
    ensures forall k :: 0 <= k < 4 ==> r[2 * k .. 2 * k + 2] == EncodeChannel(channels[k])
  {
    var a, b := EncodeChannel(channels[0]), EncodeChannel(channels[1]);
    var c, d := EncodeChannel(channels[2]), EncodeChannel(channels[3]);
    var r := a + b + c + d;
    assert r[0..2] == a && r[2..4] == b && r[4..6] == c && r[6..8] == d;
    r
  }

  /** The low nibble of `16 * m + 8 * a + 4 * b + 2 * c + d` holds the bits a, b, c, d. */
  lemma NibbleBits(m: nat, a: Bit, b: Bit, c: Bit, d: Bit)
    ensures var x := 16 * m + 8 * a + 4 * b + 2 * c + d;
            BitAt(x, 3) == a && BitAt(x, 2) == b && BitAt(x, 1) == c && BitAt(x, 0) == d
  {
    var x := 16 * m + 8 * a + 4 * b + 2 * c + d;
    assert BitAt(x, 3) == a by {
      ShiftRightIsDiv(x, 3);
      DivUnique(x, 8, 2 * m + a, 4 * b + 2 * c + d);
      DivUnique(2 * m + a, 2, m, a);
    }
    assert BitAt(x, 2) == b by {
      ShiftRightIsDiv(x, 2);
      DivUnique(x, 4, 4 * m + 2 * a + b, 2 * c + d);
      DivUnique(4 * m + 2 * a + b, 2, 2 * m + a, b);
    }
    assert BitAt(x, 1) == c by {
      ShiftRightIsDiv(x, 1);
      DivUnique(x, 2, 8 * m + 4 * a + 2 * b + c, d);
      DivUnique(8 * m + 4 * a + 2 * b + c, 2, 4 * m + 2 * a + b, c);
    }
    assert BitAt(x, 0) == d by {
      DivUnique(x, 2, 8 * m + 4 * a + 2 * b + c, d);
    }
  }

  /** ORing four flags, A to D, into bits 3, 2, 1, 0 below `m << 4` appends them to `m`. */
  lemma OrFourFlags(m: nat, a: Bit, b: Bit, c: Bit, d: Bit)
    ensures BitOr(BitOr(BitOr(BitOr(ShiftLeft(m, 4), ShiftLeft(a, 3)), ShiftLeft(b, 2)), ShiftLeft(c, 1)), d)
              == 16 * m + 8 * a + 4 * b + 2 * c + d
  {
    var x1 := BitOr(ShiftLeft(m, 4), ShiftLeft(a, 3));
    assert x1 == ShiftLeft(2 * m + a, 3) by {
      OrFlagBelow(m, a, 3);
    }
    var x2 := BitOr(x1, ShiftLeft(b, 2));
    assert x2 == ShiftLeft(4 * m + 2 * a + b, 2) by {
      OrFlagBelow(2 * m + a, b, 2);
    }
    var q := 8 * m + 4 * a + 2 * b + c;
    var x3 := BitOr(x2, ShiftLeft(c, 1));
    assert x3 == 2 * q by {
      OrFlagBelow(4 * m + 2 * a + b, c, 1);
      assert ShiftLeft(q, 1) == 2 * ShiftLeft(q, 0);
    }
    assert BitOr(x3, d) == 2 * q + d by {
      OrFlagBelow(q, d, 0);
      assert ShiftLeft(d, 0) == d && ShiftLeft(2 * q + d, 0) == 2 * q + d;
    }
  }

  /** ORs four flag bits, A to D, into bits 3, 2, 1, 0 of a command prefix whose low nibble is clear. */
  function PackFlags(base: Byte, a: Bit, b: Bit, c: Bit, d: Bit): (r: Byte)
    requires base % 16 == 0
    ensures r == base + 8 * a + 4 * b + 2 * c + d
    ensures BitAt(r, 3) == a && BitAt(r, 2) == b && BitAt(r, 1) == c && BitAt(r, 0) == d
  {
    var m := base / 16;
    assert base == 16 * m && m <= 15;
    var r := BitOr(BitOr(BitOr(BitOr(base, ShiftLeft(a, 3)), ShiftLeft(b, 2)), ShiftLeft(c, 1)), d);
    assert r == 16 * m + 8 * a + 4 * b + 2 * c + d by {
      assert base == ShiftLeft(m, 4) by {
        ShiftLeftIsMul(m, 4);
      }
      OrFourFlags(m, a, b, c, d);
    }
    NibbleBits(m, a, b, c, d);
    r
  }

  /** The one-byte "write vref bits" command carrying every channel's cached vref. */
  function SyncVrefCommand(channels: seq<Channel>): (r: Byte)
    requires |channels| == 4
    ensures r == 0x80 + 8 * channels[0].vref + 4 * channels[1].vref + 2 * channels[2].vref + channels[3].vref
    ensures 0x80 <= r <= 0x8F
    ensures forall k :: 0 <= k < 4 ==> BitAt(r, 3 - k) == channels[k].vref
  {
    PackFlags(SyncVrefBase, channels[0].vref, channels[1].vref, channels[2].vref, channels[3].vref)
  }

  /** The one-byte "write gain bits" command carrying every channel's cached gain bit. */
  function SyncGainCommand(channels: seq<Channel>): (r: Byte)
    requires |channels| == 4
    ensures r == 0xC0 + 8 * channels[0].gain + 4 * channels[1].gain + 2 * channels[2].gain + channels[3].gain
    ensures 0xC0 <= r <= 0xCF
    ensures forall k :: 0 <= k < 4 ==> BitAt(r, 3 - k) == channels[k].gain
  {
    PackFlags(SyncGainBase, channels[0].gain, channels[1].gain, channels[2].gain, channels[3].gain)
  }

  /** The two-byte general-call buffer: the general-call address byte, then the command. */
  function GeneralCallCommand(command: Byte): (r: seq<Byte>)
    ensures |r| == 2 && r[0] == 0x00 && r[1] == command
  {
    [GeneralCallAddress, command]
  }
}
