/**
  Driver facade of the MCP4728: the four cached channel states, the
  validating channel setters and the device-wide commands. The I2C bus is
  an append-only log of the transactions the driver issues; the status
  block read at construction is a parameter.
*/
module Driver {
  import opened Bits
  import opened Codec

  /** One bus transaction: a write of bytes to an I2C address, or the wait after an EEPROM write. */
  datatype Event = Write(address: int, data: seq<Byte>) | Delay(millis: nat)

  /** The driver object: its I2C address and the cached state of channels A, B, C, D. */
  datatype Device = Device(address: int, channels: seq<Channel>)

  /** The driver together with everything it has written so far. */
  datatype State = State(device: Device, bus: seq<Event>)

  /** The `AttributeError` a setter raises, by the setter that raised it. */
  datatype Error = RawValueOutOfRange | ValueOutOfRange | GainNotOneOrTwo | NotAVref

  /** A setter's result: the state after the call, and the error it raised, if any. */
  datatype Outcome = Outcome(next: State, raised: Option<Error>)

  /** The EEPROM write time the driver waits out after a multi-EEPROM write. */
  const EepromWriteDelayMillis: nat := 15

  /** Four channels, each knowing its own index, each with a 12-bit raw value. */
  predicate Valid(d: Device) {
    && |d.channels| == 4
    && forall i :: 0 <= i < 4 ==> d.channels[i].index == i && ValidChannel(d.channels[i])
  }

  /** `after` differs from `before` at most in channel `i`. */
  predicate OthersUnchanged(before: Device, after: Device, i: ChannelIndex)
    requires |before.channels| == 4 && |after.channels| == 4
  {
    && after.address == before.address
    && forall j :: 0 <= j < 4 && j != i ==> after.channels[j] == before.channels[j]
  }

  /** `log` extends `prefix` by exactly `events`. */
  predicate Appended(prefix: seq<Event>, log: seq<Event>, events: seq<Event>) {
    |log| == |prefix| + |events| && log[..|prefix|] == prefix && log[|prefix|..] == events
  }

  // ---------------------------------------------------------------------
  // Construction

  /** The channel object built from one decoded group; the power state is not kept. */
  function ChannelFromRegisters(regs: Registers, index: ChannelIndex): Channel {
    Channel(regs.value, regs.vref, regs.gain, index)
  }

  /** Every channel of `d` caches what its group of the status block `block` decodes to. */
  predicate HoldsRegistersOf(d: Device, block: seq<Byte>)
    requires |block| == 24
  {
    && |d.channels| == 4
    && forall i :: 0 <= i < 4 ==> d.channels[i] == ChannelFromRegisters(DecodeGroup(block[6 * i .. 6 * i + 6]), i)
  }

  /** Builds the driver from the 24-byte status block read from the device at `address`. */
  function Construct(address: int, block: seq<Byte>): (d: Device)
    requires |block| == 24
    ensures Valid(d) && d.address == address
    ensures HoldsRegistersOf(d, block)
  {
    var regs := ReadRegisters(block);
    Device(address, [ChannelFromRegisters(regs[0], 0), ChannelFromRegisters(regs[1], 1),
                     ChannelFromRegisters(regs[2], 2), ChannelFromRegisters(regs[3], 3)])
  }

  /** The driver built without an explicit address binds the default address 0x60. */
  function ConstructDefault(block: seq<Byte>): (d: Device)
    requires |block| == 24
    ensures Valid(d) && d.address == 0x60
    ensures HoldsRegistersOf(d, block)
  {
    Construct(DefaultAddress, block)
  }

  /** A freshly built driver has written nothing. */
  function Initial(address: int, block: seq<Byte>): (s: State)
    requires |block| == 24
    ensures Valid(s.device) && s.device.address == address && s.bus == []
  {
    State(Construct(address, block), [])
  }

  // ---------------------------------------------------------------------
  // Device-wide commands

  /** Writes one channel's cached value and flags to its DAC input register. */
  function SetValue(s: State, i: ChannelIndex): (t: State)
    requires Valid(s.device)
    ensures t.device == s.device
    ensures Appended(s.bus, t.bus, [Write(s.device.address, [0x40 + 2 * i] + EncodeChannel(s.device.channels[i]))])
  {
    State(s.device, s.bus + [Write(s.device.address, SingleWriteCommand(s.device.channels[i]))])
  }

  /** Writes the multi-EEPROM command with `byteList` as payload, then waits out the EEPROM write. */
  function WriteMultiEeprom(s: State, byteList: seq<Byte>): (t: State)
    ensures t.device == s.device
    ensures Appended(s.bus, t.bus, [Write(s.device.address, [0x50] + byteList), Delay(15)])
  {
    var buffer := [ChAMultiEeprom] + byteList;
    State(s.device, s.bus + [Write(s.device.address, buffer), Delay(EepromWriteDelayMillis)])
  }

  /** Saves every channel's value, vref and gain to the EEPROM as power-up defaults. */
  function SaveSettings(s: State): (t: State)
    requires Valid(s.device)
    ensures t.device == s.device
    ensures |t.bus| == |s.bus| + 2 && t.bus[..|s.bus|] == s.bus
    ensures t.bus[|s.bus|].Write? && t.bus[|s.bus|].address == s.device.address
    ensures var data := t.bus[|s.bus|].data;
            && |data| == 9 && data[0] == 0x50
            && forall k :: 0 <= k < 4 ==> data[1 + 2 * k .. 3 + 2 * k] == EncodeChannel(s.device.channels[k])
    ensures t.bus[|s.bus| + 1] == Delay(15)
  {
    var byteList := ChannelBytes(s.device.channels);
    var t := WriteMultiEeprom(s, byteList);
    var data := [ChAMultiEeprom] + byteList;
    assert t.bus[|s.bus|] == Write(s.device.address, data);
    assert forall k :: 0 <= k < 4 ==> data[1 + 2 * k .. 3 + 2 * k] == byteList[2 * k .. 2 * k + 2];
    t
  }

  /** Sends every channel's cached vref to the device in one byte. */
  function SyncVrefs(s: State): (t: State)
    requires Valid(s.device)
    ensures t.device == s.device
    ensures |t.bus| == |s.bus| + 1 && t.bus[..|s.bus|] == s.bus
    ensures t.bus[|s.bus|].Write? && t.bus[|s.bus|].address == s.device.address
    ensures var data := t.bus[|s.bus|].data;
            |data| == 1 && 0x80 <= data[0] <= 0x8F
            && forall k :: 0 <= k < 4 ==> BitAt(data[0], 3 - k) == s.device.channels[k].vref
  {
    State(s.device, s.bus + [Write(s.device.address, [SyncVrefCommand(s.device.channels)])])
  }

  /** Sends every channel's cached gain bit to the device in one byte. */
  function SyncGains(s: State): (t: State)
    requires Valid(s.device)
    ensures t.device == s.device
    ensures |t.bus| == |s.bus| + 1 && t.bus[..|s.bus|] == s.bus
    ensures t.bus[|s.bus|].Write? && t.bus[|s.bus|].address == s.device.address
    ensures var data := t.bus[|s.bus|].data;
            |data| == 1 && 0xC0 <= data[0] <= 0xCF
            && forall k :: 0 <= k < 4 ==> BitAt(data[0], 3 - k) == s.device.channels[k].gain
  {
    State(s.device, s.bus + [Write(s.device.address, [SyncGainCommand(s.device.channels)])])
  }

  /** Writes a general-call command; it goes through the device's own address like every other write. */
  function GeneralCall(s: State, command: Byte): (t: State)
    ensures t.device == s.device
    ensures Appended(s.bus, t.bus, [Write(s.device.address, [0x00, command])])
  {
    State(s.device, s.bus + [Write(s.device.address, GeneralCallCommand(command))])
  }

  /** Internal reset: the device reloads its registers from EEPROM. */
  function Reset(s: State): (t: State)
    ensures t.device == s.device
    ensures Appended(s.bus, t.bus, [Write(s.device.address, [0x00, 0x06])])
  {
    GeneralCall(s, GeneralCallReset)
  }

  /** Clears the power-down bits of every channel. */
  function Wakeup(s: State): (t: State)
    ensures t.device == s.device
    ensures Appended(s.bus, t.bus, [Write(s.device.address, [0x00, 0x09])])
  {
    GeneralCall(s, GeneralCallWakeup)
  }

  /** Updates all analog outputs at once. */
  function SoftUpdate(s: State): (t: State)
    ensures t.device == s.device
    ensures Appended(s.bus, t.bus, [Write(s.device.address, [0x00, 0x08])])
  {
    GeneralCall(s, GeneralCallSoftwareUpdate)
  }

  // ---------------------------------------------------------------------
  // Channel setters

  /** The `raw_value` setter: a 12-bit value, stored and then written to the channel. */
  function SetRawValue(s: State, i: ChannelIndex, value: int): (r: Outcome)
    requires Valid(s.device)
    ensures r.raised.Some? <==> value < 0 || value > MaxRaw
    ensures r.raised.Some? ==> r.raised.value == RawValueOutOfRange && r.next == s
    ensures r.raised.None? ==>
              && Valid(r.next.device)
              && OthersUnchanged(s.device, r.next.device, i)
              && r.next.device.channels[i] == s.device.channels[i].(rawValue := value)
              && Appended(s.bus, r.next.bus, [Write(s.device.address, SingleWriteCommand(r.next.device.channels[i]))])
  {
    if value < 0 || value > MaxRaw then
      Outcome(s, Some(RawValueOutOfRange))
    else
      var channel := s.device.channels[i].(rawValue := value);
      var device := s.device.(channels := s.device.channels[i := channel]);
      Outcome(SetValue(State(device, s.bus), i), None)
  }

  /** The 16-bit `value` setter: scales down to 12 bits by dropping the low four bits. */
  function SetScaledValue(s: State, i: ChannelIndex, value: int): (r: Outcome)
    requires Valid(s.device)
    ensures r.raised.Some? <==> value < 0 || value > MaxScaled
    ensures r.raised.Some? ==> r.raised.value == ValueOutOfRange && r.next == s
    ensures r.raised.None? ==> Valid(r.next.device)
    ensures r.raised.None? ==> var raw := r.next.device.channels[i].rawValue;
              && 16 * raw <= value < 16 * raw + 16
              && r == SetRawValue(s, i, raw)
  {
    if value < 0 || value > MaxScaled then
      Outcome(s, Some(ValueOutOfRange))
    else
      var raw := ShiftRight(value, 4);
      assert 16 * raw <= value < 16 * raw + 16 by {
        ShiftRightIsDiv(value, 4);
        assert Pow2(4) == 16;
      }
      SetRawValue(s, i, raw)
  }

  /** The `gain` setter: 1 or 2, stored as the bit `gain - 1`, then all four gain bits are synced. */
  function SetGain(s: State, i: ChannelIndex, value: int): (r: Outcome)
    requires Valid(s.device)
    ensures r.raised.Some? <==> value != 1 && value != 2
    ensures r.raised.Some? ==> r.raised.value == GainNotOneOrTwo && r.next == s
    ensures r.raised.None? ==>
              && Valid(r.next.device)
              && OthersUnchanged(s.device, r.next.device, i)
              && r.next.device.channels[i] == s.device.channels[i].(gain := value - 1)
              && Appended(s.bus, r.next.bus, [Write(s.device.address, [SyncGainCommand(r.next.device.channels)])])
  {
    if value != 1 && value != 2 then
      Outcome(s, Some(GainNotOneOrTwo))
    else
      var channel := s.device.channels[i].(gain := value - 1);
      var device := s.device.(channels := s.device.channels[i := channel]);
      Outcome(SyncGains(State(device, s.bus)), None)
  }

  /** The `vref` setter: a `Vref` code, stored and then all four vref bits are synced. */
  function SetVref(s: State, i: ChannelIndex, value: int): (r: Outcome)
    requires Valid(s.device)
    ensures r.raised.Some? <==> value != 0 && value != 1
    ensures r.raised.Some? ==> r.raised.value == NotAVref && r.next == s
    ensures r.raised.None? ==>
              && Valid(r.next.device)
              && OthersUnchanged(s.device, r.next.device, i)
              && r.next.device.channels[i] == s.device.channels[i].(vref := value)
              && Appended(s.bus, r.next.bus, [Write(s.device.address, [SyncVrefCommand(r.next.device.channels)])])
  {
    IsValidVrefIffBit(value);
    if !IsValidVref(value) then
      Outcome(s, Some(NotAVref))
    else
      var channel := s.device.channels[i].(vref := value);
      var device := s.device.(channels := s.device.channels[i := channel]);
      Outcome(SyncVrefs(State(device, s.bus)), None)
  }

  // ---------------------------------------------------------------------
  // Getters

  /** The `raw_value` getter. */
  function RawValue(d: Device, i: ChannelIndex): (r: int)
    requires Valid(d)
    ensures 0 <= r <= MaxRaw
    ensures var o := SetRawValue(State(d, []), i, r);
            o.raised.None? && o.next.device == d
  {
    d.channels[i].rawValue
  }

  /** The `vref` getter: the code of a `Vref`, which the setter accepts back without changing the cache. */
  function VrefCode(d: Device, i: ChannelIndex): (r: Bit)
    requires Valid(d)
    ensures IsValidVref(r)
    ensures var o := SetVref(State(d, []), i, r);
            o.raised.None? && o.next.device == d
  {
    IsValidVrefIffBit(d.channels[i].vref);
    d.channels[i].vref
  }

  /** The `gain` getter as written: it hands back the stored register bit. */
  function Gain(d: Device, i: ChannelIndex): (r: Bit)
    requires Valid(d)
    ensures r == 0 <==> d.channels[i].gain == 0
  {
    d.channels[i].gain
  }

  /** The `gain` getter as documented: the multiplier 1 or 2 that the stored bit encodes. */
  function GainSetting(d: Device, i: ChannelIndex): (r: int)
    requires Valid(d)
    ensures r == 1 || r == 2
    ensures r - 1 == d.channels[i].gain
  {
    d.channels[i].gain + 1
  }

  /** Reading back what a setter accepted gives the value written (the scaled value up to its low four bits). */
  lemma SetThenGet(s: State, i: ChannelIndex, value: int)
    requires Valid(s.device)
    ensures SetRawValue(s, i, value).raised.None? ==> RawValue(SetRawValue(s, i, value).next.device, i) == value
    ensures SetScaledValue(s, i, value).raised.None? ==>
              RawValue(SetScaledValue(s, i, value).next.device, i) == value / 16
    ensures SetVref(s, i, value).raised.None? ==> VrefCode(SetVref(s, i, value).next.device, i) == value
    ensures SetGain(s, i, value).raised.None? ==> GainSetting(SetGain(s, i, value).next.device, i) == value
  {
    var r := SetScaledValue(s, i, value);
    if r.raised.None? {
      var raw := RawValue(r.next.device, i);
      DivUnique(value, 16, raw, value - 16 * raw);
    }
  }

  /** The `gain` getter as written reports one less than the gain that was set. */
  lemma GainReadBackAsWritten(s: State, i: ChannelIndex, value: int)
    requires Valid(s.device)
    ensures SetGain(s, i, value).raised.None? ==> Gain(SetGain(s, i, value).next.device, i) == value - 1 != value
  {
  }

  /** Handing the reported gain straight back to the setter fails once the gain has been set to 1. */
  lemma GainRoundTripFails(s: State, i: ChannelIndex)
    requires Valid(s.device)
    ensures var t := SetGain(s, i, 1).next;
            SetGain(t, i, Gain(t.device, i)).raised == Some(GainNotOneOrTwo)
  {
  }

  /** Handing the reported gain straight back to the setter, while the stored gain bit is set, halves the gain. */
  lemma GainRoundTripHalvesDouble(s: State, i: ChannelIndex)
    requires Valid(s.device) && s.device.channels[i].gain == 1
    ensures var r := SetGain(s, i, Gain(s.device, i));
            && r.raised.None?
            && r.next.device.channels[i].gain == 0
            && GainSetting(r.next.device, i) == 1 != GainSetting(s.device, i)
  {
  }

  /** With the documented getter, the reported gain is accepted by the setter and changes nothing in the cache. */
  lemma GainSettingRoundTrip(s: State, i: ChannelIndex)
    requires Valid(s.device)
    ensures var r := SetGain(s, i, GainSetting(s.device, i));
            r.raised.None? && r.next.device == s.device
  {
    var r := SetGain(s, i, GainSetting(s.device, i));
    assert r.next.device.channels == s.device.channels;
  }

  // ---------------------------------------------------------------------
  // Sequences of calls

  /** A call a client can make on the driver. */
  datatype Call =
    | CallRawValue(channel: ChannelIndex, value: int)
    | CallValue(channel: ChannelIndex, value: int)
    | CallGain(channel: ChannelIndex, value: int)
    | CallVref(channel: ChannelIndex, value: int)
    | CallSaveSettings
    | CallSyncVrefs
    | CallSyncGains
    | CallReset
    | CallWakeup
    | CallSoftUpdate

  /**
    `after` is `before` with its bus log extended, at the same address, and
    every write added is addressed to the device.
  */
  predicate Extends(before: State, after: State) {
    && after.device.address == before.device.address
    && |before.bus| <= |after.bus|
    && after.bus[..|before.bus|] == before.bus
    && forall k :: |before.bus| <= k < |after.bus| && after.bus[k].Write? ==> after.bus[k].address == before.device.address
  }

  lemma ExtendsTransitive(a: State, b: State, c: State)
    requires Extends(a, b) && Extends(b, c)
    ensures Extends(a, c)
  {
    assert c.bus[..|a.bus|] == c.bus[..|b.bus|][..|a.bus|];
    forall k | |a.bus| <= k < |c.bus| && c.bus[k].Write?
      ensures c.bus[k].address == a.device.address
    {
      if k < |b.bus| {
        assert c.bus[k] == c.bus[..|b.bus|][k];
      }
    }
  }

  /** Performs one call. */
  function Apply(s: State, call: Call): (r: Outcome)
    requires Valid(s.device)
    ensures Valid(r.next.device) && Extends(s, r.next)
    ensures r.raised.Some? ==> r.next == s
    ensures r.raised.None? ==> |r.next.bus| > |s.bus|
  {
    match call
    case CallRawValue(i, value) => SetRawValue(s, i, value)
    case CallValue(i, value) => SetScaledValue(s, i, value)
    case CallGain(i, value) => SetGain(s, i, value)
    case CallVref(i, value) => SetVref(s, i, value)
    case CallSaveSettings => Outcome(SaveSettings(s), None)
    case CallSyncVrefs => Outcome(SyncVrefs(s), None)
    case CallSyncGains => Outcome(SyncGains(s), None)
    case CallReset => Outcome(Reset(s), None)
    case CallWakeup => Outcome(Wakeup(s), None)
    case CallSoftUpdate => Outcome(SoftUpdate(s), None)
  }

  /** Performs calls in order; the first error propagates and the remaining calls are not made. */
  function Run(s: State, calls: seq<Call>): (r: Outcome)
    requires Valid(s.device)
    ensures Valid(r.next.device) && Extends(s, r.next)
    ensures r.raised.None? ==> |r.next.bus| >= |s.bus| + |calls|
    decreases |calls|
  {
    if calls == [] then Outcome(s, None)
    else
      var first := Apply(s, calls[0]);
      if first.raised.Some? then first
      else
        var rest := Run(first.next, calls[1..]);
        ExtendsTransitive(s, first.next, rest.next);
        rest
  }

  /** Running two call sequences back to back is running their concatenation. */
  lemma {:induction false} RunAppend(s: State, a: seq<Call>, b: seq<Call>)
    requires Valid(s.device)
    ensures var o := Run(s, a);
            Run(s, a + b) == if o.raised.Some? then o else Run(o.next, b)
    decreases |a|
  {
    if a == [] {
      assert a + b == b;
    } else {
      assert (a + b)[0] == a[0] && (a + b)[1..] == a[1..] + b;
      var first := Apply(s, a[0]);
      if first.raised.None? {
        RunAppend(first.next, a[1..], b);
      }
    }
  }

  // ---------------------------------------------------------------------
  // Worked examples

  /** Saving raw values 100, 200, 300, 4095 with vref and gain 0 writes these nine bytes. */
  lemma SaveSettingsExample()
    ensures var d := Device(0x60, [Channel(100, 0, 0, 0), Channel(200, 0, 0, 1), Channel(300, 0, 0, 2), Channel(4095, 0, 0, 3)]);
            SaveSettings(State(d, [])).bus
              == [Write(0x60, [0x50, 0x00, 0x64, 0x00, 0xC8, 0x01, 0x2C, 0x0F, 0xFF]), Delay(15)]
  {
    var d := Device(0x60, [Channel(100, 0, 0, 0), Channel(200, 0, 0, 1), Channel(300, 0, 0, 2), Channel(4095, 0, 0, 3)]);
    var t := SaveSettings(State(d, []));
    EncodeChannelBytes(d.channels[0]);
    EncodeChannelBytes(d.channels[1]);
    EncodeChannelBytes(d.channels[2]);
    EncodeChannelBytes(d.channels[3]);
    var data := t.bus[0].data;
    assert data[1..3] == [0x00, 0x64] && data[3..5] == [0x00, 0xC8];
    assert data[5..7] == [0x01, 0x2C] && data[7..9] == [0x0F, 0xFF];
    assert data == [0x50, 0x00, 0x64, 0x00, 0xC8, 0x01, 0x2C, 0x0F, 0xFF];
  }

  /** Gains 1, 1, 2, 1 with channel B then set to 2 sync as the byte 0xC6. */
  lemma SetGainExample(address: int)
    ensures var d := Device(address, [Channel(0, 0, 0, 0), Channel(0, 0, 0, 1), Channel(0, 0, 1, 2), Channel(0, 0, 0, 3)]);
            SetGain(State(d, []), 1, 2).next.bus == [Write(address, [0xC6])]
  {
  }

  /**
    Saving a cache that holds the registers read at construction writes
    those registers back, with the power-down bits cleared.
  */
  lemma ConstructThenSave(s: State, block: seq<Byte>, k: ChannelIndex)
    requires |block| == 24 && Valid(s.device) && HoldsRegistersOf(s.device, block)
    ensures var t := SaveSettings(s);
            && t.bus[|s.bus|].Write? && t.bus[|s.bus|].address == s.device.address
            && t.bus[|s.bus|].data[1 + 2 * k .. 3 + 2 * k]
                 == [block[6 * k + 1] - 64 * BitAt(block[6 * k + 1], 6) - 32 * BitAt(block[6 * k + 1], 5), block[6 * k + 2]]
  {
    var group := block[6 * k .. 6 * k + 6];
    assert group[1] == block[6 * k + 1] && group[2] == block[6 * k + 2];
    var regs := DecodeGroup(group);
    var c := s.device.channels[k];
    assert c == Channel(regs.value, regs.vref, regs.gain, k);
    var saved := [group[1] - 64 * BitAt(group[1], 6) - 32 * BitAt(group[1], 5), group[2]];
    assert EncodeChannel(c) == saved by {
      EncodeDecodeRoundTrip(group, k);
    }
    var t := SaveSettings(s);
    assert t.bus[|s.bus|].data[1 + 2 * k .. 3 + 2 * k] == saved;
  }
}
