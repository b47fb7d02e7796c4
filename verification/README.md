# MCP4728 quad DAC driver, modelled in Dafny

This project models the CircuitPython driver for the Microchip MCP4728: a
12-bit, four-channel DAC on I2C. The driver keeps a cache of each channel's
state: a 12-bit raw value, a voltage-reference bit (`Vref.VDD` = 0,
`Vref.INTERNAL` = 1) and a gain bit. It fills the cache from the device's
24-byte status block when it is constructed. Its setters validate their
input, update the cache and then write to the device.

There are three modules:

- `Bits` (`bits.dfy`) models Python's `&`, `|`, `<<` and `>>` on
  non-negative integers. It proves the facts the codec needs: a mask is a
  remainder, a shift is a multiplication or a floor division by a power of
  two, and OR of values with no common bit is their sum.
- `Codec` (`codec.dfy`) models the pure byte layouts:
  - `_get_flags`;
  - the `_read_registers` decode loop over `_chunk`;
  - `_generate_bytes_with_flags`;
  - the command bytes of `_set_value`, `sync_vrefs`, `sync_gains` and
    `_general_call`;
  - `Vref` / `CV.is_valid`.
- `Driver` (`driver.dfy`) models the driver object:
  - The I2C bus is an append-only log of `Write(address, bytes)` events,
    plus `Delay(ms)` markers for the sleep after an EEPROM write.
  - A setter returns an `Outcome`: the next state, and the `AttributeError`
    it raised, if any.
  - `Apply` and `Run` perform a sequence of client calls, stopping at the
    first error.

Properties proved:

- Decoding reads only the high and low byte of each 6-byte group.
- The value is 12 bits, and the flags sit at bits 7 (vref), 6–5 (power
  down) and 4 (gain).
- Decoding an encoded channel gives it back. Encoding a decoded group
  gives back its bytes with the power-down bits cleared.
- Command bytes:
  - a single write starts with `0x40 | i << 1`;
  - the sync bytes lie in `0x80..0x8F` and `0xC0..0xCF`, with channel A in
    bit 3 down to channel D in bit 0;
  - a save writes nine bytes, `0x50` then the four encoded channels, and
    then waits 15 ms;
  - the general calls write `[0x00, 0x06]`, `[0x00, 0x09]` and
    `[0x00, 0x08]`.
- A setter with bad input raises, and changes neither the cache nor the
  bus. Otherwise it changes only its own channel and appends exactly the
  source's write.
- Every write in any run of calls goes to the device's own address, and
  the cache stays valid throughout.

Notes on what the code does:

- The general calls go through the device's own I2C handle
  (adafruit_mcp4728.py:128, :251-252), so `[0x00, cmd]` is written to the
  device's address, with `0x00` as the first data byte.
- The group `[0x80, 0x01, 0x00, 0, 0, 0]` decodes to value 256 with vref 0,
  because bit 7 of the high byte `0x01` is clear (`Codec.DecodeGroupExample`).
- Cached gains A=1, B=1, C=2, D=1, with B then set to 2, sync as the single
  byte `0xC6` (`Driver.SetGainExample`).

## Model

| member | source | states |
|---|---|---|
| Codec.VrefFromCode | adafruit_mcp4728.py:80-89 | a code maps to the `Vref` option that carries it, and to nothing when no option does |
| Codec.IsValidVrefIffBit | adafruit_mcp4728.py:74-77 | `is_valid` holds exactly for 0 and 1, that is, exactly when some `Vref` option has that value |
| Codec.GetFlags | adafruit_mcp4728.py:137-142 | vref is bit 7 of the high byte, gain is bit 4, and the power state is bits 6–5 as a number 0..3 |
| Codec.Chunk | adafruit_mcp4728.py:239-243 | the pieces concatenate back to the input; each piece is non-empty and at most `chunk_size` long; every piece but the last is exactly `chunk_size` long |
| Codec.ChunkOfMultiple | adafruit_mcp4728.py:239-243 | on a length that is `count * size`, there are `count` pieces and piece k is the slice `[k*size, k*size+size)` |
| Codec.StatusBlockGroups | adafruit_mcp4728.py:148-158 | the 24-byte status block splits into four 6-byte groups, group k being bytes 6k..6k+5 |
| Codec.DecodeGroup | adafruit_mcp4728.py:158-163 | the value is the high byte's low nibble times 256 plus the low byte, in 0..4095; vref, gain and power state are the flag bits of the high byte |
| Codec.ReadRegisters | adafruit_mcp4728.py:148-165 | four register tuples, A to D, tuple k being the decode of group k |
| Codec.ReadRegistersIgnoresHeaderAndEeprom | adafruit_mcp4728.py:152-163 | two blocks that agree on every group's high and low byte decode alike: header and EEPROM bytes are ignored |
| Codec.DecodeGroupExample | adafruit_mcp4728.py:158-163 | the group `[0x80, 0x01, 0x00, 0, 0, 0]` decodes to value 256, vref 0, gain 0, power state 0 |
| Codec.EncodeChannel | adafruit_mcp4728.py:229-237 | two bytes: the low 12 bits of the pair give the raw value, bit 7 of the first is vref, bit 4 is gain, bits 6–5 are clear |
| Codec.EncodeChannelBytes | adafruit_mcp4728.py:229-237 | the encoded pair is `[128*vref + 16*gain + raw/256, raw%256]` |
| Codec.DecodeEncodeRoundTrip | adafruit_mcp4728.py:158-163 | decoding a group that carries an encoded channel gives back its raw value, vref and gain, with power state 0, whatever the other four bytes hold |
| Codec.EncodeReadFields | adafruit_mcp4728.py:229-237 | re-encoding the value, vref and gain read from a high and low byte gives back both bytes with bits 6–5 cleared |
| Codec.EncodeDecodeRoundTrip | adafruit_mcp4728.py:158-163 | re-encoding a decoded group gives back its high byte, with the power-down bits cleared, and its low byte |
| Codec.SingleWriteCommand | adafruit_mcp4728.py:217-227 | three bytes: `0x40 + 2*index` (bits 2–1 hold the index, bit 0 clear), then the encoded channel |
| Codec.ChannelBytes | adafruit_mcp4728.py:167-175 | eight bytes, bytes 2k and 2k+1 being the encoding of channel k |
| Codec.PackFlags | adafruit_mcp4728.py:189-196 | ORing flags A..D into bits 3..0 of a prefix whose low nibble is clear adds them, and bits 3..0 then read back as A..D |
| Codec.SyncVrefCommand | adafruit_mcp4728.py:189-200 | the byte is `0x80 + 8A + 4B + 2C + D` over the vref bits, lies in 0x80..0x8F, and bit 3-k is channel k's vref |
| Codec.SyncGainCommand | adafruit_mcp4728.py:202-215 | the byte is `0xC0 + 8A + 4B + 2C + D` over the gain bits, lies in 0xC0..0xCF, and bit 3-k is channel k's gain |
| Codec.GeneralCallCommand | adafruit_mcp4728.py:245-252 | the two bytes are `0x00` then the command |
| Driver.Construct | adafruit_mcp4728.py:127-135 | the driver holds four valid channels, channel k caching the decode of group k of the status block, at the given address |
| Driver.ConstructDefault | adafruit_mcp4728.py:127-135 | built without an address, the driver binds 0x60 and caches the status block as `Driver.Construct` does |
| Driver.Initial | adafruit_mcp4728.py:127-135 | a freshly built driver is valid and has written nothing |
| Driver.SetValue | adafruit_mcp4728.py:217-227 | appends exactly one write `[0x40 + 2i] + encoding of channel i` to the device, and changes no channel |
| Driver.WriteMultiEeprom | adafruit_mcp4728.py:178-187 | appends the write `[0x50] + byte_list` and then a 15 ms delay |
| Driver.SaveSettings | adafruit_mcp4728.py:167-175 | appends one 9-byte write, `0x50` then channels A..D encoded, followed by a 15 ms delay; the cache is unchanged |
| Driver.SaveSettingsExample | adafruit_mcp4728.py:167-187 | raw values 100, 200, 300, 4095 with vref and gain 0 save as `[0x50, 0x00, 0x64, 0x00, 0xC8, 0x01, 0x2C, 0x0F, 0xFF]` and a 15 ms delay |
| Driver.SyncVrefs | adafruit_mcp4728.py:189-200 | appends one 1-byte write in 0x80..0x8F whose bits 3..0 are the cached vrefs of A..D; the cache is unchanged |
| Driver.SyncGains | adafruit_mcp4728.py:202-215 | appends one 1-byte write in 0xC0..0xCF whose bits 3..0 are the cached gain bits of A..D; the cache is unchanged |
| Driver.GeneralCall | adafruit_mcp4728.py:245-252 | appends the write `[0x00, command]` to the device's address; the cache is unchanged |
| Driver.Reset | adafruit_mcp4728.py:254-259 | appends `[0x00, 0x06]`; the cache is unchanged |
| Driver.Wakeup | adafruit_mcp4728.py:261-265 | appends `[0x00, 0x09]`; the cache is unchanged |
| Driver.SoftUpdate | adafruit_mcp4728.py:267-270 | appends `[0x00, 0x08]`; the cache is unchanged |
| Driver.SetRawValue | adafruit_mcp4728.py:332-341 | raises exactly when the value is outside 0..4095, and then changes nothing; otherwise it stores the value in channel i only and appends the single-channel write of the new channel |
| Driver.SetScaledValue | adafruit_mcp4728.py:319-325 | raises exactly when the value is outside 0..65535, and then changes nothing; otherwise it is the raw setter applied to the raw value r with `16r <= value < 16r + 16`, that is `value >> 4` |
| Driver.SetGain | adafruit_mcp4728.py:352-357 | raises exactly when the value is not 1 or 2, and then changes nothing; otherwise it stores `value - 1` as channel i's gain bit only and appends one sync-gains write |
| Driver.SetVref | adafruit_mcp4728.py:364-369 | raises exactly when the value is not a `Vref` (0 or 1), and then changes nothing; otherwise it stores it as channel i's vref only and appends one sync-vrefs write |
| Driver.SetGainExample | adafruit_mcp4728.py:202-215 | with gains A=1, B=1, C=2, D=1 cached, setting B to 2 writes exactly one byte, `0xC6` |
| Driver.RawValue | adafruit_mcp4728.py:327-341 | the reported raw value lies in 0..4095, and assigning it back to the setter succeeds and leaves the cache unchanged |
| Driver.VrefCode | adafruit_mcp4728.py:359-369 | the reported vref is a valid `Vref` value, and assigning it back to the setter succeeds and leaves the cache unchanged |
| Driver.Gain | adafruit_mcp4728.py:343-350 | the getter as written: it reports 0 exactly when the stored gain bit is 0 |
| Driver.GainSetting | adafruit_mcp4728.py:343-350 | the getter as documented: it reports 1 or 2, one more than the stored gain bit |
| Driver.SetThenGet | adafruit_mcp4728.py:319-369 | after a successful set, the getters give back the value set (the 16-bit value divided by 16, and the documented gain) |
| Driver.GainReadBackAsWritten | adafruit_mcp4728.py:343-357 | after a successful gain set, the getter as written reports one less than the gain set |
| Driver.GainRoundTripFails | adafruit_mcp4728.py:343-357 | after the gain is set to 1, assigning the reported gain back to the setter raises |
| Driver.GainRoundTripHalvesDouble | adafruit_mcp4728.py:343-357 | while the stored gain bit is set, assigning the reported gain back to the setter is accepted and silently drops the gain from 2 to 1 |
| Driver.GainSettingRoundTrip | adafruit_mcp4728.py:343-357 | assigning the documented gain back to the setter succeeds and leaves the cache unchanged |
| Driver.Apply | adafruit_mcp4728.py:167-270 | one call keeps the cache valid and the address fixed, only appends to the bus, writes only to the device's address, changes nothing when it raises, and writes something when it does not |
| Driver.Run | adafruit_mcp4728.py:184-252 | a run of calls keeps the cache valid, only appends to the bus, and addresses every new write to the device the driver was built for; every write site (:184-185, :199-200, :214-215, :226-227, :251-252) goes through the handle bound at :128 |
| Driver.RunAppend | adafruit_mcp4728.py:333-341 | a raised error ends the run: running `a + b` is running `a` and then, unless `a` raised, running `b` from where it left off |
| Driver.ConstructThenSave | adafruit_mcp4728.py:127-175 | saving a cache that holds what the status block read writes back each group's high byte, with bits 6–5 cleared, and its low byte |

## Left out

- The I2C transport (`I2CDevice`, `readinto`, `write`, locking) is not part of this model. A write is a log entry and always succeeds. The status block read at construction is a parameter, and bus errors are not modelled.
- `sleep(0.015)` is a `Delay(15)` marker in the log; time itself is not modelled.
- `normalized_value` (both directions) and the `value` getter are left out, because they compute in floating point.
- The `CV` machinery is left out: `add_values`, the `string` and `lsb` tables and the dynamic attributes. Only the two `Vref` values and `is_valid` on integers are modelled.
- Python's dynamic typing is left out. Inputs are integers, so a float or `True` passed to a setter is not modelled. The vref and gain flags that `_get_flags` yields as bools are the integers 0 and 1; since `True in {1, 2}` holds in Python, the gain getter's `True` is accepted by the setter exactly as the integer 1 is in the model (`Driver.GainRoundTripHalvesDouble`).
- The power state decoded by `_read_registers` is dropped by `Channel.__init__`, as in the source. `Driver.Construct` keeps only value, vref and gain.
- The example scripts are not part of this model. `MCP4728A4_DEFAULT_ADDRESS` (0x64) is only a value for callers to pass; `Driver.Construct` takes any address.
- Driver.Run: the contract does not say which call raised when a run stops early. `Driver.RunAppend` pins down the order of evaluation instead.

## Findings

| source | as written | input that shows it | evidently intended | confidence | as-written member | corrected member |
|---|---|---|---|---|---|---|
| adafruit_mcp4728.py:343-357 | the `gain` getter returns the stored bit `_gain`, which the setter sets to `value - 1` and construction sets to the decoded bit, so it reports 0 or 1 | set `channel.gain = 1`, then `channel.gain = channel.gain`: the getter reports 0 and the setter raises "`gain` must be 1 or 2"; and right after construction with the gain bit set, `channel.gain = channel.gain` is accepted (`True in {1, 2}`) and silently drops the gain from 2 to 1 | the getter is annotated and documented as returning 1 or 2, so it should report the stored bit plus one; the internal readers `sync_gains` (:206-209) and `_generate_bytes_with_flags` (:235) must then read `_gain` rather than the property, as `Codec.SyncGainCommand` and `Codec.EncodeChannel` do in the model | high; not executed | Driver.GainRoundTripFails | Driver.GainSettingRoundTrip |
