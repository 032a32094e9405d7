# XLR8RC receiver-channel registry in Dafny

This project models the core of the XLR8RC Arduino library. The library drives
the radio-control (RC) pulse-width receiver block of an XLR8 FPGA board. Its
core is a fixed table of 32 channel slots (`rcs`) with an allocation counter
(`RcCount`). Each constructed `XLR8RC` handle takes the next slot, or the
sentinel index 255 once the table is full. The handle's `enable`, `disable`,
`getPwm` and `isEnabled` operations update the handle's slot and talk to the
hardware through three memory-mapped 8-bit registers: the control register
RCCR and the pulse-width bytes RCPWH and RCPWL.

The project has three modules, each in its own file:

- `rc_defs.dfy`, module `RcDefs`: the constants, register map and slot records
  of `src/XLR8RC.h`. This includes `MAX_RCS = 32`, `INVALID_RC = 255`, the
  opcode bits `RCEN = 7` and `RCDIS = 6`, the pin `RCPIN = 3`, and the records
  `RCSettings_t` and `rc_t`.
- `rc_protocol.dfy`, module `RcProtocol`: the two byte-level encodings of
  `src/XLR8RC.cpp`.
  - The control byte `(1 << opcode) | (0x1f & rcIndex)` is checked against a
    decoder for the reading this model adopts. The header fixes only the
    opcode bit positions; the treatment of bit 5 and of other patterns is the
    model's own choice.
  - The pulse width `(RCPWH << 8) | RCPWL` is checked against its arithmetic
    value and against the two functions that split a word back into bytes.
- `rc_driver.dfy`, module `RcDriver`: the stateful driver.
  - `Registry` holds the process-wide state as fields: the slot array, the
    counter, the last byte written to RCCR, and a log of the pins configured
    as inputs.
  - `Rc` is the `XLR8RC` handle. Its constructor does the allocation, and its
    methods do the enable/disable/read protocol in place.
  - Alongside the classes are a specification of what a run of constructions
    hands out (`AllocIndices`), the lemmas about it, and a few client methods
    that play the usage scenarios through the classes.

A handle with the sentinel index would index `rcs[255]`, which is out of
bounds. Its control byte would also be masked onto channel 31. Each operation
therefore requires `IsSlotIndex(rcIndex)`. The lemma `SentinelAliasesChannel31`
records what the unguarded code would write.

The hardware's read-back bytes are parameters `hi` and `lo` of `GetPwm`. The
control register is a field that the operations assign.

## Model

| member | source | states |
|---|---|---|
| RcDefs.SentinelIsNoSlot | src/XLR8RC.h:26-27 | the sentinel 255 is not an index of the 32-slot table |
| RcDefs.IndexFieldHoldsEverySlot | src/XLR8RC.h:46 | the uint8_t `rcIndex` holds the largest slot index |
| RcDefs.IndexMaskMatchesTable | src/XLR8RC.cpp:21-26 | an index survives the 0x1f mask unchanged if and only if it is a slot index; the mask addresses exactly `MAX_RCS` channels |
| RcProtocol.EnableCommand | src/XLR8RC.cpp:21 | the enable byte decodes as "enable channel `rcIndex & 0x1f`", which is exactly `rcIndex` for a slot index |
| RcProtocol.DisableCommand | src/XLR8RC.cpp:26 | the disable byte decodes as "disable channel `rcIndex & 0x1f`", which is exactly `rcIndex` for a slot index |
| RcProtocol.ControlFieldsDisjoint | src/XLR8RC.h:21-22 | the enable bit and the disable bit differ, and neither overlaps the index field in bits 0-4 |
| RcProtocol.ControlBytesUnique | src/XLR8RC.cpp:19-27 | for slot indices, two enable bytes (or two disable bytes) are equal if and only if their indices are, and no enable byte equals a disable byte |
| RcProtocol.ControlByteExamples | src/XLR8RC.cpp:21-26 | enabling slot 0 writes 0x80, enabling slot 5 writes 0x85, disabling slot 5 writes 0x45 |
| RcProtocol.SentinelAliasesChannel31 | src/XLR8RC.cpp:21 | an unguarded handle holding 255 would write 0x9f or 0x5f, the same bytes as slot 31 |
| RcProtocol.PwmWord | src/XLR8RC.cpp:31 | the assembled pulse width equals `hi * 256 + lo`, so it always fits in 16 bits |
| RcProtocol.HighByte | src/XLR8RC.h:18 | the high byte of a width is the width divided by 256 |
| RcProtocol.LowByte | src/XLR8RC.h:19 | the low byte of a width is the width modulo 256 |
| RcProtocol.PwmWordRoundTrip | src/XLR8RC.cpp:31 | assembling and splitting are inverse in both directions |
| RcProtocol.PwmWordExample | src/XLR8RC.cpp:31 | high byte 0x06 and low byte 0x40 give 1600 |
| RcDriver.Registry.constructor | src/XLR8RC.cpp:3-5 | the table starts with 32 zeroed slots, the counter at 0, and no pins configured |
| RcDriver.Rc.constructor | src/XLR8RC.cpp:7-17 | if the counter is below 32, the handle gets the counter value, the counter goes up by one, only that slot is reset (width 0, disabled) and the pin is configured; if the table is full, the handle gets 255 and nothing changes |
| RcDriver.Rc.Init | src/XLR8RC.cpp:39-41 | one more configuration of `RCPIN` as an input is recorded |
| RcDriver.Rc.Enable | src/XLR8RC.cpp:19-22 | the slot's flag becomes true, its width is kept, RCCR receives the enable byte for this channel, and no other slot changes |
| RcDriver.Rc.Disable | src/XLR8RC.cpp:24-27 | the slot's flag becomes false, its width is kept, RCCR receives the disable byte for this channel, and no other slot changes |
| RcDriver.Rc.GetPwm | src/XLR8RC.cpp:29-33 | RCCR receives the enable byte; the slot becomes enabled and caches the returned width; the width is `hi * 256 + lo` and splits back into `hi` and `lo`; no other slot changes |
| RcDriver.Rc.IsEnabled | src/XLR8RC.cpp:35-37 | returns the slot's cached flag and changes nothing |
| RcDriver.AllocIndices | src/XLR8RC.cpp:8-16 | a run of n constructions yields n indices, each of them a slot index or the sentinel |
| RcDriver.CountAfter | src/XLR8RC.cpp:8-9 | the counter never decreases and never passes 32 |
| RcDriver.AllocIndicesAt | src/XLR8RC.cpp:8-16 | the k-th construction from counter c gets c + k while that is below 32, and the sentinel afterwards |
| RcDriver.AllocIndicesAscending | src/XLR8RC.cpp:9 | the valid indices handed out strictly ascend in creation order, so they are pairwise distinct |
| RcDriver.ConstructMany | src/XLR8RC.cpp:7-17 | constructing n handles gives them the indices `AllocIndices` predicts and moves the counter as `CountAfter` says; only the newly handed-out slots change, and each is reset; the pin log grows by one `RCPIN` per slot handed out |
| RcDriver.ThirtyThreeHandles | src/XLR8RC.cpp:7-17 | on a fresh table, 32 constructions get 0 to 31 in order, and the 33rd gets 255 |
| RcDriver.FirstHandleReads | src/XLR8RC.cpp:29-33 | the first handle owns slot 0; its read writes 0x80, returns `hi * 256 + lo` (1600 for 0x06 and 0x40), and leaves the handle enabled |
| RcDriver.SixthHandleToggles | src/XLR8RC.cpp:19-27 | the sixth handle owns slot 5; enable writes 0x85 and sets the flag, and disable writes 0x45 and clears it |
| RcDriver.ReadThenDisable | src/XLR8RC.cpp:24-33 | after a read and a disable, the slot holds the width `hi * 256 + lo` with the flag false, RCCR holds the disable byte, and no other slot changes |

## Left out

- The sentinel handle: the source indexes `rcs[255]`, which is outside the table. The model requires `IsSlotIndex(rcIndex)` for `Enable`, `Disable`, `GetPwm` and `IsEnabled` and does not model that behaviour. `SentinelAliasesChannel31` records the control byte such a call would write.
- Memory-mapped access (`_SFR_MEM8`): RCCR is a field of `Registry`. The values read from RCPWH and RCPWL are the parameters `hi` and `lo` of `GetPwm`. The register addresses are constants that are never dereferenced.
- `PwmWord`: on the AVR target `int` is 16 bits, so `RCPWH << 8` overflows a signed int when RCPWH is 0x80 or more. C++11 leaves that undefined. The model assumes the wrapped bit pattern that the compiler produces in practice.
- The order of the two volatile reads in `getPwm` is unspecified in C. The model cannot observe it, because both bytes arrive as parameters.
- `pinMode(RCPIN, INPUT)`: the GPIO library is external. `Init` only records in `inputPins` that the call happened.
- The control register's value at power-up is not in the source, so it is a parameter of the `Registry` constructor.
- The `ARDUINO_XLR8` board check and its `#error` run at build time and have no runtime behaviour.
- Concurrency: the registers are shared by all channels, so interleaved enable/read sequences from two contexts would clobber each other's cached widths. The model is single-threaded.
- Globals: the source's globals `rcs`, `RcCount` and RCCR are the fields of one `Registry` object that every handle refers to. Separate registries would be separate programs.
- `RcCount` is a `uint8_t`; the model uses an unbounded `nat`. It never exceeds 32, so it cannot wrap.
- Recommended alternatives the source does not implement: a result type for an exhausted table, and a no-op or error policy for the sentinel. The model follows the code, which silently hands out 255 and does not check it.
