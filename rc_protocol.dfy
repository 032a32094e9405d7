/** The byte-level encodings the driver uses to talk to the RC block: the
    control byte it writes to RCCR (src/XLR8RC.cpp lines 21 and 26) and the
    16-bit pulse width it assembles from RCPWH and RCPWL (line 31). Each
    encoding is paired with a decoder, and the two are proved to agree. */
module RcProtocol {
  import opened RcDefs

  /** The reading of a control byte this model adopts. The header fixes only
      the opcode positions (bit 7 enable, bit 6 disable) and the driver puts
      the channel in bits 4..0. Requiring the opcode bit to be the only one
      set among bits 7..5, and the NoCommand case for every other pattern,
      are choices of this model, not documented behaviour of the RC block. */
  datatype Command = EnableChannel(channel: bv8) | DisableChannel(channel: bv8) | NoCommand

  /** The single-bit mask of an opcode bit position. */
  function OpcodeMask(bit: nat): (m: bv8)
    requires bit < 8
  {
    (1 as bv8) << bit
  }

  /** The adopted reading of a control byte: opcode in the high three bits,
      target channel in the low five. */
  function DecodeControl(b: bv8): (c: Command)
  {
    var opcode := b & !INDEX_MASK;
    var channel := b & INDEX_MASK;
    if opcode == OpcodeMask(RCEN) then EnableChannel(channel)
    else if opcode == OpcodeMask(RCDIS) then DisableChannel(channel)
    else NoCommand
  }

  /** `(1 << RCEN) | (0x1f & rcIndex)`: the byte enable() writes. Only the low
      five bits of the index reach the hardware. */
  function EnableCommand(rcIndex: bv8): (b: bv8)
    ensures DecodeControl(b) == EnableChannel(rcIndex & INDEX_MASK)
    ensures IsSlotIndex(rcIndex) ==> DecodeControl(b) == EnableChannel(rcIndex)
  {
    OpcodeMask(RCEN) | (INDEX_MASK & rcIndex)
  }

  /** `(1 << RCDIS) | (0x1f & rcIndex)`: the byte disable() writes. */
  function DisableCommand(rcIndex: bv8): (b: bv8)
    ensures DecodeControl(b) == DisableChannel(rcIndex & INDEX_MASK)
    ensures IsSlotIndex(rcIndex) ==> DecodeControl(b) == DisableChannel(rcIndex)
  {
    OpcodeMask(RCDIS) | (INDEX_MASK & rcIndex)
  }

  /** The two opcode bits are distinct and neither lies in the index field, so
      opcode and channel occupy disjoint bits of the control byte. */
  lemma ControlFieldsDisjoint()
    ensures OpcodeMask(RCEN) != OpcodeMask(RCDIS)
    ensures OpcodeMask(RCEN) & OpcodeMask(RCDIS) == 0
    ensures (OpcodeMask(RCEN) | OpcodeMask(RCDIS)) & INDEX_MASK == 0
  {
  }

  /** Each control byte decodes uniquely: two enable bytes are equal exactly
      when they address the same slot, likewise for disable bytes, and an
      enable byte is never a disable byte. */
  lemma ControlBytesUnique(i: bv8, j: bv8)
    requires IsSlotIndex(i) && IsSlotIndex(j)
    ensures EnableCommand(i) == EnableCommand(j) <==> i == j
    ensures DisableCommand(i) == DisableCommand(j) <==> i == j
    ensures EnableCommand(i) != DisableCommand(j)
  {
    if EnableCommand(i) == EnableCommand(j) {
      assert DecodeControl(EnableCommand(i)) == DecodeControl(EnableCommand(j));
    }
    if DisableCommand(i) == DisableCommand(j) {
      assert DecodeControl(DisableCommand(i)) == DecodeControl(DisableCommand(j));
    }
  }

  /** Worked values of the control byte: slot 0 enabled is 0x80, slot 5
      enabled is 0x85, slot 5 disabled is 0x45. */
  lemma ControlByteExamples()
    ensures EnableCommand(0) == 0x80
    ensures EnableCommand(5) == 0x85
    ensures DisableCommand(5) == 0x45
  {
  }

  /** What a handle holding the sentinel would write: the mask folds 255 onto
      31, so its commands are indistinguishable from those of slot 31. */
  lemma SentinelAliasesChannel31()
    ensures EnableCommand(INVALID_RC) == EnableCommand(31) == 0x9f
    ensures DisableCommand(INVALID_RC) == DisableCommand(31) == 0x5f
    ensures DecodeControl(EnableCommand(INVALID_RC)) == EnableChannel(31)
  {
  }

  /** `(uint16_t)(RCPWH << 8) | RCPWL`: the pulse width assembled from the
      two read-back bytes. The shift happens after promotion to int, which
      is 16 bits wide on the AVR target: for RCPWH >= 0x80 the shift
      overflows a signed int, which C++11 leaves undefined. The model assumes
      what the compiler produces in practice, the wrapped bit pattern, so the
      cast to uint16_t yields the high byte in bits 15..8 and the result
      always fits the uint16_t slot field. */
  function PwmWord(hi: bv8, lo: bv8): (w: bv16)
    ensures w as int == hi as int * 256 + lo as int
  {
    ShiftOrIsSum(hi, lo);
    ShiftSumValue(hi, lo);
    ((hi as bv16) << 8) | (lo as bv16)
  }

  /** Bits 15..8 of a pulse width: what RCPWH reports for it. */
  function HighByte(w: bv16): (hi: bv8)
    ensures hi as int == w as int / 256
  {
    (w >> 8) as bv8
  }

  /** Bits 7..0 of a pulse width: what RCPWL reports for it. */
  function LowByte(w: bv16): (lo: bv8)
    ensures lo as int == w as int % 256
  {
    WordIsSumOfBytes(w);
    ShiftSumValue((w >> 8) as bv8, (w & 0xff) as bv8);
    (w & 0xff) as bv8
  }

  /** The high byte shifted up and the low byte occupy disjoint bits, so
      OR-ing them is adding them. */
  lemma ShiftOrIsSum(hi: bv8, lo: bv8)
    ensures ((hi as bv16) << 8) | (lo as bv16) == ((hi as bv16) << 8) + (lo as bv16)
  {
  }

  /** The sum of the shifted high byte and the low byte, read as a number. */
  lemma ShiftSumValue(hi: bv8, lo: bv8)
    ensures (((hi as bv16) << 8) + (lo as bv16)) as int == hi as int * 256 + lo as int
  {
  }

  /** Every word is its shifted high byte plus its low byte. */
  lemma WordIsSumOfBytes(w: bv16)
    ensures w == ((((w >> 8) as bv8) as bv16) << 8) + (((w & 0xff) as bv8) as bv16)
  {
  }

  /** Assembling and splitting are inverse: the two bytes come back out of the
      word, and every 16-bit width is assembled from its own two bytes. */
  lemma PwmWordRoundTrip(hi: bv8, lo: bv8, w: bv16)
    ensures HighByte(PwmWord(hi, lo)) == hi && LowByte(PwmWord(hi, lo)) == lo
    ensures PwmWord(HighByte(w), LowByte(w)) == w
  {
  }

  /** The scenario value: high byte 0x06 and low byte 0x40 give 1600 ticks. */
  lemma PwmWordExample()
    ensures PwmWord(0x06, 0x40) == 1600
  {
  }
}
