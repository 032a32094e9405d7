/** Constants, register map and slot records of the XLR8 RC receiver driver
    (src/XLR8RC.h). Everything here is a value: the header holds no behaviour. */
module RcDefs {

  /** Data-space addresses of the three memory-mapped 8-bit registers of the
      RC block. The model never dereferences them: the control register is a
      field of the registry and the two read-back registers are inputs. */
  const RCCR_ADDR: nat := 0xe4   // control register, written by the driver
  const RCPWH_ADDR: nat := 0xe5  // latched pulse width, bits 15..8
  const RCPWL_ADDR: nat := 0xe6  // latched pulse width, bits 7..0

  /** Bit positions of the two opcodes in the control byte. */
  const RCEN: nat := 7
  const RCDIS: nat := 6

  /** The pin the receiver input is wired to. */
  const RCPIN: nat := 3

  /** Capacity of the slot table, and the handle index that means "no slot". */
  const MAX_RCS: nat := 32
  const INVALID_RC: bv8 := 255

  /** The channel-index field of the control byte: bits 4..0. */
  const INDEX_MASK: bv8 := 0x1f

  /** RCSettings_t: the cached state of one channel. `pwmRecv` is a uint16_t,
      `en` a bool. */
  datatype RcSettings = RcSettings(pwmRecv: bv16, en: bool)

  /** rc_t: one entry of the slot table. */
  datatype RcSlot = RcSlot(settings: RcSettings)

  /** The state a slot is left in when a handle takes it: no pulse width read
      yet, capture disabled. It is also what the zero-initialised static table
      holds before any handle exists. */
  const FRESH_SLOT: RcSlot := RcSlot(RcSettings(0, false))

  /** A handle index that addresses a slot of the table. */
  predicate IsSlotIndex(i: bv8) {
    i as int < MAX_RCS
  }

  /** The sentinel handed out on exhaustion is never a slot of the table, and
      it is the only index the allocator produces outside the table. */
  lemma SentinelIsNoSlot()
    ensures !IsSlotIndex(INVALID_RC)
    ensures INVALID_RC as int >= MAX_RCS
  {
  }

  /** The handle's uint8_t index field holds every slot index: the largest,
      MAX_RCS - 1, fits in a byte. */
  lemma IndexFieldHoldsEverySlot()
    ensures MAX_RCS - 1 < 256 && IsSlotIndex((MAX_RCS - 1) as bv8)
  {
  }

  /** The 5-bit index field addresses exactly the table: an index survives the
      mask unchanged if and only if it is a slot index. */
  lemma IndexMaskMatchesTable(i: bv8)
    ensures (i & INDEX_MASK == i) <==> IsSlotIndex(i)
    ensures INDEX_MASK as int + 1 == MAX_RCS
  {
  }
}
