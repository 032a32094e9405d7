/** The receiver-channel registry and its register protocol (src/XLR8RC.cpp).
    The source keeps its state in globals: the slot table `rcs`, the
    allocation counter `RcCount` and the memory-mapped control register RCCR.
    Here they are the fields of one `Registry` object that every handle
    shares; a handle (`Rc`, the source's class XLR8RC) holds the registry and
    its own slot index. */
module RcDriver {
  import opened RcDefs
  import opened RcProtocol

  /** The process-wide state of the driver. */
  class Registry {
    /** `rcs`: one record per hardware channel. */
    var rcs: array<RcSlot>
    /** `RcCount`: how many slots have been handed out; slots are handed out
        in ascending order and never given back. */
    var rcCount: nat
    /** The last byte written to the control register RCCR. */
    var rccr: bv8
    /** Pins configured as inputs through the pin facility, in call order. */
    var inputPins: seq<nat>

    /** The table has its fixed capacity and the counter never passes it. */
    ghost predicate Valid()
      reads this
    {
      rcs.Length == MAX_RCS && rcCount <= MAX_RCS
    }

    /** Program start: the static table is zero-initialised, no handle exists
        yet, and the control register holds whatever the hardware reset left
        in it. */
    constructor (rccrAtReset: bv8)
      ensures Valid() && fresh(rcs)
      ensures rcCount == 0 && rccr == rccrAtReset && inputPins == []
      ensures forall i :: 0 <= i < rcs.Length ==> rcs[i] == FRESH_SLOT
    {
      rcs := new RcSlot[MAX_RCS](_ => FRESH_SLOT);
      rcCount := 0;
      rccr := rccrAtReset;
      inputPins := [];
    }
  }

  /** A receiver-channel handle: the source's class XLR8RC. */
  class Rc {
    const reg: Registry
    /** The slot this handle owns, or INVALID_RC when the table was full. */
    const rcIndex: bv8

    /** Construction takes the next free slot, if there is one, and resets
        it; on a full table the handle gets the sentinel and nothing else
        changes. */
    constructor (reg: Registry)
      requires reg.Valid()
      modifies reg, reg.rcs
      ensures this.reg == reg && reg.Valid() && reg.rcs == old(reg.rcs)
      ensures reg.rccr == old(reg.rccr)
      ensures old(reg.rcCount) < MAX_RCS ==>
                && rcIndex as int == old(reg.rcCount)
                && reg.rcCount == old(reg.rcCount) + 1
                && reg.rcs[..] == old(reg.rcs[..])[rcIndex as int := FRESH_SLOT]
                && reg.inputPins == old(reg.inputPins) + [RCPIN]
      ensures old(reg.rcCount) == MAX_RCS ==>
                && rcIndex == INVALID_RC
                && reg.rcCount == old(reg.rcCount)
                && reg.rcs[..] == old(reg.rcs[..])
                && reg.inputPins == old(reg.inputPins)
    {
      this.reg := reg;
      var hasRoom := reg.rcCount < MAX_RCS;
      if hasRoom {
        var i := reg.rcCount;
        rcIndex := i as bv8;
        reg.rcCount := reg.rcCount + 1;
        reg.rcs[i] := reg.rcs[i].(settings := reg.rcs[i].settings.(pwmRecv := 0));
        reg.rcs[i] := reg.rcs[i].(settings := reg.rcs[i].settings.(en := false));
      } else {
        rcIndex := INVALID_RC;
      }
      new;
      if hasRoom {
        Init();
      }
    }

    /** `init()`: configures the receive pin as an input. Only the call is
        recorded; the pin facility itself is outside the model. In the
        source this is a private helper that only the constructor calls;
        Dafny has no private members, so nothing here stops other callers. */
    method Init()
      modifies reg`inputPins
      ensures reg.inputPins == old(reg.inputPins) + [RCPIN]
    {
      reg.inputPins := reg.inputPins + [RCPIN];
    }

    /** `enable()`: marks the slot enabled and commands the hardware to
        enable this channel. The pulse width and every other slot are
        untouched. */
    method Enable()
      requires reg.Valid() && IsSlotIndex(rcIndex)
      modifies reg`rccr, reg.rcs
      ensures reg.Valid()
      ensures reg.rccr == EnableCommand(rcIndex)
      ensures DecodeControl(reg.rccr) == EnableChannel(rcIndex)
      ensures reg.rcs[rcIndex as int].settings.en
      ensures reg.rcs[rcIndex as int].settings.pwmRecv == old(reg.rcs[rcIndex as int].settings.pwmRecv)
      ensures forall j :: 0 <= j < reg.rcs.Length && j != rcIndex as int ==> reg.rcs[j] == old(reg.rcs[j])
    {
      var i := rcIndex as int;
      reg.rcs[i] := reg.rcs[i].(settings := reg.rcs[i].settings.(en := true));
      reg.rccr := EnableCommand(rcIndex);
    }

    /** `disable()`: marks the slot disabled and commands the hardware to
        disable this channel. The pulse width and every other slot are
        untouched. */
    method Disable()
      requires reg.Valid() && IsSlotIndex(rcIndex)
      modifies reg`rccr, reg.rcs
      ensures reg.Valid()
      ensures reg.rccr == DisableCommand(rcIndex)
      ensures DecodeControl(reg.rccr) == DisableChannel(rcIndex)
      ensures !reg.rcs[rcIndex as int].settings.en
      ensures reg.rcs[rcIndex as int].settings.pwmRecv == old(reg.rcs[rcIndex as int].settings.pwmRecv)
      ensures forall j :: 0 <= j < reg.rcs.Length && j != rcIndex as int ==> reg.rcs[j] == old(reg.rcs[j])
    {
      var i := rcIndex as int;
      reg.rcs[i] := reg.rcs[i].(settings := reg.rcs[i].settings.(en := false));
      reg.rccr := DisableCommand(rcIndex);
    }

    /** `getPwm()`: re-enables the channel, so that the read-back registers
        show this channel, then combines the bytes `hi` (RCPWH) and `lo`
        (RCPWL) they hold into the pulse width, caches it in the slot and
        returns it. */
    method GetPwm(hi: bv8, lo: bv8) returns (pwm: bv16)
      requires reg.Valid() && IsSlotIndex(rcIndex)
      modifies reg`rccr, reg.rcs
      ensures reg.Valid()
      ensures pwm as int == hi as int * 256 + lo as int
      ensures HighByte(pwm) == hi && LowByte(pwm) == lo
      ensures reg.rccr == EnableCommand(rcIndex)
      ensures reg.rcs[rcIndex as int] == RcSlot(RcSettings(pwm, true))
      ensures forall j :: 0 <= j < reg.rcs.Length && j != rcIndex as int ==> reg.rcs[j] == old(reg.rcs[j])
    {
      Enable();
      var i := rcIndex as int;
      reg.rcs[i] := reg.rcs[i].(settings := reg.rcs[i].settings.(pwmRecv := PwmWord(hi, lo)));
      pwm := reg.rcs[i].settings.pwmRecv;
      PwmWordRoundTrip(hi, lo, pwm);
    }

    /** `isEnabled()`: the cached flag of the slot; nothing is changed and the
        hardware is not consulted. */
    method IsEnabled() returns (en: bool)
      requires reg.Valid() && IsSlotIndex(rcIndex)
      ensures en == reg.rcs[rcIndex as int].settings.en
    {
      en := reg.rcs[rcIndex as int].settings.en;
    }
  }

  /** The indices that `n` successive constructions hand out when the counter
      stands at `count`: the counter value while the table has room, the
      sentinel after. */
  function AllocIndices(count: nat, n: nat): (r: seq<bv8>)
    requires count <= MAX_RCS
    ensures |r| == n
    ensures forall k :: 0 <= k < n ==> (IsSlotIndex(r[k]) || r[k] == INVALID_RC)
    decreases n
  {
    if n == 0 then []
    else if count < MAX_RCS then [count as bv8] + AllocIndices(count + 1, n - 1)
    else [INVALID_RC] + AllocIndices(count, n - 1)
  }

  /** Where the counter stands after `n` constructions from `count`. */
  function CountAfter(count: nat, n: nat): (c: nat)
    requires count <= MAX_RCS
    ensures c <= MAX_RCS
    ensures c == MAX_RCS || c == count + n
    ensures count <= c
  {
    if count + n < MAX_RCS then count + n else MAX_RCS
  }

  /** A table position, stored in the handle's byte-wide index, reads back
      unchanged. */
  lemma SlotIndexAsByte(c: nat)
    requires c < MAX_RCS
    ensures (c as bv8) as int == c
  {
  }

  /** The k-th construction gets `count + k` while that is a slot of the
      table, and the sentinel otherwise. */
  lemma {:induction false} AllocIndicesAt(count: nat, n: nat, k: nat)
    requires count <= MAX_RCS && k < n
    ensures count + k < MAX_RCS ==> AllocIndices(count, n)[k] as int == count + k
    ensures count + k >= MAX_RCS ==> AllocIndices(count, n)[k] == INVALID_RC
    decreases n
  {
    var r := AllocIndices(count, n);
    if count < MAX_RCS {
      assert r == [count as bv8] + AllocIndices(count + 1, n - 1);
      if k == 0 {
        SlotIndexAsByte(count);
      } else {
        AllocIndicesAt(count + 1, n - 1, k - 1);
        assert r[k] == AllocIndices(count + 1, n - 1)[k - 1];
      }
    } else {
      assert r == [INVALID_RC] + AllocIndices(count, n - 1);
      if k > 0 {
        AllocIndicesAt(count, n - 1, k - 1);
        assert r[k] == AllocIndices(count, n - 1)[k - 1];
      }
    }
  }

  /** The valid indices handed out are strictly ascending in creation order,
      hence pairwise distinct, and the sentinel is the only other value. */
  lemma AllocIndicesAscending(count: nat, n: nat, j: nat, k: nat)
    requires count <= MAX_RCS && j < k < n
    requires IsSlotIndex(AllocIndices(count, n)[k])
    ensures IsSlotIndex(AllocIndices(count, n)[j])
    ensures AllocIndices(count, n)[j] as int < AllocIndices(count, n)[k] as int
  {
    AllocIndicesAt(count, n, j);
    AllocIndicesAt(count, n, k);
  }

  /** Constructs `n` handles one after another on `reg`. Every one of them
      gets the index AllocIndices predicts, and only the counter, the slots
      handed out and the pin log change. */
  method ConstructMany(reg: Registry, n: nat) returns (handles: seq<Rc>)
    requires reg.Valid()
    modifies reg, reg.rcs
    ensures reg.Valid() && reg.rcs == old(reg.rcs) && reg.rccr == old(reg.rccr)
    ensures |handles| == n
    ensures forall k :: 0 <= k < n ==> handles[k].reg == reg
    ensures forall k :: 0 <= k < n ==> handles[k].rcIndex == AllocIndices(old(reg.rcCount), n)[k]
    ensures reg.rcCount == CountAfter(old(reg.rcCount), n)
    ensures reg.inputPins == old(reg.inputPins) + seq(reg.rcCount - old(reg.rcCount), _ => RCPIN)
    ensures forall i :: 0 <= i < reg.rcs.Length ==>
              reg.rcs[i] == if old(reg.rcCount) <= i < reg.rcCount then FRESH_SLOT else old(reg.rcs[i])
  {
    handles := [];
    while |handles| < n
      invariant reg.Valid() && reg.rcs == old(reg.rcs) && reg.rccr == old(reg.rccr)
      invariant |handles| <= n
      invariant reg.rcCount == CountAfter(old(reg.rcCount), |handles|)
      invariant reg.inputPins == old(reg.inputPins) + seq(reg.rcCount - old(reg.rcCount), _ => RCPIN)
      invariant forall k :: 0 <= k < |handles| ==> handles[k].reg == reg
      invariant forall k :: 0 <= k < |handles| ==>
                  handles[k].rcIndex == AllocIndices(old(reg.rcCount), n)[k]
      invariant forall i :: 0 <= i < reg.rcs.Length ==>
                  reg.rcs[i] == if old(reg.rcCount) <= i < reg.rcCount then FRESH_SLOT else old(reg.rcs[i])
    {
      AllocIndicesAt(old(reg.rcCount), n, |handles|);
      var h := new Rc(reg);
      handles := handles + [h];
    }
  }

  /** The allocation scenario: on a fresh table, 32 constructions get the
      indices 0 to 31 in order and the 33rd gets the sentinel. */
  method ThirtyThreeHandles() returns (indices: seq<bv8>)
    ensures |indices| == 33
    ensures forall k :: 0 <= k < MAX_RCS ==> indices[k] as int == k
    ensures indices[32] == INVALID_RC
  {
    var reg := new Registry(0);
    var handles := ConstructMany(reg, 33);
    indices := seq(33, k requires 0 <= k < 33 => handles[k].rcIndex);
    forall k | 0 <= k < 33
      ensures k < MAX_RCS ==> indices[k] as int == k
      ensures k == 32 ==> indices[k] == INVALID_RC
    {
      AllocIndicesAt(0, 33, k);
    }
  }

  /** The read scenario: the first handle of a fresh table owns slot 0; its
      getPwm writes 0x80 to the control register, returns the combined
      read-back bytes (1600 for 0x06 and 0x40) and leaves it enabled. */
  method FirstHandleReads(hi: bv8, lo: bv8) returns (index: bv8, control: bv8, pwm: bv16, enabled: bool)
    ensures index == 0 && control == 0x80 && enabled
    ensures pwm as int == hi as int * 256 + lo as int
    ensures hi == 0x06 && lo == 0x40 ==> pwm == 1600
  {
    var reg := new Registry(0);
    var h := new Rc(reg);
    index := h.rcIndex;
    pwm := h.GetPwm(hi, lo);
    control := reg.rccr;
    enabled := h.IsEnabled();
    ControlByteExamples();
  }

  /** The control-byte scenario: the sixth handle owns slot 5; enabling it
      writes 0x85, disabling it writes 0x45, and the cached flag follows. */
  method SixthHandleToggles() returns (index: bv8, onByte: bv8, onFlag: bool, offByte: bv8, offFlag: bool)
    ensures index == 5
    ensures onByte == 0x85 && onFlag
    ensures offByte == 0x45 && !offFlag
  {
    var reg := new Registry(0);
    var handles := ConstructMany(reg, 6);
    AllocIndicesAt(0, 6, 5);
    var h := handles[5];
    index := h.rcIndex;
    h.Enable();
    onByte := reg.rccr;
    onFlag := h.IsEnabled();
    h.Disable();
    offByte := reg.rccr;
    offFlag := h.IsEnabled();
    ControlByteExamples();
  }

  /** Disabling a channel after reading it keeps the cached pulse width:
      disable touches only the flag and the control register. */
  method ReadThenDisable(h: Rc, hi: bv8, lo: bv8) returns (pwm: bv16, cached: bv16, enabled: bool)
    requires h.reg.Valid() && IsSlotIndex(h.rcIndex)
    modifies h.reg`rccr, h.reg.rcs
    ensures h.reg.Valid()
    ensures cached == pwm && !enabled
    ensures pwm as int == hi as int * 256 + lo as int
    ensures h.reg.rccr == DisableCommand(h.rcIndex)
    ensures h.reg.rcs[h.rcIndex as int] == RcSlot(RcSettings(pwm, false))
    ensures forall j :: 0 <= j < h.reg.rcs.Length && j != h.rcIndex as int ==> h.reg.rcs[j] == old(h.reg.rcs[j])
  {
    pwm := h.GetPwm(hi, lo);
    h.Disable();
    cached := h.reg.rcs[h.rcIndex as int].settings.pwmRecv;
    enabled := h.IsEnabled();
  }
}
