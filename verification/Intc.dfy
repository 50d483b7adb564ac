/** Interrupt controller words (src/dev_intc.c). The devices share these words, one
    bit per source and the same bit for both cores. */
module Intc {

  datatype Lines = Lines(
    cpuStatus: bv32, copStatus: bv32, forced: bv32,
    cpuEnable: bv32, copEnable: bv32, cpuPriority: bv32, copPriority: bv32,
    hiCpuStatus: bv32, hiCopStatus: bv32, hiForced: bv32,
    hiCpuEnable: bv32, hiCopEnable: bv32, hiCpuPriority: bv32, hiCopPriority: bv32)

  const TIMER0: bv32 := 0x0000_0001
  const TIMER1: bv32 := 0x0000_0002
  const I2S: bv32 := 0x0000_0400
  const IDE: bv32 := 0x0080_0000
  const DMA: bv32 := 0x0400_0000
  const HI_SUMMARY: bv32 := 0x4000_0000

  /** Sets or clears one low source for both cores. */
  function SetLow(i: Lines, bit: bv32, on: bool): Lines {
    if on then i.(cpuStatus := i.cpuStatus | bit, copStatus := i.copStatus | bit)
    else i.(cpuStatus := i.cpuStatus & !bit, copStatus := i.copStatus & !bit)
  }

  /** Sets or clears one high source for both cores. */
  function SetHigh(i: Lines, bit: bv32, on: bool): Lines {
    if on then i.(hiCpuStatus := i.hiCpuStatus | bit, hiCopStatus := i.hiCopStatus | bit)
    else i.(hiCpuStatus := i.hiCpuStatus & !bit, hiCopStatus := i.hiCopStatus & !bit)
  }

  /** Both cores see the source asserted exactly when `on`. */
  predicate LowIs(i: Lines, bit: bv32, on: bool) {
    (i.cpuStatus & bit != 0 <==> on) && (i.copStatus & bit != 0 <==> on)
  }

  /** No source of any kind is pending. */
  predicate Silent(i: Lines) {
    i.cpuStatus == 0 && i.copStatus == 0 && i.forced == 0 &&
    i.hiCpuStatus == 0 && i.hiCopStatus == 0 && i.hiForced == 0
  }

  /** A source that is pending or forced, enabled, and routed this way. */
  predicate Selected(status: bv32, forced: bv32, enable: bv32, routed: bv32) {
    (status | forced) & enable & routed != 0
  }

  predicate CpuFiq(i: Lines) {
    Selected(i.cpuStatus, i.forced, i.cpuEnable, i.cpuPriority) ||
    Selected(i.hiCpuStatus, i.hiForced, i.hiCpuEnable, i.hiCpuPriority)
  }

  predicate CopFiq(i: Lines) {
    Selected(i.copStatus, i.forced, i.copEnable, i.copPriority) ||
    Selected(i.hiCopStatus, i.hiForced, i.hiCopEnable, i.hiCopPriority)
  }

  predicate CpuIrq(i: Lines) {
    Selected(i.cpuStatus, i.forced, i.cpuEnable, !i.cpuPriority) ||
    (i.cpuEnable & HI_SUMMARY != 0 &&
     Selected(i.hiCpuStatus, i.hiForced, i.hiCpuEnable, !i.hiCpuPriority))
  }

  predicate CopIrq(i: Lines) {
    Selected(i.copStatus, i.forced, i.copEnable, !i.copPriority) ||
    (i.copEnable & HI_SUMMARY != 0 &&
     Selected(i.hiCopStatus, i.hiForced, i.hiCopEnable, !i.hiCopPriority))
  }

  lemma NoneSelected(enable: bv32, routed: bv32)
    ensures !Selected(0, 0, enable, routed)
  {
  }

  lemma SilentCpuFiq(i: Lines)
    requires Silent(i)
    ensures !CpuFiq(i)
  {
    hide Selected;
    NoneSelected(i.cpuEnable, i.cpuPriority);
    NoneSelected(i.hiCpuEnable, i.hiCpuPriority);
  }

  lemma SilentCopFiq(i: Lines)
    requires Silent(i)
    ensures !CopFiq(i)
  {
    hide Selected;
    NoneSelected(i.copEnable, i.copPriority);
    NoneSelected(i.hiCopEnable, i.hiCopPriority);
  }

  lemma SilentCpuIrq(i: Lines)
    requires Silent(i)
    ensures !CpuIrq(i)
  {
    hide Selected;
    NoneSelected(i.cpuEnable, !i.cpuPriority);
    NoneSelected(i.hiCpuEnable, !i.hiCpuPriority);
  }

  lemma SilentCopIrq(i: Lines)
    requires Silent(i)
    ensures !CopIrq(i)
  {
    hide Selected;
    NoneSelected(i.copEnable, !i.copPriority);
    NoneSelected(i.hiCopEnable, !i.hiCopPriority);
  }

  lemma SilentSelectsNothing(i: Lines)
    requires Silent(i)
    ensures !CpuFiq(i) && !CopFiq(i) && !CpuIrq(i) && !CopIrq(i)
  {
    hide CpuFiq, CopFiq, CpuIrq, CopIrq;
    SilentCpuFiq(i);
    SilentCopFiq(i);
    SilentCpuIrq(i);
    SilentCopIrq(i);
  }

  /** Clearing a source that is not set changes nothing. */
  lemma ClearSilent(i: Lines, bit: bv32)
    requires Silent(i)
    ensures SetHigh(i, bit, false) == i && SetLow(i, bit, false) == i
  {
    ZeroStays(bit);
  }

  lemma ZeroStays(bit: bv32)
    ensures 0 as bv32 & !bit == 0
  {
  }

  /** The controller the devices share: they set and clear their own source bits in place. */
  class Controller {
    var lines: Lines

    constructor ()
      ensures Silent(lines)
    {
      lines := Lines(0, 0, 0, 0, 0, 0, 0, 0, 0, 0, 0, 0, 0, 0);
    }

    method Assert(bit: bv32)
      modifies this
      ensures lines == SetLow(old(lines), bit, true)
    {
      lines := lines.(cpuStatus := lines.cpuStatus | bit);
      lines := lines.(copStatus := lines.copStatus | bit);
    }

    method Deassert(bit: bv32)
      modifies this
      ensures lines == SetLow(old(lines), bit, false)
    {
      lines := lines.(cpuStatus := lines.cpuStatus & !bit);
      lines := lines.(copStatus := lines.copStatus & !bit);
    }
  }
}
