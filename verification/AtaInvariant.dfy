/** What holds in every reachable state of the disk: the phases of a command, the status
    byte, the interrupt line, and how busy phases and resets end. */
module AtaInvariant {
  import opened Words
  import opened AtaSpec
  import Intc
  import Ram

  function One(b: bool): nat {
    if b then 1 else 0
  }

  /** How many of the five busy phases hold. */
  function Phases(p: Phase): nat {
    One(p.pioDataPending) + One(p.pioCompletionPending) + One(p.nondataPending) +
    One(p.resetAsserted) + One(p.resetPending)
  }

  /** BSY is shown exactly during the five phases, at most one of which holds. */
  predicate PhaseShape(p: Phase) {
    (p.status == ST_READY || p.status == ST_IDLE || p.status == ST_ERROR ||
     p.status == ST_DATA || p.status == ST_BUSY) &&
    Phases(p) <= 1 && (p.status == ST_BUSY <==> Phases(p) == 1)
  }

  /** A sector of PIO data is being prepared or offered. */
  predicate PioOpen(p: Phase, x: Progress, limit: nat) {
    (p.pioDataPending || p.status == ST_DATA) && 1 <= x.remaining <= 256 &&
    x.transferLba < limit && x.dataIndex < SECTOR && x.dataIndex % 2 == 0
  }

  /** What an open transfer of each kind looks like on a medium of `capacity` sectors. */
  predicate TransferShape(p: Phase, x: Progress, capacity: nat) {
    match x.kind
    case NoTransfer => p.status != ST_DATA && !p.pioDataPending && !p.pioCompletionPending
    case Identify => PioOpen(p, x, TWO_TO_32) && x.remaining == 1
    case PioRead => PioOpen(p, x, capacity)
    case PioWrite =>
      (p.pioCompletionPending && x.remaining == 0 && x.dataIndex == 0) ||
      PioOpen(p, x, capacity)
    case _ =>
      p.status == ST_DATA && 1 <= x.remaining <= 256 && x.dataIndex < SECTOR &&
      Position(x) <= capacity * SECTOR
  }

  predicate Shape(d: Disk) {
    PhaseShape(d.phase) &&
    TransferShape(d.phase, d.x, Capacity(d.media)) &&
    (d.phase.resetAsserted <==> ResetBit(d.deviceControl)) &&
    |d.identify| == 256
  }

  predicate Inv(a: Ata) {
    IrqLine(a) && Shape(a.d)
  }

  /** The controller after the image has been loaded and before any guest access. */
  function PowerOn(media: seq<Byte>, lines: Intc.Lines, ram: Ram.Memory): Ata {
    Ata(Disk(media, BuildIdentify(media, 0), 0, Taskfile(0, 0, 0, 0),
             Phase(ST_READY, false, false, false, false, false, false),
             Progress(NoTransfer, 0, 0, 0), Outcome(0, false, 0),
             DmaRegs(0, 0, 0, 0, 0, false), 0, 0, false, 0), lines, ram)
  }

  lemma PowerOnInv(media: seq<Byte>, lines: Intc.Lines, ram: Ram.Memory)
    requires Intc.LowIs(lines, Intc.IDE, false)
    ensures Inv(PowerOn(media, lines, ram))
  {
  }

  // -------------------------------------------------------------- the shape of the state

  /** A PIO sector is open and its data is being offered, up to its last word. */
  predicate InSector(d: Disk, write: bool) {
    PhaseShape(d.phase) && d.phase.status == ST_DATA && !ResetBit(d.deviceControl) &&
    |d.identify| == 256 && d.x.kind == (if write then PioWrite else PioRead) &&
    1 <= d.x.remaining <= 256 && d.x.transferLba < Capacity(d.media) &&
    d.x.dataIndex <= SECTOR && d.x.dataIndex % 2 == 0
  }

  lemma AfterWordShape(b: Ata, write: bool)
    requires InSector(b.d, write)
    ensures Shape(AfterWord(b, write).d)
    ensures write && Drq(AfterWord(b, write).d) ==> AfterWord(b, write).d.x.kind.PioWrite?
  {
    hide SetIrq;
  }

  lemma DiskWordShape(a: Ata)
    requires Shape(a.d)
    ensures Shape(DiskWord(a).a.d)
  {
    hide AfterWord;
    if a.d.phase.status == ST_DATA && a.d.x.kind.PioRead? {
      AfterWordShape(a.(d := Advance(a.d)), false);
    }
  }

  lemma WriteWordShape(a: Ata, value: Half)
    requires Shape(a.d) && Drq(a.d) && a.d.x.kind.PioWrite?
    ensures Shape(WriteSectorWord(a, value).a.d)
    ensures Drq(WriteSectorWord(a, value).a.d) ==> WriteSectorWord(a, value).a.d.x.kind.PioWrite?
  {
    hide AfterWord;
    var off := Position(a.d.x);
    var media := if off + 1 < |a.d.media|
                 then a.d.media[off := value % 0x100][off + 1 := value / 0x100] else a.d.media;
    AfterWordShape(a.(d := Advance(a.d).(media := media)), true);
  }

  lemma DataReadShape(a: Ata, size: nat)
    requires Shape(a.d)
    ensures Shape(DataRead(a, size).a.d)
  {
    hide DiskWord;
    DiskWordShape(a);
    DiskWordShape(DiskWord(a).a);
  }

  lemma DataWriteShape(a: Ata, size: nat, value: Word)
    requires Shape(a.d)
    ensures Shape(DataWrite(a, size, value).a.d)
  {
    hide WriteSectorWord;
    if Drq(a.d) && a.d.x.kind.PioWrite? {
      WriteWordShape(a, value % TWO_TO_16);
      var lo := WriteSectorWord(a, value % TWO_TO_16);
      if Drq(lo.a.d) {
        WriteWordShape(lo.a, value / TWO_TO_16);
      }
    }
  }

  /** A DMA chunk moves the position by its length and the count by whole sectors. */
  lemma DmaMovedPosition(x: Progress, bytes: nat)
    requires x.remaining <= 256 && x.dataIndex < SECTOR && x.transferLba <= MAX_SECTORS
    requires bytes + x.dataIndex <= x.remaining * SECTOR
    ensures Position(DmaMoved(x, bytes)) == Position(x) + bytes
    ensures DmaMoved(x, bytes).kind == x.kind && DmaMoved(x, bytes).dataIndex < SECTOR
    ensures DmaMoved(x, bytes).remaining <= x.remaining
    ensures BytesLeft(DmaMoved(x, bytes)) == BytesLeft(x) - bytes
    ensures DmaMoved(x, bytes).remaining * SECTOR >= DmaMoved(x, bytes).dataIndex
  {
    assert (x.dataIndex + bytes) / SECTOR <= x.remaining;
  }

  lemma AfterDmaShape(b: Ata, cut: bool)
    requires PhaseShape(b.d.phase) && b.d.phase.status == ST_DATA
    requires !ResetBit(b.d.deviceControl) && |b.d.identify| == 256 && b.d.x.kind.Dma()
    requires b.d.x.remaining <= 256 && b.d.x.dataIndex < SECTOR
    requires Position(b.d.x) <= Capacity(b.d.media) * SECTOR
    ensures Shape(AfterDma(b, cut).d)
  {
    hide SetIrq;
  }

  lemma DmaChunkShape(a: Ata)
    requires Shape(a.d) && a.d.x.kind.Dma()
    ensures Shape(DmaChunk(a).a.d)
  {
    hide SetIrq, ShowPosition, Window, Overlay, Ram.Store, Ram.Load, Ram.Locate, AfterDma;
    var bytes := DmaOnMedium(a.d);
    DmaMovedPosition(a.d.x, bytes);
    hide DmaMoved;
    if bytes != 0 && Ram.Locate(a.ram.lowMapped, a.d.dma.addr, bytes).Some? {
      var copied := DmaCopy(a, Ram.Locate(a.ram.lowMapped, a.d.dma.addr, bytes).value, bytes);
      AfterDmaShape(copied.a.(d := DmaProgress(copied.a.d, bytes)), bytes < DmaRequested(a.d));
    }
  }

  lemma TickShape(a: Ata)
    requires Shape(a.d)
    ensures Shape(Tick(a).a.d)
  {
    hide SetIrq, DmaChunk, BuildIdentify;
    if !a.d.phase.resetAsserted && !a.d.phase.resetPending {
      var b := NondataTick(a);
      assert Shape(b.d);
      var c := CompletionTick(b);
      assert Shape(c.d);
      var e := PioTick(c);
      assert Shape(e.d);
      if e.d.x.kind.Dma() {
        DmaChunkShape(e.(d := e.d.(dma := e.d.dma.(pending := false))));
      }
    }
  }

  lemma StartShape(a: Ata, kind: Transfer)
    requires Shape(a.d) && !a.d.phase.resetAsserted && !a.d.phase.resetPending
    ensures kind.PioRead? || kind.PioWrite? ==> Shape(StartPio(a, kind).d)
    ensures kind.Dma() ==> Shape(StartDma(a, kind).d)
  {
    hide SetIrq, ShowPosition;
  }

  lemma NondataShape(a: Ata, outcome: Outcome)
    requires Shape(a.d) && !a.d.phase.resetAsserted && !a.d.phase.resetPending
    ensures Shape(ScheduleNondata(a, outcome).d)
  {
    hide SetIrq;
  }

  lemma CommandShape(a: Ata, code: Byte)
    requires Shape(a.d) && !a.d.phase.resetAsserted && !a.d.phase.resetPending
    ensures Shape(Command(a, code).d)
  {
    hide SetIrq, BuildIdentify, StartPio, StartDma;
    NondataShape(a, ABORTED);
    NondataShape(a, Outcome(0, false, 0));
    NondataShape(a, Outcome(0, true, a.d.task.sectorCount));
    hide ScheduleNondata;
    StartShape(a, PioRead);
    StartShape(a, PioWrite);
    StartShape(a, DmaRead);
    StartShape(a, DmaWrite);
  }

  lemma DeviceControlShape(a: Ata, value: Byte)
    requires Shape(a.d)
    ensures Shape(DeviceControl(a, value).d)
  {
    hide SetIrq;
  }

  lemma WriteRegShape(a: Ata, offset: nat, size: nat, value: Word)
    requires Shape(a.d)
    ensures Shape(WriteReg(a, offset, size, value).a.d)
  {
    hide SetIrq, DataWrite, DeviceControl, Command, WriteTask, ClearIdeBits;
    DataWriteShape(a, size, value);
    DeviceControlShape(a, value % 0x100);
    if !a.d.phase.resetAsserted && !a.d.phase.resetPending {
      CommandShape(a, value % 0x100);
    }
  }

  lemma StepShape(a: Ata, op: Op)
    requires Shape(a.d)
    ensures Shape(Step(a, op).a.d)
  {
    hide Tick, SetIrq, WriteReg, DataRead;
    match op
    case OpTick => TickShape(a);
    case OpRead(offset, size) => DataReadShape(a, size);
    case OpWrite(offset, size, value) => WriteRegShape(a, offset, size, value);
    case OpRam(ram) =>
  }

  // ------------------------------------------------------------------ the interrupt line

  lemma AfterWordLine(b: Ata, write: bool)
    requires IrqLine(b)
    ensures IrqLine(AfterWord(b, write))
  {
    hide SetIrq;
  }

  lemma DiskWordLine(a: Ata)
    requires IrqLine(a)
    ensures IrqLine(DiskWord(a).a)
  {
    hide AfterWord;
    AfterWordLine(a.(d := Advance(a.d)), false);
  }

  lemma WriteWordLine(a: Ata, value: Half)
    requires IrqLine(a)
    ensures IrqLine(WriteSectorWord(a, value).a)
  {
    hide AfterWord;
    var b := WriteSectorWord(a, value).a;
    forall m: seq<Byte> ensures IrqLine(AfterWord(a.(d := Advance(a.d).(media := m)), true)) {
      AfterWordLine(a.(d := Advance(a.d).(media := m)), true);
    }
  }

  lemma DmaChunkLine(a: Ata)
    requires IrqLine(a)
    ensures IrqLine(DmaChunk(a).a)
  {
    hide SetIrq, ShowPosition, Window, Overlay, Ram.Store, Ram.Load, Ram.Locate, DmaMoved;
  }

  lemma TickLine(a: Ata)
    requires IrqLine(a)
    ensures IrqLine(Tick(a).a)
  {
    hide SetIrq, DmaChunk, BuildIdentify;
    var e := PioTick(CompletionTick(NondataTick(a)));
    DmaChunkLine(e.(d := e.d.(dma := e.d.dma.(pending := false))));
  }

  lemma CommandLine(a: Ata, code: Byte)
    ensures IrqLine(Command(a, code))
  {
    hide SetIrq, BuildIdentify;
  }

  lemma DataWriteLine(a: Ata, size: nat, value: Word)
    requires IrqLine(a)
    ensures IrqLine(DataWrite(a, size, value).a)
  {
    hide WriteSectorWord;
    WriteWordLine(a, value % TWO_TO_16);
    WriteWordLine(WriteSectorWord(a, value % TWO_TO_16).a, value / TWO_TO_16);
  }

  lemma WriteRegLine(a: Ata, offset: nat, size: nat, value: Word)
    requires IrqLine(a)
    ensures IrqLine(WriteReg(a, offset, size, value).a)
  {
    hide SetIrq, DataWrite, Command, WriteTask, ClearIdeBits, TaskfileReg, Cancelled;
    DataWriteLine(a, size, value);
    CommandLine(a, value % 0x100);
  }

  lemma StepLine(a: Ata, op: Op)
    requires IrqLine(a)
    ensures IrqLine(Step(a, op).a)
  {
    hide SetIrq, DiskWord, Tick, WriteReg, TaskfileReg;
    match op
    case OpTick => TickLine(a);
    case OpRead(offset, size) =>
      DiskWordLine(a);
      DiskWordLine(DiskWord(a).a);
    case OpWrite(offset, size, value) => WriteRegLine(a, offset, size, value);
    case OpRam(ram) =>
  }

  // ---------------------------------------------------------------------- reachable states

  /** Whatever the guest does, every reachable state of the disk satisfies the invariant. */
  lemma {:induction false} RunInv(a: Ata, ops: seq<Op>)
    requires Inv(a)
    ensures Inv(Run(a, ops).a)
    decreases |ops|
  {
    if ops != [] {
      hide Step;
      StepShape(a, ops[0]);
      StepLine(a, ops[0]);
      RunInv(Step(a, ops[0]).a, ops[1..]);
    }
  }

  /** The phases, the status byte and the interrupt line in every reachable state. */
  lemma ReachableStates(media: seq<Byte>, lines: Intc.Lines, ram: Ram.Memory, ops: seq<Op>)
    requires Intc.LowIs(lines, Intc.IDE, false)
    ensures var a := Run(PowerOn(media, lines, ram), ops).a; var p := a.d.phase;
            && Phases(p) <= 1
            && (Bsy(a.d) <==> p.pioDataPending || p.pioCompletionPending ||
                              p.nondataPending || p.resetAsserted || p.resetPending)
            && (Drq(a.d) ==> !a.d.x.kind.NoTransfer? && a.d.x.remaining >= 1 &&
                             a.d.x.dataIndex < SECTOR)
            && Intc.LowIs(a.lines, Intc.IDE, a.d.irqPending && !NoIrqEnable(a.d))
  {
    hide Run, Intc.LowIs;
    PowerOnInv(media, lines, ram);
    RunInv(PowerOn(media, lines, ram), ops);
  }

  /** A busy phase without SRST held lasts until the next tick and no longer. */
  lemma BusyEndsOnTick(a: Ata)
    requires Inv(a) && !ResetBit(a.d.deviceControl) && Bsy(a.d)
    ensures !Bsy(Tick(a).a.d) && Phases(Tick(a).a.d.phase) == 0
  {
    hide SetIrq, DmaChunk, BuildIdentify;
  }

  // ---------------------------------------------------------------------------- soft reset

  /** The ATA signature left by a reset, with nothing in progress. */
  predicate Signature(d: Disk) {
    d.task == Taskfile(1, 1, 0, 1) && d.x == Progress(NoTransfer, 1, 0, 0) &&
    d.phase == Phase(ST_IDLE, false, false, false, false, false, false) &&
    d.multipleCount == 0 && d.identify == BuildIdentify(d.media, 0) &&
    !d.dma.pending && !d.irqPending && d.outcome.error == 0 && !d.outcome.updateMultiple
  }

  /** `op` is not a device-control write, or one whose SRST bit is `srst`. */
  predicate Srst(op: Op, srst: bool) {
    op.OpWrite? && op.offset == ALT_STATUS ==> ResetBit(op.value % 0x100) == srst
  }

  lemma ResetStep(a: Ata, op: Op)
    requires Inv(a) && (a.d.phase.resetAsserted || a.d.phase.resetPending)
    requires Srst(op, a.d.phase.resetAsserted) && (a.d.phase.resetPending ==> !op.OpTick?)
    ensures StillReset(a, Step(a, op))
  {
    hide Inv, StillReset, ReadReg, WriteReg, CompleteDma, NondataTick, CompletionTick, PioTick;
    match op
    case OpTick => ResetIdles(a, a.ram);
    case OpRead(offset, size) => ResetRead(a, offset, size);
    case OpWrite(offset, size, value) => ResetWrite(a, offset, size, value);
    case OpRam(ram) => ResetIdles(a, ram);
  }

  /** No data has moved and the reset is as far as it was. */
  predicate StillReset(a: Ata, r: Moved) {
    r.a.d.media == a.d.media && r.bytes == [] &&
    r.a.d.phase.resetAsserted == a.d.phase.resetAsserted &&
    r.a.d.phase.resetPending == a.d.phase.resetPending
  }

  lemma ResetIdles(a: Ata, ram: Ram.Memory)
    ensures StillReset(a, Moved(a, [])) && StillReset(a, Moved(a.(ram := ram), []))
  {
  }

  lemma ResetRead(a: Ata, offset: nat, size: nat)
    requires Inv(a) && (a.d.phase.resetAsserted || a.d.phase.resetPending)
    ensures StillReset(a, ReadReg(a, offset, size))
  {
    hide SetIrq, TaskfileReg, ReadSectorWord, ReadIdentifyWord;
  }

  lemma ResetWrite(a: Ata, offset: nat, size: nat, value: Word)
    requires Inv(a) && (a.d.phase.resetAsserted || a.d.phase.resetPending)
    requires Srst(OpWrite(offset, size, value), a.d.phase.resetAsserted)
    ensures StillReset(a, WriteReg(a, offset, size, value))
  {
    hide SetIrq, WriteTaskfile, ClearIdeBits, Ide1Stored;
  }

  lemma {:induction false} ResetRun(a: Ata, ops: seq<Op>)
    requires Inv(a) && (a.d.phase.resetAsserted || a.d.phase.resetPending)
    requires forall op | op in ops ::
               Srst(op, a.d.phase.resetAsserted) && (a.d.phase.resetPending ==> !op.OpTick?)
    ensures var r := Run(a, ops);
            Inv(r.a) && r.a.d.media == a.d.media && r.bytes == [] &&
            r.a.d.phase.resetAsserted == a.d.phase.resetAsserted &&
            r.a.d.phase.resetPending == a.d.phase.resetPending
    decreases |ops|
  {
    if ops != [] {
      hide Step, Inv;
      ResetStep(a, ops[0]);
      RunInv(a, [ops[0]]);
      assert Run(a, [ops[0]]).a == Step(a, ops[0]).a;
      ResetRun(Step(a, ops[0]).a, ops[1..]);
    }
  }

  /** Asserting SRST in any reachable state, holding it for any run of accesses and ticks,
      releasing it, and then the next tick after any run of accesses: the disk shows the
      signature, no data moved and the medium is as it was. */
  lemma ResetReachesSignature(a: Ata, on: Byte, held: seq<Op>, off: Byte, after: seq<Op>)
    requires Inv(a) && ResetBit(on) && !ResetBit(off)
    requires forall op | op in held :: Srst(op, true)
    requires forall op | op in after :: Srst(op, false) && !op.OpTick?
    ensures var first := Run(DeviceControl(a, on), held);
            var second := Run(DeviceControl(first.a, off), after);
            var last := Tick(second.a);
            Signature(last.a.d) && last.a.d.media == a.d.media && Inv(last.a) &&
            first.bytes + second.bytes + last.bytes == []
  {
    hide SetIrq, BuildIdentify, Step, Run;
    DeviceControlShape(a, on);
    ResetRun(DeviceControl(a, on), held);
    var first := Run(DeviceControl(a, on), held).a;
    DeviceControlShape(first, off);
    ResetRun(DeviceControl(first, off), after);
    var second := Run(DeviceControl(first, off), after).a;
    TickShape(second);
    TickLine(second);
  }
}
