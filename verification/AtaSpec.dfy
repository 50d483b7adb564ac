/** The ATA disk (src/disk_ata.c) as a state machine on values: one function for each
    step of the controller. The class in AtaDevice.dfy is proved against these. */
module AtaSpec {
  import opened Words
  import Intc
  import Ram

  const ST_READY: Byte := 0x40
  const ST_IDLE: Byte := 0x50
  const ST_ERROR: Byte := 0x51
  const ST_DATA: Byte := 0x58
  const ST_BUSY: Byte := 0x80

  const ERR_ABORT: Byte := 0x04
  const ERR_NOT_FOUND: Byte := 0x10

  const SECTOR: nat := 512
  const MAX_SECTORS: nat := 0x0fff_ffff

  datatype Transfer = NoTransfer | Identify | PioRead | PioWrite | DmaRead | DmaWrite {
    predicate Dma() { DmaRead? || DmaWrite? }
    predicate Pio() { Identify? || PioRead? || PioWrite? }
  }

  /** The guest-visible taskfile. */
  datatype Taskfile = Taskfile(selectedLba: Word, sectorCount: Byte, device: Byte, error: Byte)

  /** The status byte and the flags of the busy phases. */
  datatype Phase = Phase(
    status: Byte,
    pioDataPending: bool,
    pioReadyIrq: bool,
    pioCompletionPending: bool,
    nondataPending: bool,
    resetAsserted: bool,
    resetPending: bool)

  /** The command being carried out: where it is and what is left. */
  datatype Progress = Progress(kind: Transfer, transferLba: Word, remaining: Half, dataIndex: Half)

  /** What a command without data does when it completes. */
  datatype Outcome = Outcome(error: Byte, updateMultiple: bool, multipleCount: Byte)

  datatype DmaRegs = DmaRegs(control: Word, status: Word, length: Word, addr: Word,
                             unknown: Word, pending: bool)

  /** The controller; `media` is the disk image, empty when none is loaded, and `identify`
      holds the 256 words the IDENTIFY command returns. */
  datatype Disk = Disk(
    media: seq<Byte>,
    identify: seq<Half>,
    multipleCount: Byte,
    task: Taskfile,
    phase: Phase,
    x: Progress,
    outcome: Outcome,
    dma: DmaRegs,
    ide0Cfg: Word,
    ide1Cfg: Word,
    irqPending: bool,
    deviceControl: Byte)

  /** The disk with the two things it shares with the rest of the machine. */
  datatype Ata = Ata(d: Disk, lines: Intc.Lines, ram: Ram.Memory)

  /** A state and the data bytes a step moved between the host and the disk, in order. */
  datatype Moved = Moved(a: Ata, bytes: seq<Byte>)

  // ---------------------------------------------------------------- capacity and media

  function Capacity(media: seq<Byte>): (r: nat)
    ensures 1 <= r <= MAX_SECTORS
  {
    var sectors := |media| / SECTOR;
    if sectors == 0 then 1 else if sectors > MAX_SECTORS then MAX_SECTORS else sectors
  }

  predicate InRange(d: Disk, lba: nat) {
    lba < Capacity(d.media)
  }

  /** Reads beyond the image give 0xff. */
  function ByteAt(media: seq<Byte>, limit: nat, i: nat): Byte
    requires limit <= |media|
  {
    if i < limit then media[i] else 0xff
  }

  function Window(media: seq<Byte>, limit: nat, off: nat, n: nat): (r: seq<Byte>)
    requires limit <= |media|
    ensures |r| == n
  {
    seq<Byte>(n, i requires 0 <= i < n => ByteAt(media, limit, off + i))
  }

  /** Writes at or beyond `limit` are dropped. */
  function Overlay(media: seq<Byte>, limit: nat, off: nat, bytes: seq<Byte>): (r: seq<Byte>)
    ensures |r| == |media|
  {
    seq(|media|, i requires 0 <= i < |media| =>
      if off <= i < off + |bytes| && i < limit then bytes[i - off] else media[i])
  }

  /** PIO moves whole words, and a word whose second byte is past the image is not there. */
  function WordLimit(media: seq<Byte>): (r: nat)
    ensures r <= |media|
  {
    |media| - |media| % 2
  }

  // ------------------------------------------------------------------------- IDENTIFY

  /** An ATA string: space padded, the two characters of each word swapped. */
  function StringWord(text: string, k: nat): Half {
    var hi := if 2 * k < |text| then text[2 * k] as nat % 0x100 else 0x20;
    var lo := if 2 * k + 1 < |text| then text[2 * k + 1] as nat % 0x100 else 0x20;
    lo + hi * 0x100
  }

  function IdentifyWord(sectors: nat, multiple: Byte, w: nat): Half {
    if w == 0 then 0x0040
    else if w == 1 || w == 54 then 16383
    else if w == 3 || w == 55 then 16
    else if w == 4 then 63 * 512
    else if w == 5 then 512
    else if w == 6 || w == 56 then 63
    else if 10 <= w < 20 then StringWord("NANO1G0001", w - 10)
    else if 23 <= w < 27 then StringWord("0.1", w - 23)
    else if 27 <= w < 47 then StringWord("NANO1G UNICORN DISK", w - 27)
    else if w == 47 then 0x8001
    else if w == 49 then 0x0700
    else if w == 51 || w == 52 then 0x0200
    else if w == 53 then 0x0003
    else if w == 57 || w == 60 then sectors % TWO_TO_16
    else if w == 58 || w == 61 then sectors / TWO_TO_16 % TWO_TO_16
    else if w == 59 then 0x0100 + multiple
    else if w == 63 || w == 64 then 0x0007
    else if 65 <= w <= 68 then 120
    else if w == 80 then 0x001e
    else if w == 83 then 0x4000
    else 0
  }

  function BuildIdentify(media: seq<Byte>, multiple: Byte): (r: seq<Half>)
    ensures |r| == 256
  {
    seq(256, w requires 0 <= w < 256 => IdentifyWord(Capacity(media), multiple, w))
  }

  // ------------------------------------------------------------------ phases of a command

  predicate NoIrqEnable(d: Disk) { Bit(d.deviceControl, 2) }

  predicate ResetBit(control: Byte) { Bit(control, 4) }

  predicate Drq(d: Disk) { Bit(d.phase.status, 8) }

  predicate Bsy(d: Disk) { Bit(d.phase.status, 0x80) }

  /** The IDE line of both cores shows a pending interrupt that is not disabled. */
  predicate IrqLine(a: Ata) {
    Intc.LowIs(a.lines, Intc.IDE, a.d.irqPending && !NoIrqEnable(a.d))
  }

  function SetIrq(a: Ata, pending: bool): (r: Ata)
    ensures IrqLine(r)
    ensures r.d == a.d.(irqPending := pending) && r.ram == a.ram
  {
    a.(d := a.d.(irqPending := pending),
       lines := Intc.SetLow(a.lines, Intc.IDE, pending && !NoIrqEnable(a.d)))
  }

  /** The phase flags with no command phase left. */
  function Settled(p: Phase, status: Byte): Phase {
    p.(status := status, pioDataPending := false, pioReadyIrq := false,
       pioCompletionPending := false, nondataPending := false)
  }

  /** No command: position and count are cleared, the transfer LBA stays. */
  function Stopped(x: Progress): Progress {
    Progress(NoTransfer, x.transferLba, 0, 0)
  }

  function Cancelled(d: Disk): Disk {
    d.(x := Stopped(d.x), phase := Settled(d.phase, d.phase.status),
       outcome := d.outcome.(error := 0, updateMultiple := false),
       dma := d.dma.(pending := false))
  }

  function Finished(d: Disk): Disk {
    d.(x := Stopped(d.x), phase := Settled(d.phase, ST_IDLE))
  }

  function AwaitingPio(d: Disk, raiseIrq: bool): Disk {
    d.(phase := Settled(d.phase, ST_BUSY).(pioDataPending := true, pioReadyIrq := raiseIrq))
  }

  function AwaitingCompletion(d: Disk): Disk {
    d.(phase := Settled(d.phase, ST_BUSY).(pioCompletionPending := true))
  }

  function AwaitingNondata(d: Disk, outcome: Outcome): Disk {
    d.(x := Stopped(d.x), phase := Settled(d.phase, ST_BUSY).(nondataPending := true),
       outcome := outcome, dma := d.dma.(pending := false))
  }

  function NondataDone(d: Disk): Disk {
    var apply := d.outcome.error == 0 && d.outcome.updateMultiple;
    var multiple := if apply then d.outcome.multipleCount else d.multipleCount;
    d.(multipleCount := multiple,
       identify := if apply then BuildIdentify(d.media, multiple) else d.identify,
       task := d.task.(error := d.outcome.error),
       x := Stopped(d.x),
       phase := Settled(d.phase, if d.outcome.error != 0 then ST_ERROR else ST_IDLE),
       outcome := d.outcome.(error := 0, updateMultiple := false))
  }

  function FinishTransfer(a: Ata, raiseIrq: bool): Ata {
    if raiseIrq then SetIrq(a.(d := Finished(a.d)), true) else a.(d := Finished(a.d))
  }

  function SchedulePioData(a: Ata, raiseIrq: bool): Ata {
    SetIrq(a.(d := AwaitingPio(a.d, raiseIrq)), false)
  }

  function SchedulePioCompletion(a: Ata): Ata {
    SetIrq(a.(d := AwaitingCompletion(a.d)), false)
  }

  function ScheduleNondata(a: Ata, outcome: Outcome): Ata {
    SetIrq(a.(d := AwaitingNondata(a.d, outcome)), false)
  }

  function CompleteNondata(a: Ata): Ata {
    SetIrq(a.(d := NondataDone(a.d)), true)
  }

  const NOT_FOUND: Outcome := Outcome(ERR_NOT_FOUND, false, 0)
  const ABORTED: Outcome := Outcome(ERR_ABORT, false, 0)

  // ------------------------------------------------------------------------ sector data

  /** The low nibble of the device register follows LBA bits 24 to 27. */
  function DeviceNibble(device: Byte, lba: Word): Byte {
    device / 16 * 16 + lba / 0x100_0000 % 16
  }

  /** The taskfile shows the transfer position after each whole sector. */
  function ShowPosition(t: Taskfile, x: Progress): Taskfile {
    t.(selectedLba := x.transferLba, sectorCount := x.remaining % 0x100,
       device := DeviceNibble(t.device, x.transferLba))
  }

  function NextSector(d: Disk): Disk {
    var x := d.x.(dataIndex := 0, transferLba := Add32(d.x.transferLba, 1),
                  remaining := if d.x.remaining > 0 then d.x.remaining - 1 else 0);
    d.(x := x, task := ShowPosition(d.task, x))
  }

  function Position(x: Progress): nat {
    x.transferLba * SECTOR + x.dataIndex
  }

  function Advance(d: Disk): Disk {
    d.(x := d.x.(dataIndex := (d.x.dataIndex + 2) % TWO_TO_16))
  }

  function ReadIdentifyWord(a: Ata): Moved {
    var k := a.d.x.dataIndex / 2;
    var w := if k < |a.d.identify| then a.d.identify[k] else 0;
    var b := a.(d := Advance(a.d));
    Moved(if b.d.x.dataIndex >= SECTOR then FinishTransfer(b, false) else b,
          [w % 0x100, w / 0x100])
  }

  /** After a whole PIO sector: done, off the end of the medium, or the next sector. */
  function SectorDone(n: Ata, write: bool): Ata {
    if n.d.x.remaining == 0 then
      if write then SchedulePioCompletion(n) else FinishTransfer(n, false)
    else if !InRange(n.d, n.d.x.transferLba) then ScheduleNondata(n, NOT_FOUND)
    else SchedulePioData(n, true)
  }

  function AfterWord(b: Ata, write: bool): Ata {
    if b.d.x.dataIndex < SECTOR then b else SectorDone(b.(d := NextSector(b.d)), write)
  }

  function ReadSectorWord(a: Ata): Moved {
    var off := Position(a.d.x);
    Moved(AfterWord(a.(d := Advance(a.d)), false),
          if off + 1 < |a.d.media| then [a.d.media[off], a.d.media[off + 1]]
          else [0xff, 0xff])
  }

  function WriteSectorWord(a: Ata, value: Half): Moved {
    var off := Position(a.d.x);
    var bytes := [value % 0x100, value / 0x100];
    var media := if off + 1 < |a.d.media|
                 then a.d.media[off := bytes[0]][off + 1 := bytes[1]] else a.d.media;
    Moved(AfterWord(a.(d := Advance(a.d).(media := media)), true), bytes)
  }

  /** One halfword from the data port; nothing moves unless data is being offered. */
  function DiskWord(a: Ata): Moved {
    if !Drq(a.d) then Moved(a, [])
    else if a.d.x.kind.Identify? then ReadIdentifyWord(a)
    else if a.d.x.kind.PioRead? then ReadSectorWord(a)
    else Moved(a, [])
  }

  function DataRead(a: Ata, size: nat): Moved {
    var lo := DiskWord(a);
    if size == 4 then
      var hi := DiskWord(lo.a);
      Moved(hi.a, lo.bytes + hi.bytes)
    else lo
  }

  /** The value the guest sees: 0xffff in place of a halfword that did not move. */
  function HalfSeen(m: Moved): Half {
    if |m.bytes| == 2 then Half16(m.bytes[0], m.bytes[1]) else 0xffff
  }

  function DataReadValue(a: Ata, size: nat): Word {
    var lo := DiskWord(a);
    if size == 4 then HalfSeen(lo) + HalfSeen(DiskWord(lo.a)) * TWO_TO_16 else HalfSeen(lo)
  }

  function DataWrite(a: Ata, size: nat, value: Word): Moved {
    if !Drq(a.d) || !a.d.x.kind.PioWrite? then Moved(a, [])
    else
      var lo := WriteSectorWord(a, value % TWO_TO_16);
      if size == 4 && Drq(lo.a.d) then
        var hi := WriteSectorWord(lo.a, value / TWO_TO_16);
        Moved(hi.a, lo.bytes + hi.bytes)
      else lo
  }

  // -------------------------------------------------------------------------------- DMA

  function ScheduleDma(d: Disk): Disk {
    d.(dma := d.dma.(pending := Bit(d.dma.control, 1) && d.x.kind.Dma()))
  }

  /** Bytes the command still has to move (never below zero in a reachable state). */
  function BytesLeft(x: Progress): nat {
    if x.remaining * SECTOR >= x.dataIndex then x.remaining * SECTOR - x.dataIndex else 0
  }

  function DmaRequested(d: Disk): nat {
    Min(d.dma.length + 4, BytesLeft(d.x))
  }

  /** The part of the request that lies on the medium. */
  function DmaOnMedium(d: Disk): nat {
    var logical := Capacity(d.media) * SECTOR;
    Min(DmaRequested(d), if Position(d.x) < logical then logical - Position(d.x) else 0)
  }

  function DmaMoved(x: Progress, bytes: nat): Progress {
    var total := x.dataIndex + bytes;
    var sectors := total / SECTOR;
    x.(dataIndex := total % SECTOR, transferLba := Add32(x.transferLba, sectors),
       remaining := if sectors >= x.remaining then 0 else x.remaining - sectors)
  }

  /** Registers after `bytes` bytes have been moved by DMA. */
  function DmaProgress(d: Disk, bytes: nat): Disk {
    var control := if Bit(d.dma.control, 0x8000_0000) then d.dma.control - 0x8000_0000
                   else d.dma.control;
    var x := DmaMoved(d.x, bytes);
    d.(dma := d.dma.(addr := Add32(d.dma.addr, bytes), length := 0, status := 0,
                     control := control),
       x := x, task := ShowPosition(d.task, x))
  }

  /** The data of a DMA chunk: RAM receives the medium or the medium receives RAM. */
  function DmaCopy(a: Ata, place: Ram.Place, bytes: nat): Moved
    requires Ram.Fits(a.ram, place, bytes)
  {
    var off := Position(a.d.x);
    if a.d.x.kind.DmaRead? then
      var chunk := Window(a.d.media, |a.d.media|, off, bytes);
      Moved(a.(ram := Ram.Store(a.ram, place, chunk)), chunk)
    else
      var chunk := Ram.Load(a.ram, place, bytes);
      Moved(a.(d := a.d.(media := Overlay(a.d.media, |a.d.media|, off, chunk))), chunk)
  }

  function DmaFailed(a: Ata, outcome: Outcome): Ata {
    ScheduleNondata(a.(d := a.d.(dma := a.d.dma.(status := 1))), outcome)
  }

  function AfterDma(b: Ata, cut: bool): Ata {
    if cut then DmaFailed(b, NOT_FOUND)
    else if b.d.x.remaining == 0 then FinishTransfer(b, true)
    else b
  }

  function DmaChunk(a: Ata): Moved {
    var bytes := DmaOnMedium(a.d);
    if bytes == 0 then Moved(DmaFailed(a, NOT_FOUND), [])
    else
      match Ram.Locate(a.ram.lowMapped, a.d.dma.addr, bytes)
      case None => Moved(DmaFailed(a, ABORTED), [])
      case Some(place) =>
        var copied := DmaCopy(a, place, bytes);
        Moved(AfterDma(copied.a.(d := DmaProgress(copied.a.d, bytes)),
                       bytes < DmaRequested(a.d)),
              copied.bytes)
  }

  function CompleteDma(a: Ata): Moved {
    if !Bit(a.d.dma.control, 1) || !a.d.x.kind.Dma() then Moved(a, [])
    else DmaChunk(a.(d := a.d.(dma := a.d.dma.(pending := false))))
  }

  // --------------------------------------------------------------------------- commands

  /** A count of zero asks for 256 sectors. */
  function Sectors(count: Byte): nat {
    if count == 0 then 256 else count
  }

  function Open(d: Disk, kind: Transfer): Disk {
    d.(task := d.task.(error := 0),
       x := Progress(kind, d.task.selectedLba, Sectors(d.task.sectorCount), 0))
  }

  function StartIdentify(a: Ata): Ata {
    SchedulePioData(
      a.(d := a.d.(identify := BuildIdentify(a.d.media, a.d.multipleCount),
                   task := a.d.task.(error := 0),
                   x := a.d.x.(dataIndex := 0, remaining := 1, kind := Identify))), true)
  }

  function StartPio(a: Ata, kind: Transfer): Ata {
    if !InRange(a.d, a.d.task.selectedLba) then ScheduleNondata(a, NOT_FOUND)
    else SchedulePioData(a.(d := Open(a.d, kind)), kind.PioRead?)
  }

  function StartDma(a: Ata, kind: Transfer): Ata {
    if !InRange(a.d, a.d.task.selectedLba) then ScheduleNondata(a, NOT_FOUND)
    else
      var d := Open(a.d, kind);
      var b := SetIrq(a.(d := d.(phase := Settled(d.phase, ST_DATA))), false);
      b.(d := ScheduleDma(b.d))
  }

  /** A multiple-mode command is rejected until the guest has enabled multiple mode. */
  function StartMultiple(a: Ata, kind: Transfer): Ata {
    if a.d.multipleCount == 0 then ScheduleNondata(a, ABORTED) else StartPio(a, kind)
  }

  function SetMultiple(a: Ata): Ata {
    ScheduleNondata(a, if a.d.task.sectorCount <= 1
                       then Outcome(0, true, a.d.task.sectorCount) else ABORTED)
  }

  function Command(a: Ata, code: Byte): Ata {
    if code == 0xec then StartIdentify(a)
    else if code == 0x20 || code == 0x24 then StartPio(a, PioRead)
    else if code == 0xc4 then StartMultiple(a, PioRead)
    else if code == 0x30 || code == 0x34 then StartPio(a, PioWrite)
    else if code == 0xc5 then StartMultiple(a, PioWrite)
    else if code == 0xc8 || code == 0xc9 then StartDma(a, DmaRead)
    else if code == 0xca || code == 0xcb then StartDma(a, DmaWrite)
    else if code == 0xc6 then SetMultiple(a)
    else if code == 0xef || code == 0xe0 || code == 0xe7 then
      ScheduleNondata(a, Outcome(0, false, 0))
    else ScheduleNondata(a, ABORTED)
  }

  // ------------------------------------------------------------------ soft reset and tick

  function AssertReset(a: Ata): Ata {
    var d := Cancelled(a.d);
    SetIrq(a.(d := d.(phase := d.phase.(resetAsserted := true, resetPending := false,
                                        status := ST_BUSY))), false)
  }

  function ReleaseReset(a: Ata): Ata {
    SetIrq(a.(d := a.d.(phase := a.d.phase.(resetAsserted := false, resetPending := true,
                                            status := ST_BUSY))), false)
  }

  function CompleteReset(a: Ata): Ata {
    var d := Cancelled(a.d);
    SetIrq(a.(d := d.(phase := d.phase.(resetPending := false, status := ST_IDLE),
                      task := Taskfile(1, 1, 0, 1), x := d.x.(transferLba := 1),
                      multipleCount := 0, identify := BuildIdentify(d.media, 0))), false)
  }

  function DeviceControl(a: Ata, value: Byte): Ata {
    var previous := a.d.deviceControl;
    var b := a.(d := a.d.(deviceControl := value));
    if ResetBit(value) then
      if !ResetBit(previous) || b.d.phase.resetPending then AssertReset(b)
      else SetIrq(b, false)
    else if ResetBit(previous) then ReleaseReset(b)
    else SetIrq(b, b.d.irqPending)
  }

  function NondataTick(a: Ata): Ata {
    if a.d.phase.nondataPending then CompleteNondata(a) else a
  }

  function CompletionTick(a: Ata): Ata {
    if a.d.phase.pioCompletionPending then FinishTransfer(a, true) else a
  }

  function PioTick(a: Ata): Ata {
    if !a.d.phase.pioDataPending then a
    else
      var b := SetIrq(a.(d := a.d.(phase := a.d.phase.(pioDataPending := false,
                                                       status := ST_DATA))),
                      a.d.phase.pioReadyIrq);
      b.(d := b.d.(phase := b.d.phase.(pioReadyIrq := false)))
  }

  function Tick(a: Ata): Moved {
    if a.d.phase.resetAsserted then Moved(a, [])
    else if a.d.phase.resetPending then Moved(CompleteReset(a), [])
    else
      var b := PioTick(CompletionTick(NondataTick(a)));
      if b.d.dma.pending then CompleteDma(b) else Moved(b, [])
  }

  // -------------------------------------------------------------------------- registers

  datatype Reg = Data | Error | Count | LbaLow | LbaMid | LbaHigh | Device | CommandStatus | NoReg

  /** The taskfile answers at 0x1e0 with a stride of 4 and again from offset 0. */
  function TaskfileReg(offset: nat): Reg {
    if offset == 0x1e0 || offset == 0x00 then Data
    else if offset == 0x1e4 || offset == 0x04 then Error
    else if offset == 0x1e8 || offset == 0x08 then Count
    else if offset == 0x1ec || offset == 0x0c then LbaLow
    else if offset == 0x1f0 || offset == 0x10 then LbaMid
    else if offset == 0x1f4 || offset == 0x14 then LbaHigh
    else if offset == 0x1f8 || offset == 0x18 then Device
    else if offset == 0x1fc || offset == 0x1c then CommandStatus
    else NoReg
  }

  const IDE0_CFG: nat := 0x28
  const IDE1_CFG: nat := 0x2c
  const ALT_STATUS: nat := 0x3f8
  const DMA_CONTROL: nat := 0x400
  const DMA_STATUS: nat := 0x404
  const DMA_LENGTH: nat := 0x408
  const DMA_ADDR: nat := 0x40c
  const DMA_UNKNOWN: nat := 0x410

  /** Replaces the byte of weight `weight` in the selected LBA. */
  function SetLbaByte(lba: Word, weight: nat, value: Byte): Word
    requires weight == 1 || weight == 0x100 || weight == 0x1_0000
  {
    lba / (weight * 0x100) * (weight * 0x100) + value * weight + lba % weight
  }

  function ClearIdeBits(value: Word): Word {
    value - value / 8 % 4 * 8
  }

  /** Two bits of this register show the pending interrupt. */
  function Ide0Value(cfg: Word, pending: bool): Word {
    ClearIdeBits(cfg) + if pending then 0x18 else 0
  }

  /** Bit 3 of this register always reads as set. */
  function Ide1Stored(value: Word): Word {
    if Bit(value, 8) then value else value + 8
  }

  function ReadReg(a: Ata, offset: nat, size: nat): Moved {
    match TaskfileReg(offset)
    case Data => DataRead(a, size)
    case CommandStatus => Moved(SetIrq(a, false), [])
    case _ => Moved(a, [])
  }

  function ReadValue(a: Ata, offset: nat, size: nat): Word {
    var d := a.d;
    if offset == IDE0_CFG then Ide0Value(d.ide0Cfg, d.irqPending)
    else if offset == IDE1_CFG then d.ide1Cfg
    else if offset == ALT_STATUS then d.phase.status
    else if offset == DMA_CONTROL then d.dma.control
    else if offset == DMA_STATUS then d.dma.status
    else if offset == DMA_LENGTH then d.dma.length
    else if offset == DMA_ADDR then d.dma.addr
    else if offset == DMA_UNKNOWN then d.dma.unknown
    else
      match TaskfileReg(offset)
      case Data => DataReadValue(a, size)
      case Error => d.task.error
      case Count => d.task.sectorCount
      case LbaLow => d.task.selectedLba % 0x100
      case LbaMid => d.task.selectedLba / 0x100 % 0x100
      case LbaHigh => d.task.selectedLba / 0x1_0000 % 0x100
      case Device => d.task.device
      case CommandStatus => d.phase.status
      case NoReg => 0
  }

  function WriteTask(t: Taskfile, reg: Reg, low: Byte): Taskfile {
    match reg
    case Error => t.(error := low)
    case Count => t.(sectorCount := low)
    case LbaLow => t.(selectedLba := SetLbaByte(t.selectedLba, 1, low))
    case LbaMid => t.(selectedLba := SetLbaByte(t.selectedLba, 0x100, low))
    case LbaHigh => t.(selectedLba := SetLbaByte(t.selectedLba, 0x1_0000, low))
    case Device =>
      t.(device := low, selectedLba := t.selectedLba % 0x100_0000 + low % 16 * 0x100_0000)
    case _ => t
  }

  function WriteTaskfile(a: Ata, reg: Reg, size: nat, value: Word): Moved {
    match reg
    case Data => DataWrite(a, size, value)
    case CommandStatus => Moved(Command(a, value % 0x100), [])
    case _ => Moved(a.(d := a.d.(task := WriteTask(a.d.task, reg, value % 0x100))), [])
  }

  function WriteReg(a: Ata, offset: nat, size: nat, value: Word): Moved {
    var d := a.d;
    if offset == IDE0_CFG then
      var b := if value / 8 % 4 != 0 then SetIrq(a, false) else a;
      Moved(b.(d := b.d.(ide0Cfg := ClearIdeBits(value))), [])
    else if offset == IDE1_CFG then
      Moved(a.(d := d.(ide1Cfg := Ide1Stored(value))), [])
    else if offset == ALT_STATUS then Moved(DeviceControl(a, value % 0x100), [])
    else if offset == DMA_CONTROL then
      Moved(a.(d := ScheduleDma(d.(dma := d.dma.(control := value)))), [])
    else if offset == DMA_STATUS then Moved(a.(d := d.(dma := d.dma.(status := value))), [])
    else if offset == DMA_LENGTH then Moved(a.(d := d.(dma := d.dma.(length := value))), [])
    else if offset == DMA_ADDR then Moved(a.(d := d.(dma := d.dma.(addr := value))), [])
    else if offset == DMA_UNKNOWN then Moved(a.(d := d.(dma := d.dma.(unknown := value))), [])
    else if d.phase.resetAsserted || d.phase.resetPending then Moved(a, [])
    else WriteTaskfile(a, TaskfileReg(offset), size, value)
  }

  // -------------------------------------------------------------------------------- runs

  /** Everything that can happen to the disk: a device tick, a guest access to its
      registers, or the guest changing its own RAM. */
  datatype Op =
    | OpTick
    | OpRead(offset: nat, size: nat)
    | OpWrite(offset: nat, size: nat, value: Word)
    | OpRam(ram: Ram.Memory)

  function Step(a: Ata, op: Op): Moved {
    match op
    case OpTick => Tick(a)
    case OpRead(offset, size) => ReadReg(a, offset, size)
    case OpWrite(offset, size, value) => WriteReg(a, offset, size, value)
    case OpRam(ram) => Moved(a.(ram := ram), [])
  }

  function Run(a: Ata, ops: seq<Op>): Moved
    decreases |ops|
  {
    if ops == [] then Moved(a, [])
    else
      var first := Step(a, ops[0]);
      var rest := Run(first.a, ops[1..]);
      Moved(rest.a, first.bytes + rest.bytes)
  }
}
