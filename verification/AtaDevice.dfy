/** The disk controller in its own form: fields, the disk image and guest memory are changed
    in place. Every method is proved against the function of the same step in AtaSpec. */
module AtaDevice {
  import opened Words
  import Spec = AtaSpec
  import Invariant = AtaInvariant
  import Intc
  import Ram

  class Device {
    const media: array<Byte>
    const identify: array<Half>
    const intc: Intc.Controller
    const ram: Ram.Dram
    var multipleCount: Byte
    var task: Spec.Taskfile
    var phase: Spec.Phase
    var x: Spec.Progress
    var outcome: Spec.Outcome
    var dma: Spec.DmaRegs
    var ide0Cfg: Word
    var ide1Cfg: Word
    var irqPending: bool
    var deviceControl: Byte

    /** A controller with an image loaded, or none of it when it is empty. */
    constructor (media: array<Byte>, intc: Intc.Controller, ram: Ram.Dram)
      requires ram.Valid() && media != ram.sdram && media != ram.fast
      ensures Valid() && fresh(identify) && this.media == media && this.intc == intc && this.ram == ram
      ensures Value() == Invariant.PowerOn(media[..], intc.lines, ram.Value())
    {
      this.media, this.intc, this.ram := media, intc, ram;
      identify := new Half[256];
      multipleCount, irqPending, deviceControl, ide0Cfg, ide1Cfg := 0, false, 0, 0, 0;
      task := Spec.Taskfile(0, 0, 0, 0);
      phase := Spec.Phase(Spec.ST_READY, false, false, false, false, false, false);
      x, outcome := Spec.Progress(Spec.NoTransfer, 0, 0, 0), Spec.Outcome(0, false, 0);
      dma := Spec.DmaRegs(0, 0, 0, 0, 0, false);
      new;
      BuildIdentify();
    }

    ghost predicate Valid() {
      identify.Length == 256 && ram.Valid() && media != ram.sdram && media != ram.fast
    }

    ghost function Disk(): Spec.Disk
      reads this, media, identify
    {
      Spec.Disk(media[..], identify[..], multipleCount, task, phase, x, outcome, dma, ide0Cfg,
                ide1Cfg, irqPending, deviceControl)
    }

    ghost function Value(): Spec.Ata
      requires Valid()
      reads this, media, identify, intc, ram, ram.sdram, ram.fast
    {
      Spec.Ata(Disk(), intc.lines, ram.Value())
    }

    function Capacity(): nat
      reads media
    {
      var sectors := media.Length / Spec.SECTOR;
      if sectors == 0 then 1 else if sectors > Spec.MAX_SECTORS then Spec.MAX_SECTORS else sectors
    }

    function InRange(lba: nat): bool
      reads media
    {
      lba < Capacity()
    }

    // ------------------------------------------------------------------------- the pieces

    method SetIrq(pending: bool)
      requires Valid()
      modifies this`irqPending, intc
      ensures Value() == Spec.SetIrq(old(Value()), pending)
    {
      irqPending := pending;
      if pending && !Bit(deviceControl, 2) {
        intc.Assert(Intc.IDE);
      } else {
        intc.Deassert(Intc.IDE);
      }
    }

    method CancelTransfer()
      requires Valid()
      modifies this
      ensures Disk() == Spec.Cancelled(old(Disk()))
    {
      x := x.(kind := Spec.NoTransfer);
      dma := dma.(pending := false);
      phase := phase.(pioDataPending := false, pioReadyIrq := false, pioCompletionPending := false,
                      nondataPending := false);
      outcome := outcome.(updateMultiple := false, error := 0);
      x := x.(dataIndex := 0, remaining := 0);
    }

    method BuildIdentify()
      requires Valid()
      modifies identify
      ensures identify[..] == Spec.BuildIdentify(media[..], multipleCount)
    {
      hide Spec.IdentifyWord;
      var sectors := Capacity();
      forall w | 0 <= w < 256 {
        identify[w] := Spec.IdentifyWord(sectors, multipleCount, w);
      }
    }

    method FinishTransfer(raiseIrq: bool)
      requires Valid()
      modifies this, intc
      ensures Value() == Spec.FinishTransfer(old(Value()), raiseIrq)
    {
      hide Intc.SetLow;
      phase := phase.(status := Spec.ST_IDLE);
      x := x.(kind := Spec.NoTransfer);
      phase := phase.(pioDataPending := false, pioReadyIrq := false, pioCompletionPending := false,
                      nondataPending := false);
      x := x.(dataIndex := 0, remaining := 0);
      if raiseIrq {
        SetIrq(true);
      }
    }

    method SchedulePioData(raiseIrq: bool)
      requires Valid()
      modifies this, intc
      ensures Value() == Spec.SchedulePioData(old(Value()), raiseIrq)
    {
      hide Intc.SetLow;
      phase := phase.(status := Spec.ST_BUSY, pioDataPending := true, pioReadyIrq := raiseIrq,
                      pioCompletionPending := false, nondataPending := false);
      SetIrq(false);
    }

    method SchedulePioCompletion()
      requires Valid()
      modifies this, intc
      ensures Value() == Spec.SchedulePioCompletion(old(Value()))
    {
      hide Intc.SetLow;
      phase := phase.(status := Spec.ST_BUSY, pioDataPending := false, pioReadyIrq := false,
                      pioCompletionPending := true, nondataPending := false);
      SetIrq(false);
    }

    method ScheduleNondata(what: Spec.Outcome)
      requires Valid()
      modifies this, intc
      ensures Value() == Spec.ScheduleNondata(old(Value()), what)
    {
      hide Intc.SetLow;
      outcome := what;
      phase := phase.(status := Spec.ST_BUSY);
      x := x.(kind := Spec.NoTransfer);
      phase := phase.(pioDataPending := false, pioReadyIrq := false, pioCompletionPending := false,
                      nondataPending := true);
      dma := dma.(pending := false);
      x := x.(dataIndex := 0, remaining := 0);
      SetIrq(false);
    }

    method CompleteNondata()
      requires Valid()
      modifies this, identify, intc
      ensures Value() == Spec.CompleteNondata(old(Value()))
    {
      hide Intc.SetLow, Spec.BuildIdentify;
      var error := outcome.error;
      if error == 0 && outcome.updateMultiple {
        multipleCount := outcome.multipleCount;
        BuildIdentify();
      }
      task := task.(error := error);
      phase := phase.(status := if error != 0 then Spec.ST_ERROR else Spec.ST_IDLE,
                      pioDataPending := false, pioReadyIrq := false, pioCompletionPending := false,
                      nondataPending := false);
      x := x.(kind := Spec.NoTransfer, dataIndex := 0, remaining := 0);
      outcome := outcome.(updateMultiple := false, error := 0);
      SetIrq(true);
    }

    // -------------------------------------------------------------------- the data port

    method ReadIdentifyWord() returns (r: Half)
      requires Valid()
      modifies this, intc
      ensures var m := Spec.ReadIdentifyWord(old(Value()));
              Value() == m.a && r == Spec.HalfSeen(m)
    {
      hide Intc.SetLow;
      r := if x.dataIndex / 2 < identify.Length then identify[x.dataIndex / 2] else 0;
      x := x.(dataIndex := (x.dataIndex + 2) % TWO_TO_16);
      if x.dataIndex >= 2 * identify.Length {
        FinishTransfer(false);
      }
    }

    /** The bookkeeping after a whole sector. */
    method EndSector(write: bool)
      requires Valid()
      modifies this, intc
      ensures Value() == Spec.SectorDone(old(Value()).(d := Spec.NextSector(old(Disk()))), write)
    {
      hide Intc.SetLow, Spec.FinishTransfer, Spec.ScheduleNondata, Spec.SchedulePioData,
           Spec.SchedulePioCompletion;
      x := x.(dataIndex := 0, transferLba := Add32(x.transferLba, 1));
      if x.remaining > 0 {
        x := x.(remaining := x.remaining - 1);
      }
      task := task.(selectedLba := x.transferLba, sectorCount := x.remaining % 0x100,
                    device := task.device / 16 * 16 + x.transferLba / 0x100_0000 % 16);
      if x.remaining == 0 {
        if write {
          SchedulePioCompletion();
        } else {
          FinishTransfer(false);
        }
      } else if !InRange(x.transferLba) {
        ScheduleNondata(Spec.NOT_FOUND);
      } else {
        SchedulePioData(true);
      }
    }

    method ReadSectorWord() returns (r: Half)
      requires Valid()
      modifies this, intc
      ensures var m := Spec.ReadSectorWord(old(Value()));
              Value() == m.a && r == Spec.HalfSeen(m)
    {
      hide Intc.SetLow, Spec.SectorDone;
      var off := x.transferLba * Spec.SECTOR + x.dataIndex;
      r := 0xffff;
      if off + 1 < media.Length {
        r := Half16(media[off], media[off + 1]);
      }
      x := x.(dataIndex := (x.dataIndex + 2) % TWO_TO_16);
      if x.dataIndex >= Spec.SECTOR {
        EndSector(false);
      }
    }

    method WriteSectorWord(value: Half)
      requires Valid()
      modifies this, media, intc
      ensures Value() == Spec.WriteSectorWord(old(Value()), value).a
    {
      hide Intc.SetLow, Spec.SectorDone;
      var off := x.transferLba * Spec.SECTOR + x.dataIndex;
      ghost var image := media[..];
      if off + 1 < media.Length {
        media[off] := value % 0x100;
        media[off + 1] := value / 0x100;
        image := image[off := value % 0x100][off + 1 := value / 0x100];
      }
      assert media[..] == image;
      x := x.(dataIndex := (x.dataIndex + 2) % TWO_TO_16);
      if x.dataIndex >= Spec.SECTOR {
        EndSector(true);
      }
    }

    method DiskWord() returns (r: Half)
      requires Valid()
      modifies this, intc
      ensures var m := Spec.DiskWord(old(Value()));
              Value() == m.a && r == Spec.HalfSeen(m)
    {
      hide Spec.ReadIdentifyWord, Spec.ReadSectorWord;
      if !Bit(phase.status, 8) { return 0xffff; }
      if x.kind.Identify? {
        r := ReadIdentifyWord();
      } else if x.kind.PioRead? {
        r := ReadSectorWord();
      } else {
        r := 0xffff;
      }
    }

    method DataRead(size: nat) returns (r: Word)
      requires Valid()
      modifies this, intc
      ensures Value() == Spec.DataRead(old(Value()), size).a
      ensures r == Spec.DataReadValue(old(Value()), size)
    {
      hide Spec.DiskWord, Spec.HalfSeen;
      var lo := DiskWord();
      r := lo;
      if size == 4 {
        var hi := DiskWord();
        r := lo + TWO_TO_16 * hi;
      }
    }

    method DataWrite(size: nat, value: Word)
      requires Valid()
      modifies this, media, intc
      ensures Value() == Spec.DataWrite(old(Value()), size, value).a
    {
      hide Spec.WriteSectorWord;
      if !Bit(phase.status, 8) || !x.kind.PioWrite? { return; }
      WriteSectorWord(value % TWO_TO_16);
      if size == 4 && Bit(phase.status, 8) {
        WriteSectorWord(value / TWO_TO_16);
      }
    }

    // -------------------------------------------------------------------------------- DMA

    method ScheduleDma()
      requires Valid()
      modifies this`dma
      ensures Disk() == Spec.ScheduleDma(old(Disk()))
    {
      dma := dma.(pending := Bit(dma.control, 1) && (x.kind.DmaRead? || x.kind.DmaWrite?));
    }

    /** Copies the image to memory; what lies beyond the image reads as 0xff. */
    method CopyToRam(place: Ram.Place, off: nat, bytes: nat)
      requires Valid() && Ram.Fits(ram.Value(), place, bytes)
      modifies ram.sdram, ram.fast
      ensures ram.Value() == Ram.Store(old(ram.Value()), place,
                                       Spec.Window(media[..], media.Length, off, bytes))
    {
      hide Spec.Window, Ram.Patch;
      if place.Sdram? {
        CopyWindow(media, ram.sdram, place.off, off, bytes);
        assert ram.fast[..] == old(ram.fast[..]);
      } else {
        CopyWindow(media, ram.fast, place.off, off, bytes);
        assert ram.sdram[..] == old(ram.sdram[..]);
      }
    }

    static method CopyWindow(image: array<Byte>, bank: array<Byte>, at: nat, off: nat, bytes: nat)
      requires image != bank && at + bytes <= bank.Length
      modifies bank
      ensures bank[..] == Ram.Patch(old(bank[..]), at, Spec.Window(image[..], image.Length, off, bytes))
    {
      hide Ram.Patch;
      ghost var was, source := bank[..], image[..];
      for i := 0 to bytes
        invariant forall j | 0 <= j < bank.Length ::
                    bank[j] == if at <= j < at + i then Spec.ByteAt(source, |source|, off + j - at) else was[j]
      {
        bank[at + i] := if off + i < image.Length then image[off + i] else 0xff;
      }
      ghost var chunk := Spec.Window(source, |source|, off, bytes);
      assert bank[..] == Ram.Patch(was, at, chunk);
    }

    /** Copies memory to the image; what lies beyond the image is dropped. */
    method CopyFromRam(place: Ram.Place, off: nat, bytes: nat)
      requires Valid() && Ram.Fits(ram.Value(), place, bytes)
      modifies media
      ensures media[..] == Spec.Overlay(old(media[..]), media.Length, off,
                                        Ram.Load(ram.Value(), place, bytes))
    {
      var bank := ram.Of(place);
      ghost var was := media[..];
      var copied := if off >= media.Length then 0 else Min(media.Length - off, bytes);
      for i := 0 to copied
        invariant forall k | off <= k < off + i :: media[k] == bank[place.off + (k - off)]
        invariant forall k | 0 <= k < media.Length && !(off <= k < off + i) :: media[k] == was[k]
      {
        media[off + i] := bank[place.off + i];
      }
      ghost var chunk := Ram.Load(ram.Value(), place, bytes);
      ghost var all := Spec.Overlay(was, media.Length, off, chunk);
      forall k | 0 <= k < media.Length ensures media[k] == all[k] {
        if off <= k < off + bytes {
          assert chunk[k - off] == bank[place.off + (k - off)];
        }
      }
    }

    method FailDma(what: Spec.Outcome)
      requires Valid()
      modifies this, intc
      ensures Value() == Spec.DmaFailed(old(Value()), what)
    {
      hide Spec.ScheduleNondata;
      dma := dma.(status := 1);
      ScheduleNondata(what);
    }

    /** The registers after a chunk. */
    method CountDma(bytes: nat)
      requires Valid()
      modifies this
      ensures Disk() == Spec.DmaProgress(old(Disk()), bytes)
    {
      dma := dma.(addr := Add32(dma.addr, bytes), length := 0, status := 0,
                  control := if Bit(dma.control, 0x8000_0000) then dma.control - 0x8000_0000
                             else dma.control);
      var total := x.dataIndex + bytes;
      var sectors := total / Spec.SECTOR;
      x := x.(dataIndex := total % Spec.SECTOR, transferLba := Add32(x.transferLba, sectors),
              remaining := if sectors >= x.remaining then 0 else x.remaining - sectors);
      task := task.(selectedLba := x.transferLba, sectorCount := x.remaining % 0x100,
                    device := task.device / 16 * 16 + x.transferLba / 0x100_0000 % 16);
    }

    method EndDma(cut: bool)
      requires Valid()
      modifies this, intc
      ensures Value() == Spec.AfterDma(old(Value()), cut)
    {
      hide Spec.DmaFailed, Spec.FinishTransfer;
      if cut {
        FailDma(Spec.NOT_FOUND);
      } else if x.remaining == 0 {
        FinishTransfer(true);
      }
    }

    /** The sizes of a chunk: what is asked for, and the part of it on the medium. */
    method DmaSizes() returns (requested: nat, bytes: nat)
      requires Valid()
      ensures requested == Spec.DmaRequested(Disk()) && bytes == Spec.DmaOnMedium(Disk())
    {
      requested := Min(dma.length + 4, Spec.BytesLeft(x));
      var off := x.transferLba * Spec.SECTOR + x.dataIndex;
      var logical := Capacity() * Spec.SECTOR;
      bytes := Min(requested, if off < logical then logical - off else 0);
    }

    method CopyChunk(place: Ram.Place, bytes: nat)
      requires Valid() && Ram.Fits(ram.Value(), place, bytes)
      modifies media, ram.sdram, ram.fast
      ensures Value() == Spec.DmaCopy(old(Value()), place, bytes).a
    {
      hide Spec.Window, Spec.Overlay, Ram.Store, Ram.Load;
      var off := x.transferLba * Spec.SECTOR + x.dataIndex;
      if x.kind.DmaRead? {
        CopyToRam(place, off, bytes);
        assert media[..] == old(media[..]);
      } else {
        CopyFromRam(place, off, bytes);
        assert ram.Value() == old(ram.Value());
      }
    }

    method CompleteDma()
      requires Valid()
      modifies this, media, intc, ram.sdram, ram.fast
      ensures Value() == Spec.CompleteDma(old(Value())).a
    {
      hide Spec.DmaCopy, Spec.DmaFailed, Spec.AfterDma, Spec.DmaProgress, Spec.DmaRequested,
           Spec.DmaOnMedium, Ram.Locate;
      if !Bit(dma.control, 1) || !(x.kind.DmaRead? || x.kind.DmaWrite?) { return; }
      dma := dma.(pending := false);
      var requested, bytes := DmaSizes();
      if bytes == 0 {
        FailDma(Spec.NOT_FOUND);
        return;
      }
      var found := Ram.Locate(ram.lowMapped, dma.addr, bytes);
      if found.None? {
        FailDma(Spec.ABORTED);
        return;
      }
      CopyChunk(found.value, bytes);
      CountDma(bytes);
      EndDma(bytes < requested);
    }

    // --------------------------------------------------------------------------- commands

    method StartIdentify()
      requires Valid()
      modifies this, identify, intc
      ensures Value() == Spec.StartIdentify(old(Value()))
    {
      hide Spec.BuildIdentify, Spec.SchedulePioData;
      BuildIdentify();
      task := task.(error := 0);
      x := x.(dataIndex := 0, remaining := 1, kind := Spec.Identify);
      SchedulePioData(true);
    }

    method OpenTransfer(kind: Spec.Transfer)
      requires Valid()
      modifies this
      ensures Disk() == Spec.Open(old(Disk()), kind)
    {
      var count: Half := if task.sectorCount == 0 then 256 else task.sectorCount;
      task := task.(error := 0);
      x := Spec.Progress(kind, task.selectedLba, count, 0);
    }

    /** Reading and writing by PIO differ in the interrupt for the first sector. */
    method StartPio(kind: Spec.Transfer)
      requires Valid()
      modifies this, intc
      ensures Value() == Spec.StartPio(old(Value()), kind)
    {
      hide Spec.Open, Spec.SchedulePioData, Spec.ScheduleNondata;
      if !InRange(task.selectedLba) {
        ScheduleNondata(Spec.NOT_FOUND);
        return;
      }
      OpenTransfer(kind);
      SchedulePioData(kind.PioRead?);
    }

    method StartDma(kind: Spec.Transfer)
      requires Valid()
      modifies this, intc
      ensures Value() == Spec.StartDma(old(Value()), kind)
    {
      hide Spec.Open, Spec.ScheduleNondata, Spec.SetIrq, Spec.ScheduleDma;
      if !InRange(task.selectedLba) {
        ScheduleNondata(Spec.NOT_FOUND);
        return;
      }
      OpenTransfer(kind);
      phase := phase.(status := Spec.ST_DATA, pioDataPending := false, pioReadyIrq := false,
                      pioCompletionPending := false, nondataPending := false);
      SetIrq(false);
      ScheduleDma();
    }

    method Command(code: Byte)
      requires Valid()
      modifies this, identify, intc
      ensures Value() == Spec.Command(old(Value()), code)
    {
      hide Spec.StartIdentify, Spec.StartPio, Spec.StartDma, Spec.ScheduleNondata;
      match code {
        case 0xec => StartIdentify();
        case 0x20 | 0x24 => StartPio(Spec.PioRead);
        case 0xc4 => if multipleCount == 0 { ScheduleNondata(Spec.ABORTED); } else { StartPio(Spec.PioRead); }
        case 0x30 | 0x34 => StartPio(Spec.PioWrite);
        case 0xc5 => if multipleCount == 0 { ScheduleNondata(Spec.ABORTED); } else { StartPio(Spec.PioWrite); }
        case 0xc8 | 0xc9 => StartDma(Spec.DmaRead);
        case 0xca | 0xcb => StartDma(Spec.DmaWrite);
        case 0xc6 =>
          if task.sectorCount <= 1 {
            ScheduleNondata(Spec.Outcome(0, true, task.sectorCount));
          } else {
            ScheduleNondata(Spec.ABORTED);
          }
        case 0xef | 0xe0 | 0xe7 => ScheduleNondata(Spec.Outcome(0, false, 0));
        case _ => ScheduleNondata(Spec.ABORTED);
      }
    }

    // ---------------------------------------------------------------- soft reset and tick

    method AssertReset()
      requires Valid()
      modifies this, intc
      ensures Value() == Spec.AssertReset(old(Value()))
    {
      hide Spec.Cancelled, Spec.SetIrq;
      CancelTransfer();
      phase := phase.(resetAsserted := true, resetPending := false, status := Spec.ST_BUSY);
      SetIrq(false);
    }

    method ReleaseReset()
      requires Valid()
      modifies this, intc
      ensures Value() == Spec.ReleaseReset(old(Value()))
    {
      hide Spec.SetIrq;
      phase := phase.(resetAsserted := false, resetPending := true, status := Spec.ST_BUSY);
      SetIrq(false);
    }

    method CompleteReset()
      requires Valid()
      modifies this, identify, intc
      ensures Value() == Spec.CompleteReset(old(Value()))
    {
      hide Spec.BuildIdentify, Spec.SetIrq;
      CancelTransfer();
      phase := phase.(resetPending := false);
      task := Spec.Taskfile(1, 1, 0, 1);
      x := x.(transferLba := 1);
      multipleCount := 0;
      phase := phase.(status := Spec.ST_IDLE);
      BuildIdentify();
      SetIrq(false);
    }

    method WriteControl(value: Byte)
      requires Valid()
      modifies this, intc
      ensures Value() == Spec.DeviceControl(old(Value()), value)
    {
      hide Spec.SetIrq, Spec.AssertReset, Spec.ReleaseReset;
      var previous := deviceControl;
      deviceControl := value;
      if Bit(value, 4) {
        if !Bit(previous, 4) || phase.resetPending {
          AssertReset();
        } else {
          SetIrq(false);
        }
      } else if Bit(previous, 4) {
        ReleaseReset();
      } else {
        SetIrq(irqPending);
      }
    }

    method FinishPhases()
      requires Valid()
      modifies this, identify, intc
      ensures Value() == Spec.PioTick(Spec.CompletionTick(Spec.NondataTick(old(Value()))))
    {
      hide Spec.SetIrq, Spec.CompleteNondata, Spec.FinishTransfer;
      if phase.nondataPending {
        CompleteNondata();
      }
      if phase.pioCompletionPending {
        FinishTransfer(true);
      }
      if phase.pioDataPending {
        phase := phase.(pioDataPending := false, status := Spec.ST_DATA);
        SetIrq(phase.pioReadyIrq);
        phase := phase.(pioReadyIrq := false);
      }
    }

    method Tick()
      requires Valid()
      modifies this, media, identify, intc, ram.sdram, ram.fast
      ensures Value() == Spec.Tick(old(Value())).a
    {
      hide Spec.CompleteReset, Spec.PioTick, Spec.CompletionTick, Spec.NondataTick, Spec.CompleteDma;
      if phase.resetAsserted { return; }
      if phase.resetPending {
        CompleteReset();
        return;
      }
      FinishPhases();
      if dma.pending {
        CompleteDma();
      }
    }

    // -------------------------------------------------------------------------- registers

    method Read(offset: nat, size: nat) returns (r: Word)
      requires Valid()
      modifies this, intc
      ensures Value() == Spec.ReadReg(old(Value()), offset, size).a
      ensures r == Spec.ReadValue(old(Value()), offset, size)
    {
      hide Spec.SetIrq, Spec.DataRead, Spec.DataReadValue, Spec.Ide0Value;
      match offset {
        case 0x28 => return Spec.Ide0Value(ide0Cfg, irqPending);
        case 0x2c => return ide1Cfg;
        case 0x3f8 => return phase.status;
        case 0x400 => return dma.control;
        case 0x404 => return dma.status;
        case 0x408 => return dma.length;
        case 0x40c => return dma.addr;
        case 0x410 => return dma.unknown;
        case _ =>
      }
      match Spec.TaskfileReg(offset) {
        case Data => r := DataRead(size);
        case Error => r := task.error;
        case Count => r := task.sectorCount;
        case LbaLow => r := task.selectedLba % 0x100;
        case LbaMid => r := task.selectedLba / 0x100 % 0x100;
        case LbaHigh => r := task.selectedLba / 0x1_0000 % 0x100;
        case Device => r := task.device;
        case CommandStatus =>
          r := phase.status;
          SetIrq(false);
        case NoReg => r := 0;
      }
    }

    method Write(offset: nat, size: nat, value: Word)
      requires Valid()
      modifies this, media, identify, intc
      ensures Value() == Spec.WriteReg(old(Value()), offset, size, value).a
    {
      hide Spec.SetIrq, Spec.DataWrite, Spec.ClearIdeBits, Spec.DeviceControl, Spec.Command,
           Spec.ScheduleDma, Spec.WriteTask;
      match offset {
        case 0x28 =>
          if value / 8 % 4 != 0 {
            SetIrq(false);
          }
          ide0Cfg := Spec.ClearIdeBits(value);
          return;
        case 0x2c => ide1Cfg := Spec.Ide1Stored(value); return;
        case 0x3f8 => WriteControl(value % 0x100); return;
        case 0x400 => dma := dma.(control := value); ScheduleDma(); return;
        case 0x404 => dma := dma.(status := value); return;
        case 0x408 => dma := dma.(length := value); return;
        case 0x40c => dma := dma.(addr := value); return;
        case 0x410 => dma := dma.(unknown := value); return;
        case _ =>
      }
      if phase.resetAsserted || phase.resetPending { return; }
      match Spec.TaskfileReg(offset) {
        case Data => DataWrite(size, value);
        case CommandStatus => Command(value % 0x100);
        case _ => task := Spec.WriteTask(task, Spec.TaskfileReg(offset), value % 0x100);
      }
    }
  }
}
