/** What a media command moves, however the guest splits it: the exact bytes, once each and
    in order, up to the end of the medium, for PIO and DMA, reading and writing. */
module AtaTransfer {
  import opened Words
  import opened AtaSpec
  import opened AtaInvariant
  import Ram

  /** An accepted media command and the medium it started on. */
  datatype Request = Request(kind: Transfer, lba: nat, count: nat, media: seq<Byte>)

  predicate Accepted(c: Request) {
    !c.kind.NoTransfer? && !c.kind.Identify? && c.lba < Capacity(c.media) &&
    1 <= c.count <= 256
  }

  predicate Writes(c: Request) {
    c.kind.PioWrite? || c.kind.DmaWrite?
  }

  function Limit(c: Request): (r: nat)
    ensures r <= |c.media|
  {
    if c.kind.Dma() then |c.media| else WordLimit(c.media)
  }

  /** The sectors of the request that lie on the medium. */
  function Available(c: Request): nat
    requires Accepted(c)
  {
    Min(c.count, Capacity(c.media) - c.lba)
  }

  /** The medium and the bytes moved so far agree with the request. */
  predicate Content(media: seq<Byte>, c: Request, moved: seq<Byte>) {
    if Writes(c) then media == Overlay(c.media, Limit(c), c.lba * SECTOR, moved)
    else media == c.media && moved == Window(c.media, Limit(c), c.lba * SECTOR, |moved|)
  }

  /** Moving: data is left. Closing: the last written sector is being completed.
      Done: success. Failing and Failed: the end of the medium was reached, before and after
      the tick that reports it. Aborting and Aborted: a DMA buffer was not in RAM. */
  datatype Stage = Moving | Closing | Done | Failing | Failed | Aborting | Aborted

  /** The taskfile shows `lba` and `count`. */
  predicate Shows(t: Taskfile, lba: nat, count: nat) {
    t.selectedLba == lba && t.sectorCount == count % 0x100
  }

  /** No busy phase and no transfer, with this status. */
  predicate Settles(d: Disk, status: Byte) {
    d.x.kind.NoTransfer? && d.phase.status == status && Phases(d.phase) == 0
  }

  predicate Reporting(d: Disk, error: Byte) {
    d.x.kind.NoTransfer? && d.phase.nondataPending && Phases(d.phase) == 1 &&
    d.outcome.error == error
  }

  /** The transfer is open and `n` bytes in: position and count account for every byte. */
  predicate Open512(x: Progress, c: Request, n: nat) {
    x.kind == c.kind && x.remaining >= 1 &&
    Position(x) == c.lba * SECTOR + n && x.remaining * SECTOR == c.count * SECTOR - n + x.dataIndex
  }

  /** The request is at a stage after `n` bytes; `quiet` says the guest has not rewritten
      the taskfile since the command. */
  predicate At(d: Disk, c: Request, n: nat, quiet: bool, stage: Stage)
    requires Accepted(c)
  {
    n <= Available(c) * SECTOR &&
    match stage
    case Moving =>
      Open512(d.x, c, n) &&
      (c.kind.Pio() ==> n < Available(c) * SECTOR) &&
      (quiet ==> Shows(d.task, d.x.transferLba, d.x.remaining))
    case Closing =>
      c.kind.PioWrite? && d.x.kind.PioWrite? && d.phase.pioCompletionPending &&
      n == c.count * SECTOR && (quiet ==> Shows(d.task, c.lba + c.count, 0))
    case Done =>
      Settles(d, ST_IDLE) && n == c.count * SECTOR &&
      (quiet ==> Shows(d.task, c.lba + c.count, 0))
    case Failing =>
      Reporting(d, ERR_NOT_FOUND) && CutShort(c, n) &&
      (quiet ==> Shows(d.task, Capacity(c.media), c.count - Available(c)))
    case Failed =>
      Settles(d, ST_ERROR) && CutShort(c, n) &&
      (quiet ==> d.task.error == ERR_NOT_FOUND &&
                 Shows(d.task, Capacity(c.media), c.count - Available(c)))
    case Aborting =>
      Reporting(d, ERR_ABORT) && c.kind.Dma() && n < Available(c) * SECTOR
    case Aborted =>
      Settles(d, ST_ERROR) && c.kind.Dma() && n < Available(c) * SECTOR &&
      (quiet ==> d.task.error == ERR_ABORT)
  }

  /** Exactly the part of the request on the medium was moved, and that is not all of it. */
  predicate CutShort(c: Request, n: nat)
    requires Accepted(c)
  {
    n == Available(c) * SECTOR && Available(c) < c.count
  }

  /** `a` is a state the request can be in after moving `moved`. */
  predicate Track(a: Ata, c: Request, moved: seq<Byte>, quiet: bool) {
    Accepted(c) && Shape(a.d) && Content(a.d.media, c, moved) &&
    exists stage :: At(a.d, c, |moved|, quiet, stage)
  }

  // ------------------------------------------------------------------- moved bytes compose

  lemma WindowAppend(media: seq<Byte>, limit: nat, off: nat, m: nat, n: nat)
    requires limit <= |media|
    ensures Window(media, limit, off, m + n) ==
            Window(media, limit, off, m) + Window(media, limit, off + m, n)
  {
  }

  /** One more piece of a read or of a write extends the content. */
  lemma ContentAppend(media: seq<Byte>, c: Request, moved: seq<Byte>, piece: seq<Byte>)
    requires Content(media, c, moved)
    ensures Writes(c) ==>
              Content(Overlay(media, Limit(c), c.lba * SECTOR + |moved|, piece), c, moved + piece)
    ensures !Writes(c) && piece == Window(media, Limit(c), c.lba * SECTOR + |moved|, |piece|) ==>
              Content(media, c, moved + piece)
  {
    if !Writes(c) {
      WindowAppend(c.media, Limit(c), c.lba * SECTOR, |moved|, |piece|);
    }
  }

  // -------------------------------------------------------------------------- PIO words

  /** After a word: `b` has counted it but not yet looked at the sector boundary. */
  lemma AfterWordStage(b: Ata, c: Request, n: nat, quiet: bool)
    requires Accepted(c) && c.kind == (if Writes(c) then PioWrite else PioRead)
    requires Capacity(b.d.media) == Capacity(c.media)
    requires InSector(b.d, Writes(c)) && 0 < b.d.x.dataIndex && Open512(b.d.x, c, n)
    requires quiet ==> Shows(b.d.task, b.d.x.transferLba, b.d.x.remaining)
    ensures exists stage :: At(AfterWord(b, Writes(c)).d, c, n, quiet, stage)
  {
    hide SetIrq, DeviceNibble;
    var r := AfterWord(b, Writes(c)).d;
    if b.d.x.dataIndex < SECTOR {
      assert At(r, c, n, quiet, Moving);
    } else if b.d.x.remaining == 1 {
      assert At(r, c, n, quiet, if Writes(c) then Closing else Done);
    } else if b.d.x.transferLba + 1 == Capacity(c.media) {
      assert At(r, c, n, quiet, Failing);
    } else {
      assert At(r, c, n, quiet, Moving);
    }
  }

  lemma WordOnMedium(media: seq<Byte>, off: nat, value: Half)
    requires off % 2 == 0
    ensures off + 1 < |media| <==> off < WordLimit(media)
    ensures Window(media, WordLimit(media), off, 2) ==
            (if off + 1 < |media| then [media[off], media[off + 1]] else [0xff, 0xff])
    ensures Overlay(media, WordLimit(media), off, [value % 0x100, value / 0x100]) ==
            (if off + 1 < |media|
             then media[off := value % 0x100][off + 1 := value / 0x100] else media)
  {
    var w := Window(media, WordLimit(media), off, 2);
    assert off < WordLimit(media) <==> off + 1 < WordLimit(media);
    assert w == [w[0], w[1]];
    assert w[0] == ByteAt(media, WordLimit(media), off);
    assert w[1] == ByteAt(media, WordLimit(media), off + 1);
  }

  /** Only an open transfer offers data. */
  lemma OfferedIsMoving(a: Ata, c: Request, moved: seq<Byte>, quiet: bool)
    requires Track(a, c, moved, quiet) && !a.d.x.kind.NoTransfer? && a.d.phase.status == ST_DATA
    ensures At(a.d, c, |moved|, quiet, Moving) && a.d.x.kind == c.kind
  {
  }

  lemma AfterWordTrack(b: Ata, c: Request, moved: seq<Byte>, quiet: bool)
    requires Accepted(c) && c.kind == (if Writes(c) then PioWrite else PioRead)
    requires Content(b.d.media, c, moved)
    requires InSector(b.d, Writes(c)) && 0 < b.d.x.dataIndex && Open512(b.d.x, c, |moved|)
    requires quiet ==> Shows(b.d.task, b.d.x.transferLba, b.d.x.remaining)
    ensures Track(AfterWord(b, Writes(c)), c, moved, quiet)
  {
    AfterWordStage(b, c, |moved|, quiet);
    AfterWordShape(b, Writes(c));
    hide AfterWord, At, Shape;
  }

  /** A PIO sector being offered: everything the next word depends on. */
  lemma SectorOpen(a: Ata, c: Request, moved: seq<Byte>, quiet: bool)
    requires Track(a, c, moved, quiet) && a.d.phase.status == ST_DATA
    requires a.d.x.kind.PioRead? || a.d.x.kind.PioWrite?
    ensures Accepted(c) && c.kind == a.d.x.kind && Content(a.d.media, c, moved)
    ensures InSector(Advance(a.d), Writes(c)) && Advance(a.d).x.dataIndex > 0
    ensures Open512(Advance(a.d).x, c, |moved| + 2)
    ensures Position(a.d.x) == c.lba * SECTOR + |moved| && Position(a.d.x) % 2 == 0
    ensures quiet ==> Shows(a.d.task, a.d.x.transferLba, a.d.x.remaining)
  {
    hide Track, Content, InSector, Shape, Accepted, At;
    OfferedIsMoving(a, c, moved, quiet);
    TrackShape(a, c, moved, quiet);
    ShapeInSector(a.d);
    MovingPosition(a.d, c, |moved|, quiet);
  }

  lemma TrackShape(a: Ata, c: Request, moved: seq<Byte>, quiet: bool)
    requires Track(a, c, moved, quiet)
    ensures Accepted(c) && Shape(a.d) && Content(a.d.media, c, moved)
  {
    hide Shape, Content, At, Accepted;
  }

  lemma ShapeInSector(d: Disk)
    requires Shape(d) && d.phase.status == ST_DATA && (d.x.kind.PioRead? || d.x.kind.PioWrite?)
    ensures InSector(Advance(d), d.x.kind.PioWrite?) && Advance(d).x.dataIndex == d.x.dataIndex + 2
    ensures d.x.dataIndex % 2 == 0
  {
  }

  lemma MovingPosition(d: Disk, c: Request, n: nat, quiet: bool)
    requires Accepted(c) && At(d, c, n, quiet, Moving)
    requires Advance(d).x.dataIndex == d.x.dataIndex + 2 && d.x.dataIndex % 2 == 0
    ensures Open512(Advance(d).x, c, n + 2) && Position(d.x) == c.lba * SECTOR + n
    ensures Position(d.x) % 2 == 0
    ensures quiet ==> Shows(d.task, d.x.transferLba, d.x.remaining)
  {
  }

  lemma ReadSectorTrack(a: Ata, c: Request, moved: seq<Byte>, quiet: bool)
    requires Track(a, c, moved, quiet) && a.d.phase.status == ST_DATA && a.d.x.kind.PioRead?
    ensures var r := ReadSectorWord(a); Track(r.a, c, moved + r.bytes, quiet)
  {
    hide Track, AfterWord, Overlay, Window, InSector, Open512, Content, Position, Shows, WordLimit;
    SectorOpen(a, c, moved, quiet);
    var bytes := ReadSectorWord(a).bytes;
    WordOnMedium(a.d.media, Position(a.d.x), 0);
    ContentMedia(a.d.media, c, moved);
    ContentAppend(a.d.media, c, moved, bytes);
    AfterWordTrack(a.(d := Advance(a.d)), c, moved + bytes, quiet);
  }

  lemma ContentMedia(media: seq<Byte>, c: Request, moved: seq<Byte>)
    requires Content(media, c, moved)
    ensures |media| == |c.media|
    ensures !c.kind.Dma() ==> Limit(c) == WordLimit(media)
  {
    hide Window, Overlay;
  }

  lemma WriteSectorTrack(a: Ata, c: Request, moved: seq<Byte>, quiet: bool, value: Half)
    requires Track(a, c, moved, quiet) && a.d.phase.status == ST_DATA && a.d.x.kind.PioWrite?
    ensures var r := WriteSectorWord(a, value); Track(r.a, c, moved + r.bytes, quiet)
  {
    hide Track, AfterWord, Overlay, Window, InSector, Open512, Content, Position, Shows, WordLimit;
    SectorOpen(a, c, moved, quiet);
    var bytes := [value % 0x100, value / 0x100];
    var off := Position(a.d.x);
    WordOnMedium(a.d.media, off, value);
    ContentMedia(a.d.media, c, moved);
    ContentAppend(a.d.media, c, moved, bytes);
    var media := Overlay(a.d.media, WordLimit(a.d.media), off, bytes);
    var b := a.(d := Advance(a.d).(media := media));
    SectorSameLength(Advance(a.d), b.d, Writes(c));
    AfterWordTrack(b, c, moved + bytes, quiet);
    assert WriteSectorWord(a, value) == Moved(AfterWord(b, true), bytes);
  }

  lemma SectorSameLength(a: Disk, b: Disk, write: bool)
    requires InSector(a, write) && b == a.(media := b.media) && |b.media| == |a.media|
    ensures InSector(b, write)
  {
  }

  /** A chunk has been counted: position, count and taskfile agree after `n` bytes. */
  predicate InDma(d: Disk, c: Request, n: nat, cut: bool)
    requires Accepted(c)
  {
    c.kind.Dma() && d.x.kind == c.kind && PhaseShape(d.phase) && d.phase.status == ST_DATA &&
    !ResetBit(d.deviceControl) && |d.identify| == 256 && d.x.dataIndex < SECTOR &&
    Position(d.x) == c.lba * SECTOR + n && n <= Available(c) * SECTOR &&
    d.x.remaining * SECTOR == c.count * SECTOR - n + d.x.dataIndex &&
    (cut ==> CutShort(c, n)) && Shows(d.task, d.x.transferLba, d.x.remaining)
  }

  lemma AfterDmaStage(b: Ata, c: Request, n: nat, cut: bool, quiet: bool)
    requires Accepted(c) && InDma(b.d, c, n, cut)
    ensures exists stage :: At(AfterDma(b, cut).d, c, n, quiet, stage)
    ensures AfterDma(b, cut).d.media == b.d.media
  {
    hide SetIrq;
    var r := AfterDma(b, cut).d;
    if cut {
      assert At(r, c, n, quiet, Failing);
    } else if b.d.x.remaining == 0 {
      assert At(r, c, n, quiet, Done);
    } else {
      assert At(r, c, n, quiet, Moving);
    }
  }

  lemma AfterDmaTrack(b: Ata, c: Request, moved: seq<Byte>, cut: bool, quiet: bool)
    requires Accepted(c) && InDma(b.d, c, |moved|, cut) && Content(b.d.media, c, moved)
    ensures Track(AfterDma(b, cut), c, moved, quiet)
  {
    AfterDmaStage(b, c, |moved|, cut, quiet);
    assert |b.d.media| == |c.media|;
    AfterDmaShape(b, cut);
    hide AfterDma, At, Shape;
  }

  /** The chunk is what the request, the command and the medium all allow. */
  lemma ChunkBounds(d: Disk, c: Request, n: nat, quiet: bool)
    requires Accepted(c) && At(d, c, n, quiet, Moving) && c.kind.Dma()
    requires |d.media| == |c.media| && d.x.dataIndex < SECTOR
    ensures n + DmaOnMedium(d) <= Available(c) * SECTOR
    ensures DmaOnMedium(d) < DmaRequested(d) ==> CutShort(c, n + DmaOnMedium(d))
    ensures DmaOnMedium(d) + d.x.dataIndex <= d.x.remaining * SECTOR
    ensures DmaOnMedium(d) == 0 ==> CutShort(c, n) && d.x.transferLba == Capacity(c.media) &&
                                    d.x.remaining == c.count - Available(c)
    ensures DmaOnMedium(d) != 0 ==> n < Available(c) * SECTOR
  {
  }

  lemma DmaContent(a: Ata, c: Request, moved: seq<Byte>, place: Ram.Place, bytes: nat)
    requires Ram.Fits(a.ram, place, bytes)
    requires Content(a.d.media, c, moved) && a.d.x.kind == c.kind && c.kind.Dma()
    requires Position(a.d.x) == c.lba * SECTOR + |moved|
    ensures var r := DmaCopy(a, place, bytes);
            Content(r.a.d.media, c, moved + r.bytes) && |r.bytes| == bytes &&
            r.a.d == a.d.(media := r.a.d.media)
    ensures c.kind.DmaRead? ==> Ram.Load(DmaCopy(a, place, bytes).a.ram, place, bytes) ==
                                DmaCopy(a, place, bytes).bytes
  {
    hide Overlay, Window, Ram.Store;
    ContentAppend(a.d.media, c, moved, DmaCopy(a, place, bytes).bytes);
  }

  /** The state after a chunk has been copied and counted, before its end is looked at. */
  lemma DmaCopied(a: Ata, c: Request, moved: seq<Byte>, quiet: bool, place: Ram.Place)
    requires Accepted(c) && Shape(a.d) && Content(a.d.media, c, moved) && a.d.x.kind.Dma()
    requires At(a.d, c, |moved|, quiet, Moving) && a.d.phase.status == ST_DATA
    requires DmaOnMedium(a.d) != 0 && Ram.Fits(a.ram, place, DmaOnMedium(a.d))
    ensures var bytes := DmaOnMedium(a.d); var copied := DmaCopy(a, place, bytes);
            var b := copied.a.(d := DmaProgress(copied.a.d, bytes)).d;
            && |copied.bytes| == bytes && Content(b.media, c, moved + copied.bytes)
            && b.x == DmaMoved(a.d.x, bytes) && b.phase == a.d.phase
            && b.identify == a.d.identify && b.deviceControl == a.d.deviceControl
            && Shows(b.task, b.x.transferLba, b.x.remaining)
  {
    hide SetIrq, DmaMoved, DmaCopy, DmaOnMedium, DeviceNibble, Content;
    DmaContent(a, c, moved, place, DmaOnMedium(a.d));
  }

  lemma DmaCopiedTrack(a: Ata, c: Request, moved: seq<Byte>, quiet: bool, place: Ram.Place)
    requires Track(a, c, moved, quiet) && a.d.x.kind.Dma() && a.d.phase.status == ST_DATA
    requires DmaOnMedium(a.d) != 0 && Ram.Fits(a.ram, place, DmaOnMedium(a.d))
    ensures var copied := DmaCopy(a, place, DmaOnMedium(a.d));
            var b := copied.a.(d := DmaProgress(copied.a.d, DmaOnMedium(a.d)));
            Track(AfterDma(b, DmaOnMedium(a.d) < DmaRequested(a.d)), c, moved + copied.bytes, quiet)
  {
    hide AfterDma, DmaMoved, DmaCopy, DmaOnMedium, DmaRequested, Overlay, Window, DmaProgress;
    OfferedIsMoving(a, c, moved, quiet);
    var bytes := DmaOnMedium(a.d);
    ChunkBounds(a.d, c, |moved|, quiet);
    DmaCopied(a, c, moved, quiet, place);
    DmaMovedPosition(a.d.x, bytes);
    var copied := DmaCopy(a, place, bytes);
    var b := copied.a.(d := DmaProgress(copied.a.d, bytes));
    AfterDmaTrack(b, c, moved + copied.bytes, bytes < DmaRequested(a.d), quiet);
    hide Track;
  }

  lemma DmaChunkTrack(a: Ata, c: Request, moved: seq<Byte>, quiet: bool)
    requires Track(a, c, moved, quiet) && a.d.x.kind.Dma()
    ensures var r := DmaChunk(a); Track(r.a, c, moved + r.bytes, quiet)
  {
    hide SetIrq, AfterDma, DmaProgress, DmaCopy, DmaOnMedium, DmaRequested, Overlay, Window;
    OfferedIsMoving(a, c, moved, quiet);
    DmaChunkShape(a);
    var bytes := DmaOnMedium(a.d);
    ChunkBounds(a.d, c, |moved|, quiet);
    if bytes == 0 {
      assert At(DmaChunk(a).a.d, c, |moved|, quiet, Failing);
      assert moved + DmaChunk(a).bytes == moved;
    } else if Ram.Locate(a.ram.lowMapped, a.d.dma.addr, bytes).None? {
      assert At(DmaChunk(a).a.d, c, |moved|, quiet, Aborting);
      assert moved + DmaChunk(a).bytes == moved;
    } else {
      DmaCopiedTrack(a, c, moved, quiet,
                     Ram.Locate(a.ram.lowMapped, a.d.dma.addr, bytes).value);
      hide Track;
    }
  }

  // ------------------------------------------------------------------- ticks and accesses

  lemma TickStage(a: Ata, c: Request, n: nat, quiet: bool, stage: Stage)
    requires Accepted(c) && Shape(a.d) && At(a.d, c, n, quiet, stage)
    requires !a.d.phase.resetAsserted && !a.d.phase.resetPending
    ensures exists next :: At(PioTick(CompletionTick(NondataTick(a))).d, c, n, quiet, next)
    ensures PioTick(CompletionTick(NondataTick(a))).d.media == a.d.media
  {
    hide SetIrq, BuildIdentify;
    var next := match stage
      case Closing => Done
      case Failing => Failed
      case Aborting => Aborted
      case _ => stage;
    assert At(PioTick(CompletionTick(NondataTick(a))).d, c, n, quiet, next);
  }

  lemma NoReset(a: Ata, c: Request, moved: seq<Byte>, quiet: bool)
    requires Track(a, c, moved, quiet)
    ensures !a.d.phase.resetAsserted && !a.d.phase.resetPending && !ResetBit(a.d.deviceControl)
  {
  }

  lemma TickTrack(a: Ata, c: Request, moved: seq<Byte>, quiet: bool)
    requires Track(a, c, moved, quiet)
    ensures Track(Tick(a).a, c, moved + Tick(a).bytes, quiet)
  {
    hide Content, DmaChunk;
    NoReset(a, c, moved, quiet);
    var stage :| At(a.d, c, |moved|, quiet, stage);
    TickStage(a, c, |moved|, quiet, stage);
    hide Shape, PioTick, CompletionTick, NondataTick;
    var b := PioTick(CompletionTick(NondataTick(a)));
    var next :| At(b.d, c, |moved|, quiet, next);
    hide At;
    assert Track(b, c, moved, quiet);
    if b.d.dma.pending && Bit(b.d.dma.control, 1) && b.d.x.kind.Dma() {
      var e := b.(d := b.d.(dma := b.d.dma.(pending := false)));
      PendingTrack(b, c, moved, quiet, false);
      DmaChunkTrack(e, c, moved, quiet);
    } else {
      assert moved + Tick(a).bytes == moved;
    }
  }

  lemma PendingTrack(a: Ata, c: Request, moved: seq<Byte>, quiet: bool, pending: bool)
    requires Track(a, c, moved, quiet)
    ensures Track(a.(d := a.d.(dma := a.d.dma.(pending := pending))), c, moved, quiet)
  {
    var stage :| At(a.d, c, |moved|, quiet, stage);
    assert At(a.d.(dma := a.d.dma.(pending := pending)), c, |moved|, quiet, stage);
  }

  /** `b` differs from `a` in nothing the request depends on. */
  predicate SameTransfer(a: Disk, b: Disk) {
    a.x == b.x && a.phase == b.phase && a.outcome == b.outcome && a.media == b.media
  }

  lemma SameTrack(a: Ata, b: Ata, c: Request, moved: seq<Byte>, quiet: bool, still: bool)
    requires Track(a, c, moved, quiet) && SameTransfer(a.d, b.d) && Shape(b.d)
    requires still ==> quiet && a.d.task == b.d.task
    ensures Track(b, c, moved, still)
  {
    var stage :| At(a.d, c, |moved|, quiet, stage);
    assert At(b.d, c, |moved|, still, stage);
  }

  /** Neither a new command nor a soft reset. */
  predicate Undisturbing(op: Op) {
    Srst(op, false) && (op.OpWrite? ==> !TaskfileReg(op.offset).CommandStatus?)
  }

  /** Does not rewrite the error, count, LBA or device register. */
  predicate Quiet(op: Op) {
    op.OpWrite? ==> TaskfileReg(op.offset).Data? || TaskfileReg(op.offset).CommandStatus? ||
                    TaskfileReg(op.offset).NoReg?
  }

  lemma DataReadTrack(a: Ata, c: Request, moved: seq<Byte>, quiet: bool, size: nat)
    requires Track(a, c, moved, quiet)
    ensures Track(DataRead(a, size).a, c, moved + DataRead(a, size).bytes, quiet)
  {
    hide ReadSectorWord, Track;
    var lo := DiskWord(a);
    DiskWordTrack(a, c, moved, quiet);
    DiskWordTrack(lo.a, c, moved + lo.bytes, quiet);
    hide DiskWord;
    assert moved + (lo.bytes + DiskWord(lo.a).bytes) == moved + lo.bytes + DiskWord(lo.a).bytes;
  }

  lemma DiskWordTrack(a: Ata, c: Request, moved: seq<Byte>, quiet: bool)
    requires Track(a, c, moved, quiet)
    ensures Track(DiskWord(a).a, c, moved + DiskWord(a).bytes, quiet)
  {
    hide ReadSectorWord, Content;
    if Drq(a.d) {
      OfferedIsMoving(a, c, moved, quiet);
      if a.d.x.kind.PioRead? {
        ReadSectorTrack(a, c, moved, quiet);
      }
    }
    hide Track;
    if !Drq(a.d) || !a.d.x.kind.PioRead? {
      assert moved + DiskWord(a).bytes == moved;
    }
  }

  lemma DataWriteTrack(a: Ata, c: Request, moved: seq<Byte>, quiet: bool, size: nat, value: Word)
    requires Track(a, c, moved, quiet)
    ensures Track(DataWrite(a, size, value).a, c, moved + DataWrite(a, size, value).bytes, quiet)
  {
    hide WriteSectorWord, Content;
    if Drq(a.d) && a.d.x.kind.PioWrite? {
      OfferedIsMoving(a, c, moved, quiet);
      WriteSectorTrack(a, c, moved, quiet, value % TWO_TO_16);
      var lo := WriteSectorWord(a, value % TWO_TO_16);
      if size == 4 && Drq(lo.a.d) {
        WriteWordShape(a, value % TWO_TO_16);
        OfferedIsMoving(lo.a, c, moved + lo.bytes, quiet);
        WriteSectorTrack(lo.a, c, moved + lo.bytes, quiet, value / TWO_TO_16);
        hide Track;
        var hi := WriteSectorWord(lo.a, value / TWO_TO_16);
        assert moved + (lo.bytes + hi.bytes) == moved + lo.bytes + hi.bytes;
      }
    } else {
      assert moved + DataWrite(a, size, value).bytes == moved;
    }
  }

  /** A register access other than to the data port leaves the transfer alone. */
  lemma RegisterAccess(a: Ata, op: Op)
    requires Undisturbing(op) && !op.OpTick?
    requires !op.OpRam? ==> !TaskfileReg(op.offset).Data?
    requires !a.d.phase.resetAsserted && !a.d.phase.resetPending && !ResetBit(a.d.deviceControl)
    ensures Step(a, op).bytes == [] && SameTransfer(a.d, Step(a, op).a.d)
    ensures Quiet(op) ==> Step(a, op).a.d.task == a.d.task
  {
    hide DataRead, DataWrite, SetIrq, ClearIdeBits, Command, SetLbaByte;
  }

  /** Any access that neither starts a command nor resets keeps the request on its track. */
  lemma StepTrack(a: Ata, c: Request, moved: seq<Byte>, quiet: bool, op: Op)
    requires Track(a, c, moved, quiet) && Undisturbing(op)
    ensures Track(Step(a, op).a, c, moved + Step(a, op).bytes, quiet && Quiet(op))
  {
    hide Track, Step, Tick, DataRead, DataWrite, Quiet, Undisturbing;
    NoReset(a, c, moved, quiet);
    if op.OpTick? {
      DataOp(a, op);
      TickTrack(a, c, moved, quiet);
    } else if op.OpRead? && TaskfileReg(op.offset).Data? {
      DataOp(a, op);
      DataReadTrack(a, c, moved, quiet, op.size);
    } else if op.OpWrite? && TaskfileReg(op.offset).Data? {
      DataOp(a, op);
      DataWriteTrack(a, c, moved, quiet, op.size, op.value);
    } else {
      RegisterAccess(a, op);
      OtherTrack(a, c, moved, quiet, op);
    }
  }

  /** What ticks and accesses to the data port do. */
  lemma DataOp(a: Ata, op: Op)
    requires !a.d.phase.resetAsserted && !a.d.phase.resetPending
    ensures op.OpTick? ==> Step(a, op) == Tick(a) && Quiet(op)
    ensures op.OpRead? && TaskfileReg(op.offset).Data? ==>
              Step(a, op) == DataRead(a, op.size) && Quiet(op)
    ensures op.OpWrite? && TaskfileReg(op.offset).Data? ==>
              Step(a, op) == DataWrite(a, op.size, op.value) && Quiet(op)
  {
    hide Tick, DataRead, DataWrite, SetIrq, ClearIdeBits, WriteTask, Command, DeviceControl, ScheduleDma;
  }

  lemma OtherTrack(a: Ata, c: Request, moved: seq<Byte>, quiet: bool, op: Op)
    requires Track(a, c, moved, quiet) && Step(a, op).bytes == []
    requires SameTransfer(a.d, Step(a, op).a.d) && (Quiet(op) ==> Step(a, op).a.d.task == a.d.task)
    ensures Track(Step(a, op).a, c, moved + Step(a, op).bytes, quiet && Quiet(op))
  {
    hide Track, Step, SameTransfer, Quiet, Shape, Content;
    TrackShape(a, c, moved, quiet);
    StepShape(a, op);
    assert moved + Step(a, op).bytes == moved;
    SameTrack(a, Step(a, op).a, c, moved, quiet, quiet && Quiet(op));
  }

  predicate AllUndisturbing(ops: seq<Op>) {
    forall op | op in ops :: Undisturbing(op)
  }

  predicate AllQuiet(ops: seq<Op>) {
    forall op | op in ops :: Quiet(op)
  }

  lemma {:induction false} RunTrack(a: Ata, c: Request, moved: seq<Byte>, quiet: bool, ops: seq<Op>)
    requires Track(a, c, moved, quiet) && AllUndisturbing(ops)
    ensures var r := Run(a, ops); Track(r.a, c, moved + r.bytes, quiet && AllQuiet(ops))
    decreases |ops|
  {
    hide Step, Track, Undisturbing, Quiet;
    if ops == [] {
      assert moved + Run(a, ops).bytes == moved;
    } else {
      StepTrack(a, c, moved, quiet, ops[0]);
      var first := Step(a, ops[0]);
      assert AllQuiet(ops) == (Quiet(ops[0]) && AllQuiet(ops[1..])) by {
        assert ops == [ops[0]] + ops[1..];
      }
      RunTrack(first.a, c, moved + first.bytes, quiet && Quiet(ops[0]), ops[1..]);
      var rest := Run(first.a, ops[1..]);
      assert moved + (first.bytes + rest.bytes) == moved + first.bytes + rest.bytes;
    }
  }

  // ---------------------------------------------------------------------- main results

  /** The transfer a command code asks for; the multiple forms need multiple mode. */
  function MediaKind(code: Byte, multiple: Byte): Transfer {
    if code == 0x20 || code == 0x24 || (code == 0xc4 && multiple != 0) then PioRead
    else if code == 0x30 || code == 0x34 || (code == 0xc5 && multiple != 0) then PioWrite
    else if code == 0xc8 || code == 0xc9 then DmaRead
    else if code == 0xca || code == 0xcb then DmaWrite
    else NoTransfer
  }

  /** The request a command makes from the taskfile; a count of zero asks for 256 sectors. */
  function Asked(d: Disk, code: Byte): Request {
    Request(MediaKind(code, d.multipleCount), d.task.selectedLba, Sectors(d.task.sectorCount),
            d.media)
  }

  /** The guest may write `code` to the command register of `a` and be accepted. */
  predicate Commands(a: Ata, code: Byte) {
    Inv(a) && !a.d.phase.resetAsserted && !a.d.phase.resetPending &&
    !MediaKind(code, a.d.multipleCount).NoTransfer? && InRange(a.d, a.d.task.selectedLba)
  }

  lemma StartTrack(a: Ata, code: Byte)
    requires Commands(a, code)
    ensures Track(Command(a, code), Asked(a.d, code), [], true)
  {
    hide Command, Shape, StartPio, StartDma, MediaKind, Inv, Content, At;
    StartShapeOf(a, code);
    Dispatched(a, code);
    StartStage(a, MediaKind(code, a.d.multipleCount));
    NothingMoved(a.d.media, Asked(a.d, code));
  }

  lemma StartShapeOf(a: Ata, code: Byte)
    requires Commands(a, code)
    ensures Shape(Command(a, code).d)
  {
    hide Command;
    CommandShape(a, code);
  }

  /** A media command is dispatched by the kind of its transfer. */
  lemma Dispatched(a: Ata, code: Byte)
    requires !MediaKind(code, a.d.multipleCount).NoTransfer?
    ensures var kind := MediaKind(code, a.d.multipleCount);
            Command(a, code) == if kind.Dma() then StartDma(a, kind) else StartPio(a, kind)
    ensures !MediaKind(code, a.d.multipleCount).Identify?
  {
    hide StartPio, StartDma, ScheduleNondata, StartIdentify;
  }

  lemma NothingMoved(media: seq<Byte>, c: Request)
    requires media == c.media
    ensures Content(media, c, [])
  {
    assert Overlay(c.media, Limit(c), c.lba * SECTOR, []) == c.media;
    assert Window(c.media, Limit(c), c.lba * SECTOR, 0) == [];
  }

  lemma StartStage(a: Ata, kind: Transfer)
    requires InRange(a.d, a.d.task.selectedLba) && !kind.NoTransfer? && !kind.Identify?
    ensures var c := Request(kind, a.d.task.selectedLba, Sectors(a.d.task.sectorCount), a.d.media);
            var b := (if kind.Dma() then StartDma(a, kind) else StartPio(a, kind)).d;
            Accepted(c) && At(b, c, 0, true, Moving) && b.media == a.d.media
  {
    hide SetIrq;
  }

  lemma CommandTrack(a: Ata, code: Byte, ops: seq<Op>)
    requires Commands(a, code) && AllUndisturbing(ops)
    ensures var r := Run(Command(a, code), ops);
            Track(r.a, Asked(a.d, code), r.bytes, AllQuiet(ops))
  {
    StartTrack(a, code);
    hide Track, Command;
    RunTrack(Command(a, code), Asked(a.d, code), [], true, ops);
    var r := Run(Command(a, code), ops);
    assert [] + r.bytes == r.bytes;
  }

  /** Position and count: as long as the command is open, what the position has gained is
      what the count has lost, byte for byte. */
  lemma PositionAndCountBalance(a: Ata, code: Byte, ops: seq<Op>)
    requires Commands(a, code) && AllUndisturbing(ops)
    ensures var c := Asked(a.d, code); var r := Run(Command(a, code), ops); var x := r.a.d.x;
            !x.kind.NoTransfer? && x.remaining >= 1 ==>
              Position(x) == c.lba * SECTOR + |r.bytes| &&
              Position(x) + x.remaining * SECTOR - x.dataIndex == (c.lba + c.count) * SECTOR
  {
    hide Run, Command;
    CommandTrack(a, code, ops);
  }

  lemma WindowIsSlice(media: seq<Byte>, limit: nat, off: nat, n: nat)
    requires off + n <= limit <= |media|
    ensures Window(media, limit, off, n) == media[off..off + n]
  {
    var w := Window(media, limit, off, n);
    assert forall i | 0 <= i < n :: w[i] == ByteAt(media, limit, off + i);
  }

  lemma OnMedium(c: Request, n: nat)
    requires Accepted(c) && |c.media| >= SECTOR && n <= Available(c) * SECTOR
    ensures c.lba * SECTOR + n <= Limit(c)
  {
    var capacity := Capacity(c.media);
    assert capacity * SECTOR <= WordLimit(c.media) by {
      assert capacity <= |c.media| / SECTOR;
      assert capacity * SECTOR % 2 == 0;
    }
    assert c.lba + Available(c) <= capacity;
  }

  /** A read delivers exactly the bytes of the medium from its LBA on, in order and once
      each, and changes nothing; never past the sectors asked for or the end of the medium. */
  lemma ReadDeliversMedium(a: Ata, code: Byte, ops: seq<Op>)
    requires Commands(a, code) && AllUndisturbing(ops) && !Writes(Asked(a.d, code))
    requires |a.d.media| >= SECTOR
    ensures var c := Asked(a.d, code); var r := Run(Command(a, code), ops);
            var off := c.lba * SECTOR;
            && off + |r.bytes| <= (c.lba + Available(c)) * SECTOR <= |a.d.media|
            && r.bytes == a.d.media[off..off + |r.bytes|] && r.a.d.media == a.d.media
  {
    hide Run, Command;
    CommandTrack(a, code, ops);
    var c, n := Asked(a.d, code), |Run(Command(a, code), ops).bytes|;
    OnMedium(c, n);
    OnMedium(c, Available(c) * SECTOR);
    WindowIsSlice(c.media, Limit(c), c.lba * SECTOR, n);
  }

  /** A write puts the bytes it took, in order, from its LBA on, and leaves the rest of the
      medium as it was. */
  lemma WriteStoresExactly(a: Ata, code: Byte, ops: seq<Op>)
    requires Commands(a, code) && AllUndisturbing(ops) && Writes(Asked(a.d, code))
    requires |a.d.media| >= SECTOR
    ensures var c := Asked(a.d, code); var r := Run(Command(a, code), ops);
            var off := c.lba * SECTOR;
            && off + |r.bytes| <= (c.lba + Available(c)) * SECTOR <= |a.d.media|
            && r.a.d.media == a.d.media[..off] + r.bytes + a.d.media[off + |r.bytes|..]
  {
    hide Run, Command;
    CommandTrack(a, code, ops);
    OnMedium(Asked(a.d, code), |Run(Command(a, code), ops).bytes|);
    OnMedium(Asked(a.d, code), Available(Asked(a.d, code)) * SECTOR);
  }

  /** A command is over once nothing is open and no phase is left. */
  predicate Over(d: Disk) {
    d.x.kind.NoTransfer? && Phases(d.phase) == 0
  }

  /** When a command is over: success means every sector moved. An error means either the
      end of the medium, with exactly the sectors before it moved, or a DMA buffer outside
      RAM. If the guest has left the taskfile alone, it shows IDNF, the first sector that
      does not exist and how many sectors are missing. */
  lemma HowCommandsEnd(a: Ata, code: Byte, ops: seq<Op>)
    requires Commands(a, code) && AllUndisturbing(ops)
    requires Over(Run(Command(a, code), ops).a.d)
    ensures var c := Asked(a.d, code); var r := Run(Command(a, code), ops); var d := r.a.d;
            && (d.phase.status == ST_IDLE || d.phase.status == ST_ERROR)
            && (d.phase.status == ST_IDLE ==>
                  |r.bytes| == c.count * SECTOR && c.lba + c.count <= Capacity(c.media))
            && (d.phase.status == ST_ERROR && c.kind.Pio() ==>
                  |r.bytes| == (Capacity(c.media) - c.lba) * SECTOR &&
                  c.lba + c.count > Capacity(c.media))
            && (d.phase.status == ST_ERROR && AllQuiet(ops) ==>
                  d.task.error == ERR_NOT_FOUND || d.task.error == ERR_ABORT)
            && (d.phase.status == ST_ERROR && AllQuiet(ops) && d.task.error == ERR_NOT_FOUND ==>
                  |r.bytes| == (Capacity(c.media) - c.lba) * SECTOR &&
                  d.task.selectedLba == Capacity(c.media) &&
                  d.task.sectorCount == (c.lba + c.count - Capacity(c.media)) % 0x100 &&
                  d.task.sectorCount != 0)
            && (d.phase.status == ST_IDLE && AllQuiet(ops) ==>
                  d.task.selectedLba == c.lba + c.count && d.task.sectorCount == 0)
  {
    hide Run, Command;
    CommandTrack(a, code, ops);
  }

  /** A request that starts beyond the medium is answered with IDNF after one tick; nothing
      moves and the taskfile keeps the address. */
  lemma StartBeyondMedium(a: Ata, code: Byte)
    requires Inv(a) && !a.d.phase.resetAsserted && !a.d.phase.resetPending
    requires !MediaKind(code, a.d.multipleCount).NoTransfer?
    requires !InRange(a.d, a.d.task.selectedLba)
    ensures var b := Command(a, code); var r := Tick(b);
            && Bsy(b.d) && Over(r.a.d) && r.a.d.phase.status == ST_ERROR && r.bytes == []
            && r.a.d.task == a.d.task.(error := ERR_NOT_FOUND)
            && r.a.d.media == a.d.media && r.a.ram == a.ram && r.a.d.irqPending
  {
    hide SetIrq, BuildIdentify, CompleteDma, Open;
    assert Command(a, code) == ScheduleNondata(a, NOT_FOUND);
    hide Command;
  }

  /** Sectors written by PIO or DMA and read back by PIO or DMA, each in any chunking, come
      back as they were, and no other byte of the medium has changed. */
  lemma WriteThenReadBack(a: Ata, write: Byte, ops: seq<Op>, read: Byte, more: seq<Op>)
    requires |a.d.media| >= SECTOR
    requires Commands(a, write) && Writes(Asked(a.d, write)) && AllUndisturbing(ops)
    requires var w := Run(Command(a, write), ops).a;
             Over(w.d) && w.d.phase.status == ST_IDLE &&
             MediaKind(read, w.d.multipleCount) in {PioRead, DmaRead} &&
             w.d.task.selectedLba == a.d.task.selectedLba &&
             w.d.task.sectorCount == a.d.task.sectorCount &&
             Over(Run(Command(w, read), more).a.d) &&
             Run(Command(w, read), more).a.d.phase.status == ST_IDLE
    requires AllUndisturbing(more)
    ensures var written := Run(Command(a, write), ops);
            var back := Run(Command(written.a, read), more);
            var off := a.d.task.selectedLba * SECTOR;
            && back.bytes == written.bytes
            && off + |back.bytes| <= |a.d.media|
            && |back.bytes| == Sectors(a.d.task.sectorCount) * SECTOR
            && back.a.d.media == a.d.media[..off] + back.bytes + a.d.media[off + |back.bytes|..]
  {
    hide Run, Command, Inv;
    var w := Run(Command(a, write), ops);
    WriteStoresExactly(a, write, ops);
    HowCommandsEnd(a, write, ops);
    CommandInv(a, write);
    RunInv(Command(a, write), ops);
    var off := a.d.task.selectedLba * SECTOR;
    assert Commands(w.a, read);
    ReadDeliversMedium(w.a, read, more);
    HowCommandsEnd(w.a, read, more);
  }

  lemma CommandInv(a: Ata, code: Byte)
    requires Inv(a) && !a.d.phase.resetAsserted && !a.d.phase.resetPending
    ensures Inv(Command(a, code))
  {
    CommandShape(a, code);
    CommandLine(a, code);
    hide Command;
  }
}
