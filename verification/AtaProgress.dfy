/** That transfers do move and do end: polling the data port, programming DMA, and what the
    guest sees of the bytes that moved. */
module AtaProgress {
  import opened Words
  import opened AtaSpec
  import opened AtaInvariant
  import opened AtaTransfer
  import Ram

  const DATA_PORT: nat := 0x1e0

  // ----------------------------------------------------------------- what the guest sees

  /** The value of a data-port read is made of the bytes that moved, low byte first, with
      all ones for a halfword that did not move. */
  lemma DataValueIsMoved(a: Ata, size: nat)
    ensures var m := DataRead(a, size).bytes; var v := DataReadValue(a, size);
            && (|m| == 0 || |m| == 2 || (|m| == 4 && size == 4))
            && (|m| == 4 ==> v == Half16(m[0], m[1]) + Half16(m[2], m[3]) * TWO_TO_16)
            && (|m| == 2 && size != 4 ==> v == Half16(m[0], m[1]))
            && (|m| == 0 && size != 4 ==> v == 0xffff)
            && (|m| == 0 && size == 4 ==> v == 0xffff_ffff)
            && (!Drq(a.d) ==> m == [])
  {
    hide AfterWord, FinishTransfer, Advance, Bit;
  }

  /** A DMA chunk leaves in RAM, at the programmed address, the bytes it moved; every other
      byte of RAM is as it was. A write takes its bytes from there. */
  lemma DmaChunkInRam(a: Ata)
    requires a.d.x.kind.Dma() && DmaChunk(a).bytes != []
    ensures var r := DmaChunk(a); var n := |r.bytes|;
            var found := Ram.Locate(a.ram.lowMapped, a.d.dma.addr, n);
            && n == DmaOnMedium(a.d) && found.Some?
            && Ram.Load(r.a.ram, found.value, n) == r.bytes
            && (a.d.x.kind.DmaRead? ==> r.a.ram == Ram.Store(a.ram, found.value, r.bytes))
            && (a.d.x.kind.DmaWrite? ==> r.a.ram == a.ram)
  {
    hide SetIrq, DmaOnMedium, DmaRequested, DmaProgress, Window, Overlay, Ram.Store, Finished;
  }

  // ---------------------------------------------------------------------------- polling

  function Access(write: bool, value: Half): Op {
    if write then OpWrite(DATA_PORT, 2, value) else OpRead(DATA_PORT, 2)
  }

  /** A polling guest: a tick, then one halfword through the data port, for each value. */
  function Poll(write: bool, values: seq<Half>): seq<Op> {
    if values == [] then [] else [OpTick, Access(write, values[0])] + Poll(write, values[1..])
  }

  function Bytes(values: seq<Half>): (r: seq<Byte>)
    ensures |r| == 2 * |values|
  {
    if values == [] then [] else [values[0] % 0x100, values[0] / 0x100] + Bytes(values[1..])
  }

  lemma TickOffers(a: Ata, c: Request, moved: seq<Byte>, quiet: bool)
    requires Track(a, c, moved, quiet) && c.kind.Pio() && |moved| < Available(c) * SECTOR
    ensures Tick(a).bytes == [] && Tick(a).a.d.phase.status == ST_DATA
    ensures Tick(a).a.d.x == a.d.x && a.d.x.kind == c.kind
  {
    hide SetIrq, BuildIdentify, DmaChunk, Content;
  }

  lemma AccessMoves(a: Ata, write: bool, value: Half)
    requires a.d.phase.status == ST_DATA && a.d.x.kind == (if write then PioWrite else PioRead)
    requires !a.d.phase.resetAsserted && !a.d.phase.resetPending
    ensures |Step(a, Access(write, value)).bytes| == 2
    ensures write ==> Step(a, Access(write, value)).bytes == [value % 0x100, value / 0x100]
  {
    hide AfterWord, SetIrq, ReadIdentifyWord, Advance, Position, ScheduleDma, DeviceControl, Command,
         WriteTask, ClearIdeBits, Ide1Stored, Tick;
  }

  lemma {:induction false} PollMoves(a: Ata, c: Request, moved: seq<Byte>, quiet: bool,
                                     values: seq<Half>)
    requires Track(a, c, moved, quiet) && c.kind.Pio()
    requires |moved| + 2 * |values| <= Available(c) * SECTOR
    ensures var r := Run(a, Poll(Writes(c), values));
            |r.bytes| == 2 * |values| && (Writes(c) ==> r.bytes == Bytes(values)) &&
            Track(r.a, c, moved + r.bytes, quiet)
    decreases |values|
  {
    hide Track, Step, Access, Available, Run, Poll, Bytes, Writes;
    if values == [] {
      NothingPolled(a, Writes(c));
      assert moved + [] == moved;
    } else {
      PollsFirst(Writes(c), values);
      var access := Access(Writes(c), values[0]);
      var ticked := Step(a, OpTick);
      TickThenAccess(a, c, moved, quiet, values[0]);
      var taken := Step(ticked.a, access);
      PollMoves(taken.a, c, moved + taken.bytes, quiet, values[1..]);
      var rest := Run(taken.a, Poll(Writes(c), values[1..]));
      RunTwo(a, OpTick, access, Poll(Writes(c), values[1..]));
      var all := Run(a, Poll(Writes(c), values));
      assert all.bytes == taken.bytes + rest.bytes;
      assert moved + all.bytes == moved + taken.bytes + rest.bytes;
    }
  }

  lemma NothingPolled(a: Ata, write: bool)
    ensures Run(a, Poll(write, [])) == Moved(a, []) && Bytes([]) == []
  {
    hide Step;
  }

  lemma PollsFirst(write: bool, values: seq<Half>)
    requires values != []
    ensures Poll(write, values) == [OpTick, Access(write, values[0])] + Poll(write, values[1..])
    ensures Bytes(values) == [values[0] % 0x100, values[0] / 0x100] + Bytes(values[1..])
  {
    hide Access;
  }

  lemma RunTwo(a: Ata, x: Op, y: Op, rest: seq<Op>)
    ensures var one := Step(a, x); var two := Step(one.a, y); var r := Run(two.a, rest);
            Run(a, [x, y] + rest) == Moved(r.a, one.bytes + (two.bytes + r.bytes))
  {
    hide Step;
    assert ([x, y] + rest)[1..] == [y] + rest;
    assert ([y] + rest)[1..] == rest;
  }

  lemma TickThenAccess(a: Ata, c: Request, moved: seq<Byte>, quiet: bool, value: Half)
    requires Track(a, c, moved, quiet) && c.kind.Pio() && |moved| < Available(c) * SECTOR
    ensures var ticked := Step(a, OpTick); var r := Step(ticked.a, Access(Writes(c), value));
            ticked.bytes == [] && |r.bytes| == 2 && Track(r.a, c, moved + r.bytes, quiet) &&
            (Writes(c) ==> r.bytes == [value % 0x100, value / 0x100])
  {
    hide Tick, DataRead, DataWrite, Content;
    TickOffers(a, c, moved, quiet);
    StepTrack(a, c, moved, quiet, OpTick);
    var b := Step(a, OpTick).a;
    assert moved + Step(a, OpTick).bytes == moved;
    NoReset(b, c, moved, quiet);
    StepTrack(b, c, moved, quiet, Access(Writes(c), value));
    AccessMoves(b, Writes(c), value);
    hide Track, Step;
  }

  /** A PIO command drained or fed by polling moves everything that is on the medium, and
      one more tick ends it: successfully when the request fits, with an error otherwise. */
  lemma PollingCompletes(a: Ata, code: Byte, values: seq<Half>)
    requires Commands(a, code) && Asked(a.d, code).kind.Pio()
    requires |values| == Available(Asked(a.d, code)) * 256
    ensures var c := Asked(a.d, code);
            var r := Run(Command(a, code), Poll(Writes(c), values)); var last := Tick(r.a);
            && |r.bytes| == Available(c) * SECTOR && (Writes(c) ==> r.bytes == Bytes(values))
            && last.bytes == [] && Over(last.a.d)
            && last.a.d.phase.status ==
               (if c.lba + c.count <= Capacity(c.media) then ST_IDLE else ST_ERROR)
  {
    hide Command, Run;
    var c := Asked(a.d, code);
    StartTrack(a, code);
    PollMoves(Command(a, code), c, [], true, values);
    var r := Run(Command(a, code), Poll(Writes(c), values));
    assert [] + r.bytes == r.bytes;
    TickEnds(r.a, c, r.bytes, true);
  }

  lemma TickEnds(a: Ata, c: Request, moved: seq<Byte>, quiet: bool)
    requires Track(a, c, moved, quiet) && c.kind.Pio() && |moved| == Available(c) * SECTOR
    ensures var r := Tick(a);
            r.bytes == [] && Over(r.a.d) &&
            r.a.d.phase.status ==
            (if c.lba + c.count <= Capacity(c.media) then ST_IDLE else ST_ERROR)
  {
    hide SetIrq, BuildIdentify, DmaChunk, Content;
  }

  // -------------------------------------------------------------------------------- DMA

  function Program(addr: Word, length: Word): seq<Op> {
    [OpWrite(DMA_ADDR, 4, addr), OpWrite(DMA_LENGTH, 4, length), OpWrite(DMA_CONTROL, 4, 1),
     OpTick]
  }

  /** A command without data has been scheduled to end in an error. */
  predicate AboutToFail(d: Disk, error: Byte) {
    d.phase.nondataPending && d.phase.status == ST_BUSY && d.x.kind.NoTransfer? &&
    d.outcome.error == error && d.dma.status == 1
  }

  /** One programmed DMA chunk moves its length register plus four bytes, cut to what the
      command and the medium still allow. With nothing left on the medium, or a buffer that
      is not in RAM, it moves nothing and the command is about to fail. */
  lemma ProgramMoves(a: Ata, c: Request, moved: seq<Byte>, quiet: bool, addr: Word, length: Word)
    requires Track(a, c, moved, quiet) && c.kind.Dma() && a.d.x.kind == c.kind
    ensures var left := Available(c) * SECTOR - |moved|; var n := Min(length + 4, left);
            var r := Run(a, Program(addr, length));
            && (n == 0 ==> r.bytes == [] && AboutToFail(r.a.d, ERR_NOT_FOUND))
            && (n > 0 && Ram.Locate(a.ram.lowMapped, addr, n).None? ==>
                  r.bytes == [] && AboutToFail(r.a.d, ERR_ABORT))
            && (n > 0 && Ram.Locate(a.ram.lowMapped, addr, n).Some? ==> |r.bytes| == n)
  {
    hide Program, Run, DmaChunk, DmaOnMedium, Available, Track, Shape;
    OpenDma(a, c, moved, quiet);
    var b := a.(d := a.d.(dma := a.d.dma.(addr := addr, length := length, control := 1,
                                         pending := false)));
    RunProgram(a, addr, length);
    ChunkLength(b.d, c, |moved|, quiet);
    ChunkMoves(b);
  }

  /** The state of a DMA command that is still open. */
  lemma OpenDma(a: Ata, c: Request, moved: seq<Byte>, quiet: bool)
    requires Track(a, c, moved, quiet) && c.kind.Dma() && a.d.x.kind == c.kind
    ensures Accepted(c) && Shape(a.d) && At(a.d, c, |moved|, quiet, Moving)
    ensures |a.d.media| == |c.media| && a.d.x.dataIndex < SECTOR
  {
    OfferedIsMoving(a, c, moved, quiet);
  }

  /** What a chunk moves, and how it fails. */
  lemma ChunkMoves(b: Ata)
    ensures var n := DmaOnMedium(b.d); var r := DmaChunk(b);
            && (n == 0 ==> r.bytes == [] && AboutToFail(r.a.d, ERR_NOT_FOUND))
            && (n > 0 && Ram.Locate(b.ram.lowMapped, b.d.dma.addr, n).None? ==>
                  r.bytes == [] && AboutToFail(r.a.d, ERR_ABORT))
            && (n > 0 && Ram.Locate(b.ram.lowMapped, b.d.dma.addr, n).Some? ==> |r.bytes| == n)
  {
    hide SetIrq, AfterDma, DmaProgress, DmaOnMedium, Overlay;
  }

  /** A request that lies on the medium altogether. */
  predicate FitsMedium(c: Request) {
    c.lba + c.count <= Capacity(c.media)
  }

  /** A DMA command that has moved every byte of its request is over, with success. */
  lemma AllMovedIsOver(a: Ata, c: Request, moved: seq<Byte>, quiet: bool)
    requires Track(a, c, moved, quiet) && c.kind.Dma() && |moved| == c.count * SECTOR
    ensures Over(a.d) && a.d.phase.status == ST_IDLE
  {
    hide Content;
  }

  /** A chunk that the end of the medium has cut short ends in IDNF. */
  lemma ChunkCut(b: Ata)
    requires 0 < DmaOnMedium(b.d) < DmaRequested(b.d)
    requires Ram.Locate(b.ram.lowMapped, b.d.dma.addr, DmaOnMedium(b.d)).Some?
    ensures AboutToFail(DmaChunk(b).a.d, ERR_NOT_FOUND)
  {
    hide SetIrq, DmaProgress, DmaOnMedium, DmaRequested, Overlay, Window;
  }

  lemma Requested(d: Disk, c: Request, n: nat, quiet: bool)
    requires Accepted(c) && At(d, c, n, quiet, Moving) && c.kind.Dma() && d.x.dataIndex < SECTOR
    ensures DmaRequested(d) == Min(d.dma.length + 4, c.count * SECTOR - n)
  {
  }

  /** The program that takes the last byte on the medium ends the command: with success when
      the request fits, and in IDNF when it asks for more than there is. */
  lemma ProgramEnds(a: Ata, c: Request, moved: seq<Byte>, quiet: bool, addr: Word, length: Word)
    requires Track(a, c, moved, quiet) && c.kind.Dma() && a.d.x.kind == c.kind
    requires |moved| < Available(c) * SECTOR <= |moved| + length + 4
    requires Ram.Locate(a.ram.lowMapped, addr, Available(c) * SECTOR - |moved|).Some?
    ensures var left := Available(c) * SECTOR - |moved|; var r := Run(a, Program(addr, length));
            && |r.bytes| == left
            && (FitsMedium(c) ==> Over(r.a.d) && r.a.d.phase.status == ST_IDLE)
            && (!FitsMedium(c) && length + 4 > left ==> AboutToFail(r.a.d, ERR_NOT_FOUND))
  {
    hide Program, Run, DmaChunk, DmaOnMedium, DmaRequested, Available, Track, Shape, AboutToFail, Over;
    OpenDma(a, c, moved, quiet);
    var b := a.(d := a.d.(dma := a.d.dma.(addr := addr, length := length, control := 1,
                                         pending := false)));
    RunProgram(a, addr, length);
    ChunkLength(b.d, c, |moved|, quiet);
    ChunkMoves(b);
    ProgramUndisturbing(addr, length);
    RunTrack(a, c, moved, quiet, Program(addr, length));
    AvailableIs(c);
    var r := Run(a, Program(addr, length));
    if FitsMedium(c) {
      AllMovedIsOver(r.a, c, moved + r.bytes, quiet && AllQuiet(Program(addr, length)));
    } else if length + 4 > Available(c) * SECTOR - |moved| {
      Requested(b.d, c, |moved|, quiet);
      ChunkCut(b);
    }
  }

  lemma AvailableIs(c: Request)
    requires Accepted(c)
    ensures FitsMedium(c) ==> Available(c) == c.count
    ensures !FitsMedium(c) ==> Available(c) < c.count
  {
  }

  lemma ProgramUndisturbing(addr: Word, length: Word)
    ensures AllUndisturbing(Program(addr, length))
  {
  }

  /** What is about to fail has failed after the next tick, and says so. */
  lemma FailsOnTick(a: Ata, error: Byte)
    requires Shape(a.d) && AboutToFail(a.d, error) && error != 0
    ensures var d := Tick(a).a.d;
            Over(d) && d.phase.status == ST_ERROR && d.task.error == error && d.irqPending
    ensures Tick(a).bytes == []
  {
    hide SetIrq, BuildIdentify, DmaChunk;
  }

  lemma RunProgram(a: Ata, addr: Word, length: Word)
    requires Shape(a.d) && a.d.x.kind.Dma()
    ensures var b := a.(d := a.d.(dma := a.d.dma.(addr := addr, length := length, control := 1,
                                                 pending := false)));
            Run(a, Program(addr, length)) == DmaChunk(b)
  {
    var p := Program(addr, length);
    var one := Step(a, p[0]);
    var two := Step(one.a, p[1]);
    var three := Step(two.a, p[2]);
    WriteDmaRegs(a, addr, length);
    TickRunsDma(three.a);
    hide Step, Shape;
    RunTwo(a, p[0], p[1], p[2..]);
    RunTwo(two.a, p[2], p[3], []);
    assert p == [p[0], p[1]] + p[2..] && p[2..] == [p[2], p[3]] + [];
  }

  lemma WriteDmaRegs(a: Ata, addr: Word, length: Word)
    requires a.d.x.kind.Dma()
    ensures var p := Program(addr, length);
            var one := Step(a, p[0]); var two := Step(one.a, p[1]); var three := Step(two.a, p[2]);
            one.bytes + two.bytes + three.bytes == [] &&
            three.a == a.(d := a.d.(dma := a.d.dma.(addr := addr, length := length, control := 1,
                                                   pending := true)))
  {
    hide WriteTaskfile, DeviceControl, ClearIdeBits, SetIrq;
  }

  lemma TickRunsDma(a: Ata)
    requires Shape(a.d) && a.d.x.kind.Dma() && a.d.dma.pending && a.d.dma.control == 1
    ensures Tick(a) == DmaChunk(a.(d := a.d.(dma := a.d.dma.(pending := false))))
  {
    hide SetIrq, DmaChunk, BuildIdentify;
  }

  lemma ChunkLength(d: Disk, c: Request, n: nat, quiet: bool)
    requires Accepted(c) && At(d, c, n, quiet, Moving) && c.kind.Dma()
    requires |d.media| == |c.media| && d.x.dataIndex < SECTOR
    ensures DmaOnMedium(d) == Min(d.dma.length + 4, Available(c) * SECTOR - n)
  {
  }

  // --------------------------------------------------------------------------- IDENTIFY

  function Reads(n: nat): seq<Op> {
    if n == 0 then [] else [OpRead(DATA_PORT, 2)] + Reads(n - 1)
  }

  /** Word `k` of the identification is the next one the data port offers. */
  predicate OffersWord(d: Disk, k: nat) {
    d.phase.status == ST_DATA && d.x.kind.Identify? && d.x.dataIndex == 2 * k && k <= 256 &&
    |d.identify| == 256
  }

  lemma IdentifyWordRead(a: Ata, k: nat)
    requires OffersWord(a.d, k) && k < 256
    ensures var r := Step(a, OpRead(DATA_PORT, 2));
            && r.bytes == [a.d.identify[k] % 0x100, a.d.identify[k] / 0x100]
            && r.a.d.identify == a.d.identify
            && (if k < 255 then OffersWord(r.a.d, k + 1)
                else r.a.d.phase.status == ST_IDLE && r.a.d.x.kind.NoTransfer?)
  {
    hide SetIrq;
  }

  lemma {:induction false} IdentifyDrains(a: Ata, k: nat)
    requires OffersWord(a.d, k) && k < 256
    ensures var r := Run(a, Reads(256 - k));
            && r.bytes == Bytes(a.d.identify[k..])
            && r.a.d.phase.status == ST_IDLE && r.a.d.x.kind.NoTransfer?
    decreases 256 - k
  {
    hide Step;
    IdentifyWordRead(a, k);
    var one := Step(a, OpRead(DATA_PORT, 2));
    assert Run(a, Reads(256 - k)) ==
           Moved(Run(one.a, Reads(255 - k)).a, one.bytes + Run(one.a, Reads(255 - k)).bytes);
    assert a.d.identify[k..][1..] == a.d.identify[k + 1..];
    if k < 255 {
      IdentifyDrains(one.a, k + 1);
    } else {
      assert a.d.identify[256..] == [];
    }
  }

  /** IDENTIFY, a tick, and 256 reads of the data port deliver the identification, whose words
      60 and 61 are the capacity, and end the command. */
  lemma IdentifyDelivers(a: Ata)
    requires !a.d.phase.resetAsserted && !a.d.phase.resetPending
    ensures var words := BuildIdentify(a.d.media, a.d.multipleCount);
            var r := Run(Tick(Command(a, 0xec)).a, Reads(256));
            && r.bytes == Bytes(words)
            && words[60] + TWO_TO_16 * words[61] == Capacity(a.d.media)
            && r.a.d.phase.status == ST_IDLE && r.a.d.x.kind.NoTransfer?
  {
    hide Tick, Command, BuildIdentify, Bytes, Run, Reads, OffersWord, Capacity;
    IdentifyOffered(a);
    CapacityWords(a.d.media, a.d.multipleCount);
    var b := Tick(Command(a, 0xec)).a;
    IdentifyDrains(b, 0);
    assert b.d.identify[0..] == b.d.identify;
  }

  lemma IdentifyOffered(a: Ata)
    requires !a.d.phase.resetAsserted && !a.d.phase.resetPending
    ensures OffersWord(Tick(Command(a, 0xec)).a.d, 0)
    ensures Tick(Command(a, 0xec)).a.d.identify == BuildIdentify(a.d.media, a.d.multipleCount)
  {
    hide IdentifyWord, Capacity, DmaChunk, CompleteReset, CompleteNondata, FinishTransfer;
  }

  lemma CapacityWords(media: seq<Byte>, multiple: Byte)
    ensures var words := BuildIdentify(media, multiple);
            words[60] + TWO_TO_16 * words[61] == Capacity(media)
  {
    hide StringWord;
  }
}
