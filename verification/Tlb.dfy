/** The translation cache under virtual mapping (hook_tlb_fill, n1g_cpu_apply_memmap and the
    slice in src/cpu_unicorn.c) and the registers behind it (src/dev_memcon.c). */
module Tlb {
  import opened Words
  import opened AddressBits
  import opened Memmap

  const REGS: nat := 0x4000
  /** The first mapping register, as an index. */
  const FIRST: nat := 0x3c00
  const DEBOUNCE: nat := 16

  type Registers = r: seq<Word> | |r| == REGS witness seq(REGS, i => 0)

  datatype Key = Key(page: bv32, access: Access)

  /** `offsets` selects the bits of an address that lie within one page of the cache. */
  datatype Memory = Memory(regs: Registers, cache: map<Key, bv32>, isVirtual: bool, offsets: bv32,
                           flushPending: bool, lastRequest: Option<nat>)

  function EntryAt(regs: Registers, i: nat): Entry
    requires i < COUNT
  {
    FromRegisters(regs[FIRST + 2 * i], regs[FIRST + 2 * i + 1])
  }

  function FromRegisters(logical: Word, physical: Word): Entry {
    Decode(logical as bv32, physical as bv32)
  }

  function Entries(regs: Registers): (r: seq<Entry>)
    ensures |r| == COUNT
  {
    seq(COUNT, i requires 0 <= i < COUNT => EntryAt(regs, i))
  }

  function Page(m: Memory, addr: bv32): bv32 {
    PageBase(m.offsets, addr)
  }

  /** The guest touches an address that is not in the cache: its page is added. Without
      virtual mapping there is nothing to fill in. */
  function Fill(m: Memory, addr: bv32, access: Access): Memory {
    if !m.isVirtual then m
    else m.(cache := m.cache[Key(Page(m, addr), access) :=
                             PageBase(m.offsets, Translate(Entries(m.regs), addr, access))])
  }

  function Aligned(offset: nat): nat {
    offset - offset % 4
  }

  /** The two operation bits of the cache operation register clear themselves. */
  function SelfClear(aligned: nat, value: Word): Word {
    if aligned != 0xf044 then value
    else value - (if Bit(value, 2) then 2 else 0) - (if Bit(value, 4) then 4 else 0)
  }

  predicate IsMapping(aligned: nat) {
    0xf000 <= aligned <= 0xf03c
  }

  predicate Discards(aligned: nat, value: Word) {
    0x4000 <= aligned < 0x8000 || (aligned == 0xf044 && Bit(value, 4))
  }

  /** Bursts of discards ask for one flush. */
  function Request(m: Memory, now: nat): Memory {
    m.(flushPending := m.flushPending || m.lastRequest.None? || now >= m.lastRequest.value + DEBOUNCE,
       lastRequest := Some(now))
  }

  function WriteReg(m: Memory, offset: nat, size: nat, value: Word, now: nat): Memory {
    var aligned := Aligned(offset);
    if aligned / 4 >= REGS then m
    else
      var merged := Merge(m.regs[aligned / 4], offset, size, value);
      var stored := m.(regs := m.regs[aligned / 4 := SelfClear(aligned, merged)],
                       cache := if IsMapping(aligned) && m.isVirtual then map[] else m.cache);
      if Discards(aligned, value) then Request(stored, now) else stored
  }

  function ReadReg(m: Memory, offset: nat, size: nat): Word {
    if Aligned(offset) / 4 >= REGS then 0 else ReadPart(m.regs[Aligned(offset) / 4], offset, size)
  }

  function Flush(m: Memory): Memory {
    m.(cache := map[])
  }

  /** The start of a slice carries out a flush that was asked for. */
  function Slice(m: Memory): Memory {
    if m.flushPending then Flush(m.(flushPending := false)) else m
  }

  datatype Event =
    | Touch(addr: bv32, access: Access)
    | Store(offset: nat, size: nat, value: Word, now: nat)
    | NewSlice
    | AskFlush
    | EmptyCache
    | Evict(key: Key)

  function Step(m: Memory, e: Event): Memory {
    match e
    case Touch(addr, access) => if Key(Page(m, addr), access) in m.cache then m else Fill(m, addr, access)
    case Store(offset, size, value, now) => WriteReg(m, offset, size, value, now)
    case NewSlice => Slice(m)
    case AskFlush => m.(flushPending := true)
    case EmptyCache => Flush(m)
    case Evict(key) => m.(cache := m.cache - {key})
  }

  function Run(m: Memory, events: seq<Event>): Memory
    decreases |events|
  {
    if events == [] then m else Run(Step(m, events[0]), events[1..])
  }

  // --------------------------------------------------------------------------- coherence

  /** Pages are no larger than the unit of mapping. */
  predicate FinePages(m: Memory) {
    Fine(m.offsets)
  }

  /** What the guest gets for an address whose page is in the cache. */
  function Cached(m: Memory, addr: bv32, access: Access): bv32
    requires Key(Page(m, addr), access) in m.cache
  {
    Join(m.offsets, m.cache[Key(Page(m, addr), access)], addr)
  }

  /** Every address that hits the cache gets what the registers say now. */
  ghost predicate Coherent(m: Memory) {
    forall addr, access | Key(Page(m, addr), access) in m.cache ::
      Cached(m, addr, access) == Translate(Entries(m.regs), addr, access)
  }

  lemma RegistersCoarse(logical: Word, physical: Word)
    ensures FromRegisters(logical, physical).mask & 0xffff == 0
  {
    hide Decode;
    DecodeCoarse(logical as bv32, physical as bv32);
  }

  lemma EntriesCoarse(regs: Registers)
    ensures Coarse(Entries(regs))
  {
    hide FromRegisters;
    forall i | 0 <= i < COUNT ensures Entries(regs)[i].mask & 0xffff == 0 {
      RegistersCoarse(regs[FIRST + 2 * i], regs[FIRST + 2 * i + 1]);
    }
  }

  /** Filling a page from one address of it is right for all of them. */
  lemma FillRight(m: Memory, a: bv32, b: bv32, access: Access)
    requires FinePages(m) && m.isVirtual && Page(m, a) == Page(m, b)
    ensures Key(Page(m, b), access) in Fill(m, a, access).cache
    ensures Cached(Fill(m, a, access), b, access) == Translate(Entries(m.regs), b, access)
  {
    hide Translate, Entries, Coarse, Unit, Along, Fine, PageBase, Join;
    EntriesCoarse(m.regs);
    SamePageSameUnit(m.offsets, a, b);
    TranslateUnit(Entries(m.regs), a, b, access);
    TranslateUnit(Entries(m.regs), a, a, access);
    WithinPage(m.offsets, Translate(Entries(m.regs), a, access), a, b);
  }

  lemma FillCoherent(m: Memory, a: bv32, access: Access)
    requires FinePages(m) && Coherent(m)
    ensures Coherent(Fill(m, a, access))
  {
    hide Translate, Entries, FinePages, PageBase, Join;
    if m.isVirtual {
      var f := Fill(m, a, access);
      forall b, kind | Key(Page(f, b), kind) in f.cache
        ensures Cached(f, b, kind) == Translate(Entries(f.regs), b, kind)
      {
        if Key(Page(m, b), kind) == Key(Page(m, a), access) {
          FillRight(m, a, b, access);
        }
      }
    }
  }

  /** Only the mapping registers decide the entries. */
  lemma OtherRegister(regs: Registers, i: nat, value: Word)
    requires i < REGS && !(FIRST <= i < FIRST + 2 * COUNT)
    ensures Entries(regs[i := value]) == Entries(regs)
  {
    hide FromRegisters;
    var after := regs[i := value];
    forall k | 0 <= k < COUNT ensures Entries(after)[k] == Entries(regs)[k] {
      assert after[FIRST + 2 * k] == regs[FIRST + 2 * k];
      assert after[FIRST + 2 * k + 1] == regs[FIRST + 2 * k + 1];
    }
  }

  lemma WriteCoherent(m: Memory, offset: nat, size: nat, value: Word, now: nat)
    requires Coherent(m) && (!m.isVirtual ==> m.cache == map[])
    ensures Coherent(WriteReg(m, offset, size, value, now))
  {
    hide Translate, Entries, Merge, SelfClear, Discards, PageBase, Join;
    var aligned := Aligned(offset);
    if aligned / 4 < REGS && !IsMapping(aligned) {
      OtherRegister(m.regs, aligned / 4,
                    SelfClear(aligned, Merge(m.regs[aligned / 4], offset, size, value)));
    }
  }

  /** What holds in every state of the cache. */
  ghost predicate Inv(m: Memory) {
    FinePages(m) && Coherent(m) && (!m.isVirtual ==> m.cache == map[])
  }

  lemma StepInv(m: Memory, e: Event)
    requires Inv(m)
    ensures Inv(Step(m, e))
  {
    hide Coherent, Merge, SelfClear, Discards, Entries, Translate;
    match e
    case Touch(addr, access) => FillCoherent(m, addr, access);
    case Store(offset, size, value, now) => WriteCoherent(m, offset, size, value, now);
    case NewSlice => EmptyCoherent(m.(flushPending := false)); SameCoherent(m);
    case AskFlush => SameCoherent(m);
    case EmptyCache => EmptyCoherent(m);
    case Evict(key) => SmallerCoherent(m, key);
  }

  lemma EmptyCoherent(m: Memory)
    ensures Coherent(Flush(m))
  {
  }

  lemma SmallerCoherent(m: Memory, key: Key)
    requires Coherent(m)
    ensures Coherent(m.(cache := m.cache - {key}))
  {
    hide Translate, Entries, PageBase, Join;
  }

  lemma SameCoherent(m: Memory)
    requires Coherent(m)
    ensures Coherent(m.(flushPending := true))
  {
    hide Translate, Entries, PageBase, Join;
  }

  /** Over every run of accesses, register writes of any size, slices and flushes that starts
      with an empty cache, the cache agrees with the mapping registers. */
  lemma {:induction false} RunInv(m: Memory, events: seq<Event>)
    requires Inv(m)
    ensures Inv(Run(m, events))
    decreases |events|
  {
    if events != [] {
      hide Inv, Step;
      StepInv(m, events[0]);
      RunInv(Step(m, events[0]), events[1..]);
    }
  }

  lemma AlwaysCoherent(regs: Registers, offsets: bv32, isVirtual: bool, events: seq<Event>,
                       addr: bv32, access: Access)
    requires Fine(offsets)
    ensures var m := Run(Memory(regs, map[], isVirtual, offsets, false, None), events);
            Key(Page(m, addr), access) in m.cache ==>
              Cached(m, addr, access) == Translate(Entries(m.regs), addr, access)
  {
    hide Run, Translate, Entries;
    RunInv(Memory(regs, map[], isVirtual, offsets, false, None), events);
  }

  // ---------------------------------------------------------------- registers and flushes

  /** A register reads back what was written to it, apart from the operation bits that clear
      themselves. */
  lemma ReadsBack(m: Memory, offset: nat, size: nat, value: Word, now: nat)
    requires Aligned(offset) / 4 < REGS && Aligned(offset) != 0xf044
    requires offset % 4 + AccessBytes(size) <= 4
    ensures ReadReg(WriteReg(m, offset, size, value, now), offset, size) ==
            (if size == 1 then value % 0x100 else if size == 2 then value % 0x1_0000 else value)
  {
    hide Merge, ReadPart;
    MergeThenRead(m.regs[Aligned(offset) / 4], offset, size, value);
  }

  /** A burst of discards: each comes less than the debounce time after the one before. */
  predicate Burst(last: nat, times: seq<nat>)
    decreases |times|
  {
    times == [] || (last <= times[0] < last + DEBOUNCE && Burst(times[0], times[1..]))
  }

  function Requests(m: Memory, times: seq<nat>): Memory
    decreases |times|
  {
    if times == [] then m else Requests(Request(m, times[0]), times[1..])
  }

  /** After the flush a burst has asked for, the rest of the burst asks for no other. */
  lemma {:induction false} BurstFlushesOnce(m: Memory, last: nat, times: seq<nat>)
    requires m.lastRequest == Some(last) && !m.flushPending && Burst(last, times)
    ensures !Requests(m, times).flushPending
    decreases |times|
  {
    if times != [] {
      BurstFlushesOnce(Request(m, times[0]), times[0], times[1..]);
    }
  }

  // -------------------------------------------------------------------------- the device

  class Controller {
    const regs: array<Word>
    const isVirtual: bool
    const offsets: bv32
    var cache: map<Key, bv32>
    var flushPending: bool
    var lastRequest: Option<nat>

    ghost predicate Valid() {
      regs.Length == REGS
    }

    ghost function State(): Memory
      requires Valid()
      reads this, regs
    {
      Memory(regs[..], cache, isVirtual, offsets, flushPending, lastRequest)
    }

    constructor (isVirtual: bool, offsets: bv32)
      requires Fine(offsets)
      ensures Valid() && fresh(regs) && Inv(State())
    {
      regs := new Word[REGS](i => 0);
      this.isVirtual, this.offsets := isVirtual, offsets;
      cache, flushPending, lastRequest := map[], false, None;
    }

    method DecodeCurrent() returns (entries: seq<Entry>)
      requires Valid()
      ensures entries == Entries(regs[..])
    {
      hide FromRegisters;
      entries := [];
      for i := 0 to COUNT
        invariant entries == Entries(regs[..])[..i]
      {
        entries := entries + [FromRegisters(regs[FIRST + 2 * i], regs[FIRST + 2 * i + 1])];
      }
    }

    /** The hook for an access that misses; without a matching entry the address stands. */
    method HookFill(addr: bv32, access: Access) returns (ok: bool)
      requires Valid()
      modifies this`cache
      ensures State() == Fill(old(State()), addr, access) && ok == isVirtual
    {
      hide Translate, Entries, PageBase, Join, Matches;
      if !isVirtual { return false; }
      var entries := DecodeCurrent();
      var found, translated := Search(entries, addr, access, addr);
      if !found {
        TranslateNone(entries, addr, access);
      }
      cache := cache[Key(PageBase(offsets, addr), access) := PageBase(offsets, translated)];
      return true;
    }

    method Write(offset: nat, size: nat, value: Word, now: nat)
      requires Valid()
      modifies this, regs
      ensures State() == WriteReg(old(State()), offset, size, value, now)
    {
      hide Merge, SelfClear;
      var aligned := offset - offset % 4;
      if aligned / 4 >= REGS { return; }
      ghost var before := regs[..];
      var merged := Merge(regs[aligned / 4], offset, size, value);
      regs[aligned / 4] := SelfClear(aligned, merged);
      assert regs[..] == before[aligned / 4 := SelfClear(aligned, merged)];
      if 0xf000 <= aligned <= 0xf03c && isVirtual {
        cache := map[];
      }
      if (0x4000 <= aligned < 0x8000) || (aligned == 0xf044 && Bit(value, 4)) {
        if !flushPending && (lastRequest.None? || now >= lastRequest.value + DEBOUNCE) {
          flushPending := true;
        }
        lastRequest := Some(now);
      }
    }

    method StartSlice()
      requires Valid()
      modifies this
      ensures State() == Slice(old(State()))
    {
      if flushPending {
        flushPending := false;
        cache := map[];
      }
    }
  }
}
