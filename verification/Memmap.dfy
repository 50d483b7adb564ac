/** The bit operations of the memory mapping, on their own. */
module AddressBits {
  /** The bits of `target` that the mask selects, the other bits of `addr`. */
  function Replace(mask: bv32, target: bv32, addr: bv32): bv32 {
    (addr & !mask) | (target & mask)
  }

  /** The 64 KB unit of an address. */
  function Unit(a: bv32): bv32 {
    a & 0xffff_0000
  }

  function Low(a: bv32): bv32 {
    a & 0xffff
  }

  /** Address `b` moved the way `a` is when it is translated to `t`. */
  function Along(t: bv32, b: bv32): bv32 {
    Unit(t) | Low(b)
  }

  predicate Fine(offsets: bv32) {
    offsets & 0xffff_0000 == 0
  }

  /** The page of an address, `offsets` being the bits within a page. */
  function PageBase(offsets: bv32, a: bv32): bv32 {
    a & !offsets
  }

  function Join(offsets: bv32, base: bv32, a: bv32): bv32 {
    base | (a & offsets)
  }

  lemma SamePageSameUnit(offsets: bv32, a: bv32, b: bv32)
    requires Fine(offsets) && PageBase(offsets, a) == PageBase(offsets, b)
    ensures Unit(a) == Unit(b)
  {
    UnitOfPage(offsets, a);
    UnitOfPage(offsets, b);
  }

  lemma UnitOfPage(offsets: bv32, a: bv32)
    requires Fine(offsets)
    ensures Unit(a) == Unit(PageBase(offsets, a))
  {
  }

  lemma WithinPage(offsets: bv32, t: bv32, a: bv32, b: bv32)
    requires Fine(offsets) && PageBase(offsets, a) == PageBase(offsets, b) && t == Along(t, a)
    ensures Join(offsets, PageBase(offsets, t), b) == Along(t, b)
  {
    AlongWithin(offsets, t, a, b);
  }

  lemma AlongWithin(offsets: bv32, t: bv32, a: bv32, b: bv32)
    requires Fine(offsets) && PageBase(offsets, a) == PageBase(offsets, b)
    ensures Join(offsets, PageBase(offsets, Along(t, a)), b) == Along(t, b)
  {
  }

  lemma ReplaceUnit(mask: bv32, target: bv32, a: bv32)
    ensures Unit(Replace(mask, target, a)) == Replace(mask, Unit(target), Unit(a))
  {
  }

  lemma ReplaceLow(mask: bv32, target: bv32, a: bv32)
    requires mask & 0xffff == 0
    ensures Low(Replace(mask, target, a)) == Low(a)
  {
  }

  lemma UnitAndLow(a: bv32)
    ensures Unit(a) | Low(a) == a
  {
  }
}

/** The memory mapping registers and the translation they describe (src/memmap.c). */
module Memmap {
  import opened AddressBits

  datatype Access = ReadData | WriteData | FetchCode

  datatype Entry = Entry(mask: bv32, match_: bv32, target: bv32, enabled: bool,
                         read: bool, write: bool, data: bool, code: bool)

  const COUNT: nat := 8
  /** Fast RAM and everything above it is never mapped. */
  const TOP: bv32 := 0x4000_0000

  function Decode(maskReg: bv32, targetReg: bv32): Entry {
    var mask := (maskReg & 0x3fff) << 16;
    var read, write := targetReg & 0x100 != 0, targetReg & 0x200 != 0;
    var code, data := targetReg & 0x400 != 0, targetReg & 0x800 != 0;
    Entry(mask, maskReg & 0x3fff_0000, targetReg & 0x3fff_0000,
          mask != 0 && (read || write) && (data || code), read, write, data, code)
  }

  predicate Allows(e: Entry, access: Access) {
    match access
    case ReadData => e.read && e.data
    case WriteData => e.write && e.data
    case FetchCode => e.read && e.code
  }

  predicate Matches(e: Entry, addr: bv32, access: Access) {
    Mappable(addr) && e.enabled && Allows(e, access) && Selects(e.mask, e.match_, addr)
  }

  predicate Mappable(addr: bv32) {
    addr < TOP
  }

  predicate Selects(mask: bv32, match_: bv32, addr: bv32) {
    Part(mask, addr) == Part(mask, match_)
  }

  function Part(mask: bv32, addr: bv32): bv32 {
    addr & mask
  }

  function Mapped(e: Entry, addr: bv32): bv32 {
    Replace(e.mask, e.target, addr)
  }

  /** The first entry that matches decides; without one the address stays what it is. */
  function Translate(entries: seq<Entry>, addr: bv32, access: Access): bv32 {
    if entries == [] then addr
    else if Matches(entries[0], addr, access) then Mapped(entries[0], addr)
    else Translate(entries[1..], addr, access)
  }

  /** Entry `i` is the one that decides. */
  predicate First(entries: seq<Entry>, i: nat, addr: bv32, access: Access) {
    i < |entries| && Matches(entries[i], addr, access) &&
    forall j | 0 <= j < i :: !Matches(entries[j], addr, access)
  }

  lemma {:induction false} TranslateFirst(entries: seq<Entry>, i: nat, addr: bv32, access: Access)
    requires First(entries, i, addr, access)
    ensures Translate(entries, addr, access) == Mapped(entries[i], addr)
  {
    hide Matches, Mapped;
    if i > 0 {
      assert !Matches(entries[0], addr, access);
      forall j | 0 <= j < i - 1 ensures !Matches(entries[1..][j], addr, access) {
        assert entries[1..][j] == entries[j + 1];
      }
      TranslateFirst(entries[1..], i - 1, addr, access);
    }
  }

  lemma {:induction false} TranslateNone(entries: seq<Entry>, addr: bv32, access: Access)
    requires forall j | 0 <= j < |entries| :: !Matches(entries[j], addr, access)
    ensures Translate(entries, addr, access) == addr
  {
    hide Matches, Mapped;
    if entries != [] {
      forall j | 0 <= j < |entries| - 1 ensures !Matches(entries[1..][j], addr, access) {
        assert entries[1..][j] == entries[j + 1];
      }
      TranslateNone(entries[1..], addr, access);
    }
  }

  /** The search, which leaves its out-parameter alone when nothing matches. */
  method Search(entries: seq<Entry>, addr: bv32, access: Access, before: bv32)
    returns (found: bool, translated: bv32)
    ensures found <==> exists j :: 0 <= j < |entries| && Matches(entries[j], addr, access)
    ensures found ==> translated == Translate(entries, addr, access)
    ensures !found ==> translated == before
  {
    hide Matches, Mapped;
    for i := 0 to |entries|
      invariant forall j | 0 <= j < i :: !Matches(entries[j], addr, access)
    {
      if Matches(entries[i], addr, access) {
        TranslateFirst(entries, i, addr, access);
        return true, Mapped(entries[i], addr);
      }
    }
    return false, before;
  }

  // -------------------------------------------------------------------- page granularity

  /** Mapping works in units of 64 KB: two addresses in the same unit. */
  predicate SameUnit(a: bv32, b: bv32) {
    Unit(a) == Unit(b)
  }

  /** Entries as the registers give them: the mask says nothing about the low half. */
  predicate Coarse(entries: seq<Entry>) {
    forall i | 0 <= i < |entries| :: entries[i].mask & 0xffff == 0
  }

  lemma DecodeCoarse(maskReg: bv32, targetReg: bv32)
    ensures Decode(maskReg, targetReg).mask & 0xffff == 0
  {
  }

  lemma PartOfUnit(mask: bv32, a: bv32)
    requires mask & 0xffff == 0
    ensures Part(mask, a) == Part(mask, Unit(a))
  {
  }

  lemma MappableUnit(a: bv32)
    ensures Mappable(a) == Mappable(Unit(a))
  {
  }

  lemma SelectsSame(mask: bv32, match_: bv32, a: bv32, b: bv32)
    requires mask & 0xffff == 0 && SameUnit(a, b)
    ensures Selects(mask, match_, a) == Selects(mask, match_, b)
    ensures Mappable(a) == Mappable(b)
  {
    hide Part, Unit, Mappable;
    PartOfUnit(mask, a);
    PartOfUnit(mask, b);
    MappableUnit(a);
    MappableUnit(b);
  }

  lemma MatchesSame(e: Entry, a: bv32, b: bv32, access: Access)
    requires e.mask & 0xffff == 0 && SameUnit(a, b)
    ensures Matches(e, a, access) == Matches(e, b, access)
  {
    hide Allows, SameUnit, Mappable, Selects;
    SelectsSame(e.mask, e.match_, a, b);
  }

  lemma MappedUnit(e: Entry, a: bv32, b: bv32)
    requires e.mask & 0xffff == 0 && SameUnit(a, b)
    ensures Mapped(e, b) == Along(Mapped(e, a), b)
  {
    hide Replace, Unit, Low;
    ReplaceUnit(e.mask, e.target, a);
    ReplaceUnit(e.mask, e.target, b);
    ReplaceLow(e.mask, e.target, b);
    UnitAndLow(Mapped(e, b));
  }

  /** Two addresses of a unit are matched by the same entries, and translation moves the unit
      as a whole. */
  lemma {:induction false} TranslateUnit(entries: seq<Entry>, a: bv32, b: bv32, access: Access)
    requires Coarse(entries) && SameUnit(a, b)
    ensures Translate(entries, b, access) == Along(Translate(entries, a, access), b)
  {
    hide Matches, Mapped, Low, Unit;
    if entries == [] {
      UnitAndLow(b);
    } else {
      MatchesSame(entries[0], a, b, access);
      MappedUnit(entries[0], a, b);
      if !Matches(entries[0], a, access) {
        TranslateUnit(entries[1..], a, b, access);
      }
    }
  }
}
