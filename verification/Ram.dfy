/** Guest memory (src/ram.c): SDRAM with its mirrors and alias, and fast RAM. */
module Ram {
  import opened Words

  const SDRAM_BASE: nat := 0x1000_0000
  const SDRAM_SIZE: nat := 0x0200_0000
  const SDRAM_MIRROR_END: nat := 0x17ff_ffff
  const ALIAS_BASE: nat := 0x9000_0000
  const ALIAS_END: nat := 0x97ff_ffff
  const FASTRAM_BASE: nat := 0x4000_0000
  const FASTRAM_SIZE: nat := 0x2_0000

  /** `lowMapped` is the low-memory remap of SDRAM at address zero. */
  datatype Banks = Banks(sdram: seq<Byte>, fast: seq<Byte>, lowMapped: bool)

  type Memory = m: Banks | |m.sdram| == SDRAM_SIZE && |m.fast| == FASTRAM_SIZE
    ghost witness Banks(seq(SDRAM_SIZE, i => 0), seq(FASTRAM_SIZE, i => 0), false)

  datatype Place = Sdram(off: nat) | Fast(off: nat)

  /** Where `size` bytes at a guest address live, or None when they are not all in
      one memory; a range may not run across the end of an SDRAM mirror. */
  function Locate(lowMapped: bool, addr: Word, size: nat): (r: Option<Place>)
    requires size > 0
    ensures r.Some? && r.value.Sdram? ==> r.value.off + size <= SDRAM_SIZE
    ensures r.Some? && r.value.Fast? ==> r.value.off + size <= FASTRAM_SIZE
  {
    if addr >= SDRAM_BASE && addr + size - 1 <= SDRAM_MIRROR_END &&
       (addr - SDRAM_BASE) % SDRAM_SIZE + size <= SDRAM_SIZE
    then Some(Sdram((addr - SDRAM_BASE) % SDRAM_SIZE))
    else if addr >= ALIAS_BASE && addr + size - 1 <= ALIAS_END &&
            (addr - ALIAS_BASE) % SDRAM_SIZE + size <= SDRAM_SIZE
    then Some(Sdram((addr - ALIAS_BASE) % SDRAM_SIZE))
    else if lowMapped && addr + size - 1 < SDRAM_SIZE
    then Some(Sdram(addr))
    else if addr >= FASTRAM_BASE && addr + size - 1 < FASTRAM_BASE + FASTRAM_SIZE
    then Some(Fast(addr - FASTRAM_BASE))
    else None
  }

  function Bank(m: Memory, p: Place): seq<Byte> {
    if p.Sdram? then m.sdram else m.fast
  }

  predicate Fits(m: Memory, p: Place, size: nat) {
    p.off + size <= |Bank(m, p)|
  }

  function Load(m: Memory, p: Place, size: nat): (r: seq<Byte>)
    requires Fits(m, p, size)
    ensures |r| == size
  {
    Bank(m, p)[p.off..p.off + size]
  }

  /** Replaces the bytes of `s` from `off` on. */
  function Patch(s: seq<Byte>, off: nat, bytes: seq<Byte>): (r: seq<Byte>)
    requires off + |bytes| <= |s|
    ensures |r| == |s|
    ensures r[off..off + |bytes|] == bytes
    ensures forall i | 0 <= i < |s| && !(off <= i < off + |bytes|) :: r[i] == s[i]
  {
    s[..off] + bytes + s[off + |bytes|..]
  }

  function Store(m: Memory, p: Place, bytes: seq<Byte>): (r: Memory)
    requires Fits(m, p, |bytes|)
    ensures Fits(r, p, |bytes|) && Load(r, p, |bytes|) == bytes
  {
    if p.Sdram? then m.(sdram := Patch(m.sdram, p.off, bytes))
    else m.(fast := Patch(m.fast, p.off, bytes))
  }

  /** A little-endian 32-bit guest read, None when the address is not RAM. */
  function ReadWord(m: Memory, addr: Word): (r: Option<Word>)
    ensures r.Some? <==> Locate(m.lowMapped, addr, 4).Some?
  {
    match Locate(m.lowMapped, addr, 4)
    case None => None
    case Some(place) =>
      Some(WordOf(Load(m, place, 4)))
  }

  function WordOf(b: seq<Byte>): Word
    requires |b| == 4
  {
    Half16(b[0], b[1]) + Half16(b[2], b[3]) * TWO_TO_16
  }

  /** A memory as something to read words from. */
  function Reader(m: Memory): Fetch {
    (addr: Word) => ReadWord(m, addr)
  }

  /** The two memories as the emulator keeps them. */
  class Dram {
    const sdram: array<Byte>
    const fast: array<Byte>
    var lowMapped: bool

    ghost predicate Valid() {
      sdram.Length == SDRAM_SIZE && fast.Length == FASTRAM_SIZE && sdram != fast
    }

    ghost function Value(): Memory
      requires Valid()
      reads this, sdram, fast
    {
      Banks(sdram[..], fast[..], lowMapped)
    }

    /** The memory a place is in. */
    function Of(p: Place): array<Byte> {
      if p.Sdram? then sdram else fast
    }

    /** A little-endian 32-bit read. */
    function FetchWord(addr: Word): (r: Option<Word>)
      requires Valid()
      reads this, sdram, fast
      ensures r == Reader(Value())(addr)
    {
      match Locate(lowMapped, addr, 4)
      case None => None
      case Some(place) =>
        var bytes := if place.Sdram? then sdram[place.off..place.off + 4]
                     else fast[place.off..place.off + 4];
        assert bytes == Load(Value(), place, 4);
        Some(WordOf(bytes))
    }
  }
}
