/** The histogram of device accesses (src/bus.c): an open-addressed table with linear probing
    that behaves as a map of limited size, and the report of its busiest entries. */
module MmioProfile {
  import opened Words

  const SLOTS: nat := 4096
  const RANKS: nat := 16
  const HASH: nat := 2654435761

  datatype Entry = Entry(addr: Word, loads: nat, stores: nat)
  datatype Counts = Counts(loads: nat, stores: nat)
  datatype Call = Call(addr: Word, write: bool)

  function Total(e: Entry): nat {
    e.loads + e.stores
  }

  predicate Used(e: Entry) {
    Total(e) > 0
  }

  function Home(addr: Word): nat {
    addr / 4 * HASH % TWO_TO_32 % SLOTS
  }

  function Probe(home: nat, p: nat): (r: nat)
    ensures r < SLOTS
  {
    (home + p) % SLOTS
  }

  // ------------------------------------------------------------------- the map it refines

  /** What is known of each recorded address, and how many calls found no room. */
  datatype Histogram = Histogram(counts: map<Word, Counts>, overflow: nat)

  function Bump(c: Counts, write: bool): Counts {
    if write then c.(stores := c.stores + 1) else c.(loads := c.loads + 1)
  }

  function Record(h: Histogram, call: Call): Histogram {
    if call.addr in h.counts then
      h.(counts := h.counts[call.addr := Bump(h.counts[call.addr], call.write)])
    else if |h.counts| < SLOTS then
      h.(counts := h.counts[call.addr := Bump(Counts(0, 0), call.write)])
    else h.(overflow := h.overflow + 1)
  }

  function RecordAll(calls: seq<Call>): Histogram {
    if calls == [] then Histogram(map[], 0)
    else Record(RecordAll(calls[..|calls| - 1]), calls[|calls| - 1])
  }

  /** How often an address was read and written in a run. */
  function CallsTo(calls: seq<Call>, addr: Word): Counts {
    if calls == [] then Counts(0, 0)
    else
      var rest, last := CallsTo(calls[..|calls| - 1], addr), calls[|calls| - 1];
      if last.addr == addr then Bump(rest, last.write) else rest
  }

  /** The addresses of a run in the order of their first calls. */
  function FirstSeen(calls: seq<Call>): seq<Word> {
    if calls == [] then []
    else
      var rest, last := FirstSeen(calls[..|calls| - 1]), calls[|calls| - 1];
      if last.addr in rest then rest else rest + [last.addr]
  }

  function Elements(s: seq<Word>): set<Word> {
    set x | x in s
  }

  /** The addresses that get an entry: the first 4096 different ones. */
  function Kept(calls: seq<Call>): seq<Word> {
    var all := FirstSeen(calls);
    if |all| <= SLOTS then all else all[..SLOTS]
  }

  function CallsOutside(calls: seq<Call>, keep: set<Word>): nat {
    if calls == [] then 0
    else
      CallsOutside(calls[..|calls| - 1], keep) +
      if calls[|calls| - 1].addr in keep then 0 else 1
  }

  lemma {:induction false} SeenDistinct(calls: seq<Call>)
    ensures forall i, j | 0 <= i < j < |FirstSeen(calls)| :: FirstSeen(calls)[i] != FirstSeen(calls)[j]
  {
    if calls != [] {
      SeenDistinct(calls[..|calls| - 1]);
    }
  }

  lemma {:induction false} DistinctSize(s: seq<Word>)
    requires forall i, j | 0 <= i < j < |s| :: s[i] != s[j]
    ensures |Elements(s)| == |s|
  {
    if s != [] {
      var most := s[..|s| - 1];
      DistinctSize(most);
      assert Elements(s) == Elements(most) + {s[|s| - 1]};
    }
  }

  lemma {:induction false} AllSeen(calls: seq<Call>, i: nat)
    requires i < |calls|
    ensures calls[i].addr in FirstSeen(calls)
  {
    if i < |calls| - 1 {
      AllSeen(calls[..|calls| - 1], i);
    }
  }

  lemma {:induction false} NoneOutside(calls: seq<Call>, keep: set<Word>)
    requires forall i | 0 <= i < |calls| :: calls[i].addr in keep
    ensures CallsOutside(calls, keep) == 0
  {
    if calls != [] {
      NoneOutside(calls[..|calls| - 1], keep);
    }
  }

  lemma {:induction false} NeverCalled(calls: seq<Call>, addr: Word)
    requires addr !in FirstSeen(calls)
    ensures CallsTo(calls, addr) == Counts(0, 0)
  {
    if calls != [] {
      NeverCalled(calls[..|calls| - 1], addr);
    }
  }

  /** The histogram of a run: exactly the first 4096 addresses are recorded, each with its
      exact number of reads and writes, and every call to another address is overflow. */
  lemma {:induction false} RecordedExactly(calls: seq<Call>)
    ensures var h := RecordAll(calls);
            && h.counts.Keys == Elements(Kept(calls))
            && |h.counts| == |Kept(calls)|
            && (forall a | a in h.counts :: h.counts[a] == CallsTo(calls, a))
            && h.overflow == CallsOutside(calls, h.counts.Keys)
  {
    KeptSize(calls);
    if calls != [] {
      hide Kept, FirstSeen, CallsOutside;
      var most, last := calls[..|calls| - 1], calls[|calls| - 1];
      RecordedExactly(most);
      OutsideStep(calls);
      var h, g := RecordAll(most), RecordAll(calls);
      assert |h.counts| == |h.counts.Keys| && |g.counts| == |g.counts.Keys|;
      if last.addr !in h.counts && |h.counts| < SLOTS {
        NewAddress(most, last.addr);
        assert g.counts.Keys == h.counts.Keys + {last.addr};
      } else {
        assert g.counts.Keys == h.counts.Keys;
      }
    } else {
      Nothing();
    }
  }

  lemma Nothing()
    ensures Kept([]) == [] && CallsOutside([], {}) == 0
  {
  }

  lemma KeptSize(calls: seq<Call>)
    ensures |Elements(Kept(calls))| == |Kept(calls)|
  {
    hide FirstSeen;
    SeenDistinct(calls);
    DistinctSize(Kept(calls));
  }

  /** With room left, an address without an entry has not been called before. */
  lemma NewAddress(calls: seq<Call>, addr: Word)
    requires |Kept(calls)| < SLOTS && addr !in Elements(Kept(calls))
    ensures CallsTo(calls, addr) == Counts(0, 0)
    ensures CallsOutside(calls, Elements(Kept(calls))) == 0
    ensures CallsOutside(calls, Elements(Kept(calls)) + {addr}) == 0
  {
    hide CallsTo, CallsOutside, FirstSeen;
    NeverCalled(calls, addr);
    forall i | 0 <= i < |calls| ensures calls[i].addr in Elements(Kept(calls)) {
      AllSeen(calls, i);
    }
    NoneOutside(calls, Elements(Kept(calls)));
    NoneOutside(calls, Elements(Kept(calls)) + {addr});
  }

  lemma OutsideStep(calls: seq<Call>)
    requires calls != []
    ensures forall keep :: CallsOutside(calls, keep) ==
              CallsOutside(calls[..|calls| - 1], keep) +
              if calls[|calls| - 1].addr in keep then 0 else 1
  {
  }

  /** The calls to a list of addresses. */
  function CallsToAll(calls: seq<Call>, addrs: seq<Word>): nat {
    if addrs == [] then 0
    else
      var c := CallsTo(calls, addrs[|addrs| - 1]);
      CallsToAll(calls, addrs[..|addrs| - 1]) + c.loads + c.stores
  }

  lemma {:induction false} NoCalls(addrs: seq<Word>)
    ensures CallsToAll([], addrs) == 0
    decreases |addrs|
  {
    if addrs != [] {
      NoCalls(addrs[..|addrs| - 1]);
    }
  }

  lemma {:induction false} OneMoreCall(calls: seq<Call>, addrs: seq<Word>)
    requires calls != [] && forall i, j | 0 <= i < j < |addrs| :: addrs[i] != addrs[j]
    ensures CallsToAll(calls, addrs) == CallsToAll(calls[..|calls| - 1], addrs) +
                                        if calls[|calls| - 1].addr in addrs then 1 else 0
    decreases |addrs|
  {
    if addrs != [] {
      OneMoreCall(calls, addrs[..|addrs| - 1]);
    }
  }

  lemma {:induction false} EveryCallCounted(calls: seq<Call>, addrs: seq<Word>)
    requires forall i, j | 0 <= i < j < |addrs| :: addrs[i] != addrs[j]
    ensures CallsToAll(calls, addrs) + CallsOutside(calls, Elements(addrs)) == |calls|
    decreases |calls|
  {
    hide CallsToAll;
    if calls == [] {
      NoCalls(addrs);
    } else {
      OneMoreCall(calls, addrs);
      EveryCallCounted(calls[..|calls| - 1], addrs);
    }
  }

  /** The counts of all entries and the overflow add up to the number of calls. */
  lemma NothingLost(calls: seq<Call>)
    ensures CallsToAll(calls, Kept(calls)) + RecordAll(calls).overflow == |calls|
  {
    hide FirstSeen, CallsToAll, CallsOutside, RecordAll;
    RecordedExactly(calls);
    SeenDistinct(calls);
    EveryCallCounted(calls, Kept(calls));
  }

  // ----------------------------------------------------------------------------- the table

  type Table = t: seq<Entry> | |t| == SLOTS witness seq(SLOTS, i => Entry(0, 0, 0))

  /** Every recorded address has its own slot, which holds its counts; between its home slot
      and its own there is no gap. `at` gives the slots. */
  ghost predicate Refines(t: Table, counts: map<Word, Counts>, at: map<Word, nat>) {
    && at.Keys == counts.Keys
    && (forall a | a in at :: at[a] < SLOTS && Used(t[at[a]]) &&
                              t[at[a]] == Entry(a, counts[a].loads, counts[a].stores))
    && (forall i | 0 <= i < SLOTS && Used(t[i]) :: t[i].addr in at && at[t[i].addr] == i)
    && (forall a | a in at :: NoGap(t, Home(a), at[a]))
  }

  /** All slots from `home` up to `slot`, going round, are in use. */
  ghost predicate NoGap(t: Table, home: nat, slot: nat) {
    exists d :: 0 <= d < SLOTS && slot == Probe(home, d) && Filled(t, home, d)
  }

  ghost predicate Filled(t: Table, home: nat, d: nat) {
    forall p | 0 <= p < d :: Used(t[Probe(home, p)])
  }

  /** The first `p` probes found other addresses. */
  ghost predicate Passed(t: Table, addr: Word, p: nat) {
    forall q | 0 <= q < p :: Used(t[Probe(Home(addr), q)]) && t[Probe(Home(addr), q)].addr != addr
  }

  /** An address is not in the table when probing for it ends at an unused slot. */
  lemma EmptyMeansAbsent(t: Table, counts: map<Word, Counts>, at: map<Word, nat>, addr: Word, p: nat)
    requires Refines(t, counts, at) && Passed(t, addr, p) && p < SLOTS
    requires !Used(t[Probe(Home(addr), p)])
    ensures addr !in at
  {
    hide Home, Probe;
  }

  /** A key whose slot lies within the probes that were passed would have been found. */
  lemma FullMeansAbsent(t: Table, counts: map<Word, Counts>, at: map<Word, nat>, addr: Word)
    requires Refines(t, counts, at) && Passed(t, addr, SLOTS)
    ensures addr !in at && (forall i | 0 <= i < SLOTS :: Used(t[i]))
  {
    hide Home, Probe;
    forall i | 0 <= i < SLOTS ensures Used(t[i]) {
      var q := Reaches(Home(addr), i);
    }
  }

  /** Probing visits every slot. */
  function Reaches(home: nat, i: nat): (q: nat)
    requires i < SLOTS
    ensures q < SLOTS && Probe(home, q) == i
  {
    (i + SLOTS - home % SLOTS) % SLOTS
  }

  function Below(n: nat): set<nat> {
    if n == 0 then {} else Below(n - 1) + {n - 1}
  }

  lemma {:induction false} BelowSize(n: nat)
    ensures |Below(n)| == n && (forall i: nat :: i in Below(n) <==> i < n)
  {
    if n > 0 {
      BelowSize(n - 1);
    }
  }

  /** The slots of a set of keys are as many as the keys. */
  lemma {:induction false} AsManySlots(at: map<Word, nat>, keys: set<Word>)
    requires keys <= at.Keys
    requires forall a, b | a in at && b in at && a != b :: at[a] != at[b]
    ensures |set a | a in keys :: at[a]| == |keys|
  {
    if keys != {} {
      var k :| k in keys;
      AsManySlots(at, keys - {k});
      assert (set a | a in keys :: at[a]) == (set a | a in keys - {k} :: at[a]) + {at[k]};
    }
  }

  lemma SlotCount(t: seq<Entry>, at: map<Word, nat>, n: nat)
    requires |t| == n
    requires forall a | a in at :: at[a] < n && Used(t[at[a]]) && t[at[a]].addr == a
    requires forall i | 0 <= i < n && Used(t[i]) :: t[i].addr in at && at[t[i].addr] == i
    ensures |at.Keys| < n <==> exists i :: 0 <= i < n && !Used(t[i])
  {
    hide Below;
    var slots, all := set a | a in at.Keys :: at[a], Below(n);
    AsManySlots(at, at.Keys);
    BelowSize(n);
    assert slots <= all;
    if i :| 0 <= i < n && !Used(t[i]) {
      Smaller(slots, all, i);
    }
    if forall i | 0 <= i < n :: Used(t[i]) {
      forall i | i in all ensures i in slots {
        assert at[t[i].addr] == i;
      }
      assert slots == all;
    }
  }

  /** There is room in the map exactly when there is an unused slot. */
  lemma RoomMeansUnused(t: Table, counts: map<Word, Counts>, at: map<Word, nat>)
    requires Refines(t, counts, at)
    ensures |counts| < SLOTS <==> exists i :: 0 <= i < SLOTS && !Used(t[i])
  {
    hide NoGap;
    SlotCount(t, at, SLOTS);
    assert |counts| == |counts.Keys| == |at.Keys|;
  }

  lemma Smaller(a: set<nat>, b: set<nat>, x: nat)
    requires a <= b && x in b && x !in a
    ensures |a| < |b|
  {
    Subset(a, b - {x});
  }

  lemma {:induction false} Subset(a: set<nat>, b: set<nat>)
    requires a <= b
    ensures |a| <= |b|
  {
    if a != {} {
      var x :| x in a;
      Subset(a - {x}, b - {x});
    }
  }

  /** Storing into an unused slot or back into the slot of the same address. */
  lemma StoreKeepsFilled(t: Table, i: nat, e: Entry)
    requires i < SLOTS && Used(e)
    ensures forall home: nat, d: nat | Filled(t, home, d) :: Filled(t[i := e], home, d)
    ensures forall home: nat, slot: nat | NoGap(t, home, slot) :: NoGap(t[i := e], home, slot)
  {
    hide Probe;
    forall home: nat, d: nat | Filled(t, home, d) ensures Filled(t[i := e], home, d) {
      forall p | 0 <= p < d ensures Used(t[i := e][Probe(home, p)]) {
        assert Used(t[Probe(home, p)]);
      }
    }
    forall home: nat, slot: nat | NoGap(t, home, slot) ensures NoGap(t[i := e], home, slot) {
      var d :| 0 <= d < SLOTS && slot == Probe(home, d) && Filled(t, home, d);
      assert Filled(t[i := e], home, d);
    }
  }

  lemma InsertRefines(t: Table, counts: map<Word, Counts>, at: map<Word, nat>, addr: Word, p: nat,
                      c: Counts)
    requires Refines(t, counts, at) && Passed(t, addr, p) && p < SLOTS && c.loads + c.stores > 0
    requires !Used(t[Probe(Home(addr), p)]) && addr !in at
    ensures Refines(t[Probe(Home(addr), p) := Entry(addr, c.loads, c.stores)], counts[addr := c],
                    at[addr := Probe(Home(addr), p)])
  {
    hide Home, Probe;
    var i, e := Probe(Home(addr), p), Entry(addr, c.loads, c.stores);
    StoreKeepsFilled(t, i, e);
    assert Filled(t, Home(addr), p);
    assert NoGap(t[i := e], Home(addr), i);
    hide NoGap;
  }

  // -------------------------------------------------------------------- the busiest entries

  /** The order of the report: more calls first, the lower address on a tie. */
  predicate Precedes(a: Entry, b: Entry) {
    Total(a) > Total(b) || (Total(a) == Total(b) && a.addr < b.addr)
  }

  /** `r` lists the first 16 used entries in the order of the report. */
  ghost predicate Reported(entries: seq<Entry>, r: seq<Entry>) {
    && |r| <= RANKS
    && (forall i, j | 0 <= i < j < |r| :: Precedes(r[i], r[j]))
    && (forall i | 0 <= i < |r| :: Used(r[i]) && r[i] in entries)
    && (forall e | e in entries && Used(e) && e !in r ::
          |r| == RANKS && forall i | 0 <= i < RANKS :: Precedes(r[i], e))
  }

  /** Used entries have different addresses. */
  ghost predicate DistinctKeys(entries: seq<Entry>) {
    forall i, j | 0 <= i < j < |entries| && Used(entries[i]) && Used(entries[j]) ::
      entries[i].addr != entries[j].addr
  }

  /** `c` put in at a rank; what falls off the end is dropped. */
  function Inserted(r: seq<Entry>, rank: nat, c: Entry): seq<Entry>
    requires rank <= |r|
  {
    var longer := r[..rank] + [c] + r[rank..];
    if |longer| > RANKS then longer[..RANKS] else longer
  }

  lemma InsertedAt(r: seq<Entry>, rank: nat, c: Entry)
    requires rank <= |r| <= RANKS && rank < RANKS
    ensures var n := Inserted(r, rank, c);
            && |n| == (if |r| < RANKS then |r| + 1 else RANKS)
            && forall i | 0 <= i < |n| ::
                 n[i] == if i < rank then r[i] else if i == rank then c else r[i - 1]
  {
  }

  lemma InsertSorted(r: seq<Entry>, rank: nat, c: Entry)
    requires rank <= |r| <= RANKS && rank < RANKS
    requires forall i, j | 0 <= i < j < |r| :: Precedes(r[i], r[j])
    requires forall i | 0 <= i < rank :: Precedes(r[i], c)
    requires rank < |r| ==> Precedes(c, r[rank])
    ensures var n := Inserted(r, rank, c); forall i, j | 0 <= i < j < |n| :: Precedes(n[i], n[j])
    ensures forall i | rank <= i < |r| :: Precedes(c, r[i])
  {
    InsertedAt(r, rank, c);
    hide Inserted;
    forall i | rank < i < |r| ensures Precedes(c, r[i]) {
      Transitive(c, r[rank], r[i]);
    }
    hide Precedes;
  }

  lemma Transitive(a: Entry, b: Entry, c: Entry)
    requires Precedes(a, b) && Precedes(b, c)
    ensures Precedes(a, c)
  {
  }

  lemma InsertReported(entries: seq<Entry>, r: seq<Entry>, rank: nat, c: Entry)
    requires Reported(entries, r) && Used(c) && rank <= |r| && rank < RANKS
    requires forall i | 0 <= i < rank :: Precedes(r[i], c)
    requires rank < |r| ==> Precedes(c, r[rank])
    ensures Reported(entries + [c], Inserted(r, rank, c))
  {
    var n := Inserted(r, rank, c);
    InsertedAt(r, rank, c);
    InsertSorted(r, rank, c);
    hide Inserted, Precedes;
    forall e | e in entries + [c] && Used(e) && e !in n
      ensures |n| == RANKS && forall i | 0 <= i < RANKS :: Precedes(n[i], e)
    {
      assert n[rank] == c;
      forall i | 0 <= i < RANKS - 1 && i < |r| ensures r[i] in n {
        assert r[i] == n[if i < rank then i else i + 1];
      }
      if e in r {
        assert e == r[RANKS - 1];
      }
    }
  }

  lemma SkipReported(entries: seq<Entry>, r: seq<Entry>, c: Entry)
    requires Reported(entries, r)
    requires Used(c) ==> |r| == RANKS && forall i | 0 <= i < RANKS :: Precedes(r[i], c)
    ensures Reported(entries + [c], r)
  {
  }

  class Profile {
    const table: array<Entry>
    var overflow: nat
    ghost var counts: map<Word, Counts>
    ghost var at: map<Word, nat>

    ghost predicate Valid()
      reads this, table
    {
      table.Length == SLOTS && Refines(table[..], counts, at)
    }

    ghost function State(): Histogram
      reads this
    {
      Histogram(counts, overflow)
    }

    constructor ()
      ensures Valid() && fresh(table) && State() == RecordAll([])
    {
      table := new Entry[SLOTS](i => Entry(0, 0, 0));
      overflow, counts, at := 0, map[], map[];
    }

    /** Counts one access. */
    method CountAccess(addr: Word, write: bool)
      requires Valid()
      modifies this, table
      ensures Valid() && State() == Record(old(State()), Call(addr, write))
    {
      hide Home, Probe, Refines;
      ghost var t := table[..];
      var slot := Home(addr);
      HomeIsFirst(addr);
      for probe := 0 to SLOTS
        invariant slot == Probe(Home(addr), probe) && slot < SLOTS
        invariant Passed(t, addr, probe) && table[..] == t
        invariant Valid() && State() == old(State()) && at == old(at)
      {
        var e := table[slot];
        if !Used(e) || e.addr == addr {
          FoundSlot(addr, probe, slot);
          var now := if write then Entry(addr, e.loads, e.stores + 1) else Entry(addr, e.loads + 1, e.stores);
          ghost var c := Counts(now.loads, now.stores);
          table[slot] := now;
          assert table[..] == t[slot := now];
          at := at[addr := slot];
          counts := counts[addr := c];
          return;
        }
        NextProbe(addr, probe);
        slot := (slot + 1) % SLOTS;
      }
      FullMeansAbsent(t, counts, at, addr);
      RoomMeansUnused(t, counts, at);
      SameKeys(t, counts, at);
      overflow := overflow + 1;
    }

    /** What the slot the probing stops at says. */
    lemma FoundSlot(addr: Word, probe: nat, slot: nat)
      requires Valid() && probe < SLOTS && slot == Probe(Home(addr), probe) && slot < SLOTS
      requires Passed(table[..], addr, probe)
      requires !Used(table[slot]) || table[slot].addr == addr
      ensures (addr in counts) == Used(table[slot])
      ensures addr in counts ==> counts[addr] == Counts(table[slot].loads, table[slot].stores)
      ensures addr !in counts ==> Total(table[slot]) == 0 && |counts| < SLOTS
      ensures forall c: Counts :: c.loads + c.stores > 0 ==>
                Refines(table[..][slot := Entry(addr, c.loads, c.stores)], counts[addr := c],
                        at[addr := slot])
    {
      hide Home, Probe;
      var t := table[..];
      if Used(t[slot]) {
        hide NoGap;
        forall c: Counts | c.loads + c.stores > 0
          ensures Refines(t[slot := Entry(addr, c.loads, c.stores)], counts[addr := c], at[addr := slot])
        {
          assert at[addr := slot] == at;
        }
      } else {
        hide NoGap;
        EmptyMeansAbsent(t, counts, at, addr, probe);
        RoomMeansUnused(t, counts, at);
        forall c: Counts | c.loads + c.stores > 0
          ensures Refines(t[slot := Entry(addr, c.loads, c.stores)], counts[addr := c], at[addr := slot])
        {
          InsertRefines(t, counts, at, addr, probe, c);
        }
      }
    }

    static lemma SameKeys(t: Table, counts: map<Word, Counts>, at: map<Word, nat>)
      requires Refines(t, counts, at)
      ensures at.Keys == counts.Keys
    {
      hide NoGap;
    }

    static lemma HomeIsFirst(addr: Word)
      ensures Home(addr) == Probe(Home(addr), 0) && Home(addr) < SLOTS
    {
    }

    static lemma NextProbe(addr: Word, p: nat)
      ensures (Probe(Home(addr), p) + 1) % SLOTS == Probe(Home(addr), p + 1) < SLOTS
    {
      hide Home;
    }

    /** The busiest entries, in order. */
    method Report() returns (r: seq<Entry>)
      requires Valid()
      ensures Reported(table[..], r)
    {
      hide Refines, Reported, Precedes, Home, Probe;
      ghost var t := table[..];
      KeysDiffer(t, counts, at);
      var top := new Entry[RANKS](i => Entry(0, 0, 0));
      var n := 0;
      NothingReported();
      for i := 0 to SLOTS
        invariant table[..] == t && n <= RANKS && Padded(top[..], n) && Reported(t[..i], top[..n])
      {
        var candidate := table[i];
        ghost var was := top[..];
        assert t[..i + 1] == t[..i] + [candidate];
        if Used(candidate) {
          var rank := 0;
          while rank < RANKS && !Precedes(candidate, top[rank])
            invariant rank <= n && top[..] == was
            invariant forall k | 0 <= k < rank :: Precedes(was[k], candidate)
          {
            BelowRanked(t, i, was, n, rank);
            rank := rank + 1;
          }
          if rank < RANKS {
            InsertAt(top, rank, candidate, n);
            InsertReported(t[..i], was[..n], rank, candidate);
            n := if n < RANKS then n + 1 else n;
          } else {
            SkipReported(t[..i], was[..n], candidate);
          }
        } else {
          SkipReported(t[..i], was[..n], candidate);
        }
      }
      assert t[..SLOTS] == t;
      return top[..n];
    }
  }

  /** Ranks from `n` on are unused. */
  predicate Padded(top: seq<Entry>, n: nat)
    requires |top| == RANKS
  {
    forall k | n <= k < RANKS :: top[k] == Entry(0, 0, 0)
  }

  lemma NothingReported()
    ensures Reported([], [])
  {
  }

  lemma KeysDiffer(t: Table, counts: map<Word, Counts>, at: map<Word, nat>)
    requires Refines(t, counts, at)
    ensures DistinctKeys(t)
  {
    hide NoGap;
  }

  /** A candidate that does not go before the entry at a rank goes after it, and the rank is
      not an unused one. */
  lemma BelowRanked(t: Table, i: nat, top: seq<Entry>, n: nat, rank: nat)
    requires i < SLOTS && DistinctKeys(t) && |top| == RANKS && n <= RANKS && Padded(top, n)
    requires Reported(t[..i], top[..n]) && rank < RANKS && rank <= n
    requires Used(t[i]) && !Precedes(t[i], top[rank])
    ensures rank < n && Precedes(top[rank], t[i])
  {
    if rank < n {
      assert top[..n][rank] in t[..i];
    }
  }

  /** Moves the ranks from `rank` on down by one and puts `c` there. */
  method InsertAt(top: array<Entry>, rank: nat, c: Entry, ghost n: nat)
    requires top.Length == RANKS && rank < RANKS && rank <= n <= RANKS && Padded(top[..], n)
    modifies top
    ensures var m := if n < RANKS then n + 1 else n;
            Padded(top[..], m) && top[..m] == Inserted(old(top[..n]), rank, c)
  {
    var move := RANKS - 1;
    while move > rank
      invariant rank <= move < RANKS
      invariant forall k | 0 <= k <= move :: top[k] == old(top[k])
      invariant forall k | move < k < RANKS :: top[k] == old(top[k - 1])
    {
      top[move] := top[move - 1];
      move := move - 1;
    }
    top[rank] := c;
  }
}
