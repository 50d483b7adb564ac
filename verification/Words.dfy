/** Fixed-width values and small helpers shared by every device. */
module Words {

  datatype Option<+T> = None | Some(value: T)

  const TWO_TO_16: nat := 0x1_0000
  const TWO_TO_32: nat := 0x1_0000_0000

  type Byte = x: nat | x < 0x100
  type Half = x: nat | x < 0x1_0000
  type Word = x: nat | x < 0x1_0000_0000

  /** What a 32-bit read of guest memory gives at each address, None where there is none. */
  type Fetch = Word -> Option<Word>

  function Min(a: nat, b: nat): nat {
    if a < b then a else b
  }

  /** Addition in a C `uint32_t`. */
  function Add32(a: Word, b: nat): Word {
    (a + b) % TWO_TO_32
  }

  lemma Add32Adds(a: Word, b: nat, c: nat)
    ensures Add32(Add32(a, b), c) == Add32(a, b + c)
  {
  }

  /** Little-endian halfword. */
  function Half16(lo: Byte, hi: Byte): Half {
    lo + hi * 0x100
  }

  predicate Bit(value: nat, weight: nat)
    requires weight > 0
  {
    value / weight % 2 == 1
  }

  /** Sets or clears the bit of the given weight. */
  function WithBit(value: Word, weight: nat, on: bool): Word
    requires weight in {0x4000_0000, 0x0400_0000, 0x0100_0000}
  {
    if Bit(value, weight) == on then value else if on then value + weight else value - weight
  }

  // ------------------------------------------------------- sub-word register accesses

  /** Byte `k` of a register, the lowest first. */
  function Lane(value: Word, k: nat): Byte {
    if k == 0 then value % 0x100
    else if k == 1 then value / 0x100 % 0x100
    else if k == 2 then value / 0x1_0000 % 0x100
    else value / 0x100_0000
  }

  function FromLanes(b0: Byte, b1: Byte, b2: Byte, b3: Byte): Word {
    b0 + 0x100 * b1 + 0x1_0000 * b2 + 0x100_0000 * b3
  }

  /** The number of bytes an access carries: 1, 2 or otherwise 4. */
  function AccessBytes(size: nat): nat {
    if size == 1 || size == 2 then size else 4
  }

  /** Byte `k` of a register after `size` bytes of `value` are written at a byte offset;
      what does not fit is lost. */
  function MergedLane(reg: Word, offset: nat, size: nat, value: Word, k: nat): Byte {
    var first := offset % 4;
    if first <= k < first + AccessBytes(size) then Lane(value, k - first) else Lane(reg, k)
  }

  function Merge(reg: Word, offset: nat, size: nat, value: Word): Word {
    FromLanes(MergedLane(reg, offset, size, value, 0), MergedLane(reg, offset, size, value, 1),
              MergedLane(reg, offset, size, value, 2), MergedLane(reg, offset, size, value, 3))
  }

  /** Byte `k` of what an access of `size` bytes at a byte offset reads. */
  function PartLane(value: Word, offset: nat, size: nat, k: nat): Byte {
    if k < AccessBytes(size) && offset % 4 + k < 4 then Lane(value, offset % 4 + k) else 0
  }

  function ReadPart(value: Word, offset: nat, size: nat): Word {
    FromLanes(PartLane(value, offset, size, 0), PartLane(value, offset, size, 1),
              PartLane(value, offset, size, 2), PartLane(value, offset, size, 3))
  }

  lemma LanesOf(b0: Byte, b1: Byte, b2: Byte, b3: Byte)
    ensures var v := FromLanes(b0, b1, b2, b3);
            Lane(v, 0) == b0 && Lane(v, 1) == b1 && Lane(v, 2) == b2 && Lane(v, 3) == b3
  {
    var v := FromLanes(b0, b1, b2, b3);
    assert v / 0x100 == b1 + 0x100 * b2 + 0x1_0000 * b3;
    assert v / 0x1_0000 == b2 + 0x100 * b3;
  }

  /** An access that stays within its register reads back what one of the same size and
      offset has just written. */
  lemma MergeThenRead(reg: Word, offset: nat, size: nat, value: Word)
    requires offset % 4 + AccessBytes(size) <= 4
    ensures ReadPart(Merge(reg, offset, size, value), offset, size) ==
            (if size == 1 then value % 0x100 else if size == 2 then value % 0x1_0000 else value)
  {
    hide FromLanes, Lane;
    LanesOf(MergedLane(reg, offset, size, value, 0), MergedLane(reg, offset, size, value, 1),
            MergedLane(reg, offset, size, value, 2), MergedLane(reg, offset, size, value, 3));
    LanesSum(value);
    LowLanes(value);
  }

  lemma LowLanes(v: Word)
    ensures FromLanes(Lane(v, 0), 0, 0, 0) == v % 0x100
    ensures FromLanes(Lane(v, 0), Lane(v, 1), 0, 0) == v % 0x1_0000
  {
    LowBytes(v);
  }

  lemma LowBytes(v: nat)
    ensures v % 0x100 + 0x100 * (v / 0x100 % 0x100) == v % 0x1_0000
  {
    var a := v / 0x100;
    assert v == 0x100 * a + v % 0x100 && a == 0x100 * (a / 0x100) + a % 0x100;
    ModUnique(v, a / 0x100, v % 0x100 + 0x100 * (a % 0x100), 0x1_0000);
  }

  lemma LanesSum(v: Word)
    ensures FromLanes(Lane(v, 0), Lane(v, 1), Lane(v, 2), Lane(v, 3)) == v
  {
    var a, b := v / 0x100, v / 0x1_0000;
    assert a / 0x100 == b;
    assert b / 0x100 == v / 0x100_0000;
  }

  // -------------------------------------------------------------- division by a variable

  lemma MulOrder(d: int, r: int)
    requires r > 0
    ensures d >= 1 ==> d * r >= r
    ensures d <= -1 ==> d * r <= -r
    ensures d <= 0 ==> d * r <= 0
  {
  }

  /** Quotient and remainder are the only pair with this shape. */
  lemma ModUnique(x: int, q: int, m: nat, r: nat)
    requires r > 0 && x == q * r + m && m < r
    ensures x % r == m && x / r == q
  {
    var d := x / r - q;
    assert d * r == x / r * r - q * r;
    MulOrder(d, r);
  }

  lemma ModSubtract(x: nat, r: nat)
    requires 0 < r <= x
    ensures (x - r) % r == x % r
  {
    assert (x / r - 1) * r == x / r * r - r;
    ModUnique(x - r, x / r - 1, x % r, r);
  }

  lemma QuotientBelow(x: nat, d: nat, k: nat)
    requires d > 0 && x < k * d
    ensures x / d < k
  {
    assert (k - x / d) * d == k * d - x / d * d;
    MulOrder(k - x / d, d);
  }

  /** Splitting a sum over two divisions loses nothing. */
  lemma DivideSum(phase: nat, a: nat, b: nat, d: nat)
    requires d > 0
    ensures ((phase + a) % d + b) % d == (phase + a + b) % d
    ensures (phase + a) / d + ((phase + a) % d + b) / d == (phase + a + b) / d
  {
    var q, m := (phase + a) / d, (phase + a) % d;
    var q', m' := (m + b) / d, (m + b) % d;
    assert phase + a + b == (q + q') * d + m' by {
      assert phase + a == q * d + m;
      assert m + b == q' * d + m';
      assert (q + q') * d == q * d + q' * d;
    }
    ModUnique(phase + a + b, q + q', m', d);
  }
}
