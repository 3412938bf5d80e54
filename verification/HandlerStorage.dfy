// The handler's allocate and deallocate: an aligned block with a hidden trailer
// that says how far the block is from the raw allocation.
module HandlerStorage {

  const SIZE_RANGE: nat := 0x1_0000_0000_0000_0000
  const TRAILER: nat := 8    // sizeof(std::ptrdiff_t)

  // ----- std::align, section [ptr.align] of ISO C++20

  datatype Pointer = Null | At(address: nat)

  /** The lowest multiple of the alignment at or above p. */
  function AlignUp(p: nat, alignment: nat): nat
    requires alignment >= 1
  {
    (p + alignment - 1) / alignment * alignment
  }

  lemma AlignUpMeans(p: nat, alignment: nat)
    requires alignment >= 1
    ensures AlignUp(p, alignment) % alignment == 0
    ensures p <= AlignUp(p, alignment) < p + alignment
  {
    var q := (p + alignment - 1) / alignment;
    assert p + alignment - 1 == q * alignment + (p + alignment - 1) % alignment;
    MultipleMod(q, alignment);
  }

  lemma MultipleMod(q: nat, n: nat)
    requires n >= 1
    ensures (q * n) % n == 0
  {
    var d := (q * n) / n;
    assert q * n == d * n + (q * n) % n;
    if q != d { Apart(q - d, n); }
    assert (q - d) * n == (q * n) % n;
  }

  lemma Apart(k: int, n: int)
    requires n > 0 && k != 0
    ensures k * n >= n || k * n <= -n
  {}

  function Align(alignment: nat, size: nat, p: nat, space: nat): Pointer
    requires alignment >= 1
  {
    var aligned := AlignUp(p, alignment);
    if aligned - p + size <= space then At(aligned) else Null
  }

  // ----- the sizes that allocate computes, in unsigned 64-bit arithmetic

  function Space(size: nat, alignment: nat): nat
    requires alignment >= 1
  {
    (size + alignment - 1) % SIZE_RANGE
  }

  function RawSize(size: nat, alignment: nat): nat
    requires alignment >= 1
  {
    (Space(size, alignment) + TRAILER) % SIZE_RANGE
  }

  /** Nothing wraps around: what a caller can check beforehand. */
  predicate Representable(size: nat, alignment: nat)
    requires alignment >= 1
  {
    size + alignment - 1 + TRAILER < SIZE_RANGE
  }

  /** Block and trailer lie inside the raw allocation. */
  predicate Inside(p: nat, size: nat, base: nat, raw: nat) {
    base <= p && p + size + TRAILER <= base + raw
  }

  /** Exactly when the sizes do not wrap, whatever the base: the alignment step
      succeeds and block and trailer are inside the raw allocation. */
  lemma AllocationFits(size: nat, alignment: nat, base: nat)
    requires alignment >= 1 && size < SIZE_RANGE && alignment < SIZE_RANGE
    ensures var r := Align(alignment, size, base, Space(size, alignment));
            && (r.At? <==> size + alignment - 1 < SIZE_RANGE)
            && (r.At? ==> r.address % alignment == 0 && base <= r.address < base + alignment)
            && (r.At? ==> (Inside(r.address, size, base, RawSize(size, alignment)) <==> Representable(size, alignment)))
  {
    AlignUpMeans(base, alignment);
  }

  // ----- the trailer in memory

  type Memory = map<nat, int>

  /** The bytes of a word, lowest first. */
  function Digits(w: nat, n: nat): (d: seq<int>)
    ensures |d| == n
  {
    if n == 0 then [] else [w % 0x100] + Digits(w / 0x100, n - 1)
  }

  function Value(d: seq<int>): int {
    if d == [] then 0 else d[0] + 0x100 * Value(d[1..])
  }

  function Power(n: nat): (p: nat)
    ensures p >= 1
  {
    if n == 0 then 1 else 0x100 * Power(n - 1)
  }

  lemma {:induction false} DigitsValue(w: nat, n: nat)
    requires w < Power(n)
    ensures Value(Digits(w, n)) == w
  {
    if n > 0 {
      assert w / 0x100 < Power(n - 1);
      DigitsValue(w / 0x100, n - 1);
      assert Digits(w, n)[1..] == Digits(w / 0x100, n - 1);
    }
  }

  lemma PowerTrailer()
    ensures Power(TRAILER) == SIZE_RANGE
  {}

  function Cell(mem: Memory, a: nat): int {
    if a in mem then mem[a] else 0
  }

  /** memcpy of bytes into memory. */
  function Write(mem: Memory, at: nat, d: seq<int>): Memory
    decreases d
  {
    if d == [] then mem else Write(mem, at + 1, d[1..])[at := d[0]]
  }

  function Read(mem: Memory, at: nat, n: nat): (d: seq<int>)
    ensures |d| == n
  {
    seq(n, (i: nat) requires i < n => Cell(mem, at + i))
  }

  lemma {:induction false} WriteCell(mem: Memory, at: nat, d: seq<int>, a: nat)
    ensures Cell(Write(mem, at, d), a) == if at <= a < at + |d| then d[a - at] else Cell(mem, a)
    decreases d
  {
    if d != [] { WriteCell(mem, at + 1, d[1..], a); }
  }

  function WriteWord(mem: Memory, at: nat, w: nat): Memory {
    Write(mem, at, Digits(w, TRAILER))
  }

  function ReadWord(mem: Memory, at: nat): int {
    Value(Read(mem, at, TRAILER))
  }

  lemma ReadWritten(mem: Memory, at: nat, w: nat)
    requires w < SIZE_RANGE
    ensures ReadWord(WriteWord(mem, at, w), at) == w
  {
    var d := Digits(w, TRAILER);
    forall i | 0 <= i < |d| ensures Cell(Write(mem, at, d), at + i) == d[i] { WriteCell(mem, at, d, at + i); }
    assert Read(Write(mem, at, d), at, TRAILER) == d;
    PowerTrailer();
    DigitsValue(w, TRAILER);
  }

  lemma WordElsewhere(mem: Memory, at: nat, w: nat, a: nat)
    requires a < at || at + TRAILER <= a
    ensures Cell(WriteWord(mem, at, w), a) == Cell(mem, a)
  {
    WriteCell(mem, at, Digits(w, TRAILER), a);
  }

  /** A word is what its eight cells are. */
  lemma ReadSame(m: Memory, n: Memory, at: nat)
    requires forall a :: at <= a < at + TRAILER ==> Cell(m, a) == Cell(n, a)
    ensures ReadWord(m, at) == ReadWord(n, at)
  {
    assert Read(m, at, TRAILER) == Read(n, at, TRAILER);
  }

  // ----- interleaved blocks

  /** A live block: its raw allocation, and how it was asked for. */
  datatype Block = Block(base: nat, raw: nat, size: nat, alignment: nat)

  ghost predicate Separate(a: Block, b: Block) {
    a.base + a.raw <= b.base || b.base + b.raw <= a.base
  }

  predicate Aligned(p: nat, alignment: nat)
    requires alignment >= 1
  {
    p % alignment == 0
  }

  /** The block lies aligned in its raw allocation, trailer included. */
  ghost predicate Placed(p: nat, b: Block) {
    && b.alignment >= 1 && b.raw == b.size + b.alignment - 1 + TRAILER
    && Aligned(p, b.alignment) && Inside(p, b.size, b.base, b.raw) && p - b.base < SIZE_RANGE
  }

  /** The trailer says how far the block is from its base. */
  ghost predicate Sound(mem: Memory, p: nat, b: Block) {
    Placed(p, b) && ReadWord(mem, p + b.size) == p - b.base
  }

  ghost predicate AllSound(mem: Memory, live: map<nat, Block>) {
    (forall p <- live :: Sound(mem, p, live[p])) && AllSeparate(live)
  }

  ghost predicate AllSeparate(live: map<nat, Block>) {
    forall p <- live, q <- live :: p != q ==> Separate(live[p], live[q])
  }

  lemma MoreSeparate(live: map<nat, Block>, p: nat, b: Block)
    requires AllSeparate(live) && forall q <- live :: Separate(live[q], b)
    ensures AllSeparate(live[p := b])
  {}

  /** The block that allocate makes of a raw allocation. */
  function NewBlock(size: nat, alignment: nat, base: nat): Block
    requires alignment >= 1
  {
    Block(base, RawSize(size, alignment), size, alignment)
  }

  /** What allocate computes, when no size wraps. */
  lemma AllocationPlaced(size: nat, alignment: nat, base: nat)
    requires alignment >= 1 && Representable(size, alignment)
    ensures var r := Align(alignment, size, base, Space(size, alignment));
            r.At? && Placed(r.address, NewBlock(size, alignment, base))
  {
    AllocationFits(size, alignment, base);
  }

  /** Writing the trailer of a new block leaves the other trailers. */
  lemma NewBlockSound(mem: Memory, live: map<nat, Block>, b: Block, p: nat)
    requires AllSound(mem, live) && Placed(p, b)
    requires forall q <- live :: Separate(live[q], b)
    ensures p !in live && AllSound(WriteWord(mem, p + b.size, p - b.base), live[p := b])
  {
    var after := WriteWord(mem, p + b.size, p - b.base);
    ReadWritten(mem, p + b.size, p - b.base);
    MoreSeparate(live, p, b);
    assert forall q <- live :: Sound(mem, q, live[q]);
    forall q <- live ensures Sound(after, q, live[q]) {
      OtherTrailer(mem, p, b, q, live[q]);
    }
  }

  lemma OtherTrailer(mem: Memory, p: nat, b: Block, q: nat, c: Block)
    requires Placed(p, b) && Sound(mem, q, c) && Separate(c, b)
    ensures Sound(WriteWord(mem, p + b.size, p - b.base), q, c)
  {
    var after := WriteWord(mem, p + b.size, p - b.base);
    forall a | q + c.size <= a < q + c.size + TRAILER ensures Cell(mem, a) == Cell(after, a) {
      WordElsewhere(mem, p + b.size, p - b.base, a);
    }
    ReadSame(mem, after, q + c.size);
  }

  /** Writing inside a block touches no trailer. */
  lemma StoreKeeps(mem: Memory, live: map<nat, Block>, p: nat, i: nat, value: int)
    requires AllSound(mem, live) && p in live && i < live[p].size
    ensures AllSound(mem[p + i := value], live)
  {
    var after := mem[p + i := value];
    forall q <- live ensures Sound(after, q, live[q]) {
      assert Sound(mem, q, live[q]) && Sound(mem, p, live[p]);
      assert q != p ==> Separate(live[p], live[q]);
      ReadSame(mem, after, q + live[q].size);
    }
  }

  datatype Allocation = Allocated(p: nat) | BadAlloc

  /** A handler's memory resource, over a raw allocator that hands out addresses. */
  class Storage {
    var mem: Memory
    ghost var live: map<nat, Block>

    constructor ()
      ensures AllSound(mem, live) && live == map[]
    {
      mem, live := map[], map[];
    }

    /** base is what the raw allocator returned: room apart from every live block.
        Only when the padded size wraps is the throw reached. When no size wraps
        the block is aligned and inside; when only the trailer makes the total
        wrap, the trailer is written beyond the allocation. */
    method Allocate(size: nat, alignment: nat, base: nat) returns (r: Allocation)
      requires AllSound(mem, live) && 1 <= alignment < SIZE_RANGE && size < SIZE_RANGE
      requires forall q <- live :: Separate(live[q], NewBlock(size, alignment, base))
      modifies this
      ensures r.BadAlloc? <==> size + alignment - 1 >= SIZE_RANGE
      ensures r.BadAlloc? ==> mem == old(mem) && live == old(live)
      ensures r.Allocated? ==> r.p % alignment == 0 && base <= r.p < base + alignment
                               && mem == WriteWord(old(mem), r.p + size, r.p - base)
      ensures r.Allocated? ==> (Representable(size, alignment) <==> Inside(r.p, size, base, RawSize(size, alignment)))
      ensures Representable(size, alignment) ==>
                && r.Allocated? && r.p !in old(live) && Placed(r.p, NewBlock(size, alignment, base))
                && live == old(live)[r.p := NewBlock(size, alignment, base)] && AllSound(mem, live)
      ensures !Representable(size, alignment) ==> live == old(live)
    {
      hide AllSound, WriteWord, Placed, Separate;
      var space := Space(size, alignment);
      AllocationFits(size, alignment, base);
      match Align(alignment, size, base, space) {
        case At(p) =>
          if Representable(size, alignment) {
            AllocationPlaced(size, alignment, base);
            NewBlockSound(mem, live, NewBlock(size, alignment, base), p);
            live := live[p := NewBlock(size, alignment, base)];
          }
          var off := p - base;
          mem := WriteWord(mem, p + size, off);
          r := Allocated(p);
        case Null =>
          r := BadAlloc;
      }
    }

    /** The user of a live block writes one of its bytes. */
    method Store(p: nat, i: nat, value: int)
      requires AllSound(mem, live) && p in live && i < live[p].size
      modifies this`mem
      ensures mem == old(mem)[p + i := value] && AllSound(mem, live)
    {
      StoreKeeps(mem, live, p, i, value);
      mem := mem[p + i := value];
    }

    /** Gives back exactly what the raw allocator handed out for this block; a
        null pointer is ignored. */
    method Deallocate(p: Pointer, size: nat, alignment: nat) returns (freed: seq<(nat, nat)>)
      requires AllSound(mem, live)
      requires p.At? ==> p.address in live && live[p.address].size == size && live[p.address].alignment == alignment
      modifies this`live
      ensures p.Null? ==> freed == [] && live == old(live)
      ensures p.At? ==> freed == [(old(live)[p.address].base, old(live)[p.address].raw)] && live == old(live) - {p.address}
      ensures AllSound(mem, live)
    {
      if p.Null? {
        return [];
      }
      assert Sound(mem, p.address, live[p.address]);
      var off := ReadWord(mem, p.address + size);
      var base: nat, raw: nat := p.address - off, size + alignment - 1 + TRAILER;
      live := live - {p.address};
      return [(base, raw)];
    }
  }
}
