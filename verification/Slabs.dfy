/**
 The arithmetic of the slab allocator: size classes, the slices of a block, and why slices of different
 blocks or of different places in one block never overlap.
 */
module Slabs {

  const BLOCK_SIZE: nat := 4 * 4096
  const BLOCK_HEADER: nat := 32            // sizeof(Block) where a pointer has 8 bytes
  const SLICE_HEADER: nat := 16            // sizeof(Slice): two pointers
  const SLICE_LIMIT: nat := (BLOCK_SIZE - BLOCK_HEADER) / 8
  const MAX_SLICE_INDEX: nat := 16 + ((BLOCK_SIZE - BLOCK_HEADER) / 8 - 128) / 128
  const BLOCKS_AT_ONCE: nat := 16

  function SliceSizeToIndex(size: nat): nat {
    var s := if size < SLICE_HEADER then 0 else size - SLICE_HEADER;
    if s <= 8 * 16 then (s + 15) / 16 else (s + 127) / 128 + 7
  }

  function SliceSizeFromIndex(index: nat): nat {
    (if index <= 8 then index * 16 else (index - 7) * 128) + SLICE_HEADER
  }

  /** Every size up to the limit has a class; its slices are 16-aligned, hold the size and waste less than
      128 bytes, counting from the 16-byte minimum. */
  lemma SizeClass(size: nat)
    requires size <= SLICE_LIMIT
    ensures var index, least := SliceSizeToIndex(size), if size < SLICE_HEADER then SLICE_HEADER else size;
            && index <= MAX_SLICE_INDEX
            && size <= least <= SliceSizeFromIndex(index) < least + 128
            && SliceSizeFromIndex(index) % 16 == 0
  {
  }

  /** The classes are tight: a slice size maps to its own class. */
  lemma ClassOfSliceSize(index: nat)
    ensures SliceSizeToIndex(SliceSizeFromIndex(index)) == index
  {
  }

  lemma Quotient(a: nat, b: nat)
    requires 0 < b
    ensures 0 <= a / b && (a / b) * b <= a < (a / b + 1) * b
  {
    assert (a / b + 1) * b == (a / b) * b + b;
  }

  /** So many slices of a class have room behind the header of a block. */
  predicate Fit(n: nat, index: nat) {
    n * SliceSizeFromIndex(index) <= BLOCK_SIZE - BLOCK_HEADER
  }

  /** How many slices of a class a block is cut into: as many as fit, and one more would not. */
  function NSlices(index: nat): (n: nat)
    ensures Fit(n, index) && !Fit(n + 1, index)
  {
    Quotient(BLOCK_SIZE - BLOCK_HEADER, SliceSizeFromIndex(index));
    (BLOCK_SIZE - BLOCK_HEADER) / SliceSizeFromIndex(index)
  }

  lemma FitIff(n: nat, index: nat)
    ensures Fit(n, index) <==> n <= NSlices(index)
  {
    var most := NSlices(index);
    if n <= most {
      MulMono(n, most, SliceSizeFromIndex(index));
    } else {
      MulMono(most + 1, n, SliceSizeFromIndex(index));
    }
  }

  /** A block has 1022 slices of the smallest class, and 5 of the largest. */
  lemma BlocksYield()
    ensures NSlices(0) == 1022 && NSlices(MAX_SLICE_INDEX) == 5
  {
    FitIff(1022, 0);
    FitIff(1023, 0);
    FitIff(5, MAX_SLICE_INDEX);
    FitIff(6, MAX_SLICE_INDEX);
  }

  /** So many blocks, however they are cut, can hold n slices of a class. */
  ghost predicate CanHold(blocks: nat, n: nat, index: nat) {
    exists per: nat :: Fit(per, index) && n <= blocks * per
  }

  function BlockFromAllocation(memory: nat): nat {
    memory - memory % BLOCK_SIZE
  }

  function SliceAt(base: nat, index: nat, i: nat): nat {
    base + BLOCK_HEADER + i * SliceSizeFromIndex(index)
  }

  lemma NextSlice(base: nat, index: nat, i: nat)
    ensures SliceAt(base, index, i + 1) == SliceAt(base, index, i) + SliceSizeFromIndex(index)
  {
    assert (i + 1) * SliceSizeFromIndex(index) == i * SliceSizeFromIndex(index) + SliceSizeFromIndex(index);
  }

  /** The addresses that slicing a block yields, in the order they go onto the free list. */
  function SlicesFrom(base: nat, index: nat, i: nat): (r: seq<nat>)
    requires i <= NSlices(index)
    ensures |r| == NSlices(index) - i
    decreases NSlices(index) - i
  {
    if i == NSlices(index) then [] else [SliceAt(base, index, i)] + SlicesFrom(base, index, i + 1)
  }

  lemma {:induction false} SlicesFromAt(base: nat, index: nat, i: nat, k: nat)
    requires i <= k < NSlices(index)
    ensures SlicesFrom(base, index, i)[k - i] == SliceAt(base, index, k)
    decreases k - i
  {
    if i < k {
      SlicesFromAt(base, index, i + 1, k);
    }
  }

  predicate Overlap(x: nat, n: nat, y: nat, m: nat) {
    x < y + m && y < x + n
  }

  lemma MulMono(a: nat, b: nat, c: nat)
    requires a <= b
    ensures a * c <= b * c
  {
  }

  /** A slice lies inside its block, past the header, and is 16-aligned. */
  lemma SliceInside(base: nat, index: nat, i: nat)
    requires base % BLOCK_SIZE == 0 && i < NSlices(index)
    ensures var x := SliceAt(base, index, i);
            && base + BLOCK_HEADER <= x && x + SliceSizeFromIndex(index) <= base + BLOCK_SIZE
            && x % 16 == 0 && BlockFromAllocation(x) == base
  {
    var size := SliceSizeFromIndex(index);
    MulMono(i + 1, NSlices(index), size);
    assert (i + 1) * size == i * size + size;
    assert NSlices(index) * size <= BLOCK_SIZE - BLOCK_HEADER;
    var units := if index <= 8 then index + 1 else (index - 7) * 8 + 1;
    assert size == 16 * units;
    Aligned(base, i, units);
    var x := SliceAt(base, index, i);
    Remainder(base, x - base);
  }

  lemma Remainder(base: nat, r: nat)
    requires base % BLOCK_SIZE == 0 && r < BLOCK_SIZE
    ensures (base + r) % BLOCK_SIZE == r
  {
  }

  lemma Aligned(base: nat, i: nat, units: nat)
    requires base % BLOCK_SIZE == 0
    ensures (base + 32 + i * (16 * units)) % 16 == 0
  {
    var q := base / BLOCK_SIZE;
    assert base == 16 * (1024 * q);
    assert i * (16 * units) == 16 * (i * units);
    assert base + 32 + i * (16 * units) == 16 * (1024 * q + 2 + i * units);
  }

  /** Two places of one block never overlap. */
  lemma PlacesDisjoint(base: nat, index: nat, i: nat, j: nat)
    requires i != j
    ensures !Overlap(SliceAt(base, index, i), SliceSizeFromIndex(index), SliceAt(base, index, j), SliceSizeFromIndex(index))
  {
    var size := SliceSizeFromIndex(index);
    if i < j {
      MulMono(i + 1, j, size);
      assert (i + 1) * size == i * size + size;
    } else {
      MulMono(j + 1, i, size);
      assert (j + 1) * size == j * size + size;
    }
  }

  /** Nor do slices of two blocks. */
  lemma BlocksDisjoint(a: nat, b: nat)
    requires a % BLOCK_SIZE == 0 && b % BLOCK_SIZE == 0 && a != b
    ensures !Overlap(a, BLOCK_SIZE, b, BLOCK_SIZE)
  {
    var p, q := a / BLOCK_SIZE, b / BLOCK_SIZE;
    assert a == p * BLOCK_SIZE && b == q * BLOCK_SIZE;
    if p < q {
      MulMono(p + 1, q, BLOCK_SIZE);
    } else {
      MulMono(q + 1, p, BLOCK_SIZE);
    }
  }

  // ---------- footprint of one size class ----------

  /** One class of one allocator: free slices, live slices, blocks sliced so far, most live slices so far. */
  datatype Class = Class(free: nat, live: nat, sliced: nat, peak: nat)

  const NEW_CLASS := Class(0, 0, 0, 0)

  /** `allocateSlice`: slice a block if the list is empty, then take one. */
  function TakeSlice(c: Class, n: nat): Class
    requires 0 < n
  {
    var free := if c.free == 0 then n else c.free;
    Class(free - 1, c.live + 1, if c.free == 0 then c.sliced + 1 else c.sliced, if c.peak < c.live + 1 then c.live + 1 else c.peak)
  }

  function GiveSlice(c: Class): Class {
    if c.live == 0 then c else Class(c.free + 1, c.live - 1, c.sliced, c.peak)
  }

  function CeilDiv(a: nat, b: nat): nat
    requires 0 < b
  {
    Quotient(a + b - 1, b);
    (a + b - 1) / b
  }

  /** No slice is lost, and no block was sliced that the peak did not need. */
  predicate Frugal(c: Class, n: nat) {
    && c.free + c.live == c.sliced * n && c.live <= c.peak
    && c.peak <= c.sliced * n && (0 < c.sliced ==> (c.sliced - 1) * n < c.peak)
  }

  lemma TakeFrugal(c: Class, n: nat)
    requires 0 < n && Frugal(c, n)
    ensures Frugal(TakeSlice(c, n), n)
  {
    if c.free == 0 {
      assert (c.sliced + 1) * n == c.sliced * n + n;
    }
  }

  lemma GiveFrugal(c: Class, n: nat)
    requires Frugal(c, n)
    ensures Frugal(GiveSlice(c), n)
  {
  }

  lemma FrugalIsCeiling(c: Class, n: nat)
    requires 0 < n && Frugal(c, n)
    ensures c.sliced == CeilDiv(c.peak, n)
  {
    var k := c.sliced;
    if k == 0 {
      assert c.peak == 0;
      SmallQuotient(n - 1, n);
    } else {
      var r := c.peak - (k - 1) * n;
      assert (k - 1) * n + n == k * n;
      assert 0 < r <= n && c.peak + n - 1 == k * n + (r - 1);
      QuotientOf(k, n, r - 1);
    }
  }

  /** The blocks that have been sliced are the fewest that can hold the peak. */
  lemma SlicedIsFewest(c: Class, index: nat, blocks: nat)
    requires Frugal(c, NSlices(index))
    ensures CanHold(blocks, c.peak, index) <==> c.sliced <= blocks
  {
    var most := NSlices(index);
    if c.sliced <= blocks {
      MulMono(c.sliced, blocks, most);
      assert Fit(most, index) && c.peak <= blocks * most;
    } else if CanHold(blocks, c.peak, index) {
      var per: nat :| Fit(per, index) && c.peak <= blocks * per;
      FitIff(per, index);
      MulMono(per, most, blocks);
      MulMono(blocks, c.sliced - 1, most);
      assert false;
    }
  }

  lemma SmallQuotient(a: nat, b: nat)
    requires a < b
    ensures a / b == 0
  {
  }

  lemma QuotientOf(k: nat, n: nat, r: nat)
    requires r < n
    ensures (k * n + r) / n == k
  {
    var q := (k * n + r) / n;
    Quotient(k * n + r, n);
    var m := (k * n + r) % n;
    assert k * n + r == q * n + m;
    assert (k + 1) * n == k * n + n && (q + 1) * n == q * n + n;
    if k < q {
      MulMono(k + 1, q, n);
    } else if q < k {
      MulMono(q + 1, k, n);
    }
  }
}
