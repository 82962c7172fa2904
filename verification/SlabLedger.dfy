/**
 The account of all slab memory of a family of allocators: which blocks are free or sliced, which slices
 are free in which allocator or live. Every slice of every sliced block is in it exactly once.
 */
module SlabLedger {
  import opened Slabs

  /** A slice: its address and its size class. */
  type Slice = (nat, nat)

  /** A sliced block: its address and the class it was sliced for. */
  type Sliced = (nat, nat)

  /** One allocator: `mFreeBlocks`, and `mFreeSlices` by class. */
  datatype Pools = Pools(freeBlocks: seq<nat>, freeSlices: seq<seq<nat>>)

  function FreeIn(pool: Pools, x: Slice): nat {
    if x.1 < |pool.freeSlices| then multiset(pool.freeSlices[x.1])[x.0] else 0
  }

  /** How often a slice is free, over all allocators. */
  function FreeCount(pools: seq<Pools>, x: Slice): nat {
    if pools == [] then 0 else FreeIn(pools[0], x) + FreeCount(pools[1..], x)
  }

  function SlicesIn(b: Sliced, x: Slice): nat {
    if b.1 == x.1 then multiset(SlicesFrom(b.0, b.1, 0))[x.0] else 0
  }

  /** How often slicing has yielded a slice. */
  function SliceCount(sliced: seq<Sliced>, x: Slice): nat {
    if sliced == [] then 0 else SlicesIn(sliced[0], x) + SliceCount(sliced[1..], x)
  }

  /** How often a block is free or sliced. */
  function FreeBlockCount(pools: seq<Pools>, b: nat): nat {
    if pools == [] then 0 else multiset(pools[0].freeBlocks)[b] + FreeBlockCount(pools[1..], b)
  }

  function BaseCount(sliced: seq<Sliced>, b: nat): nat {
    if sliced == [] then 0 else (if sliced[0].0 == b then 1 else 0) + BaseCount(sliced[1..], b)
  }

  function BlockCount(pools: seq<Pools>, sliced: seq<Sliced>, b: nat): nat {
    FreeBlockCount(pools, b) + BaseCount(sliced, b)
  }

  predicate PoolsOk(pools: seq<Pools>) {
    forall a :: 0 <= a < |pools| ==> |pools[a].freeSlices| == MAX_SLICE_INDEX + 1
  }

  /** No block is known twice, and all are aligned. */
  ghost predicate BlocksOk(pools: seq<Pools>, sliced: seq<Sliced>) {
    forall b: nat :: BlockCount(pools, sliced, b) <= 1 && (0 < BlockCount(pools, sliced, b) ==> b % BLOCK_SIZE == 0)
  }

  /** Free and live slices together are all slices. */
  ghost predicate SlicesOk(pools: seq<Pools>, sliced: seq<Sliced>, live: multiset<Slice>) {
    forall x: Slice :: FreeCount(pools, x) + live[x] == SliceCount(sliced, x)
  }

  ghost predicate Balanced(pools: seq<Pools>, sliced: seq<Sliced>, live: multiset<Slice>) {
    PoolsOk(pools) && BlocksOk(pools, sliced) && SlicesOk(pools, sliced, live)
  }

  /** The slices an allocator has, or a caller holds. */
  ghost predicate Known(pools: seq<Pools>, live: multiset<Slice>, x: Slice) {
    0 < FreeCount(pools, x) + live[x]
  }

  // ---------- what a balanced account means ----------

  /** A slice of a sliced block, and which place of which block it is. */
  lemma {:induction false} WhichSlice(sliced: seq<Sliced>, x: Slice) returns (k: nat, i: nat)
    requires 0 < SliceCount(sliced, x)
    ensures k < |sliced| && sliced[k].1 == x.1 && i < NSlices(x.1) && x.0 == SliceAt(sliced[k].0, x.1, i)
    decreases |sliced|
  {
    if 0 < SlicesIn(sliced[0], x) {
      k := 0;
      i := PlaceOf(sliced[0].0, x.1, 0, x.0);
    } else {
      k, i := WhichSlice(sliced[1..], x);
      k := k + 1;
    }
  }

  lemma PlaceOf(base: nat, index: nat, from: nat, address: nat) returns (i: nat)
    requires from <= NSlices(index) && address in SlicesFrom(base, index, from)
    ensures from <= i < NSlices(index) && address == SliceAt(base, index, i)
  {
    var slices := SlicesFrom(base, index, from);
    var k: nat :| k < |slices| && slices[k] == address;
    i := from + k;
    SlicesFromAt(base, index, from, i);
  }

  predicate DistinctBases(sliced: seq<Sliced>) {
    && (forall j, k :: 0 <= j < k < |sliced| ==> sliced[j].0 != sliced[k].0)
    && (forall k :: 0 <= k < |sliced| ==> sliced[k].0 % BLOCK_SIZE == 0)
  }

  lemma {:induction false} BaseCounted(sliced: seq<Sliced>, k: nat)
    requires k < |sliced|
    ensures 0 < BaseCount(sliced, sliced[k].0)
    decreases |sliced|
  {
    if 0 < k {
      BaseCounted(sliced[1..], k - 1);
    }
  }

  lemma {:induction false} OnceMeansDistinct(sliced: seq<Sliced>)
    requires forall b: nat :: BaseCount(sliced, b) <= 1 && (0 < BaseCount(sliced, b) ==> b % BLOCK_SIZE == 0)
    ensures DistinctBases(sliced)
    decreases |sliced|
  {
    if sliced != [] {
      var tail := sliced[1..];
      forall b: nat ensures BaseCount(tail, b) <= 1 && (0 < BaseCount(tail, b) ==> b % BLOCK_SIZE == 0) {
        assert BaseCount(tail, b) <= BaseCount(sliced, b);
      }
      OnceMeansDistinct(tail);
      assert 0 < BaseCount(sliced, sliced[0].0);
      forall k | 0 < k < |sliced| ensures sliced[0].0 != sliced[k].0 && sliced[k].0 % BLOCK_SIZE == 0 {
        BaseCounted(tail, k - 1);
        assert tail[k - 1] == sliced[k];
      }
    }
  }

  lemma BlocksDistinct(pools: seq<Pools>, sliced: seq<Sliced>)
    requires BlocksOk(pools, sliced)
    ensures DistinctBases(sliced)
  {
    forall b: nat ensures BaseCount(sliced, b) <= 1 && (0 < BaseCount(sliced, b) ==> b % BLOCK_SIZE == 0) {
      assert BaseCount(sliced, b) <= BlockCount(pools, sliced, b);
    }
    OnceMeansDistinct(sliced);
  }

  /** Free and live slices lie inside one sliced block past its header, are 16-aligned, and do not overlap. */
  lemma Partition(pools: seq<Pools>, sliced: seq<Sliced>, live: multiset<Slice>, x: Slice, y: Slice)
    requires Balanced(pools, sliced, live) && Known(pools, live, x) && Known(pools, live, y)
    ensures var base := BlockFromAllocation(x.0);
            && 0 < BaseCount(sliced, base) && x.0 % 16 == 0
            && base + BLOCK_HEADER <= x.0 && x.0 + SliceSizeFromIndex(x.1) <= base + BLOCK_SIZE
    ensures x != y ==> !Overlap(x.0, SliceSizeFromIndex(x.1), y.0, SliceSizeFromIndex(y.1))
  {
    BlocksDistinct(pools, sliced);
    var k, i := WhichSlice(sliced, x);
    var l, j := WhichSlice(sliced, y);
    SliceInside(sliced[k].0, x.1, i);
    SliceInside(sliced[l].0, y.1, j);
    BaseCounted(sliced, k);
    if x != y {
      if k == l {
        PlacesDisjoint(sliced[k].0, x.1, i, j);
      } else {
        assert sliced[k].0 != sliced[l].0;
        BlocksDisjoint(sliced[k].0, sliced[l].0);
      }
    }
  }

  lemma {:induction false} PlacesOnce(base: nat, index: nat, i: nat, address: nat)
    requires i <= NSlices(index)
    ensures multiset(SlicesFrom(base, index, i))[address] <= 1
    decreases NSlices(index) - i
  {
    if i < NSlices(index) {
      var head, tail := SliceAt(base, index, i), SlicesFrom(base, index, i + 1);
      assert SlicesFrom(base, index, i) == [head] + tail;
      PlacesOnce(base, index, i + 1, address);
      if head in tail {
        var j := PlaceOf(base, index, i + 1, head);
        PlacesDisjoint(base, index, i, j);
      }
    }
  }

  lemma {:induction false} SlicesOnce(sliced: seq<Sliced>, x: Slice)
    requires DistinctBases(sliced)
    ensures SliceCount(sliced, x) <= 1
    decreases |sliced|
  {
    if sliced != [] {
      var (base, index) := sliced[0];
      PlacesOnce(base, index, 0, x.0);
      SlicesOnce(sliced[1..], x);
      if 0 < SlicesIn(sliced[0], x) && 0 < SliceCount(sliced[1..], x) {
        var i := PlaceOf(base, index, 0, x.0);
        var l, j := WhichSlice(sliced[1..], x);
        var other := sliced[l + 1].0;
        SliceInside(base, index, i);
        SliceInside(other, index, j);
      }
    }
  }

  /** No slice is free twice, or free and live, or live twice. */
  lemma NoSliceTwice(pools: seq<Pools>, sliced: seq<Sliced>, live: multiset<Slice>, x: Slice)
    requires Balanced(pools, sliced, live)
    ensures FreeCount(pools, x) + live[x] <= 1
  {
    BlocksDistinct(pools, sliced);
    SlicesOnce(sliced, x);
  }

  // ---------- bookkeeping ----------

  function SetList(pools: seq<Pools>, a: nat, index: nat, list: seq<nat>): seq<Pools>
    requires a < |pools| && index < |pools[a].freeSlices|
  {
    pools[a := pools[a].(freeSlices := pools[a].freeSlices[index := list])]
  }

  lemma {:induction false} FreeCountSetList(pools: seq<Pools>, a: nat, index: nat, list: seq<nat>, x: Slice)
    requires a < |pools| && index < |pools[a].freeSlices|
    ensures FreeCount(SetList(pools, a, index, list), x) + (if x.1 == index then multiset(pools[a].freeSlices[index])[x.0] else 0) ==
            FreeCount(pools, x) + (if x.1 == index then multiset(list)[x.0] else 0)
    decreases |pools|
  {
    if a == 0 {
      assert SetList(pools, a, index, list)[1..] == pools[1..];
    } else {
      assert SetList(pools, a, index, list)[1..] == SetList(pools[1..], a - 1, index, list);
      FreeCountSetList(pools[1..], a - 1, index, list, x);
    }
  }

  lemma {:induction false} BlockCountSetList(pools: seq<Pools>, a: nat, index: nat, list: seq<nat>, b: nat)
    requires a < |pools| && index < |pools[a].freeSlices|
    ensures FreeBlockCount(SetList(pools, a, index, list), b) == FreeBlockCount(pools, b)
    decreases |pools|
  {
    if a == 0 {
      assert SetList(pools, a, index, list)[1..] == pools[1..];
    } else {
      assert SetList(pools, a, index, list)[1..] == SetList(pools[1..], a - 1, index, list);
      BlockCountSetList(pools[1..], a - 1, index, list, b);
    }
  }

  function SetBlocks(pools: seq<Pools>, a: nat, blocks: seq<nat>): seq<Pools>
    requires a < |pools|
  {
    pools[a := pools[a].(freeBlocks := blocks)]
  }

  lemma {:induction false} BlockCountSetBlocks(pools: seq<Pools>, a: nat, blocks: seq<nat>, b: nat)
    requires a < |pools|
    ensures FreeBlockCount(SetBlocks(pools, a, blocks), b) ==
            FreeBlockCount(pools, b) + multiset(blocks)[b] - multiset(pools[a].freeBlocks)[b]
    decreases |pools|
  {
    if a == 0 {
      assert SetBlocks(pools, a, blocks)[1..] == pools[1..];
    } else {
      assert SetBlocks(pools, a, blocks)[1..] == SetBlocks(pools[1..], a - 1, blocks);
      BlockCountSetBlocks(pools[1..], a - 1, blocks, b);
    }
  }

  lemma {:induction false} FreeCountSetBlocks(pools: seq<Pools>, a: nat, blocks: seq<nat>, x: Slice)
    requires a < |pools|
    ensures FreeCount(SetBlocks(pools, a, blocks), x) == FreeCount(pools, x)
    decreases |pools|
  {
    if a == 0 {
      assert SetBlocks(pools, a, blocks)[1..] == pools[1..];
    } else {
      assert SetBlocks(pools, a, blocks)[1..] == SetBlocks(pools[1..], a - 1, blocks);
      FreeCountSetBlocks(pools[1..], a - 1, blocks, x);
    }
  }

  lemma {:induction false} CountsSnoc(sliced: seq<Sliced>, s: Sliced, x: Slice, b: nat)
    ensures SliceCount(sliced + [s], x) == SliceCount(sliced, x) + SlicesIn(s, x)
    ensures BaseCount(sliced + [s], b) == BaseCount(sliced, b) + if s.0 == b then 1 else 0
    decreases |sliced|
  {
    if sliced == [] {
      assert sliced + [s] == [s] && [s][1..] == [];
      assert SliceCount([], x) == 0 && BaseCount([], b) == 0;
    } else {
      assert (sliced + [s])[1..] == sliced[1..] + [s];
      CountsSnoc(sliced[1..], s, x, b);
    }
  }

  // ---------- what the allocator does to the account ----------

  /** New memory: blocks no allocator has seen go to allocator a. */
  lemma MoreBlocks(pools: seq<Pools>, sliced: seq<Sliced>, live: multiset<Slice>, a: nat, blocks: seq<nat>)
    requires Balanced(pools, sliced, live) && a < |pools|
    requires forall b: nat :: b in blocks ==> b % BLOCK_SIZE == 0 && BlockCount(pools, sliced, b) == 0 && multiset(blocks)[b] == 1
    ensures Balanced(SetBlocks(pools, a, pools[a].freeBlocks + blocks), sliced, live)
  {
    var pools' := SetBlocks(pools, a, pools[a].freeBlocks + blocks);
    forall b: nat ensures BlockCount(pools', sliced, b) <= 1 && (0 < BlockCount(pools', sliced, b) ==> b % BLOCK_SIZE == 0) {
      BlockCountSetBlocks(pools, a, pools[a].freeBlocks + blocks, b);
      assert BlockCount(pools', sliced, b) == BlockCount(pools, sliced, b) + multiset(blocks)[b];
      if b in blocks {
        assert multiset(blocks)[b] == 1;
      }
    }
    forall x: Slice ensures FreeCount(pools', x) + live[x] == SliceCount(sliced, x) {
      FreeCountSetBlocks(pools, a, pools[a].freeBlocks + blocks, x);
    }
  }

  /** The first free block of allocator a becomes slices of a class on its list. */
  function SliceFirst(pools: seq<Pools>, a: nat, index: nat): seq<Pools>
    requires a < |pools| && pools[a].freeBlocks != [] && index < |pools[a].freeSlices|
  {
    var base := pools[a].freeBlocks[0];
    SetList(SetBlocks(pools, a, pools[a].freeBlocks[1..]), a, index, pools[a].freeSlices[index] + SlicesFrom(base, index, 0))
  }

  lemma SliceBlock(pools: seq<Pools>, sliced: seq<Sliced>, live: multiset<Slice>, a: nat, index: nat)
    requires Balanced(pools, sliced, live) && a < |pools| && pools[a].freeBlocks != [] && index <= MAX_SLICE_INDEX
    ensures Balanced(SliceFirst(pools, a, index), sliced + [(pools[a].freeBlocks[0], index)], live)
  {
    var blocks := pools[a].freeBlocks;
    var s := (blocks[0], index);
    var pools' := SetBlocks(pools, a, blocks[1..]);
    var list := pools[a].freeSlices[index] + SlicesFrom(blocks[0], index, 0);
    assert blocks == [blocks[0]] + blocks[1..];
    forall b: nat ensures BlockCount(SliceFirst(pools, a, index), sliced + [s], b) == BlockCount(pools, sliced, b) {
      BlockCountSetBlocks(pools, a, blocks[1..], b);
      BlockCountSetList(pools', a, index, list, b);
      CountsSnoc(sliced, s, (0, 0), b);
    }
    forall x: Slice ensures FreeCount(SliceFirst(pools, a, index), x) + live[x] == SliceCount(sliced + [s], x) {
      FreeCountSetBlocks(pools, a, blocks[1..], x);
      FreeCountSetList(pools', a, index, list, x);
      CountsSnoc(sliced, s, x, 0);
    }
  }

  /** The first slice of a list is handed out. */
  lemma TakeFirst(pools: seq<Pools>, sliced: seq<Sliced>, live: multiset<Slice>, a: nat, index: nat)
    requires Balanced(pools, sliced, live) && a < |pools| && index <= MAX_SLICE_INDEX && pools[a].freeSlices[index] != []
    ensures var list := pools[a].freeSlices[index];
            Balanced(SetList(pools, a, index, list[1..]), sliced, live + multiset{(list[0], index)})
  {
    var list := pools[a].freeSlices[index];
    var pools' := SetList(pools, a, index, list[1..]);
    assert list == [list[0]] + list[1..];
    forall b: nat ensures BlockCount(pools', sliced, b) == BlockCount(pools, sliced, b) {
      BlockCountSetList(pools, a, index, list[1..], b);
    }
    forall x: Slice ensures FreeCount(pools', x) + (live + multiset{(list[0], index)})[x] == SliceCount(sliced, x) {
      FreeCountSetList(pools, a, index, list[1..], x);
    }
  }

  /** A live slice is put at the head of the list of any allocator of the family. */
  lemma GiveBack(pools: seq<Pools>, sliced: seq<Sliced>, live: multiset<Slice>, a: nat, x: Slice)
    requires Balanced(pools, sliced, live) && a < |pools| && x.1 <= MAX_SLICE_INDEX && x in live
    ensures Balanced(SetList(pools, a, x.1, [x.0] + pools[a].freeSlices[x.1]), sliced, live - multiset{x})
  {
    var list := [x.0] + pools[a].freeSlices[x.1];
    var pools' := SetList(pools, a, x.1, list);
    forall b: nat ensures BlockCount(pools', sliced, b) == BlockCount(pools, sliced, b) {
      BlockCountSetList(pools, a, x.1, list, b);
    }
    forall y: Slice ensures FreeCount(pools', y) + (live - multiset{x})[y] == SliceCount(sliced, y) {
      FreeCountSetList(pools, a, x.1, list, y);
    }
  }
}
