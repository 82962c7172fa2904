/**
 A family of slab allocators: memory may be freed into another allocator than it came from, as it is when
 dispatchers swap allocators. An allocator is an entry of `pools`. What posix_memalign would return is a
 parameter; all that is asked of it is that it is aligned and not in use.

 The source's branches for recycling whole blocks compare `mAllocator`, which is never assigned, and are dead.
 */
module Allocators {
  import opened Slabs
  import opened SlabLedger

  function NewPools(): Pools {
    Pools([], seq(MAX_SLICE_INDEX + 1, _ => []))
  }

  function SlicedFor(sliced: seq<Sliced>, index: nat): nat {
    if sliced == [] then 0 else (if sliced[0].1 == index then 1 else 0) + SlicedFor(sliced[1..], index)
  }

  lemma {:induction false} SlicedForSnoc(sliced: seq<Sliced>, s: Sliced, index: nat)
    ensures SlicedFor(sliced + [s], index) == SlicedFor(sliced, index) + if s.1 == index then 1 else 0
    decreases |sliced|
  {
    if sliced == [] {
      assert sliced + [s] == [s] && [s][1..] == [];
    } else {
      assert (sliced + [s])[1..] == sliced[1..] + [s];
      SlicedForSnoc(sliced[1..], s, index);
    }
  }

  lemma SomeSlicesFit(index: nat)
    requires index <= MAX_SLICE_INDEX
    ensures 0 < NSlices(index)
  {
    var size := SliceSizeFromIndex(index);
    assert size <= BLOCK_SIZE - BLOCK_HEADER;
    QuotientAtLeastOne(BLOCK_SIZE - BLOCK_HEADER, size);
  }

  lemma QuotientAtLeastOne(a: nat, b: nat)
    requires 0 < b <= a
    ensures 1 <= a / b
  {
  }

  /** Memory that posix_memalign may return: room for as many blocks as are asked for, none in use. */
  ghost predicate Fresh(pools: seq<Pools>, sliced: seq<Sliced>, memory: nat) {
    memory % BLOCK_SIZE == 0 && forall i: nat :: i < BLOCKS_AT_ONCE ==> BlockCount(pools, sliced, memory + i * BLOCK_SIZE) == 0
  }

  function BlocksFrom(memory: nat, n: nat): seq<nat> {
    if n == 0 then [] else BlocksFrom(memory, n - 1) + [memory + (n - 1) * BLOCK_SIZE]
  }

  lemma {:induction false} BlocksFromOnce(memory: nat, n: nat, b: nat)
    requires memory % BLOCK_SIZE == 0 && b in BlocksFrom(memory, n)
    ensures b % BLOCK_SIZE == 0 && multiset(BlocksFrom(memory, n))[b] == 1 && b < memory + n * BLOCK_SIZE
    ensures exists i: nat :: i < n && b == memory + i * BLOCK_SIZE
    decreases n
  {
    var front, last := BlocksFrom(memory, n - 1), memory + (n - 1) * BLOCK_SIZE;
    if b in front {
      BlocksFromOnce(memory, n - 1, b);
    }
    if last in front {
      BlocksFromOnce(memory, n - 1, last);
    }
    MultipleOf(memory, n - 1);
  }

  lemma MultipleOf(memory: nat, i: nat)
    requires memory % BLOCK_SIZE == 0
    ensures (memory + i * BLOCK_SIZE) % BLOCK_SIZE == 0
  {
    var q := memory / BLOCK_SIZE;
    assert memory + i * BLOCK_SIZE == (q + i) * BLOCK_SIZE;
  }

  // ---------- the footprint of an allocator that is alone ----------

  /** `held` is `live` by class. */
  ghost predicate ByClass(live: multiset<Slice>, held: seq<multiset<nat>>) {
    |held| == MAX_SLICE_INDEX + 1 && forall x: Slice :: live[x] == if x.1 < |held| then held[x.1][x.0] else 0
  }

  lemma ByClassTake(live: multiset<Slice>, held: seq<multiset<nat>>, x: Slice)
    requires ByClass(live, held) && x.1 < |held|
    ensures ByClass(live + multiset{x}, held[x.1 := held[x.1] + multiset{x.0}])
  {
  }

  lemma ByClassGive(live: multiset<Slice>, held: seq<multiset<nat>>, x: Slice)
    requires ByClass(live, held) && x.1 < |held| && x in live
    ensures x.0 in held[x.1] && ByClass(live - multiset{x}, held[x.1 := held[x.1] - multiset{x.0}])
  {
    assert live[x] == held[x.1][x.0];
  }

  predicate ClassOk(free: seq<nat>, held: multiset<nat>, sliced: nat, c: Class, index: nat) {
    c.free == |free| && c.live == |held| && c.sliced == sliced && Frugal(c, NSlices(index))
  }

  /** Alone, an allocator has sliced no more blocks for a class than the peak of its live slices needed. */
  predicate Alone(pool: Pools, sliced: seq<Sliced>, held: seq<multiset<nat>>, classes: seq<Class>) {
    && |pool.freeSlices| == |held| == |classes| == MAX_SLICE_INDEX + 1
    && forall i :: 0 <= i < |classes| ==> ClassOk(pool.freeSlices[i], held[i], SlicedFor(sliced, i), classes[i], i)
  }

  lemma AloneTake(pool: Pools, sliced: seq<Sliced>, held: seq<multiset<nat>>, classes: seq<Class>,
                  pool': Pools, sliced': seq<Sliced>, index: nat, address: nat, base: nat)
    requires Alone(pool, sliced, held, classes) && index <= MAX_SLICE_INDEX
    requires sliced' == if pool.freeSlices[index] == [] then sliced + [(base, index)] else sliced
    requires |pool'.freeSlices| == |pool.freeSlices|
    requires |pool'.freeSlices[index]| + 1 == if pool.freeSlices[index] == [] then NSlices(index) else |pool.freeSlices[index]|
    requires forall i :: 0 <= i <= MAX_SLICE_INDEX && i != index ==> pool'.freeSlices[i] == pool.freeSlices[i]
    ensures 0 < NSlices(index)
    ensures Alone(pool', sliced', held[index := held[index] + multiset{address}], classes[index := TakeSlice(classes[index], NSlices(index))])
  {
    SomeSlicesFit(index);
    TakeFrugal(classes[index], NSlices(index));
    forall i | 0 <= i <= MAX_SLICE_INDEX ensures SlicedFor(sliced', i) == SlicedFor(sliced, i) + if sliced' != sliced && i == index then 1 else 0 {
      SlicedForSnoc(sliced, (base, index), i);
    }
  }

  lemma AloneGive(pool: Pools, sliced: seq<Sliced>, held: seq<multiset<nat>>, classes: seq<Class>, pool': Pools, x: Slice)
    requires Alone(pool, sliced, held, classes) && x.1 <= MAX_SLICE_INDEX && x.0 in held[x.1]
    requires pool'.freeSlices == pool.freeSlices[x.1 := [x.0] + pool.freeSlices[x.1]]
    ensures Alone(pool', sliced, held[x.1 := held[x.1] - multiset{x.0}], classes[x.1 := GiveSlice(classes[x.1])])
  {
    GiveFrugal(classes[x.1], NSlices(x.1));
  }

  // ---------- what the operations make of the lists ----------

  /** Sixteen blocks of new memory, if allocator a has none. */
  function Refilled(pools: seq<Pools>, a: nat, memory: nat): seq<Pools>
    requires a < |pools|
  {
    if pools[a].freeBlocks == [] then SetBlocks(pools, a, BlocksFrom(memory, BLOCKS_AT_ONCE)) else pools
  }

  lemma RefilledOk(pools: seq<Pools>, sliced: seq<Sliced>, live: multiset<Slice>, a: nat, memory: nat)
    requires Balanced(pools, sliced, live) && a < |pools| && Fresh(pools, sliced, memory)
    ensures Balanced(Refilled(pools, a, memory), sliced, live) && Refilled(pools, a, memory)[a].freeBlocks != []
    ensures Refilled(pools, a, memory)[a].freeSlices == pools[a].freeSlices
  {
    if pools[a].freeBlocks == [] {
      var n: nat := BLOCKS_AT_ONCE;
      NewBlocksOk(pools, sliced, live, a, memory, n);
    }
  }

  lemma BlockIsFresh(pools: seq<Pools>, sliced: seq<Sliced>, memory: nat, n: nat, b: nat)
    requires Fresh(pools, sliced, memory) && n <= BLOCKS_AT_ONCE && b in BlocksFrom(memory, n)
    ensures b % BLOCK_SIZE == 0 && BlockCount(pools, sliced, b) == 0 && multiset(BlocksFrom(memory, n))[b] == 1
  {
    BlocksFromOnce(memory, n, b);
    var i: nat :| i < n && b == memory + i * BLOCK_SIZE;
    assert BlockCount(pools, sliced, memory + i * BLOCK_SIZE) == 0;
  }

  lemma NewBlocksOk(pools: seq<Pools>, sliced: seq<Sliced>, live: multiset<Slice>, a: nat, memory: nat, n: nat)
    requires Balanced(pools, sliced, live) && a < |pools| && pools[a].freeBlocks == [] && 0 < n <= BLOCKS_AT_ONCE
    requires Fresh(pools, sliced, memory)
    ensures Balanced(SetBlocks(pools, a, BlocksFrom(memory, n)), sliced, live) && BlocksFrom(memory, n) != []
  {
    var blocks: seq<nat> := BlocksFrom(memory, n);
    forall b: nat | b in blocks ensures b % BLOCK_SIZE == 0 && BlockCount(pools, sliced, b) == 0 && multiset(blocks)[b] == 1 {
      BlockIsFresh(pools, sliced, memory, n, b);
    }
    MoreBlocks(pools, sliced, live, a, blocks);
    assert pools[a].freeBlocks + blocks == blocks;
  }

  /** A list of slices in allocator a, if the class has none. */
  function Filled(pools: seq<Pools>, a: nat, index: nat, memory: nat): seq<Pools>
    requires a < |pools| && index < |pools[a].freeSlices|
  {
    var more := Refilled(pools, a, memory);
    if pools[a].freeSlices[index] != [] || more[a].freeBlocks == [] then pools else SliceFirst(more, a, index)
  }

  function FilledSliced(pools: seq<Pools>, sliced: seq<Sliced>, a: nat, index: nat, memory: nat): seq<Sliced>
    requires a < |pools| && index < |pools[a].freeSlices|
  {
    var more := Refilled(pools, a, memory);
    if pools[a].freeSlices[index] != [] || more[a].freeBlocks == [] then sliced else sliced + [(more[a].freeBlocks[0], index)]
  }

  lemma FilledOk(pools: seq<Pools>, sliced: seq<Sliced>, live: multiset<Slice>, a: nat, index: nat, memory: nat)
    requires Balanced(pools, sliced, live) && a < |pools| && index <= MAX_SLICE_INDEX && Fresh(pools, sliced, memory)
    ensures Balanced(Filled(pools, a, index, memory), FilledSliced(pools, sliced, a, index, memory), live)
    ensures Filled(pools, a, index, memory)[a].freeSlices[index] != []
    ensures pools[a].freeSlices[index] == [] ==>
              && |Filled(pools, a, index, memory)[a].freeSlices[index]| == NSlices(index)
              && exists base :: FilledSliced(pools, sliced, a, index, memory) == sliced + [(base, index)]
    ensures forall i :: 0 <= i <= MAX_SLICE_INDEX && i != index ==> Filled(pools, a, index, memory)[a].freeSlices[i] == pools[a].freeSlices[i]
  {
    if pools[a].freeSlices[index] == [] {
      SomeSlicesFit(index);
      RefilledOk(pools, sliced, live, a, memory);
      var more := Refilled(pools, a, memory);
      SlabLedger.SliceBlock(more, sliced, live, a, index);
    }
  }

  /** The account of a family: the blocks sliced, the live slices, also by class, and for a single allocator their peaks. */
  datatype Ledger = Ledger(sliced: seq<Sliced>, live: multiset<Slice>, held: seq<multiset<nat>>, classes: seq<Class>)

  ghost predicate Good(pools: seq<Pools>, ledger: Ledger) {
    && Balanced(pools, ledger.sliced, ledger.live) && ByClass(ledger.live, ledger.held) && |ledger.classes| == MAX_SLICE_INDEX + 1
    && (|pools| == 0 ==> ledger.sliced == [] && ledger.live == multiset{})
    && (|pools| == 1 ==> Alone(pools[0], ledger.sliced, ledger.held, ledger.classes))
  }

  function NewLedger(): Ledger {
    Ledger([], multiset{}, seq(MAX_SLICE_INDEX + 1, _ => multiset{}), seq(MAX_SLICE_INDEX + 1, _ => NEW_CLASS))
  }

  function Taken(pools: seq<Pools>, a: nat, index: nat, memory: nat): seq<Pools>
    requires a < |pools| && index < |pools[a].freeSlices| && Filled(pools, a, index, memory)[a].freeSlices[index] != []
  {
    var full := Filled(pools, a, index, memory);
    SetList(full, a, index, full[a].freeSlices[index][1..])
  }

  /** The slice at an address is handed out, after the blocks of `sliced` have been. */
  ghost function AfterTake(ledger: Ledger, sliced: seq<Sliced>, x: Slice): Ledger
    requires x.1 < |ledger.held| && x.1 < |ledger.classes| && x.1 <= MAX_SLICE_INDEX && 0 < NSlices(x.1)
  {
    Ledger(sliced, ledger.live + multiset{x}, ledger.held[x.1 := ledger.held[x.1] + multiset{x.0}],
           ledger.classes[x.1 := TakeSlice(ledger.classes[x.1], NSlices(x.1))])
  }

  ghost function AfterGive(ledger: Ledger, x: Slice): Ledger
    requires x.1 < |ledger.held| && x.1 < |ledger.classes|
  {
    Ledger(ledger.sliced, ledger.live - multiset{x}, ledger.held[x.1 := ledger.held[x.1] - multiset{x.0}],
           ledger.classes[x.1 := GiveSlice(ledger.classes[x.1])])
  }

  lemma TakenOk(pools: seq<Pools>, ledger: Ledger, a: nat, index: nat, memory: nat)
    requires Good(pools, ledger) && a < |pools| && index <= MAX_SLICE_INDEX && Fresh(pools, ledger.sliced, memory)
    ensures Filled(pools, a, index, memory)[a].freeSlices[index] != [] && 0 < NSlices(index)
    ensures var address := Filled(pools, a, index, memory)[a].freeSlices[index][0];
            Good(Taken(pools, a, index, memory), AfterTake(ledger, FilledSliced(pools, ledger.sliced, a, index, memory), (address, index)))
  {
    SomeSlicesFit(index);
    var Ledger(sliced, live, held, classes) := ledger;
    FilledOk(pools, sliced, live, a, index, memory);
    var full, sliced' := Filled(pools, a, index, memory), FilledSliced(pools, sliced, a, index, memory);
    var list := full[a].freeSlices[index];
    TakeFirst(full, sliced', live, a, index);
    ByClassTake(live, held, (list[0], index));
    if |pools| == 1 {
      AloneTaken(pools, ledger, a, index, memory);
    }
  }

  lemma AloneTaken(pools: seq<Pools>, ledger: Ledger, a: nat, index: nat, memory: nat)
    requires Good(pools, ledger) && a < |pools| == 1 && index <= MAX_SLICE_INDEX && Fresh(pools, ledger.sliced, memory)
    ensures Filled(pools, a, index, memory)[a].freeSlices[index] != [] && 0 < NSlices(index)
    ensures var address := Filled(pools, a, index, memory)[a].freeSlices[index][0];
            Alone(Taken(pools, a, index, memory)[0], FilledSliced(pools, ledger.sliced, a, index, memory),
                  ledger.held[index := ledger.held[index] + multiset{address}],
                  ledger.classes[index := TakeSlice(ledger.classes[index], NSlices(index))])
  {
    SomeSlicesFit(index);
    FilledOk(pools, ledger.sliced, ledger.live, a, index, memory);
    var full, sliced' := Filled(pools, a, index, memory), FilledSliced(pools, ledger.sliced, a, index, memory);
    var base := if |sliced'| == 0 then 0 else sliced'[|sliced'| - 1].0;
    AloneTake(pools[0], ledger.sliced, ledger.held, ledger.classes, Taken(pools, a, index, memory)[0], sliced', index, full[a].freeSlices[index][0], base);
  }

  function Given(pools: seq<Pools>, a: nat, x: Slice): seq<Pools>
    requires a < |pools| && x.1 < |pools[a].freeSlices|
  {
    SetList(pools, a, x.1, [x.0] + pools[a].freeSlices[x.1])
  }

  lemma GivenOk(pools: seq<Pools>, ledger: Ledger, a: nat, x: Slice)
    requires Good(pools, ledger) && a < |pools| && x.1 <= MAX_SLICE_INDEX && x in ledger.live
    ensures Good(Given(pools, a, x), AfterGive(ledger, x))
  {
    GiveBack(pools, ledger.sliced, ledger.live, a, x);
    ByClassGive(ledger.live, ledger.held, x);
    if |pools| == 1 {
      AloneGive(pools[0], ledger.sliced, ledger.held, ledger.classes, Given(pools, a, x)[0], x);
    }
  }

  /** The state after a slice of a class has been taken from allocator a. */
  ghost predicate Takes(pools: seq<Pools>, ledger: Ledger, a: nat, index: nat, memory: nat, pools': seq<Pools>, ledger': Ledger)
    requires a < |pools|
  {
    && index < |pools[a].freeSlices| && index < |ledger.held| && index < |ledger.classes|
    && index <= MAX_SLICE_INDEX && 0 < NSlices(index)
    && var full := Filled(pools, a, index, memory);
       && full[a].freeSlices[index] != [] && pools' == Taken(pools, a, index, memory)
       && ledger' == AfterTake(ledger, FilledSliced(pools, ledger.sliced, a, index, memory), (full[a].freeSlices[index][0], index))
  }

  /** The state after a slice has been given to allocator a. */
  ghost predicate Gives(pools: seq<Pools>, ledger: Ledger, a: nat, x: Slice, pools': seq<Pools>, ledger': Ledger)
    requires a < |pools|
  {
    && x.1 < |pools[a].freeSlices| && x.1 < |ledger.held| && x.1 < |ledger.classes|
    && pools' == Given(pools, a, x) && ledger' == AfterGive(ledger, x)
  }

  class Family {
    var pools: seq<Pools>
    ghost var ledger: Ledger

    constructor ()
      ensures Valid() && pools == [] && ledger == NewLedger()
    {
      pools, ledger := [], NewLedger();
    }

    ghost predicate Valid()
      reads this
    {
      Good(pools, ledger)
    }

    method NewAllocator() returns (a: nat)
      requires Valid()
      modifies this
      ensures Valid() && a == |old(pools)| && pools == old(pools) + [NewPools()]
      ensures ledger == if a == 0 then old(ledger).(classes := NewLedger().classes) else old(ledger)
    {
      a := |pools|;
      AddPool(pools, ledger.sliced, ledger.live);
      if a == 0 {
        ledger := ledger.(classes := NewLedger().classes);
        NothingHeld(ledger.held);
      }
      pools := pools + [NewPools()];
    }

    /** `allocateBlocks`: sixteen aligned blocks onto the tail of the free list. */
    method AllocateBlocks(a: nat, memory: nat)
      requires a < |pools|
      modifies this`pools
      ensures pools == SetBlocks(old(pools), a, old(pools[a].freeBlocks) + BlocksFrom(memory, BLOCKS_AT_ONCE))
    {
      var blocks := pools[a].freeBlocks;
      var i, m := 0, memory;
      while i < BLOCKS_AT_ONCE
        invariant i <= BLOCKS_AT_ONCE && m == memory + i * BLOCK_SIZE
        invariant blocks == pools[a].freeBlocks + BlocksFrom(memory, i)
        modifies {}
      {
        assert BlocksFrom(memory, i + 1) == BlocksFrom(memory, i) + [m];
        blocks := blocks + [m];
        m := m + BLOCK_SIZE;
        i := i + 1;
      }
      pools := SetBlocks(pools, a, blocks);
    }

    /** `sliceBlock`: the first free block becomes slices on the tail of the class's list. */
    method SliceBlock(a: nat, index: nat, memory: nat)
      requires a < |pools| && index < |pools[a].freeSlices| && index <= MAX_SLICE_INDEX
      modifies this`pools
      ensures Refilled(old(pools), a, memory)[a].freeBlocks != []
      ensures pools == SliceFirst(Refilled(old(pools), a, memory), a, index)
    {
      if pools[a].freeBlocks == [] {
        AllocateBlocks(a, memory);
        assert old(pools[a].freeBlocks) + BlocksFrom(memory, BLOCKS_AT_ONCE) == BlocksFrom(memory, BLOCKS_AT_ONCE);
      }
      var first := pools[a].freeBlocks[0];
      var slices := Sliced(first, index, pools[a].freeSlices[index]);
      pools := SetBlocks(pools, a, pools[a].freeBlocks[1..]);
      pools := SetList(pools, a, index, slices);
    }

    /** The loop of `sliceBlock`. */
    static method Sliced(first: nat, index: nat, list: seq<nat>) returns (slices: seq<nat>)
      requires index <= MAX_SLICE_INDEX
      ensures slices == list + SlicesFrom(first, index, 0)
    {
      var size := SliceSizeFromIndex(index);
      slices := list;
      var i, m, n := 0, first + BLOCK_HEADER, NSlices(index);
      while i < n
        invariant 0 <= i <= n && m == SliceAt(first, index, i)
        invariant slices + SlicesFrom(first, index, i) == list + SlicesFrom(first, index, 0)
      {
        assert SlicesFrom(first, index, i) == [m] + SlicesFrom(first, index, i + 1);
        assert slices + ([m] + SlicesFrom(first, index, i + 1)) == slices + [m] + SlicesFrom(first, index, i + 1);
        slices := slices + [m];
        NextSlice(first, index, i);
        m := m + size;
        i := i + 1;
      }
    }

    /** `allocateSlice`: the first slice of the class's list, which is filled first if it is empty. */
    method AllocateSlice(a: nat, index: nat, memory: nat) returns (address: nat)
      requires Valid() && a < |pools| && index <= MAX_SLICE_INDEX && Fresh(pools, ledger.sliced, memory)
      modifies this
      ensures Valid() && ledger.live == old(ledger.live) + multiset{(address, index)}
      ensures Takes(old(pools), old(ledger), a, index, memory, pools, ledger) && |pools| == |old(pools)|
      ensures address == Filled(old(pools), a, index, memory)[a].freeSlices[index][0]
    {
      TakenOk(pools, ledger, a, index, memory);
      ghost var full, sliced := Filled(pools, a, index, memory), FilledSliced(pools, ledger.sliced, a, index, memory);
      if pools[a].freeSlices[index] == [] {
        SliceBlock(a, index, memory);
      }
      assert pools == full;
      var list := pools[a].freeSlices[index];
      address := list[0];
      pools := SetList(pools, a, index, list[1..]);
      ledger := AfterTake(ledger, sliced, (address, index));
    }

    /** `allocate`: sizes above the limit are a stub that returns nothing. */
    method Allocate(a: nat, size: nat, memory: nat) returns (address: nat)
      requires Valid() && a < |pools| && Fresh(pools, ledger.sliced, memory)
      modifies this
      ensures Valid() && |pools| == |old(pools)|
      ensures size <= SLICE_LIMIT ==> Takes(old(pools), old(ledger), a, SliceSizeToIndex(size), memory, pools, ledger)
      ensures size <= SLICE_LIMIT ==> ledger.live == old(ledger.live) + multiset{(address, SliceSizeToIndex(size))}
      ensures size <= SLICE_LIMIT ==> size <= SliceSizeFromIndex(SliceSizeToIndex(size)) < (if size < 16 then 16 else size) + 128
      ensures SLICE_LIMIT < size ==> address == 0 && ledger == old(ledger) && pools == old(pools)
    {
      if size > SLICE_LIMIT { return 0; }
      SizeClass(size);
      address := AllocateSlice(a, SliceSizeToIndex(size), memory);
    }

    /** `deallocate` of what `allocate` gave for that size, into any allocator of the family. */
    method Deallocate(a: nat, address: nat, size: nat)
      requires Valid() && a < |pools| && (size <= SLICE_LIMIT ==> (address, SliceSizeToIndex(size)) in ledger.live)
      modifies this
      ensures Valid() && |pools| == |old(pools)|
      ensures size <= SLICE_LIMIT ==> Gives(old(pools), old(ledger), a, (address, SliceSizeToIndex(size)), pools, ledger)
      ensures SLICE_LIMIT < size ==> ledger == old(ledger) && pools == old(pools)
    {
      if size > SLICE_LIMIT { return; }
      SizeClass(size);
      DeallocateSlice(a, address, SliceSizeToIndex(size));
    }

    /** `deallocateSlice`: to the head of the list, as no block knows its allocator. */
    method DeallocateSlice(a: nat, address: nat, index: nat)
      requires Valid() && a < |pools| && index <= MAX_SLICE_INDEX && (address, index) in ledger.live
      modifies this
      ensures Valid() && pools == Given(old(pools), a, (address, index)) && ledger == AfterGive(old(ledger), (address, index))
    {
      GivenOk(pools, ledger, a, (address, index));
      pools := SetList(pools, a, index, [address] + pools[a].freeSlices[index]);
      ledger := AfterGive(ledger, (address, index));
    }
  }

  lemma AddPool(pools: seq<Pools>, sliced: seq<Sliced>, live: multiset<Slice>)
    requires Balanced(pools, sliced, live)
    ensures Balanced(pools + [NewPools()], sliced, live)
  {
    forall x: Slice ensures FreeCount(pools + [NewPools()], x) == FreeCount(pools, x) {
      FreeCountSnoc(pools, NewPools(), x);
    }
    forall b: nat ensures BlockCount(pools + [NewPools()], sliced, b) == BlockCount(pools, sliced, b) {
      BlockCountSnoc(pools, NewPools(), b);
    }
  }

  lemma NothingHeld(held: seq<multiset<nat>>)
    requires ByClass(multiset{}, held)
    ensures forall i :: 0 <= i < |held| ==> held[i] == multiset{}
  {
    forall i | 0 <= i < |held| ensures held[i] == multiset{} {
      forall m: nat ensures held[i][m] == 0 {
        var x: Slice := (m, i);
        var none: multiset<Slice> := multiset{};
        assert none[x] == 0;
      }
    }
  }

  lemma {:induction false} FreeCountSnoc(pools: seq<Pools>, none: Pools, x: Slice)
    requires forall i :: 0 <= i < |none.freeSlices| ==> none.freeSlices[i] == []
    ensures FreeCount(pools + [none], x) == FreeCount(pools, x)
    decreases |pools|
  {
    if pools == [] {
      assert pools + [none] == [none] && [none][1..] == [];
    } else {
      assert (pools + [none])[1..] == pools[1..] + [none];
      FreeCountSnoc(pools[1..], none, x);
    }
  }

  lemma {:induction false} BlockCountSnoc(pools: seq<Pools>, none: Pools, b: nat)
    requires none.freeBlocks == []
    ensures FreeBlockCount(pools + [none], b) == FreeBlockCount(pools, b)
    decreases |pools|
  {
    if pools == [] {
      assert pools + [none] == [none] && [none][1..] == [];
    } else {
      assert (pools + [none])[1..] == pools[1..] + [none];
      BlockCountSnoc(pools[1..], none, b);
    }
  }
}
