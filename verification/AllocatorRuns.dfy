/** Every history of a family of allocators: what holds of the memory, and of the footprint of a lone one. */
module AllocatorRuns {
  import opened Slabs
  import opened SlabLedger
  import opened Allocators

  datatype State = State(pools: seq<Pools>, ledger: Ledger)

  datatype Op =
    | NewAllocator
    | Take(a: nat, size: nat, memory: nat) // `memory` is what posix_memalign would return
    | Give(a: nat, address: nat, size: nat)

  function SliceFor(address: nat, size: nat): Slice {
    (address, SliceSizeToIndex(size))
  }

  /** What is asked of callers: memory is given back once, with the size it was asked for. */
  ghost predicate Legal(s: State, op: Op) {
    match op
    case NewAllocator => true
    case Take(a, size, memory) => a < |s.pools| && size <= SLICE_LIMIT && Fresh(s.pools, s.ledger.sliced, memory)
    case Give(a, address, size) => a < |s.pools| && size <= SLICE_LIMIT && SliceFor(address, size) in s.ledger.live
  }

  ghost predicate Adds(s: State, t: State) {
    && t.pools == s.pools + [NewPools()]
    && t.ledger == (if s.pools == [] then s.ledger.(classes := NewLedger().classes) else s.ledger)
  }

  /** The methods of the family, as a relation between the states before and after. */
  ghost predicate Next(s: State, op: Op, t: State) {
    Legal(s, op) &&
    match op
    case NewAllocator => Adds(s, t)
    case Take(a, size, memory) => Takes(s.pools, s.ledger, a, SliceSizeToIndex(size), memory, t.pools, t.ledger)
    case Give(a, address, size) => Gives(s.pools, s.ledger, a, SliceFor(address, size), t.pools, t.ledger)
  }

  /** And the methods do just that. */
  method Execute(family: Family, op: Op)
    requires family.Valid() && Legal(State(family.pools, family.ledger), op)
    modifies family
    ensures family.Valid() && Next(old(State(family.pools, family.ledger)), op, State(family.pools, family.ledger))
  {
    match op
    case NewAllocator =>
      var a := family.NewAllocator();
    case Take(a, size, memory) =>
      var address := family.Allocate(a, size, memory);
    case Give(a, address, size) =>
      family.Deallocate(a, address, size);
  }

  lemma NextKeepsGood(s: State, op: Op, t: State)
    requires Good(s.pools, s.ledger) && Next(s, op, t)
    ensures Good(t.pools, t.ledger)
  {
    match op
    case NewAllocator =>
      AddPool(s.pools, s.ledger.sliced, s.ledger.live);
      if s.pools == [] {
        NothingHeld(s.ledger.held);
      }
    case Take(a, size, memory) =>
      SizeClass(size);
      TakenOk(s.pools, s.ledger, a, SliceSizeToIndex(size), memory);
    case Give(a, address, size) =>
      SizeClass(size);
      GivenOk(s.pools, s.ledger, a, SliceFor(address, size));
  }

  lemma TakeProceeds(s: State, a: nat, index: nat, memory: nat) returns (t: State)
    requires Good(s.pools, s.ledger) && a < |s.pools| && index <= MAX_SLICE_INDEX && Fresh(s.pools, s.ledger.sliced, memory)
    ensures Takes(s.pools, s.ledger, a, index, memory, t.pools, t.ledger)
  {
    TakenOk(s.pools, s.ledger, a, index, memory);
    var address := Filled(s.pools, a, index, memory)[a].freeSlices[index][0];
    t := State(Taken(s.pools, a, index, memory),
               AfterTake(s.ledger, FilledSliced(s.pools, s.ledger.sliced, a, index, memory), (address, index)));
  }

  /** No call that a caller may make gets stuck. */
  lemma LegalProceeds(s: State, op: Op) returns (t: State)
    requires Good(s.pools, s.ledger) && Legal(s, op)
    ensures Next(s, op, t)
  {
    match op
    case NewAllocator =>
      t := State(s.pools + [NewPools()], if s.pools == [] then s.ledger.(classes := NewLedger().classes) else s.ledger);
    case Take(a, size, memory) =>
      SizeClass(size);
      t := TakeProceeds(s, a, SliceSizeToIndex(size), memory);
    case Give(a, address, size) =>
      SizeClass(size);
      var x := SliceFor(address, size);
      t := State(Given(s.pools, a, x), AfterGive(s.ledger, x));
  }

  ghost predicate IsRun(states: seq<State>, ops: seq<Op>) {
    && |states| == |ops| + 1 && states[0] == State([], NewLedger())
    && forall k :: 0 <= k < |ops| ==> Next(states[k], ops[k], states[k + 1])
  }

  lemma {:induction false} RunIsGood(states: seq<State>, ops: seq<Op>, k: nat)
    requires IsRun(states, ops) && k < |states|
    ensures Good(states[k].pools, states[k].ledger)
  {
    if k == 0 {
      assert states[0].ledger == NewLedger();
    } else {
      RunIsGood(states, ops, k - 1);
      assert Next(states[k - 1], ops[k - 1], states[k - 1 + 1]);
      NextKeepsGood(states[k - 1], ops[k - 1], states[k]);
    }
  }

  /** In every history, whichever allocator memory was freed into: free and live slices are pairwise disjoint,
      aligned, and inside one block behind its header; none is known twice. */
  lemma SlicesPartitionMemory(states: seq<State>, ops: seq<Op>, k: nat, x: Slice, y: Slice)
    requires IsRun(states, ops) && k < |states|
    requires Known(states[k].pools, states[k].ledger.live, x) && Known(states[k].pools, states[k].ledger.live, y)
    ensures var s := states[k]; var base := BlockFromAllocation(x.0);
            && FreeCount(s.pools, x) + s.ledger.live[x] == 1 && x.0 % 16 == 0
            && base + BLOCK_HEADER <= x.0 && x.0 + SliceSizeFromIndex(x.1) <= base + BLOCK_SIZE
    ensures x != y ==> !Overlap(x.0, SliceSizeFromIndex(x.1), y.0, SliceSizeFromIndex(y.1))
  {
    RunIsGood(states, ops, k);
    var s := states[k];
    Partition(s.pools, s.ledger.sliced, s.ledger.live, x, y);
    NoSliceTwice(s.pools, s.ledger.sliced, s.ledger.live, x);
  }

  // ---------- the footprint ----------

  /** The most slices of a class that were ever live at once, up to state k. */
  ghost function Peak(states: seq<State>, k: nat, i: nat): nat
    requires k < |states| && forall j :: 0 <= j <= k ==> i < |states[j].ledger.held|
  {
    var now, before := |states[k].ledger.held[i]|, if k == 0 then 0 else Peak(states, k - 1, i);
    if before < now then now else before
  }

  lemma {:induction false} HeldByClass(states: seq<State>, ops: seq<Op>, k: nat)
    requires IsRun(states, ops) && k < |states|
    ensures forall j :: 0 <= j <= k ==> |states[j].ledger.held| == |states[j].ledger.classes| == MAX_SLICE_INDEX + 1
  {
    forall j | 0 <= j <= k ensures |states[j].ledger.held| == |states[j].ledger.classes| == MAX_SLICE_INDEX + 1 {
      RunIsGood(states, ops, j);
    }
  }

  lemma {:induction false} PeakIsTracked(states: seq<State>, ops: seq<Op>, k: nat, i: nat)
    requires IsRun(states, ops) && k < |states| && |states[k].pools| <= 1 && i <= MAX_SLICE_INDEX
    ensures |states[k].pools| == 0 ==> k == 0
    ensures forall j :: 0 <= j <= k ==> |states[j].ledger.held| == |states[j].ledger.classes| == MAX_SLICE_INDEX + 1
    ensures states[k].ledger.classes[i].peak == Peak(states, k, i)
  {
    HeldByClass(states, ops, k);
    if 0 < k {
      StepAt(states, ops, k - 1, i);
      PeakIsTracked(states, ops, k - 1, i);
      StartsAtNothing(states, ops, i);
    }
  }

  lemma StartsAtNothing(states: seq<State>, ops: seq<Op>, i: nat)
    requires IsRun(states, ops) && i <= MAX_SLICE_INDEX
    ensures i < |states[0].ledger.classes| && states[0].ledger.classes[i].peak == 0
  {
  }

  lemma StepAt(states: seq<State>, ops: seq<Op>, k: nat, i: nat)
    requires IsRun(states, ops) && k < |ops| && |states[k + 1].pools| <= 1 && i <= MAX_SLICE_INDEX
    ensures |states[k].pools| <= |states[k + 1].pools| && 0 < |states[k + 1].pools|
    ensures i < |states[k].ledger.classes| && i < |states[k + 1].ledger.classes| && i < |states[k + 1].ledger.held|
    ensures (|states[k].pools| == 0 ==> states[k].ledger.classes[i].peak == 0) ==>
              var now := |states[k + 1].ledger.held[i]|; var before := states[k].ledger.classes[i].peak;
              states[k + 1].ledger.classes[i].peak == if before < now then now else before
  {
    RunIsGood(states, ops, k);
    RunIsGood(states, ops, k + 1);
    var s, op, t := states[k], ops[k], states[k + 1];
    assert Next(s, op, t);
    PoolsGrow(s, op, t);
    if |s.pools| == 0 ==> s.ledger.classes[i].peak == 0 {
      PeakStep(s, op, t, i);
    }
  }

  lemma PoolsGrow(s: State, op: Op, t: State)
    requires Next(s, op, t)
    ensures |s.pools| <= |t.pools| && 0 < |t.pools|
  {
  }

  lemma PeakStep(s: State, op: Op, t: State, i: nat)
    requires Good(s.pools, s.ledger) && Good(t.pools, t.ledger) && Next(s, op, t) && |t.pools| == 1 && i <= MAX_SLICE_INDEX
    requires |s.pools| == 0 ==> s.ledger.classes[i].peak == 0
    ensures var now := |t.ledger.held[i]|; var before := s.ledger.classes[i].peak;
            t.ledger.classes[i].peak == if before < now then now else before
  {
    assert Alone(t.pools[0], t.ledger.sliced, t.ledger.held, t.ledger.classes);
    assert ClassOk(t.pools[0].freeSlices[i], t.ledger.held[i], SlicedFor(t.ledger.sliced, i), t.ledger.classes[i], i);
    if |s.pools| == 1 {
      assert ClassOk(s.pools[0].freeSlices[i], s.ledger.held[i], SlicedFor(s.ledger.sliced, i), s.ledger.classes[i], i);
    }
    match op
    case NewAllocator =>
    case Take(a, size, memory) => SizeClass(size);
    case Give(a, address, size) => SizeClass(size);
  }

  /** An allocator that stays alone has sliced, for every class, the fewest blocks that can hold its peak: the peak over
      the slices of a block, rounded up. */
  lemma FootprintBound(states: seq<State>, ops: seq<Op>, i: nat)
    requires IsRun(states, ops) && |states[|ops|].pools| == 1 && i <= MAX_SLICE_INDEX
    ensures 0 < NSlices(i) && forall j :: 0 <= j <= |ops| ==> i < |states[j].ledger.held|
    ensures SlicedFor(states[|ops|].ledger.sliced, i) == CeilDiv(Peak(states, |ops|, i), NSlices(i))
    ensures forall blocks: nat :: CanHold(blocks, Peak(states, |ops|, i), i) <==> SlicedFor(states[|ops|].ledger.sliced, i) <= blocks
  {
    SomeSlicesFit(i);
    RunIsGood(states, ops, |ops|);
    PeakIsTracked(states, ops, |ops|, i);
    var s := states[|ops|];
    assert ClassOk(s.pools[0].freeSlices[i], s.ledger.held[i], SlicedFor(s.ledger.sliced, i), s.ledger.classes[i], i);
    FrugalIsCeiling(s.ledger.classes[i], NSlices(i));
    forall blocks: nat ensures CanHold(blocks, Peak(states, |ops|, i), i) <==> SlicedFor(s.ledger.sliced, i) <= blocks {
      SlicedIsFewest(s.ledger.classes[i], i, blocks);
    }
  }
}
