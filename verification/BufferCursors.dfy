/** Registered iterators: what their offset is, and what appending and popping do to it. */
module BufferCursors {
  import opened BufferStore
  import opened BufferKernel

  function Max0(n: int): (r: nat)
    ensures r == n || (r == 0 && n < 0)
  {
    if n < 0 then 0 else n
  }

  /** `Iterator::offset`: the sizes of the blocks before, and the way into the block itself. A position
      that was popped from under the iterator counts as the start of the block. */
  function Offset(blocks: seq<Block>, cursor: Cursor): int
    requires CursorOk(blocks, cursor)
  {
    match cursor
    case Nowhere => 0
    case At(i, p) => SumSizes(blocks[..i]) + Max0(p - blocks[i].start)
  }

  predicate CursorsOk(c: Chain) {
    forall j :: 0 <= j < |c.cursors| ==> CursorOk(c.blocks, c.cursors[j])
  }

  /** The same iterators, each at the same offset. */
  predicate KeepsOffsets(c: Chain, c': Chain) {
    && CursorsOk(c) && CursorsOk(c') && |c.cursors| == |c'.cursors|
    && forall j :: 0 <= j < |c.cursors| ==> Offset(c'.blocks, c'.cursors[j]) == Offset(c.blocks, c.cursors[j])
  }

  /** Every iterator is n bytes nearer to the start, as far as there is room. */
  predicate ShiftsOffsets(c: Chain, c': Chain, n: nat) {
    && CursorsOk(c) && CursorsOk(c') && |c.cursors| == |c'.cursors|
    && forall j :: 0 <= j < |c.cursors| ==> Offset(c'.blocks, c'.cursors[j]) == Max0(Offset(c.blocks, c.cursors[j]) - n)
  }

  lemma OffsetBounds(stores: seq<Store>, blocks: seq<Block>, cursor: Cursor)
    requires BlocksOk(stores, blocks) && CursorOk(blocks, cursor)
    ensures 0 <= Offset(blocks, cursor) <= |Text(stores, blocks)|
  {
    if cursor.At? {
      TextSplit(stores, blocks, cursor.block);
      TextAt(stores, blocks, cursor.block);
      TextLength(stores, blocks[..cursor.block]);
    }
  }

  /** Appending a block, or bytes behind the last one, moves no iterator. */
  lemma AppendKeepsOffsets(stores: seq<Store>, c: Chain, k: Block)
    requires ChainOk(stores, c) && 0 <= k.Size()
    ensures KeepsOffsets(c, Inserted(c, |c.blocks|, k))
  {
    var c' := Inserted(c, |c.blocks|, k);
    forall j | 0 <= j < |c.cursors|
      ensures CursorOk(c'.blocks, c.cursors[j]) && Offset(c'.blocks, c.cursors[j]) == Offset(c.blocks, c.cursors[j])
    {
      var cursor := c.cursors[j];
      assert CursorOk(c.blocks, cursor);
      if cursor.At? {
        assert c'.blocks[..cursor.block] == c.blocks[..cursor.block];
      }
    }
  }

  lemma ExtendKeepsOffsets(stores: seq<Store>, c: Chain, n: nat)
    requires ChainOk(stores, c) && c.blocks != []
    ensures KeepsOffsets(c, Extended(c, |c.blocks| - 1, n))
  {
    var c' := Extended(c, |c.blocks| - 1, n);
    forall j | 0 <= j < |c.cursors|
      ensures CursorOk(c'.blocks, c.cursors[j]) && Offset(c'.blocks, c.cursors[j]) == Offset(c.blocks, c.cursors[j])
    {
      var cursor := c.cursors[j];
      assert CursorOk(c.blocks, cursor);
      if cursor.At? {
        assert c'.blocks[..cursor.block] == c.blocks[..cursor.block];
      }
    }
  }

  lemma OffsetAfterDelete(stores: seq<Store>, blocks: seq<Block>, cursor: Cursor)
    requires BlocksOk(stores, blocks) && blocks != [] && CursorOk(blocks, cursor)
    ensures CursorOk(blocks[1..], AfterDelete(blocks, cursor))
    ensures Offset(blocks[1..], AfterDelete(blocks, cursor)) == Max0(Offset(blocks, cursor) - blocks[0].Size())
  {
    if cursor.At? && 0 < cursor.block {
      var i := cursor.block;
      assert blocks[..i] == [blocks[0]] + blocks[1..][..i - 1];
      SumAppend([blocks[0]], blocks[1..][..i - 1]);
      TextLength(stores, blocks[1..][..i - 1]);
    }
  }

  lemma DeleteShiftsOffsets(stores: seq<Store>, c: Chain)
    requires ChainOk(stores, c) && c.blocks != [] && c.blocks[0].Size() <= c.size
    ensures 0 <= c.blocks[0].Size() && ShiftsOffsets(c, WithoutFirst(c), c.blocks[0].Size())
  {
    assert BlockOk(stores, c.blocks[0]);
    forall j | 0 <= j < |c.cursors|
      ensures var cursor' := AfterDelete(c.blocks, c.cursors[j]);
              CursorOk(c.blocks[1..], cursor')
              && Offset(c.blocks[1..], cursor') == Max0(Offset(c.blocks, c.cursors[j]) - c.blocks[0].Size())
    {
      OffsetAfterDelete(stores, c.blocks, c.cursors[j]);
    }
  }

  lemma OffsetAfterTrim(blocks: seq<Block>, cursor: Cursor, n: nat)
    requires blocks != [] && n <= blocks[0].Size() && CursorOk(blocks, cursor)
    requires forall i :: 0 <= i < |blocks| ==> 0 <= blocks[i].Size()
    ensures var blocks' := blocks[0 := blocks[0].(start := blocks[0].start + n)];
            CursorOk(blocks', cursor) && Offset(blocks', cursor) == Max0(Offset(blocks, cursor) - n)
  {
    var blocks' := blocks[0 := blocks[0].(start := blocks[0].start + n)];
    if cursor.At? && 0 < cursor.block {
      var i := cursor.block;
      assert blocks[..i] == [blocks[0]] + blocks[1..i] && blocks'[..i] == [blocks'[0]] + blocks[1..i];
      SumAppend([blocks[0]], blocks[1..i]);
      SumAppend([blocks'[0]], blocks[1..i]);
      SumNonNegative(blocks[1..i]);
    }
  }

  lemma {:induction false} SumNonNegative(blocks: seq<Block>)
    requires forall i :: 0 <= i < |blocks| ==> 0 <= blocks[i].Size()
    ensures 0 <= SumSizes(blocks)
    decreases |blocks|
  {
    if blocks != [] {
      SumNonNegative(blocks[1..]);
    }
  }

  lemma TrimShiftsOffsets(stores: seq<Store>, c: Chain, n: nat)
    requires ChainOk(stores, c) && c.blocks != [] && n <= c.blocks[0].Size() && n <= c.size
    ensures ShiftsOffsets(c, Trimmed(c, n), n)
  {
    assert forall i :: 0 <= i < |c.blocks| ==> BlockOk(stores, c.blocks[i]);
    forall j | 0 <= j < |c.cursors|
      ensures CursorOk(Trimmed(c, n).blocks, c.cursors[j])
      ensures Offset(Trimmed(c, n).blocks, c.cursors[j]) == Max0(Offset(c.blocks, c.cursors[j]) - n)
    {
      OffsetAfterTrim(c.blocks, c.cursors[j], n);
    }
  }

  /** One buffer was appended to: all others are isolated, and its iterators stay where they are. */
  predicate Appends(stores: seq<Store>, chains: seq<Chain>, stores': seq<Store>, chains': seq<Chain>, b: nat) {
    b < |chains| && Isolated(stores, chains, stores', chains', b) && KeepsOffsets(chains[b], chains'[b])
  }

  lemma AppendsTrans(s0: seq<Store>, c0: seq<Chain>, s1: seq<Store>, c1: seq<Chain>, s2: seq<Store>, c2: seq<Chain>, b: nat)
    requires Appends(s0, c0, s1, c1, b) && Appends(s1, c1, s2, c2, b)
    ensures Appends(s0, c0, s2, c2, b)
  {
    IsolatedTrans(s0, c0, s1, c1, s2, c2, b);
    forall j | 0 <= j < |c0[b].cursors|
      ensures Offset(c2[b].blocks, c2[b].cursors[j]) == Offset(c0[b].blocks, c0[b].cursors[j])
    {
      assert Offset(c1[b].blocks, c1[b].cursors[j]) == Offset(c0[b].blocks, c0[b].cursors[j]);
    }
  }

  lemma AppendsNothing(stores: seq<Store>, chains: seq<Chain>, blockSize: nat, b: nat)
    requires Ok(stores, chains, blockSize) && b < |chains|
    ensures Appends(stores, chains, stores, chains, b)
  {
  }

  lemma ShiftsTrans(a: Chain, b: Chain, c: Chain, m: nat, n: nat)
    requires ShiftsOffsets(a, b, m) && ShiftsOffsets(b, c, n)
    ensures ShiftsOffsets(a, c, m + n)
  {
    forall j | 0 <= j < |a.cursors|
      ensures Offset(c.blocks, c.cursors[j]) == Max0(Offset(a.blocks, a.cursors[j]) - (m + n))
    {
      assert Offset(b.blocks, b.cursors[j]) == Max0(Offset(a.blocks, a.cursors[j]) - m);
    }
  }

  /** Popping more than there is takes every iterator to 0, just as popping all there is. */
  lemma ShiftsFar(stores: seq<Store>, a: Chain, b: Chain, m: nat, n: nat)
    requires ChainOk(stores, a) && ShiftsOffsets(a, b, m) && (m == n || (m == a.size && m <= n))
    ensures ShiftsOffsets(a, b, n)
  {
    forall j | 0 <= j < |a.cursors|
      ensures Offset(b.blocks, b.cursors[j]) == Max0(Offset(a.blocks, a.cursors[j]) - n)
    {
      OffsetBounds(stores, a.blocks, a.cursors[j]);
    }
  }

  lemma ShiftsNothing(stores: seq<Store>, c: Chain)
    requires ChainOk(stores, c)
    ensures ShiftsOffsets(c, c, 0)
  {
    forall j | 0 <= j < |c.cursors|
      ensures Offset(c.blocks, c.cursors[j]) == Max0(Offset(c.blocks, c.cursors[j]))
    {
      OffsetBounds(stores, c.blocks, c.cursors[j]);
    }
  }

  // ---------- using an iterator ----------

  lemma SumAt(blocks: seq<Block>, i: nat)
    requires i < |blocks|
    ensures SumSizes(blocks[..i + 1]) == SumSizes(blocks[..i]) + blocks[i].Size()
  {
    assert blocks[..i + 1] == blocks[..i] + [blocks[i]];
    SumAppend(blocks[..i], [blocks[i]]);
    assert SumSizes([blocks[i]]) == blocks[i].Size() + SumSizes([]);
  }

  /** In place: on a byte, or behind the last one. */
  predicate Settled(blocks: seq<Block>, cursor: Cursor) {
    && cursor.At? && cursor.block < |blocks|
    && blocks[cursor.block].start <= cursor.position <= blocks[cursor.block].end
    && (cursor.position == blocks[cursor.block].end ==> cursor.block + 1 == |blocks|)
  }

  /** A settled iterator is on a byte exactly when its offset is below the length. */
  lemma SettledOffset(stores: seq<Store>, blocks: seq<Block>, cursor: Cursor)
    requires BlocksOk(stores, blocks) && Settled(blocks, cursor)
    ensures 0 <= Offset(blocks, cursor) <= |Text(stores, blocks)|
    ensures cursor.position < blocks[cursor.block].end <==> Offset(blocks, cursor) < |Text(stores, blocks)|
  {
    var i := cursor.block;
    TextSplit(stores, blocks, i);
    TextAt(stores, blocks, i);
    TextLength(stores, blocks[..i]);
    if i + 1 == |blocks| {
      assert Text(stores, blocks[i + 1..]) == [];
    }
  }

  /** And then it is that byte. */
  lemma SettledByte(stores: seq<Store>, blocks: seq<Block>, cursor: Cursor)
    requires BlocksOk(stores, blocks) && Settled(blocks, cursor) && cursor.position < blocks[cursor.block].end
    ensures BlockOk(stores, blocks[cursor.block]) && 0 <= Offset(blocks, cursor) < |Text(stores, blocks)|
    ensures Text(stores, blocks)[Offset(blocks, cursor)] == stores[blocks[cursor.block].store].data[cursor.position]
  {
    var i, k := cursor.block, blocks[cursor.block];
    var front, v, back := Text(stores, blocks[..i]), View(stores, k), Text(stores, blocks[i + 1..]);
    assert Text(stores, blocks) == front + (v + back) by {
      TextSplit(stores, blocks, i);
      TextAt(stores, blocks, i);
    }
    assert |front| == SumSizes(blocks[..i]) by {
      TextLength(stores, blocks[..i]);
    }
    Nth(front, v, back, cursor.position - k.start);
  }

  lemma Nth(front: seq<char>, v: seq<char>, back: seq<char>, n: nat)
    ensures n < |v| ==> (front + (v + back))[|front| + n] == v[n]
  {
  }

  /** The chain with one iterator put elsewhere. */
  function WithCursor(c: Chain, j: nat, cursor: Cursor): Chain
    requires j < |c.cursors|
  {
    c.(cursors := c.cursors[j := cursor])
  }

  lemma WithCursorTwice(chains: seq<Chain>, chains': seq<Chain>, b: nat, j: nat, cursor: Cursor)
    requires b < |chains| == |chains'| && j < |chains[b].cursors| && j < |chains'[b].cursors|
    requires chains' == chains[b := WithCursor(chains[b], j, chains'[b].cursors[j])]
    ensures chains'[b := WithCursor(chains'[b], j, cursor)] == chains[b := WithCursor(chains[b], j, cursor)]
  {
    assert chains'[b].cursors[j := cursor] == chains[b].cursors[j := cursor];
  }

  lemma WithCursorOk(stores: seq<Store>, chains: seq<Chain>, blockSize: nat, b: nat, j: nat, cursor: Cursor)
    requires Ok(stores, chains, blockSize) && b < |chains| && j < |chains[b].cursors| && CursorOk(chains[b].blocks, cursor)
    ensures Ok(stores, chains[b := WithCursor(chains[b], j, cursor)], blockSize)
  {
    var c' := WithCursor(chains[b], j, cursor);
    forall s | 0 <= s < |stores| ensures Views(chains[b := c'], s) == Views(chains, s) {
      ViewsUpdate(chains, b, c', s);
    }
  }
}
