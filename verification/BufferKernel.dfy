/**
 The things the buffer code does to one block of one chain, and that each keeps the whole state in order:
 marks, views, sizes, reference counts and registered cursors of every chain.
 */
module BufferKernel {
  import opened BufferStore

  /** The text of a chain in two parts around position i. */
  predicate Around(stores: seq<Store>, blocks: seq<Block>, i: nat, before: seq<char>, after: seq<char>) {
    i <= |blocks| && BlocksOk(stores, blocks) && Text(stores, blocks[..i]) == before && Text(stores, blocks[i..]) == after
  }

  lemma AroundWhole(stores: seq<Store>, blocks: seq<Block>, i: nat, before: seq<char>, after: seq<char>)
    requires Around(stores, blocks, i, before, after)
    ensures Text(stores, blocks) == before + after
  {
    TextSplit(stores, blocks, i);
  }

  /** Only chain b may have changed: every other chain is as it was and stands for the same bytes. */
  predicate Isolated(stores: seq<Store>, chains: seq<Chain>, stores': seq<Store>, chains': seq<Chain>, b: nat) {
    && Extends(stores, stores') && |chains| == |chains'|
    && forall o :: 0 <= o < |chains| && o != b ==>
         && chains'[o] == chains[o] && BlocksOk(stores, chains[o].blocks) && BlocksOk(stores', chains[o].blocks)
         && Text(stores', chains[o].blocks) == Text(stores, chains[o].blocks)
  }

  lemma IsolatedTrans(s0: seq<Store>, c0: seq<Chain>, s1: seq<Store>, c1: seq<Chain>, s2: seq<Store>, c2: seq<Chain>, b: nat)
    requires Isolated(s0, c0, s1, c1, b) && Isolated(s1, c1, s2, c2, b)
    ensures Isolated(s0, c0, s2, c2, b)
  {
    ExtendsTrans(s0, s1, s2);
    forall o | 0 <= o < |c0| && o != b
      ensures c2[o] == c0[o] && BlocksOk(s0, c0[o].blocks) && BlocksOk(s2, c0[o].blocks)
      ensures Text(s2, c0[o].blocks) == Text(s0, c0[o].blocks)
    {
      assert c1[o] == c0[o] && c2[o] == c1[o];
    }
  }

  /** A new chain b over arrays that only grew, with the counts right: all is in order. */
  lemma Replace(stores: seq<Store>, chains: seq<Chain>, stores': seq<Store>, b: nat, c: Chain, blockSize: nat)
    requires Ok(stores, chains, blockSize) && b < |chains|
    requires Extends(stores, stores') && StoresOk(stores', blockSize) && ChainOk(stores', c)
    requires CountsOk(stores', chains[b := c])
    ensures Ok(stores', chains[b := c], blockSize)
    ensures Isolated(stores, chains, stores', chains[b := c], b)
  {
    forall o | 0 <= o < |chains| && o != b
      ensures ChainOk(stores', chains[o]) && Text(stores', chains[o].blocks) == Text(stores, chains[o].blocks)
    {
      Isolation(stores, stores', chains[o].blocks);
    }
  }

  // ---------- inserting a block ----------

  function Inserted(c: Chain, at: nat, k: Block): Chain
    requires at <= |c.blocks| && 0 <= k.Size()
  {
    c.(blocks := c.blocks[..at] + [k] + c.blocks[at..], size := c.size + k.Size())
  }

  /** Where blocks may be inserted while cursors are registered: behind everything. */
  predicate MayInsert(c: Chain, at: nat) {
    at <= |c.blocks| && (c.cursors == [] || at == |c.blocks|)
  }

  lemma InsertedChainOk(stores: seq<Store>, c: Chain, at: nat, k: Block)
    requires ChainOk(stores, c) && MayInsert(c, at) && BlockOk(stores, k)
    ensures var c' := Inserted(c, at, k);
            && ChainOk(stores, c')
            && Around(stores, c'.blocks, at + 1, Text(stores, c.blocks[..at]) + View(stores, k), Text(stores, c.blocks[at..]))
  {
    var c' := Inserted(c, at, k);
    TextInsert(stores, c.blocks, at, [k]);
    TextOne(stores, k);
    TextSplit(stores, c.blocks, at);
    assert c'.blocks[..at + 1] == c.blocks[..at] + [k] && c'.blocks[at + 1..] == c.blocks[at..];
    TextAppend(stores, c.blocks[..at], [k]);
  }

  lemma CountsAfterInsert(chains: seq<Chain>, b: nat, at: nat, k: Block, s: nat)
    requires b < |chains| && at <= |chains[b].blocks| && 0 <= k.Size()
    ensures Views(chains[b := Inserted(chains[b], at, k)], s) == Views(chains, s) + if k.store == s then 1 else 0
  {
    ViewsUpdate(chains, b, Inserted(chains[b], at, k), s);
    CountInsert(chains[b].blocks, at, k, s);
  }

  lemma Insert(stores: seq<Store>, chains: seq<Chain>, stores': seq<Store>, b: nat, at: nat, k: Block, blockSize: nat)
    requires Ok(stores, chains, blockSize) && b < |chains| && MayInsert(chains[b], at)
    requires Extends(stores, stores') && StoresOk(stores', blockSize) && BlockOk(stores', k)
    requires CountsOk(stores', chains[b := Inserted(chains[b], at, k)])
    ensures var c := chains[b];
            var chains' := chains[b := Inserted(c, at, k)];
            && Ok(stores', chains', blockSize) && Isolated(stores, chains, stores', chains', b)
            && Around(stores', chains'[b].blocks, at + 1, Text(stores, c.blocks[..at]) + View(stores', k), Text(stores, c.blocks[at..]))
  {
    var c := chains[b];
    Isolation(stores, stores', c.blocks);
    Isolation(stores, stores', c.blocks[..at]);
    Isolation(stores, stores', c.blocks[at..]);
    InsertedChainOk(stores', c, at, k);
    Replace(stores, chains, stores', b, Inserted(c, at, k), blockSize);
  }

  lemma CountsAfterAllocate(stores: seq<Store>, chains: seq<Chain>, b: nat, at: nat, store: Store)
    requires CountsOk(stores, chains) && b < |chains| && at <= |chains[b].blocks| && store.referenceCount == 1
    requires forall o :: 0 <= o < |chains| ==> BlocksOk(stores, chains[o].blocks)
    ensures CountsOk(stores + [store], chains[b := Inserted(chains[b], at, Block(|stores|, 0, 0))])
  {
    var k := Block(|stores|, 0, 0);
    forall s | 0 <= s <= |stores|
      ensures (stores + [store])[s].referenceCount == Views(chains[b := Inserted(chains[b], at, k)], s)
    {
      CountsAfterInsert(chains, b, at, k, s);
      if s == |stores| {
        ViewsBeyond(stores, chains, s);
      }
    }
  }

  /** A new block with a new array (`Block(Allocator *)`). */
  lemma Allocate(stores: seq<Store>, chains: seq<Chain>, blockSize: nat, b: nat, at: nat, data: seq<char>)
    requires Ok(stores, chains, blockSize) && b < |chains| && MayInsert(chains[b], at) && |data| == blockSize
    ensures var k := Block(|stores|, 0, 0);
            var stores' := stores + [Store(data, 0, 1)];
            var chains' := chains[b := Inserted(chains[b], at, k)];
            && Ok(stores', chains', blockSize) && Isolated(stores, chains, stores', chains', b)
            && Around(stores', chains'[b].blocks, at + 1, Text(stores, chains[b].blocks[..at]), Text(stores, chains[b].blocks[at..]))
  {
    var before := Text(stores, chains[b].blocks[..at]);
    NewStore(stores, data, blockSize);
    CountsAfterAllocate(stores, chains, b, at, Store(data, 0, 1));
    Insert(stores, chains, stores + [Store(data, 0, 1)], b, at, Block(|stores|, 0, 0), blockSize);
    assert before + [] == before;
  }

  lemma NewStore(stores: seq<Store>, data: seq<char>, blockSize: nat)
    requires StoresOk(stores, blockSize) && |data| == blockSize
    ensures StoresOk(stores + [Store(data, 0, 1)], blockSize) && Extends(stores, stores + [Store(data, 0, 1)])
  {
    var stores' := stores + [Store(data, 0, 1)];
    assert forall s :: 0 <= s < |stores| ==> stores'[s] == stores[s];
  }

  /** One more reference to an array. */
  function Referenced(stores: seq<Store>, s: nat): seq<Store>
    requires s < |stores|
  {
    stores[s := stores[s].(referenceCount := stores[s].referenceCount + 1)]
  }

  /** A block that views the array of another (`Block(Allocator *, Block *)` and its offset form). */
  lemma Share(stores: seq<Store>, chains: seq<Chain>, blockSize: nat, b: nat, at: nat, k: Block)
    requires Ok(stores, chains, blockSize) && b < |chains| && MayInsert(chains[b], at) && BlockOk(stores, k)
    ensures var stores' := Referenced(stores, k.store);
            var chains' := chains[b := Inserted(chains[b], at, k)];
            && Ok(stores', chains', blockSize) && Isolated(stores, chains, stores', chains', b)
            && Around(stores', chains'[b].blocks, at + 1, Text(stores, chains[b].blocks[..at]) + View(stores, k),
                      Text(stores, chains[b].blocks[at..]))
  {
    var stores' := Referenced(stores, k.store);
    forall s | 0 <= s < |stores'|
      ensures stores'[s].referenceCount == Views(chains[b := Inserted(chains[b], at, k)], s)
    {
      CountsAfterInsert(chains, b, at, k, s);
    }
    assert View(stores', k) == View(stores, k);
    Insert(stores, chains, stores', b, at, k, blockSize);
  }

  // ---------- writing behind a block ----------

  function Extended(c: Chain, i: nat, n: nat): Chain
    requires i < |c.blocks|
  {
    c.(blocks := c.blocks[i := c.blocks[i].(end := c.blocks[i].end + n)], size := c.size + n)
  }

  predicate Writable(stores: seq<Store>, k: Block, n: nat) {
    BlockOk(stores, k) && k.end == stores[k.store].end && k.end + n <= |stores[k.store].data|
  }

  lemma ExtendedChainOk(stores: seq<Store>, c: Chain, i: nat, text: seq<char>, blockSize: nat)
    requires StoresOk(stores, blockSize) && ChainOk(stores, c) && i < |c.blocks| && Writable(stores, c.blocks[i], |text|)
    ensures var stores' := Write(stores, c.blocks[i].store, text);
            var c' := Extended(c, i, |text|);
            && ChainOk(stores', c')
            && Around(stores', c'.blocks, i + 1, Text(stores, c.blocks[..i + 1]) + text, Text(stores, c.blocks[i + 1..]))
  {
    var stores' := Write(stores, c.blocks[i].store, text);
    var c' := Extended(c, i, |text|);
    TextExtend(stores, c.blocks, i, text);
    TextSplit(stores, c.blocks, i + 1);
    AroundWhole(stores', c'.blocks, i + 1, Text(stores, c.blocks[..i + 1]) + text, Text(stores, c.blocks[i + 1..]));
    ExtendedCursors(stores, c, i, |text|);
  }

  lemma ExtendedCursors(stores: seq<Store>, c: Chain, i: nat, n: nat)
    requires ChainOk(stores, c) && i < |c.blocks|
    ensures forall j :: 0 <= j < |c.cursors| ==> CursorOk(Extended(c, i, n).blocks, c.cursors[j])
  {
    forall j | 0 <= j < |c.cursors| ensures CursorOk(Extended(c, i, n).blocks, c.cursors[j]) {
      assert CursorOk(c.blocks, c.cursors[j]);
    }
  }

  /** `Block::copyFrom`: bytes behind the block that ends at the mark of its array. */
  lemma CopyFrom(stores: seq<Store>, chains: seq<Chain>, blockSize: nat, b: nat, i: nat, text: seq<char>)
    requires Ok(stores, chains, blockSize) && b < |chains| && i < |chains[b].blocks|
    requires Writable(stores, chains[b].blocks[i], |text|)
    ensures var c := chains[b];
            var stores' := Write(stores, c.blocks[i].store, text);
            var chains' := chains[b := Extended(c, i, |text|)];
            && Ok(stores', chains', blockSize) && Isolated(stores, chains, stores', chains', b)
            && Around(stores', chains'[b].blocks, i + 1, Text(stores, c.blocks[..i + 1]) + text, Text(stores, c.blocks[i + 1..]))
  {
    var c := chains[b];
    var stores' := Write(stores, c.blocks[i].store, text);
    var c' := Extended(c, i, |text|);
    ExtendedChainOk(stores, c, i, text, blockSize);
    CountsAfterTrim(stores, chains, b, i, c'.blocks[i], c');
    assert CountsOk(stores', chains[b := c']);
    Replace(stores, chains, stores', b, c', blockSize);
  }

  /** Moving an end of a view does not change who views what. */
  lemma CountsAfterTrim(stores: seq<Store>, chains: seq<Chain>, b: nat, i: nat, k: Block, c': Chain)
    requires CountsOk(stores, chains) && b < |chains| && i < |chains[b].blocks|
    requires k.store == chains[b].blocks[i].store && c'.blocks == chains[b].blocks[i := k]
    ensures CountsOk(stores, chains[b := c'])
  {
    forall s | 0 <= s < |stores| ensures Views(chains[b := c'], s) == Views(chains, s) {
      ViewsUpdate(chains, b, c', s);
      CountUpdate(chains[b].blocks, i, k, s);
    }
  }

  // ---------- splitting a block ----------

  /** `Block::split`: block i keeps `offset` bytes, a second view of the same array holds the rest. */
  function SplitAt(c: Chain, i: nat, offset: nat): Chain
    requires i < |c.blocks|
  {
    var k := c.blocks[i];
    var left, right := Block(k.store, k.start, k.start + offset), Block(k.store, k.start + offset, k.end);
    c.(blocks := c.blocks[..i] + [left] + ([right] + c.blocks[i + 1..]))
  }

  lemma SplitText(stores: seq<Store>, c: Chain, i: nat, offset: nat)
    requires BlocksOk(stores, c.blocks) && i < |c.blocks| && offset <= c.blocks[i].Size()
    ensures var c' := SplitAt(c, i, offset);
            var v := View(stores, c.blocks[i]);
            Around(stores, c'.blocks, i + 1, Text(stores, c.blocks[..i]) + v[..offset], v[offset..] + Text(stores, c.blocks[i + 1..]))
  {
    var c' := SplitAt(c, i, offset);
    var left, right := c'.blocks[i], c'.blocks[i + 1];
    assert c'.blocks[..i + 1] == c.blocks[..i] + [left] && c'.blocks[i + 1..] == [right] + c.blocks[i + 1..];
    TextAppend(stores, c.blocks[..i], [left]);
    TextAppend(stores, [right], c.blocks[i + 1..]);
    TextOne(stores, left);
    TextOne(stores, right);
    var k := c.blocks[i];
    Slices(stores[k.store].data, k.start, k.end, offset);
  }

  lemma Slices(data: seq<char>, start: nat, end: nat, n: nat)
    requires start + n <= end <= |data|
    ensures data[start..end][..n] == data[start..start + n] && data[start..end][n..] == data[start + n..end]
  {
  }

  lemma SplitWhole(stores: seq<Store>, c: Chain, i: nat, offset: nat)
    requires BlocksOk(stores, c.blocks) && i < |c.blocks| && offset <= c.blocks[i].Size()
    ensures var c', whole := SplitAt(c, i, offset), Text(stores, c.blocks);
            var n := |Text(stores, c.blocks[..i])| + offset;
            n <= |whole| && Around(stores, c'.blocks, i + 1, whole[..n], whole[n..]) && Text(stores, c'.blocks) == whole
  {
    var front, v, back := Text(stores, c.blocks[..i]), View(stores, c.blocks[i]), Text(stores, c.blocks[i + 1..]);
    SplitText(stores, c, i, offset);
    assert Text(stores, c.blocks) == front + (v + back) by {
      TextSplit(stores, c.blocks, i);
      TextAt(stores, c.blocks, i);
    }
    Cut(front, v, back, offset);
    var c' := SplitAt(c, i, offset);
    assert Text(stores, c'.blocks) == front + v[..offset] + (v[offset..] + back) by {
      AroundWhole(stores, c'.blocks, i + 1, front + v[..offset], v[offset..] + back);
    }
  }

  lemma Cut(front: seq<char>, v: seq<char>, back: seq<char>, n: nat)
    requires n <= |v|
    ensures (front + (v + back))[..|front| + n] == front + v[..n]
    ensures (front + (v + back))[|front| + n..] == v[n..] + back
    ensures front + v[..n] + (v[n..] + back) == front + (v + back)
  {
  }

  lemma Split(stores: seq<Store>, chains: seq<Chain>, blockSize: nat, b: nat, i: nat, offset: nat)
    requires Ok(stores, chains, blockSize) && b < |chains| && chains[b].cursors == []
    requires i < |chains[b].blocks| && offset <= chains[b].blocks[i].Size()
    ensures var c := chains[b];
            var stores' := Referenced(stores, c.blocks[i].store);
            var chains' := chains[b := SplitAt(c, i, offset)];
            var whole := Text(stores, c.blocks);
            var n := |Text(stores, c.blocks[..i])| + offset;
            && Ok(stores', chains', blockSize) && Isolated(stores, chains, stores', chains', b)
            && n <= |whole| && Around(stores', chains'[b].blocks, i + 1, whole[..n], whole[n..])
  {
    var c := chains[b];
    var stores' := Referenced(stores, c.blocks[i].store);
    var c' := SplitAt(c, i, offset);
    assert Extends(stores, stores');
    Isolation(stores, stores', c.blocks);
    Isolation(stores, stores', c.blocks[..i]);
    SplitWhole(stores', c, i, offset);
    CountsAfterSplit(stores, chains, b, i, offset);
    Replace(stores, chains, stores', b, c', blockSize);
  }

  lemma CountsAfterSplit(stores: seq<Store>, chains: seq<Chain>, b: nat, i: nat, offset: nat)
    requires CountsOk(stores, chains) && b < |chains| && i < |chains[b].blocks| && chains[b].blocks[i].store < |stores|
    ensures CountsOk(Referenced(stores, chains[b].blocks[i].store), chains[b := SplitAt(chains[b], i, offset)])
  {
    var c := chains[b];
    var c' := SplitAt(c, i, offset);
    var left, right := c'.blocks[i], c'.blocks[i + 1];
    var shorter := c.blocks[i := left];
    assert c'.blocks == shorter[..i + 1] + [right] + shorter[i + 1..];
    forall s | 0 <= s < |stores|
      ensures Views(chains[b := c'], s) == Views(chains, s) + if s == right.store then 1 else 0
    {
      ViewsUpdate(chains, b, c', s);
      CountUpdate(c.blocks, i, left, s);
      CountInsert(shorter, i + 1, right, s);
    }
  }

  // ---------- consuming ----------

  /** A reference less (`Block::destroy`): at zero the array is given back. */
  function Released(stores: seq<Store>, s: nat): seq<Store>
    requires s < |stores|
  {
    stores[s := stores[s].(referenceCount := if stores[s].referenceCount == 0 then 0 else stores[s].referenceCount - 1)]
  }

  /** `Iterator::deleteBlock` for the first block: on to its successor, or nowhere if there is none. */
  function AfterDelete(blocks: seq<Block>, cursor: Cursor): Cursor
    requires blocks != []
  {
    match cursor
    case Nowhere => Nowhere
    case At(i, p) =>
      if 0 < i then At(i - 1, p)
      else if 1 < |blocks| then At(0, blocks[1].start)
      else Nowhere
  }

  function AllAfterDelete(blocks: seq<Block>, cursors: seq<Cursor>): (r: seq<Cursor>)
    requires blocks != []
    ensures |r| == |cursors| && forall j :: 0 <= j < |r| ==> r[j] == AfterDelete(blocks, cursors[j])
  {
    seq(|cursors|, j requires 0 <= j < |cursors| => AfterDelete(blocks, cursors[j]))
  }

  function WithoutFirst(c: Chain): Chain
    requires c.blocks != [] && c.blocks[0].Size() <= c.size
  {
    Chain(c.blocks[1..], c.size - c.blocks[0].Size(), AllAfterDelete(c.blocks, c.cursors))
  }

  /** `ReadBuffer::deleteBlock` of the first block. */
  lemma DeleteFirst(stores: seq<Store>, chains: seq<Chain>, blockSize: nat, b: nat)
    requires Ok(stores, chains, blockSize) && b < |chains| && chains[b].blocks != []
    ensures var c, k := chains[b], chains[b].blocks[0];
            && k.Size() <= |Text(stores, c.blocks)| == c.size
            && var stores' := Released(stores, k.store);
               var chains' := chains[b := WithoutFirst(c)];
               && Ok(stores', chains', blockSize) && Isolated(stores, chains, stores', chains', b)
               && Text(stores', c.blocks[1..]) == Text(stores, c.blocks)[k.Size()..]
  {
    var c, k := chains[b], chains[b].blocks[0];
    var stores' := Released(stores, k.store);
    assert Text(stores, c.blocks) == View(stores, k) + Text(stores, c.blocks[1..]);
    assert Extends(stores, stores');
    Isolation(stores, stores', c.blocks[1..]);
    var c' := WithoutFirst(c);
    forall s | 0 <= s < |stores'| ensures stores'[s].referenceCount == Views(chains[b := c'], s) {
      ViewsUpdate(chains, b, c', s);
    }
    forall j | 0 <= j < |c'.cursors| ensures CursorOk(c'.blocks, c'.cursors[j]) {
      assert CursorOk(c.blocks, c.cursors[j]);
    }
    Replace(stores, chains, stores', b, c', blockSize);
  }

  function Trimmed(c: Chain, n: nat): Chain
    requires c.blocks != [] && n <= c.size
  {
    c.(blocks := c.blocks[0 := c.blocks[0].(start := c.blocks[0].start + n)], size := c.size - n)
  }

  /** `Block::popped` on the first block: cursors are left where they are. */
  lemma TrimFirst(stores: seq<Store>, chains: seq<Chain>, blockSize: nat, b: nat, n: nat)
    requires Ok(stores, chains, blockSize) && b < |chains| && chains[b].blocks != [] && n <= chains[b].blocks[0].Size()
    ensures var c := chains[b];
            && n <= |Text(stores, c.blocks)| == c.size
            && var chains' := chains[b := Trimmed(c, n)];
               && Ok(stores, chains', blockSize) && Isolated(stores, chains, stores, chains', b)
               && Text(stores, chains'[b].blocks) == Text(stores, c.blocks)[n..]
  {
    var c, k := chains[b], chains[b].blocks[0];
    assert Text(stores, c.blocks) == View(stores, k) + Text(stores, c.blocks[1..]);
    var c' := Trimmed(c, n);
    var k' := c'.blocks[0];
    assert View(stores, k') == View(stores, k)[n..];
    assert c'.blocks[1..] == c.blocks[1..];
    assert Text(stores, c'.blocks) == View(stores, k)[n..] + Text(stores, c.blocks[1..]);
    CountsAfterTrim(stores, chains, b, 0, k', c');
    forall j | 0 <= j < |c'.cursors| ensures CursorOk(c'.blocks, c'.cursors[j]) {
      assert CursorOk(c.blocks, c.cursors[j]);
    }
    Replace(stores, chains, stores, b, c', blockSize);
  }
}
