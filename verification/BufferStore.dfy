/**
 Zero-copy storage as values: byte arrays with a high-water mark and a reference count, blocks that view
 them, chains of blocks. The frame lemma here is why buffers that share arrays do not disturb each other.
 */
module BufferStore {

  /** `Block::Bytes` followed by the bytes: `end` is the high-water mark. */
  datatype Store = Store(data: seq<char>, end: nat, referenceCount: nat)

  /** A view of data[start..end] of one array. */
  datatype Block = Block(store: nat, start: nat, end: nat) {
    function Size(): int { end - start }
  }

  /** A registered iterator: the place of its block in the chain, and a position in that block's array. */
  datatype Cursor = Nowhere | At(block: nat, position: nat)

  datatype Chain = Chain(blocks: seq<Block>, size: nat, cursors: seq<Cursor>)

  /** The first byte can be read from the first block. */
  predicate Peekable(blocks: seq<Block>) {
    blocks == [] || 0 < blocks[0].Size()
  }

  /** There is a first byte, and it can. */
  predicate Filled(blocks: seq<Block>) {
    blocks != [] && 0 < blocks[0].Size()
  }

  /** The first block is still there, and shows no less. */
  predicate Grown(before: seq<Block>, after: seq<Block>) {
    before != [] ==> after != [] && before[0].Size() <= after[0].Size()
  }

  /** After sharing i blocks from place `at` on, the first block is the old one, or the first of those. */
  predicate FrontShared(before: seq<Block>, after: seq<Block>, at: nat, blocks: seq<Block>, i: nat) {
    && (if 0 < at || i == 0 then Grown(before, after) else Grown(blocks, after))
    && (after == [] <==> before == [] && i == 0)
  }

  predicate StoresOk(stores: seq<Store>, blockSize: nat) {
    forall s :: 0 <= s < |stores| ==> |stores[s].data| == blockSize && stores[s].end <= blockSize
  }

  /** Every view ends at or below the mark of its array. */
  predicate BlockOk(stores: seq<Store>, k: Block) {
    k.store < |stores| && k.start <= k.end <= stores[k.store].end <= |stores[k.store].data|
  }

  predicate BlocksOk(stores: seq<Store>, blocks: seq<Block>) {
    forall i :: 0 <= i < |blocks| ==> BlockOk(stores, blocks[i])
  }

  function View(stores: seq<Store>, k: Block): (v: seq<char>)
    requires BlockOk(stores, k)
    ensures |v| == k.Size()
  {
    stores[k.store].data[k.start..k.end]
  }

  /** The byte sequence a chain stands for. */
  function Text(stores: seq<Store>, blocks: seq<Block>): seq<char>
    requires BlocksOk(stores, blocks)
  {
    if blocks == [] then [] else View(stores, blocks[0]) + Text(stores, blocks[1..])
  }

  function Room(stores: seq<Store>, k: Block): (r: nat)
    requires BlockOk(stores, k)
    ensures r <= |stores[k.store].data|
  {
    // The source subtracts from the name of a member function; the block size is meant.
    if k.end == stores[k.store].end then |stores[k.store].data| - k.end else 0
  }

  // ---------- concatenation of views ----------

  lemma {:induction false} TextAppend(stores: seq<Store>, a: seq<Block>, b: seq<Block>)
    requires BlocksOk(stores, a) && BlocksOk(stores, b)
    ensures BlocksOk(stores, a + b) && Text(stores, a + b) == Text(stores, a) + Text(stores, b)
    decreases |a|
  {
    if a == [] {
      assert a + b == b;
    } else {
      assert (a + b)[1..] == a[1..] + b;
      TextAppend(stores, a[1..], b);
    }
  }

  lemma TextOne(stores: seq<Store>, k: Block)
    requires BlockOk(stores, k)
    ensures Text(stores, [k]) == View(stores, k)
  {
    assert Text(stores, [k]) == View(stores, k) + Text(stores, []);
  }

  lemma TextSplit(stores: seq<Store>, blocks: seq<Block>, i: nat)
    requires BlocksOk(stores, blocks) && i <= |blocks|
    ensures Text(stores, blocks) == Text(stores, blocks[..i]) + Text(stores, blocks[i..])
  {
    assert blocks[..i] + blocks[i..] == blocks;
    TextAppend(stores, blocks[..i], blocks[i..]);
  }

  /** The chain around block i. */
  lemma TextAt(stores: seq<Store>, blocks: seq<Block>, i: nat)
    requires BlocksOk(stores, blocks) && i < |blocks|
    ensures Text(stores, blocks[..i + 1]) == Text(stores, blocks[..i]) + View(stores, blocks[i])
    ensures Text(stores, blocks[i..]) == View(stores, blocks[i]) + Text(stores, blocks[i + 1..])
  {
    assert blocks[..i + 1] == blocks[..i] + [blocks[i]];
    TextAppend(stores, blocks[..i], [blocks[i]]);
    TextOne(stores, blocks[i]);
    assert blocks[i..][1..] == blocks[i + 1..];
  }

  lemma TextInsert(stores: seq<Store>, blocks: seq<Block>, i: nat, more: seq<Block>)
    requires BlocksOk(stores, blocks) && BlocksOk(stores, more) && i <= |blocks|
    ensures BlocksOk(stores, blocks[..i] + more + blocks[i..])
    ensures Text(stores, blocks[..i] + more + blocks[i..]) ==
            Text(stores, blocks[..i]) + Text(stores, more) + Text(stores, blocks[i..])
  {
    TextAppend(stores, blocks[..i], more);
    TextAppend(stores, blocks[..i] + more, blocks[i..]);
  }

  function SumSizes(blocks: seq<Block>): int {
    if blocks == [] then 0 else blocks[0].Size() + SumSizes(blocks[1..])
  }

  lemma {:induction false} TextLength(stores: seq<Store>, blocks: seq<Block>)
    requires BlocksOk(stores, blocks)
    ensures |Text(stores, blocks)| == SumSizes(blocks)
    decreases |blocks|
  {
    if blocks != [] {
      TextLength(stores, blocks[1..]);
    }
  }

  lemma {:induction false} SumAppend(a: seq<Block>, b: seq<Block>)
    ensures SumSizes(a + b) == SumSizes(a) + SumSizes(b)
    decreases |a|
  {
    if a == [] {
      assert a + b == b;
    } else {
      assert (a + b)[1..] == a[1..] + b;
      SumAppend(a[1..], b);
    }
  }

  // ---------- isolation ----------

  /** Nothing below a mark is rewritten, no mark sinks, no array disappears. */
  predicate Extends(stores: seq<Store>, stores': seq<Store>) {
    && |stores| <= |stores'|
    && forall s :: 0 <= s < |stores| ==>
         && stores[s].end <= |stores[s].data| == |stores'[s].data|
         && stores[s].end <= stores'[s].end <= |stores'[s].data|
         && stores'[s].data[..stores[s].end] == stores[s].data[..stores[s].end]
  }

  lemma ExtendsTrans(a: seq<Store>, b: seq<Store>, c: seq<Store>)
    requires Extends(a, b) && Extends(b, c)
    ensures Extends(a, c)
  {
    forall s | 0 <= s < |a|
      ensures c[s].data[..a[s].end] == a[s].data[..a[s].end]
    {
      assert c[s].data[..b[s].end][..a[s].end] == c[s].data[..a[s].end];
      assert b[s].data[..b[s].end][..a[s].end] == b[s].data[..a[s].end];
    }
  }

  /** Whoever views the old arrays sees the same bytes in the new ones. */
  lemma {:induction false} Isolation(stores: seq<Store>, stores': seq<Store>, blocks: seq<Block>)
    requires BlocksOk(stores, blocks) && Extends(stores, stores')
    ensures BlocksOk(stores', blocks) && Text(stores', blocks) == Text(stores, blocks)
    decreases |blocks|
  {
    if blocks != [] {
      Isolation(stores, stores', blocks[1..]);
      var k := blocks[0];
      ViewFrame(stores, stores', k);
    }
  }

  lemma ViewFrame(stores: seq<Store>, stores': seq<Store>, k: Block)
    requires BlockOk(stores, k) && Extends(stores, stores')
    ensures BlockOk(stores', k) && View(stores', k) == View(stores, k)
  {
    var m := stores[k.store].end;
    assert stores[k.store].data[..m][k.start..k.end] == stores[k.store].data[k.start..k.end];
    assert stores'[k.store].data[..m][k.start..k.end] == stores'[k.store].data[k.start..k.end];
  }

  /** `memcpy` behind the mark of one array, raising the mark. */
  function Write(stores: seq<Store>, s: nat, text: seq<char>): (stores': seq<Store>)
    requires s < |stores| && stores[s].end + |text| <= |stores[s].data|
    requires forall t :: 0 <= t < |stores| ==> stores[t].end <= |stores[t].data|
    ensures Extends(stores, stores')
  {
    var st := stores[s];
    var data := st.data[..st.end] + text + st.data[st.end + |text|..];
    assert data[..st.end] == st.data[..st.end];
    stores[s := st.(data := data, end := st.end + |text|)]
  }

  /** Pushing behind block i, which ends at the mark, inserts the text behind it and nothing else. */
  lemma TextExtend(stores: seq<Store>, blocks: seq<Block>, i: nat, text: seq<char>)
    requires BlocksOk(stores, blocks) && i < |blocks|
    requires forall t :: 0 <= t < |stores| ==> stores[t].end <= |stores[t].data|
    requires blocks[i].end == stores[blocks[i].store].end && blocks[i].end + |text| <= |stores[blocks[i].store].data|
    ensures var k, stores' := blocks[i], Write(stores, blocks[i].store, text);
            var blocks' := blocks[i := k.(end := k.end + |text|)];
            && BlocksOk(stores', blocks')
            && Text(stores', blocks'[..i + 1]) == Text(stores, blocks[..i + 1]) + text
            && Text(stores', blocks'[i + 1..]) == Text(stores, blocks[i + 1..])
  {
    var k, stores' := blocks[i], Write(stores, blocks[i].store, text);
    var blocks' := blocks[i := k.(end := k.end + |text|)];
    assert blocks'[..i] == blocks[..i] && blocks'[i + 1..] == blocks[i + 1..];
    Isolation(stores, stores', blocks);
    Isolation(stores, stores', blocks[..i]);
    Isolation(stores, stores', blocks[i + 1..]);
    WrittenView(stores, k, text);
    TextAt(stores, blocks, i);
    TextAt(stores', blocks', i);
    Joined(Text(stores, blocks[..i]), View(stores, k), text);
    assert Text(stores', blocks'[..i]) == Text(stores, blocks[..i]);
    assert Text(stores', blocks'[..i + 1]) == Text(stores, blocks[..i]) + (View(stores, k) + text);
  }

  lemma Joined(a: seq<char>, b: seq<char>, c: seq<char>)
    ensures a + (b + c) == a + b + c
  {
  }

  lemma WrittenView(stores: seq<Store>, k: Block, text: seq<char>)
    requires BlockOk(stores, k) && forall t :: 0 <= t < |stores| ==> stores[t].end <= |stores[t].data|
    requires k.end == stores[k.store].end && k.end + |text| <= |stores[k.store].data|
    ensures var stores' := Write(stores, k.store, text);
            var k' := k.(end := k.end + |text|);
            BlockOk(stores', k') && View(stores', k') == View(stores, k) + text
  {
  }

  // ---------- reference counts ----------

  function Count(blocks: seq<Block>, s: nat): nat {
    if blocks == [] then 0 else (if blocks[0].store == s then 1 else 0) + Count(blocks[1..], s)
  }

  /** The number of live views of array s. */
  function Views(chains: seq<Chain>, s: nat): nat {
    if chains == [] then 0 else Count(chains[0].blocks, s) + Views(chains[1..], s)
  }

  predicate CountsOk(stores: seq<Store>, chains: seq<Chain>) {
    forall s :: 0 <= s < |stores| ==> stores[s].referenceCount == Views(chains, s)
  }

  lemma {:induction false} CountAppend(a: seq<Block>, b: seq<Block>, s: nat)
    ensures Count(a + b, s) == Count(a, s) + Count(b, s)
    decreases |a|
  {
    if a == [] {
      assert a + b == b;
    } else {
      assert (a + b)[1..] == a[1..] + b;
      CountAppend(a[1..], b, s);
    }
  }

  lemma CountInsert(blocks: seq<Block>, i: nat, k: Block, s: nat)
    requires i <= |blocks|
    ensures Count(blocks[..i] + [k] + blocks[i..], s) == Count(blocks, s) + if k.store == s then 1 else 0
  {
    assert blocks[..i] + blocks[i..] == blocks;
    CountAppend(blocks[..i], blocks[i..], s);
    CountAppend(blocks[..i] + [k], blocks[i..], s);
    CountAppend(blocks[..i], [k], s);
  }

  lemma {:induction false} CountUpdate(blocks: seq<Block>, i: nat, k: Block, s: nat)
    requires i < |blocks| && k.store == blocks[i].store
    ensures Count(blocks[i := k], s) == Count(blocks, s)
    decreases |blocks|
  {
    if i != 0 {
      assert blocks[i := k][1..] == blocks[1..][i - 1 := k];
      CountUpdate(blocks[1..], i - 1, k, s);
    } else {
      assert blocks[i := k][1..] == blocks[1..];
    }
  }

  lemma {:induction false} CountBeyond(stores: seq<Store>, blocks: seq<Block>, s: nat)
    requires BlocksOk(stores, blocks) && |stores| <= s
    ensures Count(blocks, s) == 0
    decreases |blocks|
  {
    if blocks != [] {
      CountBeyond(stores, blocks[1..], s);
    }
  }

  lemma {:induction false} ViewsUpdate(chains: seq<Chain>, b: nat, c: Chain, s: nat)
    requires b < |chains|
    ensures Views(chains[b := c], s) == Views(chains, s) - Count(chains[b].blocks, s) + Count(c.blocks, s)
    decreases |chains|
  {
    if b != 0 {
      assert chains[b := c][1..] == chains[1..][b - 1 := c];
      ViewsUpdate(chains[1..], b - 1, c, s);
    } else {
      assert chains[b := c][1..] == chains[1..];
    }
  }

  lemma {:induction false} ViewsBeyond(stores: seq<Store>, chains: seq<Chain>, s: nat)
    requires |stores| <= s && forall b :: 0 <= b < |chains| ==> BlocksOk(stores, chains[b].blocks)
    ensures Views(chains, s) == 0
    decreases |chains|
  {
    if chains != [] {
      CountBeyond(stores, chains[0].blocks, s);
      ViewsBeyond(stores, chains[1..], s);
    }
  }

  // ---------- the state of all buffers that may share storage ----------

  predicate ChainOk(stores: seq<Store>, c: Chain) {
    && BlocksOk(stores, c.blocks) && c.size == |Text(stores, c.blocks)|
    && forall i :: 0 <= i < |c.cursors| ==> CursorOk(c.blocks, c.cursors[i])
  }

  predicate CursorOk(blocks: seq<Block>, cursor: Cursor) {
    cursor.At? ==> cursor.block < |blocks| && cursor.position <= blocks[cursor.block].end
  }

  predicate Ok(stores: seq<Store>, chains: seq<Chain>, blockSize: nat) {
    && 0 < blockSize < 0x10000 && StoresOk(stores, blockSize) && CountsOk(stores, chains)
    && forall b :: 0 <= b < |chains| ==> ChainOk(stores, chains[b])
  }
}
