/**
 GenericBuffer, GenericReadBuffer and GenericWriteBuffer of all actors that may share byte arrays. A buffer
 is an entry of `chains`, an array an entry of `stores`; methods update them as the source updates its
 blocks. Each method is proved to do to the receiving buffer's bytes what its name says, to leave every
 other buffer alone, and to move the registered iterators as promised.
 */
module BufferStorage {
  import opened BufferStore
  import opened BufferKernel
  import opened BufferCursors

  class Storage {
    const blockSize: nat
    var stores: seq<Store>
    var chains: seq<Chain>

    constructor (blockSize: nat)
      requires 0 < blockSize < 0x10000
      ensures Valid() && chains == [] && this.blockSize == blockSize
    {
      this.blockSize, stores, chains := blockSize, [], [];
    }

    ghost predicate Valid()
      reads this
    {
      Ok(stores, chains, blockSize)
    }

    ghost predicate Has(b: nat)
      reads this
    {
      Valid() && b < |chains|
    }

    ghost function Contents(b: nat): seq<char>
      requires Has(b)
      reads this
    {
      Text(stores, chains[b].blocks)
    }

    /** A new, empty buffer. */
    method NewBuffer() returns (b: nat)
      requires Valid()
      modifies this`chains
      ensures Has(b) && b == |old(chains)| && chains == old(chains) + [Chain([], 0, [])] && Contents(b) == []
    {
      b := |chains|;
      forall s | 0 <= s < |stores| ensures Views(chains + [Chain([], 0, [])], s) == Views(chains, s) {
        ViewsSnoc(chains, s);
      }
      chains := chains + [Chain([], 0, [])];
    }

    // ---------- writing ----------

    /** A new block with an array of its own at place `at` of the chain. */
    method AllocateBlock(b: nat, at: nat)
      requires Has(b) && MayInsert(chains[b], at)
      modifies this`stores, this`chains
      ensures Has(b) && Appends(old(stores), old(chains), stores, chains, b) && MayInsert(chains[b], at + 1)
      ensures Around(stores, chains[b].blocks, at + 1, old(Text(stores, chains[b].blocks[..at])), old(Text(stores, chains[b].blocks[at..])))
      ensures Room(stores, chains[b].blocks[at]) == blockSize && |chains[b].blocks| == |old(chains[b].blocks)| + 1
      ensures chains[b].blocks[at].Size() == 0 && (0 < at ==> Grown(old(chains[b].blocks), chains[b].blocks))
    {
      var data := seq(blockSize, _ => '\0');
      var c, k := chains[b], Block(|stores|, 0, 0);
      Allocate(stores, chains, blockSize, b, at, data);
      if at == |c.blocks| {
        AppendKeepsOffsets(stores, c, k);
      }
      stores := stores + [Store(data, 0, 1)];
      chains := chains[b := Inserted(c, at, k)];
    }

    /** Room behind the block before place `at`, in a new block if need be. The source tests
        `length < room()` where `room() < length` is meant. */
    method EnsurePush(b: nat, at: nat, length: nat) returns (at': nat)
      requires Has(b) && MayInsert(chains[b], at) && length <= blockSize
      modifies this`stores, this`chains
      ensures Has(b) && Appends(old(stores), old(chains), stores, chains, b) && MayInsert(chains[b], at')
      ensures Around(stores, chains[b].blocks, at', old(Text(stores, chains[b].blocks[..at])), old(Text(stores, chains[b].blocks[at..])))
      ensures 0 < at' && length <= Room(stores, chains[b].blocks[at' - 1])
      ensures at' == at || (at' == at + 1 && (at == 0 || old(Room(stores, chains[b].blocks[at - 1])) < length))
      ensures |chains[b].blocks| == |old(chains[b].blocks)| + at' - at && (0 < at ==> Grown(old(chains[b].blocks), chains[b].blocks))
    {
      if at == 0 || Room(stores, chains[b].blocks[at - 1]) < length {
        AllocateBlock(b, at);
        at' := at + 1;
      } else {
        at' := at;
      }
    }

    /** Copy bytes behind the block before place `at`: into it while there is room, then into new blocks. */
    method PushToBlock(b: nat, text: seq<char>, at: nat) returns (at': nat)
      requires Has(b) && MayInsert(chains[b], at)
      modifies this`stores, this`chains
      ensures Has(b) && Appends(old(stores), old(chains), stores, chains, b)
      ensures Around(stores, chains[b].blocks, at', old(Text(stores, chains[b].blocks[..at])) + text, old(Text(stores, chains[b].blocks[at..])))
      ensures 0 < at ==> Grown(old(chains[b].blocks), chains[b].blocks)
      ensures text != [] && (at == 0 || (at == 1 && old(1 <= Room(stores, chains[b].blocks[0])))) ==> Filled(chains[b].blocks)
      decreases |text|, 1
    {
      at' := EnsurePush(b, at, 1);
      ghost var s, c := stores, chains;
      at' := PushInto(b, text, at');
      AppendsTrans(old(stores), old(chains), s, c, stores, chains, b);
    }

    /** Once there is room for a byte before place `at`. */
    method PushInto(b: nat, text: seq<char>, at: nat) returns (at': nat)
      requires Has(b) && MayInsert(chains[b], at) && 0 < at && 1 <= Room(stores, chains[b].blocks[at - 1])
      modifies this`stores, this`chains
      ensures Has(b) && Appends(old(stores), old(chains), stores, chains, b)
      ensures Around(stores, chains[b].blocks, at', old(Text(stores, chains[b].blocks[..at])) + text, old(Text(stores, chains[b].blocks[at..])))
      ensures Grown(old(chains[b].blocks), chains[b].blocks)
      ensures at == 1 && text != [] ==> Filled(chains[b].blocks)
      decreases |text|, 0
    {
      ghost var before, after := Text(stores, chains[b].blocks[..at]), Text(stores, chains[b].blocks[at..]);
      var room := Room(stores, chains[b].blocks[at - 1]);
      if |text| < room {
        CopyBehind(b, at - 1, text);
        at' := at;
        assert Around(stores, chains[b].blocks, at', before + text, after);
      } else {
        var part, rest := text[..room], text[room..];
        InTwo(before, text, part, rest);
        at' := PushMore(b, part, rest, at, before, after);
        assert Around(stores, chains[b].blocks, at', before + part + rest, after);
      }
    }

    /** The part that fills the room of a block, and the rest behind it. */
    method PushMore(b: nat, part: seq<char>, rest: seq<char>, at: nat, ghost before: seq<char>, ghost after: seq<char>) returns (at': nat)
      requires Has(b) && MayInsert(chains[b], at) && 0 < at && part != [] && |part| <= Room(stores, chains[b].blocks[at - 1])
      requires Around(stores, chains[b].blocks, at, before, after)
      modifies this`stores, this`chains
      ensures Has(b) && Appends(old(stores), old(chains), stores, chains, b)
      ensures Around(stores, chains[b].blocks, at', before + part + rest, after)
      ensures Grown(old(chains[b].blocks), chains[b].blocks) && (at == 1 ==> Filled(chains[b].blocks))
      decreases |rest|, 2
    {
      CopyBehind(b, at - 1, part);
      ghost var s, c := stores, chains;
      at' := PushToBlock(b, rest, at);
      PushedTrans(old(stores), old(chains), s, c, stores, chains, b);
    }

    /** `copyFrom` on a block with room, and the bump of the buffer's size. */
    method CopyBehind(b: nat, i: nat, text: seq<char>)
      requires Has(b) && i < |chains[b].blocks| && MayInsert(chains[b], i + 1)
      requires Writable(stores, chains[b].blocks[i], |text|)
      modifies this`stores, this`chains
      ensures Has(b) && Appends(old(stores), old(chains), stores, chains, b) && MayInsert(chains[b], i + 1)
      ensures Around(stores, chains[b].blocks, i + 1, old(Text(stores, chains[b].blocks[..i + 1])) + text, old(Text(stores, chains[b].blocks[i + 1..])))
      ensures |chains[b].blocks| == |old(chains[b].blocks)| && Grown(old(chains[b].blocks), chains[b].blocks)
      ensures i == 0 && text != [] ==> Filled(chains[b].blocks)
    {
      var c := chains[b];
      CopyFrom(stores, chains, blockSize, b, i, text);
      if i + 1 == |c.blocks| {
        ExtendKeepsOffsets(stores, c, |text|);
      }
      stores := Write(stores, c.blocks[i].store, text);
      chains := chains[b := Extended(c, i, |text|)];
    }

    /** `append(const char *, Size)` and `append(const String *)`. */
    method AppendText(b: nat, text: seq<char>)
      requires Has(b)
      modifies this`stores, this`chains
      ensures Has(b) && Contents(b) == old(Contents(b)) + text
      ensures Appends(old(stores), old(chains), stores, chains, b)
      ensures old(Peekable(chains[b].blocks)) && (old(chains[b].blocks) != [] || text != []) ==> Peekable(chains[b].blocks)
      ensures text != [] && |old(chains[b].blocks)| == 1 && old(1 <= Room(stores, chains[b].blocks[0])) ==> Filled(chains[b].blocks)
    {
      ghost var c := chains[b];
      assert c.blocks[..|c.blocks|] == c.blocks;
      var at := PushToBlock(b, text, |chains[b].blocks|);
      AroundWhole(stores, chains[b].blocks, at, Text(old(stores), c.blocks) + text, []);
    }

    /** A block at place `at` that views what another block views. */
    method ShareAt(b: nat, at: nat, k: Block)
      requires Has(b) && MayInsert(chains[b], at) && BlockOk(stores, k)
      modifies this`stores, this`chains
      ensures Has(b) && Appends(old(stores), old(chains), stores, chains, b) && MayInsert(chains[b], at + 1)
      ensures Around(stores, chains[b].blocks, at + 1,
                     old(Text(stores, chains[b].blocks[..at])) + old(View(stores, k)), old(Text(stores, chains[b].blocks[at..])))
      ensures |chains[b].blocks| == |old(chains[b].blocks)| + 1 && chains[b].blocks[0] == if at == 0 then k else old(chains[b].blocks[0])
    {
      var c := chains[b];
      Share(stores, chains, blockSize, b, at, k);
      if at == |c.blocks| {
        AppendKeepsOffsets(stores, c, k);
      }
      stores := Referenced(stores, k.store);
      chains := chains[b := Inserted(c, at, k)];
    }

    method ShareNext(b: nat, at: nat, blocks: seq<Block>, i: nat, ghost s0: seq<Store>, ghost c0: seq<Chain>)
      requires i < |blocks| && Shareable(s0, c0, b, at, blocks) && Sharing(s0, c0, stores, chains, blockSize, b, at, blocks, i)
      modifies this`stores, this`chains
      ensures Sharing(s0, c0, stores, chains, blockSize, b, at, blocks, i + 1)
    {
      ghost var s, c := stores, chains;
      ViewFrame(s0, s, blocks[i]);
      ShareAt(b, at + i, blocks[i]);
      SharingNext(s0, c0, s, c, stores, chains, blockSize, b, at, blocks, i);
    }

    method ShareAll(b: nat, at: nat, blocks: seq<Block>, ghost s0: seq<Store>, ghost c0: seq<Chain>)
      requires Shareable(s0, c0, b, at, blocks) && Sharing(s0, c0, stores, chains, blockSize, b, at, blocks, 0)
      modifies this`stores, this`chains
      ensures Sharing(s0, c0, stores, chains, blockSize, b, at, blocks, |blocks|)
    {
      for i := 0 to |blocks|
        invariant Sharing(s0, c0, stores, chains, blockSize, b, at, blocks, i)
      {
        ShareNext(b, at, blocks, i, s0, c0);
      }
    }

    /** Share a run of blocks, one after another, from place `at` on. */
    method ShareBlocks(b: nat, at: nat, blocks: seq<Block>)
      requires Has(b) && MayInsert(chains[b], at) && BlocksOk(stores, blocks)
      modifies this`stores, this`chains
      ensures Has(b) && Appends(old(stores), old(chains), stores, chains, b)
      ensures Around(stores, chains[b].blocks, at + |blocks|,
                     old(Text(stores, chains[b].blocks[..at])) + old(Text(stores, blocks)), old(Text(stores, chains[b].blocks[at..])))
      ensures FrontShared(old(chains[b].blocks), chains[b].blocks, at, blocks, |blocks|)
    {
      ghost var s0, c0 := stores, chains;
      SharingStarts(s0, c0, blockSize, b, at, blocks);
      ShareAll(b, at, blocks, s0, c0);
      SharingEnds(s0, c0, stores, chains, blockSize, b, at, blocks);
    }

    /** `append(GenericBuffer *)`: no byte is copied, every block is shared. A buffer is not appended to itself. */
    method AppendBuffer(b: nat, other: nat)
      requires Has(b) && other < |chains| && other != b
      modifies this`stores, this`chains
      ensures Has(b) && Contents(b) == old(Contents(b)) + old(Contents(other))
      ensures Appends(old(stores), old(chains), stores, chains, b)
      ensures old(Peekable(chains[b].blocks) && Peekable(chains[other].blocks)) ==> Peekable(chains[b].blocks)
    {
      var n := |chains[b].blocks|;
      var blocks := chains[other].blocks;
      assert chains[b].blocks[..n] == chains[b].blocks;
      ShareBlocks(b, n, blocks);
      AroundWhole(stores, chains[b].blocks, n + |blocks|, old(Contents(b)) + old(Contents(other)), []);
    }

    /** `Block::split`. */
    method CutBlock(b: nat, i: nat, offset: nat)
      requires Has(b) && chains[b].cursors == [] && i < |chains[b].blocks| && offset <= chains[b].blocks[i].Size()
      modifies this`stores, this`chains
      ensures Has(b) && chains[b].cursors == [] && Appends(old(stores), old(chains), stores, chains, b)
      ensures var whole, n := old(Contents(b)), old(|Text(stores, chains[b].blocks[..i])|) + offset;
              n <= |whole| && Around(stores, chains[b].blocks, i + 1, whole[..n], whole[n..])
    {
      Split(stores, chains, blockSize, b, i, offset);
      stores := Referenced(stores, chains[b].blocks[i].store);
      chains := chains[b := SplitAt(chains[b], i, offset)];
    }

    /** Cut the chain at a byte offset. Past the end, and at 0, the place is the head of the chain. */
    method SplitBlock(b: nat, offset: nat) returns (at: nat)
      requires Has(b) && chains[b].cursors == []
      modifies this`stores, this`chains
      ensures Has(b) && chains[b].cursors == [] && Appends(old(stores), old(chains), stores, chains, b)
      ensures var whole := old(Contents(b));
              var p := if offset <= |whole| then offset else 0;
              Around(stores, chains[b].blocks, at, whole[..p], whole[p..])
    {
      AppendsNothing(stores, chains, blockSize, b);
      AtHead(stores, chains[b].blocks);
      if offset == 0 { return 0; }
      var i, o := BlockEndingBehind(b, offset);
      if i == |chains[b].blocks| { return 0; }
      SplitAtBlock(b, i, o, offset);
      return i + 1;
    }

    method SplitAtBlock(b: nat, i: nat, o: nat, ghost offset: nat)
      requires Has(b) && chains[b].cursors == [] && i < |chains[b].blocks| && o <= chains[b].blocks[i].Size()
      requires o + |Text(stores, chains[b].blocks[..i])| == offset
      modifies this`stores, this`chains
      ensures Has(b) && chains[b].cursors == [] && Appends(old(stores), old(chains), stores, chains, b)
      ensures var whole := old(Contents(b)); offset <= |whole| && Around(stores, chains[b].blocks, i + 1, whole[..offset], whole[offset..])
    {
      AppendsNothing(stores, chains, blockSize, b);
      EndOfBlock(stores, chains[b].blocks, i, o, offset);
      if o < chains[b].blocks[i].Size() {
        CutBlock(b, i, o);
      }
    }

    /** The loop of `splitBlock`: the block that an offset is in, or at the end of, and how far into it. */
    method BlockEndingBehind(b: nat, offset: nat) returns (i: nat, o: nat)
      requires Has(b) && 0 < offset
      ensures i <= |chains[b].blocks| && o + |Text(stores, chains[b].blocks[..i])| == offset && 0 < o
      ensures if i < |chains[b].blocks| then o <= chains[b].blocks[i].Size() else |Contents(b)| < offset
    {
      var blocks := chains[b].blocks;
      i, o := 0, offset;
      while i < |blocks| && blocks[i].Size() < o
        invariant i <= |blocks| && 0 < o && o + |Text(stores, blocks[..i])| == offset
        decreases |blocks| - i
      {
        LengthAt(stores, blocks, i);
        o := o - blocks[i].Size();
        i := i + 1;
      }
      assert blocks[..|blocks|] == blocks;
    }

    /** `insert(Size, GenericBuffer *)`. No iterator may be registered on the buffer that is cut. */
    method InsertBuffer(b: nat, offset: nat, other: nat)
      requires Has(b) && other < |chains| && other != b && chains[b].cursors == []
      modifies this`stores, this`chains
      ensures Has(b) && chains[b].cursors == [] && Isolated(old(stores), old(chains), stores, chains, b)
      ensures var whole := old(Contents(b));
              var p := if offset <= |whole| then offset else 0;
              Contents(b) == whole[..p] + old(Contents(other)) + whole[p..]
    {
      ghost var whole := Contents(b);
      ghost var p := if offset <= |whole| then offset else 0;
      var at := SplitBlock(b, offset);
      ghost var s, c := stores, chains;
      ghost var middle := Contents(other);
      InsertBlocks(b, at, other, whole[..p], whole[p..]);
      AppendsTrans(old(stores), old(chains), s, c, stores, chains, b);
      assert Contents(b) == whole[..p] + middle + whole[p..];
    }

    /** The blocks of a buffer come between the bytes before place `at` and those behind it. */
    method InsertBlocks(b: nat, at: nat, other: nat, ghost before: seq<char>, ghost after: seq<char>)
      requires Has(b) && other < |chains| && other != b && chains[b].cursors == [] && Around(stores, chains[b].blocks, at, before, after)
      modifies this`stores, this`chains
      ensures Has(b) && chains[b].cursors == [] && Appends(old(stores), old(chains), stores, chains, b)
      ensures Contents(b) == before + old(Contents(other)) + after
    {
      ghost var middle := Contents(other);
      var blocks := chains[other].blocks;
      ShareBlocks(b, at, blocks);
      AroundWhole(stores, chains[b].blocks, at + |blocks|, before + middle, after);
    }

    /** `insert(Size, const char *, Size)`, pushing the given length. */
    method InsertText(b: nat, offset: nat, text: seq<char>)
      requires Has(b) && chains[b].cursors == []
      modifies this`stores, this`chains
      ensures Has(b) && chains[b].cursors == [] && Isolated(old(stores), old(chains), stores, chains, b)
      ensures var whole := old(Contents(b));
              var p := if offset <= |whole| then offset else 0;
              Contents(b) == whole[..p] + text + whole[p..]
    {
      ghost var whole := Contents(b);
      ghost var p := if offset <= |whole| then offset else 0;
      var at := SplitBlock(b, offset);
      ghost var s, c := stores, chains;
      var end := PushToBlock(b, text, at);
      AppendsTrans(old(stores), old(chains), s, c, stores, chains, b);
      AroundWhole(stores, chains[b].blocks, end, whole[..p] + text, whole[p..]);
    }

    /** `ensurePushLength`: room for so many bytes at `pushPointer()`, in a new last block if need be. */
    method EnsurePushLength(b: nat, length: nat)
      requires Has(b) && length <= blockSize
      modifies this`stores, this`chains
      ensures Has(b) && Contents(b) == old(Contents(b)) && Appends(old(stores), old(chains), stores, chains, b)
      ensures chains[b].blocks != [] && length <= Room(stores, chains[b].blocks[|chains[b].blocks| - 1])
      ensures if old(chains[b].blocks) == [] then |chains[b].blocks| == 1 else Grown(old(chains[b].blocks), chains[b].blocks)
    {
      var n := |chains[b].blocks|;
      assert chains[b].blocks[..n] == chains[b].blocks;
      var at := EnsurePush(b, n, length);
      AroundWhole(stores, chains[b].blocks, at, old(Contents(b)), []);
      assert old(Contents(b)) + [] == old(Contents(b));
    }

    /** What was read straight into `pushPointer()` becomes part of the buffer. The source forgets to raise
        the mark of the array here; `copyFrom` does raise it. */
    method Pushed(b: nat, bytes: seq<char>)
      requires Has(b) && chains[b].blocks != []
      requires |bytes| <= Room(stores, chains[b].blocks[|chains[b].blocks| - 1])
      modifies this`stores, this`chains
      ensures Has(b) && Contents(b) == old(Contents(b)) + bytes
      ensures Appends(old(stores), old(chains), stores, chains, b)
      ensures old(Peekable(chains[b].blocks)) || (|old(chains[b].blocks)| == 1 && bytes != []) ==> Peekable(chains[b].blocks)
    {
      var n := |chains[b].blocks|;
      assert chains[b].blocks[..n] == chains[b].blocks;
      if bytes == [] {
        AppendsNothing(stores, chains, blockSize, b);
        assert Contents(b) + bytes == Contents(b);
        return;
      }
      CopyBehind(b, n - 1, bytes);
      AroundWhole(stores, chains[b].blocks, n, old(Contents(b)) + bytes, []);
    }

    // ---------- reading ----------

    /** `deleteBlock` of the first block: every iterator is told, the reference is dropped. */
    method DeleteFirstBlock(b: nat)
      requires Has(b) && chains[b].blocks != []
      modifies this`stores, this`chains
      ensures Has(b) && Isolated(old(stores), old(chains), stores, chains, b)
      ensures var size := old(chains[b].blocks[0].Size());
              && 0 <= size <= |old(Contents(b))| && Contents(b) == old(Contents(b))[size..]
              && ShiftsOffsets(old(chains[b]), chains[b], size)
      ensures chains[b].blocks == old(chains[b].blocks[1..])
    {
      var c := chains[b];
      DeleteFirst(stores, chains, blockSize, b);
      DeleteShiftsOffsets(stores, c);
      stores := Released(stores, c.blocks[0].store);
      chains := chains[b := WithoutFirst(c)];
    }

    /** `Block::popped` on the first block. */
    method TrimFirstBlock(b: nat, n: nat)
      requires Has(b) && chains[b].blocks != [] && n <= chains[b].blocks[0].Size()
      modifies this`chains
      ensures Has(b) && Isolated(stores, old(chains), stores, chains, b)
      ensures n <= |old(Contents(b))| && Contents(b) == old(Contents(b))[n..]
      ensures ShiftsOffsets(old(chains[b]), chains[b], n)
      ensures chains[b].blocks != [] && chains[b].blocks[0].Size() == old(chains[b].blocks[0].Size()) - n
    {
      TrimFirst(stores, chains, blockSize, b, n);
      TrimShiftsOffsets(stores, chains[b], n);
      chains := chains[b := Trimmed(chains[b], n)];
    }

    /** One block: cut short, or deleted. */
    method PopBlock(b: nat, left: nat, ghost n: nat, ghost s0: seq<Store>, ghost c0: seq<Chain>) returns (left': nat, done: bool)
      requires HasPopped(s0, c0, stores, chains, blockSize, b, n, left) && chains[b].blocks != []
      modifies this`stores, this`chains
      ensures HasPopped(s0, c0, stores, chains, blockSize, b, n, left')
      ensures if done then left' == 0 && Peekable(chains[b].blocks) else |chains[b].blocks| < |old(chains[b].blocks)|
    {
      ghost var s, c := stores, chains;
      var size := chains[b].blocks[0].Size();
      FirstFits(stores, chains[b].blocks);
      if size > left {
        TrimFirstBlock(b, left);
        left', done := 0, true;
      } else {
        DeleteFirstBlock(b);
        left', done := left - size, false;
      }
      PoppedMore(s0, c0, s, c, stores, chains, blockSize, b, n, left, left');
    }

    /** `popped`: block by block from the front. The length is a 16-bit quantity. */
    method Popped(b: nat, length: nat)
      requires Has(b) && length < 0x10000
      modifies this`stores, this`chains
      ensures Has(b) && Isolated(old(stores), old(chains), stores, chains, b)
      ensures Contents(b) == if length <= |old(Contents(b))| then old(Contents(b))[length..] else []
      ensures ShiftsOffsets(old(chains[b]), chains[b], length) && Peekable(chains[b].blocks)
    {
      var left: nat := if length > chains[b].size then chains[b].size else length;
      ghost var n := left;
      AppendsNothing(stores, chains, blockSize, b);
      ShiftsNothing(stores, chains[b]);
      var done := false;
      while !done && chains[b].blocks != []
        invariant HasPopped(old(stores), old(chains), stores, chains, blockSize, b, n, left)
        invariant done ==> left == 0 && Peekable(chains[b].blocks)
        decreases if done then 0 else 1, |chains[b].blocks|
      {
        left, done := PopBlock(b, left, n, old(stores), old(chains));
      }
      ShiftsFar(old(stores), old(chains[b]), chains[b], n, length);
    }

    /** `poppedAll`: the size is cut to 16 bits on its way into `popped`, so the buffer ends up empty
        exactly when it held fewer than 65536 bytes. */
    method PoppedAll(b: nat)
      requires Has(b)
      modifies this`stores, this`chains
      ensures Has(b) && Isolated(old(stores), old(chains), stores, chains, b)
      ensures Contents(b) == old(Contents(b))[|old(Contents(b))| % 0x10000..]
      ensures Contents(b) == [] <==> |old(Contents(b))| < 0x10000
    {
      CutLength(Contents(b));
      Popped(b, chains[b].size % 0x10000);
    }

    /** `peek`: the first byte of the first block, which must not be empty. */
    method Peek(b: nat) returns (c: char)
      requires Has(b) && chains[b].blocks != [] && 0 < chains[b].blocks[0].Size()
      ensures Contents(b) != [] && c == Contents(b)[0]
    {
      var k := chains[b].blocks[0];
      TextAt(stores, chains[b].blocks, 0);
      assert chains[b].blocks[0..] == chains[b].blocks && View(stores, k) != [];
      c := stores[k.store].data[k.start];
    }

    method Pop(b: nat) returns (c: char)
      requires Has(b) && chains[b].blocks != [] && 0 < chains[b].blocks[0].Size()
      modifies this`stores, this`chains
      ensures Has(b) && Isolated(old(stores), old(chains), stores, chains, b)
      ensures old(Contents(b)) == [c] + Contents(b) && ShiftsOffsets(old(chains[b]), chains[b], 1)
    {
      c := Peek(b);
      Popped(b, 1);
    }

    // ---------- queries ----------

    method CharAt(b: nat, offset: nat) returns (c: char)
      requires Has(b)
      ensures c == if offset < |Contents(b)| then Contents(b)[offset] else '\0'
    {
      var blocks := chains[b].blocks;
      assert blocks[0..] == blocks;
      var i: nat, o: nat := 0, offset;
      while i < |blocks|
        invariant i <= |blocks| && |Contents(b)| - offset == |Text(stores, blocks[i..])| - o
        invariant o < |Text(stores, blocks[i..])| ==> Contents(b)[offset] == Text(stores, blocks[i..])[o]
      {
        var k := blocks[i];
        TextAt(stores, blocks, i);
        if o < k.Size() {
          return stores[k.store].data[k.start + o];
        }
        o := o - k.Size();
        i := i + 1;
      }
      return '\0';
    }

    method AsString(b: nat) returns (text: seq<char>)
      requires Has(b)
      ensures text == Contents(b)
    {
      var blocks := chains[b].blocks;
      text := [];
      var i := 0;
      while i < |blocks|
        invariant i <= |blocks| && text == Text(stores, blocks[..i])
      {
        var k := blocks[i];
        TextAt(stores, blocks, i);
        text := text + stores[k.store].data[k.start..k.end];
        i := i + 1;
      }
      assert blocks[..i] == blocks;
    }

    /** `compare(const char *, Size)`: 0 means that the buffer starts with the text. */
    method Compare(b: nat, text: seq<char>) returns (result: int)
      requires Has(b)
      ensures result == if |text| > |Contents(b)| then 1 else Memcmp(text, Contents(b)[..|text|])
      ensures result == 0 <==> text <= Contents(b)
      ensures |text| <= |Contents(b)| ==> SignOfFirst(text, Contents(b)[..|text|], result)
    {
      if |text| > chains[b].size { return 1; }
      MemcmpZero(text, Contents(b)[..|text|]);
      MemcmpSign(text, Contents(b)[..|text|]);
      result := CompareBlocks(b, text);
    }

    /** The loop of `compare`. */
    method CompareBlocks(b: nat, text: seq<char>) returns (result: int)
      requires Has(b) && |text| <= |Contents(b)|
      ensures result == Memcmp(text, Contents(b)[..|text|])
    {
      var blocks := chains[b].blocks;
      assert blocks[0..] == blocks;
      var i, rest := 0, text;
      while |rest| > 0
        invariant i <= |blocks| && |rest| <= |Text(stores, blocks[i..])|
        invariant Memcmp(text, Contents(b)[..|text|]) == Memcmp(rest, Text(stores, blocks[i..])[..|rest|])
        decreases |blocks| - i
      {
        CompareStep(stores, blocks, i, rest);
        var k := blocks[i];
        var view := stores[k.store].data[k.start..k.end];
        var size := |view|;
        if size > |rest| {
          return Memcmp(rest, view[..|rest|]);
        }
        result := Memcmp(rest[..size], view);
        if result != 0 { return result; }
        rest := rest[size..];
        i := i + 1;
      }
      return 0;
    }

    // ---------- slices ----------

    /** The block holding the byte at `offset`, and how far into it; `|blocks|` past the end. */
    method BlockByOffset(b: nat, offset: nat) returns (i: nat, o: nat)
      requires Has(b)
      ensures i <= |chains[b].blocks| && |Text(stores, chains[b].blocks[..i])| + o == offset
      ensures if i < |chains[b].blocks| then o < chains[b].blocks[i].Size() && offset < |Contents(b)| else |Contents(b)| <= offset
    {
      var blocks := chains[b].blocks;
      i, o := 0, offset;
      assert blocks[..0] == [];
      while i < |blocks|
        invariant i <= |blocks| && |Text(stores, blocks[..i])| + o == offset
      {
        var size := blocks[i].Size();
        TextAt(stores, blocks, i);
        TextSplit(stores, blocks, i);
        if o < size { return; }
        o := o - size;
        i := i + 1;
      }
      assert blocks[..i] == blocks;
    }

    /** `region(Size, Size, GenericWriteBuffer *)`: share a slice, block by block. Where it crosses into the
        next block, the source takes `size` bytes from `offset` on; the `size - offset` that are there are meant. */
    method Region(b: nat, offset: nat, length: nat, target: nat)
      requires Has(b) && target < |chains| && target != b
      modifies this`stores, this`chains
      ensures Has(target) && Appends(old(stores), old(chains), stores, chains, target)
      ensures Contents(target) == old(Contents(target)) + Slice(old(Contents(b)), offset, length)
    {
      var blocks := chains[b].blocks;
      var ranges := RegionViews(b, offset, length);
      var n := |chains[target].blocks|;
      assert chains[target].blocks[..n] == chains[target].blocks;
      ShareBlocks(target, n, ranges);
      AroundWhole(stores, chains[target].blocks, n + |ranges|,
                  old(Contents(target)) + Slice(old(Contents(b)), offset, length), []);
    }

    /** The views that make up a slice. */
    method RegionViews(b: nat, offset: nat, length: nat) returns (ranges: seq<Block>)
      requires Has(b)
      ensures BlocksOk(stores, ranges) && Text(stores, ranges) == Slice(Contents(b), offset, length)
    {
      var i: nat, o: nat := BlockByOffset(b, offset);
      if i == |chains[b].blocks| {
        ranges := [];
      } else {
        TakeStart(stores, chains[b].blocks, offset, length, i, o);
        ranges := ViewsFrom(stores, chains[b].blocks, i, o, offset, length);
      }
    }

    static method ViewsFrom(ghost stores: seq<Store>, blocks: seq<Block>, from: nat, into: nat, ghost offset: nat, length: nat)
      returns (ranges: seq<Block>)
      requires Takeable(stores, blocks, offset) && Taking(stores, blocks, offset, length, from, into, length, [])
      ensures BlocksOk(stores, ranges) && Text(stores, ranges) == Slice(Text(stores, blocks), offset, length)
    {
      var i: nat, o: nat, left: nat := from, into, length;
      ranges := [];
      while i < |blocks| && blocks[i].Size() < o + left
        invariant Taking(stores, blocks, offset, length, i, o, left, ranges)
        decreases |blocks| - i
      {
        var part: nat := blocks[i].Size() - o;
        var more := ranges + [Part(blocks[i], o, part)];
        TakeRest(stores, blocks, offset, length, i, o, left, ranges, part, more);
        ranges, i, o, left := more, i + 1, 0, left - part;
      }
      if i < |blocks| {
        TakeLast(stores, blocks, offset, length, i, o, left, ranges);
        ranges := ranges + [Part(blocks[i], o, left)];
      } else {
        TakeEnd(stores, blocks, offset, length, i, o, left, ranges);
      }
    }

    // ---------- registered iterators ----------

    ghost function CursorOffset(b: nat, j: nat): int
      requires Has(b) && j < |chains[b].cursors|
      reads this
    {
      Offset(chains[b].blocks, chains[b].cursors[j])
    }

    /** Only iterator j of buffer b may have moved. */
    twostate predicate MovesOnly(b: nat, j: nat)
      reads this
    {
      && b < |chains| && b < |old(chains)| && j < |chains[b].cursors| && j < |old(chains[b].cursors)|
      && stores == old(stores) && chains == old(chains)[b := WithCursor(old(chains[b]), j, chains[b].cursors[j])]
    }

    method NewCursor(b: nat) returns (j: nat)
      requires Has(b)
      modifies this`chains
      ensures Has(b) && j == |old(chains[b].cursors)| && chains == old(chains)[b := old(chains[b]).(cursors := old(chains[b].cursors) + [Nowhere])]
      ensures CursorOffset(b, j) == 0 && Contents(b) == old(Contents(b))
    {
      j := |chains[b].cursors|;
      var c' := chains[b].(cursors := chains[b].cursors + [Nowhere]);
      forall s | 0 <= s < |stores| ensures Views(chains[b := c'], s) == Views(chains, s) {
        ViewsUpdate(chains, b, c', s);
      }
      chains := chains[b := c'];
    }

    method SetCursor(b: nat, j: nat, cursor: Cursor)
      requires Has(b) && j < |chains[b].cursors| && CursorOk(chains[b].blocks, cursor)
      modifies this`chains
      ensures Has(b) && MovesOnly(b, j) && chains[b].cursors[j] == cursor && Contents(b) == old(Contents(b))
    {
      WithCursorOk(stores, chains, blockSize, b, j, cursor);
      chains := chains[b := WithCursor(chains[b], j, cursor)];
    }

    /** The place of an iterator after catching up and hopping on. */
    static method Hopped(ghost stores: seq<Store>, blocks: seq<Block>, cursor: Cursor) returns (i: nat, p: nat)
      requires BlocksOk(stores, blocks) && blocks != [] && CursorOk(blocks, cursor)
      ensures Settled(blocks, At(i, p)) && CursorOk(blocks, At(i, p)) && Offset(blocks, At(i, p)) == Offset(blocks, cursor)
    {
      assert BlockOk(stores, blocks[0]);
      i, p := 0, blocks[0].start;
      if cursor.At? {
        i := cursor.block;
        p := if cursor.position < blocks[i].start then blocks[i].start else cursor.position;
      }
      assert BlockOk(stores, blocks[i]);
      while p >= blocks[i].end && i + 1 < |blocks|
        invariant i < |blocks| && blocks[i].start <= p <= blocks[i].end
        invariant Offset(blocks, At(i, p)) == Offset(blocks, cursor)
        decreases |blocks| - i
      {
        assert BlockOk(stores, blocks[i + 1]);
        SumAt(blocks, i);
        i := i + 1;
        p := blocks[i].start;
      }
    }

    /** `ensureBlock`: find a block, catch up with what was popped and, as `advance` does and as is meant
        here, hop on from the end of a block that has got a successor. The offset does not change. */
    method EnsureBlock(b: nat, j: nat) returns (ok: bool)
      requires Has(b) && j < |chains[b].cursors|
      modifies this`chains
      ensures Has(b) && MovesOnly(b, j) && Contents(b) == old(Contents(b))
      ensures CursorOffset(b, j) == old(CursorOffset(b, j))
      ensures ok <==> chains[b].blocks != []
      ensures if ok then Settled(chains[b].blocks, chains[b].cursors[j]) else Contents(b) == [] && CursorOffset(b, j) == 0
    {
      var blocks := chains[b].blocks;
      var cursor := chains[b].cursors[j];
      assert CursorOk(blocks, cursor) && BlocksOk(stores, blocks);
      if blocks == [] {
        SetCursor(b, j, cursor);
        return false;
      }
      var i, p := Hopped(stores, blocks, cursor);
      SetCursor(b, j, At(i, p));
      return true;
    }

    /** `Iterator::offset`: walk back over the blocks before. */
    method IteratorOffset(b: nat, j: nat) returns (offset: int)
      requires Has(b) && j < |chains[b].cursors|
      modifies this`chains
      ensures Has(b) && MovesOnly(b, j) && Contents(b) == old(Contents(b))
      ensures offset == CursorOffset(b, j) == old(CursorOffset(b, j))
    {
      var ok := EnsureBlock(b, j);
      if !ok { return chains[b].size; }
      var blocks, cursor := chains[b].blocks, chains[b].cursors[j];
      var i := cursor.block;
      offset := 0;
      assert SumSizes(blocks[..i]) + offset == SumSizes(blocks[..cursor.block]);
      while 0 < i
        invariant 0 <= i <= cursor.block && SumSizes(blocks[..i]) + offset == SumSizes(blocks[..cursor.block])
        modifies {}
      {
        i := i - 1;
        SumAt(blocks, i);
        offset := offset + blocks[i].Size();
      }
      assert blocks[..0] == [];
      offset := offset + cursor.position - blocks[cursor.block].start;
    }

    method HasCurrent(b: nat, j: nat) returns (has: bool)
      requires Has(b) && j < |chains[b].cursors|
      modifies this`chains
      ensures Has(b) && MovesOnly(b, j) && Contents(b) == old(Contents(b)) && CursorOffset(b, j) == old(CursorOffset(b, j))
      ensures has <==> CursorOffset(b, j) < |Contents(b)|
      ensures has ==> Settled(chains[b].blocks, chains[b].cursors[j])
    {
      var ok := EnsureBlock(b, j);
      if !ok { return false; }
      var cursor := chains[b].cursors[j];
      SettledOffset(stores, chains[b].blocks, cursor);
      has := cursor.position < chains[b].blocks[cursor.block].end;
    }

    method Current(b: nat, j: nat) returns (c: char)
      requires Has(b) && j < |chains[b].cursors| && CursorOffset(b, j) < |Contents(b)|
      modifies this`chains
      ensures Has(b) && MovesOnly(b, j) && Contents(b) == old(Contents(b)) && CursorOffset(b, j) == old(CursorOffset(b, j))
      ensures 0 <= CursorOffset(b, j) < |Contents(b)| && c == Contents(b)[CursorOffset(b, j)]
    {
      var ok := EnsureBlock(b, j);
      var cursor := chains[b].cursors[j];
      SettledOffset(stores, chains[b].blocks, cursor);
      SettledByte(stores, chains[b].blocks, cursor);
      c := stores[chains[b].blocks[cursor.block].store].data[cursor.position];
    }

    /** `advance`: on by n bytes, or to the end. */
    method Advance(b: nat, j: nat, n: nat)
      requires Has(b) && j < |chains[b].cursors|
      modifies this`chains
      ensures Has(b) && MovesOnly(b, j) && Contents(b) == old(Contents(b))
      ensures CursorOffset(b, j) == if old(CursorOffset(b, j)) + n <= |Contents(b)| then old(CursorOffset(b, j)) + n else |Contents(b)|
    {
      var ok := EnsureBlock(b, j);
      if !ok { return; }
      var blocks, cursor := chains[b].blocks, chains[b].cursors[j];
      var i: nat, p: nat, left: nat, atEnd := cursor.block, cursor.position, n, false;
      while !atEnd && p + left >= blocks[i].end
        invariant i < |blocks| && blocks[i].start <= p <= blocks[i].end
        invariant Offset(blocks, At(i, p)) + left == Offset(blocks, cursor) + n
        invariant atEnd ==> p == blocks[i].end && i + 1 == |blocks|
        decreases |blocks| - i, if atEnd then 0 else 1
        modifies {}
      {
        left := left - (blocks[i].end - p);
        if i + 1 == |blocks| {
          p := blocks[i].end;
          atEnd := true;
        } else {
          assert BlockOk(stores, blocks[i + 1]);
          SumAt(blocks, i);
          i := i + 1;
          p := blocks[i].start;
        }
      }
      var place := At(i, if atEnd then p else p + left);
      SettledOffset(stores, blocks, place);
      WithCursorTwice(old(chains), chains, b, j, place);
      SetCursor(b, j, place);
    }
  }

  /** The views taken so far show the slice up to the place that has been reached. */
  predicate Taking(stores: seq<Store>, blocks: seq<Block>, offset: nat, length: nat, i: nat, o: nat, left: nat, ranges: seq<Block>)
    requires Takeable(stores, blocks, offset)
  {
    && i <= |blocks| && left <= length && o <= (if i < |blocks| then blocks[i].Size() else 0)
    && |Text(stores, blocks[..i])| + o == offset + length - left <= |Text(stores, blocks)|
    && BlocksOk(stores, ranges) && Text(stores, ranges) == Text(stores, blocks)[offset..offset + length - left]
  }

  predicate Takeable(stores: seq<Store>, blocks: seq<Block>, offset: nat) {
    BlocksOk(stores, blocks) && offset < |Text(stores, blocks)|
  }

  lemma TakeStart(stores: seq<Store>, blocks: seq<Block>, offset: nat, length: nat, i: nat, o: nat)
    requires BlocksOk(stores, blocks) && i < |blocks| && o < blocks[i].Size()
    requires |Text(stores, blocks[..i])| + o == offset < |Text(stores, blocks)|
    ensures Takeable(stores, blocks, offset) && Taking(stores, blocks, offset, length, i, o, length, [])
  {
  }

  /** Part of a block's view. */
  function Part(k: Block, o: nat, n: nat): Block
    requires 0 <= k.start
  {
    Block(k.store, k.start + o, k.start + o + n)
  }

  lemma TakeLast(stores: seq<Store>, blocks: seq<Block>, offset: nat, length: nat, i: nat, o: nat, left: nat, ranges: seq<Block>)
    requires Takeable(stores, blocks, offset) && Taking(stores, blocks, offset, length, i, o, left, ranges)
    requires i < |blocks| && o + left <= blocks[i].Size()
    ensures var ranges' := ranges + [Part(blocks[i], o, left)];
            BlocksOk(stores, ranges') && Text(stores, ranges') == Slice(Text(stores, blocks), offset, length)
  {
    var from := offset + length - left;
    TakeView(stores, blocks, i, o, left, ranges, offset, from);
    assert from + left == offset + length;
    SliceIs(Text(stores, blocks), offset, length, length);
  }

  lemma TakeRest(stores: seq<Store>, blocks: seq<Block>, offset: nat, length: nat, i: nat, o: nat, left: nat, ranges: seq<Block>,
                 part: nat, more: seq<Block>)
    requires Takeable(stores, blocks, offset) && Taking(stores, blocks, offset, length, i, o, left, ranges)
    requires i < |blocks| && blocks[i].Size() < o + left && part == blocks[i].Size() - o && more == ranges + [Part(blocks[i], o, part)]
    ensures Taking(stores, blocks, offset, length, i + 1, 0, left - part, more)
  {
    TakeView(stores, blocks, i, o, part, ranges, offset, offset + length - left);
    LengthAt(stores, blocks, i);
  }

  lemma EndOfBlock(stores: seq<Store>, blocks: seq<Block>, i: nat, o: nat, offset: nat)
    requires BlocksOk(stores, blocks) && i < |blocks| && o <= blocks[i].Size() && o + |Text(stores, blocks[..i])| == offset
    ensures offset <= |Text(stores, blocks)|
    ensures o == blocks[i].Size() ==> Around(stores, blocks, i + 1, Text(stores, blocks)[..offset], Text(stores, blocks)[offset..])
  {
    LengthAt(stores, blocks, i);
    WholeBlock(stores, blocks, i + 1);
  }

  lemma LengthAt(stores: seq<Store>, blocks: seq<Block>, i: nat)
    requires BlocksOk(stores, blocks) && i < |blocks|
    ensures |Text(stores, blocks[..i + 1])| == |Text(stores, blocks[..i])| + blocks[i].Size()
    ensures 0 <= (if i + 1 < |blocks| then blocks[i + 1].Size() else 0)
  {
    TextAt(stores, blocks, i);
    assert i + 1 < |blocks| ==> BlockOk(stores, blocks[i + 1]);
  }

  lemma TakeEnd(stores: seq<Store>, blocks: seq<Block>, offset: nat, length: nat, i: nat, o: nat, left: nat, ranges: seq<Block>)
    requires Takeable(stores, blocks, offset) && Taking(stores, blocks, offset, length, i, o, left, ranges) && i == |blocks|
    ensures Text(stores, ranges) == Slice(Text(stores, blocks), offset, length)
  {
    assert blocks[..i] == blocks;
    SliceIs(Text(stores, blocks), offset, length, length - left);
  }

  lemma TakeView(stores: seq<Store>, blocks: seq<Block>, i: nat, o: nat, part: nat, ranges: seq<Block>, offset: nat, from: nat)
    requires BlocksOk(stores, blocks) && BlocksOk(stores, ranges) && i < |blocks| && o + part <= blocks[i].Size()
    requires from == |Text(stores, blocks[..i])| + o && offset <= from <= |Text(stores, blocks)|
    requires Text(stores, ranges) == Text(stores, blocks)[offset..from]
    ensures var k := blocks[i];
            var ranges' := ranges + [Part(k, o, part)];
            && BlocksOk(stores, ranges') && from + part <= |Text(stores, blocks)|
            && Text(stores, ranges') == Text(stores, blocks)[offset..from + part]
  {
    var view := Part(blocks[i], o, part);
    SubView(stores, blocks, i, o, part);
    TextSnoc(stores, ranges, view);
    Join(Text(stores, blocks), offset, from, from + part, Text(stores, ranges), View(stores, view));
  }

  lemma TextSnoc(stores: seq<Store>, ranges: seq<Block>, view: Block)
    requires BlocksOk(stores, ranges) && BlockOk(stores, view)
    ensures BlocksOk(stores, ranges + [view]) && Text(stores, ranges + [view]) == Text(stores, ranges) + View(stores, view)
  {
    TextAppend(stores, ranges, [view]);
    TextOne(stores, view);
  }

  /** Two texts are pushed one after the other. */
  lemma PushedTrans(s0: seq<Store>, c0: seq<Chain>, s: seq<Store>, c: seq<Chain>, s': seq<Store>, c': seq<Chain>, b: nat)
    requires Appends(s0, c0, s, c, b) && Appends(s, c, s', c', b)
    requires Grown(c0[b].blocks, c[b].blocks) && Grown(c[b].blocks, c'[b].blocks)
    ensures Appends(s0, c0, s', c', b) && Grown(c0[b].blocks, c'[b].blocks) && (Filled(c[b].blocks) ==> Filled(c'[b].blocks))
  {
    AppendsTrans(s0, c0, s, c, s', c', b);
  }

  lemma InTwo(before: seq<char>, text: seq<char>, part: seq<char>, rest: seq<char>)
    requires text == part + rest
    ensures before + part + rest == before + text
  {
  }

  lemma Join(text: seq<char>, a: nat, b: nat, c: nat, left: seq<char>, right: seq<char>)
    requires a <= b <= c <= |text| && left == text[a..b] && right == text[b..c]
    ensures left + right == text[a..c]
  {
  }

  lemma SliceIs(text: seq<char>, offset: nat, length: nat, n: nat)
    requires offset < |text| && offset + n <= |text|
    requires n == length || (n <= length && offset + n == |text|)
    ensures Slice(text, offset, length) == text[offset..offset + n]
  {
  }

  /** A part of block i is the corresponding part of the whole text. */
  lemma SubView(stores: seq<Store>, blocks: seq<Block>, i: nat, o: nat, n: nat)
    requires BlocksOk(stores, blocks) && i < |blocks| && o + n <= blocks[i].Size()
    ensures var k := blocks[i];
            var view := Part(k, o, n);
            var p := |Text(stores, blocks[..i])| + o;
            && BlockOk(stores, view) && p + n <= |Text(stores, blocks)|
            && View(stores, view) == Text(stores, blocks)[p..p + n]
  {
    var k := blocks[i];
    InMiddle(stores, blocks, i, o, n);
    SliceOfSlice(stores[k.store].data, k.start, k.end, o, n);
  }

  lemma InMiddle(stores: seq<Store>, blocks: seq<Block>, i: nat, o: nat, n: nat)
    requires BlocksOk(stores, blocks) && i < |blocks| && BlockOk(stores, blocks[i]) && o + n <= blocks[i].Size()
    ensures var p := |Text(stores, blocks[..i])| + o;
            p + n <= |Text(stores, blocks)| && Text(stores, blocks)[p..p + n] == View(stores, blocks[i])[o..o + n]
  {
    TextSplit(stores, blocks, i);
    TextAt(stores, blocks, i);
    Middle(Text(stores, blocks), Text(stores, blocks[..i]), View(stores, blocks[i]), Text(stores, blocks[i + 1..]), o, n);
  }

  lemma SliceOfSlice(data: seq<char>, start: nat, end: nat, o: nat, n: nat)
    requires start + o + n <= end <= |data|
    ensures data[start..end][o..o + n] == data[start + o..start + o + n]
  {
    var v := data[start..end];
    var part := v[o..o + n];
    assert forall i :: 0 <= i < n ==> part[i] == v[o + i];
    assert forall i :: 0 <= i < n ==> part[i] == data[start + o + i];
  }

  lemma Middle(whole: seq<char>, front: seq<char>, v: seq<char>, back: seq<char>, o: nat, n: nat)
    requires o + n <= |v| && whole == front + (v + back)
    ensures |front| + o + n <= |whole| && whole[|front| + o..|front| + o + n] == v[o..o + n]
  {
  }

  function Min(a: nat, b: nat): nat {
    if a <= b then a else b
  }

  /** The bytes from `offset` on, `length` of them or as many as there are. */
  function Slice(text: seq<char>, offset: nat, length: nat): seq<char> {
    text[Min(offset, |text|)..Min(offset + length, |text|)]
  }

  /** `memcmp` of two texts of one length: the sign of the first difference. */
  function Memcmp(a: seq<char>, b: seq<char>): int
    requires |a| == |b|
  {
    if a == [] then 0
    else if a[0] < b[0] then -1
    else if a[0] > b[0] then 1
    else Memcmp(a[1..], b[1..])
  }

  /** Where two texts differ first, their bytes say which is the smaller one. */
  predicate SignOfFirst(a: seq<char>, b: seq<char>, result: int)
    requires |a| == |b|
  {
    forall k :: 0 <= k < |a| && a[..k] == b[..k] && a[k] != b[k] ==> result == if a[k] < b[k] then -1 else 1
  }

  lemma {:induction false} MemcmpSign(a: seq<char>, b: seq<char>)
    requires |a| == |b|
    ensures SignOfFirst(a, b, Memcmp(a, b))
    decreases |a|
  {
    if a != [] {
      MemcmpSign(a[1..], b[1..]);
      forall k | 0 <= k < |a| && a[..k] == b[..k] && a[k] != b[k] ensures Memcmp(a, b) == if a[k] < b[k] then -1 else 1 {
        if 0 < k {
          assert a[0] == a[..k][0] == b[..k][0] == b[0];
          assert a[1..][..k - 1] == a[..k][1..] == b[..k][1..] == b[1..][..k - 1];
        }
      }
    }
  }

  /** One block's worth of a comparison. */
  lemma CompareStep(stores: seq<Store>, blocks: seq<Block>, i: nat, rest: seq<char>)
    requires BlocksOk(stores, blocks) && i <= |blocks| && 0 < |rest| <= |Text(stores, blocks[i..])|
    ensures i < |blocks|
    ensures var view := View(stores, blocks[i]);
            var all := Text(stores, blocks[i..])[..|rest|];
            if |view| > |rest| then all == view[..|rest|]
            else
              var size := |view|;
              && |rest| - size <= |Text(stores, blocks[i + 1..])|
              && Memcmp(rest, all) ==
                 if Memcmp(rest[..size], view) != 0 then Memcmp(rest[..size], view)
                 else Memcmp(rest[size..], Text(stores, blocks[i + 1..])[..|rest| - size])
  {
    var view := View(stores, blocks[i]);
    TextAt(stores, blocks, i);
    if |view| <= |rest| {
      var size := |view|;
      var more := Text(stores, blocks[i + 1..])[..|rest| - size];
      assert Text(stores, blocks[i..])[..|rest|] == view + more && rest == rest[..size] + rest[size..];
      MemcmpAppend(rest[..size], rest[size..], view, more);
    }
  }

  lemma {:induction false} MemcmpZero(a: seq<char>, b: seq<char>)
    requires |a| == |b|
    ensures Memcmp(a, b) == 0 <==> a == b
    decreases |a|
  {
    if a != [] {
      MemcmpZero(a[1..], b[1..]);
      assert a == [a[0]] + a[1..] && b == [b[0]] + b[1..];
    }
  }

  lemma {:induction false} MemcmpAppend(a: seq<char>, c: seq<char>, b: seq<char>, d: seq<char>)
    requires |a| == |b| && |c| == |d|
    ensures Memcmp(a + c, b + d) == if Memcmp(a, b) != 0 then Memcmp(a, b) else Memcmp(c, d)
    decreases |a|
  {
    if a == [] {
      assert a + c == c && b + d == d;
    } else {
      assert (a + c)[1..] == a[1..] + c && (b + d)[1..] == b[1..] + d;
      MemcmpAppend(a[1..], c, b[1..], d);
    }
  }

  /** What holds after i blocks of a run have been shared from place `at` on. */
  predicate Sharing(s0: seq<Store>, c0: seq<Chain>, s: seq<Store>, c: seq<Chain>, blockSize: nat,
                    b: nat, at: nat, blocks: seq<Block>, i: nat)
    requires Shareable(s0, c0, b, at, blocks) && i <= |blocks|
  {
    && Ok(s, c, blockSize) && Appends(s0, c0, s, c, b) && MayInsert(c[b], at + i) && FrontShared(c0[b].blocks, c[b].blocks, at, blocks, i)
    && Around(s, c[b].blocks, at + i, Text(s0, c0[b].blocks[..at]) + Text(s0, blocks[..i]), Text(s0, c0[b].blocks[at..]))
  }

  predicate Shareable(s0: seq<Store>, c0: seq<Chain>, b: nat, at: nat, blocks: seq<Block>) {
    b < |c0| && at <= |c0[b].blocks| && BlocksOk(s0, c0[b].blocks) && BlocksOk(s0, blocks)
  }

  lemma CutLength(text: seq<char>)
    ensures var n := |text| % 0x10000; 0 <= n <= |text| && (text[n..] == [] <==> |text| < 0x10000)
  {
  }

  lemma SharingStarts(s: seq<Store>, c: seq<Chain>, blockSize: nat, b: nat, at: nat, blocks: seq<Block>)
    requires Ok(s, c, blockSize) && b < |c| && MayInsert(c[b], at) && BlocksOk(s, blocks)
    ensures Shareable(s, c, b, at, blocks) && Sharing(s, c, s, c, blockSize, b, at, blocks, 0)
  {
    AppendsNothing(s, c, blockSize, b);
    assert Text(s, c[b].blocks[..at]) + Text(s, blocks[..0]) == Text(s, c[b].blocks[..at]);
    WholeAt(s, c[b].blocks, at);
  }

  lemma WholeAt(stores: seq<Store>, blocks: seq<Block>, at: nat)
    requires BlocksOk(stores, blocks) && at <= |blocks|
    ensures Around(stores, blocks, at, Text(stores, blocks[..at]), Text(stores, blocks[at..]))
  {
  }

  lemma SharingEnds(s0: seq<Store>, c0: seq<Chain>, s: seq<Store>, c: seq<Chain>, blockSize: nat, b: nat, at: nat, blocks: seq<Block>)
    requires Shareable(s0, c0, b, at, blocks) && Sharing(s0, c0, s, c, blockSize, b, at, blocks, |blocks|)
    ensures Ok(s, c, blockSize) && Appends(s0, c0, s, c, b) && FrontShared(c0[b].blocks, c[b].blocks, at, blocks, |blocks|)
    ensures Around(s, c[b].blocks, at + |blocks|, Text(s0, c0[b].blocks[..at]) + Text(s0, blocks), Text(s0, c0[b].blocks[at..]))
  {
    assert blocks[..|blocks|] == blocks;
  }

  lemma SharingNext(s0: seq<Store>, c0: seq<Chain>, s: seq<Store>, c: seq<Chain>, s': seq<Store>, c': seq<Chain>,
                    blockSize: nat, b: nat, at: nat, blocks: seq<Block>, i: nat)
    requires i < |blocks| && Shareable(s0, c0, b, at, blocks) && Sharing(s0, c0, s, c, blockSize, b, at, blocks, i) && BlockOk(s, blocks[i])
    requires Ok(s', c', blockSize) && Appends(s, c, s', c', b) && MayInsert(c'[b], at + i + 1)
    requires Around(s', c'[b].blocks, at + i + 1, Text(s, c[b].blocks[..at + i]) + View(s, blocks[i]), Text(s, c[b].blocks[at + i..]))
    requires c'[b].blocks[0] == if at + i == 0 then blocks[0] else c[b].blocks[0]
    ensures Sharing(s0, c0, s', c', blockSize, b, at, blocks, i + 1)
  {
    ViewFrame(s0, s, blocks[i]);
    TextAt(s0, blocks, i);
    AppendsTrans(s0, c0, s, c, s', c', b);
    Associative(Text(s0, c0[b].blocks[..at]), Text(s0, blocks[..i]), View(s0, blocks[i]));
  }

  lemma Associative(a: seq<char>, b: seq<char>, c: seq<char>)
    ensures a + b + c == a + (b + c)
  {
  }

  lemma AtHead(stores: seq<Store>, blocks: seq<Block>)
    requires BlocksOk(stores, blocks)
    ensures var whole := Text(stores, blocks); Around(stores, blocks, 0, whole[..0], whole[0..])
  {
    assert blocks[..0] == [] && blocks[0..] == blocks && Text(stores, blocks)[0..] == Text(stores, blocks);
  }

  lemma WholeBlock(stores: seq<Store>, blocks: seq<Block>, i: nat)
    requires BlocksOk(stores, blocks) && i <= |blocks|
    ensures var whole, n := Text(stores, blocks), |Text(stores, blocks[..i])|;
            n <= |whole| && Around(stores, blocks, i, whole[..n], whole[n..])
  {
    TextSplit(stores, blocks, i);
  }

  /** What holds after n bytes have been popped. */
  predicate HasPopped(s0: seq<Store>, c0: seq<Chain>, s: seq<Store>, c: seq<Chain>, blockSize: nat, b: nat, n: nat, left: nat) {
    && b < |c0| && BlocksOk(s0, c0[b].blocks) && left <= n <= |Text(s0, c0[b].blocks)|
    && Ok(s, c, blockSize) && Isolated(s0, c0, s, c, b)
    && Text(s, c[b].blocks) == Text(s0, c0[b].blocks)[n - left..] && ShiftsOffsets(c0[b], c[b], n - left)
  }

  lemma PoppedMore(s0: seq<Store>, c0: seq<Chain>, s: seq<Store>, c: seq<Chain>, s': seq<Store>, c': seq<Chain>,
                   blockSize: nat, b: nat, n: nat, left: nat, left': nat)
    requires HasPopped(s0, c0, s, c, blockSize, b, n, left) && left' <= left <= |Text(s, c[b].blocks)|
    requires Ok(s', c', blockSize) && Isolated(s, c, s', c', b)
    requires Text(s', c'[b].blocks) == Text(s, c[b].blocks)[left - left'..] && ShiftsOffsets(c[b], c'[b], left - left')
    ensures HasPopped(s0, c0, s', c', blockSize, b, n, left')
  {
    IsolatedTrans(s0, c0, s, c, s', c', b);
    ShiftsTrans(c0[b], c[b], c'[b], n - left, left - left');
  }

  lemma FirstFits(stores: seq<Store>, blocks: seq<Block>)
    requires BlocksOk(stores, blocks) && blocks != []
    ensures 0 <= blocks[0].Size() <= |Text(stores, blocks)|
  {
    assert Text(stores, blocks) == View(stores, blocks[0]) + Text(stores, blocks[1..]);
  }

  lemma {:induction false} ViewsSnoc(chains: seq<Chain>, s: nat)
    ensures Views(chains + [Chain([], 0, [])], s) == Views(chains, s)
    decreases |chains|
  {
    if chains != [] {
      assert (chains + [Chain([], 0, [])])[1..] == chains[1..] + [Chain([], 0, [])];
      ViewsSnoc(chains[1..], s);
    }
  }
}
