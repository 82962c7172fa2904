/**
 Five places where the buffer code, as it stands, does something else than the rest of the code relies on.
 BufferStorage has what is meant; here is what the text does, exactly when the two agree, and an input that
 shows the difference.
 */
module BufferAsWritten {
  import opened BufferStore
  import opened BufferKernel
  import opened BufferCursors

  // ---------- ensurePush: `length < block->room()` ----------

  /** The room of the block that the inverted test pushes into; `NoBlock` before the first block. */
  datatype Last = NoBlock | Roomy(room: nat)

  function PushRoom(last: Last, blockSize: nat): nat {
    if last.NoBlock? || 1 < last.room then blockSize else last.room
  }

  /** Does the recursion of `pushToBlock` reach its end within `fuel` further calls? */
  predicate PushEnds(length: nat, last: Last, blockSize: nat, fuel: nat)
    decreases fuel
  {
    var room := PushRoom(last, blockSize);
    length < room || (0 < fuel && PushEnds(length - room, Roomy(0), blockSize, fuel - 1))
  }

  /** The recursion ends after some number of calls. */
  ghost predicate PushReturns(length: nat, last: Last, blockSize: nat) {
    exists fuel: nat :: PushEnds(length, last, blockSize, fuel)
  }

  lemma {:induction false} StuckWhenFull(length: nat, blockSize: nat, fuel: nat)
    ensures !PushEnds(length, Roomy(0), blockSize, fuel)
    decreases fuel
  {
    if 0 < fuel {
      StuckWhenFull(length, blockSize, fuel - 1);
    }
  }

  /** With the inverted test a push ends exactly when the text is shorter than the room it starts with. */
  lemma PushAsWritten(length: nat, last: Last, blockSize: nat)
    ensures PushReturns(length, last, blockSize) <==> length < PushRoom(last, blockSize)
  {
    var room := PushRoom(last, blockSize);
    if length < room {
      assert PushEnds(length, last, blockSize, 0);
      assert PushReturns(length, last, blockSize);
    } else {
      forall fuel: nat ensures !PushEnds(length, last, blockSize, fuel) {
        if 0 < fuel {
          StuckWhenFull(length - room, blockSize, fuel - 1);
        }
      }
    }
  }

  /** A block's worth of bytes appended to an empty buffer never returns. */
  lemma PushAsWrittenDiverges()
    ensures !PushReturns(1024, NoBlock, 1024)
  {
    PushAsWritten(1024, NoBlock, 1024);
  }

  // ---------- Block::pushed: the mark is not raised ----------

  function PushedAsWritten(chains: seq<Chain>, b: nat, n: nat): seq<Chain>
    requires b < |chains| && chains[b].blocks != []
  {
    chains[b := Extended(chains[b], |chains[b].blocks| - 1, n)]
  }

  /** Without raising the mark, pushing keeps views at or below marks exactly when nothing is pushed. */
  lemma PushedBreaksMarks(stores: seq<Store>, chains: seq<Chain>, blockSize: nat, b: nat, n: nat)
    requires Ok(stores, chains, blockSize) && b < |chains| && chains[b].blocks != []
    requires var k := chains[b].blocks[|chains[b].blocks| - 1]; Writable(stores, k, n)
    ensures Ok(stores, PushedAsWritten(chains, b, n), blockSize) <==> n == 0
  {
    var c := chains[b];
    var i := |c.blocks| - 1;
    var c' := Extended(c, i, n);
    if n == 0 {
      assert c'.blocks == c.blocks && c' == c;
      assert PushedAsWritten(chains, b, n) == chains;
    } else {
      assert !BlockOk(stores, c'.blocks[i]);
      assert PushedAsWritten(chains, b, n)[b] == c';
    }
  }

  /** Bytes are read into an array behind a block, and the mark is not raised. */
  function ReadInto(stores: seq<Store>, k: Block, bytes: seq<char>): seq<Store>
    requires Writable(stores, k, |bytes|)
  {
    var data := stores[k.store].data;
    stores[k.store := stores[k.store].(data := data[..k.end] + bytes + data[k.end + |bytes|..])]
  }

  /** What a block shows, wherever the mark is. */
  function Shown(stores: seq<Store>, k: Block): seq<char>
    requires k.store < |stores| && k.start <= k.end <= |stores[k.store].data|
  {
    stores[k.store].data[k.start..k.end]
  }

  /** The buffer whose last block is k has had bytes pushed; then a buffer with a view that ends at the old mark, as
      one that shared the block has, appends a byte in place. */
  function Overwritten(stores: seq<Store>, k: Block, bytes: seq<char>, x: char): seq<char>
    requires Writable(stores, k, |bytes|) && k.end < |stores[k.store].data|
    requires forall t :: 0 <= t < |stores| ==> stores[t].end <= |stores[t].data|
  {
    Shown(Write(ReadInto(stores, k, bytes), k.store, [x]), k.(end := k.end + |bytes|))
  }

  /** What is read then is what was pushed, whatever the other buffer appends, exactly when nothing was pushed: else
      isolation is lost for every byte but one. */
  lemma PushedLosesIsolation(stores: seq<Store>, k: Block, bytes: seq<char>, x: char)
    requires Writable(stores, k, |bytes|) && k.end < |stores[k.store].data|
    requires forall t :: 0 <= t < |stores| ==> stores[t].end <= |stores[t].data|
    ensures Shown(ReadInto(stores, k, bytes), k.(end := k.end + |bytes|)) == View(stores, k) + bytes
    ensures Overwritten(stores, k, bytes, x) == View(stores, k) + bytes <==> bytes == [] || x == bytes[0]
    ensures Writable(ReadInto(stores, k, bytes), k, 1)
  {
    var data := stores[k.store].data;
    var front, after := data[..k.end], data[k.end + |bytes|..];
    var read := ReadInto(stores, k, bytes);
    assert read[k.store].data == front + bytes + after && read[k.store].data[..k.end] == front;
    var written := Write(read, k.store, [x])[k.store].data;
    assert front[k.start..] == data[k.start..k.end];
    if bytes == [] {
      assert written == front + [x] + after[1..];
      assert written[k.start..k.end] == front[k.start..];
    } else {
      assert read[k.store].data[k.end + 1..] == bytes[1..] + after;
      Overwrites(front, bytes, after, k.start, x);
    }
  }

  lemma Overwrites(front: seq<char>, bytes: seq<char>, after: seq<char>, start: nat, x: char)
    requires start <= |front| && bytes != []
    ensures var shown := (front + [x] + (bytes[1..] + after))[start..|front| + |bytes|];
            shown == front[start..] + bytes <==> x == bytes[0]
  {
    var shown := (front + [x] + (bytes[1..] + after))[start..|front| + |bytes|];
    assert shown == front[start..] + ([x] + bytes[1..]);
    assert shown[|front| - start] == x && (front[start..] + bytes)[|front| - start] == bytes[0];
    assert bytes == [bytes[0]] + bytes[1..];
  }

  // ---------- region: `size` where `size - offset` is meant ----------

  /** The (offset, length) pairs taken from blocks of the given sizes. */
  function RangesMeant(sizes: seq<nat>, offset: nat, length: nat): seq<(nat, nat)> {
    if sizes == [] then []
    else if offset + length <= sizes[0] then [(offset, length)]
    else if sizes[0] < offset then []
    else [(offset, sizes[0] - offset)] + RangesMeant(sizes[1..], 0, length - (sizes[0] - offset))
  }

  function RangesAsWritten(sizes: seq<nat>, offset: nat, length: int): seq<(nat, int)> {
    if sizes == [] then []
    else if offset + length <= sizes[0] then [(offset, length)]
    else [(offset, sizes[0])] + RangesAsWritten(sizes[1..], 0, length - sizes[0])
  }

  lemma {:induction false} RangesFromBoundary(sizes: seq<nat>, length: nat)
    ensures |RangesAsWritten(sizes, 0, length)| == |RangesMeant(sizes, 0, length)|
    ensures forall i :: 0 <= i < |RangesMeant(sizes, 0, length)| ==>
              RangesAsWritten(sizes, 0, length)[i].0 == RangesMeant(sizes, 0, length)[i].0
              && RangesAsWritten(sizes, 0, length)[i].1 == RangesMeant(sizes, 0, length)[i].1
    decreases |sizes|
  {
    if sizes != [] && sizes[0] < length {
      RangesFromBoundary(sizes[1..], length - sizes[0]);
    }
  }

  /** A region is taken right exactly when it starts on a block boundary or fits in its first block. */
  lemma RegionAsWritten(sizes: seq<nat>, offset: nat, length: nat)
    requires sizes != [] && offset <= sizes[0]
    ensures var meant, written := RangesMeant(sizes, offset, length), RangesAsWritten(sizes, offset, length);
            (|written| == |meant| && forall i :: 0 <= i < |meant| ==> written[i].0 == meant[i].0 && written[i].1 == meant[i].1)
            <==> (offset == 0 || offset + length <= sizes[0])
  {
    var meant, written := RangesMeant(sizes, offset, length), RangesAsWritten(sizes, offset, length);
    if offset == 0 {
      RangesFromBoundary(sizes, length);
    } else if sizes[0] < offset + length {
      assert meant[0].1 == sizes[0] - offset && written[0].1 == sizes[0];
    }
  }

  /** Of blocks of two bytes, three bytes from the second on: two are taken of the first block, which has one left. */
  lemma RegionTooLong()
    ensures RangesMeant([2, 2], 1, 3) == [(1, 1), (0, 2)] && RangesAsWritten([2, 2], 1, 3) == [(1, 2), (0, 1)]
  {
  }

  // ---------- ensureBlock: no hop from the end of a block ----------

  /** Where `ensureBlock` leaves the iterator without the hop. */
  function WithoutHop(blocks: seq<Block>, cursor: Cursor): Cursor
    requires blocks != [] && CursorOk(blocks, cursor)
  {
    match cursor
    case Nowhere => At(0, blocks[0].start)
    case At(i, p) => At(i, if p < blocks[i].start then blocks[i].start else p)
  }

  predicate HasCurrentAsWritten(blocks: seq<Block>, cursor: Cursor)
    requires CursorOk(blocks, cursor)
  {
    blocks != [] && var at := WithoutHop(blocks, cursor); at.position < blocks[at.block].end
  }

  /** Without the hop `hasCurrent` answers right exactly when the iterator is not parked at the end of its
      block while there are bytes beyond; parked there, it never sees them. */
  lemma HasCurrentWithoutHop(stores: seq<Store>, blocks: seq<Block>, cursor: Cursor)
    requires BlocksOk(stores, blocks) && CursorOk(blocks, cursor)
    ensures var right := Offset(blocks, cursor) < |Text(stores, blocks)|;
            var parked := blocks != [] && var at := WithoutHop(blocks, cursor); at.position == blocks[at.block].end;
            HasCurrentAsWritten(blocks, cursor) == right <==> !(parked && right)
  {
    OffsetBounds(stores, blocks, cursor);
    if blocks != [] {
      var at := WithoutHop(blocks, cursor);
      assert BlockOk(stores, blocks[at.block]);
      TextSplit(stores, blocks, at.block);
      TextAt(stores, blocks, at.block);
      TextLength(stores, blocks[..at.block]);
    }
  }

  /** Parked behind one byte, an iterator does not see the other that was appended in a block of its own. */
  lemma ParkedForEver()
    ensures var stores := [Store("a", 1, 1), Store("b", 1, 1)]; var blocks := [Block(0, 0, 1), Block(1, 0, 1)];
            BlocksOk(stores, blocks) && Offset(blocks, At(0, 1)) < |Text(stores, blocks)| && !HasCurrentAsWritten(blocks, At(0, 1))
  {
    var stores, blocks := [Store("a", 1, 1), Store("b", 1, 1)], [Block(0, 0, 1), Block(1, 0, 1)];
    assert blocks[..0] == [] && blocks[1..] == [Block(1, 0, 1)];
    TextLength(stores, blocks);
  }

  // ---------- insert: `strlen(cString)` for the length given ----------

  /** What is taken of memory that is read up to a terminator. */
  function CString(memory: seq<char>): seq<char> {
    if memory == [] || memory[0] == '\0' then [] else [memory[0]] + CString(memory[1..])
  }

  /** Of a text of a given length the right bytes are inserted exactly when a terminator follows it directly and
      none is in it. `beyond` is the memory behind the text. */
  lemma {:induction false} InsertAsWritten(text: seq<char>, beyond: seq<char>)
    requires '\0' in text + beyond
    ensures CString(text + beyond) == text <==> '\0' !in text && beyond != [] && beyond[0] == '\0'
    decreases |text|
  {
    if text == [] {
      assert text + beyond == beyond;
    } else {
      var rest := text[1..];
      assert (text + beyond)[0] == text[0] && (text + beyond)[1..] == rest + beyond && text == [text[0]] + rest;
      if text[0] != '\0' {
        InsertAsWritten(rest, beyond);
      }
    }
  }

  /** Two bytes of a longer text: all of it is inserted. */
  lemma InsertTooMuch()
    ensures CString("ab" + "c\0") == "abc"
  {
    assert "ab" + "c\0" == ['a', 'b', 'c', '\0'];
    assert ['a', 'b', 'c', '\0'][1..] == ['b', 'c', '\0'] && ['b', 'c', '\0'][1..] == ['c', '\0'] && ['c', '\0'][1..] == ['\0'];
  }
}
