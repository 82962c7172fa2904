/**
 Whole runs: any sequence of operations on any number of buffers that share arrays, and on the iterators registered
 with them, does to each what it does to a plain byte sequence with offsets into it that shares nothing.
 */
module BufferRuns {
  import opened BufferStore
  import opened BufferKernel
  import opened BufferCursors
  import opened BufferStorage

  /** A byte sequence, and the offsets of the iterators registered. */
  datatype Plain = Plain(text: seq<char>, offsets: seq<nat>)

  datatype Op =
    | New
    | AppendText(b: nat, text: seq<char>)
    | AppendBuffer(b: nat, other: nat)
    | Push(b: nat, bytes: seq<char>)   // read into the room made at the push pointer
    | InsertText(b: nat, offset: nat, text: seq<char>)
    | InsertBuffer(b: nat, offset: nat, other: nat)
    | Region(source: nat, offset: nat, length: nat, b: nat)
    | Pop(b: nat, length: nat)
    | Register(b: nat)
    | Advance(b: nat, place: nat, length: nat)

  /** What callers keep to: existing buffers and iterators, no buffer into itself, no insertion while iterators
      are registered, 16-bit pop lengths, no more bytes read at once than a block holds. */
  predicate Legal(op: Op, plain: seq<Plain>, blockSize: nat) {
    op.New? ||
    (op.b < |plain| &&
     match op
     case AppendBuffer(b, o) => o < |plain| && b != o
     case InsertText(b, _, _) => plain[b].offsets == []
     case InsertBuffer(b, _, o) => o < |plain| && b != o && plain[b].offsets == []
     case Region(o, _, _, b) => o < |plain| && b != o
     case Push(_, bytes) => |bytes| <= blockSize
     case Pop(_, n) => n < 0x10000
     case Advance(b, j, _) => j < |plain[b].offsets|
     case _ => true)
  }

  /** Insertion at an offset past the end goes to the front, as `splitBlock` has it. */
  function Spliced(whole: seq<char>, offset: nat, text: seq<char>): seq<char> {
    var p := if offset <= |whole| then offset else 0;
    whole[..p] + text + whole[p..]
  }

  function Popped(p: Plain, n: nat): Plain {
    Plain(if n <= |p.text| then p.text[n..] else [],
          seq(|p.offsets|, j requires 0 <= j < |p.offsets| => if p.offsets[j] < n then 0 else p.offsets[j] - n))
  }

  /** What an operation makes of the buffer that it is on. */
  function After(plain: seq<Plain>, op: Op, blockSize: nat): Plain
    requires Legal(op, plain, blockSize) && !op.New?
  {
    var p := plain[op.b];
    match op
    case AppendText(_, t) => p.(text := p.text + t)
    case AppendBuffer(_, o) => p.(text := p.text + plain[o].text)
    case Push(_, bytes) => p.(text := p.text + bytes)
    case InsertText(_, i, t) => p.(text := Spliced(p.text, i, t))
    case InsertBuffer(_, i, o) => p.(text := Spliced(p.text, i, plain[o].text))
    case Region(o, i, n, _) => p.(text := p.text + Slice(plain[o].text, i, n))
    case Pop(_, n) => Popped(p, n)
    case Register(_) => p.(offsets := p.offsets + [0])
    case Advance(_, j, n) => p.(offsets := p.offsets[j := if p.offsets[j] + n <= |p.text| then p.offsets[j] + n else |p.text|])
  }

  function Apply(plain: seq<Plain>, op: Op, blockSize: nat): seq<Plain> {
    if !Legal(op, plain, blockSize) then plain
    else if op.New? then plain + [Plain([], [])]
    else plain[op.b := After(plain, op, blockSize)]
  }

  function ApplyAll(plain: seq<Plain>, ops: seq<Op>, blockSize: nat): seq<Plain>
    decreases |ops|
  {
    if ops == [] then plain else ApplyAll(Apply(plain, ops[0], blockSize), ops[1..], blockSize)
  }

  /** Whatever is done, an iterator that is not advanced stays on its byte until that is popped. */
  lemma SameByte(plain: seq<Plain>, op: Op, b: nat, j: nat, blockSize: nat)
    requires b < |plain| && j < |plain[b].offsets| && plain[b].offsets[j] < |plain[b].text|
    requires !(op.Advance? && op.b == b && op.place == j)
    requires !(op.Pop? && op.b == b && plain[b].offsets[j] < op.length)
    ensures var p, q := plain[b], Apply(plain, op, blockSize)[b];
            && j < |q.offsets| && q.offsets[j] < |q.text| && q.text[q.offsets[j]] == p.text[p.offsets[j]]
  {
    if Legal(op, plain, blockSize) && op.Pop? && op.b == b {
      assert Popped(plain[b], op.length).offsets[j] == plain[b].offsets[j] - op.length;
    }
  }

  // ---------- what a chain stands for ----------

  predicate Stands(stores: seq<Store>, c: Chain, p: Plain) {
    && BlocksOk(stores, c.blocks) && CursorsOk(c) && Text(stores, c.blocks) == p.text && |c.cursors| == |p.offsets|
    && forall j :: 0 <= j < |c.cursors| ==> Offset(c.blocks, c.cursors[j]) == p.offsets[j]
  }

  predicate Agrees(stores: seq<Store>, chains: seq<Chain>, blockSize: nat, plain: seq<Plain>) {
    && Ok(stores, chains, blockSize) && |chains| == |plain|
    && forall b :: 0 <= b < |chains| ==> Stands(stores, chains[b], plain[b])
  }

  lemma AgreesAfter(s: seq<Store>, c: seq<Chain>, s': seq<Store>, c': seq<Chain>, blockSize: nat, plain: seq<Plain>, b: nat, p: Plain)
    requires Agrees(s, c, blockSize, plain) && b < |c| && Ok(s', c', blockSize) && Isolated(s, c, s', c', b)
    requires Stands(s', c'[b], p)
    ensures Agrees(s', c', blockSize, plain[b := p])
  {
    forall o | 0 <= o < |c'| && o != b ensures Stands(s', c'[o], plain[o]) {
      assert Stands(s, c[o], plain[o]) && c'[o] == c[o];
    }
  }

  lemma StandsKept(s: seq<Store>, c: Chain, s': seq<Store>, c': Chain, p: Plain, text: seq<char>)
    requires Stands(s, c, p) && KeepsOffsets(c, c') && BlocksOk(s', c'.blocks) && Text(s', c'.blocks) == text
    ensures Stands(s', c', p.(text := text))
  {
  }

  lemma StandsShifted(s: seq<Store>, c: Chain, s': seq<Store>, c': Chain, p: Plain, n: nat)
    requires Stands(s, c, p) && ShiftsOffsets(c, c', n) && BlocksOk(s', c'.blocks)
    requires Text(s', c'.blocks) == if n <= |p.text| then p.text[n..] else []
    ensures Stands(s', c', Popped(p, n))
  {
    forall j | 0 <= j < |c'.cursors| ensures Offset(c'.blocks, c'.cursors[j]) == Popped(p, n).offsets[j] {
      assert Offset(c.blocks, c.cursors[j]) == p.offsets[j];
    }
  }

  // ---------- running ----------

  method Append(storage: Storage, op: Op, ghost plain: seq<Plain>)
    requires Agrees(storage.stores, storage.chains, storage.blockSize, plain) && Legal(op, plain, storage.blockSize)
    requires op.AppendText? || op.AppendBuffer? || op.Region?
    modifies storage
    ensures Agrees(storage.stores, storage.chains, storage.blockSize, Apply(plain, op, storage.blockSize))
    ensures op.AppendText? && op.text != [] && old(Peekable(storage.chains[op.b].blocks)) ==> Peekable(storage.chains[op.b].blocks)
  {
    ghost var s, c, p := storage.stores, storage.chains, plain[op.b];
    match op {
      case AppendText(b, t) => storage.AppendText(b, t);
      case AppendBuffer(b, o) => storage.AppendBuffer(b, o);
      case Region(o, i, n, b) => storage.Region(o, i, n, b);
    }
    StandsKept(s, c[op.b], storage.stores, storage.chains[op.b], p, After(plain, op, storage.blockSize).text);
    AgreesAfter(s, c, storage.stores, storage.chains, storage.blockSize, plain, op.b, After(plain, op, storage.blockSize));
  }

  method Push(storage: Storage, op: Op, ghost plain: seq<Plain>)
    requires Agrees(storage.stores, storage.chains, storage.blockSize, plain) && Legal(op, plain, storage.blockSize) && op.Push?
    modifies storage
    ensures Agrees(storage.stores, storage.chains, storage.blockSize, Apply(plain, op, storage.blockSize))
  {
    ghost var s, c, p := storage.stores, storage.chains, plain[op.b];
    storage.EnsurePushLength(op.b, storage.blockSize);
    ghost var s', c' := storage.stores, storage.chains;
    storage.Pushed(op.b, op.bytes);
    AppendsTrans(s, c, s', c', storage.stores, storage.chains, op.b);
    StandsKept(s, c[op.b], storage.stores, storage.chains[op.b], p, p.text + op.bytes);
    AgreesAfter(s, c, storage.stores, storage.chains, storage.blockSize, plain, op.b, After(plain, op, storage.blockSize));
  }

  method Insert(storage: Storage, op: Op, ghost plain: seq<Plain>)
    requires Agrees(storage.stores, storage.chains, storage.blockSize, plain) && Legal(op, plain, storage.blockSize)
    requires op.InsertText? || op.InsertBuffer?
    modifies storage
    ensures Agrees(storage.stores, storage.chains, storage.blockSize, Apply(plain, op, storage.blockSize))
  {
    ghost var s, c := storage.stores, storage.chains;
    match op {
      case InsertText(b, i, t) => storage.InsertText(b, i, t);
      case InsertBuffer(b, i, o) => storage.InsertBuffer(b, i, o);
    }
    AgreesAfter(s, c, storage.stores, storage.chains, storage.blockSize, plain, op.b, After(plain, op, storage.blockSize));
  }

  method Pop(storage: Storage, op: Op, ghost plain: seq<Plain>)
    requires Agrees(storage.stores, storage.chains, storage.blockSize, plain) && Legal(op, plain, storage.blockSize) && op.Pop?
    modifies storage
    ensures Agrees(storage.stores, storage.chains, storage.blockSize, Apply(plain, op, storage.blockSize))
    ensures Peekable(storage.chains[op.b].blocks)
  {
    ghost var s, c := storage.stores, storage.chains;
    storage.Popped(op.b, op.length);
    StandsShifted(s, c[op.b], storage.stores, storage.chains[op.b], plain[op.b], op.length);
    AgreesAfter(s, c, storage.stores, storage.chains, storage.blockSize, plain, op.b, After(plain, op, storage.blockSize));
  }

  lemma OnlyCursors(stores: seq<Store>, chains: seq<Chain>, blockSize: nat, b: nat, cursors: seq<Cursor>)
    requires Ok(stores, chains, blockSize) && b < |chains|
    ensures Isolated(stores, chains, stores, chains[b := chains[b].(cursors := cursors)], b)
  {
  }

  method Register(storage: Storage, op: Op, ghost plain: seq<Plain>)
    requires Agrees(storage.stores, storage.chains, storage.blockSize, plain) && Legal(op, plain, storage.blockSize) && op.Register?
    modifies storage
    ensures Agrees(storage.stores, storage.chains, storage.blockSize, Apply(plain, op, storage.blockSize))
    ensures storage.chains[op.b].blocks == old(storage.chains[op.b].blocks)
  {
    ghost var c := storage.chains;
    var j := storage.NewCursor(op.b);
    OnlyCursors(storage.stores, c, storage.blockSize, op.b, storage.chains[op.b].cursors);
    assert Stands(storage.stores, c[op.b], plain[op.b]);
    AgreesAfter(storage.stores, c, storage.stores, storage.chains, storage.blockSize, plain, op.b, After(plain, op, storage.blockSize));
  }

  method Advance(storage: Storage, op: Op, ghost plain: seq<Plain>)
    requires Agrees(storage.stores, storage.chains, storage.blockSize, plain) && Legal(op, plain, storage.blockSize) && op.Advance?
    modifies storage
    ensures Agrees(storage.stores, storage.chains, storage.blockSize, Apply(plain, op, storage.blockSize))
    ensures storage.chains[op.b].blocks == old(storage.chains[op.b].blocks)
  {
    ghost var c := storage.chains;
    assert Stands(storage.stores, c[op.b], plain[op.b]);
    storage.Advance(op.b, op.place, op.length);
    OnlyCursors(storage.stores, c, storage.blockSize, op.b, storage.chains[op.b].cursors);
    AgreesAfter(storage.stores, c, storage.stores, storage.chains, storage.blockSize, plain, op.b, After(plain, op, storage.blockSize));
  }

  /** The first byte of the buffer, if there is one, can be read from its first block after the operation, if it could
      before. An empty text may make an empty block in front. */
  predicate KeepsFront(op: Op) {
    op.Pop? || op.Advance? || op.Register? || (op.AppendText? && op.text != [])
  }

  method Execute(storage: Storage, op: Op, ghost plain: seq<Plain>)
    requires Agrees(storage.stores, storage.chains, storage.blockSize, plain) && Legal(op, plain, storage.blockSize)
    modifies storage
    ensures Agrees(storage.stores, storage.chains, storage.blockSize, Apply(plain, op, storage.blockSize))
    ensures op.New? ==> storage.chains == old(storage.chains) + [Chain([], 0, [])]
    ensures KeepsFront(op) && old(Peekable(storage.chains[op.b].blocks)) ==> Peekable(storage.chains[op.b].blocks)
  {
    match op {
      case New =>
        var b := storage.NewBuffer();
      case Push(_, _) => Push(storage, op, plain);
      case Pop(_, _) => Pop(storage, op, plain);
      case Register(_) => Register(storage, op, plain);
      case Advance(_, _, _) => Advance(storage, op, plain);
      case InsertText(_, _, _) => Insert(storage, op, plain);
      case InsertBuffer(_, _, _) => Insert(storage, op, plain);
      case _ => Append(storage, op, plain);
    }
  }

  predicate AllLegal(ops: seq<Op>, plain: seq<Plain>, blockSize: nat)
    decreases |ops|
  {
    ops == [] || (Legal(ops[0], plain, blockSize) && AllLegal(ops[1..], Apply(plain, ops[0], blockSize), blockSize))
  }

  /** Refinement over whole runs, from no buffers at all. */
  method Run(blockSize: nat, ops: seq<Op>) returns (storage: Storage)
    requires 0 < blockSize < 0x10000 && AllLegal(ops, [], blockSize)
    ensures fresh(storage) && Agrees(storage.stores, storage.chains, storage.blockSize, ApplyAll([], ops, blockSize))
  {
    storage := new Storage(blockSize);
    ghost var plain := [];
    var i := 0;
    assert ops[0..] == ops;
    while i < |ops|
      invariant i <= |ops| && fresh(storage)
      invariant Agrees(storage.stores, storage.chains, storage.blockSize, plain) && AllLegal(ops[i..], plain, blockSize)
      invariant ApplyAll(plain, ops[i..], blockSize) == ApplyAll([], ops, blockSize)
    {
      assert ops[i..][1..] == ops[i + 1..];
      Execute(storage, ops[i], plain);
      plain := Apply(plain, ops[i], blockSize);
      i := i + 1;
    }
  }
}
