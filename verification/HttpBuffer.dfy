/**
 The parser's input as a buffer. The operations that the source calls on `mInputBuffer` and its iterator, turn by turn,
 are written out as functions of the parser's state; what they make of a buffer is just what the parser's turns make of
 its bytes and cursor. Module BufferRuns refines them to shared blocks; here they are carried out on such blocks.
 */
module HttpBuffer {
  import opened HttpParser
  import opened HttpMachine
  import opened HttpTheorems
  import opened BufferStore
  import opened BufferStorage
  import opened BufferRuns
  import opened HttpSafety

  /** `mInputBuffer` with `mInputBufferIterator`. */
  function AsPlain(m: Machine): Plain {
    Plain(m.input, [m.cursor])
  }

  /** Legal operations on one buffer take it from p to q. */
  predicate Does(ops: seq<Op>, p: Plain, q: Plain, blockSize: nat) {
    AllLegal(ops, [p], blockSize) && ApplyAll([p], ops, blockSize) == [q]
  }

  lemma DoesNothing(p: Plain, blockSize: nat)
    ensures Does([], p, p, blockSize)
  {
  }

  lemma DoesOne(op: Op, p: Plain, q: Plain, blockSize: nat)
    requires Legal(op, [p], blockSize) && Apply([p], op, blockSize) == [q]
    ensures Does([op], p, q, blockSize)
  {
    assert [op][1..] == [];
  }

  lemma {:induction false} RunThrough(ops: seq<Op>, more: seq<Op>, plain: seq<Plain>, blockSize: nat)
    requires AllLegal(ops, plain, blockSize) && AllLegal(more, ApplyAll(plain, ops, blockSize), blockSize)
    ensures AllLegal(ops + more, plain, blockSize)
    ensures ApplyAll(plain, ops + more, blockSize) == ApplyAll(ApplyAll(plain, ops, blockSize), more, blockSize)
    decreases |ops|
  {
    if ops == [] {
      assert ops + more == more;
    } else {
      assert (ops + more)[1..] == ops[1..] + more;
      RunThrough(ops[1..], more, Apply(plain, ops[0], blockSize), blockSize);
    }
  }

  lemma DoesBoth(ops: seq<Op>, more: seq<Op>, p: Plain, q: Plain, r: Plain, blockSize: nat)
    requires Does(ops, p, q, blockSize) && Does(more, q, r, blockSize)
    ensures Does(ops + more, p, r, blockSize)
  {
    RunThrough(ops, more, [p], blockSize);
  }

  // ---------- what the source calls ----------

  /** `locateChar` moves the iterator on byte by byte. */
  function Advances(n: nat): seq<Op> {
    seq(n, _ => Op.Advance(0, 0, 1))
  }

  /** `eatSpaces` pops byte by byte. */
  function Pops(n: nat): seq<Op> {
    seq(n, _ => BufferRuns.Pop(0, 1))
  }

  /** `popped` with a length that is cut to 16 bits. */
  function PopOf(n: nat): Op {
    BufferRuns.Pop(0, n % WIDTH)
  }

  function TokenOps(m: Machine): seq<Op>
    requires Scanning(m.state) && m.cursor <= |m.input|
  {
    var j := Scanned(m).cursor;
    Advances(j - m.cursor) + if j < |m.input| && m.input[j] == Success(m.state) then [PopOf(j + 1)] else []
  }

  function SpacesOps(m: Machine): seq<Op>
    requires SkipsSpaces(m.state) && m.cursor <= |m.input|
  {
    var q := Eaten(m);
    Pops(Blanks(m.input)) +
    if q.input == [] then []
    else if q.state.PreKey? && q.input[0] == '\r' then [PopOf(1)]
    else TokenOps(q.(state := AfterSpaces(q.state)))
  }

  function NewlineOps(m: Machine): seq<Op> {
    if m.input == [] then [] else [PopOf(1)]
  }

  function DataOps(m: Machine): seq<Op> {
    if !m.handler.Live? then [] else [PopOf(if |m.input| > m.dataLeft then m.dataLeft else |m.input|)]
  }

  /** One call of `process`. */
  function TurnOps(m: Machine): seq<Op>
    requires m.cursor <= |m.input|
  {
    if SkipsSpaces(m.state) then SpacesOps(m)
    else if Scanning(m.state) then TokenOps(m)
    else if ExpectsNewline(m.state) then NewlineOps(m)
    else DataOps(m)
  }

  /** The loop of `receive`. */
  function LoopOps(m: Machine, atoi: Atoi): seq<Op>
    requires m.cursor <= |m.input|
    decreases |m.input|, Rank(m.state)
  {
    var (q, r) := Turn(m, atoi, Short);
    TurnOps(m) + if r.Found? && q.input != [] then LoopOps(q, atoi) else []
  }

  /** `receive`: the chunk is appended, then come the turns. */
  function ReceivedOps(m: Machine, chunk: Bytes, atoi: Atoi): seq<Op>
    requires m.cursor <= |m.input|
  {
    [Op.AppendText(0, chunk)] + LoopOps(m.(input := m.input + chunk), atoi)
  }

  /** Chunk after chunk, also after closing, until a bad pointer is followed. */
  function FedOps(m: Machine, chunks: seq<Bytes>, atoi: Atoi): seq<Op>
    requires m.cursor <= |m.input|
    decreases |chunks|
  {
    if chunks == [] then []
    else
      var (q, outcome) := Received(m, chunks[0], atoi, Short);
      ReceivedOps(m, chunks[0], atoi) + if outcome.Faulted? then [] else FedOps(q, chunks[1..], atoi)
  }

  // ---------- the parts of a turn ----------

  lemma PopDoes(m: Machine, n: nat, blockSize: nat)
    requires n <= |m.input|
    ensures Does([PopOf(n)], AsPlain(m), AsPlain(HttpMachine.Popped(m, n, Short)), blockSize)
  {
    var k := n % WIDTH;
    var p := AsPlain(m);
    assert BufferRuns.Popped(p, k) == AsPlain(HttpMachine.Popped(m, n, Short));
    assert [p][0 := BufferRuns.Popped(p, k)] == [BufferRuns.Popped(p, k)];
    DoesOne(BufferRuns.Pop(0, k), p, BufferRuns.Popped(p, k), blockSize);
  }

  /** The machine after its first n bytes have been popped, whatever n is. */
  function Less(m: Machine, n: nat): Machine
    requires n <= |m.input|
  {
    m.(input := m.input[n..], cursor := if n <= m.cursor then m.cursor - n else 0)
  }

  lemma {:induction false} PopsDo(m: Machine, n: nat, blockSize: nat)
    requires n <= |m.input|
    ensures Does(Pops(n), AsPlain(m), AsPlain(Less(m, n)), blockSize)
    decreases n
  {
    if n == 0 {
      assert m.input[0..] == m.input;
    } else {
      PopsDo(m, n - 1, blockSize);
      var q := Less(m, n - 1);
      PopDoes(q, 1, blockSize);
      assert m.input[n - 1..][1..] == m.input[n..];
      assert AsPlain(HttpMachine.Popped(q, 1, Short)) == AsPlain(Less(m, n));
      assert Pops(n) == Pops(n - 1) + [PopOf(1)];
      DoesBoth(Pops(n - 1), [PopOf(1)], AsPlain(m), AsPlain(q), AsPlain(Less(m, n)), blockSize);
    }
  }

  lemma AdvanceDoes(p: Plain, c: nat, blockSize: nat)
    requires c < |p.text|
    ensures Does([Op.Advance(0, 0, 1)], p.(offsets := [c]), p.(offsets := [c + 1]), blockSize)
  {
    assert [c][0 := c + 1] == [c + 1];
    var was, now := p.(offsets := [c]), p.(offsets := [c + 1]);
    assert [was][0 := now] == [now];
    DoesOne(Op.Advance(0, 0, 1), was, now, blockSize);
  }

  lemma {:induction false} AdvancesDo(p: Plain, from: nat, n: nat, blockSize: nat)
    requires from + n <= |p.text|
    ensures Does(Advances(n), p.(offsets := [from]), p.(offsets := [from + n]), blockSize)
    decreases n
  {
    if n == 0 {
      DoesNothing(p.(offsets := [from]), blockSize);
    } else {
      AdvanceDoes(p, from, blockSize);
      AdvancesDo(p, from + 1, n - 1, blockSize);
      assert Advances(n) == [Op.Advance(0, 0, 1)] + Advances(n - 1);
      DoesBoth([Op.Advance(0, 0, 1)], Advances(n - 1), p.(offsets := [from]), p.(offsets := [from + 1]),
               p.(offsets := [from + n]), blockSize);
    }
  }

  lemma AppendDoes(m: Machine, chunk: Bytes, blockSize: nat)
    ensures Does([Op.AppendText(0, chunk)], AsPlain(m), AsPlain(m.(input := m.input + chunk)), blockSize)
  {
    var p, q := AsPlain(m), AsPlain(m.(input := m.input + chunk));
    assert [p][0 := q] == [q];
    DoesOne(Op.AppendText(0, chunk), p, q, blockSize);
  }

  lemma ThenPop(ops: seq<Op>, m: Machine, q: Machine, n: nat, blockSize: nat)
    requires Does(ops, AsPlain(m), AsPlain(q), blockSize) && n <= |q.input|
    ensures Does(ops + [PopOf(n)], AsPlain(m), AsPlain(HttpMachine.Popped(q, n, Short)), blockSize)
  {
    PopDoes(q, n, blockSize);
    DoesBoth(ops, [PopOf(n)], AsPlain(m), AsPlain(q), AsPlain(HttpMachine.Popped(q, n, Short)), blockSize);
  }

  // ---------- turns ----------

  lemma ScanDoes(m: Machine, blockSize: nat)
    requires Scanning(m.state) && m.cursor <= |m.input|
    ensures Does(Advances(Scanned(m).cursor - m.cursor), AsPlain(m), AsPlain(Scanned(m)), blockSize)
  {
    AdvancesDo(AsPlain(m), m.cursor, Scanned(m).cursor - m.cursor, blockSize);
  }

  /** What a token turn leaves of the input. */
  lemma TokenPlain(m: Machine, atoi: Atoi)
    requires Scanning(m.state) && m.cursor <= |m.input|
    ensures var q := Scanned(m); var found := q.cursor < |m.input| && m.input[q.cursor] == Success(m.state);
            AsPlain(TokenTurn(m, atoi, Short).0) == if found then AsPlain(HttpMachine.Popped(q, q.cursor + 1, Short)) else AsPlain(q)
  {
    var q := Scanned(m);
    if q.cursor == |q.input| {
      assert TokenTurn(m, atoi, Short) == (q, NotFound);
    } else if q.input[q.cursor] != Success(m.state) {
      assert TokenTurn(m, atoi, Short) == (q, Error);
    } else {
      assert TokenTurn(m, atoi, Short) == Handled(HttpMachine.Popped(q, q.cursor + 1, Short), q.input[..q.cursor], atoi);
    }
  }

  lemma TokenDoes(m: Machine, atoi: Atoi, blockSize: nat)
    requires Scanning(m.state) && m.cursor <= |m.input|
    ensures Does(TokenOps(m), AsPlain(m), AsPlain(TokenTurn(m, atoi, Short).0), blockSize)
  {
    TokenPlain(m, atoi);
    OpsDo(m, blockSize);
  }

  lemma OpsDo(m: Machine, blockSize: nat)
    requires Scanning(m.state) && m.cursor <= |m.input|
    ensures var q := Scanned(m); var found := q.cursor < |m.input| && m.input[q.cursor] == Success(m.state);
            Does(TokenOps(m), AsPlain(m), if found then AsPlain(HttpMachine.Popped(q, q.cursor + 1, Short)) else AsPlain(q), blockSize)
  {
    var q := Scanned(m);
    var ops := Advances(q.cursor - m.cursor);
    ScanDoes(m, blockSize);
    if q.cursor < |m.input| && m.input[q.cursor] == Success(m.state) {
      ThenPop(ops, m, q, q.cursor + 1, blockSize);
    } else {
      assert ops + [] == ops;
    }
  }

  lemma SpacesDo(m: Machine, atoi: Atoi, blockSize: nat)
    requires SkipsSpaces(m.state) && m.cursor <= |m.input|
    ensures var (q, result) := SpacesTurn(m, atoi, Short); Does(SpacesOps(m), AsPlain(m), AsPlain(q), blockSize)
  {
    var q := Eaten(m);
    var ops := Pops(Blanks(m.input));
    PopsDo(m, Blanks(m.input), blockSize);
    if q.input == [] {
      assert SpacesTurn(m, atoi, Short) == (q, NotFound) && ops + [] == ops;
    } else if q.state.PreKey? && q.input[0] == '\r' {
      assert SpacesTurn(m, atoi, Short) == (HttpMachine.Popped(q, 1, Short).(state := HeadersEndEol), Found);
      ThenPop(ops, m, q, 1, blockSize);
    } else {
      var s := q.(state := AfterSpaces(q.state));
      assert SpacesTurn(m, atoi, Short) == TokenTurn(s, atoi, Short);
      TokenDoes(s, atoi, blockSize);
      DoesBoth(ops, TokenOps(s), AsPlain(m), AsPlain(q), AsPlain(TokenTurn(s, atoi, Short).0), blockSize);
    }
  }

  lemma NewlineDoes(m: Machine, blockSize: nat)
    requires ExpectsNewline(m.state) && m.cursor <= |m.input|
    ensures var (q, result) := NewlineTurn(m, Short); Does(NewlineOps(m), AsPlain(m), AsPlain(q), blockSize)
  {
    if m.input == [] {
      DoesNothing(AsPlain(m), blockSize);
    } else {
      PopDoes(m, 1, blockSize);
      assert AsPlain(NewlineTurn(m, Short).0) == AsPlain(HttpMachine.Popped(m, 1, Short));
    }
  }

  lemma DataDoes(m: Machine, blockSize: nat)
    requires m.state.Data? && m.cursor <= |m.input|
    ensures var (q, result) := DataTurn(m, Short); Does(DataOps(m), AsPlain(m), AsPlain(q), blockSize)
  {
    if !m.handler.Live? {
      DoesNothing(AsPlain(m), blockSize);
    } else {
      var n := if |m.input| > m.dataLeft then m.dataLeft else |m.input|;
      PopDoes(m, n, blockSize);
      assert AsPlain(DataTurn(m, Short).0) == AsPlain(HttpMachine.Popped(m, n, Short));
    }
  }

  /** A turn of the parser does to its input what the buffer operations of that turn do to a buffer. */
  lemma TurnDoes(m: Machine, atoi: Atoi, blockSize: nat)
    requires m.cursor <= |m.input|
    ensures var (q, result) := Turn(m, atoi, Short); Does(TurnOps(m), AsPlain(m), AsPlain(q), blockSize)
  {
    if SkipsSpaces(m.state) {
      SpacesDo(m, atoi, blockSize);
    } else if Scanning(m.state) {
      TokenDoes(m, atoi, blockSize);
    } else if ExpectsNewline(m.state) {
      NewlineDoes(m, blockSize);
    } else {
      DataDoes(m, blockSize);
    }
  }

  lemma {:induction false} LoopDoes(m: Machine, atoi: Atoi, blockSize: nat)
    requires m.cursor <= |m.input|
    ensures var (q, result) := Loop(m, atoi, Short); Does(LoopOps(m, atoi), AsPlain(m), AsPlain(q), blockSize)
    decreases |m.input|, Rank(m.state)
  {
    TurnDoes(m, atoi, blockSize);
    var (q, result) := Turn(m, atoi, Short);
    if result.Found? && q.input != [] {
      LoopDoes(q, atoi, blockSize);
      DoesBoth(TurnOps(m), LoopOps(q, atoi), AsPlain(m), AsPlain(q), AsPlain(Loop(q, atoi, Short).0), blockSize);
    } else {
      assert TurnOps(m) + [] == TurnOps(m);
    }
  }

  lemma ReceivedDoes(m: Machine, chunk: Bytes, atoi: Atoi, blockSize: nat)
    requires m.cursor <= |m.input|
    ensures var (q, outcome) := Received(m, chunk, atoi, Short); Does(ReceivedOps(m, chunk, atoi), AsPlain(m), AsPlain(q), blockSize)
  {
    var n := m.(input := m.input + chunk);
    AppendDoes(m, chunk, blockSize);
    LoopDoes(n, atoi, blockSize);
    var (q, result) := Loop(n, atoi, Short);
    FinishedAside(q, result);
    DoesBoth([Op.AppendText(0, chunk)], LoopOps(n, atoi), AsPlain(m), AsPlain(n), AsPlain(q), blockSize);
  }

  lemma FinishedAside(m: Machine, result: ProcessResult)
    ensures AsPlain(Finished(m, result).0) == AsPlain(m)
  {
  }

  lemma {:induction false} FedDoes(m: Machine, chunks: seq<Bytes>, atoi: Atoi, blockSize: nat)
    requires m.cursor <= |m.input|
    ensures Does(FedOps(m, chunks, atoi), AsPlain(m), AsPlain(FedOn(m, chunks, atoi, Short)), blockSize)
    decreases |chunks|
  {
    if chunks == [] {
      DoesNothing(AsPlain(m), blockSize);
    } else {
      ReceivedDoes(m, chunks[0], atoi, blockSize);
      var (q, outcome) := Received(m, chunks[0], atoi, Short);
      var ops := ReceivedOps(m, chunks[0], atoi);
      if outcome.Faulted? {
        assert ops + [] == ops;
      } else {
        FedDoes(q, chunks[1..], atoi, blockSize);
        DoesBoth(ops, FedOps(q, chunks[1..], atoi), AsPlain(m), AsPlain(q), AsPlain(FedOn(q, chunks[1..], atoi, Short)), blockSize);
      }
    }
  }

  // ---------- which operations they are ----------

  /** One that takes bytes from the front, or moves the iterator on by one. */
  predicate Inner(op: Op) {
    op == Op.Advance(0, 0, 1) || (op.Pop? && op.b == 0 && op.length < WIDTH)
  }

  predicate AllInner(ops: seq<Op>) {
    forall i :: 0 <= i < |ops| ==> Inner(ops[i])
  }

  lemma TokenInner(m: Machine)
    requires Scanning(m.state) && m.cursor <= |m.input|
    ensures AllInner(TokenOps(m))
  {
  }

  lemma SpacesInner(m: Machine)
    requires SkipsSpaces(m.state) && m.cursor <= |m.input|
    ensures AllInner(SpacesOps(m))
  {
    var q := Eaten(m);
    if q.input != [] && !(q.state.PreKey? && q.input[0] == '\r') {
      TokenInner(q.(state := AfterSpaces(q.state)));
    }
  }

  lemma TurnInner(m: Machine)
    requires m.cursor <= |m.input|
    ensures AllInner(TurnOps(m))
  {
    if SkipsSpaces(m.state) {
      SpacesInner(m);
    } else if Scanning(m.state) {
      TokenInner(m);
    }
  }

  lemma {:induction false} LoopInner(m: Machine, atoi: Atoi)
    requires m.cursor <= |m.input|
    ensures AllInner(LoopOps(m, atoi))
    decreases |m.input|, Rank(m.state)
  {
    TurnInner(m);
    var (q, result) := Turn(m, atoi, Short);
    if result.Found? && q.input != [] {
      LoopInner(q, atoi);
    }
  }

  /** The texts that are appended, in order. */
  function Appended(ops: seq<Op>): seq<Bytes> {
    if ops == [] then [] else TextOf(ops[0]) + Appended(ops[1..])
  }

  function TextOf(op: Op): seq<Bytes> {
    if op.AppendText? then [op.text] else []
  }

  lemma {:induction false} AppendedBoth(ops: seq<Op>, more: seq<Op>)
    ensures Appended(ops + more) == Appended(ops) + Appended(more)
    decreases |ops|
  {
    if ops == [] {
      assert ops + more == more && [] + Appended(more) == Appended(more);
    } else {
      assert (ops + more)[0] == ops[0] && (ops + more)[1..] == ops[1..] + more;
      AppendedBoth(ops[1..], more);
      Grouped(TextOf(ops[0]), Appended(ops[1..]), Appended(more));
    }
  }

  lemma Grouped(a: seq<Bytes>, b: seq<Bytes>, c: seq<Bytes>)
    ensures a + (b + c) == a + b + c
  {
  }

  lemma OneMore(chunks: seq<Bytes>, n: nat)
    requires n < |chunks|
    ensures [chunks[0]] + chunks[1..][..n] == chunks[..n + 1]
  {
  }

  lemma {:induction false} InnerAppends(ops: seq<Op>)
    requires AllInner(ops)
    ensures Appended(ops) == []
    decreases |ops|
  {
    if ops != [] {
      assert Inner(ops[0]) && forall i :: 0 <= i < |ops[1..]| ==> ops[1..][i] == ops[i + 1];
      InnerAppends(ops[1..]);
    }
  }

  /** How many chunks are received before a bad pointer is followed, with the one that leads to it. */
  function Delivered(m: Machine, chunks: seq<Bytes>, atoi: Atoi): (n: nat)
    requires m.cursor <= |m.input|
    ensures n <= |chunks|
    decreases |chunks|
  {
    if chunks == [] then 0
    else
      var (q, outcome) := Received(m, chunks[0], atoi, Short);
      if outcome.Faulted? then 1 else 1 + Delivered(q, chunks[1..], atoi)
  }

  lemma {:induction false} FedAppends(m: Machine, chunks: seq<Bytes>, atoi: Atoi)
    requires m.cursor <= |m.input|
    ensures Appended(FedOps(m, chunks, atoi)) == chunks[..Delivered(m, chunks, atoi)]
    decreases |chunks|
  {
    if chunks != [] {
      var (q, outcome) := Received(m, chunks[0], atoi, Short);
      ReceivedAppends(m, chunks[0], atoi);
      if !outcome.Faulted? {
        FedAppends(q, chunks[1..], atoi);
        AppendedBoth(ReceivedOps(m, chunks[0], atoi), FedOps(q, chunks[1..], atoi));
        OneMore(chunks, Delivered(q, chunks[1..], atoi));
      } else {
        assert ReceivedOps(m, chunks[0], atoi) + [] == ReceivedOps(m, chunks[0], atoi);
      }
    }
  }

  lemma ReceivedAppends(m: Machine, chunk: Bytes, atoi: Atoi)
    requires m.cursor <= |m.input|
    ensures Appended(ReceivedOps(m, chunk, atoi)) == [chunk]
  {
    var ops := LoopOps(m.(input := m.input + chunk), atoi);
    LoopInner(m.(input := m.input + chunk), atoi);
    InnerAppends(ops);
    AppendedOne(chunk, ops);
  }

  lemma AppendedOne(chunk: Bytes, more: seq<Op>)
    requires Appended(more) == []
    ensures Appended([Op.AppendText(0, chunk)] + more) == [chunk]
  {
    assert ([Op.AppendText(0, chunk)] + more)[1..] == more;
  }

  // ---------- from no buffer at all ----------

  /** All that the source calls on the buffer, from its construction on. */
  function InputOps(chunks: seq<Bytes>, atoi: Atoi): seq<Op> {
    [New, Register(0)] + FedOps(NEW_MACHINE, chunks, atoi)
  }

  /** Over all chunks, the operations that the source calls leave just the input that the parser has and the offset that
      its cursor has, and append nothing but the chunks delivered, in order. */
  lemma InputIsBuffer(chunks: seq<Bytes>, atoi: Atoi, blockSize: nat)
    ensures AllLegal(InputOps(chunks, atoi), [], blockSize)
    ensures ApplyAll([], InputOps(chunks, atoi), blockSize) == [AsPlain(FedOn(NEW_MACHINE, chunks, atoi, Short))]
    ensures Appended(InputOps(chunks, atoi)) == chunks[..Delivered(NEW_MACHINE, chunks, atoi)]
  {
    FedDoes(NEW_MACHINE, chunks, atoi, blockSize);
    FedAppends(NEW_MACHINE, chunks, atoi);
    BeginDoes(blockSize);
    RunThrough([New, Register(0)], FedOps(NEW_MACHINE, chunks, atoi), [], blockSize);
    AppendedBoth([New, Register(0)], FedOps(NEW_MACHINE, chunks, atoi));
  }

  lemma BeginDoes(blockSize: nat)
    ensures AllLegal([New, Register(0)], [], blockSize) && ApplyAll([], [New, Register(0)], blockSize) == [AsPlain(NEW_MACHINE)]
    ensures Appended([New, Register(0)]) == []
  {
    var p, q := Plain([], []), Plain([], [0]);
    assert [New, Register(0)][1..] == [Register(0)] && [Register(0)][1..] == [];
    assert [] + [p] == [p] && [p][0 := q] == [q] && [] + [0] == [0];
    assert Apply([], New, blockSize) == [p] && Apply([p], Register(0), blockSize) == [q];
  }

  // ---------- on shared blocks ----------

  /** A call on the parser's buffer, if no chunk is empty. */
  predicate Call(op: Op) {
    KeepsFront(op) && op.b == 0
  }

  predicate AllCalls(ops: seq<Op>) {
    forall i :: 0 <= i < |ops| ==> Call(ops[i])
  }

  lemma {:induction false} FedCalls(m: Machine, chunks: seq<Bytes>, atoi: Atoi)
    requires m.cursor <= |m.input| && NoneEmpty(chunks)
    ensures AllCalls(FedOps(m, chunks, atoi))
    decreases |chunks|
  {
    if chunks != [] {
      var (q, outcome) := Received(m, chunks[0], atoi, Short);
      ReceivedCalls(m, chunks[0], atoi);
      if !outcome.Faulted? {
        FedCalls(q, chunks[1..], atoi);
      }
    }
  }

  lemma ReceivedCalls(m: Machine, chunk: Bytes, atoi: Atoi)
    requires m.cursor <= |m.input| && chunk != []
    ensures AllCalls(ReceivedOps(m, chunk, atoi))
  {
    LoopInner(m.(input := m.input + chunk), atoi);
  }

  /** The buffer stays one that agrees with bytes and a cursor, whose first byte can be read from its first block. */
  ghost predicate Holds(storage: Storage, p: Plain)
    reads storage
  {
    Agrees(storage.stores, storage.chains, storage.blockSize, [p]) && Peekable(storage.chains[0].blocks)
  }

  method CallOne(storage: Storage, op: Op, ghost p: Plain)
    requires Holds(storage, p) && Legal(op, [p], storage.blockSize) && Call(op)
    modifies storage
    ensures Holds(storage, Apply([p], op, storage.blockSize)[0])
  {
    Execute(storage, op, [p]);
    assert [Apply([p], op, storage.blockSize)[0]] == Apply([p], op, storage.blockSize);
  }

  method Begin(blockSize: nat) returns (storage: Storage)
    requires 0 < blockSize < 0x10000
    ensures fresh(storage) && storage.blockSize == blockSize && Holds(storage, AsPlain(NEW_MACHINE))
  {
    var p := Plain([], []);
    storage := new Storage(blockSize);
    assert Apply([], New, blockSize) == [p] && storage.chains == [];
    Execute(storage, New, []);
    assert storage.chains == [Chain([], 0, [])];
    var q := Plain([], [0]);
    assert [] + [0] == [0] && [p][0 := q] == [q] && AsPlain(NEW_MACHINE) == q;
    assert Apply([p], Register(0), blockSize) == [q];
    Execute(storage, Register(0), [p]);
  }

  /** What is left to do leads on. */
  predicate LeadsOn(ops: seq<Op>, p: Plain, r: Plain, blockSize: nat) {
    AllCalls(ops) && Does(ops, p, r, blockSize)
  }

  lemma LeadsFrom(ops: seq<Op>, p: Plain, r: Plain, blockSize: nat)
    requires LeadsOn(ops, p, r, blockSize) && ops != []
    ensures Legal(ops[0], [p], blockSize) && Call(ops[0])
    ensures LeadsOn(ops[1..], Apply([p], ops[0], blockSize)[0], r, blockSize)
  {
    var q := Apply([p], ops[0], blockSize);
    assert q == [q[0]];
  }

  /** The source's calls for non-empty chunks, carried out on blocks that may share arrays. `Holds` is kept by each of
      them, so that `peek`, which reads the first block unchecked, never reads beyond it while there is input. */
  method Feed(chunks: seq<Bytes>, atoi: Atoi, blockSize: nat) returns (storage: Storage)
    requires 0 < blockSize < 0x10000 && NoneEmpty(chunks)
    ensures fresh(storage) && Holds(storage, AsPlain(FedOn(NEW_MACHINE, chunks, atoi, Short)))
  {
    storage := Begin(blockSize);
    var ops := FedOps(NEW_MACHINE, chunks, atoi);
    FedDoes(NEW_MACHINE, chunks, atoi, blockSize);
    FedCalls(NEW_MACHINE, chunks, atoi);
    ghost var p, end := AsPlain(NEW_MACHINE), AsPlain(FedOn(NEW_MACHINE, chunks, atoi, Short));
    var i := 0;
    assert ops[0..] == ops;
    while i < |ops|
      invariant i <= |ops| && fresh(storage) && storage.blockSize == blockSize
      invariant Holds(storage, p) && LeadsOn(ops[i..], p, end, blockSize)
    {
      LeadsFrom(ops[i..], p, end, blockSize);
      assert ops[i..][1..] == ops[i + 1..];
      CallOne(storage, ops[i], p);
      p := Apply([p], ops[i], blockSize)[0];
      i := i + 1;
    }
  }

  /** `equals` on a C string, which asks whether `compare` gives 0, is the test of the parser. */
  method Equals(storage: Storage, b: nat, text: Bytes) returns (equal: bool)
    requires storage.Has(b)
    ensures equal == StartsWith(storage.Contents(b), text)
  {
    var result := storage.Compare(b, text);
    equal := result == 0;
  }

  /** What it means to hold: the byte that `peek` reads is the first of the input. */
  lemma PeekIsFirst(storage: Storage, p: Plain)
    requires Holds(storage, p) && p.text != []
    ensures var blocks := storage.chains[0].blocks; blocks != [] && 0 < blocks[0].Size()
    ensures var k := storage.chains[0].blocks[0]; BlockOk(storage.stores, k) && storage.stores[k.store].data[k.start] == p.text[0]
  {
    var blocks := storage.chains[0].blocks;
    assert Stands(storage.stores, storage.chains[0], p);
    assert Text(storage.stores, blocks) == View(storage.stores, blocks[0]) + Text(storage.stores, blocks[1..]);
  }
}
