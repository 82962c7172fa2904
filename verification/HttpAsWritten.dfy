/** What the parser's promises become with the 16-bit pops of the source. */
module HttpAsWritten {
  import opened HttpParser
  import opened HttpMachine
  import opened HttpTheorems
  import opened HttpRefinement
  import opened HttpProtocol
  import opened HttpTokens

  // ---------- runs ----------

  /** Every chunk that is delivered leads to a narrow run. */
  predicate AllNarrow(c: Conn, chunks: seq<Bytes>, atoi: Atoi)
    decreases |chunks|
  {
    chunks == [] || !c.Open()
    || (Narrow(c.parser, c.rest + chunks[0], atoi) && AllNarrow(Feed(c, chunks[0], atoi), chunks[1..], atoi))
  }

  /** Every turn of the source is the one that is meant. */
  predicate SameAll(m: Machine, chunks: seq<Bytes>, atoi: Atoi)
    requires m.cursor <= |m.input|
    decreases |chunks|
  {
    chunks == [] || m.closed
    || (SameLoop(m.(input := m.input + chunks[0]), atoi) && SameAll(Received(m, chunks[0], atoi, Short).0, chunks[1..], atoi))
  }

  lemma Extended(m: Machine, chunk: Bytes)
    requires m.cursor <= |m.input|
    ensures var n := m.(input := m.input + chunk);
            AsParser(n, Running) == AsParser(m, Running) && Unscanned(n) == Unscanned(m) + chunk
  {
    var n := m.(input := m.input + chunk);
    assert n.input[..n.cursor] == m.input[..m.cursor] && n.input[n.cursor..] == m.input[m.cursor..] + chunk;
  }

  /** Over all chunks: the source does what is meant, turn by turn, exactly when all runs are narrow. */
  lemma {:induction false} SameAllIffNarrow(m: Machine, chunks: seq<Bytes>, atoi: Atoi)
    requires Settled(m) && NoneEmpty(chunks)
    ensures SameAll(m, chunks, atoi) <==> AllNarrow(AsConn(m), chunks, atoi)
    decreases |chunks|
  {
    if chunks != [] && !m.closed {
      Extended(m, chunks[0]);
      SameIffNarrow(m.(input := m.input + chunks[0]), atoi);
      if Narrow(AsParser(m, Running), Unscanned(m) + chunks[0], atoi) {
        NarrowFeed(m, chunks[0], atoi);
        SameAllIffNarrow(Received(m, chunks[0], atoi, Short).0, chunks[1..], atoi);
      }
    }
  }

  /** What has been looked at, and what may still have to be, was received. */
  predicate Account(m: Machine, received: nat) {
    m.examined + (if m.closed then 0 else |m.input| - m.cursor) <= received
  }

  lemma FeedAccount(m: Machine, chunk: Bytes, atoi: Atoi, received: nat)
    requires Ready(m) && chunk != [] && Narrow(AsParser(m, Running), Unscanned(m) + chunk, atoi) && Account(m, received)
    ensures Account(Received(m, chunk, atoi, Short).0, received + |chunk|)
  {
    NarrowFeed(m, chunk, atoi);
    LoopLinear(m.(input := m.input + chunk), atoi);
  }

  /** As long as runs are narrow, chunk after chunk, the source is the parser that is meant, and it looks at no more
      bytes than it has received. */
  lemma {:induction false} NarrowChunks(m: Machine, chunks: seq<Bytes>, atoi: Atoi, received: nat)
    requires Settled(m) && NoneEmpty(chunks) && AllNarrow(AsConn(m), chunks, atoi) && Account(m, received)
    ensures var (q, n) := ReceivedAll(m, chunks, atoi, Short);
            && Settled(q) && (n < |chunks| ==> q.closed) && Account(q, received + |Concat(chunks)|)
            && Conn(AsConn(q).parser, AsConn(q).rest + Concat(chunks[n..])) == FeedAll(AsConn(m), chunks, atoi)
    decreases |chunks|
  {
    if chunks == [] {
      assert AsConn(m).rest + Concat(chunks[0..]) == AsConn(m).rest;
    } else if m.closed {
      assert chunks[0..] == chunks;
    } else {
      var q := Received(m, chunks[0], atoi, Short).0;
      NarrowFeed(m, chunks[0], atoi);
      FeedAccount(m, chunks[0], atoi, received);
      NarrowChunks(q, chunks[1..], atoi, received + |chunks[0]|);
      var (r, n) := ReceivedAll(q, chunks[1..], atoi, Short);
      assert chunks[1..][n..] == chunks[n + 1..];
    }
  }

  // ---------- chunking ----------

  /** A narrow run is narrow in two parts. */
  lemma {:induction false} NarrowSplit(p: Parser, a: Bytes, b: Bytes, atoi: Atoi)
    requires Narrow(p, a + b, atoi)
    ensures Narrow(p, a, atoi) && (Run(p, a, atoi).0.status.Running? ==> Narrow(Run(p, a, atoi).0, b, atoi))
    decreases |a|, if p.status.Running? then 1 else 0
  {
    if a == [] {
      assert a + b == b;
    } else if p.status.Running? {
      var (q, v) := Step(p, a, atoi);
      assert (a + b)[1..] == a[1..] + b && (a + b)[0] == a[0];
      assert Step(p, a + b, atoi) == (q, v + b);
      NarrowSplit(q, v, b, atoi);
    }
  }

  lemma {:induction false} NarrowInChunks(c: Conn, chunks: seq<Bytes>, atoi: Atoi)
    requires c.Open() && chunks != [] && Narrow(c.parser, c.rest + Concat(chunks), atoi) && !EndsBeforeLast(c, chunks, atoi)
    ensures AllNarrow(c, chunks, atoi)
    decreases |chunks|
  {
    var tail := chunks[1..];
    assert c.rest + Concat(chunks) == c.rest + chunks[0] + Concat(tail);
    NarrowSplit(c.parser, c.rest + chunks[0], Concat(tail), atoi);
    var f := Feed(c, chunks[0], atoi);
    if tail != [] && Run(c.parser, c.rest + chunks[0], atoi).0.status.Running? {
      assert f.rest + Concat(tail) == Concat(tail);
      NarrowInChunks(f, tail, atoi);
    }
  }

  /** Where the machine is after all chunks, with what it was not given. */
  function Reached(m: Machine, chunks: seq<Bytes>, atoi: Atoi): Conn
    requires m.cursor <= |m.input|
  {
    var (q, n) := ReceivedAll(m, chunks, atoi, Short);
    Conn(AsConn(q).parser, AsConn(q).rest + Concat(chunks[n..]))
  }

  /** Chunk independence of the source. If the bytes in one piece make a narrow run, and no request is complete before
      the last chunk, chunks do not matter; and if the chunks are narrow too, they do matter otherwise. */
  lemma ChunksAsWritten(m: Machine, chunks: seq<Bytes>, atoi: Atoi)
    requires Ready(m) && chunks != [] && NoneEmpty(chunks) && Narrow(AsParser(m, Running), Unscanned(m) + Concat(chunks), atoi)
    ensures !EndsBeforeLast(AsConn(m), chunks, atoi) ==>
              AllNarrow(AsConn(m), chunks, atoi) && Reached(m, chunks, atoi) == AsConn(Received(m, Concat(chunks), atoi, Short).0)
    ensures AllNarrow(AsConn(m), chunks, atoi) ==>
              (Reached(m, chunks, atoi) == AsConn(Received(m, Concat(chunks), atoi, Short).0) <==> !EndsBeforeLast(AsConn(m), chunks, atoi))
  {
    var c := AsConn(m);
    assert Concat(chunks) == chunks[0] + Concat(chunks[1..]);
    NarrowFeed(m, Concat(chunks), atoi);
    ChunkIndependence(c, chunks, atoi);
    if !EndsBeforeLast(c, chunks, atoi) {
      NarrowInChunks(c, chunks, atoi);
    }
    if AllNarrow(c, chunks, atoi) {
      NarrowChunks(m, chunks, atoi, m.examined + |m.input|);
    }
  }

  lemma NewReaches(chunks: seq<Bytes>, atoi: Atoi)
    requires NoneEmpty(chunks) && AllNarrow(Conn(INITIAL, []), chunks, atoi)
    ensures Reached(NEW_MACHINE, chunks, atoi) == FeedAll(Conn(INITIAL, []), chunks, atoi)
  {
    NewIsReady();
    NarrowChunks(NEW_MACHINE, chunks, atoi, 0);
  }

  /** What handlers are told is a prefix of the reference parse, and going on with what is left gives that parse. */
  lemma PrefixAsWritten(chunks: seq<Bytes>, atoi: Atoi)
    requires NoneEmpty(chunks) && AllNarrow(Conn(INITIAL, []), chunks, atoi)
    ensures var q, all := ReceivedAll(NEW_MACHINE, chunks, atoi, Short).0, Drain(Conn(INITIAL, Concat(chunks)), atoi);
            q.log <= all.parser.log && Drain(Reached(NEW_MACHINE, chunks, atoi), atoi) == all
  {
    NewReaches(chunks, atoi);
    EventsArePrefix(chunks, atoi);
    KeepAliveRun(Conn(INITIAL, []), chunks, atoi);
    assert [] + Concat(chunks) == Concat(chunks);
  }

  // ---------- the cursor ----------

  /** The cursor has passed no byte that ends the token, and is at the front where no token is read. */
  predicate Clean(m: Machine) {
    m.cursor <= |m.input| && CleanToken(AsParser(m, Running))
  }

  lemma CursorAsWritten(m: Machine, chunks: seq<Bytes>, atoi: Atoi)
    requires Settled(m) && Clean(m) && NoneEmpty(chunks) && AllNarrow(AsConn(m), chunks, atoi)
    ensures Clean(ReceivedAll(m, chunks, atoi, Short).0)
  {
    NarrowChunks(m, chunks, atoi, m.examined + |m.input|);
    CursorPassesNoTerminator(AsConn(m), chunks, atoi);
  }

  lemma HandledClean(m: Machine, region: Bytes, atoi: Atoi)
    requires Scanning(m.state) && m.cursor <= |m.input| && Clean(m)
    ensures var (q, result) := Handled(m, region, atoi); Clean(q) <==> !(result.Found? && 0 < m.cursor)
  {
  }

  /** The cursor in the token that is left where a pop is cut. */
  lemma PoppedClean(m: Machine, pops: Pops)
    requires Scanning(m.state) && m.cursor < |m.input| && Clean(m)
    ensures var q := Popped(m, m.cursor + 1, pops);
            Clean(q) && (0 < q.cursor <==> pops.Short? && WIDTH <= m.cursor + 1)
  {
  }

  lemma TokenClean(m: Machine, atoi: Atoi)
    requires Scanning(m.state) && Clean(m)
    ensures var (q, result) := TokenTurn(m, atoi, Short); Clean(q) <==> !(result.Found? && WideToken(m))
  {
    var q := Scanned(m);
    ScannedClean(m);
    if q.cursor == |q.input| {
      assert TokenTurn(m, atoi, Short) == (q, NotFound);
    } else if q.input[q.cursor] != Success(m.state) {
      assert TokenTurn(m, atoi, Short) == (q, Error);
    } else {
      PoppedClean(q, Short);
      HandledClean(Popped(q, q.cursor + 1, Short), q.input[..q.cursor], atoi);
      assert TokenTurn(m, atoi, Short) == Handled(Popped(q, q.cursor + 1, Short), q.input[..q.cursor], atoi);
    }
  }

  lemma ScannedClean(m: Machine)
    requires Scanning(m.state) && Clean(m)
    ensures Clean(Scanned(m))
  {
  }

  /** A turn leaves the cursor where it should be exactly if it does not find a token and pop too little of it. */
  lemma CursorTurn(m: Machine, atoi: Atoi)
    requires Clean(m)
    ensures var (q, result) := Turn(m, atoi, Short); Clean(q) <==> !(result.Found? && WideTurn(m))
  {
    if Scanning(m.state) {
      TokenClean(m, atoi);
    } else if SkipsSpaces(m.state) {
      var q := Eaten(m);
      if q.input != [] && !(q.state.PreKey? && q.input[0] == '\r') {
        TokenClean(q.(state := AfterSpaces(q.state)), atoi);
      }
    }
  }

  // ---------- what is narrow ----------

  /** As long as the buffer holds fewer than 65536 bytes, every run is narrow. */
  lemma {:induction false} SmallIsNarrow(p: Parser, w: Bytes, atoi: Atoi)
    requires |p.token| + |w| < WIDTH
    ensures Narrow(p, w, atoi)
    decreases |w|, if p.status.Running? then 1 else 0
  {
    if w != [] && p.status.Running? {
      SmallIsNarrow(Step(p, w, atoi).0, Step(p, w, atoi).1, atoi);
    }
  }

  /** In chunks of any sizes below 65536 the runs of a request are narrow exactly if its tokens fit, however long its
      body is. */
  lemma {:induction false} FitsInChunks(p: Parser, chunks: seq<Bytes>, atoi: Atoi)
    requires p.status.Running? && ChunksFit(chunks) && !EndsBeforeLast(Conn(p, []), chunks, atoi)
    ensures AllNarrow(Conn(p, []), chunks, atoi) <==> TokensPass(Fits, p, Concat(chunks), atoi)
    decreases |chunks|
  {
    if chunks != [] {
      var tail := chunks[1..];
      PassSplit(Fits, p, chunks[0], Concat(tail), atoi);
      FitsIsNarrow(p, chunks[0], atoi);
      assert [] + chunks[0] == chunks[0];
      var f := Feed(Conn(p, []), chunks[0], atoi);
      if Run(p, chunks[0], atoi).0.status.Running? {
        assert f == Conn(f.parser, []);
        FitsInChunks(f.parser, tail, atoi);
      }
    }
  }

  // ---------- requests written out ----------

  /** A request in chunks shorter than 65536 bytes is parsed by the source as is meant, turn by turn, exactly if its
      tokens are shorter than 65535 bytes. */
  lemma RequestAsWritten(m: Message, chunks: seq<Bytes>, atoi: Atoi)
    requires WellFormed(m, atoi) && ChunksFit(chunks) && Concat(chunks) == Text(m)
    ensures SameAll(NEW_MACHINE, chunks, atoi) <==> MessagePasses(Fits, m)
    ensures AllNarrow(Conn(INITIAL, []), chunks, atoi) <==> MessagePasses(Fits, m)
  {
    var c := Conn(INITIAL, []);
    NewIsReady();
    assert [] + Concat(chunks) == Text(m);
    PassMessage(Fits, m, atoi);
    RunMessage(INITIAL, m, [], atoi);
    assert Text(m) + [] == Text(m);
    OneRequest(c, chunks, atoi);
    FitsInChunks(INITIAL, chunks, atoi);
    SameAllIffNarrow(NEW_MACHINE, chunks, atoi);
  }

  /** Then the round trip holds of the source. */
  lemma RoundTripAsWritten(m: Message, chunks: seq<Bytes>, atoi: Atoi)
    requires WellFormed(m, atoi) && MessagePasses(Fits, m) && ChunksFit(chunks) && Concat(chunks) == Text(m)
    ensures var (q, n) := ReceivedAll(NEW_MACHINE, chunks, atoi, Short);
            && n == |chunks| && q.log == Events(m) && q.input[q.cursor..] == [] && q.closed == !KeepsAlive(m) && q.examined <= |Text(m)|
  {
    RequestAsWritten(m, chunks, atoi);
    RoundTrip(m, chunks, atoi);
    NewIsReady();
    AllRead(NEW_MACHINE, chunks, atoi);
    assert NoneEmpty(chunks);
  }

  /** The versions themselves: after a request of version 1.1 the connection stays open, after one of version 1.0 it closes. */
  lemma VersionsDecide(chunks: seq<Bytes>, newer: bool, atoi: Atoi)
    requires ChunksFit(chunks) && Concat(chunks) == "GET / " + (if newer then "HTTP/1.1" else "HTTP/1.0") + "\r\n\r\n"
    ensures var (q, n) := ReceivedAll(NEW_MACHINE, chunks, atoi, Short); n == |chunks| && q.input[q.cursor..] == [] && q.closed == !newer
  {
    var version := if newer then "HTTP/1.1" else "HTTP/1.0";
    var m := Message("GET", "/", version, [], []);
    PlainRequest(version, atoi);
    assert version[7] == if newer then '1' else '0';
    assert KeepsAlive(m) == newer;
    RoundTripAsWritten(m, chunks, atoi);
  }

  /** A request with nothing but its line. */
  lemma PlainRequest(version: Bytes, atoi: Atoi)
    requires version == "HTTP/1.0" || version == "HTTP/1.1"
    ensures var m := Message("GET", "/", version, [], []);
            WellFormed(m, atoi) && MessagePasses(Fits, m) && Text(m) == "GET / " + version + "\r\n\r\n"
  {
    var m := Message("GET", "/", version, [], []);
    var verb, uri := "GET", "/";
    assert Free(verb, ' ', '\r') && Free(uri, ' ', '\r') && Free(version, '\r', ' ') && NoLeadingSpace(verb) && NoLeadingSpace(uri);
    assert Headers([]) == [] && DeclaredLength([], atoi) == 0;
    Spelled(version);
  }

  lemma Spelled(version: Bytes)
    ensures "GET" + " " + ("/" + " " + (version + "\r\n" + ("" + "\r\n" + ""))) == "GET / " + version + "\r\n\r\n"
  {
    assert "GET / " == "GET" + " " + "/" + " " && "\r\n\r\n" == "\r\n" + "\r\n";
  }

  lemma NewIsReady()
    ensures Ready(NEW_MACHINE) && Account(NEW_MACHINE, 0) && AsConn(NEW_MACHINE) == Conn(INITIAL, [])
  {
  }

  /** If nothing is left over by the parser that is meant, the source has read everything, and said the same. */
  lemma AllRead(m: Machine, chunks: seq<Bytes>, atoi: Atoi)
    requires Settled(m) && NoneEmpty(chunks) && AllNarrow(AsConn(m), chunks, atoi) && Account(m, 0)
    requires FeedAll(AsConn(m), chunks, atoi).rest == []
    ensures var (q, n) := ReceivedAll(m, chunks, atoi, Short); var r := FeedAll(AsConn(m), chunks, atoi);
            && n == |chunks| && q.input[q.cursor..] == [] && q.log == r.parser.log && q.closed == !r.Open() && q.examined <= |Concat(chunks)|
  {
    NarrowChunks(m, chunks, atoi, 0);
    ConcatEmpty(chunks[ReceivedAll(m, chunks, atoi, Short).1..]);
  }

  lemma ConcatEmpty(chunks: seq<Bytes>)
    requires NoneEmpty(chunks)
    ensures Concat(chunks) == [] <==> chunks == []
  {
  }

  // ---------- where the two differ ----------

  /** 65535 bytes and the blank that ends them are popped as 0 bytes: the request's method is found, and stays in the input. */
  lemma LongToken(t: Bytes, atoi: Atoi)
    requires |t| == WIDTH - 1 && Free(t, ' ', '\r') && NoLeadingSpace(t)
    ensures var m := NEW_MACHINE.(input := t + " "); var q := Turn(m, atoi, Short).0;
            q.state.PreUri? && q.methodName == t && q.input == t + " " && Turn(m, atoi, Whole).0.input == []
  {
    var m := NEW_MACHINE.(input := t + " ");
    assert m.input[0] == t[0] && m.input[0..] == m.input;
    assert Eaten(m) == m;
    LocatedEnd(t);
    assert m.input[..|t|] == t && m.input[|t| + 1..] == [];
  }

  lemma LocatedEnd(t: Bytes)
    requires Free(t, ' ', '\r')
    ensures Located(t + " ", 0, ' ', '\r') == |t|
  {
    var s := t + " ";
    assert s[|t|] == ' ' && forall i :: 0 <= i < |t| ==> s[i] == t[i] && t[i] in t;
  }

  /** A request with 65536 bytes of its body to come. */
  predicate AtLongBody(m: Machine) {
    Ready(m) && m.state.Data? && m.dataLeft == WIDTH && m.input == []
  }

  lemma ReceivedBody(m: Machine, w: Bytes, atoi: Atoi)
    requires Ready(m) && m.state.Data? && m.input == [] && w != [] && |w| <= m.dataLeft
    ensures var q := m.(input := w[|w| % WIDTH..], log := m.log + Bodies(w), dataLeft := m.dataLeft - |w|);
            Received(m, w, atoi, Short) ==
            if |w| == m.dataLeft then Finished(q.(log := q.log + [End], handler := Missing), RequestEnd) else (q, Done(true))
  {
    assert m.input + w == w;
    BodyTurn(m.(input := w), w);
    DataLoop(m.(input := w), atoi);
  }

  lemma BodyTurn(m: Machine, w: Bytes)
    requires Ready(m) && m.state.Data? && m.input == w && |w| <= m.dataLeft
    ensures var q := m.(input := w[|w| % WIDTH..], log := m.log + Bodies(w), dataLeft := m.dataLeft - |w|);
            DataTurn(m, Short) == if |w| == m.dataLeft then (q.(log := q.log + [End], handler := Missing), RequestEnd) else (q, NotFound)
  {
    assert w[..|w|] == w;
  }

  /** Data is one turn: it is never found. */
  lemma DataLoop(m: Machine, atoi: Atoi)
    requires m.state.Data? && m.cursor <= |m.input|
    ensures Loop(m, atoi, Short) == DataTurn(m, Short)
  {
  }

  /** The body has been read, and some bytes are left. */
  function BodyDone(m: Machine, w: Bytes, rest: Bytes): Machine {
    Finished(m.(input := rest, log := m.log + Bodies(w) + [End], dataLeft := 0, handler := Missing), RequestEnd).0
  }

  lemma LongBodyAtOnce(m: Machine, w: Bytes, atoi: Atoi)
    requires AtLongBody(m) && |w| == WIDTH
    ensures Received(m, w, atoi, Short).0 == BodyDone(m, w, w)
  {
    ReceivedBody(m, w, atoi);
    assert w[|w| % WIDTH..] == w;
  }

  lemma LongBodyInTwo(m: Machine, w: Bytes, k: nat, atoi: Atoi)
    requires AtLongBody(m) && |w| == WIDTH && 0 < k < WIDTH
    ensures Received(Received(m, w[..k], atoi, Short).0, w[k..], atoi, Short).0 == BodyDone(m, w, [])
  {
    var q := m.(log := m.log + Bodies(w[..k]), dataLeft := WIDTH - k);
    ReceivedBody(m, w[..k], atoi);
    assert Received(m, w[..k], atoi, Short).0 == q;
    ReceivedBody(q, w[k..], atoi);
    assert m.log + Bodies(w[..k]) + Bodies(w[k..]) == m.log + Bodies(w);
    assert w[k..][|w[k..]| % WIDTH..] == [];
  }

  /** All of them at once end the request and stay in the input; in two chunks they do not stay. */
  lemma LongBody(m: Machine, w: Bytes, k: nat, atoi: Atoi)
    requires AtLongBody(m) && |w| == WIDTH && 0 < k < WIDTH
    ensures var one, two := Received(m, w, atoi, Short).0, Received(Received(m, w[..k], atoi, Short).0, w[k..], atoi, Short).0;
            one.input == w && one.handler.Missing? && two == one.(input := [])
  {
    LongBodyAtOnce(m, w, atoi);
    LongBodyInTwo(m, w, k, atoi);
  }
}
