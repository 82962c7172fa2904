/**
 A connection that is fed on after it has closed. `close` forgets neither the state nor the handler it deletes, and
 `receive` still reports success when a connection closes after its last request, so that a caller cannot know.
 */
module HttpClosed {
  import opened HttpParser
  import opened HttpMachine
  import opened HttpTheorems
  import opened HttpRefinement
  import opened HttpProtocol
  import opened HttpTokens
  import opened HttpAsWritten
  import opened HttpSafety

  /** How a connection is left when it closes: without a handler after a request or after an error outside one, with a
      deleted one after an error inside a request. */
  lemma ClosedHow(m: Machine, chunk: Bytes, atoi: Atoi)
    requires Attended(m) && !m.closed && chunk != []
    ensures var (q, outcome) := Received(m, chunk, atoi, Short); !outcome.Faulted? && (q.closed ==> ClosedRight(q, outcome))
    ensures var (q, outcome) := Received(m, chunk, atoi, Short);
            Ready(m) && Narrow(AsParser(m, Running), Unscanned(m) + chunk, atoi) && q.closed ==>
              Shape(q) && (outcome == Done(true) ==> q.cursor == 0)
  {
    ReceivedAttended(m, chunk, atoi, Short);
    if Ready(m) && Narrow(AsParser(m, Running), Unscanned(m) + chunk, atoi) {
      ClosedShape(m, chunk, atoi);
    }
  }

  lemma ClosedShape(m: Machine, chunk: Bytes, atoi: Atoi)
    requires Ready(m) && chunk != [] && Narrow(AsParser(m, Running), Unscanned(m) + chunk, atoi)
    ensures var (q, outcome) := Received(m, chunk, atoi, Short);
            q.closed ==> Shape(q) && (outcome == Done(true) ==> q.cursor == 0)
  {
    NarrowFeed(m, chunk, atoi);
    var n := m.(input := m.input + chunk);
    Extended(m, chunk);
    LoopRefines(n, atoi);
    var (q, result) := Loop(n, atoi, Whole);
    FinishedShape(q, result);
  }

  lemma FinishedShape(m: Machine, result: ProcessResult)
    requires AfterTurn(m, result)
    ensures var (q, outcome) := Finished(m, result); q.closed ==> Shape(q) && (outcome == Done(true) ==> q.cursor == 0)
  {
  }

  /** After the last request, more input makes the source follow a null pointer exactly if it waits for data, or gets
      the newline it still waits for. */
  lemma AfterLastRequest(m: Machine, chunk: Bytes, atoi: Atoi)
    requires m.handler.Missing? && m.cursor <= |m.input| && (m.state.HeadersEndEol? || m.state.Data?) && chunk != []
    ensures Received(m, chunk, atoi, Short).1.Faulted? <==> m.state.Data? || (m.input + chunk)[0] == '\n'
  {
  }

  /** All chunks are fed, closed or not, until a bad pointer is followed. */
  predicate FaultsOn(m: Machine, chunks: seq<Bytes>, atoi: Atoi)
    requires m.cursor <= |m.input|
    decreases |chunks|
  {
    chunks != [] && var (q, outcome) := Received(m, chunks[0], atoi, Short); outcome.Faulted? || FaultsOn(q, chunks[1..], atoi)
  }

  /** A connection that closed behind the headers of its last request takes one byte of what is left at each chunk,
      and faults exactly if one of those is a newline. */
  lemma {:induction false} AfterLastRun(m: Machine, chunks: seq<Bytes>, atoi: Atoi)
    requires m.handler.Missing? && m.cursor <= |m.input| && m.state.HeadersEndEol? && NoneEmpty(chunks)
    ensures |chunks| <= |m.input + Concat(chunks)|
    ensures FaultsOn(m, chunks, atoi) <==> NewlineIn(m.input + Concat(chunks), |chunks|)
    decreases |chunks|
  {
    if chunks != [] {
      var w, rest := m.input + chunks[0], Concat(chunks[1..]);
      var (q, outcome) := Received(m, chunks[0], atoi, Short);
      AfterLastRequest(m, chunks[0], atoi);
      assert m.input + Concat(chunks) == [w[0]] + (w[1..] + rest);
      if w[0] != '\n' {
        OneByteTaken(m, chunks[0], atoi);
        AfterLastRun(q, chunks[1..], atoi);
      } else {
        NoneShorter(chunks[1..]);
      }
      NewlineBehind(w[0], w[1..] + rest, |chunks| - 1);
    }
  }

  /** One of the first n bytes is a newline. */
  predicate NewlineIn(s: Bytes, n: nat)
    requires n <= |s|
  {
    exists i :: 0 <= i < n && s[i] == '\n'
  }

  lemma NewlineBehind(c: char, s: Bytes, n: nat)
    requires n <= |s|
    ensures NewlineIn([c] + s, n + 1) <==> c == '\n' || NewlineIn(s, n)
  {
    var t := [c] + s;
    if i :| 0 <= i < n && s[i] == '\n' {
      assert t[i + 1] == '\n';
    }
    assert t[0] == c;
    assert forall i :: 1 <= i < n + 1 ==> t[i] == s[i - 1];
  }

  lemma NoneShorter(chunks: seq<Bytes>)
    requires NoneEmpty(chunks)
    ensures |chunks| <= |Concat(chunks)|
  {
  }

  lemma OneByteTaken(m: Machine, chunk: Bytes, atoi: Atoi)
    requires m.handler.Missing? && m.cursor <= |m.input| && m.state.HeadersEndEol? && chunk != []
    requires (m.input + chunk)[0] != '\n'
    ensures var (q, outcome) := Received(m, chunk, atoi, Short);
            outcome == Done(false) && q.handler.Missing? && q.state.HeadersEndEol? && q.input == (m.input + chunk)[1..]
  {
  }

  lemma RunRequest(m: Message, atoi: Atoi)
    requires WellFormed(m, atoi)
    ensures var (q, r) := Run(INITIAL, Text(m), atoi);
            && r == [] && q.status.Ended? && q.token == [] && q.log == Events(m) && q.keepAlive == KeepsAlive(m)
            && q.state == if m.body == [] then HeadersEndEol else Data
  {
    assert Text(m) + [] == Text(m) && INITIAL.log + Events(m) == Events(m);
    RunMessage(INITIAL, m, [], atoi);
    RunHead(INITIAL, m, [], atoi);
    RunTail(TakeHead(INITIAL, m, atoi), m.body, [], atoi);
  }

  /** A request that does not keep the connection alive leads there, in whatever chunks shorter than 65536 bytes. */
  lemma LastRequest(m: Message, chunks: seq<Bytes>, atoi: Atoi)
    requires WellFormed(m, atoi) && !KeepsAlive(m) && MessagePasses(Fits, m) && ChunksFit(chunks) && Concat(chunks) == Text(m)
    ensures var (q, n) := ReceivedAll(NEW_MACHINE, chunks, atoi, Short);
            && n == |chunks| && q.closed && q.handler.Missing? && q.log == Events(m) && q.input == []
            && q.state == if m.body == [] then HeadersEndEol else Data
  {
    RequestAsWritten(m, chunks, atoi);
    RoundTripAsWritten(m, chunks, atoi);
    NewReaches(chunks, atoi);
    LastFed(m, chunks, atoi);
    NothingLeft(ReceivedAll(NEW_MACHINE, chunks, atoi, Short).0, FeedAll(Conn(INITIAL, []), chunks, atoi).parser);
  }

  lemma LastFed(m: Message, chunks: seq<Bytes>, atoi: Atoi)
    requires WellFormed(m, atoi) && !KeepsAlive(m) && NoneEmpty(chunks) && Concat(chunks) == Text(m)
    ensures var p := FeedAll(Conn(INITIAL, []), chunks, atoi).parser;
            p.status.Closed? && !p.open && p.token == [] && p.state == if m.body == [] then HeadersEndEol else Data
  {
    var c := Conn(INITIAL, []);
    RunRequest(m, atoi);
    RunMessage(INITIAL, m, [], atoi);
    assert [] + Text(m) == Text(m) && Text(m) + [] == Text(m);
    OneRequest(c, chunks, atoi);
    ChunkIndependence(c, chunks, atoi);
  }

  lemma NothingLeft(q: Machine, p: Parser)
    requires q.cursor <= |q.input| && AsConn(q).parser == p && p.token == [] && q.input[q.cursor..] == []
    ensures q.input == [] && q.state == p.state && q.handler.Missing? == !p.open
  {
  }

  /** One byte more is fatal exactly if the request had a body, or the byte is a newline. */
  lemma OneByteMore(m: Message, chunks: seq<Bytes>, x: char, atoi: Atoi)
    requires WellFormed(m, atoi) && !KeepsAlive(m) && MessagePasses(Fits, m) && ChunksFit(chunks) && Concat(chunks) == Text(m)
    ensures var q := ReceivedAll(NEW_MACHINE, chunks, atoi, Short).0;
            Received(q, [x], atoi, Short).1.Faulted? <==> m.body != [] || x == '\n'
  {
    LastRequest(m, chunks, atoi);
    var q := ReceivedAll(NEW_MACHINE, chunks, atoi, Short).0;
    assert q.input + [x] == [x];
    AfterLastRequest(q, [x], atoi);
  }

  lemma OneNewlineMore(atoi: Atoi)
    ensures var q := ReceivedAll(NEW_MACHINE, ["GET / HTTP/1.0\r\n\r\n"], atoi, Short).0;
            q.closed && Received(q, "\n", atoi, Short).1.Faulted?
  {
    var m := Message("GET", "/", "HTTP/1.0", [], []);
    SimpleRequest(m, atoi);
    assert Concat([Text(m)]) == Text(m) + Concat([]);
    LastRequest(m, [Text(m)], atoi);
    OneByteMore(m, [Text(m)], '\n', atoi);
  }

  lemma SimpleRequest(m: Message, atoi: Atoi)
    requires m == Message("GET", "/", "HTTP/1.0", [], [])
    ensures WellFormed(m, atoi) && !KeepsAlive(m) && Text(m) == "GET / HTTP/1.0\r\n\r\n"
  {
  }

  // ---------- after an error ----------

  /** The connection as if it had not closed. */
  function Revived(m: Machine): Machine {
    m.(handler := Live, closed := false)
  }

  /** And as if it had, with its handler deleted or forgotten. */
  function Buried(m: Machine, handler: Handler): Machine {
    m.(handler := handler, closed := true)
  }

  /** The turn uses the handler: for a header, or at or behind the end of the headers. */
  predicate Uses(m: Machine, r: (Machine, ProcessResult)) {
    r.0.log != m.log || r.0.state.Data?
  }

  /** A turn or a loop of a connection whose handler is gone, beside that of an open one: a fault where the handler
      is used, and the same otherwise. */
  predicate Beside(m: Machine, open: (Machine, ProcessResult), dead: (Machine, ProcessResult)) {
    && (if Uses(m, open) then dead.1.Fault? else dead == (Buried(open.0, m.handler), open.1))
    && m.log <= open.0.log && !open.1.Fault? && InRequest(open.0.state) && (open.1.Found? ==> open.0 == Revived(open.0))
  }

  predicate Dead(m: Machine) {
    !m.handler.Live? && m.closed && m.cursor <= |m.input| && InRequest(m.state)
  }

  lemma HandledBuried(m: Machine, region: Bytes, atoi: Atoi)
    requires Dead(m) && Scanning(m.state)
    ensures Beside(m, Handled(Revived(m), region, atoi), Handled(m, region, atoi))
  {
  }

  lemma FoundBuried(m: Machine, atoi: Atoi)
    requires Dead(m) && Finds(m)
    ensures Beside(m, TokenTurn(Revived(m), atoi, Short), TokenTurn(m, atoi, Short))
  {
    var q := Scanned(m);
    assert Scanned(Revived(m)) == Revived(q);
    var s := Popped(q, q.cursor + 1, Short);
    assert Popped(Revived(q), q.cursor + 1, Short) == Revived(s);
    var region := q.input[..q.cursor];
    HandledBuried(s, region, atoi);
    assert TokenTurn(m, atoi, Short) == Handled(s, region, atoi);
    assert TokenTurn(Revived(m), atoi, Short) == Handled(Revived(s), region, atoi);
  }

  lemma TokenBuried(m: Machine, atoi: Atoi)
    requires Dead(m) && Scanning(m.state)
    ensures Beside(m, TokenTurn(Revived(m), atoi, Short), TokenTurn(m, atoi, Short))
  {
    if Finds(m) {
      FoundBuried(m, atoi);
    } else {
      assert Scanned(Revived(m)) == Revived(Scanned(m));
    }
  }

  lemma NewlineBuried(m: Machine)
    requires Dead(m) && ExpectsNewline(m.state) && m.input != []
    ensures Beside(m, NewlineTurn(Revived(m), Short), NewlineTurn(m, Short))
  {
  }

  lemma SpacesBuried(m: Machine, atoi: Atoi)
    requires Dead(m) && SkipsSpaces(m.state)
    ensures Beside(m, SpacesTurn(Revived(m), atoi, Short), SpacesTurn(m, atoi, Short))
  {
    var q := Eaten(m);
    assert Eaten(Revived(m)) == Revived(q);
    if q.input != [] && !(q.state.PreKey? && q.input[0] == '\r') {
      var s := q.(state := AfterSpaces(q.state));
      assert Revived(q).(state := AfterSpaces(q.state)) == Revived(s);
      TokenBuried(s, atoi);
    }
  }

  lemma TurnBuried(m: Machine, atoi: Atoi)
    requires Dead(m) && (ExpectsNewline(m.state) ==> m.input != []) && !m.state.Data?
    ensures Beside(m, Turn(Revived(m), atoi, Short), Turn(m, atoi, Short))
  {
    if SkipsSpaces(m.state) {
      SpacesBuried(m, atoi);
    } else if Scanning(m.state) {
      TokenBuried(m, atoi);
    } else {
      NewlineBuried(m);
    }
  }

  lemma {:induction false} LogGrows(m: Machine, atoi: Atoi)
    requires m.cursor <= |m.input|
    ensures m.log <= Loop(m, atoi, Short).0.log
    decreases |m.input|, Rank(m.state)
  {
    TurnGrows(m, atoi);
    var (q, result) := Turn(m, atoi, Short);
    if result.Found? && q.input != [] {
      LogGrows(q, atoi);
    }
  }

  lemma TokenGrows(m: Machine, atoi: Atoi)
    requires Scanning(m.state) && m.cursor <= |m.input|
    ensures m.log <= TokenTurn(m, atoi, Short).0.log
  {
  }

  lemma TurnGrows(m: Machine, atoi: Atoi)
    requires m.cursor <= |m.input|
    ensures m.log <= Turn(m, atoi, Short).0.log
  {
    if SkipsSpaces(m.state) {
      TokenGrows(Eaten(m).(state := AfterSpaces(m.state)), atoi);
    } else if Scanning(m.state) {
      TokenGrows(m, atoi);
    }
  }

  /** An open connection that has used its handler has used it at the end of the loop. */
  lemma UseStays(m: Machine, q: Machine, atoi: Atoi)
    requires q.cursor <= |q.input| && m.log <= q.log && Uses(m, (q, Found)) && q.handler.Live?
    ensures Uses(m, Loop(q, atoi, Short)) && (q.state.Data? ==> !Loop(q, atoi, Short).1.Fault?)
  {
    LogGrows(q, atoi);
    if q.state.Data? {
      DataLoop(q, atoi);
    }
  }

  lemma {:induction false} LoopBuried(m: Machine, atoi: Atoi)
    requires Dead(m) && (ExpectsNewline(m.state) ==> m.input != []) && !m.state.Data?
    ensures var open := Loop(Revived(m), atoi, Short);
            if Uses(m, open) then Loop(m, atoi, Short).1.Fault? else Loop(m, atoi, Short) == (Buried(open.0, m.handler), open.1)
    decreases |m.input|, Rank(m.state)
  {
    TurnBuried(m, atoi);
    var (q, result) := Turn(Revived(m), atoi, Short);
    if result.Found? && q.input != [] {
      if Uses(m, (q, result)) {
        UseStays(m, q, atoi);
      } else {
        assert Revived(Buried(q, m.handler)) == q;
        LoopBuried(Buried(q, m.handler), atoi);
      }
    }
  }

  lemma BuriedFaults(m: Machine, atoi: Atoi)
    requires Dead(m) && m.input != [] && !m.state.Data?
    ensures var (q, result) := Loop(m, atoi, Short); var (o, r) := Loop(Revived(m), atoi, Short);
            Finished(q, result).1.Faulted? <==> Uses(m, (o, r)) || (m.handler.Deleted? && r.Error?)
  {
    LoopBuried(m, atoi);
    LoopAttended(Revived(m), atoi, Short);
    LoopEnds(Revived(m), atoi);
  }

  lemma {:induction false} LoopEnds(m: Machine, atoi: Atoi)
    requires m.cursor <= |m.input|
    ensures var (q, result) := Loop(m, atoi, Short); result.RequestEnd? ==> |m.log| < |q.log|
    decreases |m.input|, Rank(m.state)
  {
    TurnGrows(m, atoi);
    TurnEnds(m, atoi);
    var (q, result) := Turn(m, atoi, Short);
    if result.Found? && q.input != [] {
      LoopEnds(q, atoi);
    }
  }

  lemma TurnEnds(m: Machine, atoi: Atoi)
    requires m.cursor <= |m.input|
    ensures var (q, result) := Turn(m, atoi, Short); result.RequestEnd? ==> |m.log| < |q.log|
  {
    if Scanning(m.state) || SkipsSpaces(m.state) {
      NoRequestEnd(m, atoi, Short);
    }
  }

  /** When a closed connection follows a bad pointer: exactly if it closed inside a request, and waits for data, or
      would, had it stayed open, use its handler; or meet another error, if the handler has been deleted once. */
  lemma ClosedFaults(m: Machine, chunk: Bytes, atoi: Atoi)
    requires m.closed && m.cursor <= |m.input| && chunk != []
    requires (m.handler.Live? ==> Attended(m)) && (m.handler.Deleted? ==> InRequest(m.state))
    ensures var o := Received(Revived(m), chunk, atoi, Short).0;
            Received(m, chunk, atoi, Short).1.Faulted? <==>
              !m.handler.Live? && InRequest(m.state)
              && (m.state.Data? || o.log != m.log || o.state.Data? || (m.handler.Deleted? && o.closed))
  {
    if m.handler.Live? || !InRequest(m.state) {
      ReceivedAttended(m, chunk, atoi, Short);
    } else if !m.state.Data? {
      var n := m.(input := m.input + chunk);
      BuriedFaults(n, atoi);
      LoopAttended(Revived(n), atoi, Short);
      LoopEnds(Revived(n), atoi);
    }
  }

  /** So one that closed outside a request follows none. */
  lemma ClosedOutside(m: Machine, chunk: Bytes, atoi: Atoi)
    requires m.cursor <= |m.input| && m.handler.Missing? && !InRequest(m.state) && chunk != []
    ensures !Received(m, chunk, atoi, Short).1.Faulted?
  {
    ReceivedAttended(m, chunk, atoi, Short);
  }

  /** But it goes on with the request line that failed: a version makes it a request after all. */
  lemma VersionAfterClosing(m: Machine, v: Bytes, atoi: Atoi)
    requires m.closed && m.handler.Missing? && m.state.Version? && m.input == [] && m.cursor == 0
    requires Free(v, '\r', ' ') && (StartsWith(v, "HTTP/1.0") || StartsWith(v, "HTTP/1.1")) && |v| + 1 < WIDTH
    ensures var (q, outcome) := Received(m, v + "\r", atoi, Short);
            outcome == Done(true) && q.closed && q.handler.Live? && q.log == m.log + [Request(m.methodName, m.uri, v)]
  {
    var w := v + "\r";
    assert m.input + w == w;
    VersionTurn(m.(input := w), v, atoi);
    OnlyTurn(m, w, WithVersion(m, v), atoi);
  }

  lemma OnlyTurn(m: Machine, w: Bytes, q: Machine, atoi: Atoi)
    requires m.cursor <= |m.input + w| && m.cursor <= |m.input| && Scanning(m.state)
    requires TokenTurn(m.(input := m.input + w), atoi, Short) == (q, Found) && q.input == []
    ensures Received(m, w, atoi, Short) == (q, Done(true))
  {
    var n := m.(input := m.input + w);
    assert Turn(n, atoi, Short) == (q, Found);
    assert Loop(n, atoi, Short) == (q, Found);
  }

  function WithVersion(m: Machine, v: Bytes): Machine {
    m.(input := [], cursor := 0, examined := m.examined + |v| + 1, keepAlive := !StartsWith(v, "HTTP/1.0"), handler := Live,
       dataLeft := 0, log := m.log + [Request(m.methodName, m.uri, v)], state := RequestLineEol)
  }

  lemma VersionTurn(m: Machine, v: Bytes, atoi: Atoi)
    requires m.state.Version? && m.input == v + "\r" && m.cursor == 0
    requires Free(v, '\r', ' ') && (StartsWith(v, "HTTP/1.0") || StartsWith(v, "HTTP/1.1")) && |v| + 1 < WIDTH
    ensures TokenTurn(m, atoi, Short) == (WithVersion(m, v), Found)
  {
    LocatedReturn(v);
    assert m.input[..|v|] == v && m.input[|v| + 1..] == [];
    var q := Scanned(m);
    var s := Popped(q, |v| + 1, Short);
    assert s == m.(input := [], cursor := 0, examined := m.examined + |v| + 1);
    assert TokenTurn(m, atoi, Short) == Handled(s, v, atoi);
  }

  /** A request line whose version is not understood. */
  lemma BadLine(verb: Bytes, uri: Bytes, v: Bytes, atoi: Atoi)
    requires verb != [] && Free(verb, ' ', '\r') && NoLeadingSpace(verb) && uri != [] && Free(uri, ' ', '\r') && NoLeadingSpace(uri)
    requires Free(v, '\r', ' ') && NoLeadingSpace(v) && !StartsWith(v, "HTTP/1.0") && !StartsWith(v, "HTTP/1.1")
    ensures Run(INITIAL, verb + " " + (uri + " " + (v + "\r")), atoi) ==
            (INITIAL.(state := Version, methodName := verb, uri := uri, status := Status.Failed), [])
  {
    var w := uri + " " + (v + "\r");
    RunToken(INITIAL, verb, " ", w, atoi);
    var q := INITIAL.(state := PreUri, methodName := verb);
    RunToken(q, uri, " ", v + "\r", atoi);
    var r := q.(state := PreVersion, uri := uri);
    RunToken(r, v, "\r", [], atoi);
    assert v + "\r" + [] == v + "\r";
  }

  /** Closed after "GET / X\r", a connection takes "HTTP/1.1\r" for the version of that request. */
  lemma RequestAfterClosing(atoi: Atoi)
    ensures var q := Received(NEW_MACHINE, "GET / X\r", atoi, Short).0;
            var s := Received(q, "HTTP/1.1\r", atoi, Short).0;
            q.closed && s.closed && s.handler.Live? && s.log == [Request("GET", "/", "HTTP/1.1")]
  {
    var w := "GET / X\r";
    LiteralLine();
    BadLineClosed("GET", "/", "X", w, atoi);
    VersionAfterClosing(Received(NEW_MACHINE, w, atoi, Short).0, "HTTP/1.1", atoi);
  }

  lemma BadLineClosed(verb: Bytes, uri: Bytes, v: Bytes, w: Bytes, atoi: Atoi)
    requires verb != [] && Free(verb, ' ', '\r') && NoLeadingSpace(verb) && uri != [] && Free(uri, ' ', '\r') && NoLeadingSpace(uri)
    requires Free(v, '\r', ' ') && NoLeadingSpace(v) && !StartsWith(v, "HTTP/1.0") && !StartsWith(v, "HTTP/1.1")
    requires w == verb + " " + (uri + " " + (v + "\r")) && |w| < WIDTH
    ensures var q := Received(NEW_MACHINE, w, atoi, Short).0;
            && q.closed && q.handler.Missing? && q.state.Version? && q.input == [] && q.cursor == 0
            && q.methodName == verb && q.uri == uri && q.log == []
  {
    BadLine(verb, uri, v, atoi);
    FailedOn(w, INITIAL.(state := Version, methodName := verb, uri := uri, status := Status.Failed), atoi);
  }

  lemma FailedOn(w: Bytes, p: Parser, atoi: Atoi)
    requires 0 < |w| < WIDTH && Run(INITIAL, w, atoi) == (p, []) && p.status.Failed? && p.token == []
    ensures var q := Received(NEW_MACHINE, w, atoi, Short).0;
            && q.closed && q.handler.Missing? == !p.open && q.state == p.state && q.input == [] && q.cursor == 0
            && q.methodName == p.methodName && q.uri == p.uri && q.log == p.log
  {
    SmallFed(w, atoi);
    NothingLeft(Received(NEW_MACHINE, w, atoi, Short).0, Settle(p));
  }

  lemma SmallFed(w: Bytes, atoi: Atoi)
    requires 0 < |w| < WIDTH
    ensures var q := Received(NEW_MACHINE, w, atoi, Short).0; var (p, rest) := Run(INITIAL, w, atoi);
            q.cursor <= |q.input| && AsConn(q) == Conn(Settle(p), rest)
  {
    NewIsReady();
    assert Unscanned(NEW_MACHINE) + w == w && AsParser(NEW_MACHINE, Running) == INITIAL && AsConn(NEW_MACHINE) == Conn(INITIAL, []);
    SmallIsNarrow(INITIAL, w, atoi);
    NarrowFeed(NEW_MACHINE, w, atoi);
    assert [] + w == w;
  }

  lemma LiteralLine()
    ensures "GET / X\r" == "GET" + " " + ("/" + " " + ("X" + "\r")) && "HTTP/1.1" + "\r" == "HTTP/1.1\r"
    ensures Free("GET", ' ', '\r') && Free("/", ' ', '\r') && Free("X", '\r', ' ') && Free("HTTP/1.1", '\r', ' ')
    ensures !StartsWith("X", "HTTP/1.0") && !StartsWith("X", "HTTP/1.1") && StartsWith("HTTP/1.1", "HTTP/1.1")
  {
  }

  lemma LocatedReturn(v: Bytes)
    requires Free(v, '\r', ' ')
    ensures Located(v + "\r", 0, '\r', ' ') == |v|
  {
    var s := v + "\r";
    assert s[|v|] == '\r' && forall i :: 0 <= i < |v| ==> s[i] == v[i] && v[i] in v;
  }

  /** After an error inside a request, more input makes the source use the handler it has deleted, exactly if the
      parser, had it stayed open, would read a header or the end of the headers from it, or meet another error. */
  lemma AfterError(m: Machine, chunk: Bytes, atoi: Atoi)
    requires m.closed && m.handler.Deleted? && Shape(m) && InRequest(m.state) && !m.state.Data? && chunk != []
    requires Narrow(AsParser(m, Running), Unscanned(m) + chunk, atoi)
    ensures var q := Run(AsParser(m, Running), Unscanned(m) + chunk, atoi).0;
            Received(m, chunk, atoi, Short).1.Faulted? <==> q.log != m.log || !q.status.Running? || q.state.Data?
  {
    var n := m.(input := m.input + chunk);
    Extended(m, chunk);
    BuriedFaults(n, atoi);
    OpenRuns(n, atoi);
    LoopEnds(Revived(n), atoi);
  }

  lemma OpenRuns(n: Machine, atoi: Atoi)
    requires !n.handler.Missing? && Shape(n) && InRequest(n.state) && !n.state.Data? && n.input != []
    requires Narrow(AsParser(n, Running), Unscanned(n), atoi)
    ensures var (q, result) := Loop(Revived(n), atoi, Short);
            q.cursor <= |q.input| && AsParser(q, StatusOf(result)) == Run(AsParser(n, Running), Unscanned(n), atoi).0
  {
    var open := Revived(n);
    assert AsParser(open, Running) == AsParser(n, Running) && Unscanned(open) == Unscanned(n);
    SameIffNarrow(open, atoi);
    SameLoopSame(open, atoi);
    LoopRefines(open, atoi);
  }
}
