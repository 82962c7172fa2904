/**
 What the parser as written keeps in every run, however wide its pops: handlers are told what they should be, no open
 connection follows a bad pointer, and the input buffer is the end of what was received.
 */
module HttpSafety {
  import opened HttpParser
  import opened HttpMachine
  import opened HttpTheorems
  import opened HttpProtocol

  // ---------- handlers are there ----------

  /** The handler is there exactly from the end of the request line to the last byte of data. So it may be of a
      connection that has closed, too, if it did outside a request. */
  predicate Attended(m: Machine) {
    && m.cursor <= |m.input| && m.handler == (if InRequest(m.state) then Live else Missing)
    && (m.state.Data? ==> 0 < m.dataLeft)
  }

  /** Between a turn and what follows the loop. */
  predicate TurnAttended(m: Machine, result: ProcessResult) {
    && m.cursor <= |m.input|
    && match result
       case Fault => false
       case Error => m.handler == if InRequest(m.state) then Live else Missing
       case RequestEnd => m.handler.Missing? && (m.state.HeadersEndEol? || m.state.Data?)
       case _ => Attended(m)
  }

  lemma HandledAttended(m: Machine, region: Bytes, atoi: Atoi)
    requires Attended(m) && Scanning(m.state)
    ensures var (q, result) := Handled(m, region, atoi); TurnAttended(q, result) && q.closed == m.closed
  {
  }

  /** The same connection with another input. */
  predicate Aside(m: Machine, s: Machine) {
    s.cursor <= |s.input| && s == m.(input := s.input, cursor := s.cursor, examined := s.examined)
  }

  /** A token turn moves the cursor, pops, and perhaps handles a region. */
  lemma TokenCases(m: Machine, atoi: Atoi, pops: Pops) returns (k: nat, s: Machine, region: Bytes)
    requires Scanning(m.state) && m.cursor <= |m.input|
    ensures k <= |m.input| && s.input == m.input[k..] && Aside(m, s)
    ensures var r := TokenTurn(m, atoi, pops); r == (s, NotFound) || r == (s, Error) || r == Handled(s, region, atoi)
  {
    var q := Scanned(m);
    k, s, region := 0, q, [];
    if q.cursor == |q.input| {
      assert TokenTurn(m, atoi, pops) == (q, NotFound);
    } else if q.input[q.cursor] != Success(m.state) {
      assert TokenTurn(m, atoi, pops) == (q, Error);
    } else {
      k, s, region := Cut(q.cursor + 1, pops), Popped(q, q.cursor + 1, pops), q.input[..q.cursor];
      assert TokenTurn(m, atoi, pops) == Handled(s, region, atoi);
    }
  }

  lemma TokenAttended(m: Machine, atoi: Atoi, pops: Pops)
    requires Attended(m) && Scanning(m.state)
    ensures var (q, result) := TokenTurn(m, atoi, pops); TurnAttended(q, result) && q.closed == m.closed
  {
    var k, s, region := TokenCases(m, atoi, pops);
    HandledAttended(s, region, atoi);
  }

  lemma TurnIsAttended(m: Machine, atoi: Atoi, pops: Pops)
    requires Attended(m) && (ExpectsNewline(m.state) ==> m.input != [])
    ensures var (q, result) := Turn(m, atoi, pops); TurnAttended(q, result) && q.closed == m.closed
  {
    if SkipsSpaces(m.state) {
      TokenAttended(Eaten(m).(state := AfterSpaces(m.state)), atoi, pops);
    } else if Scanning(m.state) {
      TokenAttended(m, atoi, pops);
    }
  }

  lemma {:induction false} LoopAttended(m: Machine, atoi: Atoi, pops: Pops)
    requires Attended(m) && (ExpectsNewline(m.state) ==> m.input != [])
    ensures var (q, result) := Loop(m, atoi, pops); TurnAttended(q, result) && q.closed == m.closed
    decreases |m.input|, Rank(m.state)
  {
    TurnIsAttended(m, atoi, pops);
    var (q, result) := Turn(m, atoi, pops);
    if result.Found? && q.input != [] {
      LoopAttended(q, atoi, pops);
    }
  }

  /** What is left of an attended connection by what follows the loop. */
  predicate ClosedRight(q: Machine, outcome: Outcome) {
    && (outcome == Done(true) ==> q.handler.Missing? && (q.state.HeadersEndEol? || q.state.Data?))
    && (outcome == Done(false) ==> q.handler == if InRequest(q.state) then Deleted else Missing)
  }

  lemma FinishedAttended(m: Machine, result: ProcessResult)
    requires TurnAttended(m, result)
    ensures var (q, outcome) := Finished(m, result);
            && !outcome.Faulted? && (Attended(q) || (q.closed && ClosedRight(q, outcome)))
            && (!m.closed && q.closed ==> ClosedRight(q, outcome)) && (m.closed ==> q.closed)
  {
  }

  /** A newline is awaited, and with an empty chunk there is nothing to pop. */
  predicate Starved(m: Machine, chunk: Bytes) {
    ExpectsNewline(m.state) && m.input + chunk == []
  }

  /** Whatever an attended connection receives, it goes wrong only if it is starved. Otherwise it is attended afterwards,
      or has closed. */
  lemma ReceivedAttended(m: Machine, chunk: Bytes, atoi: Atoi, pops: Pops)
    requires Attended(m)
    ensures var (q, outcome) := Received(m, chunk, atoi, pops);
            && (outcome.Faulted? <==> Starved(m, chunk)) && (m.closed ==> q.closed)
            && (if outcome.Faulted? then q == m else Attended(q) || (q.closed && ClosedRight(q, outcome)))
            && (!m.closed && q.closed ==> ClosedRight(q, outcome))
  {
    var n := m.(input := m.input + chunk);
    if Starved(m, chunk) {
      assert n == m;
      StarvedLoop(m, atoi, pops);
    } else {
      LoopAttended(n, atoi, pops);
      var (q, result) := Loop(n, atoi, pops);
      FinishedAttended(q, result);
    }
  }

  lemma StarvedLoop(m: Machine, atoi: Atoi, pops: Pops)
    requires m.cursor <= |m.input| && ExpectsNewline(m.state) && m.input == []
    ensures Loop(m, atoi, pops) == (m, ProcessResult.Fault)
  {
    assert Turn(m, atoi, pops) == (m, ProcessResult.Fault);
  }

  // ---------- handlers are told what they should be ----------

  /** The log stands where the handler says. */
  predicate OnTrack(m: Machine, atoi: Atoi) {
    var phase := Track(m.log, atoi);
    match m.handler
    case Missing => phase == Idle
    case Live => phase == InHeaders(m.dataLeft) || (m.state.Data? && phase == InBody(m.dataLeft))
    case Deleted => phase != Broken
  }

  /** Of any connection, open or closed. */
  predicate Kept(m: Machine, atoi: Atoi) {
    && m.cursor <= |m.input| && OnTrack(m, atoi)
    && (!m.handler.Missing? ==> InRequest(m.state)) && (m.handler.Live? && m.state.Data? ==> 0 < m.dataLeft)
  }

  /** One event more, for a handler that is there. */
  predicate Told(phase: Phase, e: Event, dataLeft: nat, state: State, atoi: Atoi) {
    Advance(phase, e, atoi) == InHeaders(dataLeft) || (state.Data? && Advance(phase, e, atoi) == InBody(dataLeft))
  }

  lemma ToldKept(m: Machine, e: Event, q: Machine, atoi: Atoi)
    requires q.handler.Live? && InRequest(q.state) && !q.state.Data? && q.cursor <= |q.input| && q.log == m.log + [e]
    requires Told(Track(m.log, atoi), e, q.dataLeft, q.state, atoi)
    ensures Kept(q, atoi)
  {
    TrackSnoc(m.log, e, atoi);
  }

  lemma HandledKept(m: Machine, region: Bytes, atoi: Atoi)
    requires Kept(m, atoi) && Scanning(m.state)
    ensures var (q, result) := Handled(m, region, atoi); Kept(q, atoi)
  {
    var (q, result) := Handled(m, region, atoi);
    if m.state.Version? && result.Found? {
      ToldKept(m, Request(m.methodName, m.uri, region), q, atoi);
    } else if m.state.Value? && result.Found? {
      ToldKept(m, Header(m.methodName, region), q, atoi);
    }
  }

  lemma InputKept(m: Machine, s: Machine, atoi: Atoi)
    requires Kept(m, atoi) && Aside(m, s)
    ensures Kept(s, atoi)
  {
  }

  lemma TokenKept(m: Machine, atoi: Atoi, pops: Pops)
    requires Kept(m, atoi) && Scanning(m.state)
    ensures var (q, result) := TokenTurn(m, atoi, pops); Kept(q, atoi)
  {
    var k, s, region := TokenCases(m, atoi, pops);
    InputKept(m, s, atoi);
    HandledKept(s, region, atoi);
  }

  lemma NewlineKept(m: Machine, atoi: Atoi, pops: Pops)
    requires Kept(m, atoi) && ExpectsNewline(m.state)
    ensures Kept(NewlineTurn(m, pops).0, atoi) && (NewlineTurn(m, pops).1.RequestEnd? ==> NewlineTurn(m, pops).0.handler.Missing?)
  {
    if m.input == [] {
      assert NewlineTurn(m, pops) == (m, Fault);
    } else {
      var q := Popped(m, 1, pops);
      InputKept(m, q, atoi);
      if m.input[0] == '\n' && m.state.HeadersEndEol? && m.handler.Live? && m.dataLeft == 0 {
        TrackSnoc(m.log, End, atoi);
        assert NewlineTurn(m, pops) == (q.(log := q.log + [End], handler := Missing), RequestEnd);
      }
    }
  }

  lemma BodiesCons(log: seq<Event>, w: Bytes)
    requires w != []
    ensures log + Bodies(w) == log + [Body(w[0])] + Bodies(w[1..])
  {
    assert Bodies(w) == [Body(w[0])] + Bodies(w[1..]);
  }

  lemma {:induction false} TrackBodies(log: seq<Event>, w: Bytes, n: nat, atoi: Atoi)
    requires (Track(log, atoi) == InHeaders(n) || Track(log, atoi) == InBody(n)) && |w| <= n
    ensures Track(log + Bodies(w), atoi) == if w == [] then Track(log, atoi) else InBody(n - |w|)
    decreases |w|
  {
    if w == [] {
      assert log + Bodies(w) == log;
    } else {
      TrackSnoc(log, Body(w[0]), atoi);
      TrackBodies(log + [Body(w[0])], w[1..], n - 1, atoi);
      BodiesCons(log, w);
    }
  }

  lemma TrackData(log: seq<Event>, w: Bytes, n: nat, atoi: Atoi)
    requires (Track(log, atoi) == InHeaders(n) || Track(log, atoi) == InBody(n)) && |w| <= n && 0 < n
    ensures if |w| == n then Track(log + Bodies(w) + [End], atoi) == Idle
            else Track(log + Bodies(w), atoi) == InHeaders(n - |w|) || Track(log + Bodies(w), atoi) == InBody(n - |w|)
  {
    TrackBodies(log, w, n, atoi);
    TrackSnoc(log + Bodies(w), End, atoi);
  }

  lemma DataKept(m: Machine, atoi: Atoi, pops: Pops)
    requires Kept(m, atoi) && m.state.Data?
    ensures Kept(DataTurn(m, pops).0, atoi) && (DataTurn(m, pops).1.RequestEnd? ==> DataTurn(m, pops).0.handler.Missing?)
  {
    if m.handler.Live? {
      var n := if |m.input| > m.dataLeft then m.dataLeft else |m.input|;
      var q := Popped(m, n, pops).(log := m.log + Bodies(m.input[..n]), dataLeft := m.dataLeft - n);
      TrackData(m.log, m.input[..n], m.dataLeft, atoi);
      assert DataTurn(m, pops) == if q.dataLeft == 0 then (q.(log := q.log + [End], handler := Missing), RequestEnd) else (q, NotFound);
    }
  }

  lemma SpacesKept(m: Machine, atoi: Atoi, pops: Pops)
    requires Kept(m, atoi) && SkipsSpaces(m.state)
    ensures var (q, result) := SpacesTurn(m, atoi, pops); Kept(q, atoi)
  {
    var q := Eaten(m);
    InputKept(m, q, atoi);
    if q.input == [] {
      assert SpacesTurn(m, atoi, pops) == (q, NotFound);
    } else if q.state.PreKey? && q.input[0] == '\r' {
      InputKept(q, Popped(q, 1, pops), atoi);
      assert SpacesTurn(m, atoi, pops) == (Popped(q, 1, pops).(state := HeadersEndEol), Found);
    } else {
      var s := q.(state := AfterSpaces(q.state));
      TokenKept(s, atoi, pops);
      assert SpacesTurn(m, atoi, pops) == TokenTurn(s, atoi, pops);
    }
  }

  lemma NoTokenEnds(m: Machine, atoi: Atoi, pops: Pops)
    requires m.cursor <= |m.input| && Scanning(m.state)
    ensures var (q, result) := TokenTurn(m, atoi, pops); !result.RequestEnd?
  {
  }

  lemma NoRequestEnd(m: Machine, atoi: Atoi, pops: Pops)
    requires m.cursor <= |m.input| && (Scanning(m.state) || SkipsSpaces(m.state))
    ensures var (q, result) := Turn(m, atoi, pops); !result.RequestEnd?
  {
    if Scanning(m.state) {
      NoTokenEnds(m, atoi, pops);
    } else if Eaten(m).input != [] {
      NoTokenEnds(Eaten(m).(state := AfterSpaces(m.state)), atoi, pops);
    }
  }

  lemma TurnKept(m: Machine, atoi: Atoi, pops: Pops)
    requires Kept(m, atoi)
    ensures Kept(Turn(m, atoi, pops).0, atoi) && (Turn(m, atoi, pops).1.RequestEnd? ==> Turn(m, atoi, pops).0.handler.Missing?)
  {
    if Scanning(m.state) || SkipsSpaces(m.state) {
      NoRequestEnd(m, atoi, pops);
    }
    if SkipsSpaces(m.state) {
      SpacesKept(m, atoi, pops);
    } else if Scanning(m.state) {
      TokenKept(m, atoi, pops);
    } else if ExpectsNewline(m.state) {
      NewlineKept(m, atoi, pops);
    } else {
      DataKept(m, atoi, pops);
    }
  }

  lemma {:induction false} LoopKept(m: Machine, atoi: Atoi, pops: Pops)
    requires Kept(m, atoi)
    ensures Kept(Loop(m, atoi, pops).0, atoi) && (Loop(m, atoi, pops).1.RequestEnd? ==> Loop(m, atoi, pops).0.handler.Missing?)
    decreases |m.input|, Rank(m.state)
  {
    TurnKept(m, atoi, pops);
    var (q, result) := Turn(m, atoi, pops);
    if result.Found? && q.input != [] {
      LoopKept(q, atoi, pops);
    }
  }

  lemma FinishedKept(m: Machine, result: ProcessResult, atoi: Atoi)
    requires Kept(m, atoi) && (result.RequestEnd? ==> m.handler.Missing?)
    ensures Kept(Finished(m, result).0, atoi)
  {
  }

  lemma ReceivedKept(m: Machine, chunk: Bytes, atoi: Atoi, pops: Pops)
    requires Kept(m, atoi)
    ensures Kept(Received(m, chunk, atoi, pops).0, atoi)
  {
    var n := m.(input := m.input + chunk);
    LoopKept(n, atoi, pops);
    var (q, result) := Loop(n, atoi, pops);
    FinishedKept(q, result, atoi);
  }

  /** The other end may go at any time. A live handler is told one abort and is gone, any other is told nothing; no
      request is left open, and being told again changes nothing. Only after a deleted handler does it go wrong. */
  lemma EndTold(m: Machine, atoi: Atoi)
    requires Kept(m, atoi)
    ensures var (q, outcome) := EndReceived(m);
            && (outcome.Faulted? <==> m.handler.Deleted?)
            && q.log == m.log + (if m.handler.Live? then [Abort] else [])
            && (if outcome.Faulted? then q == m else outcome == Done(true) && Gone(m, q, atoi) && EndReceived(q) == (q, outcome))
    ensures Kept(EndReceived(m).0, atoi)
  {
    match m.handler
    case Missing =>
      assert EndReceived(m) == (m.(keepAlive := false, closed := true), Done(true)) && m.log + [] == m.log;
    case Live =>
      TrackSnoc(m.log, Abort, atoi);
      assert EndReceived(m) == (m.(log := m.log + [Abort], handler := Missing, keepAlive := false, closed := true), Done(true));
    case Deleted =>
      assert EndReceived(m) == (m, Faulted) && m.log + [] == m.log;
  }

  /** Closed, with the last request over, and nothing else touched. */
  predicate Gone(m: Machine, q: Machine, atoi: Atoi) {
    && q.handler.Missing? && q.closed && !q.keepAlive && Track(q.log, atoi) == Idle
    && q == m.(handler := q.handler, closed := q.closed, keepAlive := q.keepAlive, log := q.log)
  }

  // ---------- runs ----------

  /** All chunks are received, also after the connection has closed, until a bad pointer is followed; and then the
      other end goes, or not. */
  function FedOn(m: Machine, chunks: seq<Bytes>, atoi: Atoi, pops: Pops): (q: Machine)
    requires m.cursor <= |m.input|
    ensures q.cursor <= |q.input|
    decreases |chunks|
  {
    if chunks == [] then m
    else
      var (q, outcome) := Received(m, chunks[0], atoi, pops);
      if outcome.Faulted? then q else FedOn(q, chunks[1..], atoi, pops)
  }

  /** For any chunks, received by an open or a closed connection: handlers are told headers, then data, then one end or
      abort, with as much data as was declared. When the other end goes, none is left in the middle of a request. */
  lemma {:induction false} HandlersAsWritten(m: Machine, chunks: seq<Bytes>, atoi: Atoi, pops: Pops)
    requires Kept(m, atoi)
    ensures var q := FedOn(m, chunks, atoi, pops);
            && Kept(q, atoi) && Track(q.log, atoi) != Broken && Kept(EndReceived(q).0, atoi)
            && Track(EndReceived(q).0.log, atoi) == if q.handler.Deleted? then Track(q.log, atoi) else Idle
    decreases |chunks|
  {
    if chunks != [] {
      ReceivedKept(m, chunks[0], atoi, pops);
      var (q, outcome) := Received(m, chunks[0], atoi, pops);
      if outcome.Faulted? {
        EndTold(q, atoi);
      } else {
        HandlersAsWritten(q, chunks[1..], atoi, pops);
      }
    } else {
      EndTold(m, atoi);
    }
  }

  /** A reader that stops at closing follows no bad pointer on the way. */
  predicate NoFault(m: Machine, chunks: seq<Bytes>, atoi: Atoi, pops: Pops)
    requires m.cursor <= |m.input|
    decreases |chunks|
  {
    chunks == [] || m.closed
    || var (q, outcome) := Received(m, chunks[0], atoi, pops); !outcome.Faulted? && NoFault(q, chunks[1..], atoi, pops)
  }

  /** Some chunk, always an empty one, comes when a newline is awaited and nothing is there. */
  predicate Starves(m: Machine, chunks: seq<Bytes>, atoi: Atoi, pops: Pops)
    requires m.cursor <= |m.input|
    decreases |chunks|
  {
    chunks != [] && !m.closed
    && (Starved(m, chunks[0]) || Starves(Received(m, chunks[0], atoi, pops).0, chunks[1..], atoi, pops))
  }

  lemma {:induction false} NoneStarves(m: Machine, chunks: seq<Bytes>, atoi: Atoi, pops: Pops)
    requires m.cursor <= |m.input| && NoneEmpty(chunks)
    ensures !Starves(m, chunks, atoi, pops)
    decreases |chunks|
  {
    if chunks != [] {
      NoneStarves(Received(m, chunks[0], atoi, pops).0, chunks[1..], atoi, pops);
    }
  }

  /** For any chunks up to closing: the handler is there exactly in the states inside a request while the connection is
      open, and is told what it should be; nothing goes wrong, and all chunks are read unless the connection closes,
      exactly if it is never starved, so always if no chunk is empty. */
  lemma {:induction false} OpenAsWritten(m: Machine, chunks: seq<Bytes>, atoi: Atoi, pops: Pops)
    requires !m.closed && Attended(m) && OnTrack(m, atoi)
    ensures var (q, n) := ReceivedAll(m, chunks, atoi, pops);
            && Track(q.log, atoi) != Broken && (!q.closed ==> Attended(q) && OnTrack(q, atoi))
            && (NoFault(m, chunks, atoi, pops) <==> !Starves(m, chunks, atoi, pops))
            && (NoFault(m, chunks, atoi, pops) && n < |chunks| ==> q.closed)
    ensures NoneEmpty(chunks) ==> NoFault(m, chunks, atoi, pops)
    decreases |chunks|
  {
    NoneStarvesIf(m, chunks, atoi, pops);
    if chunks != [] {
      var (q, outcome) := Received(m, chunks[0], atoi, pops);
      ReceivedAttended(m, chunks[0], atoi, pops);
      ReceivedKept(m, chunks[0], atoi, pops);
      if outcome.Faulted? {
      } else if !q.closed {
        OpenAsWritten(q, chunks[1..], atoi, pops);
      } else {
        assert ReceivedAll(q, chunks[1..], atoi, pops) == (q, 0);
      }
    }
  }

  lemma NoneStarvesIf(m: Machine, chunks: seq<Bytes>, atoi: Atoi, pops: Pops)
    requires m.cursor <= |m.input|
    ensures NoneEmpty(chunks) ==> !Starves(m, chunks, atoi, pops)
  {
    if NoneEmpty(chunks) {
      NoneStarves(m, chunks, atoi, pops);
    }
  }

  lemma {:induction false} BrokenStays(log: seq<Event>, i: nat, atoi: Atoi)
    requires i <= |log| && Track(log, atoi) != Broken
    ensures Track(log[..i], atoi) != Broken
    decreases |log|
  {
    if i == |log| {
      assert log[..i] == log;
    } else {
      BrokenStays(log[..|log| - 1], i, atoi);
      assert log[..|log| - 1][..i] == log[..i];
    }
  }

  lemma NewIsKept(atoi: Atoi)
    ensures Kept(NEW_MACHINE, atoi) && Attended(NEW_MACHINE)
  {
  }

  lemma EndedIn(log: seq<Event>, i: nat, atoi: Atoi) returns (before: seq<Event>, line: Event, hs: seq<Event>, bs: seq<Event>)
    requires Track(log, atoi) != Broken && i < |log| && log[i].End?
    ensures Unfinished(log[..i], before, line, hs, bs) && Track(before, atoi) == Idle && |bs| == DeclaredLength(hs, atoi)
  {
    BrokenStays(log, i + 1, atoi);
    assert log[..i + 1] == log[..i] + [End];
    before, line, hs, bs := EndedRequestIsComplete(log[..i], atoi);
  }

  /** So each request that has ended, in whatever run of the source, saw as many bytes as it declared. */
  lemma EndedAsWritten(chunks: seq<Bytes>, i: nat, atoi: Atoi) returns (before: seq<Event>, line: Event, hs: seq<Event>, bs: seq<Event>)
    requires var log := FedOn(NEW_MACHINE, chunks, atoi, Short).log; i < |log| && log[i].End?
    ensures Unfinished(FedOn(NEW_MACHINE, chunks, atoi, Short).log[..i], before, line, hs, bs)
    ensures Track(before, atoi) == Idle && |bs| == DeclaredLength(hs, atoi)
  {
    var log := FedOn(NEW_MACHINE, chunks, atoi, Short).log;
    NewIsKept(atoi);
    HandlersAsWritten(NEW_MACHINE, chunks, atoi, Short);
    before, line, hs, bs := EndedIn(log, i, atoi);
  }

  // ---------- no byte is lost ----------

  lemma PoppedSuffix(m: Machine, n: nat, pops: Pops)
    requires n <= |m.input|
    ensures Suffix(Popped(m, n, pops).input, m.input)
  {
  }

  lemma EatenSuffix(m: Machine)
    ensures Suffix(Eaten(m).input, m.input)
  {
  }

  lemma SpacesSuffix(m: Machine, atoi: Atoi, pops: Pops)
    requires SkipsSpaces(m.state) && m.cursor <= |m.input|
    ensures Suffix(SpacesTurn(m, atoi, pops).0.input, m.input)
  {
    var q := Eaten(m);
    EatenSuffix(m);
    if q.input != [] {
      if q.state.PreKey? && q.input[0] == '\r' {
        PoppedSuffix(q, 1, pops);
      } else {
        TokenSuffix(q.(state := AfterSpaces(m.state)), atoi, pops);
      }
      SuffixTrans(SpacesTurn(m, atoi, pops).0.input, q.input, m.input);
    }
  }

  lemma TurnSuffix(m: Machine, atoi: Atoi, pops: Pops)
    requires m.cursor <= |m.input|
    ensures Suffix(Turn(m, atoi, pops).0.input, m.input)
  {
    if SkipsSpaces(m.state) {
      SpacesSuffix(m, atoi, pops);
    } else if Scanning(m.state) {
      TokenSuffix(m, atoi, pops);
    } else if ExpectsNewline(m.state) {
      NewlineSuffix(m, pops);
    } else {
      DataSuffix(m, pops);
    }
  }

  lemma SuffixAt(s: Bytes, k: nat)
    requires k <= |s|
    ensures Suffix(s[k..], s)
  {
  }

  lemma TokenSuffix(m: Machine, atoi: Atoi, pops: Pops)
    requires Scanning(m.state) && m.cursor <= |m.input|
    ensures Suffix(TokenTurn(m, atoi, pops).0.input, m.input)
  {
    var k, s, region := TokenCases(m, atoi, pops);
    SuffixAt(m.input, k);
  }

  lemma NewlineSuffix(m: Machine, pops: Pops)
    requires ExpectsNewline(m.state) && m.cursor <= |m.input|
    ensures Suffix(NewlineTurn(m, pops).0.input, m.input)
  {
    if m.input != [] {
      PoppedSuffix(m, 1, pops);
      assert NewlineTurn(m, pops).0.input == Popped(m, 1, pops).input;
    }
  }

  lemma DataSuffix(m: Machine, pops: Pops)
    requires m.state.Data? && m.cursor <= |m.input|
    ensures Suffix(DataTurn(m, pops).0.input, m.input)
  {
    if m.handler.Live? {
      var n := if |m.input| > m.dataLeft then m.dataLeft else |m.input|;
      PoppedSuffix(m, n, pops);
      assert DataTurn(m, pops).0.input == Popped(m, n, pops).input;
    }
  }

  lemma {:induction false} LoopSuffix(m: Machine, atoi: Atoi, pops: Pops)
    requires m.cursor <= |m.input|
    ensures Suffix(Loop(m, atoi, pops).0.input, m.input)
    decreases |m.input|, Rank(m.state)
  {
    TurnSuffix(m, atoi, pops);
    var (q, result) := Turn(m, atoi, pops);
    if result.Found? && q.input != [] {
      LoopSuffix(q, atoi, pops);
      SuffixTrans(Loop(q, atoi, pops).0.input, q.input, m.input);
    }
  }

  lemma FinishedInput(m: Machine, result: ProcessResult)
    ensures Finished(m, result).0.input == m.input
  {
  }

  lemma Grouped(a: Bytes, b: Bytes, c: Bytes)
    ensures a + b + c == a + (b + c)
  {
  }

  lemma ReceivedSuffix(m: Machine, chunk: Bytes, rest: Bytes, atoi: Atoi, pops: Pops)
    requires m.cursor <= |m.input|
    ensures Suffix(Received(m, chunk, atoi, pops).0.input + rest, m.input + (chunk + rest))
  {
    var n := m.(input := m.input + chunk);
    var (q, result) := Loop(n, atoi, pops);
    LoopSuffix(n, atoi, pops);
    SuffixAppend(q.input, n.input, rest);
    FinishedInput(q, result);
    Grouped(m.input, chunk, rest);
  }

  /** The input buffer, with what was not delivered, is the end of all bytes received, whatever pops are cut. */
  lemma {:induction false} BytesAsWritten(m: Machine, chunks: seq<Bytes>, atoi: Atoi, pops: Pops)
    requires m.cursor <= |m.input|
    ensures var (q, n) := ReceivedAll(m, chunks, atoi, pops); Suffix(q.input + Concat(chunks[n..]), m.input + Concat(chunks))
    decreases |chunks|
  {
    if chunks == [] || m.closed {
      assert chunks[0..] == chunks;
    } else {
      var (q, outcome) := Received(m, chunks[0], atoi, pops);
      var tail := chunks[1..];
      ReceivedSuffix(m, chunks[0], Concat(tail), atoi, pops);
      if !outcome.Faulted? {
        BytesAsWritten(q, tail, atoi, pops);
        var (s, n) := ReceivedAll(q, tail, atoi, pops);
        assert tail[n..] == chunks[n + 1..];
        SuffixTrans(s.input + Concat(tail[n..]), q.input + Concat(tail), m.input + Concat(chunks));
      }
    }
  }
}
