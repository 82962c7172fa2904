/**
 Which requests the source reads right: in whatever chunks shorter than 65536 bytes, exactly those whose tokens are
 shorter than 65535 bytes, but for methods and URIs of which only blanks are kept.
 */
module HttpExact {
  import opened HttpParser
  import opened HttpMachine
  import opened HttpTheorems
  import opened HttpRefinement
  import opened HttpProtocol
  import opened HttpTokens
  import opened HttpAsWritten
  import opened HttpWide
  import opened HttpComplete
  import opened HttpLost

  /** An open connection that has looked at all it has received. */
  predicate Waiting(m: Machine) {
    Ready(m) && Clean(m) && m.cursor == |m.input|
  }

  /** With one chunk more. */
  function Fed(m: Machine, c: Bytes): Machine {
    m.(input := m.input + c)
  }

  lemma FedParses(m: Machine, c: Bytes)
    requires m.cursor == |m.input|
    ensures Fed(m, c).cursor <= |Fed(m, c).input| && AsParser(Fed(m, c), Running) == AsParser(m, Running) && Unscanned(Fed(m, c)) == c
  {
    assert m.input[..m.cursor] == m.input && (m.input + c)[..m.cursor] == m.input && (m.input + c)[m.cursor..] == c;
  }

  // ---------- one chunk ----------

  /** The token that the chunk completes. */
  function Token(m: Machine, c: Bytes): Bytes
    requires Scanning(m.state) && m.cursor == |m.input|
  {
    Fed(m, c).input[..Scanned(Fed(m, c)).cursor]
  }

  lemma FirstPass(standard: Standard, p: Parser, c: Bytes, i: nat, atoi: Atoi)
    requires p.status.Running? && Scanning(p.state) && i <= |c| < WIDTH && NoneIn(c, 0, i, p.state)
    requires i < |c| ==> c[i] == Success(p.state) || c[i] == HttpParser.Fail(p.state)
    ensures TokensPass(standard, p, c, atoi) <==> (i < |c| && c[i] == Success(p.state) ==> Passes(standard, p.state, p.token + c[..i]))
  {
    PassScan(standard, p, c, 0, i, atoi);
    assert c[0..] == c && c[0..i] == c[..i];
    var q := p.(token := p.token + c[..i]);
    if i < |c| {
      assert c[i..][0] == c[i] && c[i..][1..] == c[i + 1..];
      if c[i] == Success(p.state) {
        SmallPasses(standard, TakeToken(q, atoi), c[i + 1..], atoi);
      }
    }
  }

  /** Where in the chunk the token ends. */
  function Place(m: Machine, c: Bytes): (i: nat)
    requires Scanning(m.state) && m.cursor == |m.input|
    ensures i <= |c|
  {
    Scanned(Fed(m, c)).cursor - |m.input|
  }

  lemma PlaceIs(m: Machine, c: Bytes)
    requires Scanning(m.state) && m.cursor == |m.input|
    ensures var i := Place(m, c);
            && NoneIn(c, 0, i, m.state) && (i < |c| ==> c[i] == Success(m.state) || c[i] == HttpParser.Fail(m.state))
            && Token(m, c) == m.input + c[..i] && (Finds(Fed(m, c)) <==> i < |c| && c[i] == Success(m.state))
  {
    var n := Fed(m, c);
    assert forall k :: 0 <= k < |c| ==> c[k] == n.input[|m.input| + k];
  }

  /** Only the first token that is found in a chunk can be long. */
  lemma FirstToken(standard: Standard, m: Machine, c: Bytes, atoi: Atoi)
    requires Scanning(m.state) && m.cursor == |m.input| && |c| < WIDTH
    ensures TokensPass(standard, AsParser(m, Running), c, atoi) <==> (Finds(Fed(m, c)) ==> Passes(standard, m.state, Token(m, c)))
  {
    PlaceIs(m, c);
    assert m.input[..m.cursor] == m.input;
    FirstPass(standard, AsParser(m, Running), c, Place(m, c), atoi);
  }

  lemma NoTokenYet(standard: Standard, m: Machine, c: Bytes, atoi: Atoi)
    requires Ready(m) && !Scanning(m.state) && |c| < WIDTH
    ensures TokensPass(standard, AsParser(m, Running), c, atoi)
  {
    SmallPasses(standard, AsParser(m, Running), c, atoi);
  }

  lemma WideIs(m: Machine, c: Bytes)
    requires Scanning(m.state) && m.cursor == |m.input|
    ensures WideToken(Fed(m, c)) <==> Finds(Fed(m, c)) && WIDTH <= |Token(m, c)| + 1
    ensures WideToken(Fed(m, c)) ==>
              && Rest(Fed(m, c)) == KeptOf(Token(m, c)) + [Success(m.state)] && Rest(Fed(m, c)) != []
              && (IsSpace(Success(m.state)) ==> (AllBlank(Rest(Fed(m, c))) <==> AllBlank(KeptOf(Token(m, c)))))
  {
    var n := Fed(m, c);
    assert |Token(m, c)| == Scanned(n).cursor;
    if WideToken(n) {
      WideRest(m, c);
      BlankSnoc(KeptOf(Token(m, c)), Success(m.state));
    }
  }

  lemma WideRest(m: Machine, c: Bytes)
    requires Scanning(m.state) && m.cursor == |m.input| && WideToken(Fed(m, c))
    ensures WIDTH <= |Token(m, c)| + 1 && Rest(Fed(m, c)) == KeptOf(Token(m, c)) + [Success(m.state)]
  {
    var n := Fed(m, c);
    RestIs(n.input, Scanned(n).cursor);
  }

  lemma RestIs(input: Bytes, j: nat)
    requires j < |input| && WIDTH <= j + 1
    ensures input[(j + 1) % WIDTH..j + 1] == KeptOf(input[..j]) + [input[j]]
  {
  }

  lemma BlankSnoc(s: Bytes, c: char)
    ensures AllBlank(s + [c]) <==> AllBlank(s) && IsSpace(c)
  {
    if AllBlank(s + [c]) {
      assert (s + [c])[|s|] == c;
      forall i | 0 <= i < |s| ensures IsSpace(s[i]) {
        assert (s + [c])[i] == s[i];
      }
    }
  }

  /** A pop that is cut and made up for has the result that is meant. */
  lemma RejoinedReceived(m: Machine, c: Bytes, atoi: Atoi)
    requires Ready(m) && m.cursor == |m.input| && |c| < WIDTH && (m.state.Method? || m.state.Uri?)
    requires WideToken(Fed(m, c)) && AllBlank(Rest(Fed(m, c)))
    ensures Received(m, c, atoi, Short) == Received(m, c, atoi, Whole)
  {
    var n := Fed(m, c);
    Rejoined(n, atoi);
    WideFound(n, atoi);
    FoundShape(n, atoi);
    var b := TokenTurn(n, atoi, Whole).0;
    if b.input == [] {
      NothingMore(n, b, atoi);
      BothReceived(m, c, b, atoi);
    } else {
      SameFrom(b, atoi);
      WholeGoesOn(n, b, atoi);
    }
  }

  lemma WholeGoesOn(n: Machine, b: Machine, atoi: Atoi)
    requires Scanning(n.state) && n.cursor <= |n.input| && TokenTurn(n, atoi, Whole) == (b, Found) && b.input != []
    ensures Loop(n, atoi, Whole) == Loop(b, atoi, Whole)
  {
    assert Turn(n, atoi, Whole) == (b, Found);
  }

  lemma SameFrom(b: Machine, atoi: Atoi)
    requires Ready(b) && SkipsSpaces(b.state) && |b.input| < WIDTH
    ensures Loop(b, atoi, Short) == Loop(b, atoi, Whole)
  {
    SmallIsNarrow(AsParser(b, Running), Unscanned(b), atoi);
    SameIffNarrow(b, atoi);
    SameLoopSame(b, atoi);
  }

  /** A chunk whose tokens pass is taken as is meant. */
  lemma GoodChunk(m: Machine, c: Bytes, atoi: Atoi)
    requires Waiting(m) && 0 < |c| < WIDTH && TokensPass(Reads, AsParser(m, Running), c, atoi)
    ensures Received(m, c, atoi, Short) == Received(m, c, atoi, Whole)
  {
    if Scanning(m.state) {
      FirstToken(Reads, m, c, atoi);
      FirstToken(Fits, m, c, atoi);
      WideIs(m, c);
    } else {
      NoTokenYet(Fits, m, c, atoi);
    }
    if Scanning(m.state) && WideToken(Fed(m, c)) {
      RejoinedReceived(m, c, atoi);
    } else {
      FitsIsNarrow(AsParser(m, Running), c, atoi);
      FedParses(m, c);
      assert Unscanned(m) + c == c;
      NarrowFeed(m, c, atoi);
    }
  }

  // ---------- a chunk with a token that does not pass ----------

  /** A token that does not pass is found. */
  predicate Lost(m: Machine, c: Bytes) {
    && Waiting(m) && Scanning(m.state) && WideToken(Fed(m, c)) && !Passes(Reads, m.state, Token(m, c))
  }

  /** What is behind it in the chunk. */
  function After(m: Machine, c: Bytes): Bytes
    requires Scanning(m.state) && m.cursor == |m.input| && Place(m, c) < |c|
  {
    c[Place(m, c) + 1..]
  }

  /** The parser that is meant, behind the token. */
  function Taken(m: Machine, c: Bytes, atoi: Atoi): Parser
    requires Scanning(m.state) && m.cursor == |m.input|
  {
    TakeToken(AsParser(m, Running).(token := Token(m, c)), atoi)
  }

  lemma MeantGoesOn(m: Machine, chunks: seq<Bytes>, end: Parser, atoi: Atoi)
    requires chunks != [] && Lost(m, chunks[0]) && Completes(AsParser(m, Running), Concat(chunks), end, atoi)
    ensures Place(m, chunks[0]) < |chunks[0]|
    ensures Completes(Taken(m, chunks[0], atoi), After(m, chunks[0]) + Concat(chunks[1..]), end, atoi)
  {
    var c, more := chunks[0], Concat(chunks[1..]);
    var p, k, t := AsParser(m, Running), Place(m, c), Token(m, c);
    PlaceFound(m, c);
    assert Concat(chunks) == c + more;
    MeantBehind(p, c, more, k, t, end, atoi);
    assert Taken(m, c, atoi) == TakeToken(p.(token := t), atoi) && After(m, c) == c[k + 1..];
  }

  lemma MeantBehind(p: Parser, c: Bytes, more: Bytes, k: nat, t: Bytes, end: Parser, atoi: Atoi)
    requires Completes(p, c + more, end, atoi) && Scanning(p.state) && k < |c| && c[k] == Success(p.state) && NoneIn(c, 0, k, p.state)
    requires t == p.token + c[..k]
    ensures Completes(TakeToken(p.(token := t), atoi), c[k + 1..] + more, end, atoi)
  {
    InFirst(c, more, k, p.state);
    ScansAt(p, c + more, k, end, atoi);
  }

  lemma PlaceFound(m: Machine, c: Bytes)
    requires Lost(m, c)
    ensures var k := Place(m, c);
            k < |c| && c[k] == Success(m.state) && NoneIn(c, 0, k, m.state) && Token(m, c) == AsParser(m, Running).token + c[..k]
  {
    PlaceIs(m, c);
    assert m.input[..m.cursor] == m.input;
  }

  lemma InFirst(c: Bytes, more: Bytes, k: nat, s: State)
    requires k < |c| && Scanning(s) && NoneIn(c, 0, k, s)
    ensures var w := c + more; w[k] == c[k] && w[..k] == c[..k] && w[k + 1..] == c[k + 1..] + more && NoneIn(w, 0, k, s)
  {
  }

  /** The source, behind the token, with what it keeps. */
  lemma SourceGoesOn(m: Machine, c: Bytes, atoi: Atoi) returns (a: Machine)
    requires Lost(m, c) && Taken(m, c, atoi).status.Running? && Place(m, c) < |c|
    ensures var rest := Rest(Fed(m, c)); a.input == rest + After(m, c) && a.cursor == |rest| - 1 && rest != []
    ensures TokenTurn(Fed(m, c), atoi, Short) == (a, Found)
    ensures var p := Taken(m, c, atoi);
            a.state == p.state && a.log == p.log && a.dataLeft == p.dataLeft && !a.closed && a.handler == (if InRequest(a.state) then Live else Missing)
  {
    var n := Fed(m, c);
    var b := WholeFound(m, c, atoi);
    WideIs(m, c);
    a := b.(input := Rest(n) + b.input, cursor := |Rest(n)| - 1);
    WideAny(n, atoi);
  }

  lemma WholeFound(m: Machine, c: Bytes, atoi: Atoi) returns (b: Machine)
    requires Lost(m, c) && Taken(m, c, atoi).status.Running? && Place(m, c) < |c|
    ensures TokenTurn(Fed(m, c), atoi, Whole) == (b, Found) && b.input == After(m, c)
    ensures var p := Taken(m, c, atoi);
            b.state == p.state && b.log == p.log && b.dataLeft == p.dataLeft && !b.closed && b.handler == (if InRequest(b.state) then Live else Missing)
  {
    var n := Fed(m, c);
    PlaceIs(m, c);
    FedParses(m, c);
    FoundShape(n, atoi);
    ScannedParses(m, c);
    b := TokenTurn(n, atoi, Whole).0;
  }

  lemma ScannedParses(m: Machine, c: Bytes)
    requires Scanning(m.state) && m.cursor == |m.input|
    ensures AsParser(Scanned(Fed(m, c)), Running) == AsParser(m, Running).(token := Token(m, c))
  {
  }

  lemma WideAny(n: Machine, atoi: Atoi)
    requires Scanning(n.state) && n.cursor <= |n.input| && WideToken(n) && TokenTurn(n, atoi, Whole).1.Found?
    ensures var (b, s) := TokenTurn(n, atoi, Whole);
            TokenTurn(n, atoi, Short) == (b.(input := Rest(n) + b.input, cursor := |Rest(n)| - 1), Found) && b.cursor == 0
  {
    var q := Scanned(n);
    var k := q.cursor + 1;
    assert n.input[k % WIDTH..] == Rest(n) + n.input[k..];
    var a, b, region := Popped(q, k, Short), Popped(q, k, Whole), q.input[..q.cursor];
    WideTurns(n, atoi);
    assert a == b.(input := Rest(n) + b.input, cursor := |Rest(n)| - 1) && b.cursor == 0;
    HandledAside(a, b, region, atoi);
  }

  lemma WideTurns(n: Machine, atoi: Atoi)
    requires Scanning(n.state) && n.cursor <= |n.input| && WideToken(n)
    ensures var q := Scanned(n);
            && TokenTurn(n, atoi, Short) == Handled(Popped(q, q.cursor + 1, Short), q.input[..q.cursor], atoi)
            && TokenTurn(n, atoi, Whole) == Handled(Popped(q, q.cursor + 1, Whole), q.input[..q.cursor], atoi)
  {
  }

  lemma HandledAside(a: Machine, b: Machine, region: Bytes, atoi: Atoi)
    requires Scanning(b.state) && a == b.(input := a.input, cursor := a.cursor)
    ensures Handled(a, region, atoi).0 == Handled(b, region, atoi).0.(input := a.input, cursor := a.cursor)
    ensures Handled(a, region, atoi).1 == Handled(b, region, atoi).1
  {
  }

  /** The loop is wrong if it ends in an error with what has been told so far. */
  lemma StopsShort(m: Machine, chunks: seq<Bytes>, log: seq<Event>, end: Parser, atoi: Atoi)
    requires chunks != [] && Waiting(m) && EndsOnce(log, end.log)
    requires var (q, result) := Loop(Fed(m, chunks[0]), atoi, Short); result.Error? && q.log == log
    ensures !Right(Drive(Fed(m, chunks[0]), chunks[1..], atoi), |chunks[1..]|, end)
  {
    ErrorIsWrong(Fed(m, chunks[0]), chunks[1..], end, atoi);
  }

  lemma FedClean(m: Machine, c: Bytes)
    requires Waiting(m)
    ensures Clean(Fed(m, c))
  {
    FedParses(m, c);
  }

  /** What the source does with the token, and what is meant. */
  predicate Behind(a: Machine, rest: Bytes, z: Bytes, p: Parser, end: Parser, atoi: Atoi) {
    && rest != [] && a.cursor == |rest| - 1 && a.state == p.state && a.log == p.log && a.dataLeft == p.dataLeft && !a.closed
    && a.handler == (if InRequest(a.state) then Live else Missing) && p.token == [] && Completes(p, z, end, atoi)
  }

  lemma BehindIs(m: Machine, chunks: seq<Bytes>, end: Parser, atoi: Atoi) returns (a: Machine)
    requires chunks != [] && Lost(m, chunks[0]) && Completes(AsParser(m, Running), Concat(chunks), end, atoi)
    ensures var c := chunks[0]; var n := Fed(m, c);
            && Place(m, c) < |c| && a.input == Rest(n) + After(m, c) && TokenTurn(n, atoi, Short) == (a, Found)
            && Behind(a, Rest(n), After(m, c) + Concat(chunks[1..]), Taken(m, c, atoi), end, atoi)
  {
    MeantGoesOn(m, chunks, end, atoi);
    a := SourceGoesOn(m, chunks[0], atoi);
  }

  lemma UriIsLost(m: Machine, chunks: seq<Bytes>, end: Parser, atoi: Atoi)
    requires chunks != [] && Lost(m, chunks[0]) && Completes(AsParser(m, Running), Concat(chunks), end, atoi) && m.state.Uri?
    ensures !Right(Drive(Fed(m, chunks[0]), chunks[1..], atoi), |chunks[1..]|, end)
  {
    WideIs(m, chunks[0]);
    UriLost(Fed(m, chunks[0]), atoi);
    RunEndsOnce(AsParser(m, Running), Concat(chunks), end, atoi);
    StopsShort(m, chunks, m.log, end, atoi);
  }

  lemma LineIsLost(m: Machine, chunks: seq<Bytes>, end: Parser, atoi: Atoi)
    requires chunks != [] && Lost(m, chunks[0]) && Completes(AsParser(m, Running), Concat(chunks), end, atoi)
    requires m.state.Value? || (m.state.Version? && Rest(Fed(m, chunks[0])) != [] && Rest(Fed(m, chunks[0]))[0] != '\n')
    ensures !Right(Drive(Fed(m, chunks[0]), chunks[1..], atoi), |chunks[1..]|, end)
  {
    var c := chunks[0];
    var a := BehindIs(m, chunks, end, atoi);
    FedClean(m, c);
    LineLost(Fed(m, c), atoi);
    RunEndsOnce(Taken(m, c, atoi), After(m, c) + Concat(chunks[1..]), end, atoi);
    StopsShort(m, chunks, a.log, end, atoi);
  }

  lemma FoundOn(n: Machine, a: Machine, chunks: seq<Bytes>, atoi: Atoi)
    requires Scanning(n.state) && n.cursor <= |n.input| && TokenTurn(n, atoi, Short) == (a, Found) && a.input != []
    ensures a.cursor <= |a.input| && Drive(n, chunks, atoi) == Drive(a, chunks, atoi)
  {
    GoesOn(n, a, atoi);
    DriveByLoop(n, a, chunks, atoi);
  }

  lemma KeyIsLost(m: Machine, chunks: seq<Bytes>, end: Parser, atoi: Atoi)
    requires chunks != [] && Lost(m, chunks[0]) && Completes(AsParser(m, Running), Concat(chunks), end, atoi) && m.state.Key?
    ensures !Right(Drive(Fed(m, chunks[0]), chunks[1..], atoi), |chunks[1..]|, end)
  {
    var c := chunks[0];
    var a := BehindIs(m, chunks, end, atoi);
    WideIs(m, c);
    FoundOn(Fed(m, c), a, chunks[1..], atoi);
    KeyLost(a, Rest(Fed(m, c)), After(m, c), chunks[1..], Taken(m, c, atoi), end, atoi);
  }

  lemma MethodIsLost(m: Machine, chunks: seq<Bytes>, end: Parser, atoi: Atoi)
    requires chunks != [] && Lost(m, chunks[0]) && Completes(AsParser(m, Running), Concat(chunks), end, atoi) && m.state.Method?
    ensures !Right(Drive(Fed(m, chunks[0]), chunks[1..], atoi), |chunks[1..]|, end)
  {
    var c := chunks[0];
    var a := BehindIs(m, chunks, end, atoi);
    var z := After(m, c) + Concat(chunks[1..]);
    WideIs(m, c);
    FoundOn(Fed(m, c), a, chunks[1..], atoi);
    UriAhead(Taken(m, c, atoi), z, end, atoi);
    RunEndsOnce(Taken(m, c, atoi), z, end, atoi);
    MethodLost(a, Rest(Fed(m, c)), After(m, c), chunks[1..], end, atoi);
  }

  lemma VersionIsLost(m: Machine, chunks: seq<Bytes>, end: Parser, atoi: Atoi)
    requires chunks != [] && Lost(m, chunks[0]) && Completes(AsParser(m, Running), Concat(chunks), end, atoi) && NoneEmpty(chunks)
    requires m.state.Version? && Rest(Fed(m, chunks[0])) != [] && Rest(Fed(m, chunks[0]))[0] == '\n'
    ensures !Right(Drive(Fed(m, chunks[0]), chunks[1..], atoi), |chunks[1..]|, end)
  {
    var c := chunks[0];
    var a := VersionDrives(m, chunks, end, atoi);
    VersionBehind(a, Rest(Fed(m, c)), After(m, c), chunks[1..], Taken(m, c, atoi), end, atoi);
  }

  lemma VersionDrives(m: Machine, chunks: seq<Bytes>, end: Parser, atoi: Atoi) returns (a: Machine)
    requires chunks != [] && Lost(m, chunks[0]) && Completes(AsParser(m, Running), Concat(chunks), end, atoi) && m.state.Version?
    ensures var c := chunks[0]; var rest, p := Rest(Fed(m, c)), Taken(m, c, atoi);
            && Place(m, c) < |c| && a.input == rest + After(m, c) && Behind(a, rest, After(m, c) + Concat(chunks[1..]), p, end, atoi)
            && p.state.RequestLineEol? && p.dataLeft == 0
            && KeptLine(rest)
    ensures a.cursor <= |a.input| && Drive(Fed(m, chunks[0]), chunks[1..], atoi) == Drive(a, chunks[1..], atoi)
  {
    a := BehindIs(m, chunks, end, atoi);
    VersionRest(m, chunks[0]);
    VersionTaken(m, chunks[0], atoi);
    FoundOn(Fed(m, chunks[0]), a, chunks[1..], atoi);
  }

  /** The end of a version, and the return. */
  predicate KeptLine(rest: Bytes) {
    2 <= |rest| && rest[|rest| - 1] == '\r' && forall k :: 0 <= k < |rest| - 1 ==> rest[k] != '\r'
  }

  lemma VersionTaken(m: Machine, c: Bytes, atoi: Atoi)
    requires Waiting(m) && m.state.Version?
    ensures var p := Taken(m, c, atoi); p.status.Running? ==> p.state.RequestLineEol? && p.dataLeft == 0
  {
  }

  lemma VersionRest(m: Machine, c: Bytes)
    requires Lost(m, c) && m.state.Version?
    ensures KeptLine(Rest(Fed(m, c)))
  {
    WideIs(m, c);
    FedClean(m, c);
    RestFree(Fed(m, c));
  }

  lemma VersionBehind(a: Machine, rest: Bytes, after: Bytes, chunks: seq<Bytes>, p: Parser, end: Parser, atoi: Atoi)
    requires Behind(a, rest, after + Concat(chunks), p, end, atoi) && p.state.RequestLineEol? && p.dataLeft == 0
    requires KeptLine(rest) && rest[0] == '\n' && a.input == rest + after && NoneEmpty(chunks)
    ensures !Right(Drive(a, chunks, atoi), |chunks|, end)
  {
    LineEnds(p, after + Concat(chunks), end, atoi);
    VersionLost(a, rest, after, chunks, end, atoi);
  }

  /** Only the last byte that is kept ends the token. */
  lemma RestFree(n: Machine)
    requires Scanning(n.state) && Clean(n) && WideToken(n)
    ensures 2 <= |Rest(n)| && forall k :: 0 <= k < |Rest(n)| - 1 ==> Rest(n)[k] != Success(n.state)
  {
    var j := Scanned(n).cursor;
    forall k | 0 <= k < j ensures n.input[k] != Success(n.state) {
      if k < n.cursor {
        assert n.input[..n.cursor][k] == n.input[k];
      }
    }
  }

  /** Then the request is not read right. */
  lemma BadChunk(m: Machine, chunks: seq<Bytes>, end: Parser, atoi: Atoi)
    requires chunks != [] && Lost(m, chunks[0]) && Completes(AsParser(m, Running), Concat(chunks), end, atoi) && NoneEmpty(chunks)
    ensures !Right(ReceivedAll(m, chunks, atoi, Short), |chunks|, end)
  {
    WideIs(m, chunks[0]);
    if m.state.Method? {
      MethodIsLost(m, chunks, end, atoi);
    } else if m.state.Uri? {
      UriIsLost(m, chunks, end, atoi);
    } else if m.state.Key? {
      KeyIsLost(m, chunks, end, atoi);
    } else if m.state.Version? && Rest(Fed(m, chunks[0]))[0] == '\n' {
      VersionIsLost(m, chunks, end, atoi);
    } else {
      LineIsLost(m, chunks, end, atoi);
    }
    LostLater(m, chunks, end, atoi);
  }

  // ---------- all chunks ----------

  lemma WaitsAgain(m: Machine, c: Bytes, atoi: Atoi)
    requires Waiting(m) && c != [] && Received(m, c, atoi, Short) == Received(m, c, atoi, Whole)
    requires Run(AsParser(m, Running), c, atoi).0.status.Running?
    ensures var (q, outcome) := Received(m, c, atoi, Short);
            Waiting(q) && AsParser(q, Running) == Run(AsParser(m, Running), c, atoi).0 && !outcome.Faulted? && !q.closed
  {
    FeedRefines(m, c, atoi);
    assert Unscanned(m) + c == c;
    RunKeepsTokenClean(AsParser(m, Running), c, atoi);
    var q := Received(m, c, atoi, Short).0;
    assert AsConn(q) == Conn(Run(AsParser(m, Running), c, atoi).0, []);
    assert q.input[q.cursor..] == [];
  }

  /** The last chunk. */
  lemma EndsRight(m: Machine, c: Bytes, end: Parser, atoi: Atoi)
    requires Waiting(m) && c != [] && Received(m, c, atoi, Short) == Received(m, c, atoi, Whole)
    requires Completes(AsParser(m, Running), c, end, atoi)
    ensures Right(ReceivedAll(m, [c], atoi, Short), 1, end)
  {
    FeedRefines(m, c, atoi);
    assert Unscanned(m) + c == c;
    var (q, outcome) := Received(m, c, atoi, Short);
    assert AsConn(q) == Conn(Settle(end), []);
    assert [c][1..] == [];
    assert ReceivedAll(m, [c], atoi, Short) == Counted(ReceivedAll(q, [], atoi, Short), 1);
  }

  lemma NextReceived(m: Machine, chunks: seq<Bytes>, end: Parser, atoi: Atoi)
    requires m.cursor <= |m.input| && !m.closed && chunks != [] && !Received(m, chunks[0], atoi, Short).1.Faulted?
    ensures Right(ReceivedAll(m, chunks, atoi, Short), |chunks|, end) <==>
            Right(ReceivedAll(Received(m, chunks[0], atoi, Short).0, chunks[1..], atoi, Short), |chunks[1..]|, end)
  {
  }

  /** Over all chunks: the source has used up everything and told handlers just what it should exactly if all tokens pass. */
  lemma {:induction false} ExactRun(m: Machine, chunks: seq<Bytes>, end: Parser, atoi: Atoi)
    requires Waiting(m) && ChunksFit(chunks) && Completes(AsParser(m, Running), Concat(chunks), end, atoi)
    ensures Right(ReceivedAll(m, chunks, atoi, Short), |chunks|, end) <==> TokensPass(Reads, AsParser(m, Running), Concat(chunks), atoi)
    decreases |chunks|
  {
    var p := AsParser(m, Running);
    RunEndsOnce(p, Concat(chunks), end, atoi);
    var c, tail := chunks[0], chunks[1..];
    var more := Concat(tail);
    PassSplit(Reads, p, c, more, atoi);
    RunAppend(p, c, more, atoi);
    if !TokensPass(Reads, p, c, atoi) {
      LostHere(m, c, atoi);
      BadChunk(m, chunks, end, atoi);
    } else {
      GoodChunk(m, c, atoi);
      if Run(p, c, atoi).0.status.Running? {
        WaitsAgain(m, c, atoi);
        ExactRun(Received(m, c, atoi, Short).0, tail, end, atoi);
        NextReceived(m, chunks, end, atoi);
      } else {
        LastChunk(p, c, tail, end, atoi);
        assert chunks == [c];
        EndsRight(m, c, end, atoi);
      }
    }
  }

  lemma LostHere(m: Machine, c: Bytes, atoi: Atoi)
    requires Waiting(m) && 0 < |c| < WIDTH && !TokensPass(Reads, AsParser(m, Running), c, atoi)
    ensures Lost(m, c)
  {
    if Scanning(m.state) {
      FirstToken(Reads, m, c, atoi);
      WideIs(m, c);
    } else {
      NoTokenYet(Reads, m, c, atoi);
      assert false;
    }
  }

  lemma LastChunk(p: Parser, c: Bytes, tail: seq<Bytes>, end: Parser, atoi: Atoi)
    requires Completes(p, c + Concat(tail), end, atoi) && !Run(p, c, atoi).0.status.Running? && NoneEmpty(tail)
    ensures tail == [] && Completes(p, c, end, atoi)
  {
    RunAppend(p, c, Concat(tail), atoi);
    ConcatEmpty(tail);
  }

  /** For any bytes that the parser that is meant reads as just one request. */
  lemma ReadsRight(w: Bytes, chunks: seq<Bytes>, end: Parser, atoi: Atoi)
    requires Completes(INITIAL, w, end, atoi) && ChunksFit(chunks) && Concat(chunks) == w
    ensures Right(ReceivedAll(NEW_MACHINE, chunks, atoi, Short), |chunks|, end) <==> TokensPass(Reads, INITIAL, w, atoi)
  {
    NewIsReady();
    assert AsParser(NEW_MACHINE, Running) == INITIAL;
    ExactRun(NEW_MACHINE, chunks, end, atoi);
  }

  /** So for a request written out: in whatever chunks shorter than 65536 bytes, all input is used up and the events are
      those that describe it exactly if its tokens pass. */
  lemma RequestReadsRight(m: Message, chunks: seq<Bytes>, atoi: Atoi)
    requires WellFormed(m, atoi) && ChunksFit(chunks) && Concat(chunks) == Text(m)
    ensures var (q, n) := ReceivedAll(NEW_MACHINE, chunks, atoi, Short);
            n == |chunks| && q.log == Events(m) && q.input[q.cursor..] == [] <==> MessagePasses(Reads, m)
  {
    assert Text(m) + [] == Text(m) && INITIAL.log + Events(m) == Events(m);
    RunMessage(INITIAL, m, [], atoi);
    PassMessage(Reads, m, atoi);
    ReadsRight(Text(m), chunks, Run(INITIAL, Text(m), atoi).0, atoi);
  }

  function Tabs(n: nat): Bytes {
    seq(n, _ => '\t')
  }

  /** So tokens need not be short: a method of a letter and 65535 tabs is read right, though its pop is cut. */
  lemma TabsAreRead(m: Message, chunks: seq<Bytes>, atoi: Atoi)
    requires m == Message("A" + Tabs(WIDTH - 1), "/", "HTTP/1.1", [], [])
    requires ChunksFit(chunks) && Concat(chunks) == Text(m)
    ensures WellFormed(m, atoi) && !MessagePasses(Fits, m)
    ensures var (q, n) := ReceivedAll(NEW_MACHINE, chunks, atoi, Short);
            n == |chunks| && q.log == Events(m) && q.input[q.cursor..] == []
  {
    TabsPass(m, atoi);
    RequestReadsRight(m, chunks, atoi);
  }

  lemma TabsPass(m: Message, atoi: Atoi)
    requires m == Message("A" + Tabs(WIDTH - 1), "/", "HTTP/1.1", [], [])
    ensures WellFormed(m, atoi) && !MessagePasses(Fits, m) && MessagePasses(Reads, m)
  {
    TabsKept(m.verb);
  }

  lemma TabsKept(t: Bytes)
    requires t == "A" + Tabs(WIDTH - 1)
    ensures Free(t, ' ', '\r') && NoLeadingSpace(t) && |t| == WIDTH && AllBlank(KeptOf(t))
  {
    assert t[0] == 'A' && forall k :: 0 < k < |t| ==> t[k] == '\t';
  }

  /** But most are not: with any other method of that length that has no blank in it, the events are other ones, or some
      input is left. */
  lemma LongIsLost(m: Message, chunks: seq<Bytes>, atoi: Atoi)
    requires WellFormed(m, atoi) && WIDTH <= |m.verb| + 1 && (forall k :: 0 <= k < |m.verb| ==> !IsSpace(m.verb[k]))
    requires ChunksFit(chunks) && Concat(chunks) == Text(m)
    ensures var (q, n) := ReceivedAll(NEW_MACHINE, chunks, atoi, Short);
            !(n == |chunks| && q.log == Events(m) && q.input[q.cursor..] == [])
  {
    NoBlankFails(m.verb);
    RequestReadsRight(m, chunks, atoi);
  }

  lemma NoBlankFails(t: Bytes)
    requires WIDTH <= |t| + 1 && forall k :: 0 <= k < |t| ==> !IsSpace(t[k])
    ensures !Passes(Reads, Method, t)
  {
    var kept := KeptOf(t);
    assert kept[0] == t[(|t| + 1) % WIDTH];
  }
}
