/**
 The machine and the automaton. With whole pops, a turn of the machine is a run of the automaton. With the 16-bit
 pops of the source it is that exactly when no pop is wide, which can be told from the automaton and its input.
 */
module HttpRefinement {
  import opened HttpParser
  import opened HttpMachine

  function StatusOf(result: ProcessResult): Status {
    match result
    case Error => Status.Failed
    case RequestEnd => Ended
    case _ => Running
  }

  function AsParser(m: Machine, status: Status): Parser
    requires m.cursor <= |m.input|
  {
    Parser(m.state, m.input[..m.cursor], m.methodName, m.uri, m.keepAlive, !m.handler.Missing?, m.dataLeft, status, m.log)
  }

  function Unscanned(m: Machine): Bytes
    requires m.cursor <= |m.input|
  {
    m.input[m.cursor..]
  }

  function AsConn(m: Machine): Conn
    requires m.cursor <= |m.input|
  {
    Conn(AsParser(m, if m.closed then Closed else Running), Unscanned(m))
  }

  predicate Shape(m: Machine) {
    m.cursor <= |m.input| && (!Scanning(m.state) ==> m.cursor == 0)
  }

  /** An open connection between turns: the handler is there exactly from the end of the request line to the last
      byte of data, and data is only read while some is left. */
  predicate Ready(m: Machine) {
    && Shape(m) && !m.closed && m.handler == (if InRequest(m.state) then Live else Missing)
    && (m.state.Data? ==> 0 < m.dataLeft)
  }

  predicate Settled(m: Machine) {
    Shape(m) && (!m.closed ==> Ready(m))
  }

  /** Between a turn and the end of the loop. */
  predicate AfterTurn(m: Machine, result: ProcessResult) {
    && Shape(m) && !m.closed
    && match result
       case Fault => false
       case Error => m.handler == if InRequest(m.state) then Live else Missing
       case RequestEnd => m.handler.Missing? && (m.state.HeadersEndEol? || m.state.Data?)
       case _ => Ready(m)
  }

  /** A turn from m to q is part of a run of the automaton. */
  predicate Continues(m: Machine, q: Machine, result: ProcessResult, atoi: Atoi) {
    && m.cursor <= |m.input| && AfterTurn(q, result)
    && Run(AsParser(m, Running), Unscanned(m), atoi) == Run(AsParser(q, StatusOf(result)), Unscanned(q), atoi)
    && (result.NotFound? ==> Unscanned(q) == [])
    && (if result.Found? then |q.input| < |m.input| else |q.input| <= |m.input|)
  }

  // ---------- whole pops ----------

  lemma ScannedRuns(m: Machine, atoi: Atoi)
    requires Ready(m) && Scanning(m.state)
    ensures Run(AsParser(m, Running), Unscanned(m), atoi) == Run(AsParser(Scanned(m), Running), Unscanned(Scanned(m)), atoi)
  {
    var q := Scanned(m);
    RunScan(AsParser(m, Running), m.input, m.cursor, q.cursor, atoi);
    assert m.input[..m.cursor] + m.input[m.cursor..q.cursor] == m.input[..q.cursor];
  }

  lemma ScannedRefines(m: Machine, atoi: Atoi)
    requires Ready(m) && Scanning(m.state)
    ensures var q := Scanned(m); var p := AsParser(q, Running);
            Run(AsParser(m, Running), Unscanned(m), atoi) ==
            if q.cursor == |q.input| then Run(p, Unscanned(q), atoi)
            else if q.input[q.cursor] == Success(m.state) then Run(TakeToken(p, atoi), q.input[q.cursor + 1..], atoi)
            else (p.(status := Status.Failed), Unscanned(q))
  {
    ScannedRuns(m, atoi);
    var q := Scanned(m);
    if q.cursor < |q.input| {
      assert Unscanned(q)[1..] == q.input[q.cursor + 1..];
    }
  }

  lemma HandledRefines(m: Machine, region: Bytes, atoi: Atoi)
    requires Ready(m) && Scanning(m.state) && m.cursor == 0
    ensures var (q, result) := Handled(m, region, atoi);
            && AsParser(q, StatusOf(result)) == TakeToken(AsParser(m, Running).(token := region), atoi)
            && AfterTurn(q, result) && q.input == m.input && (result.Found? || result.Error?)
  {
  }

  predicate Finds(m: Machine)
    requires m.cursor <= |m.input|
  {
    Scanning(m.state) && Scanned(m).cursor < |m.input| && m.input[Scanned(m).cursor] == Success(m.state)
  }

  lemma FoundShape(m: Machine, atoi: Atoi)
    requires Ready(m) && Finds(m)
    ensures var (r, result) := TokenTurn(m, atoi, Whole); var q := Scanned(m);
            && AfterTurn(r, result) && (result.Found? || result.Error?) && r.input == m.input[q.cursor + 1..] && r.cursor == 0
            && AsParser(r, StatusOf(result)) == TakeToken(AsParser(q, Running), atoi)
  {
    var q := Scanned(m);
    var s := Popped(q, q.cursor + 1, Whole);
    HandledRefines(s, q.input[..q.cursor], atoi);
    assert AsParser(s, Running).(token := q.input[..q.cursor]) == AsParser(q, Running);
  }

  lemma FoundRuns(m: Machine, atoi: Atoi)
    requires Ready(m) && Finds(m)
    ensures var (r, result) := TokenTurn(m, atoi, Whole);
            Run(AsParser(m, Running), Unscanned(m), atoi) == Run(AsParser(r, StatusOf(result)), Unscanned(r), atoi)
  {
    ScannedRefines(m, atoi);
    FoundShape(m, atoi);
  }

  lemma NotFoundRefines(m: Machine, atoi: Atoi)
    requires Ready(m) && Scanning(m.state) && !Finds(m)
    ensures var (q, result) := TokenTurn(m, atoi, Whole); Continues(m, q, result, atoi)
  {
    ScannedRefines(m, atoi);
  }

  lemma TokenRefines(m: Machine, atoi: Atoi)
    requires Ready(m) && Scanning(m.state)
    ensures var (q, result) := TokenTurn(m, atoi, Whole); Continues(m, q, result, atoi)
  {
    if Finds(m) {
      FoundRuns(m, atoi);
      FoundShape(m, atoi);
    } else {
      NotFoundRefines(m, atoi);
    }
  }

  lemma NewlineRefines(m: Machine, atoi: Atoi)
    requires Ready(m) && ExpectsNewline(m.state) && m.input != []
    ensures var (q, result) := NewlineTurn(m, Whole); Continues(m, q, result, atoi)
  {
    RunNewline(AsParser(m, Running), Unscanned(m), atoi);
    assert m.input[0..] == m.input && m.input[1..][0..] == m.input[1..];
    assert m.input[..0] == m.input[1..][..0];
  }

  lemma DataRefines(m: Machine, atoi: Atoi)
    requires Ready(m) && m.state.Data?
    ensures var (q, result) := DataTurn(m, Whole); Continues(m, q, result, atoi) && !result.Found?
    ensures var (q, result) := DataTurn(m, Whole); (AsParser(q, StatusOf(result)), Unscanned(q)) == TakeData(AsParser(m, Running), Unscanned(m))
  {
    RunTakeData(AsParser(m, Running), Unscanned(m), atoi);
    var (q, result) := DataTurn(m, Whole);
    assert m.input[0..] == m.input && q.input[0..] == q.input && m.input[..0] == q.input[..0];
  }

  lemma EatenRefines(m: Machine, atoi: Atoi)
    requires Ready(m) && SkipsSpaces(m.state)
    ensures var q := Eaten(m);
            && Ready(q) && |q.input| <= |m.input| && (q.input != [] ==> !IsSpace(q.input[0]))
            && Run(AsParser(m, Running), Unscanned(m), atoi) == Run(AsParser(q, Running), q.input, atoi)
  {
    var q := Eaten(m);
    assert m.input[0..] == m.input && m.input[..0] == q.input[..0];
    RunSpaces(AsParser(m, Running), m.input, Blanks(m.input), atoi);
  }

  lemma SpacesRefine(m: Machine, atoi: Atoi)
    requires Ready(m) && SkipsSpaces(m.state)
    ensures var (q, result) := SpacesTurn(m, atoi, Whole); Continues(m, q, result, atoi)
  {
    EatenRefines(m, atoi);
    var q := Eaten(m);
    assert q.input[0..] == q.input;
    if q.input != [] {
      if m.state.PreKey? && q.input[0] == '\r' {
        var s := Popped(q, 1, Whole).(state := HeadersEndEol);
        assert s.input[0..] == s.input && s.input[..0] == q.input[..0];
      } else {
        RunFallsThrough(AsParser(q, Running), q.input, atoi);
        TokenRefines(q.(state := AfterSpaces(q.state)), atoi);
      }
    }
  }

  lemma TurnRefines(m: Machine, atoi: Atoi)
    requires Ready(m) && (ExpectsNewline(m.state) ==> m.input != [])
    ensures var (q, result) := Turn(m, atoi, Whole); Continues(m, q, result, atoi)
  {
    if SkipsSpaces(m.state) {
      SpacesRefine(m, atoi);
    } else if Scanning(m.state) {
      TokenRefines(m, atoi);
    } else if ExpectsNewline(m.state) {
      NewlineRefines(m, atoi);
    } else {
      DataRefines(m, atoi);
    }
  }

  lemma {:induction false} LoopRefines(m: Machine, atoi: Atoi)
    requires Ready(m) && (ExpectsNewline(m.state) ==> m.input != [])
    ensures var (q, result) := Loop(m, atoi, Whole);
            && AfterTurn(q, result)
            && Run(AsParser(m, Running), Unscanned(m), atoi) == (AsParser(q, StatusOf(result)), Unscanned(q))
    decreases |m.input|, Rank(m.state)
  {
    TurnRefines(m, atoi);
    var (q, result) := Turn(m, atoi, Whole);
    if result.Found? && q.input != [] {
      LoopRefines(q, atoi);
    }
  }

  lemma FeedRefines(m: Machine, chunk: Bytes, atoi: Atoi)
    requires Ready(m) && (ExpectsNewline(m.state) ==> m.input + chunk != [])
    ensures var (q, outcome) := Received(m, chunk, atoi, Whole);
            && Settled(q) && AsConn(q) == Feed(AsConn(m), chunk, atoi)
            && outcome == Done(!Run(AsParser(m, Running), Unscanned(m) + chunk, atoi).0.status.Failed?)
  {
    var n := m.(input := m.input + chunk);
    assert n.input[..n.cursor] == m.input[..m.cursor] && n.input[n.cursor..] == m.input[m.cursor..] + chunk;
    LoopRefines(n, atoi);
  }

  // ---------- narrow pops ----------

  /** The byte at hand does not set off a pop whose length is cut. */
  predicate NarrowStep(p: Parser, w: Bytes)
    requires w != []
  {
    && (p.state.Data? ==> p.dataLeft < WIDTH || |w| < WIDTH)
    && (Scanning(p.state) && w[0] == Success(p.state) ==> |p.token| + 1 < WIDTH)
  }

  /** No byte does, in a run of the automaton: tokens are shorter than 65535 bytes, and what is there of a body when
      the data state is reached, or a chunk arrives in it, is shorter than 65536. */
  predicate Narrow(p: Parser, w: Bytes, atoi: Atoi)
    decreases |w|, if p.status.Running? then 1 else 0
  {
    w == [] || !p.status.Running? || (NarrowStep(p, w) && var (q, v) := Step(p, w, atoi); Narrow(q, v, atoi))
  }

  lemma {:induction false} NarrowSpaces(p: Parser, w: Bytes, n: nat, atoi: Atoi)
    requires n <= |w| && p.status.Running? && SkipsSpaces(p.state)
    requires forall i :: 0 <= i < n ==> IsSpace(w[i])
    ensures Narrow(p, w, atoi) == Narrow(p, w[n..], atoi)
    decreases n
  {
    if n != 0 {
      assert w[1..][n - 1..] == w[n..];
      NarrowSpaces(p, w[1..], n - 1, atoi);
    } else {
      assert w[0..] == w;
    }
  }

  lemma NarrowFallsThrough(p: Parser, w: Bytes, atoi: Atoi)
    requires p.status.Running? && SkipsSpaces(p.state) && w != [] && !IsSpace(w[0]) && p.token == []
    requires !(p.state.PreKey? && w[0] == '\r')
    ensures Narrow(p, w, atoi) == Narrow(p.(state := AfterSpaces(p.state)), w, atoi)
  {
  }

  lemma {:induction false} NarrowScan(p: Parser, s: Bytes, i: nat, j: nat, atoi: Atoi)
    requires i <= j <= |s| && p.status.Running? && Scanning(p.state)
    requires forall k :: i <= k < j ==> s[k] != Success(p.state) && s[k] != HttpParser.Fail(p.state)
    ensures Narrow(p, s[i..], atoi) == Narrow(p.(token := p.token + s[i..j]), s[j..], atoi)
    decreases j - i
  {
    if i == j {
      assert p.token + s[i..j] == p.token;
    } else {
      var q := p.(token := p.token + [s[i]]);
      assert Step(p, s[i..], atoi) == (q, s[i + 1..]);
      NarrowScan(q, s, i + 1, j, atoi);
      assert q.token + s[i + 1..j] == p.token + s[i..j];
    }
  }

  lemma {:induction false} NarrowBody(p: Parser, w: Bytes, n: nat, atoi: Atoi)
    requires n <= |w| && n < p.dataLeft && p.status.Running? && p.state.Data?
    requires p.dataLeft < WIDTH || |w| < WIDTH
    ensures Narrow(p, w, atoi) == Narrow(p.(dataLeft := p.dataLeft - n, log := p.log + Bodies(w[..n])), w[n..], atoi)
    decreases n
  {
    if n != 0 {
      var q := p.(dataLeft := p.dataLeft - 1, log := p.log + [Body(w[0])]);
      assert Step(p, w, atoi) == (q, w[1..]);
      NarrowBody(q, w[1..], n - 1, atoi);
      BodiesCons(p.log, w, n);
    } else {
      assert w[0..] == w && p.log + Bodies(w[..0]) == p.log;
    }
  }

  lemma NarrowData(p: Parser, w: Bytes, atoi: Atoi)
    requires 0 < p.dataLeft && p.status.Running? && p.state.Data?
    ensures Narrow(p, w, atoi) <==> p.dataLeft < WIDTH || |w| < WIDTH
  {
    if w != [] && (p.dataLeft < WIDTH || |w| < WIDTH) {
      var n := if |w| < p.dataLeft then |w| else p.dataLeft - 1;
      NarrowBody(p, w, n, atoi);
    }
  }

  // ---------- the turns that differ ----------

  predicate WideToken(m: Machine)
    requires Scanning(m.state) && m.cursor <= |m.input|
  {
    var q := Scanned(m);
    q.cursor < |q.input| && q.input[q.cursor] == Success(m.state) && WIDTH <= q.cursor + 1
  }

  /** The turn pops so many bytes that the length is cut. */
  predicate WideTurn(m: Machine)
    requires m.cursor <= |m.input|
  {
    if SkipsSpaces(m.state) then
      var q := Eaten(m);
      q.input != [] && !(q.state.PreKey? && q.input[0] == '\r') && WideToken(q.(state := AfterSpaces(q.state)))
    else if Scanning(m.state) then WideToken(m)
    else m.state.Data? && m.handler.Live? && WIDTH <= m.dataLeft && WIDTH <= |m.input|
  }

  lemma TokenSame(m: Machine, atoi: Atoi)
    requires Scanning(m.state) && m.cursor <= |m.input|
    ensures TokenTurn(m, atoi, Short) == TokenTurn(m, atoi, Whole) <==> !WideToken(m)
  {
    var q := Scanned(m);
    if WideToken(m) {
      assert Popped(q, q.cursor + 1, Short).input != Popped(q, q.cursor + 1, Whole).input;
    }
  }

  lemma DataSame(m: Machine)
    requires m.state.Data? && m.cursor <= |m.input|
    ensures DataTurn(m, Short) == DataTurn(m, Whole) <==> !(m.handler.Live? && WIDTH <= m.dataLeft && WIDTH <= |m.input|)
  {
    var n := if |m.input| > m.dataLeft then m.dataLeft else |m.input|;
    if m.handler.Live? && WIDTH <= n {
      assert Popped(m, n, Short).input != Popped(m, n, Whole).input;
    }
  }

  /** A turn of the source is the one that is meant exactly when its pop is not cut. */
  lemma TurnSame(m: Machine, atoi: Atoi)
    requires m.cursor <= |m.input|
    ensures Turn(m, atoi, Short) == Turn(m, atoi, Whole) <==> !WideTurn(m)
  {
    if SkipsSpaces(m.state) {
      var q := Eaten(m);
      TokenSame(q.(state := AfterSpaces(q.state)), atoi);
    } else if Scanning(m.state) {
      TokenSame(m, atoi);
    } else if m.state.Data? {
      DataSame(m);
    }
  }

  // ---------- narrow runs and turns that do not differ ----------

  /** After the turn, the run is as narrow as it was, if the turn was. */
  predicate NarrowOn(m: Machine, r: (Machine, ProcessResult), atoi: Atoi)
    requires m.cursor <= |m.input| && r.0.cursor <= |r.0.input|
  {
    Narrow(AsParser(m, Running), Unscanned(m), atoi) <==> !WideTurn(m) && Narrow(AsParser(r.0, StatusOf(r.1)), Unscanned(r.0), atoi)
  }

  lemma ScannedNarrow(m: Machine, atoi: Atoi)
    requires Ready(m) && Scanning(m.state)
    ensures Narrow(AsParser(m, Running), Unscanned(m), atoi) == Narrow(AsParser(Scanned(m), Running), Unscanned(Scanned(m)), atoi)
  {
    var q := Scanned(m);
    NarrowScan(AsParser(m, Running), m.input, m.cursor, q.cursor, atoi);
    assert m.input[..m.cursor] + m.input[m.cursor..q.cursor] == m.input[..q.cursor];
  }

  lemma FoundNarrow(m: Machine, atoi: Atoi)
    requires Ready(m) && Finds(m)
    ensures NarrowOn(m, TokenTurn(m, atoi, Whole), atoi)
  {
    ScannedNarrow(m, atoi);
    FoundShape(m, atoi);
    var q := Scanned(m);
    assert Unscanned(q)[1..] == m.input[q.cursor + 1..];
    assert Step(AsParser(q, Running), Unscanned(q), atoi) == (TakeToken(AsParser(q, Running), atoi), m.input[q.cursor + 1..]);
  }

  lemma NotFoundNarrow(m: Machine, atoi: Atoi)
    requires Ready(m) && Scanning(m.state) && !Finds(m)
    ensures NarrowOn(m, TokenTurn(m, atoi, Whole), atoi)
  {
    ScannedNarrow(m, atoi);
    var q := Scanned(m);
    if Unscanned(q) == [] {
      assert TokenTurn(m, atoi, Whole) == (q, NotFound);
    } else {
      assert TokenTurn(m, atoi, Whole) == (q, Error);
      assert Unscanned(q)[0] == q.input[q.cursor];
      assert Step(AsParser(q, Running), Unscanned(q), atoi) == (AsParser(q, Status.Failed), Unscanned(q));
    }
  }

  lemma TokenNarrow(m: Machine, atoi: Atoi)
    requires Ready(m) && Scanning(m.state)
    ensures NarrowOn(m, TokenTurn(m, atoi, Whole), atoi)
  {
    if Finds(m) {
      FoundNarrow(m, atoi);
    } else {
      NotFoundNarrow(m, atoi);
    }
  }

  lemma NewlineNarrow(m: Machine, atoi: Atoi)
    requires Ready(m) && ExpectsNewline(m.state) && m.input != []
    ensures NarrowOn(m, NewlineTurn(m, Whole), atoi)
  {
    NewlineStep(m, atoi);
    var (q, result) := NewlineTurn(m, Whole);
    assert Narrow(AsParser(m, Running), Unscanned(m), atoi) == Narrow(AsParser(q, StatusOf(result)), Unscanned(q), atoi);
  }

  lemma NewlineStep(m: Machine, atoi: Atoi)
    requires Ready(m) && ExpectsNewline(m.state) && m.input != []
    ensures var (q, result) := NewlineTurn(m, Whole);
            Unscanned(m) == m.input && (AsParser(q, StatusOf(result)), Unscanned(q)) == Step(AsParser(m, Running), m.input, atoi)
  {
    assert m.input[0..] == m.input && m.input[1..][0..] == m.input[1..];
    assert m.input[..0] == m.input[1..][..0];
  }

  lemma DataShape(m: Machine)
    requires Ready(m) && m.state.Data?
    ensures var (q, result) := DataTurn(m, Whole); result.RequestEnd? || (result.NotFound? && q.input == [])
    ensures Unscanned(m) == m.input
  {
  }

  lemma DataNarrow(m: Machine, atoi: Atoi)
    requires Ready(m) && m.state.Data?
    ensures NarrowOn(m, DataTurn(m, Whole), atoi)
  {
    var (q, result) := DataTurn(m, Whole);
    DataShape(m);
    NarrowData(AsParser(m, Running), m.input, atoi);
    assert Narrow(AsParser(q, StatusOf(result)), Unscanned(q), atoi);
  }

  lemma EatenNarrow(m: Machine, atoi: Atoi)
    requires Ready(m) && SkipsSpaces(m.state)
    ensures var q := Eaten(m);
            && Ready(q) && q.cursor == 0 && q.state == m.state && (q.input != [] ==> !IsSpace(q.input[0]))
            && Narrow(AsParser(m, Running), Unscanned(m), atoi) == Narrow(AsParser(q, Running), q.input, atoi)
  {
    var q := Eaten(m);
    assert m.input[0..] == m.input && m.input[..0] == q.input[..0];
    NarrowSpaces(AsParser(m, Running), m.input, Blanks(m.input), atoi);
  }

  lemma BlankLineNarrow(q: Machine, atoi: Atoi)
    requires Ready(q) && q.state.PreKey? && q.input != [] && q.input[0] == '\r'
    ensures var s := Popped(q, 1, Whole).(state := HeadersEndEol);
            Narrow(AsParser(q, Running), q.input, atoi) == Narrow(AsParser(s, Running), Unscanned(s), atoi)
  {
    var s := Popped(q, 1, Whole).(state := HeadersEndEol);
    assert s.input[0..] == s.input && s.input[..0] == q.input[..0];
    assert Step(AsParser(q, Running), q.input, atoi) == (AsParser(s, Running), s.input);
  }

  lemma SpacesNarrow(m: Machine, atoi: Atoi)
    requires Ready(m) && SkipsSpaces(m.state)
    ensures NarrowOn(m, SpacesTurn(m, atoi, Whole), atoi)
  {
    EatenNarrow(m, atoi);
    var q := Eaten(m);
    if q.input != [] {
      if m.state.PreKey? && q.input[0] == '\r' {
        BlankLineNarrow(q, atoi);
      } else {
        BeforeTokenNarrow(q, atoi);
      }
    }
  }

  lemma BeforeTokenNarrow(q: Machine, atoi: Atoi)
    requires Ready(q) && SkipsSpaces(q.state) && q.input != [] && !IsSpace(q.input[0]) && !(q.state.PreKey? && q.input[0] == '\r')
    ensures var s := q.(state := AfterSpaces(q.state)); var r := TokenTurn(s, atoi, Whole);
            Narrow(AsParser(q, Running), q.input, atoi) <==>
            !WideToken(s) && Narrow(AsParser(r.0, StatusOf(r.1)), Unscanned(r.0), atoi)
  {
    var s := q.(state := AfterSpaces(q.state));
    NarrowFallsThrough(AsParser(q, Running), q.input, atoi);
    TokenNarrow(s, atoi);
    NotSpaces(s, atoi);
  }

  lemma NotSpaces(s: Machine, atoi: Atoi)
    requires Ready(s) && Scanning(s.state) && s.cursor == 0
    ensures Unscanned(s) == s.input && WideTurn(s) == WideToken(s)
  {
  }

  lemma TurnNarrow(m: Machine, atoi: Atoi)
    requires Ready(m) && (ExpectsNewline(m.state) ==> m.input != [])
    ensures NarrowOn(m, Turn(m, atoi, Whole), atoi)
  {
    if SkipsSpaces(m.state) {
      SpacesNarrow(m, atoi);
    } else if Scanning(m.state) {
      TokenNarrow(m, atoi);
    } else if ExpectsNewline(m.state) {
      NewlineNarrow(m, atoi);
    } else {
      DataNarrow(m, atoi);
    }
  }

  /** Every turn of the loop is the one that is meant. */
  predicate SameLoop(m: Machine, atoi: Atoi)
    requires m.cursor <= |m.input|
    decreases |m.input|, Rank(m.state)
  {
    && Turn(m, atoi, Short) == Turn(m, atoi, Whole)
    && var (q, result) := Turn(m, atoi, Whole); (result.Found? && q.input != [] ==> SameLoop(q, atoi))
  }

  lemma {:induction false} SameLoopSame(m: Machine, atoi: Atoi)
    requires m.cursor <= |m.input| && SameLoop(m, atoi)
    ensures Loop(m, atoi, Short) == Loop(m, atoi, Whole)
    decreases |m.input|, Rank(m.state)
  {
    var (q, result) := Turn(m, atoi, Whole);
    if result.Found? && q.input != [] {
      SameLoopSame(q, atoi);
    }
  }

  /** The source takes the turns that are meant exactly when the run is narrow. */
  lemma {:induction false} SameIffNarrow(m: Machine, atoi: Atoi)
    requires Ready(m) && (ExpectsNewline(m.state) ==> m.input != [])
    ensures SameLoop(m, atoi) <==> Narrow(AsParser(m, Running), Unscanned(m), atoi)
    decreases |m.input|, Rank(m.state)
  {
    TurnSame(m, atoi);
    TurnNarrow(m, atoi);
    TurnRefines(m, atoi);
    var (q, result) := Turn(m, atoi, Whole);
    if result.Found? && q.input != [] {
      SameIffNarrow(q, atoi);
    }
  }

  lemma NarrowFeed(m: Machine, chunk: Bytes, atoi: Atoi)
    requires Ready(m) && chunk != [] && Narrow(AsParser(m, Running), Unscanned(m) + chunk, atoi)
    ensures var (q, outcome) := Received(m, chunk, atoi, Short);
            && Settled(q) && AsConn(q) == Feed(AsConn(m), chunk, atoi) && Received(m, chunk, atoi, Whole) == (q, outcome)
            && outcome == Done(!Run(AsParser(m, Running), Unscanned(m) + chunk, atoi).0.status.Failed?)
  {
    var n := m.(input := m.input + chunk);
    assert n.input[..n.cursor] == m.input[..m.cursor] && n.input[n.cursor..] == m.input[m.cursor..] + chunk;
    SameIffNarrow(n, atoi);
    SameLoopSame(n, atoi);
    FeedRefines(m, chunk, atoi);
  }

  // ---------- examining bytes ----------

  /** Bytes examined, and bytes that may still have to be. */
  function Due(m: Machine): int {
    m.examined + |m.input| - m.cursor
  }

  /** With whole pops each byte is examined once. */
  predicate Linear(m: Machine, r: (Machine, ProcessResult)) {
    r.0.examined <= Due(m) && (!r.1.Error? ==> Due(r.0) <= Due(m))
  }

  lemma TokenLinear(m: Machine, atoi: Atoi)
    requires Scanning(m.state) && m.cursor <= |m.input|
    ensures Linear(m, TokenTurn(m, atoi, Whole))
  {
  }

  lemma SpacesLinear(m: Machine, atoi: Atoi)
    requires SkipsSpaces(m.state) && m.cursor <= |m.input|
    ensures Linear(m, SpacesTurn(m, atoi, Whole))
  {
    var q := Eaten(m);
    if q.input != [] && !(q.state.PreKey? && q.input[0] == '\r') {
      TokenLinear(q.(state := AfterSpaces(q.state)), atoi);
    }
  }

  lemma TurnLinear(m: Machine, atoi: Atoi)
    requires m.cursor <= |m.input|
    ensures Linear(m, Turn(m, atoi, Whole))
  {
    if SkipsSpaces(m.state) {
      SpacesLinear(m, atoi);
    } else if Scanning(m.state) {
      TokenLinear(m, atoi);
    }
  }

  lemma {:induction false} LoopLinear(m: Machine, atoi: Atoi)
    requires m.cursor <= |m.input|
    ensures Linear(m, Loop(m, atoi, Whole))
    decreases |m.input|, Rank(m.state)
  {
    TurnLinear(m, atoi);
    var (q, result) := Turn(m, atoi, Whole);
    if result.Found? && q.input != [] {
      LoopLinear(q, atoi);
    }
  }
}
