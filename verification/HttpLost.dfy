/** A request that is never read right: what becomes of the connection after a token of which the source keeps too much. */
module HttpLost {
  import opened HttpParser
  import opened HttpMachine
  import opened HttpTheorems
  import opened HttpRefinement
  import opened HttpProtocol
  import opened HttpTokens
  import opened HttpComplete
  import opened HttpWide
  import opened HttpClosed

  /** What is there is parsed, then chunks are received. */
  function Drive(m: Machine, chunks: seq<Bytes>, atoi: Atoi): (r: (Machine, nat))
    requires m.cursor <= |m.input|
    ensures r.0.cursor <= |r.0.input|
  {
    var (e, result) := Loop(m, atoi, Short);
    var (f, outcome) := Finished(e, result);
    if outcome.Faulted? then (f, 0) else ReceivedAll(f, chunks, atoi, Short)
  }

  lemma ReceivedDrives(m: Machine, chunks: seq<Bytes>, atoi: Atoi)
    requires m.cursor <= |m.input| && !m.closed && chunks != []
    ensures ReceivedAll(m, chunks, atoi, Short) == Counted(Drive(More(m, chunks), chunks[1..], atoi), 1)
  {
  }

  /** All has been received and used up, and handlers have been told just what they should. */
  predicate Right(r: (Machine, nat), total: nat, end: Parser) {
    r.0.cursor <= |r.0.input| && r.1 == total && r.0.log == end.log && r.0.input[r.0.cursor..] == []
  }

  lemma ClosedStops(m: Machine, chunks: seq<Bytes>, atoi: Atoi)
    requires m.cursor <= |m.input| && m.closed
    ensures ReceivedAll(m, chunks, atoi, Short) == (m, 0)
  {
  }

  lemma ErrorCloses(m: Machine)
    ensures var (f, outcome) := Finished(m, Error); f.closed && f.log == m.log && f.input == m.input && f.cursor == m.cursor
  {
  }

  lemma ErrorDrives(m: Machine, e: Machine, chunks: seq<Bytes>, atoi: Atoi)
    requires m.cursor <= |m.input| && Loop(m, atoi, Short) == (e, Error)
    ensures Drive(m, chunks, atoi) == (Finished(e, Error).0, 0)
  {
    ErrorCloses(e);
    ClosedStops(Finished(e, Error).0, chunks, atoi);
  }

  lemma ErrorIsWrong(m: Machine, chunks: seq<Bytes>, end: Parser, atoi: Atoi)
    requires m.cursor <= |m.input| && Loop(m, atoi, Short).1.Error? && Loop(m, atoi, Short).0.log != end.log
    ensures !Right(Drive(m, chunks, atoi), |chunks|, end)
  {
    var (e, result) := Loop(m, atoi, Short);
    ErrorDrives(m, e, chunks, atoi);
    ErrorCloses(e);
  }

  /** What is still to be looked at. */
  function Stream(m: Machine, chunks: seq<Bytes>): Bytes
    requires m.cursor <= |m.input|
  {
    m.input[m.cursor..] + Concat(chunks)
  }

  /** With the next chunk. */
  function More(m: Machine, chunks: seq<Bytes>): Machine
    requires chunks != []
  {
    m.(input := m.input + chunks[0])
  }

  lemma DriveOn(m: Machine, q: Machine, chunks: seq<Bytes>, atoi: Atoi)
    requires m.cursor <= |m.input| && Loop(m, atoi, Short) == (q, NotFound)
    ensures Drive(m, chunks, atoi) == ReceivedAll(q, chunks, atoi, Short)
  {
  }

  lemma StreamOn(q: Machine, chunks: seq<Bytes>)
    requires q.cursor == |q.input| && chunks != []
    ensures Stream(More(q, chunks), chunks[1..]) == Concat(chunks)
  {
    assert More(q, chunks).input[q.cursor..] == chunks[0];
  }

  /** Where all that is there has been looked at, the next chunk decides. */
  lemma NextChunk(m: Machine, q: Machine, chunks: seq<Bytes>, end: Parser, atoi: Atoi)
    requires m.cursor <= |m.input| && Loop(m, atoi, Short) == (q, NotFound) && q.cursor == |q.input| && !q.closed && chunks != []
    ensures Stream(More(q, chunks), chunks[1..]) == Concat(chunks)
    ensures var r := Drive(More(q, chunks), chunks[1..], atoi);
            && Drive(m, chunks, atoi) == Counted(r, 1)
            && (Right(Drive(m, chunks, atoi), |chunks|, end) <==> Right(r, |chunks[1..]|, end))
  {
    DriveOn(m, q, chunks, atoi);
    ReceivedDrives(q, chunks, atoi);
    StreamOn(q, chunks);
  }

  lemma LostLater(h: Machine, chunks: seq<Bytes>, end: Parser, atoi: Atoi)
    requires h.cursor <= |h.input| && !h.closed && chunks != []
    requires !Right(Drive(More(h, chunks), chunks[1..], atoi), |chunks[1..]|, end)
    ensures !Right(ReceivedAll(h, chunks, atoi, Short), |chunks|, end)
  {
    ReceivedDrives(h, chunks, atoi);
  }

  // ---------- turns ----------

  /** What a turn of a scanning state comes to that does not find the success byte. */
  lemma ScanCases(m: Machine, atoi: Atoi)
    requires Scanning(m.state) && m.cursor <= |m.input| && !Finds(m)
    ensures Loop(m, atoi, Short) == (Scanned(m), if Scanned(m).cursor == |m.input| then NotFound else Error)
  {
    assert Turn(m, atoi, Short) == TokenTurn(m, atoi, Short);
  }

  lemma LoopByTurn(a: Machine, b: Machine, atoi: Atoi)
    requires a.cursor <= |a.input| && b.cursor <= |b.input| && Turn(a, atoi, Short) == Turn(b, atoi, Short)
    ensures Loop(a, atoi, Short) == Loop(b, atoi, Short)
  {
  }

  lemma LoopEnds1(m: Machine, q: Machine, result: ProcessResult, atoi: Atoi)
    requires m.cursor <= |m.input| && Turn(m, atoi, Short) == (q, result) && (!result.Found? || q.input == [])
    ensures Loop(m, atoi, Short) == (q, result)
  {
  }

  lemma AllEaten(m: Machine, atoi: Atoi)
    requires m.cursor == 0 && SkipsSpaces(m.state) && AllBlank(m.input)
    ensures Loop(m, atoi, Short) == (m.(input := []), NotFound)
  {
    BlanksOnly(m);
    assert SpacesTurn(m, atoi, Short) == (Eaten(m), NotFound);
    LoopEnds1(m, Eaten(m), NotFound, atoi);
  }

  lemma BlanksOnly(m: Machine)
    requires m.cursor == 0 && AllBlank(m.input)
    ensures Eaten(m) == m.(input := [])
  {
    BlanksBehind(m.input, []);
    assert m.input + [] == m.input;
  }

  lemma NoneEaten(m: Machine, atoi: Atoi)
    requires m.cursor <= |m.input| && SkipsSpaces(m.state) && !AllBlank(m.input)
    requires m.state.PreKey? ==> Eaten(m).input == [] || Eaten(m).input[0] != '\r'
    ensures var v := Eaten(m).(state := AfterSpaces(m.state)); v.cursor <= |v.input| && Loop(m, atoi, Short) == Loop(v, atoi, Short)
  {
    BlanksOf(m.input, []);
    TokenAfterBlanks(m, atoi);
    LoopByTurn(m, Eaten(m).(state := AfterSpaces(m.state)), atoi);
  }

  lemma TokenAfterBlanks(m: Machine, atoi: Atoi)
    requires m.cursor <= |m.input| && SkipsSpaces(m.state) && Eaten(m).input != [] && (m.state.PreKey? ==> Eaten(m).input[0] != '\r')
    ensures Turn(m, atoi, Short) == Turn(Eaten(m).(state := AfterSpaces(m.state)), atoi, Short)
  {
    var v := Eaten(m).(state := AfterSpaces(m.state));
    assert SpacesTurn(m, atoi, Short) == TokenTurn(v, atoi, Short);
  }

  // ---------- a URI where a version should be ----------

  /** A blank comes before a return. */
  predicate BlankFirst(u: Bytes) {
    exists i :: 0 <= i < |u| && u[i] == ' ' && NoneIn(u, 0, i, Uri)
  }

  predicate BlankAhead(z: Bytes) {
    BlankFirst(z[Blanks(z)..])
  }

  lemma BlankLocated(input: Bytes, c: nat, more: Bytes)
    requires c <= |input| && BlankFirst(input[c..] + more)
    ensures var j := Located(input, c, '\r', ' ');
            if j < |input| then input[j] == ' ' else more != [] && BlankFirst(more)
  {
    var u := input[c..] + more;
    var i :| 0 <= i < |u| && u[i] == ' ' && NoneIn(u, 0, i, Uri);
    var j := Located(input, c, '\r', ' ');
    assert forall k :: c <= k < |input| ==> input[k] == u[k - c];
    if j == |input| {
      var n := |input| - c;
      assert forall k :: 0 <= k < |more| ==> more[k] == u[n + k];
      assert n <= i && more[i - n] == ' ' && NoneIn(more, 0, i - n, Uri);
    }
  }

  lemma {:induction false} VersionFails(m: Machine, chunks: seq<Bytes>, end: Parser, atoi: Atoi)
    requires m.cursor <= |m.input| && !m.closed && m.state.Version? && m.log != end.log && BlankFirst(Stream(m, chunks))
    ensures !Right(Drive(m, chunks, atoi), |chunks|, end)
    decreases |chunks|
  {
    BlankLocated(m.input, m.cursor, Concat(chunks));
    ScanCases(m, atoi);
    var q := Scanned(m);
    if q.cursor < |m.input| {
      ErrorIsWrong(m, chunks, end, atoi);
    } else {
      NextChunk(m, q, chunks, end, atoi);
      VersionFails(More(q, chunks), chunks[1..], end, atoi);
    }
  }

  /** The same before the version has begun. */
  lemma {:induction false} PreVersionFails(m: Machine, chunks: seq<Bytes>, end: Parser, atoi: Atoi)
    requires m.cursor == 0 && !m.closed && m.state.PreVersion? && m.log != end.log
    requires BlankAhead(Stream(m, chunks))
    ensures !Right(Drive(m, chunks, atoi), |chunks|, end)
    decreases |chunks|
  {
    var more := Concat(chunks);
    assert m.input[0..] == m.input;
    AheadOf(m.input, more);
    if AllBlank(m.input) {
      var e := m.(input := []);
      AllEaten(m, atoi);
      NextChunk(m, e, chunks, end, atoi);
      PreVersionFails(More(e, chunks), chunks[1..], end, atoi);
    } else {
      VersionBegins(m, chunks, end, atoi);
    }
  }

  lemma VersionBegins(m: Machine, chunks: seq<Bytes>, end: Parser, atoi: Atoi)
    requires m.cursor == 0 && !m.closed && m.state.PreVersion? && m.log != end.log
    requires !AllBlank(m.input) && BlankFirst(m.input[Blanks(m.input)..] + Concat(chunks))
    ensures !Right(Drive(m, chunks, atoi), |chunks|, end)
  {
    var v := Eaten(m).(state := Version);
    NoneEaten(m, atoi);
    assert v.input[0..] == m.input[Blanks(m.input)..];
    VersionFails(v, chunks, end, atoi);
    DriveByLoop(m, v, chunks, atoi);
  }

  lemma AheadOf(a: Bytes, b: Bytes)
    requires BlankAhead(a + b)
    ensures if AllBlank(a) then BlankAhead(b) && b != [] else BlankFirst(a[Blanks(a)..] + b)
  {
    if AllBlank(a) {
      BlanksBehind(a, b);
      assert (a + b)[|a| + Blanks(b)..] == b[Blanks(b)..];
    } else {
      BlanksOf(a, b);
    }
  }

  /** A byte that is no blank ends the blanks, whatever follows. */
  lemma {:induction false} BlanksOf(a: Bytes, b: Bytes)
    requires !AllBlank(a)
    ensures Blanks(a + b) == Blanks(a) < |a| && (a + b)[Blanks(a)..] == a[Blanks(a)..] + b
    decreases |a|
  {
    if IsSpace(a[0]) {
      assert (a + b)[1..] == a[1..] + b;
      BlanksOf(a[1..], b);
    }
  }

  // ---------- a name whose end becomes part of the value ----------

  lemma FinishedGrows(m: Machine, result: ProcessResult)
    ensures Finished(m, result).0.log == m.log
  {
  }

  lemma ReceivedGrows(m: Machine, chunk: Bytes, atoi: Atoi)
    requires m.cursor <= |m.input|
    ensures m.log <= Received(m, chunk, atoi, Short).0.log
  {
    var n := m.(input := m.input + chunk);
    LogGrows(n, atoi);
    var (q, result) := Loop(n, atoi, Short);
    FinishedGrows(q, result);
  }

  lemma {:induction false} AllGrows(m: Machine, chunks: seq<Bytes>, atoi: Atoi)
    requires m.cursor <= |m.input|
    ensures m.log <= ReceivedAll(m, chunks, atoi, Short).0.log
    decreases |chunks|
  {
    if chunks != [] && !m.closed {
      ReceivedGrows(m, chunks[0], atoi);
      AllGrows(Received(m, chunks[0], atoi, Short).0, chunks[1..], atoi);
    }
  }

  lemma DriveGrows(m: Machine, chunks: seq<Bytes>, atoi: Atoi)
    requires m.cursor <= |m.input|
    ensures m.log <= Drive(m, chunks, atoi).0.log
  {
    LogGrows(m, atoi);
    var (e, result) := Loop(m, atoi, Short);
    FinishedGrows(e, result);
    AllGrows(Finished(e, result).0, chunks, atoi);
  }

  /** What is found in a stream at place i is found in the input or later. */
  lemma StreamLocated(input: Bytes, c: nat, more: Bytes, s: State, i: nat)
    requires c <= |input| && Scanning(s) && i < |input[c..] + more|
    requires var u := input[c..] + more; NoneIn(u, 0, i, s) && (u[i] == Success(s) || u[i] == HttpParser.Fail(s))
    ensures var j := Located(input, c, Success(s), HttpParser.Fail(s)); var n := |input| - c;
            if i < n then j == c + i && input[j] == (input[c..] + more)[i]
            else j == |input| && i - n < |more| && more[i - n] == (input[c..] + more)[i] && NoneIn(more, 0, i - n, s)
  {
    var u, n := input[c..] + more, |input| - c;
    assert forall k :: c <= k < |input| ==> input[k] == u[k - c];
    assert forall k :: 0 <= k < |more| ==> more[k] == u[n + k];
  }

  lemma HeaderFound(m: Machine, chunks: seq<Bytes>, j: nat, atoi: Atoi)
    requires m.cursor <= |m.input| && m.state.Value? && m.handler.Live?
    requires j < |m.input| && Scanned(m).cursor == j && m.input[j] == '\r'
    ensures m.log + [Header(m.methodName, m.input[..j])] <= Drive(m, chunks, atoi).0.log
  {
    var s := Popped(Scanned(m), j + 1, Short);
    FoundTurn(m, atoi);
    ValueHandled(s, m.input[..j], atoi);
    TurnInDrive(m, Handled(s, m.input[..j], atoi).0, chunks, atoi);
  }

  lemma ValueHandled(s: Machine, v: Bytes, atoi: Atoi)
    requires s.state.Value? && s.handler.Live?
    ensures var (a, r) := Handled(s, v, atoi); r == Found && a.log == s.log + [Header(s.methodName, v)]
  {
  }

  lemma FoundTurn(m: Machine, atoi: Atoi)
    requires m.cursor <= |m.input| && Finds(m)
    ensures var q := Scanned(m); Turn(m, atoi, Short) == Handled(Popped(q, q.cursor + 1, Short), m.input[..q.cursor], atoi)
  {
    var q := Scanned(m);
    assert TokenTurn(m, atoi, Short) == Handled(Popped(q, q.cursor + 1, Short), m.input[..q.cursor], atoi);
  }

  lemma TurnInDrive(m: Machine, a: Machine, chunks: seq<Bytes>, atoi: Atoi)
    requires m.cursor <= |m.input| && Turn(m, atoi, Short) == (a, Found)
    ensures a.log <= Drive(m, chunks, atoi).0.log
  {
    LoopInLog(m, a, atoi);
    var (e, result) := Loop(m, atoi, Short);
    FinishedGrows(e, result);
    AllGrows(Finished(e, result).0, chunks, atoi);
  }

  lemma LoopInLog(m: Machine, a: Machine, atoi: Atoi)
    requires m.cursor <= |m.input| && Turn(m, atoi, Short) == (a, Found)
    ensures a.log <= Loop(m, atoi, Short).0.log
  {
    if a.input != [] {
      LogGrows(a, atoi);
    }
  }

  /** A header comes with all that is behind the cursor and before the return. */
  lemma {:induction false} HeaderComes(m: Machine, chunks: seq<Bytes>, i: nat, atoi: Atoi)
    requires m.cursor <= |m.input| && !m.closed && m.state.Value? && m.handler.Live?
    requires var u := Stream(m, chunks); i < |u| && u[i] == '\r' && NoneIn(u, 0, i, Value)
    ensures m.log + [Header(m.methodName, m.input[..m.cursor] + Stream(m, chunks)[..i])] <= Drive(m, chunks, atoi).0.log
    decreases |chunks|
  {
    var u, more := Stream(m, chunks), Concat(chunks);
    StreamLocated(m.input, m.cursor, more, Value, i);
    var q := Scanned(m);
    var n := |m.input| - m.cursor;
    HeaderText(m.input, m.cursor, more, i);
    if i < n {
      HeaderFound(m, chunks, q.cursor, atoi);
    } else {
      ScanCases(m, atoi);
      NextChunk(m, q, chunks, AsParser(m, Running), atoi);
      var next := More(q, chunks);
      assert next.input[..next.cursor] == m.input && next.log == m.log && next.methodName == m.methodName;
      HeaderComes(next, chunks[1..], i - n, atoi);
    }
  }

  lemma HeaderText(input: Bytes, c: nat, more: Bytes, i: nat)
    requires c <= |input| && i < |input[c..] + more|
    ensures var u := input[c..] + more; var n := |input| - c;
            input[..c] + u[..i] == if i < n then input[..c + i] else input + more[..i - n]
  {
  }

  /** So the name's last byte that is kept, its colon, is part of the value. */
  lemma KeyLost(a: Machine, rest: Bytes, after: Bytes, chunks: seq<Bytes>, p: Parser, end: Parser, atoi: Atoi)
    requires a.state.PreValue? && a.handler.Live? && !a.closed && rest != [] && rest[|rest| - 1] == ':'
    requires a.input == rest + after && a.cursor == |rest| - 1
    requires Completes(p, after + Concat(chunks), end, atoi) && p.state.PreValue? && p.token == [] && p.log == a.log
    ensures !Right(Drive(a, chunks, atoi), |chunks|, end)
  {
    var z := after + Concat(chunks);
    var j := MeantValue(p, z, end, atoi);
    var v := KeyHeader(a, rest, after, chunks, j, atoi);
    LongerHeader(a.log, p.methodName, z[Blanks(z)..][..j], a.methodName, v, end.log, Drive(a, chunks, atoi).0.log);
  }

  lemma KeyHeader(a: Machine, rest: Bytes, after: Bytes, chunks: seq<Bytes>, j: nat, atoi: Atoi) returns (v: Bytes)
    requires a.state.PreValue? && a.handler.Live? && !a.closed && rest != [] && rest[|rest| - 1] == ':'
    requires a.input == rest + after && a.cursor == |rest| - 1
    requires var z := after + Concat(chunks);
             Blanks(z) + j < |z| && z[Blanks(z)..][j] == '\r' && NoneIn(z[Blanks(z)..], 0, j, Value)
    ensures j < |v| && a.log + [Header(a.methodName, v)] <= Drive(a, chunks, atoi).0.log
  {
    var z := after + Concat(chunks);
    var e := Eaten(a).(state := Value);
    assert !IsSpace(rest[|rest| - 1]);
    KeptStream(a, rest, after, Concat(chunks));
    ValueDrives(a, chunks, atoi);
    var i := 1 + Blanks(z) + j;
    ColonFirst(z, Blanks(z), j);
    HeaderComes(e, chunks, i, atoi);
    v := e.input[..e.cursor] + Stream(e, chunks)[..i];
  }

  lemma LongerHeader(log: seq<Event>, name: Bytes, v: Bytes, name': Bytes, v': Bytes, meant: seq<Event>, told: seq<Event>)
    requires |v| < |v'| && log + [Header(name, v)] <= meant && log + [Header(name', v')] <= told
    ensures meant != told
  {
    assert meant[|log|] == Header(name, v) && told[|log|] == Header(name', v');
  }

  lemma MeantValue(p: Parser, z: Bytes, end: Parser, atoi: Atoi) returns (j: nat)
    requires Completes(p, z, end, atoi) && p.state.PreValue? && p.token == []
    ensures Blanks(z) + j < |z| && z[Blanks(z)..][j] == '\r' && NoneIn(z[Blanks(z)..], 0, j, Value)
    ensures p.log + [Header(p.methodName, z[Blanks(z)..][..j])] <= end.log
  {
    j := ScansBehindBlanks(p, z, end, atoi);
    var v := z[Blanks(z)..];
    RunEndsOnce(TakeToken(p.(state := Value, token := v[..j]), atoi), v[j + 1..], end, atoi);
  }

  /** Behind the blanks the cursor is still at the delimiter that was kept. */
  lemma EatenInside(a: Machine, rest: Bytes, after: Bytes)
    requires !AllBlank(rest) && a.input == rest + after && a.cursor == |rest| - 1
    ensures var k := Blanks(rest);
            k < |rest| && !AllBlank(a.input) && Eaten(a) == a.(input := rest[k..] + after, cursor := |rest| - 1 - k)
  {
    BlanksOf(rest, after);
    BlanksOf(rest, []);
    var k := Blanks(rest);
    assert a.input[k] == rest[k] && !IsSpace(a.input[k]);
  }

  lemma CursorAt(rest: Bytes, k: nat, after: Bytes)
    requires k < |rest|
    ensures (rest[k..] + after)[|rest| - 1 - k..] == [rest[|rest| - 1]] + after
  {
  }

  lemma DriveByLoop(a: Machine, b: Machine, chunks: seq<Bytes>, atoi: Atoi)
    requires a.cursor <= |a.input| && b.cursor <= |b.input| && Loop(a, atoi, Short) == Loop(b, atoi, Short)
    ensures Drive(a, chunks, atoi) == Drive(b, chunks, atoi)
  {
  }

  lemma KeptText(rest: Bytes, k: nat, after: Bytes, more: Bytes)
    requires k < |rest|
    ensures (rest[k..] + after)[|rest| - 1 - k..] + more == [rest[|rest| - 1]] + (after + more)
  {
    CursorAt(rest, k, after);
    assert ([rest[|rest| - 1]] + after) + more == [rest[|rest| - 1]] + (after + more);
  }

  lemma KeptStream(a: Machine, rest: Bytes, after: Bytes, more: Bytes)
    requires !AllBlank(rest) && a.input == rest + after && a.cursor == |rest| - 1
    ensures var e := Eaten(a);
            !AllBlank(a.input) && e.cursor < |e.input| && e.input[e.cursor..] + more == [rest[|rest| - 1]] + (after + more)
  {
    EatenInside(a, rest, after);
    KeptText(rest, Blanks(rest), after, more);
  }

  lemma ValueDrives(a: Machine, chunks: seq<Bytes>, atoi: Atoi)
    requires a.state.PreValue? && !AllBlank(a.input) && a.cursor <= |a.input|
    ensures var e := Eaten(a).(state := Value); e.cursor <= |e.input| && Drive(a, chunks, atoi) == Drive(e, chunks, atoi)
  {
    NoneEaten(a, atoi);
    DriveByLoop(a, Eaten(a).(state := Value), chunks, atoi);
  }

  lemma ColonFirst(z: Bytes, b: nat, j: nat)
    requires b == Blanks(z) && b + j < |z| && z[b..][j] == '\r' && NoneIn(z[b..], 0, j, Value)
    ensures var u := ":" + z; u[1 + b + j] == '\r' && NoneIn(u, 0, 1 + b + j, Value)
  {
    var u := ":" + z;
    forall k | 0 <= k < 1 + b + j ensures u[k] != '\r' && u[k] != '\n' {
      if k > b {
        assert u[k] == z[b..][k - 1 - b];
      }
    }
    assert u[1 + b + j] == z[b..][j];
  }

  // ---------- a version whose end is taken for the end of the headers ----------

  /** A request that begins with a return comes to nothing, and stays. */
  lemma {:induction false} NoMethod(f: Machine, chunks: seq<Bytes>, end: Parser, atoi: Atoi)
    requires f.state.PreMethod? && f.cursor == 0 && !f.closed
    requires ReturnFirst(f.input + Concat(chunks))
    ensures !Right(ReceivedAll(f, chunks, atoi, Short), |chunks|, end)
    decreases |chunks|
  {
    if chunks == [] {
      assert f.input + Concat(chunks) == f.input;
    } else {
      var n, tail := More(f, chunks), chunks[1..];
      assert f.input + Concat(chunks) == n.input + Concat(tail);
      if AllBlank(n.input) {
        BlanksPassed(n.input, Concat(tail));
        BlanksDrive(n, tail, atoi);
        NoMethod(n.(input := []), tail, end, atoi);
      } else {
        ReturnStays(n, tail, end, atoi);
      }
      LostLater(f, chunks, end, atoi);
    }
  }

  lemma BlanksDrive(n: Machine, chunks: seq<Bytes>, atoi: Atoi)
    requires n.cursor == 0 && SkipsSpaces(n.state) && AllBlank(n.input)
    ensures Drive(n, chunks, atoi) == ReceivedAll(n.(input := []), chunks, atoi, Short)
  {
    AllEaten(n, atoi);
    DriveOn(n, n.(input := []), chunks, atoi);
  }

  lemma BlanksPassed(a: Bytes, b: Bytes)
    requires AllBlank(a)
    ensures ReturnFirst(a + b) ==> ReturnFirst(b)
    ensures [] + b == b
  {
    BlanksBehind(a, b);
  }

  lemma ReturnStays(n: Machine, chunks: seq<Bytes>, end: Parser, atoi: Atoi)
    requires n.state.PreMethod? && n.cursor == 0 && !AllBlank(n.input)
    requires ReturnFirst(n.input + Concat(chunks))
    ensures !Right(Drive(n, chunks, atoi), |chunks|, end)
  {
    BlanksOf(n.input, Concat(chunks));
    BlanksOf(n.input, []);
    NoneEaten(n, atoi);
    var v := Eaten(n).(state := Method);
    assert v.input[0] == '\r' && v.cursor == 0;
    ScanCases(v, atoi);
    var e := Loop(v, atoi, Short).0;
    assert e.input == v.input && e.cursor == 0;
    ErrorDrives(n, e, chunks, atoi);
    ErrorCloses(e);
  }

  lemma EndTooEarly(log: seq<Event>, meant: seq<Event>, told: seq<Event>)
    requires EndsOnce(log, meant) && log + [End] <= told && meant != log + [End]
    ensures told != meant
  {
    assert told[|log|] == End;
    assert |meant| == |log| + 1 ==> meant == log + [End];
  }

  /** The end of the headers comes before it is meant. */
  lemma EarlyEnd(h: Machine, chunks: seq<Bytes>, end: Parser, atoi: Atoi)
    requires h.state.HeadersEndEol? && h.handler.Live? && h.dataLeft == 0 && h.cursor == 0 && !h.closed
    requires h.input != [] && h.input[0] == '\n' && EndsOnce(h.log, end.log)
    requires var y := h.input[1..] + Concat(chunks); y != [] && (end.log == h.log + [End] ==> ReturnFirst(y))
    ensures !Right(Drive(h, chunks, atoi), |chunks|, end)
  {
    var g := Popped(h, 1, Short).(log := h.log + [End], handler := Missing);
    var f := Finished(g, RequestEnd).0;
    EndDrives(h, g, chunks, atoi);
    AfterEarlyEnd(f, h.log, chunks, end, atoi);
  }

  lemma EndDrives(h: Machine, g: Machine, chunks: seq<Bytes>, atoi: Atoi)
    requires h.state.HeadersEndEol? && h.handler.Live? && h.dataLeft == 0 && h.cursor == 0 && h.input != [] && h.input[0] == '\n'
    requires g == Popped(h, 1, Short).(log := h.log + [End], handler := Missing)
    ensures Drive(h, chunks, atoi) == ReceivedAll(Finished(g, RequestEnd).0, chunks, atoi, Short)
  {
    EndTurn(h, g, atoi);
  }

  lemma AfterEarlyEnd(f: Machine, log: seq<Event>, chunks: seq<Bytes>, end: Parser, atoi: Atoi)
    requires f.cursor == 0 && f.log == log + [End] && EndsOnce(log, end.log) && (f.closed || f.state.PreMethod?)
    requires var y := f.input + Concat(chunks); y != [] && (end.log == log + [End] ==> ReturnFirst(y))
    ensures !Right(ReceivedAll(f, chunks, atoi, Short), |chunks|, end)
  {
    if end.log != log + [End] {
      AllGrows(f, chunks, atoi);
      EndTooEarly(log, end.log, ReceivedAll(f, chunks, atoi, Short).0.log);
    } else if f.closed {
      ClosedStops(f, chunks, atoi);
      assert f.input[0..] == f.input && (chunks == [] ==> f.input + Concat(chunks) == f.input);
    } else {
      NoMethod(f, chunks, end, atoi);
    }
  }

  lemma EndTurn(h: Machine, g: Machine, atoi: Atoi)
    requires h.state.HeadersEndEol? && h.handler.Live? && h.dataLeft == 0 && h.cursor == 0 && h.input != [] && h.input[0] == '\n'
    requires g == Popped(h, 1, Short).(log := h.log + [End], handler := Missing)
    ensures Loop(h, atoi, Short) == (g, RequestEnd)
  {
    assert NewlineTurn(h, Short) == (g, RequestEnd);
    LoopEnds1(h, g, RequestEnd, atoi);
  }

  // ---------- a method ----------

  lemma LoopAfter(m: Machine, b: Machine, atoi: Atoi)
    requires m.cursor <= |m.input| && Turn(m, atoi, Short) == (b, Found)
    ensures b.cursor <= |b.input| && Loop(m, atoi, Short) == if b.input == [] then (b, Found) else Loop(b, atoi, Short)
  {
  }

  /** After a turn that has found something the loop goes on, or the next chunk is awaited: it is the same. */
  lemma FoundDrives(m: Machine, b: Machine, chunks: seq<Bytes>, atoi: Atoi)
    requires m.cursor <= |m.input| && b.cursor <= |b.input|
    requires Loop(m, atoi, Short) == if b.input == [] then (b, Found) else Loop(b, atoi, Short)
    requires b.input == [] ==> SkipsSpaces(b.state)
    ensures Drive(m, chunks, atoi) == Drive(b, chunks, atoi)
  {
    if b.input == [] {
      NothingThere(b, atoi);
      EitherWay(m, b, b, chunks, atoi);
    } else {
      DriveByLoop(m, b, chunks, atoi);
    }
  }

  lemma NothingThere(b: Machine, atoi: Atoi)
    requires b.input == [] && b.cursor == 0 && SkipsSpaces(b.state)
    ensures Loop(b, atoi, Short) == (b, NotFound)
  {
    var e := b.(input := []);
    assert e == b;
    AllEaten(b, atoi);
  }

  lemma EitherWay(m: Machine, b: Machine, q: Machine, chunks: seq<Bytes>, atoi: Atoi)
    requires m.cursor <= |m.input| && Loop(m, atoi, Short) == (q, Found) && b.cursor <= |b.input| && Loop(b, atoi, Short) == (q, NotFound)
    ensures Drive(m, chunks, atoi) == Drive(b, chunks, atoi)
  {
  }

  /** Behind the line feed that ends a request line. */
  lemma LineEnds(p: Parser, z: Bytes, end: Parser, atoi: Atoi)
    requires Completes(p, z, end, atoi) && p.state.RequestLineEol? && p.token == []
    ensures MeansEmpty(p.log, z, end)
  {
    RunEndsOnce(p, z, end, atoi);
    RunNewline(p, z, atoi);
    Stopped(p.(status := Status.Failed), z[1..], atoi);
    RunEndsOnce(p.(state := PreKey), z[1..], end, atoi);
    if end.log == p.log + [End] {
      OnlyEnd(p.(state := PreKey), z[1..], end, atoi);
    }
  }

  /** The line feed that is kept of a version is taken for the end of the line. */
  lemma VersionLost(a: Machine, rest: Bytes, after: Bytes, chunks: seq<Bytes>, end: Parser, atoi: Atoi)
    requires a.state.RequestLineEol? && a.handler.Live? && a.dataLeft == 0 && !a.closed && NoneEmpty(chunks)
    requires 2 <= |rest| && rest[0] == '\n' && rest[|rest| - 1] == '\r' && a.input == rest + after && a.cursor == |rest| - 1
    requires forall k :: 0 <= k < |rest| - 1 ==> rest[k] != '\r'
    requires MeansEmpty(a.log, after + Concat(chunks), end)
    ensures !Right(Drive(a, chunks, atoi), |chunks|, end)
  {
    var b, rest1 := a.(state := PreKey, input := rest[1..] + after, cursor := |rest| - 2), rest[1..];
    assert rest1[|rest1| - 1] == '\r' && forall k :: 0 <= k < |rest1| - 1 ==> rest1[k] == rest[k + 1];
    LineKept(b, rest1, after, chunks, end, atoi);
    FeedTaken(a, rest, after, chunks, atoi);
  }

  /** The turn that takes it. */
  lemma FeedTaken(a: Machine, rest: Bytes, after: Bytes, chunks: seq<Bytes>, atoi: Atoi)
    requires a.state.RequestLineEol? && 2 <= |rest| && rest[0] == '\n' && a.input == rest + after && a.cursor == |rest| - 1
    ensures Drive(a, chunks, atoi) == Drive(a.(state := PreKey, input := rest[1..] + after, cursor := |rest| - 2), chunks, atoi)
  {
    var b := a.(state := PreKey, input := rest[1..] + after, cursor := |rest| - 2);
    assert rest + after == [rest[0]] + (rest[1..] + after);
    assert a.input[1..] == b.input;
    assert NewlineTurn(a, Short) == (b, Found);
    LoopAfter(a, b, atoi);
    DriveByLoop(a, b, chunks, atoi);
  }

  lemma LineKept(b: Machine, rest: Bytes, after: Bytes, chunks: seq<Bytes>, end: Parser, atoi: Atoi)
    requires b.state.PreKey? && b.handler.Live? && b.dataLeft == 0 && !b.closed && NoneEmpty(chunks)
    requires rest != [] && rest[|rest| - 1] == '\r' && b.input == rest + after && b.cursor == |rest| - 1
    requires forall k :: 0 <= k < |rest| - 1 ==> rest[k] != '\r'
    requires MeansEmpty(b.log, after + Concat(chunks), end)
    ensures !Right(Drive(b, chunks, atoi), |chunks|, end)
  {
    EatenInside(b, rest, after);
    var k := Blanks(rest);
    if k == |rest| - 1 {
      assert rest[k..] == "\r";
      EmptyLine(b, after, chunks, end, atoi);
    } else {
      KeyFails(b, rest, after, chunks, end, atoi);
    }
  }

  /** What is behind a request line: a line feed, and more; and if no header comes, an empty line. */
  predicate MeansEmpty(log: seq<Event>, z: Bytes, end: Parser) {
    && z != [] && z[0] == '\n' && z[1..] != [] && EndsOnce(log, end.log)
    && (end.log == log + [End] ==> ReturnFirst(z[1..]))
  }

  /** Behind blanks there is a return. */
  predicate ReturnFirst(y: Bytes) {
    Blanks(y) < |y| && y[Blanks(y)] == '\r'
  }

  /** What is kept is a name without a colon. */
  lemma KeyFails(b: Machine, rest: Bytes, after: Bytes, chunks: seq<Bytes>, end: Parser, atoi: Atoi)
    requires b.state.PreKey? && !AllBlank(rest) && rest[Blanks(rest)] != '\r' && rest[|rest| - 1] == '\r'
    requires b.input == rest + after && b.cursor == |rest| - 1 && b.log != end.log
    ensures !Right(Drive(b, chunks, atoi), |chunks|, end)
  {
    EatenInside(b, rest, after);
    var v := Eaten(b).(state := Key);
    NoneEaten(b, atoi);
    CursorAt(rest, Blanks(rest), after);
    assert v.input[v.cursor..][0] == '\r';
    FailsAt(b, v, chunks, end, atoi);
  }

  lemma FailsAt(b: Machine, v: Machine, chunks: seq<Bytes>, end: Parser, atoi: Atoi)
    requires b.cursor <= |b.input| && Scanning(v.state) && v.cursor < |v.input| && v.input[v.cursor] == HttpParser.Fail(v.state)
    requires Loop(b, atoi, Short) == Loop(v, atoi, Short) && v.log != end.log
    ensures !Right(Drive(b, chunks, atoi), |chunks|, end)
  {
    assert Scanned(v).cursor == v.cursor;
    ScanCases(v, atoi);
    ErrorIsWrong(b, chunks, end, atoi);
  }

  /** What is kept is the return of an empty line. */
  lemma EmptyLine(b: Machine, after: Bytes, chunks: seq<Bytes>, end: Parser, atoi: Atoi)
    requires b.state.PreKey? && b.handler.Live? && b.dataLeft == 0 && !b.closed && b.cursor <= |b.input| && NoneEmpty(chunks)
    requires Eaten(b) == b.(input := "\r" + after, cursor := 0) && MeansEmpty(b.log, after + Concat(chunks), end)
    ensures !Right(Drive(b, chunks, atoi), |chunks|, end)
  {
    var h := b.(input := after, cursor := 0, state := HeadersEndEol);
    ReturnTaken(b, after, atoi);
    if after != [] {
      DriveByLoop(b, h, chunks, atoi);
      FeedFirst(after, Concat(chunks));
      EarlyEnd(h, chunks, end, atoi);
    } else {
      DriveFound(b, h, chunks, atoi);
      LaterEnd(h, chunks, end, atoi);
    }
  }

  lemma FeedFirst(a: Bytes, b: Bytes)
    requires a != []
    ensures (a + b)[0] == a[0] && (a + b)[1..] == a[1..] + b
  {
  }

  lemma ReturnTaken(b: Machine, after: Bytes, atoi: Atoi)
    requires b.state.PreKey? && b.cursor <= |b.input| && Eaten(b) == b.(input := "\r" + after, cursor := 0)
    ensures var h := b.(input := after, cursor := 0, state := HeadersEndEol);
            Loop(b, atoi, Short) == if after == [] then (h, Found) else Loop(h, atoi, Short)
  {
    var h, e := b.(input := after, cursor := 0, state := HeadersEndEol), Eaten(b);
    assert e.input[1..] == after;
    assert Popped(e, 1, Short).(state := HeadersEndEol) == h;
    assert SpacesTurn(b, atoi, Short) == (h, Found);
    LoopAfter(b, h, atoi);
  }

  lemma LaterEnd(h: Machine, chunks: seq<Bytes>, end: Parser, atoi: Atoi)
    requires h.state.HeadersEndEol? && h.handler.Live? && h.dataLeft == 0 && h.cursor == 0 && !h.closed && h.input == []
    requires NoneEmpty(chunks) && MeansEmpty(h.log, [] + Concat(chunks), end)
    ensures !Right(ReceivedAll(h, chunks, atoi, Short), |chunks|, end)
  {
    var n := More(h, chunks);
    assert [] + Concat(chunks) == Concat(chunks) && n.input == chunks[0];
    FeedFirst(chunks[0], Concat(chunks[1..]));
    EarlyEnd(n, chunks[1..], end, atoi);
    LostLater(h, chunks, end, atoi);
  }

  lemma DriveFound(m: Machine, q: Machine, chunks: seq<Bytes>, atoi: Atoi)
    requires m.cursor <= |m.input| && Loop(m, atoi, Short) == (q, Found)
    ensures Drive(m, chunks, atoi) == ReceivedAll(q, chunks, atoi, Short)
  {
  }

  lemma UriAhead(p: Parser, z: Bytes, end: Parser, atoi: Atoi)
    requires Completes(p, z, end, atoi) && p.state.PreUri? && p.token == []
    ensures BlankAhead(z)
  {
    var j := ScansBehindBlanks(p, z, end, atoi);
  }

  /** What is kept of a method is taken for a URI, and the URI for a version. */
  lemma MethodLost(a: Machine, rest: Bytes, after: Bytes, chunks: seq<Bytes>, end: Parser, atoi: Atoi)
    requires a.state.PreUri? && !a.closed && !AllBlank(rest) && rest[|rest| - 1] == ' '
    requires a.input == rest + after && a.cursor == |rest| - 1 && a.log != end.log
    requires BlankAhead(after + Concat(chunks))
    ensures !Right(Drive(a, chunks, atoi), |chunks|, end)
  {
    EatenInside(a, rest, after);
    var u, kept := Eaten(a).(state := Uri), rest[Blanks(rest)..];
    NoneEaten(a, atoi);
    DriveByLoop(a, u, chunks, atoi);
    assert kept[|kept| - 1] == ' ';
    KeptUri(u, kept, after, chunks, end, atoi);
  }

  lemma KeptUri(u: Machine, kept: Bytes, after: Bytes, chunks: seq<Bytes>, end: Parser, atoi: Atoi)
    requires u.state.Uri? && !u.closed && kept != [] && kept[|kept| - 1] == ' '
    requires u.input == kept + after && u.cursor == |kept| - 1 && u.log != end.log
    requires BlankAhead(after + Concat(chunks))
    ensures !Right(Drive(u, chunks, atoi), |chunks|, end)
  {
    var b, rest := KeptDrive(u, kept, after, chunks, atoi);
    if AllBlank(rest) {
      KeptBlank(b, rest, after, chunks, end, atoi);
    } else {
      KeptWord(b, rest, after, chunks, end, atoi);
    }
  }

  lemma KeptWord(b: Machine, rest: Bytes, after: Bytes, chunks: seq<Bytes>, end: Parser, atoi: Atoi)
    requires b.state.PreVersion? && b.log != end.log && !AllBlank(rest) && (rest != [] ==> rest[|rest| - 1] == ' ')
    requires b.input == rest + after && b.cursor == (if rest == [] then 0 else |rest| - 1) && b.cursor <= |b.input|
    ensures !Right(Drive(b, chunks, atoi), |chunks|, end)
  {
    BlankForVersion(b, rest, after, atoi);
    ErrorIsWrong(b, chunks, end, atoi);
  }

  lemma KeptDrive(u: Machine, kept: Bytes, after: Bytes, chunks: seq<Bytes>, atoi: Atoi) returns (b: Machine, rest: Bytes)
    requires u.state.Uri? && kept != [] && kept[|kept| - 1] == ' ' && u.input == kept + after && u.cursor == |kept| - 1
    ensures b.state.PreVersion? && b.log == u.log && b.closed == u.closed
    ensures b.input == rest + after && b.cursor == (if rest == [] then 0 else |rest| - 1) && (rest != [] ==> rest[|rest| - 1] == ' ')
    ensures b.cursor <= |b.input| && Drive(u, chunks, atoi) == Drive(b, chunks, atoi)
  {
    b, rest := KeptTurn(u, kept, after, atoi);
    LoopAfter(u, b, atoi);
    FoundDrives(u, b, chunks, atoi);
  }

  lemma KeptBlank(b: Machine, rest: Bytes, after: Bytes, chunks: seq<Bytes>, end: Parser, atoi: Atoi)
    requires b.state.PreVersion? && !b.closed && b.log != end.log && AllBlank(rest)
    requires b.input == rest + after && b.cursor == (if rest == [] then 0 else |rest| - 1)
    requires BlankAhead(after + Concat(chunks))
    ensures !Right(Drive(b, chunks, atoi), |chunks|, end)
  {
    var c := b.(input := after, cursor := 0);
    assert c.input[0..] == after;
    PreVersionFails(c, chunks, end, atoi);
    BlankDrives(b, rest, after, chunks, atoi);
  }

  lemma BlankDrives(b: Machine, rest: Bytes, after: Bytes, chunks: seq<Bytes>, atoi: Atoi)
    requires SkipsSpaces(b.state) && AllBlank(rest)
    requires b.input == rest + after && b.cursor == (if rest == [] then 0 else |rest| - 1)
    ensures b.cursor <= |b.input| && Drive(b, chunks, atoi) == Drive(b.(input := after, cursor := 0), chunks, atoi)
  {
    var c := b.(input := after, cursor := 0);
    if rest == [] {
      assert [] + after == after;
      assert b == c;
    } else {
      BlankLoop(b, c, rest, atoi);
      DriveByLoop(b, c, chunks, atoi);
    }
  }

  lemma BlankLoop(b: Machine, c: Machine, rest: Bytes, atoi: Atoi)
    requires SkipsSpaces(b.state) && AllBlank(rest) && rest != [] && c.cursor == 0
    requires b == c.(input := rest + c.input, cursor := |rest| - 1)
    ensures Loop(b, atoi, Short) == Loop(c, atoi, Short)
  {
    EatenBehind(b, c, rest);
    LoopByEaten(b, c, atoi);
  }

  /** The turn that takes it. */
  lemma KeptTurn(u: Machine, kept: Bytes, after: Bytes, atoi: Atoi) returns (b: Machine, rest: Bytes)
    requires u.state.Uri? && kept != [] && kept[|kept| - 1] == ' ' && u.input == kept + after && u.cursor == |kept| - 1
    ensures Turn(u, atoi, Short) == (b, Found) && b.state.PreVersion? && b.log == u.log && b.closed == u.closed
    ensures b.input == rest + after && b.cursor == (if rest == [] then 0 else |rest| - 1) && (rest != [] ==> rest[|rest| - 1] == ' ')
  {
    var q, n := Scanned(u), |kept|;
    assert q.cursor == n - 1 && u.input[n - 1] == ' ';
    rest := kept[n % WIDTH..];
    assert u.input[n % WIDTH..] == rest + after;
    FoundTurn(u, atoi);
    var s := Popped(q, n, Short);
    assert s.input == rest + after;
    b := s.(uri := u.input[..n - 1], state := PreVersion);
  }
}
