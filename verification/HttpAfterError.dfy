/**
 Bytes that are received after an error inside a request: which of them make the source use the request that it has
 deleted. The source goes on where it failed, so the bytes themselves tell.
 */
module HttpAfterError {
  import opened HttpParser
  import opened HttpMachine
  import opened HttpTheorems
  import opened HttpRefinement
  import opened HttpTokens
  import opened HttpComplete
  import opened HttpWide
  import opened HttpLost
  import opened HttpSafety

  /** The byte that failed is still there, and is the next to be looked at. */
  predicate FailedAt(m: Machine) {
    Scanning(m.state) && m.cursor < |m.input| && m.input[m.cursor] == HttpParser.Fail(m.state)
  }

  /** Where an error inside a request leaves the connection. */
  predicate Stuck(m: Machine) {
    InRequest(m.state) ==> FailedAt(m) || ExpectsNewline(m.state)
  }

  lemma TokenStuck(m: Machine, atoi: Atoi)
    requires Scanning(m.state) && m.cursor <= |m.input|
    ensures var (q, result) := TokenTurn(m, atoi, Short); result.Error? ==> Stuck(q)
  {
    var k, s, region := TokenCases(m, atoi, Short);
    var q := Scanned(m);
    if q.cursor < |q.input| && q.input[q.cursor] != Success(m.state) {
      assert TokenTurn(m, atoi, Short) == (q, Error);
    } else if q.cursor == |q.input| {
      assert TokenTurn(m, atoi, Short) == (q, NotFound);
    } else {
      assert TokenTurn(m, atoi, Short) == Handled(Popped(q, q.cursor + 1, Short), q.input[..q.cursor], atoi);
    }
  }

  lemma TurnStuck(m: Machine, atoi: Atoi)
    requires m.cursor <= |m.input|
    ensures var (q, result) := Turn(m, atoi, Short); result.Error? ==> Stuck(q)
  {
    if Scanning(m.state) {
      TokenStuck(m, atoi);
    } else if SkipsSpaces(m.state) && Eaten(m).input != [] {
      TokenStuck(Eaten(m).(state := AfterSpaces(m.state)), atoi);
    }
  }

  lemma {:induction false} LoopStuck(m: Machine, atoi: Atoi)
    requires m.cursor <= |m.input|
    ensures var (q, result) := Loop(m, atoi, Short); result.Error? ==> Stuck(q)
    decreases |m.input|, Rank(m.state)
  {
    TurnStuck(m, atoi);
    var (q, result) := Turn(m, atoi, Short);
    if result.Found? && q.input != [] {
      LoopStuck(q, atoi);
    }
  }

  /** After the loop. */
  predicate Faults(m: Machine, atoi: Atoi)
    requires m.cursor <= |m.input|
  {
    var (q, result) := Loop(m, atoi, Short); Finished(q, result).1.Faulted?
  }

  lemma FaultsIf(m: Machine, q: Machine, result: ProcessResult, atoi: Atoi)
    requires m.cursor <= |m.input| && Loop(m, atoi, Short) == (q, result) && q.handler.Deleted?
    ensures Faults(m, atoi) <==> result.Fault? || result.Error? || (result.RequestEnd? && !q.keepAlive)
  {
  }

  lemma FaultsBy(a: Machine, b: Machine, atoi: Atoi)
    requires a.cursor <= |a.input| && b.cursor <= |b.input| && Loop(a, atoi, Short) == Loop(b, atoi, Short)
    ensures Faults(a, atoi) <==> Faults(b, atoi)
  {
  }

  /** In a name or a value the same byte fails again. */
  lemma FailsAgain(m: Machine, chunk: Bytes, atoi: Atoi)
    requires FailedAt(m) && m.handler.Deleted?
    ensures Received(m, chunk, atoi, Short).1.Faulted?
  {
    var n := m.(input := m.input + chunk);
    assert n.input[n.cursor] == m.input[m.cursor];
    assert Scanned(n).cursor == n.cursor;
    ScanCases(n, atoi);
    FaultsIf(n, Scanned(n), Error, atoi);
  }

  // ---------- behind a line ----------

  predicate NoBreak(s: Bytes) {
    forall k :: 0 <= k < |s| ==> s[k] != '\r' && s[k] != '\n'
  }

  /** A value is read on as long as it has no end. */
  lemma ValueFaults(v: Machine, atoi: Atoi)
    requires v.state.Value? && v.handler.Deleted? && v.cursor <= |v.input|
    ensures Faults(v, atoi) <==> !NoBreak(v.input[v.cursor..])
  {
    var q := Scanned(v);
    assert forall k :: v.cursor <= k < |v.input| ==> v.input[k] == v.input[v.cursor..][k - v.cursor];
    if Finds(v) {
      FoundTurn(v, atoi);
      var s, region := Popped(q, q.cursor + 1, Short), v.input[..q.cursor];
      assert Handled(s, region, atoi) == (s.(uri := region), ProcessResult.Fault);
      LoopEnds1(v, s.(uri := region), ProcessResult.Fault, atoi);
      FaultsIf(v, s.(uri := region), ProcessResult.Fault, atoi);
      assert !NoBreak(v.input[v.cursor..]);
    } else {
      ScanCases(v, atoi);
      FaultsIf(v, q, if q.cursor == |v.input| then NotFound else Error, atoi);
    }
  }

  lemma BreakBehind(a: Bytes, b: Bytes)
    requires NoBreak(a)
    ensures NoBreak(a + b) <==> NoBreak(b)
  {
    assert forall k :: 0 <= k < |b| ==> (a + b)[|a| + k] == b[k];
  }

  lemma BlankNoBreak(s: Bytes)
    ensures NoBreak(s) <==> NoBreak(s[Blanks(s)..])
  {
    BreakBehind(s[..Blanks(s)], s[Blanks(s)..]);
    assert s[..Blanks(s)] + s[Blanks(s)..] == s;
  }

  lemma BlankFaults(m: Machine, atoi: Atoi)
    requires m.cursor == 0 && SkipsSpaces(m.state) && AllBlank(m.input) && m.handler.Deleted?
    ensures !Faults(m, atoi) && Blanks(m.input) == |m.input|
  {
    AllEaten(m, atoi);
    FaultsIf(m, m.(input := []), NotFound, atoi);
    BlanksBehind(m.input, []);
    assert m.input + [] == m.input;
  }

  /** Before a value, with or without the end of a name that is kept. */
  lemma PreValueFaults(a: Machine, rest: Bytes, after: Bytes, atoi: Atoi)
    requires a.state.PreValue? && a.handler.Deleted? && a.input == rest + after
    requires if rest == [] then a.cursor == 0 else a.cursor == |rest| - 1 && rest[|rest| - 1] == ':'
    ensures a.cursor <= |a.input| && (Faults(a, atoi) <==> !NoBreak(after))
  {
    if rest == [] {
      assert a.input == after;
      BlankNoBreak(after);
      if AllBlank(after) {
        BlankFaults(a, atoi);
      } else {
        EatenFaults(a, atoi);
        assert Eaten(a).input[0..] == after[Blanks(after)..];
      }
    } else {
      KeptFaults(a, rest, after, atoi);
    }
  }

  lemma KeptFaults(a: Machine, rest: Bytes, after: Bytes, atoi: Atoi)
    requires a.state.PreValue? && a.handler.Deleted? && a.input == rest + after
    requires rest != [] && a.cursor == |rest| - 1 && rest[|rest| - 1] == ':'
    ensures Faults(a, atoi) <==> !NoBreak(after)
  {
    assert !IsSpace(rest[|rest| - 1]);
    ColonAt(a, rest, after);
    EatenFaults(a, atoi);
    BreakBehind(":", after);
  }

  lemma ColonAt(a: Machine, rest: Bytes, after: Bytes)
    requires !AllBlank(rest) && a.input == rest + after && a.cursor == |rest| - 1 && rest[|rest| - 1] == ':'
    ensures var e := Eaten(a); !AllBlank(a.input) && e.cursor <= |e.input| && e.input[e.cursor..] == ":" + after
  {
    EatenInside(a, rest, after);
    CursorAt(rest, Blanks(rest), after);
  }

  lemma EatenFaults(a: Machine, atoi: Atoi)
    requires a.state.PreValue? && a.handler.Deleted? && a.cursor <= |a.input| && !AllBlank(a.input)
    ensures var e := Eaten(a); Faults(a, atoi) <==> !NoBreak(e.input[e.cursor..])
  {
    NoneEaten(a, atoi);
    var v := Eaten(a).(state := Value);
    ValueFaults(v, atoi);
    FaultsBy(a, v, atoi);
  }

  /** A header that has not ended: blanks, the return of an empty line, a name, or a name, a colon and a value. */
  predicate Quiet(s: Bytes) {
    var b := s[Blanks(s)..];
    || b == [] || b == "\r"
    || (b[0] != '\r' && var j := Located(b, 0, ':', '\r'); j == |b| || (b[j] == ':' && NoBreak(b[j + 1..])))
  }

  lemma FoundFaults(m: Machine, b: Machine, atoi: Atoi)
    requires m.cursor <= |m.input| && Turn(m, atoi, Short) == (b, Found) && b.handler.Deleted?
    ensures b.cursor <= |b.input| && (Faults(m, atoi) <==> b.input != [] && Faults(b, atoi))
  {
    LoopAfter(m, b, atoi);
    if b.input == [] {
      FaultsIf(m, b, Found, atoi);
    } else {
      FaultsBy(m, b, atoi);
    }
  }

  lemma KeyFaults(v: Machine, atoi: Atoi)
    requires v.state.Key? && v.handler.Deleted? && v.cursor == 0
    ensures var j := Located(v.input, 0, ':', '\r');
            Faults(v, atoi) <==> !(j == |v.input| || (v.input[j] == ':' && NoBreak(v.input[j + 1..])))
  {
    var q := Scanned(v);
    if Finds(v) {
      ColonFaults(v, atoi);
    } else {
      ScanCases(v, atoi);
      FaultsIf(v, q, if q.cursor == |v.input| then NotFound else Error, atoi);
    }
  }

  lemma ColonFaults(v: Machine, atoi: Atoi)
    requires v.state.Key? && v.handler.Deleted? && v.cursor == 0 && Finds(v)
    ensures Faults(v, atoi) <==> !NoBreak(v.input[Scanned(v).cursor + 1..])
  {
    var a, rest, after := ColonTaken(v, atoi);
    PreValueFaults(a, rest, after, atoi);
    if a.input == [] {
      assert after == [];
    }
  }

  /** What is before the cursor and at it is the end of a name. */
  predicate NameKept(a: Machine, rest: Bytes, after: Bytes) {
    && a.state.PreValue? && a.handler.Deleted? && a.input == rest + after
    && if rest == [] then a.cursor == 0 else a.cursor == |rest| - 1 && rest[|rest| - 1] == ':'
  }

  lemma ColonTaken(v: Machine, atoi: Atoi) returns (a: Machine, rest: Bytes, after: Bytes)
    requires v.state.Key? && v.handler.Deleted? && v.cursor == 0 && Finds(v)
    ensures after == v.input[Scanned(v).cursor + 1..] && NameKept(a, rest, after)
    ensures a.cursor <= |a.input| && (Faults(v, atoi) <==> a.input != [] && Faults(a, atoi))
  {
    a, rest, after := ColonTurn(v, atoi);
    FoundFaults(v, a, atoi);
  }

  lemma ColonTurn(v: Machine, atoi: Atoi) returns (a: Machine, rest: Bytes, after: Bytes)
    requires v.state.Key? && v.handler.Deleted? && v.cursor == 0 && Finds(v)
    ensures after == v.input[Scanned(v).cursor + 1..] && NameKept(a, rest, after) && Turn(v, atoi, Short) == (a, Found)
  {
    var j := Scanned(v).cursor;
    var k := (j + 1) % WIDTH;
    FoundTurn(v, atoi);
    a := Popped(Scanned(v), j + 1, Short).(methodName := v.input[..j], state := PreValue);
    rest, after := v.input[k..j + 1], v.input[j + 1..];
    assert v.input[k..] == rest + after;
  }

  /** At the beginning of a header line. */
  lemma HeaderFaults(m: Machine, atoi: Atoi)
    requires m.state.PreKey? && m.handler.Deleted? && m.cursor == 0
    ensures Faults(m, atoi) <==> !Quiet(m.input)
  {
    var s := m.input;
    if AllBlank(s) {
      BlankFaults(m, atoi);
    } else {
      BlanksOf(s, []);
      var e := Eaten(m);
      if e.input[0] == '\r' {
        EmptyLineFaults(m, atoi);
      } else {
        NoneEaten(m, atoi);
        KeyFaults(e.(state := Key), atoi);
        FaultsBy(m, e.(state := Key), atoi);
      }
    }
  }

  lemma EmptyLineFaults(m: Machine, atoi: Atoi)
    requires m.state.PreKey? && m.handler.Deleted? && m.cursor == 0 && Eaten(m).input != [] && Eaten(m).input[0] == '\r'
    ensures Faults(m, atoi) <==> Eaten(m).input != "\r"
  {
    var e := Eaten(m);
    var h := e.(input := e.input[1..], state := HeadersEndEol);
    assert SpacesTurn(m, atoi, Short) == (h, Found);
    FoundFaults(m, h, atoi);
    if h.input != [] {
      NewlineTurnFaults(h, atoi);
    } else {
      assert e.input == "\r";
    }
  }

  lemma NewlineTurnFaults(h: Machine, atoi: Atoi)
    requires h.state.HeadersEndEol? && h.handler.Deleted? && h.cursor == 0 && h.input != []
    ensures Faults(h, atoi)
  {
    var q := Popped(h, 1, Short);
    var result := if h.input[0] == '\n' then ProcessResult.Fault else Error;
    assert NewlineTurn(h, Short) == (q, result);
    LoopEnds1(h, q, result, atoi);
    FaultsIf(h, q, result, atoi);
  }

  /** Where a newline was wanted. */
  lemma LineFaults(m: Machine, atoi: Atoi)
    requires ExpectsNewline(m.state) && m.handler.Deleted? && m.cursor == 0 && m.input != []
    ensures Faults(m, atoi) <==> m.input[0] != '\n' || m.state.HeadersEndEol? || !Quiet(m.input[1..])
  {
    var q := Popped(m, 1, Short);
    if m.state.HeadersEndEol? {
      NewlineTurnFaults(m, atoi);
    } else if m.input[0] == '\n' {
      var b := q.(state := PreKey);
      assert NewlineTurn(m, Short) == (b, Found) && b.input == m.input[1..];
      FoundFaults(m, b, atoi);
      HeaderFaults(b, atoi);
    } else {
      assert NewlineTurn(m, Short) == (q, Error);
      LoopEnds1(m, q, Error, atoi);
      FaultsIf(m, q, Error, atoi);
    }
  }

  // ---------- the whole of it ----------

  /** An error inside a request leaves the connection stuck, with a deleted handler. */
  lemma ErrorSticks(m: Machine, chunk: Bytes, atoi: Atoi)
    requires Attended(m) && !m.closed
    ensures var (q, outcome) := Received(m, chunk, atoi, Short);
            outcome == Done(false) ==> q.closed && Stuck(q) && q.handler == if InRequest(q.state) then Deleted else Missing
  {
    var n := m.(input := m.input + chunk);
    LoopStuck(n, atoi);
    ReceivedAttended(m, chunk, atoi, Short);
    var (q, result) := Loop(n, atoi, Short);
    FinishedStuck(q, result);
  }

  lemma FinishedStuck(m: Machine, result: ProcessResult)
    requires result.Error? ==> Stuck(m)
    ensures var (q, outcome) := Finished(m, result); outcome == Done(false) ==> q.closed && Stuck(q)
  {
  }

  /** Then more bytes make the source use the deleted request exactly if a name or a value has failed, or they do not
      begin with the line feed that was wanted, or that is the last of the headers, or what is behind it is more than a
      header that has not ended. */
  lemma BytesAfterError(m: Machine, chunk: Bytes, atoi: Atoi)
    requires m.handler.Deleted? && Stuck(m) && InRequest(m.state) && (ExpectsNewline(m.state) ==> m.cursor == 0) && chunk != []
    ensures m.cursor <= |m.input|
    ensures var w := m.input + chunk;
            Received(m, chunk, atoi, Short).1.Faulted? <==>
              FailedAt(m) || w[0] != '\n' || m.state.HeadersEndEol? || !Quiet(w[1..])
  {
    if FailedAt(m) {
      FailsAgain(m, chunk, atoi);
    } else {
      var n := m.(input := m.input + chunk);
      LineFaults(n, atoi);
    }
  }
}
