/**
 What comes of a token whose pop is cut. Of a method or a URI nothing is lost if the bytes kept are blanks; of most
 other tokens the next turn is an error.
 */
module HttpWide {
  import opened HttpParser
  import opened HttpMachine
  import opened HttpTheorems
  import opened HttpRefinement
  import opened HttpProtocol
  import opened HttpTokens
  import opened HttpAsWritten

  /** The end of the token, with its delimiter, that the source keeps in the input. */
  function Rest(m: Machine): Bytes
    requires Scanning(m.state) && m.cursor <= |m.input| && WideToken(m)
  {
    var n := Scanned(m).cursor + 1;
    m.input[n % WIDTH..n]
  }

  lemma {:induction false} BlanksBehind(a: Bytes, b: Bytes)
    ensures if AllBlank(a) then Blanks(a + b) == |a| + Blanks(b) else Blanks(a + b) < |a|
    decreases |a|
  {
    if a == [] {
      assert a + b == b;
    } else if IsSpace(a[0]) {
      assert (a + b)[1..] == a[1..] + b && (a + b)[0] == a[0];
      BlanksBehind(a[1..], b);
      assert AllBlank(a) <==> AllBlank(a[1..]);
    } else {
      assert (a + b)[0] == a[0];
    }
  }

  /** A turn that finds a token, with either pop. */
  lemma WideFound(m: Machine, atoi: Atoi)
    requires (m.state.Method? || m.state.Uri?) && m.cursor <= |m.input| && WideToken(m)
    ensures var (a, r) := TokenTurn(m, atoi, Short); var (b, s) := TokenTurn(m, atoi, Whole); var n := Scanned(m).cursor + 1;
            && r == s == Found && SkipsSpaces(a.state) && n <= |m.input| && b.input == m.input[n..] && b.cursor == 0
            && a == b.(input := Rest(m) + b.input, cursor := |Rest(m)| - 1) && 0 < |Rest(m)|
  {
    var q := Scanned(m);
    var n := q.cursor + 1;
    assert m.input[n % WIDTH..] == Rest(m) + m.input[n..];
    assert TokenTurn(m, atoi, Short) == Handled(Popped(q, n, Short), q.input[..q.cursor], atoi);
    assert TokenTurn(m, atoi, Whole) == Handled(Popped(q, n, Whole), q.input[..q.cursor], atoi);
  }

  /** The blanks before the next token bring the source to where it should be exactly if what it kept is blank. */
  lemma Together(m: Machine, atoi: Atoi)
    requires (m.state.Method? || m.state.Uri?) && m.cursor <= |m.input| && WideToken(m)
    ensures Eaten(TokenTurn(m, atoi, Short).0) == Eaten(TokenTurn(m, atoi, Whole).0) <==> AllBlank(Rest(m))
  {
    WideFound(m, atoi);
    var a, b := TokenTurn(m, atoi, Short).0, TokenTurn(m, atoi, Whole).0;
    EatenBehind(a, b, Rest(m));
  }

  lemma EatenBehind(a: Machine, b: Machine, rest: Bytes)
    requires rest != [] && b.cursor == 0 && a == b.(input := rest + b.input, cursor := |rest| - 1)
    ensures Eaten(a) == Eaten(b) <==> AllBlank(rest)
  {
    BlanksBehind(rest, b.input);
    if AllBlank(rest) {
      assert a.input[|rest| + Blanks(b.input)..] == b.input[Blanks(b.input)..];
    } else {
      assert |Eaten(a).input| > |b.input|;
    }
  }

  lemma LoopByEaten(a: Machine, b: Machine, atoi: Atoi)
    requires a.cursor <= |a.input| && b.cursor <= |b.input| && SkipsSpaces(a.state) && a.state == b.state && Eaten(a) == Eaten(b)
    ensures Loop(a, atoi, Short) == Loop(b, atoi, Short)
  {
    assert SpacesTurn(a, atoi, Short) == SpacesTurn(b, atoi, Short);
    assert Turn(a, atoi, Short) == Turn(b, atoi, Short);
  }

  /** Then the loop goes on as if the pop had been whole. */
  lemma Rejoined(m: Machine, atoi: Atoi)
    requires (m.state.Method? || m.state.Uri?) && m.cursor <= |m.input| && WideToken(m) && AllBlank(Rest(m))
    ensures Loop(m, atoi, Short) == Loop(TokenTurn(m, atoi, Whole).0, atoi, Short)
  {
    WideFound(m, atoi);
    Together(m, atoi);
    var a := TokenTurn(m, atoi, Short).0;
    GoesOn(m, a, atoi);
    LoopByEaten(a, TokenTurn(m, atoi, Whole).0, atoi);
  }

  lemma GoesOn(m: Machine, a: Machine, atoi: Atoi)
    requires Scanning(m.state) && m.cursor <= |m.input| && TokenTurn(m, atoi, Short) == (a, Found) && a.input != []
    ensures Loop(m, atoi, Short) == Loop(a, atoi, Short)
  {
    assert Turn(m, atoi, Short) == (a, Found);
  }

  // ---------- tokens that are lost ----------

  /** A line's last token, of which the source keeps the end where it wants a newline. */
  lemma LineLost(m: Machine, atoi: Atoi)
    requires (m.state.Version? || m.state.Value?) && Clean(m) && WideToken(m) && TokenTurn(m, atoi, Short).1.Found?
    requires m.state.Version? ==> Rest(m)[0] != '\n'
    ensures var (q, result) := Loop(m, atoi, Short); result.Error? && q.log == TokenTurn(m, atoi, Short).0.log
  {
    LineFound(m, atoi);
    RestIsToken(m);
    var a := TokenTurn(m, atoi, Short).0;
    GoesOn(m, a, atoi);
    NoNewline(a, atoi);
  }

  lemma LineFound(m: Machine, atoi: Atoi)
    requires (m.state.Version? || m.state.Value?) && m.cursor <= |m.input| && WideToken(m) && TokenTurn(m, atoi, Short).1.Found?
    ensures var (a, r) := TokenTurn(m, atoi, Short);
            r == Found && ExpectsNewline(a.state) && a.input == m.input[(Scanned(m).cursor + 1) % WIDTH..]
  {
    var n := Scanned(m).cursor + 1;
    assert TokenTurn(m, atoi, Short) == Handled(Popped(Scanned(m), n, Short), Scanned(m).input[..n - 1], atoi);
  }

  lemma NoNewline(m: Machine, atoi: Atoi)
    requires ExpectsNewline(m.state) && m.cursor <= |m.input| && m.input != [] && m.input[0] != '\n'
    ensures Loop(m, atoi, Short) == (Popped(m, 1, Short), Error)
  {
    assert Turn(m, atoi, Short) == NewlineTurn(m, Short);
  }

  lemma RestIsToken(m: Machine)
    requires Scanning(m.state) && Clean(m) && WideToken(m)
    ensures WIDTH <= |Rest(m)| && Rest(m)[0] != Success(m.state) && Rest(m)[0] != HttpParser.Fail(m.state)
    ensures m.input[(Scanned(m).cursor + 1) % WIDTH..][0] == Rest(m)[0]
  {
    var n := Scanned(m).cursor + 1;
    var k := n % WIDTH;
    assert Rest(m)[0] == m.input[k] && k < n - 1;
    if k < m.cursor {
      assert m.input[..m.cursor][k] == m.input[k];
    }
  }

  /** A URI of which something is kept that is no blank: its blank is met where a version is read. */
  lemma UriLost(m: Machine, atoi: Atoi)
    requires m.state.Uri? && m.cursor <= |m.input| && WideToken(m) && !AllBlank(Rest(m))
    ensures var (q, result) := Loop(m, atoi, Short); result.Error? && q.log == m.log
  {
    WideFound(m, atoi);
    var a, b := TokenTurn(m, atoi, Short).0, TokenTurn(m, atoi, Whole).0;
    GoesOn(m, a, atoi);
    assert Rest(m)[|Rest(m)| - 1] == ' ';
    BlankForVersion(a, Rest(m), b.input, atoi);
  }

  lemma BlankForVersion(a: Machine, rest: Bytes, after: Bytes, atoi: Atoi)
    requires a.state.PreVersion? && rest != [] && a.input == rest + after && a.cursor == |rest| - 1 && !AllBlank(rest)
    requires rest[|rest| - 1] == ' '
    ensures var (q, result) := Loop(a, atoi, Short); result.Error? && q.log == a.log
  {
    BlanksBehind(rest, after);
    var e := Eaten(a).(state := Version);
    assert e.input[e.cursor] == a.input[Blanks(a.input) + e.cursor] == ' ';
    FailsHere(e, atoi);
    assert Turn(a, atoi, Short) == TokenTurn(e, atoi, Short);
  }

  lemma FailsHere(m: Machine, atoi: Atoi)
    requires Scanning(m.state) && m.cursor < |m.input| && m.input[m.cursor] == HttpParser.Fail(m.state)
    ensures var (q, result) := TokenTurn(m, atoi, Short); result.Error? && q.log == m.log
  {
    assert Located(m.input, m.cursor, Success(m.state), HttpParser.Fail(m.state)) == m.cursor;
    assert TokenTurn(m, atoi, Short) == (Scanned(m), Error);
  }

  // ---------- results that are as meant ----------

  /** Every chunk has the result that is meant, though perhaps by other turns. */
  predicate AllMeant(m: Machine, chunks: seq<Bytes>, atoi: Atoi)
    requires m.cursor <= |m.input|
    decreases |chunks|
  {
    chunks == [] || m.closed
    || (Received(m, chunks[0], atoi, Short) == Received(m, chunks[0], atoi, Whole)
        && AllMeant(Received(m, chunks[0], atoi, Short).0, chunks[1..], atoi))
  }

  /** Then the source reaches what the parser that is meant reaches. */
  lemma {:induction false} MeantReaches(m: Machine, chunks: seq<Bytes>, atoi: Atoi)
    requires Settled(m) && NoneEmpty(chunks) && AllMeant(m, chunks, atoi)
    ensures Reached(m, chunks, atoi) == FeedAll(AsConn(m), chunks, atoi)
    ensures var (q, n) := ReceivedAll(m, chunks, atoi, Short); Settled(q) && (n < |chunks| ==> q.closed)
    decreases |chunks|
  {
    if chunks == [] {
      assert AsConn(m).rest + Concat(chunks[0..]) == AsConn(m).rest;
    } else if m.closed {
      assert chunks[0..] == chunks;
    } else {
      FeedRefines(m, chunks[0], atoi);
      var q := Received(m, chunks[0], atoi, Short).0;
      MeantReaches(q, chunks[1..], atoi);
      var (r, n) := ReceivedAll(q, chunks[1..], atoi, Short);
      assert chunks[1..][n..] == chunks[n + 1..];
    }
  }

  // ---------- nothing behind the token ----------

  lemma NothingMore(m: Machine, b: Machine, atoi: Atoi)
    requires Scanning(m.state) && m.cursor <= |m.input| && TokenTurn(m, atoi, Whole) == (b, Found) && b.input == [] && b.cursor == 0
    requires SkipsSpaces(b.state)
    ensures Loop(m, atoi, Whole) == (b, Found) && Loop(b, atoi, Short) == (b, NotFound)
  {
    assert Turn(m, atoi, Whole) == (b, Found);
    assert Eaten(b) == b;
    assert Turn(b, atoi, Short) == (b, NotFound);
  }

  lemma BothReceived(m: Machine, chunk: Bytes, q: Machine, atoi: Atoi)
    requires m.cursor <= |m.input|
    requires var n := m.(input := m.input + chunk); Loop(n, atoi, Short) == (q, NotFound) && Loop(n, atoi, Whole) == (q, Found)
    ensures Received(m, chunk, atoi, Short) == Received(m, chunk, atoi, Whole) == (q, Done(true))
  {
  }
}
