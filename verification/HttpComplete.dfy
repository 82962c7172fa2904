/** Bytes that the parser that is meant reads as just one request: what is in them from a given state on. */
module HttpComplete {
  import opened HttpParser
  import opened HttpMachine
  import opened HttpTheorems
  import opened HttpTokens

  /** The run uses up the bytes with the end of the request. */
  predicate Completes(p: Parser, w: Bytes, end: Parser, atoi: Atoi) {
    p.status.Running? && Run(p, w, atoi) == (end, []) && end.status.Ended?
  }

  /** The last event is the end, and there is none before it. */
  predicate EndsOnce(before: seq<Event>, log: seq<Event>) {
    && |before| < |log| && before <= log && log[|log| - 1] == End
    && forall i :: |before| <= i < |log| - 1 ==> log[i] != End
  }

  /** What one step adds to the log: the end if the request ends, else no end. */
  predicate Adds(p: Parser, q: Parser) {
    && p.log <= q.log && (q.status.Ended? ==> EndsOnce(p.log, q.log))
    && (!q.status.Ended? ==> forall i :: |p.log| <= i < |q.log| ==> q.log[i] != End)
  }

  lemma ScanAdds(p: Parser, w: Bytes, atoi: Atoi)
    requires p.status.Running? && w != [] && Scanning(p.state)
    ensures var (q, v) := Scan(p, w, atoi); Adds(p, q)
  {
  }

  lemma StepAdds(p: Parser, w: Bytes, atoi: Atoi)
    requires p.status.Running? && w != []
    ensures var (q, v) := Step(p, w, atoi); Adds(p, q)
  {
    if Scanning(p.state) {
      ScanAdds(p, w, atoi);
    } else if SkipsSpaces(p.state) {
      ScanAdds(p.(state := AfterSpaces(p.state)), w, atoi);
    }
  }

  lemma Stopped(p: Parser, w: Bytes, atoi: Atoi)
    ensures !p.status.Running? ==> Run(p, w, atoi) == (p, w)
  {
  }

  lemma {:induction false} RunEndsOnce(p: Parser, w: Bytes, end: Parser, atoi: Atoi)
    requires Completes(p, w, end, atoi)
    ensures w != [] && EndsOnce(p.log, end.log)
    decreases |w|, 1
  {
    StepAdds(p, w, atoi);
    var (q, v) := Step(p, w, atoi);
    Stopped(q, v, atoi);
    if q.status.Running? {
      RunEndsOnce(q, v, end, atoi);
    }
  }

  /** Behind the blanks there is something. */
  lemma SkipBlanks(p: Parser, w: Bytes, end: Parser, atoi: Atoi)
    requires Completes(p, w, end, atoi) && SkipsSpaces(p.state)
    ensures Blanks(w) < |w| && Completes(p, w[Blanks(w)..], end, atoi)
  {
    RunSpaces(p, w, Blanks(w), atoi);
    assert w[|w|..] == [];
  }

  /** Neither byte that a scanning state looks for is between two places. */
  predicate NoneIn(w: Bytes, from: nat, to: nat, s: State)
    requires to <= |w| && Scanning(s)
  {
    forall k :: from <= k < to ==> w[k] != Success(s) && w[k] != HttpParser.Fail(s)
  }

  /** A scanning state finds its success byte first. */
  lemma Scans(p: Parser, w: Bytes, end: Parser, atoi: Atoi) returns (i: nat)
    requires Completes(p, w, end, atoi) && Scanning(p.state)
    ensures i < |w| && w[i] == Success(p.state) && NoneIn(w, 0, i, p.state)
    ensures Completes(TakeToken(p.(token := p.token + w[..i]), atoi), w[i + 1..], end, atoi)
  {
    i := Located(w, 0, Success(p.state), HttpParser.Fail(p.state));
    RunDelimiter(p, w, 0, i, atoi);
    assert w[0..] == w && w[0..i] == w[..i];
    assert w[|w|..] == [];
    if i < |w| {
      Stopped(TakeToken(p.(token := p.token + w[..i]), atoi), w[i + 1..], atoi);
    }
  }

  /** Wherever it is found, that is the place. */
  lemma ScansAt(p: Parser, w: Bytes, k: nat, end: Parser, atoi: Atoi)
    requires Completes(p, w, end, atoi) && Scanning(p.state) && k < |w| && w[k] == Success(p.state) && NoneIn(w, 0, k, p.state)
    ensures Completes(TakeToken(p.(token := p.token + w[..k]), atoi), w[k + 1..], end, atoi)
  {
    var i := Scans(p, w, end, atoi);
    assert i == k;
  }

  lemma FallsOn(p: Parser, w: Bytes, end: Parser, atoi: Atoi)
    requires Completes(p, w, end, atoi) && SkipsSpaces(p.state) && !p.state.PreKey?
    ensures Blanks(w) < |w| && Completes(p.(state := AfterSpaces(p.state)), w[Blanks(w)..], end, atoi)
  {
    SkipBlanks(p, w, end, atoi);
    RunFallsThrough(p, w[Blanks(w)..], atoi);
  }

  /** What stands where a token should: blanks, then bytes up to the success byte. */
  lemma ScansBehindBlanks(p: Parser, w: Bytes, end: Parser, atoi: Atoi) returns (j: nat)
    requires Completes(p, w, end, atoi) && SkipsSpaces(p.state) && !p.state.PreKey? && p.token == []
    ensures Blanks(w) < |w| && var s := AfterSpaces(p.state); var v := w[Blanks(w)..];
            && j < |v| && v[j] == Success(s) && NoneIn(v, 0, j, s)
            && Completes(TakeToken(p.(state := s, token := v[..j]), atoi), v[j + 1..], end, atoi)
  {
    FallsOn(p, w, end, atoi);
    var v := w[Blanks(w)..];
    var q := p.(state := AfterSpaces(p.state));
    j := Scans(q, v, end, atoi);
    TokenIs(q, v[..j]);
  }

  lemma TokenIs(q: Parser, t: Bytes)
    requires q.token == []
    ensures q.(token := q.token + t) == q.(token := t)
  {
    assert [] + t == t;
  }

  /** A header is more than the end. */
  lemma HeaderAndEnd(p: Parser, v: Bytes, end: Parser, atoi: Atoi)
    requires Completes(p, v, end, atoi) && p.state.PreKey? && p.token == [] && v != [] && !IsSpace(v[0]) && v[0] != '\r'
    ensures |p.log| + 2 <= |end.log|
  {
    RunFallsThrough(p, v, atoi);
    var q := p.(state := Key);
    var i := Scans(q, v, end, atoi);
    var r := TakeToken(q.(token := q.token + v[..i]), atoi);
    var z := v[i + 1..];
    var j := ScansBehindBlanks(r, z, end, atoi);
    var u := z[Blanks(z)..];
    RunEndsOnce(TakeToken(r.(state := Value, token := u[..j]), atoi), u[j + 1..], end, atoi);
  }

  /** Where the end comes without another header, there are blanks and an empty line. */
  lemma OnlyEnd(p: Parser, w: Bytes, end: Parser, atoi: Atoi)
    requires Completes(p, w, end, atoi) && p.state.PreKey? && p.token == [] && end.log == p.log + [End]
    ensures Blanks(w) < |w| && w[Blanks(w)] == '\r'
  {
    SkipBlanks(p, w, end, atoi);
    var b := Blanks(w);
    var v := w[b..];
    if v[0] != '\r' {
      HeaderAndEnd(p, v, end, atoi);
      assert false;
    }
  }
}
