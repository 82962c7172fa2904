/**
 What the incremental parser promises, for every input and every way of cutting it into chunks.
 */
module HttpTheorems {
  import opened HttpParser

  // ---------- chunking ----------

  /** A run on more input is the run on less, continued, unless it has stopped for good. */
  lemma {:induction false} RunAppend(p: Parser, a: Bytes, b: Bytes, atoi: Atoi)
    ensures var (q, r) := Run(p, a, atoi);
            Run(p, a + b, atoi) == if q.status.Running? then Run(q, b, atoi) else (q, r + b)
    decreases |a|, if p.status.Running? then 1 else 0
  {
    if !p.status.Running? {
    } else if a == [] {
      assert a + b == b;
    } else {
      var (q, v) := Step(p, a, atoi);
      assert (a + b)[1..] == a[1..] + b;
      assert Step(p, a + b, atoi) == (q, v + b);
      RunAppend(q, v, b, atoi);
    }
  }

  lemma {:induction false} RunShrinks(p: Parser, w: Bytes, atoi: Atoi)
    ensures |Run(p, w, atoi).1| <= |w|
    ensures p.status.Running? && w != [] && !Run(p, w, atoi).0.status.Failed? ==> |Run(p, w, atoi).1| < |w|
    decreases |w|, if p.status.Running? then 1 else 0
  {
    if p.status.Running? && w != [] {
      var (q, v) := Step(p, w, atoi);
      RunShrinks(q, v, atoi);
    }
  }

  /** Some chunk other than the last completes a request that is kept alive. */
  predicate EndsBeforeLast(c: Conn, chunks: seq<Bytes>, atoi: Atoi)
    requires c.Open()
    decreases |chunks|
  {
    2 <= |chunks| &&
    var q := Run(c.parser, c.rest + chunks[0], atoi).0;
    if q.status.Running? then EndsBeforeLast(Feed(c, chunks[0], atoi), chunks[1..], atoi)
    else q.status.Ended? && q.keepAlive
  }

  predicate NoneEmpty(chunks: seq<Bytes>) {
    forall i :: 0 <= i < |chunks| ==> chunks[i] != []
  }

  /** Chunking does not matter, exactly when no kept-alive request is complete before the last chunk:
      then, and only then, the state, the bytes before the cursor, the keep-alive flag, the handler's log
      and the bytes left over are those of one big chunk. */
  lemma {:induction false} ChunkIndependence(c: Conn, chunks: seq<Bytes>, atoi: Atoi)
    requires c.Open() && chunks != [] && NoneEmpty(chunks)
    ensures FeedAll(c, chunks, atoi) == Feed(c, Concat(chunks), atoi) <==> !EndsBeforeLast(c, chunks, atoi)
    decreases |chunks|
  {
    var a, tail := chunks[0], chunks[1..];
    var (q, r) := Run(c.parser, c.rest + a, atoi);
    var f := Feed(c, a, atoi);
    assert c.rest + Concat(chunks) == c.rest + a + Concat(tail);
    RunAppend(c.parser, c.rest + a, Concat(tail), atoi);
    if tail == [] {
      assert a + Concat(tail) == a;
    } else {
      if q.status.Running? {
        ChunkIndependence(f, tail, atoi);
        assert f.rest + Concat(tail) == Concat(tail);
      } else if f.Open() {
        MoreChunksMatter(f, tail, atoi);
      }
    }
  }

  lemma {:induction false} MoreChunksMatter(c: Conn, chunks: seq<Bytes>, atoi: Atoi)
    requires c.Open() && chunks != [] && NoneEmpty(chunks)
    ensures var d := FeedAll(c, chunks, atoi);
            !d.Open() || |d.rest| < |c.rest| + |Concat(chunks)|
    decreases |chunks|
  {
    var f := Feed(c, chunks[0], atoi);
    RunShrinks(c.parser, c.rest + chunks[0], atoi);
    if f.Open() && chunks[1..] != [] {
      MoreChunksMatter(f, chunks[1..], atoi);
    }
  }

  // ---------- keep-alive runs ----------

  /** The reference parse: go on with what is left over until it is used up or the connection closes. */
  function Drain(c: Conn, atoi: Atoi): (d: Conn)
    ensures !d.Open() || d.rest == []
    decreases |c.rest|, if c.Open() then 1 else 0
  {
    if !c.Open() || c.rest == [] then c
    else
      RunShrinks(c.parser, c.rest + [], atoi);
      Drain(Feed(c, [], atoi), atoi)
  }

  lemma DrainSplit(c: Conn, a: Bytes, b: Bytes, atoi: Atoi)
    requires c.Open()
    ensures var f := Feed(c, a, atoi); Drain(Conn(f.parser, f.rest + b), atoi) == Drain(Conn(c.parser, c.rest + a + b), atoi)
  {
    var x := c.rest + a;
    var f := Feed(c, a, atoi);
    RunAppend(c.parser, x, b, atoi);
    assert x + b + [] == x + b;
    if x + b != [] {
      assert Drain(Conn(c.parser, x + b), atoi) == Drain(Feed(Conn(c.parser, x + b), [], atoi), atoi);
      if Run(c.parser, x, atoi).0.status.Running? && b != [] {
        assert f.rest + b == b && b + [] == b;
        assert Drain(Conn(f.parser, b), atoi) == Drain(Feed(Conn(f.parser, b), [], atoi), atoi);
      }
    }
  }

  /** However the bytes were cut, finishing the parse of what is left over gives the reference parse
      of all bytes received. */
  lemma {:induction false} KeepAliveRun(c: Conn, chunks: seq<Bytes>, atoi: Atoi)
    requires c.Open()
    ensures Drain(FeedAll(c, chunks, atoi), atoi) == Drain(Conn(c.parser, c.rest + Concat(chunks)), atoi)
    decreases |chunks|
  {
    if chunks == [] {
      assert c.rest + Concat(chunks) == c.rest;
    } else {
      var f := Feed(c, chunks[0], atoi);
      DrainSplit(c, chunks[0], Concat(chunks[1..]), atoi);
      assert c.rest + Concat(chunks) == c.rest + chunks[0] + Concat(chunks[1..]);
      if f.Open() {
        KeepAliveRun(f, chunks[1..], atoi);
      } else if chunks[1..] == [] {
        assert f.rest + Concat(chunks[1..]) == f.rest;
      }
    }
  }

  lemma StepExtendsLog(p: Parser, w: Bytes, atoi: Atoi)
    requires p.status.Running? && w != []
    ensures p.log <= Step(p, w, atoi).0.log
  {
  }

  lemma {:induction false} RunExtendsLog(p: Parser, w: Bytes, atoi: Atoi)
    ensures p.log <= Run(p, w, atoi).0.log
    decreases |w|, if p.status.Running? then 1 else 0
  {
    if p.status.Running? && w != [] {
      var (q, v) := Step(p, w, atoi);
      StepExtendsLog(p, w, atoi);
      RunExtendsLog(q, v, atoi);
    }
  }

  lemma {:induction false} DrainExtendsLog(c: Conn, atoi: Atoi)
    ensures c.parser.log <= Drain(c, atoi).parser.log
    decreases |c.rest|, if c.Open() then 1 else 0
  {
    if c.Open() && c.rest != [] {
      RunShrinks(c.parser, c.rest + [], atoi);
      RunExtendsLog(c.parser, c.rest + [], atoi);
      DrainExtendsLog(Feed(c, [], atoi), atoi);
    }
  }

  /** What handlers have been told is at every moment a prefix of the reference parse. */
  lemma EventsArePrefix(chunks: seq<Bytes>, atoi: Atoi)
    ensures FeedAll(Conn(INITIAL, []), chunks, atoi).parser.log
         <= Drain(Conn(INITIAL, Concat(chunks)), atoi).parser.log
  {
    var c := Conn(INITIAL, []);
    KeepAliveRun(c, chunks, atoi);
    assert c.rest + Concat(chunks) == Concat(chunks);
    DrainExtendsLog(FeedAll(c, chunks, atoi), atoi);
  }

  // ---------- no byte is lost ----------

  /** The input buffer: the bytes the cursor has passed and those it has not. */
  function Buffered(c: Conn): Bytes {
    c.parser.token + c.rest
  }

  predicate Suffix(s: Bytes, t: Bytes) {
    |s| <= |t| && t[|t| - |s|..] == s
  }

  lemma SuffixTrans(r: Bytes, s: Bytes, t: Bytes)
    requires Suffix(r, s) && Suffix(s, t)
    ensures Suffix(r, t)
  {
    assert s[|s| - |r|..] == t[|t| - |r|..];
  }

  predicate TokenOnlyWhileScanning(p: Parser) {
    p.token != [] ==> Scanning(p.state)
  }

  /** A step either moves a byte past the cursor or leaves the input alone, or pops through it. */
  lemma StepConserves(p: Parser, w: Bytes, atoi: Atoi)
    requires p.status.Running? && w != [] && TokenOnlyWhileScanning(p)
    ensures var (q, v) := Step(p, w, atoi);
            && TokenOnlyWhileScanning(q)
            && (q.status.Ended? ==> q.token == [])
            && (q.token + v == p.token + w || (q.token == [] && v == w[1..]))
  {
    var moved := p.token + [w[0]];
    assert moved + w[1..] == p.token + w;
  }

  lemma StepSuffix(p: Parser, w: Bytes, atoi: Atoi)
    requires p.status.Running? && w != [] && TokenOnlyWhileScanning(p)
    ensures var (q, v) := Step(p, w, atoi); Suffix(q.token + v, p.token + w)
  {
    StepConserves(p, w, atoi);
    assert [] + w[1..] == w[1..] == (p.token + w)[|p.token| + 1..];
  }

  lemma {:induction false} RunConserves(p: Parser, w: Bytes, atoi: Atoi)
    requires TokenOnlyWhileScanning(p) && (p.status.Ended? ==> p.token == [])
    ensures var (q, v) := Run(p, w, atoi);
            TokenOnlyWhileScanning(q) && (q.status.Ended? ==> q.token == []) && Suffix(q.token + v, p.token + w)
    decreases |w|, if p.status.Running? then 1 else 0
  {
    if p.status.Running? && w != [] {
      var (q, v) := Step(p, w, atoi);
      StepConserves(p, w, atoi);
      StepSuffix(p, w, atoi);
      RunConserves(q, v, atoi);
      var (q', v') := Run(q, v, atoi);
      SuffixTrans(q'.token + v', q.token + v, p.token + w);
    }
  }

  lemma FeedConserves(c: Conn, chunk: Bytes, atoi: Atoi)
    requires c.Open() && TokenOnlyWhileScanning(c.parser)
    ensures var f := Feed(c, chunk, atoi);
            TokenOnlyWhileScanning(f.parser) && Suffix(Buffered(f), Buffered(c) + chunk)
  {
    RunConserves(c.parser, c.rest + chunk, atoi);
    assert c.parser.token + (c.rest + chunk) == Buffered(c) + chunk;
  }

  lemma SuffixAppend(s: Bytes, t: Bytes, z: Bytes)
    requires Suffix(s, t)
    ensures Suffix(s + z, t + z)
  {
    assert (t + z)[|t + z| - |s + z|..] == t[|t| - |s|..] + z;
  }

  /** Consumed bytes followed by the input buffer (and what was never delivered) are the bytes received. */
  lemma {:induction false} BytesConserved(c: Conn, chunks: seq<Bytes>, atoi: Atoi)
    requires TokenOnlyWhileScanning(c.parser)
    ensures Suffix(Buffered(FeedAll(c, chunks, atoi)), Buffered(c) + Concat(chunks))
    decreases |chunks|
  {
    if chunks == [] {
      assert Buffered(c) + Concat(chunks) == Buffered(c);
    } else if !c.Open() {
      assert Buffered(FeedAll(c, chunks, atoi)) == Buffered(c) + Concat(chunks);
    } else {
      var f := Feed(c, chunks[0], atoi);
      var tail := Concat(chunks[1..]);
      FeedConserves(c, chunks[0], atoi);
      SuffixAppend(Buffered(f), Buffered(c) + chunks[0], tail);
      assert Buffered(c) + chunks[0] + tail == Buffered(c) + Concat(chunks);
      BytesConserved(f, chunks[1..], atoi);
      SuffixTrans(Buffered(FeedAll(c, chunks, atoi)), Buffered(f) + tail, Buffered(c) + Concat(chunks));
    }
  }

  // ---------- the cursor ----------

  /** No byte the cursor has passed ends the token, well or badly: scanning never has to go back. */
  predicate NoTerminator(s: State, token: Bytes) {
    Scanning(s) ==> Success(s) !in token && Fail(s) !in token
  }

  predicate CleanToken(p: Parser) {
    TokenOnlyWhileScanning(p) && NoTerminator(p.state, p.token)
  }

  lemma ScanKeepsTokenClean(p: Parser, w: Bytes, atoi: Atoi)
    requires p.status.Running? && w != [] && Scanning(p.state) && CleanToken(p)
    ensures var (q, v) := Scan(p, w, atoi); CleanToken(q)
  {
    if w[0] == Success(p.state) {
      assert TakeToken(p, atoi).token == [];
    }
  }

  lemma StepKeepsTokenClean(p: Parser, w: Bytes, atoi: Atoi)
    requires p.status.Running? && w != [] && CleanToken(p)
    ensures var (q, v) := Step(p, w, atoi); CleanToken(q)
  {
    if Scanning(p.state) {
      ScanKeepsTokenClean(p, w, atoi);
    } else if SkipsSpaces(p.state) {
      ScanKeepsTokenClean(p.(state := AfterSpaces(p.state)), w, atoi);
    }
  }

  lemma {:induction false} RunKeepsTokenClean(p: Parser, w: Bytes, atoi: Atoi)
    requires CleanToken(p) && (p.status.Ended? ==> p.token == [])
    ensures CleanToken(Run(p, w, atoi).0)
    ensures Run(p, w, atoi).0.status.Ended? ==> Run(p, w, atoi).0.token == []
    decreases |w|, if p.status.Running? then 1 else 0
  {
    if p.status.Running? && w != [] {
      StepKeepsTokenClean(p, w, atoi);
      StepConserves(p, w, atoi);
      var (q, v) := Step(p, w, atoi);
      RunKeepsTokenClean(q, v, atoi);
    }
  }

  lemma {:induction false} CursorPassesNoTerminator(c: Conn, chunks: seq<Bytes>, atoi: Atoi)
    requires CleanToken(c.parser)
    ensures CleanToken(FeedAll(c, chunks, atoi).parser)
    decreases |chunks|
  {
    if chunks != [] && c.Open() {
      RunKeepsTokenClean(c.parser, c.rest + chunks[0], atoi);
      CursorPassesNoTerminator(Feed(c, chunks[0], atoi), chunks[1..], atoi);
    }
  }
}
