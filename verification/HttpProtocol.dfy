/**
 What a request handler sees: headers, then data, then one end (or abort), and as many bytes of data as
 its Content-Length said. And the other direction: a request written out as text is read back as the
 events that describe it, alone or pipelined behind others, however it is chunked.
 */
module HttpProtocol {
  import opened HttpParser
  import opened HttpTheorems

  // ---------- the protocol ----------

  /** Where a log stands: between requests, inside one that still expects `left` bytes, or nowhere legal. */
  datatype Phase = Idle | InHeaders(left: nat) | InBody(left: nat) | Broken

  function Declared(e: Event, otherwise: nat, atoi: Atoi): nat
    requires e.Header?
  {
    if StartsWith(e.name, "Content-Length") then atoi(e.value) else otherwise
  }

  function Advance(phase: Phase, e: Event, atoi: Atoi): Phase {
    match (phase, e)
    case (Idle, Request(_, _, _)) => InHeaders(0)
    case (InHeaders(n), Header(_, _)) => InHeaders(Declared(e, n, atoi))
    case (InHeaders(n), Body(_)) => if n == 0 then Broken else InBody(n - 1)
    case (InHeaders(n), End) => if n == 0 then Idle else Broken
    case (InHeaders(_), Abort) => Idle
    case (InBody(n), Body(_)) => if n == 0 then Broken else InBody(n - 1)
    case (InBody(n), End) => if n == 0 then Idle else Broken
    case (InBody(_), Abort) => Idle
    case _ => Broken
  }

  function Track(log: seq<Event>, atoi: Atoi): Phase
    decreases |log|
  {
    if log == [] then Idle else Advance(Track(log[..|log| - 1], atoi), log[|log| - 1], atoi)
  }

  lemma TrackSnoc(log: seq<Event>, e: Event, atoi: Atoi)
    ensures Track(log + [e], atoi) == Advance(Track(log, atoi), e, atoi)
  {
    assert (log + [e])[..|log|] == log;
  }

  /** mHttpRequest is set exactly in the states from the end of the request line to the data, and the log
      is at the matching place, expecting what mDataLeft says. */
  predicate InStep(p: Parser, atoi: Atoi) {
    && (p.status.Running? ==> (p.open <==> InRequest(p.state)))
    && (p.status.Ended? ==> !p.open)
    && (p.status.Running? && p.state.Data? ==> 0 < p.dataLeft)
    && var phase := Track(p.log, atoi);
       if !p.open then phase == Idle
       else phase == InHeaders(p.dataLeft) || (p.state.Data? && phase == InBody(p.dataLeft))
  }

  lemma TokenInStep(p: Parser, atoi: Atoi)
    requires p.status.Running? && Scanning(p.state) && InStep(p, atoi)
    ensures InStep(TakeToken(p, atoi), atoi)
  {
    if p.state.Version? {
      TrackSnoc(p.log, Request(p.methodName, p.uri, p.token), atoi);
    } else if p.state.Value? {
      TrackSnoc(p.log, Header(p.methodName, p.token), atoi);
    }
  }

  lemma DataInStep(p: Parser, c: char, atoi: Atoi)
    requires p.status.Running? && p.state.Data? && InStep(p, atoi)
    ensures var q := p.(log := p.log + [Body(c)], dataLeft := p.dataLeft - 1);
            InStep(if q.dataLeft == 0 then EndRequest(q) else q, atoi)
  {
    TrackSnoc(p.log, Body(c), atoi);
    TrackSnoc(p.log + [Body(c)], End, atoi);
  }

  lemma ScanInStep(p: Parser, w: Bytes, atoi: Atoi)
    requires p.status.Running? && Scanning(p.state) && w != [] && InStep(p, atoi)
    ensures InStep(Scan(p, w, atoi).0, atoi)
  {
    TokenInStep(p, atoi);
  }

  lemma NewlineInStep(p: Parser, atoi: Atoi)
    requires p.status.Running? && ExpectsNewline(p.state) && InStep(p, atoi)
    ensures InStep(Newline(p), atoi)
  {
    TrackSnoc(p.log, End, atoi);
  }

  lemma StepInStep(p: Parser, w: Bytes, atoi: Atoi)
    requires p.status.Running? && w != [] && InStep(p, atoi)
    ensures InStep(Step(p, w, atoi).0, atoi)
  {
    if Scanning(p.state) {
      ScanInStep(p, w, atoi);
    } else if SkipsSpaces(p.state) {
      ScanInStep(p.(state := AfterSpaces(p.state)), w, atoi);
    } else if p.state.Data? {
      DataInStep(p, w[0], atoi);
    } else {
      NewlineInStep(p, atoi);
    }
  }

  lemma {:induction false} RunInStep(p: Parser, w: Bytes, atoi: Atoi)
    requires InStep(p, atoi)
    ensures InStep(Run(p, w, atoi).0, atoi)
    decreases |w|, if p.status.Running? then 1 else 0
  {
    if p.status.Running? && w != [] {
      StepInStep(p, w, atoi);
      var (q, v) := Step(p, w, atoi);
      RunInStep(q, v, atoi);
    }
  }

  /** For every sequence of chunks: the log obeys the protocol, and the handler is there when it should be. */
  lemma {:induction false} HandlerProtocol(c: Conn, chunks: seq<Bytes>, atoi: Atoi)
    requires InStep(c.parser, atoi)
    ensures InStep(FeedAll(c, chunks, atoi).parser, atoi)
    ensures Track(FeedAll(c, chunks, atoi).parser.log, atoi) != Broken
    decreases |chunks|
  {
    if chunks != [] && c.Open() {
      RunInStep(c.parser, c.rest + chunks[0], atoi);
      HandlerProtocol(Feed(c, chunks[0], atoi), chunks[1..], atoi);
    }
  }

  predicate AllHeaders(es: seq<Event>) { forall i :: 0 <= i < |es| ==> es[i].Header? }
  predicate AllBody(es: seq<Event>) { forall i :: 0 <= i < |es| ==> es[i].Body? }

  /** The length the last Content-Length header declares; none declares 0. */
  function DeclaredLength(headers: seq<Event>, atoi: Atoi): nat
    requires AllHeaders(headers)
    decreases |headers|
  {
    if headers == [] then 0
    else Declared(headers[|headers| - 1], DeclaredLength(headers[..|headers| - 1], atoi), atoi)
  }

  /** `log` ends with one unfinished request: its line, headers `hs`, data `bs`. */
  predicate Unfinished(log: seq<Event>, before: seq<Event>, line: Event, hs: seq<Event>, bs: seq<Event>) {
    log == before + [line] + hs + bs && line.Request? && AllHeaders(hs) && AllBody(bs)
  }

  lemma OneMoreHeader(begun: seq<Event>, hs: seq<Event>, e: Event, atoi: Atoi)
    requires AllHeaders(hs) && e.Header?
    ensures begun + hs + [] + [e] == begun + (hs + [e]) + []
    ensures AllHeaders(hs + [e]) && DeclaredLength(hs + [e], atoi) == Declared(e, DeclaredLength(hs, atoi), atoi)
  {
    assert (hs + [e])[..|hs|] == hs;
  }

  lemma Associative(a: seq<Event>, b: seq<Event>, c: seq<Event>)
    ensures (a + b) + c == a + (b + c)
  {
  }

  lemma {:induction false} InsideRequest(log: seq<Event>, atoi: Atoi)
    returns (before: seq<Event>, line: Event, hs: seq<Event>, bs: seq<Event>)
    requires Track(log, atoi).InHeaders? || Track(log, atoi).InBody?
    ensures Unfinished(log, before, line, hs, bs) && Track(before, atoi) == Idle
    ensures DeclaredLength(hs, atoi) == Track(log, atoi).left + |bs|
    ensures Track(log, atoi).InHeaders? ==> bs == []
    decreases |log|
  {
    var front, e := log[..|log| - 1], log[|log| - 1];
    assert log == front + [e];
    if e.Request? {
      before, line, hs, bs := front, e, [], [];
    } else {
      before, line, hs, bs := InsideRequest(front, atoi);
      var begun := before + [line];
      if e.Header? {
        OneMoreHeader(begun, hs, e, atoi);
        hs := hs + [e];
      } else {
        Associative(begun + hs, bs, [e]);
        bs := bs + [e];
      }
    }
  }

  /** A request that has ended saw Header* Data* and exactly as many data bytes as it declared. */
  lemma EndedRequestIsComplete(log: seq<Event>, atoi: Atoi)
    returns (before: seq<Event>, line: Event, hs: seq<Event>, bs: seq<Event>)
    requires Track(log + [End], atoi) != Broken
    ensures Unfinished(log, before, line, hs, bs) && Track(before, atoi) == Idle
    ensures |bs| == DeclaredLength(hs, atoi)
  {
    TrackSnoc(log, End, atoi);
    before, line, hs, bs := InsideRequest(log, atoi);
  }

  /** An abort, too, comes at most once and only to a handler that is still there. */
  lemma AbortEndsProtocol(p: Parser, atoi: Atoi)
    requires InStep(p, atoi)
    ensures Track(p.log + [Abort], atoi) == if p.open then Idle else Broken
  {
    TrackSnoc(p.log, Abort, atoi);
  }

  // ---------- round trip ----------

  datatype Field = Field(name: Bytes, value: Bytes)
  datatype Message = Message(verb: Bytes, uri: Bytes, version: Bytes, fields: seq<Field>, body: Bytes)

  predicate Free(t: Bytes, a: char, b: char) {
    a !in t && b !in t
  }

  predicate NoLeadingSpace(t: Bytes) {
    t != [] ==> t[0] != ' ' && t[0] != '\t'
  }

  predicate FieldOk(f: Field) {
    Free(f.name, ':', '\r') && NoLeadingSpace(f.name) && Free(f.value, '\r', '\n') && NoLeadingSpace(f.value)
  }

  function Headers(fields: seq<Field>): (r: seq<Event>)
    ensures AllHeaders(r)
  {
    if fields == [] then [] else Headers(fields[..|fields| - 1]) + [Header(fields[|fields| - 1].name, fields[|fields| - 1].value)]
  }

  /** What the sender must do for the subset of HTTP/1.x that is understood. */
  predicate WellFormed(m: Message, atoi: Atoi) {
    && m.verb != [] && Free(m.verb, ' ', '\r') && NoLeadingSpace(m.verb)
    && m.uri != [] && Free(m.uri, ' ', '\r') && NoLeadingSpace(m.uri)
    && (StartsWith(m.version, "HTTP/1.0") || StartsWith(m.version, "HTTP/1.1")) && Free(m.version, '\r', ' ')
    && (forall i :: 0 <= i < |m.fields| ==> FieldOk(m.fields[i]))
    && |m.body| == DeclaredLength(Headers(m.fields), atoi)
  }

  function FieldsText(fields: seq<Field>): Bytes {
    if fields == [] then [] else fields[0].name + ":" + (fields[0].value + "\r\n" + FieldsText(fields[1..]))
  }

  function Text(m: Message): Bytes {
    m.verb + " " + (m.uri + " " + (m.version + "\r\n" + (FieldsText(m.fields) + "\r\n" + m.body)))
  }

  predicate AsksToKeepAlive(f: Field) {
    !StartsWith(f.name, "Content-Length") && StartsWith(f.name, "Connection") && StartsWith(f.value, "Keep-Alive")
  }

  predicate KeepsAlive(m: Message) {
    !StartsWith(m.version, "HTTP/1.0") || exists i :: 0 <= i < |m.fields| && AsksToKeepAlive(m.fields[i])
  }

  function Events(m: Message): seq<Event> {
    [Request(m.verb, m.uri, m.version)] + Headers(m.fields) + Bodies(m.body) + [End]
  }

  /** A token behind a space-skipping state, its success byte, then whatever follows. */
  lemma RunToken(p: Parser, t: Bytes, delimiter: Bytes, rest: Bytes, atoi: Atoi)
    requires p.status.Running? && SkipsSpaces(p.state) && p.token == []
    requires var s := AfterSpaces(p.state); Free(t, Success(s), Fail(s)) && delimiter == [Success(s)]
    requires !IsSpace((t + delimiter)[0])
    ensures Run(p, t + delimiter + rest, atoi) == Run(TakeToken(p.(state := AfterSpaces(p.state), token := t), atoi), rest, atoi)
  {
    var w := t + delimiter + rest;
    var q := p.(state := AfterSpaces(p.state));
    assert w[0] == (t + delimiter)[0];
    RunFallsThrough(p, w, atoi);
    assert w[0..] == w && w[0..|t|] == t && w[|t| + 1..] == rest && q.token + t == t;
    RunDelimiter(q, w, 0, |t|, atoi);
  }

  lemma RunEol(p: Parser, rest: Bytes, atoi: Atoi)
    requires p.status.Running? && ExpectsNewline(p.state)
    ensures Run(p, "\n" + rest, atoi) == Run(Newline(p), rest, atoi)
  {
    RunNewline(p, "\n" + rest, atoi);
    assert ("\n" + rest)[1..] == rest;
  }

  /** A token that ends its line. */
  lemma RunLastToken(p: Parser, t: Bytes, rest: Bytes, atoi: Atoi)
    requires p.status.Running? && (p.state.PreVersion? || p.state.PreValue?) && p.token == []
    requires Free(t, '\r', Fail(AfterSpaces(p.state))) && NoLeadingSpace(t)
    requires ExpectsNewline(TakeToken(p.(state := AfterSpaces(p.state), token := t), atoi).state)
    ensures Run(p, t + "\r\n" + rest, atoi) ==
            Run(Newline(TakeToken(p.(state := AfterSpaces(p.state), token := t), atoi)), rest, atoi)
  {
    assert t + "\r\n" + rest == t + "\r" + ("\n" + rest);
    RunToken(p, t, "\r", "\n" + rest, atoi);
    RunEol(TakeToken(p.(state := AfterSpaces(p.state), token := t), atoi), rest, atoi);
  }

  function TakeField(p: Parser, f: Field, atoi: Atoi): Parser {
    p.(methodName := f.name, uri := f.value,
       dataLeft := if StartsWith(f.name, "Content-Length") then atoi(f.value) else p.dataLeft,
       keepAlive := p.keepAlive || AsksToKeepAlive(f),
       log := p.log + [Header(f.name, f.value)])
  }

  lemma RunField(p: Parser, f: Field, rest: Bytes, atoi: Atoi)
    requires p.status.Running? && p.state.PreKey? && p.token == [] && FieldOk(f)
    ensures Run(p, f.name + ":" + (f.value + "\r\n" + rest), atoi) == Run(TakeField(p, f, atoi), rest, atoi)
  {
    var after := f.value + "\r\n" + rest;
    RunToken(p, f.name, ":", after, atoi);
    var q := p.(state := PreValue, methodName := f.name);
    RunLastToken(q, f.value, rest, atoi);
    var r := TakeField(p, f, atoi).(state := HeaderEol);
    assert TakeToken(q.(state := Value, token := f.value), atoi) == r;
    assert Newline(r) == TakeField(p, f, atoi);
  }

  function TakeFields(p: Parser, fields: seq<Field>, atoi: Atoi): Parser
    decreases |fields|
  {
    if fields == [] then p else TakeFields(TakeField(p, fields[0], atoi), fields[1..], atoi)
  }

  lemma {:induction false} RunFields(p: Parser, fields: seq<Field>, rest: Bytes, atoi: Atoi)
    requires p.status.Running? && p.state.PreKey? && p.token == []
    requires forall i :: 0 <= i < |fields| ==> FieldOk(fields[i])
    ensures Run(p, FieldsText(fields) + rest, atoi) == Run(TakeFields(p, fields, atoi), rest, atoi)
    decreases |fields|
  {
    if fields == [] {
      assert FieldsText(fields) + rest == rest;
    } else {
      var f, after := fields[0], FieldsText(fields[1..]) + rest;
      assert FieldsText(fields) + rest == f.name + ":" + (f.value + "\r\n" + after);
      RunField(p, f, after, atoi);
      RunFields(TakeField(p, f, atoi), fields[1..], rest, atoi);
    }
  }

  lemma {:induction false} TakeFieldsMeaning(p: Parser, fields: seq<Field>, atoi: Atoi)
    ensures var q := TakeFields(p, fields, atoi);
            && q == p.(methodName := q.methodName, uri := q.uri, dataLeft := q.dataLeft, keepAlive := q.keepAlive, log := q.log)
            && q.log == p.log + Headers(fields)
            && q.keepAlive == (p.keepAlive || exists i :: 0 <= i < |fields| && AsksToKeepAlive(fields[i]))
            && (p.dataLeft == 0 ==> q.dataLeft == DeclaredLength(Headers(fields), atoi))
    decreases |fields|
  {
    if fields == [] {
      assert p.log + Headers(fields) == p.log;
    } else {
      var n := |fields| - 1;
      TakeFieldsMeaning(p, fields[..n], atoi);
      TakeFieldsSnoc(p, fields, atoi);
      var hs := Headers(fields);
      assert hs[..|hs| - 1] == Headers(fields[..n]);
    }
  }

  lemma {:induction false} TakeFieldsSnoc(p: Parser, fields: seq<Field>, atoi: Atoi)
    requires fields != []
    ensures TakeFields(p, fields, atoi) == TakeField(TakeFields(p, fields[..|fields| - 1], atoi), fields[|fields| - 1], atoi)
    decreases |fields|
  {
    var n := |fields| - 1;
    if n != 0 {
      assert fields[1..][..n - 1] == fields[..n][1..];
      TakeFieldsSnoc(TakeField(p, fields[0], atoi), fields[1..], atoi);
    }
  }

  /** The parser once the request line has been taken. */
  function TakeLine(p: Parser, m: Message): Parser {
    p.(state := PreKey, methodName := m.verb, uri := m.uri, open := true, dataLeft := 0,
       keepAlive := !StartsWith(m.version, "HTTP/1.0"), log := p.log + [Request(m.verb, m.uri, m.version)])
  }

  lemma RunLine(p: Parser, m: Message, rest: Bytes, atoi: Atoi)
    requires p.status.Running? && p.state.PreMethod? && p.token == [] && WellFormed(m, atoi)
    ensures Run(p, m.verb + " " + (m.uri + " " + (m.version + "\r\n" + rest)), atoi) ==
            Run(TakeLine(p, m), rest, atoi)
  {
    var w2 := m.version + "\r\n" + rest;
    var w1 := m.uri + " " + w2;
    RunToken(p, m.verb, " ", w1, atoi);
    var q := p.(state := PreUri, methodName := m.verb);
    RunToken(q, m.uri, " ", w2, atoi);
    var r := q.(state := PreVersion, uri := m.uri);
    RunLastToken(r, m.version, rest, atoi);
  }

  /** The parser once the headers of a request have been taken. */
  function TakeHead(p: Parser, m: Message, atoi: Atoi): Parser {
    TakeFields(TakeLine(p, m), m.fields, atoi)
  }

  lemma RunHead(p: Parser, m: Message, rest: Bytes, atoi: Atoi)
    requires p.status.Running? && p.state.PreMethod? && p.token == [] && WellFormed(m, atoi)
    ensures Run(p, Text(m) + rest, atoi) == Run(TakeHead(p, m, atoi), "\r\n" + (m.body + rest), atoi)
    ensures var q := TakeHead(p, m, atoi);
            && q.status.Running? && q.state.PreKey? && q.token == [] && q.open
            && q.log == p.log + [Request(m.verb, m.uri, m.version)] + Headers(m.fields)
            && q.keepAlive == KeepsAlive(m) && q.dataLeft == |m.body|
  {
    var end := "\r\n" + (m.body + rest);
    var w := FieldsText(m.fields) + end;
    assert Text(m) + rest == m.verb + " " + (m.uri + " " + (m.version + "\r\n" + w));
    RunLine(p, m, w, atoi);
    var p1 := TakeLine(p, m);
    RunFields(p1, m.fields, end, atoi);
    TakeFieldsMeaning(p1, m.fields, atoi);
  }

  /** The empty line and the body. */
  lemma RunTail(p: Parser, body: Bytes, rest: Bytes, atoi: Atoi)
    requires p.status.Running? && p.state.PreKey? && p.token == [] && p.dataLeft == |body|
    ensures Run(p, "\r\n" + (body + rest), atoi) ==
            (EndRequest(p.(state := if body == [] then HeadersEndEol else Data, dataLeft := 0, log := p.log + Bodies(body))), rest)
  {
    var w := body + rest;
    var q := p.(state := HeadersEndEol);
    assert ("\r\n" + w)[1..] == "\n" + w;
    assert Step(p, "\r\n" + w, atoi) == (q, "\n" + w);
    RunEol(q, w, atoi);
    if body == [] {
      assert w == rest && p.log + Bodies(body) == p.log;
    } else {
      RunTakeData(q.(state := Data), w, atoi);
      assert w[..|body|] == body && w[|body|..] == rest;
    }
  }

  lemma Regroup(a: seq<Event>, b: seq<Event>, c: seq<Event>, d: seq<Event>, e: seq<Event>)
    ensures a + b + c + d + e == a + (b + c + d + e)
  {
  }

  lemma RunMessage(p: Parser, m: Message, rest: Bytes, atoi: Atoi)
    requires p.status.Running? && p.state.PreMethod? && p.token == [] && WellFormed(m, atoi)
    ensures var (q, r) := Run(p, Text(m) + rest, atoi);
            && r == rest && q.status.Ended? && q.log == p.log + Events(m)
            && q.keepAlive == KeepsAlive(m) && !q.open && q.dataLeft == 0 && q.token == []
  {
    RunHead(p, m, rest, atoi);
    var q := TakeHead(p, m, atoi);
    RunTail(q, m.body, rest, atoi);
    Regroup(p.log, [Request(m.verb, m.uri, m.version)], Headers(m.fields), Bodies(m.body), [End]);
  }

  /** Decoding an encoded request gives back its description, in one piece or in any chunks. */
  lemma RoundTrip(m: Message, chunks: seq<Bytes>, atoi: Atoi)
    requires WellFormed(m, atoi) && NoneEmpty(chunks) && Concat(chunks) == Text(m)
    ensures var c := FeedAll(Conn(INITIAL, []), chunks, atoi);
            c.parser.log == Events(m) && c.rest == [] && c.Open() == KeepsAlive(m)
  {
    var c := Conn(INITIAL, []);
    RunMessage(INITIAL, m, [], atoi);
    assert Text(m) + [] == Text(m) == c.rest + Concat(chunks);
    OneRequest(c, chunks, atoi);
    ChunkIndependence(c, chunks, atoi);
    assert INITIAL.log + Events(m) == Events(m);
  }

  /** Bytes that one run uses up without stopping earlier cannot have ended a request before their last chunk. */
  lemma {:induction false} OneRequest(c: Conn, chunks: seq<Bytes>, atoi: Atoi)
    requires c.Open() && NoneEmpty(chunks)
    requires Run(c.parser, c.rest + Concat(chunks), atoi).1 == []
    ensures !EndsBeforeLast(c, chunks, atoi)
    decreases |chunks|
  {
    if 2 <= |chunks| {
      var tail := chunks[1..];
      var x, y := c.rest + chunks[0], Concat(tail);
      RunAppend(c.parser, x, y, atoi);
      assert x + y == c.rest + Concat(chunks);
      assert tail[0] == chunks[1] && y == tail[0] + Concat(tail[1..]);
      var q := Run(c.parser, x, atoi).0;
      if q.status.Running? {
        assert [] + y == y;
        OneRequest(Conn(q, []), tail, atoi);
      }
    }
  }

  /** Where chunks do matter: of two requests that keep the connection alive, received at once, the second waits. */
  lemma TwoAtOnce(m: Message, atoi: Atoi)
    requires WellFormed(m, atoi) && KeepsAlive(m)
    ensures var c := Conn(INITIAL, []); FeedAll(c, [Text(m), Text(m)], atoi) != Feed(c, Text(m) + Text(m), atoi)
  {
    var c, t := Conn(INITIAL, []), Text(m);
    RunMessage(INITIAL, m, [], atoi);
    assert t + [] == t && c.rest + t == t && t != [];
    assert [t, t][1..] == [t] && Concat([t]) == t + Concat([]) == t && Concat([t, t]) == t + t;
    assert EndsBeforeLast(c, [t, t], atoi);
    ChunkIndependence(c, [t, t], atoi);
  }

  function AllText(ms: seq<Message>): Bytes {
    if ms == [] then [] else Text(ms[0]) + AllText(ms[1..])
  }

  function AllEvents(ms: seq<Message>): seq<Event> {
    if ms == [] then [] else Events(ms[0]) + AllEvents(ms[1..])
  }

  predicate Pipeline(ms: seq<Message>, atoi: Atoi) {
    ms != [] ==> WellFormed(ms[0], atoi) && (1 < |ms| ==> KeepsAlive(ms[0])) && Pipeline(ms[1..], atoi)
  }

  /** Any number of requests back to back, all but the last keeping the connection alive: the reference
      parse is the description of each in order. With EventsArePrefix this bounds what any chunking says. */
  lemma {:induction false} Pipelining(p: Parser, ms: seq<Message>, atoi: Atoi)
    requires Pipeline(ms, atoi) && (ms != [] ==> Fresh(p))
    ensures Drain(Conn(p, AllText(ms)), atoi).parser.log == p.log + AllEvents(ms)
    ensures Drain(Conn(p, AllText(ms)), atoi).rest == []
    decreases |ms|
  {
    if ms != [] {
      var tail := ms[1..];
      var q := DrainMessage(p, ms[0], AllText(tail), atoi);
      Pipelining(q, tail, atoi);
      Associative(p.log, Events(ms[0]), AllEvents(tail));
    }
  }

  /** Ready for the first byte of a request. */
  predicate Fresh(p: Parser) {
    p.status.Running? && p.state.PreMethod? && p.token == []
  }

  lemma DrainMessage(p: Parser, m: Message, rest: Bytes, atoi: Atoi) returns (q: Parser)
    requires Fresh(p) && WellFormed(m, atoi)
    ensures Drain(Conn(p, Text(m) + rest), atoi) == Drain(Conn(q, rest), atoi)
    ensures q.log == p.log + Events(m) && (if KeepsAlive(m) then Fresh(q) else q.status.Closed?)
  {
    var c := Conn(p, Text(m) + rest);
    RunMessage(p, m, rest, atoi);
    q := Settle(Run(p, c.rest, atoi).0);
    assert c.rest + [] == c.rest && |Text(m)| > 0;
  }
}
