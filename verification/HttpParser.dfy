/**
 The byte-at-a-time meaning of the incremental HTTP request parser.

 `HttpConnection` keeps its input in a buffer and scans it with a resumable cursor; chunks of any size
 arrive at any time. This module says what that machinery computes: an automaton that eats one byte per
 step. What the parser promises (chunking does not matter, keep-alive, handler protocol, round trip) is
 proved about `Run` below. HttpMachine has the machinery as it is, and HttpRefinement says exactly when that
 is `Run`.
 */
module HttpParser {

  type Bytes = seq<char>

  /** Stands for atoi followed by the conversion to Size; any total function will do. */
  type Atoi = Bytes -> nat

  datatype State =
    | PreMethod | Method | PreUri | Uri | PreVersion | Version | RequestLineEol
    | PreKey | Key | PreValue | Value | HeaderEol | HeadersEndEol | Data

  /** What a request handler is told. `Body` carries one byte of message body: a data event of n bytes
      is n of these in a row, so two logs are equal exactly when they agree up to how adjacent data
      events are cut. */
  datatype Event =
    | Request(requestMethod: Bytes, requestUri: Bytes, requestVersion: Bytes)
    | Header(name: Bytes, value: Bytes)
    | Body(byte: char)
    | End
    | Abort

  /** Running: wants more bytes. Ended: the last request has just ended. Failed: a parse error.
      Closed: `close()` has been called. */
  datatype Status = Running | Ended | Failed | Closed

  datatype Parser = Parser(
    state: State,
    token: Bytes,        // the bytes already passed by the cursor and not yet popped
    methodName: Bytes,
    uri: Bytes,
    keepAlive: bool,
    open: bool,          // mHttpRequest is set
    dataLeft: nat,
    status: Status,
    log: seq<Event>)

  const INITIAL := Parser(PreMethod, [], [], [], false, false, 0, Running, [])

  predicate Scanning(s: State) {
    s.Method? || s.Uri? || s.Version? || s.Key? || s.Value?
  }

  predicate ExpectsNewline(s: State) {
    s.RequestLineEol? || s.HeaderEol? || s.HeadersEndEol?
  }

  predicate SkipsSpaces(s: State) {
    s.PreMethod? || s.PreUri? || s.PreVersion? || s.PreKey? || s.PreValue?
  }

  /** The states in which a request handler exists. */
  predicate InRequest(s: State) {
    s.RequestLineEol? || s.PreKey? || s.Key? || s.PreValue? || s.Value? || s.HeaderEol?
    || s.HeadersEndEol? || s.Data?
  }

  function Success(s: State): char
    requires Scanning(s)
  {
    match s
    case Version => '\r'
    case Key => ':'
    case Value => '\r'
    case _ => ' '
  }

  function Fail(s: State): char
    requires Scanning(s)
  {
    match s
    case Version => ' '
    case Value => '\n'
    case _ => '\r'
  }

  predicate IsSpace(c: char) {
    c == ' ' || c == '\t'
  }

  /** The scanning state that a space-skipping state falls through to. */
  function AfterSpaces(s: State): State
    requires SkipsSpaces(s)
  {
    match s
    case PreMethod => Method
    case PreUri => Uri
    case PreVersion => Version
    case PreKey => Key
    case PreValue => Value
  }

  /** `Buffer::equals` on a C string: the buffer starts with it. */
  predicate StartsWith(buffer: Bytes, text: Bytes) {
    text <= buffer
  }

  lemma StartsWithIff(buffer: Bytes, text: Bytes)
    ensures StartsWith(buffer, text) <==> |text| <= |buffer| && forall i :: 0 <= i < |text| ==> buffer[i] == text[i]
  {
  }

  /** What a handled token does to the parser; `p.token` is the whole token. */
  function TakeToken(p: Parser, atoi: Atoi): (r: Parser)
    requires p.status.Running? && Scanning(p.state)
  {
    var t := p.token;
    var q := p.(token := []);
    match p.state
    case Method => q.(methodName := t, state := PreUri)
    case Uri => q.(uri := t, state := PreVersion)
    case Key => q.(methodName := t, state := PreValue)
    case Version =>
      if StartsWith(t, "HTTP/1.0") || StartsWith(t, "HTTP/1.1") then
        q.(keepAlive := !StartsWith(t, "HTTP/1.0"), open := true, dataLeft := 0,
           log := q.log + [Request(q.methodName, q.uri, t)], state := RequestLineEol)
      else
        q.(status := Failed)
    case Value =>
      var n := q.methodName;
      q.(uri := t,
         dataLeft := if StartsWith(n, "Content-Length") then atoi(t) else q.dataLeft,
         keepAlive := q.keepAlive || (!StartsWith(n, "Content-Length") && StartsWith(n, "Connection") && StartsWith(t, "Keep-Alive")),
         log := q.log + [Header(n, t)], state := HeaderEol)
  }

  /** One byte met by the cursor in a scanning state. The failing byte stays in the input. */
  function Scan(p: Parser, w: Bytes, atoi: Atoi): (r: (Parser, Bytes))
    requires p.status.Running? && Scanning(p.state) && w != []
  {
    if w[0] == Success(p.state) then (TakeToken(p, atoi), w[1..])
    else if w[0] == Fail(p.state) then (p.(status := Failed), w)
    else (p.(token := p.token + [w[0]]), w[1..])
  }

  function EndRequest(p: Parser): Parser {
    p.(log := p.log + [End], open := false, status := Ended)
  }

  function Newline(p: Parser): Parser
    requires ExpectsNewline(p.state)
  {
    if !p.state.HeadersEndEol? then p.(state := PreKey)
    else if p.dataLeft == 0 then EndRequest(p)
    else p.(state := Data)
  }

  /** One step of the automaton on the pending input `w`. */
  function Step(p: Parser, w: Bytes, atoi: Atoi): (r: (Parser, Bytes))
    requires p.status.Running? && w != []
    ensures |r.1| < |w| || r.0.status.Failed?
  {
    var c := w[0];
    if Scanning(p.state) then Scan(p, w, atoi)
    else if SkipsSpaces(p.state) then
      if IsSpace(c) then (p, w[1..])
      else if p.state.PreKey? && c == '\r' then (p.(state := HeadersEndEol), w[1..])
      else Scan(p.(state := AfterSpaces(p.state)), w, atoi)
    else if ExpectsNewline(p.state) then
      (if c == '\n' then Newline(p) else p.(status := Failed), w[1..])
    else
      var q := p.(log := p.log + [Body(c)], dataLeft := if p.dataLeft == 0 then 0 else p.dataLeft - 1);
      (if q.dataLeft == 0 then EndRequest(q) else q, w[1..])
  }

  /** Steps until the input is used up, a request ends or the parse fails. */
  function Run(p: Parser, w: Bytes, atoi: Atoi): (r: (Parser, Bytes))
    ensures r.0.status.Running? ==> r.1 == []
    decreases |w|, if p.status.Running? then 1 else 0
  {
    if w == [] || !p.status.Running? then (p, w)
    else var (q, v) := Step(p, w, atoi); Run(q, v, atoi)
  }

  /** A connection between two calls of `receive`: the parser and the bytes it has not looked at. */
  datatype Conn = Conn(parser: Parser, rest: Bytes) {
    predicate Open() { parser.status.Running? }
  }

  /** What `receive` does once the loop has stopped. */
  function Settle(p: Parser): (r: Parser) {
    match p.status
    case Failed => p.(keepAlive := false, status := Closed)
    case Ended => if p.keepAlive then p.(state := PreMethod, status := Running) else p.(status := Closed)
    case _ => p
  }

  function Feed(c: Conn, chunk: Bytes, atoi: Atoi): Conn {
    var (p, rest) := Run(c.parser, c.rest + chunk, atoi);
    Conn(Settle(p), rest)
  }

  function Concat(chunks: seq<Bytes>): Bytes {
    if chunks == [] then [] else chunks[0] + Concat(chunks[1..])
  }

  /** Chunks handed to `receive` one after another, until the connection closes: HttpClosed has what happens if a
      reader goes on. What was not delivered is put after what was left over, so that no byte is lost from the account. */
  function FeedAll(c: Conn, chunks: seq<Bytes>, atoi: Atoi): Conn
    decreases |chunks|
  {
    if chunks == [] then c
    else if !c.Open() then Conn(c.parser, c.rest + Concat(chunks))
    else FeedAll(Feed(c, chunks[0], atoi), chunks[1..], atoi)
  }

  // ---------- many steps at once ----------

  lemma {:induction false} RunSpaces(p: Parser, w: Bytes, n: nat, atoi: Atoi)
    requires n <= |w| && p.status.Running? && SkipsSpaces(p.state)
    requires forall i :: 0 <= i < n ==> IsSpace(w[i])
    ensures Run(p, w, atoi) == Run(p, w[n..], atoi)
    decreases n
  {
    if n != 0 {
      assert w[1..][n - 1..] == w[n..];
      RunSpaces(p, w[1..], n - 1, atoi);
    } else {
      assert w[0..] == w;
    }
  }

  /** Falling through from a space-skipping state consumes nothing. */
  lemma RunFallsThrough(p: Parser, w: Bytes, atoi: Atoi)
    requires p.status.Running? && SkipsSpaces(p.state) && w != [] && !IsSpace(w[0])
    requires !(p.state.PreKey? && w[0] == '\r')
    ensures Run(p, w, atoi) == Run(p.(state := AfterSpaces(p.state)), w, atoi)
  {
  }

  /** The cursor moves over s[i..j] without meeting a delimiter. */
  lemma {:induction false} RunScan(p: Parser, s: Bytes, i: nat, j: nat, atoi: Atoi)
    requires i <= j <= |s| && p.status.Running? && Scanning(p.state)
    requires forall k :: i <= k < j ==> s[k] != Success(p.state) && s[k] != Fail(p.state)
    ensures Run(p, s[i..], atoi) == Run(p.(token := p.token + s[i..j]), s[j..], atoi)
    decreases j - i
  {
    if i == j {
      assert p.token + s[i..j] == p.token;
    } else {
      var q := p.(token := p.token + [s[i]]);
      assert Step(p, s[i..], atoi) == (q, s[i + 1..]);
      RunScan(q, s, i + 1, j, atoi);
      assert q.token + s[i + 1..j] == p.token + s[i..j];
    }
  }

  /** The cursor has stopped at `j`: at the end, at the success byte or at the fail byte. */
  lemma RunDelimiter(p: Parser, s: Bytes, i: nat, j: nat, atoi: Atoi)
    requires i <= j <= |s| && p.status.Running? && Scanning(p.state)
    requires forall k :: i <= k < j ==> s[k] != Success(p.state) && s[k] != Fail(p.state)
    ensures var q := p.(token := p.token + s[i..j]);
            Run(p, s[i..], atoi) ==
            if j < |s| && s[j] == Success(p.state) then Run(TakeToken(q, atoi), s[j + 1..], atoi)
            else if j < |s| && s[j] == Fail(p.state) then (q.(status := Failed), s[j..])
            else Run(q, s[j..], atoi)
  {
    RunScan(p, s, i, j, atoi);
    if j < |s| {
      assert s[j..][1..] == s[j + 1..];
    }
  }

  lemma RunNewline(p: Parser, w: Bytes, atoi: Atoi)
    requires p.status.Running? && ExpectsNewline(p.state) && w != []
    ensures Run(p, w, atoi) == if w[0] == '\n' then Run(Newline(p), w[1..], atoi) else (p.(status := Failed), w[1..])
  {
  }

  /** The body events of a data event. */
  function Bodies(bytes: Bytes): (r: seq<Event>)
    ensures |r| == |bytes|
    ensures forall i :: 0 <= i < |bytes| ==> r[i] == Body(bytes[i])
  {
    seq(|bytes|, i requires 0 <= i < |bytes| => Body(bytes[i]))
  }

  lemma BodiesCons(log: seq<Event>, w: Bytes, n: nat)
    requires 0 < n <= |w|
    ensures w[1..][n - 1..] == w[n..]
    ensures log + [Body(w[0])] + Bodies(w[1..][..n - 1]) == log + Bodies(w[..n])
  {
  }

  lemma {:induction false} RunData(p: Parser, w: Bytes, n: nat, atoi: Atoi)
    requires n <= |w| && n < p.dataLeft && p.status.Running? && p.state.Data?
    ensures Run(p, w, atoi) == Run(p.(dataLeft := p.dataLeft - n, log := p.log + Bodies(w[..n])), w[n..], atoi)
    decreases n
  {
    if n != 0 {
      var q := p.(dataLeft := p.dataLeft - 1, log := p.log + [Body(w[0])]);
      assert Step(p, w, atoi) == (q, w[1..]);
      RunData(q, w[1..], n - 1, atoi);
      BodiesCons(p.log, w, n);
    } else {
      assert w[0..] == w && p.log + Bodies(w[..0]) == p.log;
    }
  }

  /** All the body bytes there are, but no more than the request still expects. */
  function TakeData(p: Parser, w: Bytes): (r: (Parser, Bytes)) {
    var n := if p.dataLeft <= |w| then p.dataLeft else |w|;
    var q := p.(dataLeft := p.dataLeft - n, log := p.log + Bodies(w[..n]));
    (if q.dataLeft == 0 then EndRequest(q) else q, w[n..])
  }

  lemma RunTakeData(p: Parser, w: Bytes, atoi: Atoi)
    requires 0 < p.dataLeft && p.status.Running? && p.state.Data?
    ensures Run(p, w, atoi) == TakeData(p, w)
  {
    if |w| < p.dataLeft {
      RunData(p, w, |w|, atoi);
    } else {
      var n := p.dataLeft - 1;
      RunData(p, w, n, atoi);
      assert w[n..][1..] == w[p.dataLeft..];
      assert p.log + Bodies(w[..n]) + [Body(w[n])] == p.log + Bodies(w[..p.dataLeft]);
    }
  }
}
