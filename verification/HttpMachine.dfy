/**
 The incremental parser turn by turn, as the source has it: an input buffer with a registered cursor, a switch over
 the state, a do/while around it. The buffer is taken at its contract: a byte sequence, and a cursor whose offset
 drops by the number of bytes popped before it.

 The source departs from its purpose in two ways that show here. `popped` takes a 16-bit length, so that longer pops
 are cut: `Pops` says whether they are, as in the source, or not, as is meant. And `close` deletes the request
 handler but forgets neither it nor the state, so that a connection that is fed on follows a bad pointer: a `Fault`.
 */
module HttpMachine {
  import opened HttpParser

  datatype Pops = Short | Whole

  const WIDTH: nat := 0x1_0000

  /** What becomes of the length of a pop. */
  function Cut(n: nat, pops: Pops): (k: nat)
    ensures k <= n && (k == n <==> pops.Whole? || n < WIDTH)
  {
    if pops.Short? then n % WIDTH else n
  }

  /** `mHttpRequest`: null, set, or left pointing at a request that `close` has deleted. */
  datatype Handler = Missing | Live | Deleted

  datatype ProcessResult = NotFound | Found | Error | RequestEnd | Fault

  /** What `receive` returns, unless it follows a bad pointer. */
  datatype Outcome = Done(ok: bool) | Faulted

  datatype Machine = Machine(
    state: State,
    input: Bytes,        // mInputBuffer
    cursor: nat,         // offset of mInputBufferIterator
    methodName: Bytes,   // mMethod, also the header name
    uri: Bytes,          // mUri, also the header value
    keepAlive: bool,
    handler: Handler,
    dataLeft: nat,       // of the handler
    closed: bool,        // close() has been called; for the account only
    log: seq<Event>,
    examined: nat)       // bytes ever looked at by locateChar; for the account only

  const NEW_MACHINE := Machine(PreMethod, [], 0, [], [], false, Missing, 0, false, [], 0)

  /** `ReadBuffer::popped` as the cursor sees it. */
  function Popped(m: Machine, n: nat, pops: Pops): Machine
    requires n <= |m.input|
  {
    var k := Cut(n, pops);
    m.(input := m.input[k..], cursor := if k <= m.cursor then m.cursor - k else 0)
  }

  /** How many blanks a text begins with. */
  function Blanks(s: Bytes): (n: nat)
    ensures n <= |s| && (forall i :: 0 <= i < n ==> IsSpace(s[i])) && (n < |s| ==> !IsSpace(s[n]))
  {
    if s == [] || !IsSpace(s[0]) then 0 else 1 + Blanks(s[1..])
  }

  lemma BlanksAre(s: Bytes, n: nat)
    requires n <= |s| && (forall i :: 0 <= i < n ==> IsSpace(s[i])) && (n < |s| ==> !IsSpace(s[n]))
    ensures Blanks(s) == n
  {
    var k := Blanks(s);
    assert k <= |s| && (k == |s| || !IsSpace(s[k]));
  }

  /** `eatSpaces`: the leading blanks are popped one by one. */
  function Eaten(m: Machine): (q: Machine)
    ensures |q.input| <= |m.input| && (m.cursor <= |m.input| ==> q.cursor <= |q.input|)
  {
    var n := Blanks(m.input);
    m.(input := m.input[n..], cursor := if n <= m.cursor then m.cursor - n else 0)
  }

  /** `locateChar`: the first of two bytes from a place on, or the end. */
  function Located(s: Bytes, from: nat, success: char, fail: char): (j: nat)
    requires from <= |s|
    ensures from <= j <= |s| && (j < |s| ==> s[j] == success || s[j] == fail)
    ensures forall i :: from <= i < j ==> s[i] != success && s[i] != fail
    decreases |s| - from
  {
    if from == |s| || s[from] == success || s[from] == fail then from else Located(s, from + 1, success, fail)
  }

  /** The states in the order they are passed. */
  function Rank(s: State): nat {
    match s
    case PreMethod => 13 case Method => 12 case PreUri => 11 case Uri => 10 case PreVersion => 9 case Version => 8
    case RequestLineEol => 7 case PreKey => 6 case Key => 5 case PreValue => 4 case Value => 3 case HeaderEol => 2
    case HeadersEndEol => 1 case Data => 0
  }

  /** What each scanning state does with the region it has found. */
  function Handled(m: Machine, region: Bytes, atoi: Atoi): (r: (Machine, ProcessResult))
    requires Scanning(m.state)
    ensures r.0.input == m.input && r.0.cursor == m.cursor && (r.1.Found? ==> Rank(r.0.state) < Rank(m.state))
  {
    match m.state
    case Method => (m.(methodName := region, state := PreUri), Found)
    case Uri => (m.(uri := region, state := PreVersion), Found)
    case Key => (m.(methodName := region, state := PreValue), Found)
    case Version =>
      if StartsWith(region, "HTTP/1.0") || StartsWith(region, "HTTP/1.1") then
        (m.(keepAlive := !StartsWith(region, "HTTP/1.0"), handler := Live, dataLeft := 0,
            log := m.log + [Request(m.methodName, m.uri, region)], state := RequestLineEol), Found)
      else (m, Error)
    case Value =>
      var q, n := m.(uri := region), m.methodName;
      if !m.handler.Live? then (q, Fault)
      else
        (q.(dataLeft := if StartsWith(n, "Content-Length") then atoi(region) else q.dataLeft,
            keepAlive := q.keepAlive || (!StartsWith(n, "Content-Length") && StartsWith(n, "Connection") && StartsWith(region, "Keep-Alive")),
            log := q.log + [Header(n, region)], state := HeaderEol), Found)
  }

  /** The cursor goes on to the next terminator of the state. */
  function Scanned(m: Machine): Machine
    requires Scanning(m.state) && m.cursor <= |m.input|
  {
    var j := Located(m.input, m.cursor, Success(m.state), HttpParser.Fail(m.state));
    m.(cursor := j, examined := m.examined + j - m.cursor + if j < |m.input| then 1 else 0)
  }

  /** Even where pops are cut to nothing, a turn that has found something has moved on. */
  predicate Onward(m: Machine, r: (Machine, ProcessResult)) {
    && r.0.cursor <= |r.0.input| <= |m.input|
    && (r.1.Found? ==> |r.0.input| < |m.input| || Rank(r.0.state) < Rank(m.state))
  }

  /** METHOD, URI, VERSION, KEY, VALUE: find the token and handle it. */
  function TokenTurn(m: Machine, atoi: Atoi, pops: Pops): (r: (Machine, ProcessResult))
    requires Scanning(m.state) && m.cursor <= |m.input|
    ensures Onward(m, r)
  {
    var q := Scanned(m);
    if q.cursor == |q.input| then (q, NotFound)
    else if q.input[q.cursor] != Success(m.state) then (q, Error)
    else Handled(Popped(q, q.cursor + 1, pops), q.input[..q.cursor], atoi)
  }

  /** REQUEST_LINE_EOL, HEADER_EOL, HEADERS_END_EOL: exactly one newline. */
  function NewlineTurn(m: Machine, pops: Pops): (r: (Machine, ProcessResult))
    requires ExpectsNewline(m.state) && m.cursor <= |m.input|
    ensures Onward(m, r)
  {
    if m.input == [] then (m, Fault) // `pop` reads what is not there: through a null pointer if there is no block
    else
      var q := Popped(m, 1, pops);
      if m.input[0] != '\n' then (q, Error)
      else if !m.state.HeadersEndEol? then (q.(state := PreKey), Found)
      else if !m.handler.Live? then (q, Fault)
      else if m.dataLeft == 0 then (q.(log := q.log + [End], handler := Missing), RequestEnd)
      else (q.(state := Data), Found)
  }

  /** DATA: hand over what there is, but no more than the request still expects. */
  function DataTurn(m: Machine, pops: Pops): (r: (Machine, ProcessResult))
    requires m.state.Data? && m.cursor <= |m.input|
    ensures Onward(m, r)
  {
    if !m.handler.Live? then (m, Fault)
    else
      var n := if |m.input| > m.dataLeft then m.dataLeft else |m.input|;
      var q := Popped(m, n, pops).(log := m.log + Bodies(m.input[..n]), dataLeft := m.dataLeft - n);
      if q.dataLeft == 0 then (q.(log := q.log + [End], handler := Missing), RequestEnd) else (q, NotFound)
  }

  /** The blanks before a token, or the empty line after the headers; otherwise the token. */
  function SpacesTurn(m: Machine, atoi: Atoi, pops: Pops): (r: (Machine, ProcessResult))
    requires SkipsSpaces(m.state) && m.cursor <= |m.input|
    ensures Onward(m, r)
  {
    var q := Eaten(m);
    if q.input == [] then (q, NotFound)
    else if q.state.PreKey? && q.input[0] == '\r' then (Popped(q, 1, pops).(state := HeadersEndEol), Found)
    else
      var s := q.(state := AfterSpaces(q.state));
      OnwardFrom(m, s, TokenTurn(s, atoi, pops));
      TokenTurn(s, atoi, pops)
  }

  lemma OnwardFrom(m: Machine, s: Machine, r: (Machine, ProcessResult))
    requires Onward(s, r) && |s.input| <= |m.input| && SkipsSpaces(m.state) && s.state == AfterSpaces(m.state)
    ensures Onward(m, r)
  {
  }

  /** `process`: one turn of the switch. */
  function Turn(m: Machine, atoi: Atoi, pops: Pops): (r: (Machine, ProcessResult))
    requires m.cursor <= |m.input|
    ensures Onward(m, r)
  {
    if SkipsSpaces(m.state) then SpacesTurn(m, atoi, pops)
    else if Scanning(m.state) then TokenTurn(m, atoi, pops)
    else if ExpectsNewline(m.state) then NewlineTurn(m, pops)
    else DataTurn(m, pops)
  }

  /** The loop of `receive`. */
  function Loop(m: Machine, atoi: Atoi, pops: Pops): (r: (Machine, ProcessResult))
    requires m.cursor <= |m.input|
    ensures r.0.cursor <= |r.0.input|
    decreases |m.input|, Rank(m.state)
  {
    var (q, r) := Turn(m, atoi, pops);
    if r.Found? && q.input != [] then Loop(q, atoi, pops) else (q, r)
  }

  lemma LoopStep(m: Machine, q: Machine, result: ProcessResult, atoi: Atoi)
    requires m.cursor <= |m.input| && (q, result) == Turn(m, atoi, Short)
    ensures q.cursor <= |q.input| && Loop(m, atoi, Short) == if result.Found? && q.input != [] then Loop(q, atoi, Short) else (q, result)
    ensures |q.input| <= |m.input| && (result.Found? ==> |q.input| < |m.input| || Rank(q.state) < Rank(m.state))
  {
  }

  /** `close`, which deletes the handler, again if it has done so before. */
  function Shut(m: Machine, ok: bool): (Machine, Outcome) {
    (m.(closed := true, handler := if m.handler.Missing? then Missing else Deleted), if m.handler.Deleted? then Faulted else Done(ok))
  }

  /** What follows the loop: an error closes, a finished request starts over or closes. */
  function Finished(m: Machine, result: ProcessResult): (Machine, Outcome) {
    match result
    case Error => Shut(m.(keepAlive := false), false)
    case RequestEnd => if m.keepAlive then (m.(state := PreMethod), Done(true)) else Shut(m, true)
    case Fault => (m, Faulted)
    case _ => (m, Done(true))
  }

  /** `receive(const String *)` and `receive(Buffer *)`: append to the input buffer, then loop. */
  function Received(m: Machine, chunk: Bytes, atoi: Atoi, pops: Pops): (r: (Machine, Outcome))
    requires m.cursor <= |m.input|
    ensures r.0.cursor <= |r.0.input|
  {
    var (q, result) := Loop(m.(input := m.input + chunk), atoi, pops);
    Finished(q, result)
  }

  /** `receiveEnd`: an open request is told that the other end has gone. */
  function EndReceived(m: Machine): (Machine, Outcome) {
    match m.handler
    case Missing => (m.(keepAlive := false, closed := true), Done(true))
    case Live => (m.(log := m.log + [Abort], handler := Missing, keepAlive := false, closed := true), Done(true))
    case Deleted => (m, Faulted)
  }

  function Counted(r: (Machine, nat), k: nat): (Machine, nat) {
    (r.0, r.1 + k)
  }

  /** Chunk after chunk until the connection closes; `delivered` says how many that took. */
  function ReceivedAll(m: Machine, chunks: seq<Bytes>, atoi: Atoi, pops: Pops): (r: (Machine, nat))
    requires m.cursor <= |m.input|
    ensures r.0.cursor <= |r.0.input| && r.1 <= |chunks|
    decreases |chunks|
  {
    if chunks == [] || m.closed then (m, 0)
    else
      var (q, outcome) := Received(m, chunks[0], atoi, pops);
      if outcome.Faulted? then (q, 1) else Counted(ReceivedAll(q, chunks[1..], atoi, pops), 1)
  }

  /** What is still to come completes the result. */
  predicate Delivering(r: (Machine, nat), m: Machine, rest: seq<Bytes>, delivered: nat, atoi: Atoi) {
    m.cursor <= |m.input| && r == Counted(ReceivedAll(m, rest, atoi, Short), delivered)
  }

  lemma DeliveringStarts(m: Machine, chunks: seq<Bytes>, atoi: Atoi)
    requires m.cursor <= |m.input|
    ensures Delivering(ReceivedAll(m, chunks, atoi, Short), m, chunks, 0, atoi)
  {
  }

  lemma DeliveringEnds(r: (Machine, nat), m: Machine, rest: seq<Bytes>, delivered: nat, atoi: Atoi)
    requires Delivering(r, m, rest, delivered, atoi) && (rest == [] || m.closed)
    ensures r == (m, delivered)
  {
  }

  lemma ReceivedAllStep(m: Machine, chunks: seq<Bytes>, q: Machine, outcome: Outcome, atoi: Atoi)
    requires m.cursor <= |m.input| && chunks != [] && !m.closed && (q, outcome) == Received(m, chunks[0], atoi, Short)
    ensures q.cursor <= |q.input|
    ensures ReceivedAll(m, chunks, atoi, Short) ==
            if outcome.Faulted? then (q, 1) else Counted(ReceivedAll(q, chunks[1..], atoi, Short), 1)
  {
  }

  lemma CountedOn(r: (Machine, nat), k: nat)
    ensures Counted(Counted(r, 1), k) == Counted(r, k + 1)
  {
  }
}
