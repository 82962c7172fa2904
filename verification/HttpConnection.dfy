/**
 The incremental parser as the source has it, updating its fields in place. Every method is proved against the
 machine of module HttpMachine with 16-bit pops, in all cases; HttpRefinement says when that machine is the parser
 that is meant. Handlers are a log.
 */
module HttpConnections {
  import opened HttpParser
  import opened HttpMachine
  import opened HttpRefinement

  class HttpConnection {
    const atoi: Atoi
    var state: State
    var input: Bytes          // mInputBuffer
    var cursor: nat           // offset of mInputBufferIterator
    var methodName: Bytes     // mMethod, also the header name
    var uri: Bytes            // mUri, also the header value
    var keepAlive: bool
    var handler: Handler      // mHttpRequest
    var dataLeft: nat         // mHttpRequest->mDataLeft
    var closed: bool          // close() has been called
    var log: seq<Event>
    ghost var examined: nat   // bytes ever looked at by LocateChar

    constructor (atoi: Atoi)
      ensures this.atoi == atoi && Value() == NEW_MACHINE
    {
      this.atoi := atoi;
      state, input, cursor, methodName, uri := PreMethod, [], 0, [], [];
      keepAlive, handler, dataLeft, closed, log, examined := false, Missing, 0, false, [], 0;
    }

    ghost function Value(): Machine
      reads this
    {
      Machine(state, input, cursor, methodName, uri, keepAlive, handler, dataLeft, closed, log, examined)
    }

    /** `ReadBuffer::popped`, whose parameter has 16 bits. */
    method Pop(length: nat)
      requires length <= |input|
      modifies this`input, this`cursor
      ensures Value() == Popped(old(Value()), length, Short)
    {
      var n := length % WIDTH;
      input := input[n..];
      cursor := if n <= cursor then cursor - n else 0;
    }

    method EatSpaces() returns (empty: bool)
      modifies this`input, this`cursor
      ensures Value() == Eaten(old(Value())) && empty == (input == [])
      ensures |input| <= |old(input)| && input == old(input)[|old(input)| - |input|..]
      ensures forall i :: 0 <= i < |old(input)| - |input| ==> old(input)[i] == ' ' || old(input)[i] == '\t'
      ensures input != [] ==> input[0] != ' ' && input[0] != '\t'
    {
      ghost var s, c := input, cursor;
      ghost var n := 0;
      while |input| > 0
        invariant n <= |s| && input == s[n..] && forall i :: 0 <= i < n ==> IsSpace(s[i])
        invariant cursor == if n <= c then c - n else 0
        decreases |input|
        modifies this`input, this`cursor
      {
        var c := input[0];
        if c != ' ' && c != '\t' {
          BlanksAre(s, n);
          return false;
        }
        assert s[n..][1..] == s[n + 1..];
        Pop(1);
        n := n + 1;
      }
      BlanksAre(s, n);
      return true;
    }

    method LocateChar(success: char, fail: char) returns (result: ProcessResult)
      requires cursor <= |input|
      modifies this`cursor, this`examined
      ensures cursor == Located(input, old(cursor), success, fail)
      ensures examined == old(examined) + cursor - old(cursor) + if cursor < |input| then 1 else 0
      ensures result == if cursor == |input| then NotFound else if input[cursor] == success then Found else Error
    {
      while cursor < |input|
        invariant old(cursor) <= cursor <= |input|
        invariant Located(input, cursor, success, fail) == Located(input, old(cursor), success, fail)
        invariant examined - old(examined) == cursor - old(cursor)
        decreases |input| - cursor
      {
        var c := input[cursor];
        examined := examined + 1;
        if c == success { return Found; }
        if c == fail { return Error; }
        cursor := cursor + 1;
      }
      return NotFound;
    }

    method LocateRegion(success: char, fail: char) returns (result: ProcessResult, region: Bytes)
      requires cursor <= |input| && Scanning(state) && success == Success(state) && fail == HttpParser.Fail(state)
      modifies this`input, this`cursor, this`examined
      ensures var q := Scanned(old(Value()));
              && result == (if q.cursor == |q.input| then NotFound else if q.input[q.cursor] == success then Found else Error)
              && (if result.Found? then region == q.input[..q.cursor] && Value() == Popped(q, q.cursor + 1, Short) else Value() == q)
    {
      region := [];
      result := LocateChar(success, fail);
      assert Value() == Scanned(old(Value()));
      if result.Found? {
        var length := cursor;
        region := input[..length];
        Pop(length + 1);
      }
    }

    /** Content-Length and Connection; a name "equals" what it starts with. */
    method HandleHeader(name: Bytes, value: Bytes)
      requires handler.Live?
      modifies this`dataLeft, this`keepAlive
      ensures dataLeft == if StartsWith(name, "Content-Length") then atoi(value) else old(dataLeft)
      ensures keepAlive == (old(keepAlive) || (!StartsWith(name, "Content-Length") && StartsWith(name, "Connection")
                                               && StartsWith(value, "Keep-Alive")))
    {
      if StartsWith(name, "Content-Length") {
        dataLeft := atoi(value);
      } else if StartsWith(name, "Connection") {
        if StartsWith(value, "Keep-Alive") {
          keepAlive := true;
        }
      }
    }

    method HandleVersion(version: Bytes) returns (ok: bool)
      modifies this`keepAlive
      ensures ok == (StartsWith(version, "HTTP/1.0") || StartsWith(version, "HTTP/1.1"))
      ensures keepAlive == if ok then !StartsWith(version, "HTTP/1.0") else old(keepAlive)
    {
      if StartsWith(version, "HTTP/1.0") {
        keepAlive := false;
      } else if StartsWith(version, "HTTP/1.1") {
        keepAlive := true;
      } else {
        return false;
      }
      return true;
    }

    /** What each scanning state does with the region it has found. */
    method HandleToken(region: Bytes) returns (result: ProcessResult)
      requires Scanning(state)
      modifies this`state, this`methodName, this`uri, this`keepAlive, this`handler, this`dataLeft, this`log
      ensures (Value(), result) == Handled(old(Value()), region, atoi)
    {
      match state {
        case Method => methodName := region; state := PreUri;
        case Uri => uri := region; state := PreVersion;
        case Version =>
          var ok := HandleVersion(region);
          if !ok { return Error; }
          log := log + [Request(methodName, uri, region)];
          handler, dataLeft := Live, 0;
          state := RequestLineEol;
        case Key => methodName := region; state := PreValue;
        case Value =>
          uri := region;
          if !handler.Live? { return ProcessResult.Fault; }
          HandleHeader(methodName, uri);
          log := log + [Header(methodName, uri)];
          state := HeaderEol;
      }
      return Found;
    }

    /** The bytes the five scanning states look for. */
    method Delimiters() returns (success: char, fail: char)
      requires Scanning(state)
      ensures success == Success(state) && fail == HttpParser.Fail(state)
    {
      match state {
        case Method => return ' ', '\r';
        case Uri => return ' ', '\r';
        case Version => return '\r', ' ';
        case Key => return ':', '\r';
        case Value => return '\r', '\n';
      }
    }

    /** METHOD, URI, VERSION, KEY, VALUE: find the token and handle it. */
    method ProcessToken() returns (result: ProcessResult)
      requires cursor <= |input| && Scanning(state)
      modifies this
      ensures (Value(), result) == TokenTurn(old(Value()), atoi, Short)
    {
      var success, fail := Delimiters();
      var region;
      result, region := LocateRegion(success, fail);
      if result.Found? {
        result := HandleToken(region);
      }
    }

    /** REQUEST_LINE_EOL, HEADER_EOL, HEADERS_END_EOL: exactly one newline. */
    method ProcessNewline() returns (result: ProcessResult)
      requires cursor <= |input| && ExpectsNewline(state)
      modifies this
      ensures (Value(), result) == NewlineTurn(old(Value()), Short)
    {
      if input == [] { return ProcessResult.Fault; }
      var c := input[0];
      Pop(1);
      if c != '\n' { return Error; }
      if !state.HeadersEndEol? {
        state := PreKey;
        return Found;
      }
      if !handler.Live? { return ProcessResult.Fault; }
      if dataLeft == 0 {
        log := log + [End];
        handler := Missing;
        return RequestEnd;  // the state stays until Receive resets it or closes
      }
      state := Data;
      return Found;
    }

    /** DATA: hand over what there is, but no more than the request still expects. */
    method ProcessData() returns (result: ProcessResult)
      requires cursor <= |input| && state.Data?
      modifies this
      ensures (Value(), result) == DataTurn(old(Value()), Short)
    {
      if !handler.Live? { return ProcessResult.Fault; }
      if |input| > dataLeft {
        log := log + Bodies(input[..dataLeft]);
        Pop(dataLeft);
        dataLeft := 0;
      } else {
        assert input[..|input|] == input;
        log := log + Bodies(input);
        dataLeft := dataLeft - |input|;
        Pop(|input|);
      }
      result := NotFound;
      if dataLeft == 0 {
        log := log + [End];
        handler := Missing;
        result := RequestEnd;
      }
    }

    /** One turn of the switch: a state that skips blanks falls through to the one that reads a token. */
    method Process() returns (result: ProcessResult)
      requires cursor <= |input|
      modifies this
      ensures (Value(), result) == Turn(old(Value()), atoi, Short)
    {
      if SkipsSpaces(state) {
        var empty := EatSpaces();
        if empty { return NotFound; }
        if state.PreKey? && input[0] == '\r' {
          Pop(1);
          state := HeadersEndEol;
          return Found;
        }
        state := AfterSpaces(state);
      }
      if Scanning(state) {
        result := ProcessToken();
      } else if ExpectsNewline(state) {
        result := ProcessNewline();
      } else {
        result := ProcessData();
      }
    }

    /** `close` */
    method Close(ok: bool) returns (outcome: Outcome)
      modifies this`closed, this`handler
      ensures (Value(), outcome) == Shut(old(Value()), ok)
    {
      outcome := if handler.Deleted? then Faulted else Done(ok);
      closed := true;
      if !handler.Missing? {
        handler := Deleted;
      }
    }

    /** What follows the loop. */
    method Finish(result: ProcessResult) returns (outcome: Outcome)
      modifies this`state, this`keepAlive, this`closed, this`handler
      ensures (Value(), outcome) == Finished(old(Value()), result)
    {
      if result == ProcessResult.Fault { return Faulted; }
      if result == Error {
        keepAlive := false;
        outcome := Close(false);
        return;
      }
      if result == RequestEnd {
        if keepAlive {
          state := PreMethod;
        } else {
          outcome := Close(true);
          return;
        }
      }
      outcome := Done(true);
    }

    /** The loop itself. */
    method ProcessAll() returns (result: ProcessResult)
      requires cursor <= |input|
      modifies this
      ensures (Value(), result) == Loop(old(Value()), atoi, Short)
    {
      ghost var m, before := Value(), Value();
      result := Process();
      LoopStep(before, Value(), result, atoi);
      while result == Found && |input| > 0
        invariant cursor <= |input|
        invariant Loop(m, atoi, Short) == if result == Found && |input| > 0 then Loop(Value(), atoi, Short) else (Value(), result)
        decreases if result == Found then |input| + 1 else 0, Rank(state)
      {
        before := Value();
        result := Process();
        LoopStep(before, Value(), result, atoi);
      }
    }

    /** The part shared by the two public `receive` functions; the input already holds the chunk. */
    method ReceiveLoop() returns (outcome: Outcome)
      requires cursor <= |input|
      modifies this
      ensures var (q, result) := Loop(old(Value()), atoi, Short); (Value(), outcome) == Finished(q, result)
    {
      var result := ProcessAll();
      outcome := Finish(result);
    }

    /** `receive(const String *)` and `receive(Buffer *)`: append to the input buffer, then loop. An open connection
        takes the step that is meant if its pops are narrow. */
    method Receive(chunk: Bytes) returns (outcome: Outcome)
      requires cursor <= |input|
      modifies this
      ensures (Value(), outcome) == Received(old(Value()), chunk, atoi, Short)
      ensures var m := old(Value());
              Ready(m) && chunk != [] && Narrow(AsParser(m, Running), Unscanned(m) + chunk, atoi) ==>
                Settled(Value()) && AsConn(Value()) == Feed(AsConn(m), chunk, atoi)
    {
      ghost var m := Value();
      if Ready(m) && chunk != [] && Narrow(AsParser(m, Running), Unscanned(m) + chunk, atoi) {
        NarrowFeed(m, chunk, atoi);
      }
      outcome := Deliver(chunk);
    }

    method Deliver(chunk: Bytes) returns (outcome: Outcome)
      requires cursor <= |input|
      modifies this
      ensures (Value(), outcome) == Received(old(Value()), chunk, atoi, Short)
    {
      input := input + chunk;
      outcome := ReceiveLoop();
    }

    /** The other end has gone: an open request is told so, once. */
    method ReceiveEnd() returns (outcome: Outcome)
      modifies this
      ensures (Value(), outcome) == EndReceived(old(Value()))
      ensures log == old(log) + if old(handler).Live? then [Abort] else []
      ensures !outcome.Faulted? ==> handler.Missing? && closed && !keepAlive
    {
      if handler.Deleted? { return Faulted; }
      if handler.Live? {
        log := log + [Abort];
        handler := Missing;
      }
      keepAlive := false;
      closed := true;
      outcome := Done(true);
    }

    method DeliverNext(chunk: Bytes, ghost r: (Machine, nat), ghost rest: seq<Bytes>, ghost delivered: nat) returns (outcome: Outcome)
      requires rest != [] && rest[0] == chunk && !closed && Delivering(r, Value(), rest, delivered, atoi)
      modifies this
      ensures if outcome.Faulted? then r == (Value(), delivered + 1) else Delivering(r, Value(), rest[1..], delivered + 1, atoi)
    {
      ghost var before := Value();
      outcome := Deliver(chunk);
      ReceivedAllStep(before, rest, Value(), outcome, atoi);
      CountedOn(ReceivedAll(Value(), rest[1..], atoi, Short), delivered);
    }

    /** The reading side, if it stops once the connection closes. */
    method ReceiveAll(chunks: seq<Bytes>) returns (delivered: nat)
      requires cursor <= |input|
      modifies this
      ensures (Value(), delivered) == ReceivedAll(old(Value()), chunks, atoi, Short)
    {
      delivered := 0;
      ghost var r, rest := ReceivedAll(Value(), chunks, atoi, Short), chunks;
      DeliveringStarts(Value(), chunks, atoi);
      while delivered < |chunks| && !closed
        invariant delivered <= |chunks| && rest == chunks[delivered..] && Delivering(r, Value(), rest, delivered, atoi)
      {
        var outcome := DeliverNext(chunks[delivered], r, rest, delivered);
        assert rest[1..] == chunks[delivered + 1..];
        rest := rest[1..];
        delivered := delivered + 1;
        if outcome.Faulted? { return; }
      }
      DeliveringEnds(r, Value(), rest, delivered, atoi);
    }
  }
}
