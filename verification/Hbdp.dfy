/**
 The server's end of a connection over the HTTP Bidirectional Protocol. The client keeps a POST request open,
 numbered serially; what the application writes goes into the response of the open request, or waits in `out`.
 HTTP requests are numbered as they are accepted, so the open one has the number of ended ones.
 */
module Hbdp {
  import opened Options
  import HttpParser
  import HttpMachine

  type Bytes = HttpParser.Bytes

  const SERIALS: nat := 0x1_0000_0000

  /** `request` is the data of the open request; `ended` has the bodies of the ended ones. */
  datatype Connection = Connection(request: Option<Bytes>, serialNumber: nat, out: Bytes, endReceived: bool, ended: seq<Bytes>)

  const NEW_CONNECTION := Connection(None, 0, [], false, [])

  /** What a POST or DELETE is answered with. */
  datatype Reply = Gone | Closed | Open

  function Ended(c: Connection): Connection {
    if c.request.None? then c else c.(request := None, ended := c.ended + [c.request.value])
  }

  function Posted(c: Connection, serial: nat, close: bool): Connection {
    if serial != c.serialNumber then c
    else
      var d := Ended(c.(serialNumber := (c.serialNumber + 1) % SERIALS));
      if close then d else d.(request := Some([]), endReceived := false)
  }

  /** Text goes out with the open request. */
  function Sent(c: Connection, text: Bytes): Connection
    requires c.request.Some?
  {
    Ended(c.(request := Some(c.request.value + text)))
  }

  /** A request's end is received while nothing is open and output waits: the code follows a null pointer. */
  predicate Faults(c: Connection) {
    c.request.None? && c.out != []
  }

  /** How many bytes `poppedAll` takes off, as `popped` has a 16-bit length. */
  function PoppedOff(out: Bytes): (n: nat)
    ensures n <= |out| && (n == |out| <==> |out| < HttpMachine.WIDTH)
  {
    HttpMachine.Cut(|out|, HttpMachine.Short)
  }

  function EndHandled(c: Connection): Connection
    requires !Faults(c)
  {
    var d := c.(endReceived := true);
    if c.out == [] then d else Sent(d.(out := c.out[PoppedOff(c.out)..]), c.out)
  }

  function Written(c: Connection, text: Bytes): Connection {
    if c.request.None? || !c.endReceived then c.(out := c.out + text) else Sent(c, text)
  }

  class HbdpConnection {
    var request: Option<Bytes>
    var serialNumber: nat
    var out: Bytes
    var endReceived: bool
    ghost var ended: seq<Bytes>

    ghost function Value(): Connection
      reads this
    {
      Connection(request, serialNumber, out, endReceived, ended)
    }

    constructor ()
      ensures Value() == NEW_CONNECTION
    {
      request, serialNumber, out, endReceived, ended := None, 0, [], false, [];
    }

    /** A POST, or a DELETE if `close`, with a serial number, which is wider than the connection's own. */
    method InstantiateHttpRequest(serial: nat, close: bool) returns (reply: Reply)
      modifies this
      ensures Value() == Posted(old(Value()), serial, close)
      ensures reply == if serial != old(serialNumber) then Gone else if close then Closed else Open
    {
      if serialNumber != serial {
        return Gone;
      }
      serialNumber := (serialNumber + 1) % SERIALS;
      if request.Some? {
        EndRequest();
      }
      if close {
        return Closed;
      }
      request, endReceived := Some([]), false;
      return Open;
    }

    /** `handleEnd`: a request of this connection has been received to its end. */
    method HandleEnd() returns (ok: bool)
      modifies this
      ensures ok <==> !Faults(old(Value()))
      ensures ok ==> Value() == EndHandled(old(Value()))
    {
      endReceived := true;
      if out != [] {
        if request.None? {
          return false;
        }
        request := Some(request.value + out);
        out := out[PoppedOff(out)..];
        EndRequest();
      }
      return true;
    }

    method EndRequest()
      requires request.Some?
      modifies this`request, this`ended
      ensures Value() == Ended(old(Value()))
    {
      ended := ended + [request.value];
      request := None;
    }

    /** `receive`: the application writes. */
    method Receive(text: Bytes)
      modifies this
      ensures Value() == Written(old(Value()), text)
    {
      if request.None? || !endReceived {
        out := out + text;
        return;
      }
      request := Some(request.value + text);
      EndRequest();
    }
  }

  // ---------- runs ----------

  /** `End` is the end of the HTTP request with a number, whose own connection may be slow. A POST that closes is a
      DELETE, after which the server deletes the connection, whatever its serial. */
  datatype Event = Post(serial: nat, close: bool) | End(number: nat) | Output(text: Bytes)

  datatype Outcome = Going | Shut | Faulted

  /** `arrived` has the requests received to their end. */
  datatype Run = Run(connection: Connection, arrived: set<nat>, outcome: Outcome)

  const NEW_RUN := Run(NEW_CONNECTION, {}, Going)

  function Accepted(c: Connection): nat {
    |c.ended| + if c.request.Some? then 1 else 0
  }

  /** The end of a request can come once, after it has been accepted. Other events can come at any time. */
  predicate Possible(r: Run, e: Event) {
    e.End? ==> e.number < Accepted(r.connection) && e.number !in r.arrived
  }

  function Next(r: Run, e: Event): Run {
    if !r.outcome.Going? then r
    else
      match e
      case Post(serial, close) =>
        r.(connection := Posted(r.connection, serial, close),
           outcome := if close then Shut else Going)
      case End(number) =>
        if Faults(r.connection) then r.(outcome := Faulted)
        else r.(connection := EndHandled(r.connection), arrived := r.arrived + {number})
      case Output(text) => r.(connection := Written(r.connection, text))
  }

  function RunAll(events: seq<Event>): Run
    decreases |events|
  {
    if events == [] then NEW_RUN else Next(RunAll(events[..|events| - 1]), events[|events| - 1])
  }

  predicate AllPossible(events: seq<Event>) {
    forall k :: 0 <= k < |events| ==> Possible(RunAll(events[..k]), events[k])
  }

  // ---------- what was put in and what came out ----------

  /** All that the application wrote, in order, while the connection worked. */
  function AllOutput(events: seq<Event>): Bytes
    decreases |events|
  {
    if events == [] then []
    else
      var front, last := events[..|events| - 1], events[|events| - 1];
      AllOutput(front) + if last.Output? && RunAll(front).outcome.Going? then last.text else []
  }

  function Flat(bodies: seq<Bytes>): Bytes
    decreases |bodies|
  {
    if bodies == [] then [] else Flat(bodies[..|bodies| - 1]) + bodies[|bodies| - 1]
  }

  lemma FlatSnoc(bodies: seq<Bytes>, b: Bytes)
    ensures Flat(bodies + [b]) == Flat(bodies) + b
  {
    assert (bodies + [b])[..|bodies|] == bodies;
  }

  /** The posts that carried the serial number the connection waited for; of these, those that did not close it. */
  function Taken(events: seq<Event>, all: bool): nat
    decreases |events|
  {
    if events == [] then 0
    else
      var front, last := events[..|events| - 1], events[|events| - 1];
      var r := RunAll(front);
      Taken(front, all)
      + if r.outcome.Going? && last.Post? && last.serial == r.connection.serialNumber && (all || !last.close) then 1 else 0
  }

  /** An end finds so much output waiting that the pop behind its sending is cut. */
  predicate WideEnd(r: Run, e: Event) {
    r.outcome.Going? && e.End? && r.connection.request.Some? && HttpMachine.WIDTH <= |r.connection.out|
  }

  /** The bytes that are sent and yet kept. */
  function Kept(r: Run, e: Event): nat {
    if WideEnd(r, e) then |r.connection.out| - PoppedOff(r.connection.out) else 0
  }

  function AllKept(events: seq<Event>): nat
    decreases |events|
  {
    if events == [] then 0
    else AllKept(events[..|events| - 1]) + Kept(RunAll(events[..|events| - 1]), events[|events| - 1])
  }

  /** An open request has no data yet, and nothing waits while it could be answered. */
  predicate Tidy(c: Connection) {
    c.serialNumber < SERIALS && (c.request.Some? ==> c.request.value == [] && (c.endReceived ==> c.out == []))
  }

  lemma NextKeepsTidy(r: Run, e: Event)
    requires Tidy(r.connection)
    ensures Tidy(Next(r, e).connection)
  {
  }

  /** The bodies sent so far, and what waits. */
  function Total(c: Connection): Bytes {
    Flat(c.ended) + c.out
  }

  lemma SentTotal(c: Connection, text: Bytes)
    requires Tidy(c) && c.request.Some?
    ensures Total(Sent(c, text)) == Flat(c.ended) + text + c.out
  {
    FlatSnoc(c.ended, text);
    assert [] + text == text;
  }

  lemma PostTotal(c: Connection, serial: nat, close: bool)
    requires Tidy(c)
    ensures Total(Posted(c, serial, close)) == Total(c)
  {
    FlatSnoc(c.ended, []);
    assert Flat(c.ended) + [] == Flat(c.ended);
  }

  lemma OutputTotal(c: Connection, text: Bytes)
    requires Tidy(c)
    ensures Total(Written(c, text)) == Total(c) + text
  {
    if c.request.Some? && c.endReceived {
      SentTotal(c, text);
    }
  }

  lemma EndTotal(c: Connection)
    requires Tidy(c) && !Faults(c)
    ensures Total(EndHandled(c)) == if c.request.Some? then Total(c) + c.out[PoppedOff(c.out)..] else Total(c)
  {
    if c.out != [] {
      SentTotal(c.(endReceived := true, out := c.out[PoppedOff(c.out)..]).(endReceived := false), c.out);
    }
  }

  /** What comes out with one event is what was put in, and what a wide end sends without forgetting it. */
  lemma NextTotal(r: Run, e: Event)
    requires Tidy(r.connection)
    ensures var added := if e.Output? && r.outcome.Going? then e.text else [];
            && |Total(Next(r, e).connection)| == |Total(r.connection)| + |added| + Kept(r, e)
            && (!WideEnd(r, e) ==> Total(Next(r, e).connection) == Total(r.connection) + added)
  {
    var c := r.connection;
    match e
    case Post(serial, close) => PostTotal(c, serial, close);
    case End(_) => if !Faults(c) { EndTotal(c); }
    case Output(text) => OutputTotal(c, text);
  }

  lemma {:induction false} AllTotal(events: seq<Event>)
    ensures var c := RunAll(events).connection;
            && Tidy(c) && |Total(c)| == |AllOutput(events)| + AllKept(events)
            && (AllKept(events) == 0 ==> Total(c) == AllOutput(events))
    decreases |events|
  {
    if events != [] {
      var front, last := events[..|events| - 1], events[|events| - 1];
      AllTotal(front);
      NextKeepsTidy(RunAll(front), last);
      NextTotal(RunAll(front), last);
    }
  }

  predicate WideAt(events: seq<Event>, k: nat)
    requires k < |events|
  {
    WideEnd(RunAll(events[..k]), events[k])
  }

  lemma {:induction false} KeptIff(events: seq<Event>)
    ensures AllKept(events) == 0 <==> forall k :: 0 <= k < |events| ==> !WideAt(events, k)
    decreases |events|
  {
    if events != [] {
      var n := |events| - 1;
      var front := events[..n];
      KeptIff(front);
      forall k | 0 <= k < n ensures WideAt(front, k) == WideAt(events, k) {
        assert front[..k] == events[..k];
      }
      assert AllKept(events) == 0 <==> AllKept(front) == 0 && !WideAt(events, n);
    }
  }

  /** Over every run, with stale posts, slow requests and output in any order: the bodies sent, in order, and what
      waits are all output exactly if no end finds 65536 bytes waiting. No open request that could be answered is left
      waiting in any case. */
  lemma BytesConserved(events: seq<Event>)
    ensures var c := RunAll(events).connection;
            && (Flat(c.ended) + c.out == AllOutput(events) <==> forall k :: 0 <= k < |events| ==> !WideAt(events, k))
            && (c.request.Some? && c.endReceived ==> c.out == [])
  {
    AllTotal(events);
    KeptIff(events);
  }

  function WideRun(text: Bytes): seq<Event> {
    [Post(0, false), Output(text), End(0)]
  }

  /** The states that it goes through. */
  function WideStates(text: Bytes): seq<Run> {
    [NEW_RUN,
     Run(Connection(Some([]), 1, [], false, []), {}, Going),
     Run(Connection(Some([]), 1, text, false, []), {}, Going),
     Run(Connection(None, 1, text, true, [text]), {0}, Going)]
  }

  lemma WideStep(text: Bytes, k: nat)
    requires |text| == HttpMachine.WIDTH && k < 3
    ensures Next(WideStates(text)[k], WideRun(text)[k]) == WideStates(text)[k + 1] && Possible(WideStates(text)[k], WideRun(text)[k])
  {
    assert [] + text == text && [] + [text] == [text] && text[0..] == text;
  }

  lemma {:induction false} WideStatesRun(text: Bytes, k: nat)
    requires |text| == HttpMachine.WIDTH && k <= 3
    ensures RunAll(WideRun(text)[..k]) == WideStates(text)[k]
    ensures AllOutput(WideRun(text)[..k]) == if k < 2 then [] else text
  {
    if 0 < k {
      WideStatesRun(text, k - 1);
      WideStep(text, k - 1);
      Unfold(WideRun(text), k - 1);
      UnfoldOutput(WideRun(text), k - 1);
    }
  }

  lemma UnfoldOutput(events: seq<Event>, k: nat)
    requires k < |events|
    ensures AllOutput(events[..k + 1]) == AllOutput(events[..k]) +
            if events[k].Output? && RunAll(events[..k]).outcome.Going? then events[k].text else []
  {
    assert events[..k + 1][..k] == events[..k];
  }

  /** 65536 bytes that wait when an end arrives are sent and still wait. */
  lemma SentTwice(text: Bytes)
    requires |text| == HttpMachine.WIDTH
    ensures var c := RunAll(WideRun(text)).connection;
            AllPossible(WideRun(text)) && c.ended == [text] && c.out == text && AllOutput(WideRun(text)) == text
  {
    WideStatesRun(text, 3);
    assert WideRun(text)[..3] == WideRun(text);
    forall k | 0 <= k < 3 ensures Possible(RunAll(WideRun(text)[..k]), WideRun(text)[k]) {
      WideStatesRun(text, k);
      WideStep(text, k);
    }
  }

  /** One response is made for each accepted poll, except that the last may be open; serials count all accepted. */
  lemma {:induction false} PostsCounted(events: seq<Event>)
    ensures var c := RunAll(events).connection;
            Accepted(c) == Taken(events, false) && c.serialNumber == Taken(events, true) % SERIALS
    decreases |events|
  {
    if events != [] {
      var front, last := events[..|events| - 1], events[|events| - 1];
      PostsCounted(front);
      AcceptedNext(RunAll(front), last);
      SerialNext(Taken(front, true));
    }
  }

  lemma AcceptedNext(r: Run, e: Event)
    ensures Accepted(Next(r, e).connection) == Accepted(r.connection) +
            if r.outcome.Going? && e.Post? && e.serial == r.connection.serialNumber && !e.close then 1 else 0
  {
  }

  lemma SerialNext(n: nat)
    ensures (n % SERIALS + 1) % SERIALS == (n + 1) % SERIALS
  {
  }

  /** A post changes nothing at all exactly if the connection is gone, or it is out of turn and does not close. */
  lemma StalePost(events: seq<Event>, serial: nat, close: bool)
    ensures Next(RunAll(events), Post(serial, close)) == RunAll(events) <==>
            !RunAll(events).outcome.Going? || (serial != Taken(events, true) % SERIALS && !close)
  {
    PostsCounted(events);
  }

  /** An event makes one response at most: that of the open request, which is open no more unless another is. */
  lemma OneResponse(r: Run, e: Event)
    ensures var c, d := r.connection, Next(r, e).connection;
            d.ended == c.ended ||
            (c.request.Some? && |d.ended| == |c.ended| + 1 && c.ended <= d.ended && (d.request.Some? ==> e.Post?))
  {
  }

  /** Each response is final: later events only add to them. */
  lemma {:induction false} EndedOnce(events: seq<Event>, more: seq<Event>)
    ensures RunAll(events).connection.ended <= RunAll(events + more).connection.ended
    decreases |more|
  {
    if more == [] {
      assert events + more == events;
    } else {
      var front := more[..|more| - 1];
      EndedOnce(events, front);
      assert (events + more)[..|events + more| - 1] == events + front;
      OneResponse(RunAll(events + front), more[|more| - 1]);
    }
  }

  // ---------- whose end it is ----------

  /** Every end is that of the request that is open. */
  predicate Orderly(events: seq<Event>) {
    forall k :: 0 <= k < |events| && events[k].End? ==>
      RunAll(events[..k]).connection.request.Some? && events[k].number == |RunAll(events[..k]).connection.ended|
  }

  /** A request answered while its end was outstanding makes the connection count that end for the next request,
      or follow a null pointer. As long as that does not happen, no run faults, and `endReceived` tells whether
      the open request has been received to its end. */
  lemma {:induction false} OrderlyRuns(events: seq<Event>)
    requires Orderly(events)
    ensures var r := RunAll(events);
            && !r.outcome.Faulted?
            && (r.outcome.Going? && r.connection.request.Some? ==> (r.connection.endReceived <==> |r.connection.ended| in r.arrived))
            && (r.outcome.Going? ==> forall k :: k in r.arrived ==> k < Accepted(r.connection))
    decreases |events|
  {
    if events != [] {
      var front, last := events[..|events| - 1], events[|events| - 1];
      assert forall k :: 0 <= k < |front| ==> front[..k] == events[..k] && front[k] == events[k];
      OrderlyRuns(front);
      assert last.End? ==> events[|front|].End? && events[..|front|] == front;
    }
  }

  predicate FatalAt(events: seq<Event>, k: nat)
    requires k < |events|
  {
    var r := RunAll(events[..k]);
    events[k].End? && r.outcome.Going? && Faults(r.connection)
  }

  /** A run is fatal exactly if an end is received at a moment when nothing is open and output waits. */
  lemma {:induction false} FatalIff(events: seq<Event>)
    ensures RunAll(events).outcome.Faulted? <==> exists k :: 0 <= k < |events| && FatalAt(events, k)
    decreases |events|
  {
    if events != [] {
      var n := |events| - 1;
      var front := events[..n];
      FatalIff(front);
      forall k | 0 <= k < n ensures FatalAt(front, k) == FatalAt(events, k) {
        assert front[..k] == events[..k];
      }
      assert RunAll(events).outcome.Faulted? <==> RunAll(front).outcome.Faulted? || FatalAt(events, n);
    }
  }

  /** Seen from outside: an end is fatal exactly if every poll that was accepted has been answered, and more bytes were
      written, and kept by wide ends, than the answers hold. */
  lemma FatalSeen(events: seq<Event>, k: nat)
    requires k < |events| && events[k].End? && RunAll(events[..k]).outcome.Going?
    ensures var front := events[..k]; var answers := RunAll(front).connection.ended;
            FatalAt(events, k) <==> |answers| == Taken(front, false) && |Flat(answers)| < |AllOutput(front)| + AllKept(front)
  {
    PostsCounted(events[..k]);
    AllTotal(events[..k]);
  }

  function LateEnd(x: char): seq<Event> {
    [Post(0, false), Post(1, false), Output([x]), End(0), Output([x]), End(1)]
  }

  /** The states that lead there. */
  function LateStates(x: char): seq<Run> {
    [NEW_RUN,
     Run(Connection(Some([]), 1, [], false, []), {}, Going),
     Run(Connection(Some([]), 2, [], false, [[]]), {}, Going),
     Run(Connection(Some([]), 2, [x], false, [[]]), {}, Going),
     Run(Connection(None, 2, [], true, [[], [x]]), {0}, Going),
     Run(Connection(None, 2, [x], true, [[], [x]]), {0}, Going),
     Run(Connection(None, 2, [x], true, [[], [x]]), {0}, Faulted)]
  }

  lemma LateStep(x: char, k: nat)
    requires k < 6
    ensures Next(LateStates(x)[k], LateEnd(x)[k]) == LateStates(x)[k + 1] && Possible(LateStates(x)[k], LateEnd(x)[k])
  {
    assert [[]] + [[x]] == [[], [x]] && [] + [x] == [x];
  }

  lemma {:induction false} LateRun(x: char, k: nat)
    requires k <= 6
    ensures RunAll(LateEnd(x)[..k]) == LateStates(x)[k]
  {
    if 0 < k {
      LateRun(x, k - 1);
      LateStep(x, k - 1);
      Unfold(LateEnd(x), k - 1);
    }
  }

  /** Once two requests have been open, an end may come late: the second request is then answered before it has
      been received, and its own end is fatal. */
  lemma LateEndFaults(x: char)
    ensures AllPossible(LateEnd(x)) && RunAll(LateEnd(x)).outcome.Faulted?
    ensures var r := RunAll(LateEnd(x)[..4]); r.connection.ended == [[], [x]] && 1 !in r.arrived
  {
    forall k | 0 <= k < 6 ensures Possible(RunAll(LateEnd(x)[..k]), LateEnd(x)[k]) {
      LateRun(x, k);
      LateStep(x, k);
    }
    LateRun(x, 4);
    LateRun(x, 6);
    assert LateEnd(x)[..6] == LateEnd(x);
  }

  lemma Unfold(events: seq<Event>, k: nat)
    requires k < |events|
    ensures RunAll(events[..k + 1]) == Next(RunAll(events[..k]), events[k])
  {
    assert events[..k + 1][..k] == events[..k];
  }
}
