/**
 The account of one dispatcher's messages and actors: every message is in exactly one place, in order; every
 actor is on at most one list; and every actor with something to do is on a list that will be walked.
 */
module SchedulerAccount {

  /** A message, numbered as sent. It goes `direct`ly if it has a sender; otherwise through the outgoing list. */
  datatype Message = Message(id: nat, receiver: nat, direct: bool)

  /** The part of an actor the dispatcher works with. */
  datatype Mailbox = Mailbox(incoming: seq<Message>, queued: seq<Message>, active: bool)

  /** All messages sent so far and all messages handled so far. */
  datatype Log = Log(sent: seq<Message>, handled: seq<Message>)

  /** What a handler asks for. */
  datatype Send = Send(receiver: nat, direct: bool)

  /** The messages of one route to one receiver. */
  function Route(ms: seq<Message>, r: nat, d: bool): seq<Message> {
    if ms == [] then []
    else (if ms[0].receiver == r && ms[0].direct == d then [ms[0]] else []) + Route(ms[1..], r, d)
  }

  lemma {:induction false} RouteAppend(ms: seq<Message>, ns: seq<Message>, r: nat, d: bool)
    ensures Route(ms + ns, r, d) == Route(ms, r, d) + Route(ns, r, d)
    decreases |ms|
  {
    if ms == [] {
      assert ms + ns == ns;
    } else {
      var head := if ms[0].receiver == r && ms[0].direct == d then [ms[0]] else [];
      var tail := ms[1..];
      assert (ms + ns)[0] == ms[0] && (ms + ns)[1..] == tail + ns;
      RouteAppend(tail, ns, r, d);
      assert head + (Route(tail, r, d) + Route(ns, r, d)) == head + Route(tail, r, d) + Route(ns, r, d);
    }
  }

  lemma {:induction false} RouteSnoc(ms: seq<Message>, m: Message, r: nat, d: bool)
    ensures Route(ms + [m], r, d) == Route(ms, r, d) + if m.receiver == r && m.direct == d then [m] else []
  {
    RouteAppend(ms, [m], r, d);
    assert [m][1..] == [];
  }

  lemma {:induction false} RouteElsewhere(ms: seq<Message>, r: nat, d: bool)
    requires forall m :: m in ms ==> m.receiver != r || m.direct != d
    ensures Route(ms, r, d) == []
    decreases |ms|
  {
    if ms != [] {
      assert ms[0] in ms;
      RouteElsewhere(ms[1..], r, d);
    }
  }

  lemma {:induction false} RouteHolds(ms: seq<Message>, r: nat, d: bool, m: Message)
    ensures m in Route(ms, r, d) <==> m in ms && m.receiver == r && m.direct == d
    decreases |ms|
  {
    if ms != [] {
      assert ms == [ms[0]] + ms[1..];
      RouteHolds(ms[1..], r, d, m);
    }
  }

  /** All messages of a route, oldest first: handled, incoming, queued, outgoing. */
  function InOrder(box: Mailbox, outgoing: seq<Message>, handled: seq<Message>, r: nat, d: bool): seq<Message> {
    Route(handled, r, d) + Route(box.incoming, r, d) + Route(box.queued, r, d) + Route(outgoing, r, d)
  }

  predicate BoxOk(box: Mailbox, r: nat) {
    && (forall m :: m in box.incoming ==> m.receiver == r)
    && (forall m :: m in box.queued ==> m.receiver == r && !m.direct)
  }

  predicate LogOk(log: Log, n: nat) {
    && (forall k :: 0 <= k < |log.sent| ==> log.sent[k].id == k && log.sent[k].receiver < n)
    && (forall m :: m in log.handled ==> m.receiver < n)
  }

  /** Every message sent is in one place, and the places are in the order of sending. */
  ghost predicate Account(boxes: seq<Mailbox>, outgoing: seq<Message>, log: Log) {
    && (forall r :: 0 <= r < |boxes| ==> BoxOk(boxes[r], r))
    && (forall m :: m in outgoing ==> m.receiver < |boxes| && !m.direct)
    && LogOk(log, |boxes|)
    && forall r: nat, d: bool :: r < |boxes| ==> Route(log.sent, r, d) == InOrder(boxes[r], outgoing, log.handled, r, d)
  }

  /** The message arrives in the receiver's mailbox, and the receiver is marked active. */
  function Received(box: Mailbox, m: Message): Mailbox {
    Mailbox(box.incoming + [m], box.queued, true)
  }

  lemma SendDirect(boxes: seq<Mailbox>, outgoing: seq<Message>, log: Log, r: nat)
    requires Account(boxes, outgoing, log) && r < |boxes|
    ensures var m := Message(|log.sent|, r, true);
            Account(boxes[r := Received(boxes[r], m)], outgoing, log.(sent := log.sent + [m]))
  {
    var m := Message(|log.sent|, r, true);
    forall q: nat, d: bool | q < |boxes|
      ensures Route(log.sent + [m], q, d) == InOrder(boxes[r := Received(boxes[r], m)][q], outgoing, log.handled, q, d)
    {
      RouteSnoc(log.sent, m, q, d);
      if q == r {
        ReceivedInOrder(boxes[r], outgoing, log.handled, r, m, d);
      }
    }
  }

  lemma ReceivedInOrder(box: Mailbox, outgoing: seq<Message>, handled: seq<Message>, r: nat, m: Message, d: bool)
    requires BoxOk(box, r) && m.receiver == r && m.direct && forall n :: n in outgoing ==> !n.direct
    ensures InOrder(Received(box, m), outgoing, handled, r, d) == InOrder(box, outgoing, handled, r, d) + if d then [m] else []
  {
    RouteSnoc(box.incoming, m, r, d);
    if d {
      RouteElsewhere(box.queued, r, d);
      RouteElsewhere(outgoing, r, d);
    }
  }

  lemma {:induction false} SendLater(boxes: seq<Mailbox>, outgoing: seq<Message>, log: Log, r: nat)
    requires Account(boxes, outgoing, log) && r < |boxes|
    ensures var m := Message(|log.sent|, r, false); Account(boxes, outgoing + [m], log.(sent := log.sent + [m]))
  {
    var m := Message(|log.sent|, r, false);
    forall q: nat, d: bool | q < |boxes| ensures Route(log.sent + [m], q, d) == InOrder(boxes[q], outgoing + [m], log.handled, q, d) {
      RouteSnoc(log.sent, m, q, d);
      RouteSnoc(outgoing, m, q, d);
    }
  }

  /** The first outgoing message joins its receiver's queue. */
  lemma {:induction false} Deliver(boxes: seq<Mailbox>, outgoing: seq<Message>, log: Log)
    requires Account(boxes, outgoing, log) && outgoing != []
    ensures var m := outgoing[0];
            m.receiver < |boxes| && !m.direct &&
            Account(boxes[m.receiver := boxes[m.receiver].(queued := boxes[m.receiver].queued + [m])], outgoing[1..], log)
  {
    var m := outgoing[0];
    assert outgoing == [m] + outgoing[1..];
    var r := m.receiver;
    var boxes' := boxes[r := boxes[r].(queued := boxes[r].queued + [m])];
    forall q: nat, d: bool | q < |boxes| ensures InOrder(boxes'[q], outgoing[1..], log.handled, q, d) == InOrder(boxes[q], outgoing, log.handled, q, d) {
      if q == r {
        RouteSnoc(boxes[r].queued, m, q, d);
      }
    }
  }

  /** `spliceTail` of the queued messages. */
  function Spliced(box: Mailbox): Mailbox {
    Mailbox(box.incoming + box.queued, [], box.active)
  }

  lemma SplicedAlready(box: Mailbox)
    requires box.queued == []
    ensures Spliced(box) == box
  {
    assert box.incoming + [] == box.incoming;
  }

  lemma {:induction false} Splice(boxes: seq<Mailbox>, outgoing: seq<Message>, log: Log, r: nat)
    requires Account(boxes, outgoing, log) && r < |boxes|
    ensures Account(boxes[r := Spliced(boxes[r])], outgoing, log)
  {
    forall d: bool ensures InOrder(Spliced(boxes[r]), outgoing, log.handled, r, d) == InOrder(boxes[r], outgoing, log.handled, r, d) {
      RouteAppend(boxes[r].incoming, boxes[r].queued, r, d);
    }
  }

  /** The first incoming message is done with. */
  lemma {:induction false} Done(boxes: seq<Mailbox>, outgoing: seq<Message>, log: Log, r: nat)
    requires Account(boxes, outgoing, log) && r < |boxes| && boxes[r].incoming != []
    ensures Account(boxes[r := boxes[r].(incoming := boxes[r].incoming[1..])], outgoing,
                    log.(handled := log.handled + [boxes[r].incoming[0]]))
  {
    var m := boxes[r].incoming[0];
    assert boxes[r].incoming == [m] + boxes[r].incoming[1..];
    var boxes' := boxes[r := boxes[r].(incoming := boxes[r].incoming[1..])];
    forall q: nat, d: bool | q < |boxes|
      ensures InOrder(boxes'[q], outgoing, log.handled + [m], q, d) == InOrder(boxes[q], outgoing, log.handled, q, d)
    {
      DoneInOrder(boxes[r], outgoing, log.handled, r, d);
      if q != r {
        RouteSnoc(log.handled, m, q, d);
      }
    }
  }

  lemma DoneInOrder(box: Mailbox, outgoing: seq<Message>, handled: seq<Message>, r: nat, d: bool)
    requires BoxOk(box, r) && box.incoming != []
    ensures InOrder(box.(incoming := box.incoming[1..]), outgoing, handled + [box.incoming[0]], r, d) == InOrder(box, outgoing, handled, r, d)
  {
    RouteSnoc(handled, box.incoming[0], r, d);
  }

  lemma Reactivated(boxes: seq<Mailbox>, outgoing: seq<Message>, log: Log, r: nat, active: bool)
    requires Account(boxes, outgoing, log) && r < |boxes|
    ensures Account(boxes[r := boxes[r].(active := active)], outgoing, log)
  {
  }

  // ---------- what the account means ----------

  /** Every message sent is handled or waits somewhere. */
  lemma SentIsSomewhere(boxes: seq<Mailbox>, outgoing: seq<Message>, log: Log, m: Message)
    requires Account(boxes, outgoing, log) && m in log.sent
    ensures m.receiver < |boxes|
    ensures m in log.handled || m in boxes[m.receiver].incoming || m in boxes[m.receiver].queued || m in outgoing
  {
    var r, d := m.receiver, m.direct;
    RouteHolds(log.sent, r, d, m);
    RouteHolds(log.handled, r, d, m);
    RouteHolds(boxes[r].incoming, r, d, m);
    RouteHolds(boxes[r].queued, r, d, m);
    RouteHolds(outgoing, r, d, m);
  }

  /** Nothing is handled that was not sent. */
  lemma HandledWasSent(boxes: seq<Mailbox>, outgoing: seq<Message>, log: Log, m: Message)
    requires Account(boxes, outgoing, log) && m in log.handled
    ensures m in log.sent
  {
    RouteHolds(log.handled, m.receiver, m.direct, m);
    RouteHolds(log.sent, m.receiver, m.direct, m);
  }

  function Times(ms: seq<Message>, m: Message): nat {
    multiset(ms)[m]
  }

  lemma {:induction false} TimesOnRoute(ms: seq<Message>, m: Message)
    ensures Times(Route(ms, m.receiver, m.direct), m) == Times(ms, m)
    decreases |ms|
  {
    if ms != [] {
      assert ms == [ms[0]] + ms[1..];
      TimesOnRoute(ms[1..], m);
    }
  }

  lemma {:induction false} SentOnce(sent: seq<Message>, m: Message)
    requires forall k :: 0 <= k < |sent| ==> sent[k].id == k
    ensures Times(sent, m) <= 1
    decreases |sent|
  {
    if sent != [] {
      var front, last := sent[..|sent| - 1], sent[|sent| - 1];
      assert sent == front + [last];
      SentOnce(front, m);
    }
  }

  /** Every message sent is in exactly one of outgoing, queued, incoming and handled, once. */
  lemma InOnePlace(boxes: seq<Mailbox>, outgoing: seq<Message>, log: Log, m: Message)
    requires Account(boxes, outgoing, log) && m.receiver < |boxes|
    ensures Times(log.handled, m) + Times(boxes[m.receiver].incoming, m) + Times(boxes[m.receiver].queued, m) + Times(outgoing, m) ==
            if m in log.sent then 1 else 0
  {
    var r, d := m.receiver, m.direct;
    SentOnce(log.sent, m);
    TimesOnRoute(log.sent, m);
    TimesOnRoute(log.handled, m);
    TimesOnRoute(boxes[r].incoming, m);
    TimesOnRoute(boxes[r].queued, m);
    TimesOnRoute(outgoing, m);
    assert Route(log.sent, r, d) == InOrder(boxes[r], outgoing, log.handled, r, d);
  }

  /** The messages of a route are handled in the order they were sent. */
  lemma HandledInOrder(boxes: seq<Mailbox>, outgoing: seq<Message>, log: Log, r: nat, d: bool)
    requires Account(boxes, outgoing, log) && r < |boxes|
    ensures Route(log.handled, r, d) <= Route(log.sent, r, d)
  {
    assert Route(log.sent, r, d) == InOrder(boxes[r], outgoing, log.handled, r, d);
  }

  /** All of it holds at once: each route in order, each message once. */
  lemma AllInOrder(boxes: seq<Mailbox>, outgoing: seq<Message>, log: Log)
    requires Account(boxes, outgoing, log)
    ensures forall r: nat, d: bool :: r < |boxes| ==> Route(log.handled, r, d) <= Route(log.sent, r, d)
    ensures forall m: Message :: Times(log.handled, m) <= 1
  {
    forall r: nat, d: bool | r < |boxes| ensures Route(log.handled, r, d) <= Route(log.sent, r, d) {
      HandledInOrder(boxes, outgoing, log, r, d);
    }
    forall m: Message ensures Times(log.handled, m) <= 1 {
      if m in log.handled {
        InOnePlace(boxes, outgoing, log, m);
      }
    }
  }

  // ---------- where the actors are ----------

  function On(list: seq<nat>, a: nat): nat {
    multiset(list)[a]
  }

  /** An actor's item is taken off a list. */
  function Without(list: seq<nat>, a: nat): (r: seq<nat>)
    ensures forall b: nat :: On(r, b) == if b == a then 0 else On(list, b)
  {
    if list == [] then []
    else
      assert list == [list[0]] + list[1..];
      var rest := Without(list[1..], a);
      if list[0] == a then rest else [list[0]] + rest
  }

  predicate Pending(box: Mailbox) {
    box.incoming != [] || box.queued != []
  }

  /** Actor a is on at most one list, marked active exactly if that is one that will be walked, which it is if it
      has messages. `actors` is the list of the cycle under way; the others of the active ones all have messages. */
  predicate Placed(box: Mailbox, a: nat, activeActors: seq<nat>, passiveActors: seq<nat>, actors: seq<nat>) {
    && On(activeActors, a) + On(actors, a) + On(passiveActors, a) <= 1
    && (box.active <==> On(activeActors, a) + On(actors, a) == 1)
    && (Pending(box) ==> box.active) && (On(activeActors, a) == 1 ==> Pending(box))
  }

  ghost predicate AllPlaced(boxes: seq<Mailbox>, activeActors: seq<nat>, passiveActors: seq<nat>, actors: seq<nat>) {
    && (forall a :: 0 <= a < |boxes| ==> Placed(boxes[a], a, activeActors, passiveActors, actors))
    && (forall a :: a in activeActors || a in actors ==> a < |boxes|)
  }

  /** `activateActor` for an actor that has just got a message. */
  lemma Activate(boxes: seq<Mailbox>, activeActors: seq<nat>, passiveActors: seq<nat>, actors: seq<nat>, a: nat, box: Mailbox)
    requires AllPlaced(boxes, activeActors, passiveActors, actors) && a < |boxes| && box.active && Pending(box)
    ensures boxes[a].active ==> AllPlaced(boxes[a := box], activeActors, passiveActors, actors)
    ensures !boxes[a].active ==> AllPlaced(boxes[a := box], activeActors + [a], Without(passiveActors, a), actors)
  {
    assert Placed(boxes[a], a, activeActors, passiveActors, actors);
  }

  /** `mActiveActors` is spliced onto the list of the cycle. */
  lemma StartWalk(boxes: seq<Mailbox>, activeActors: seq<nat>, passiveActors: seq<nat>, actors: seq<nat>)
    requires AllPlaced(boxes, activeActors, passiveActors, actors)
    ensures AllPlaced(boxes, [], passiveActors, actors + activeActors)
  {
    forall a | 0 <= a < |boxes| ensures Placed(boxes[a], a, [], passiveActors, actors + activeActors) {
      assert Placed(boxes[a], a, activeActors, passiveActors, actors);
    }
  }

  /** A message is done with, or the queue is spliced onto the incoming list: nobody's place changes. */
  lemma SamePlace(boxes: seq<Mailbox>, activeActors: seq<nat>, passiveActors: seq<nat>, actors: seq<nat>, a: nat, box: Mailbox)
    requires AllPlaced(boxes, activeActors, passiveActors, actors) && a < |boxes|
    requires box.active == boxes[a].active && (Pending(box) ==> Pending(boxes[a])) && (Pending(boxes[a]) ==> Pending(box) || a in actors)
    ensures AllPlaced(boxes[a := box], activeActors, passiveActors, actors)
  {
    assert Placed(boxes[a], a, activeActors, passiveActors, actors);
  }

  /** The first actor of the walk leaves it: for another cycle if it has messages, to rest if it has not. */
  lemma Retire(boxes: seq<Mailbox>, activeActors: seq<nat>, passiveActors: seq<nat>, actors: seq<nat>)
    requires AllPlaced(boxes, activeActors, passiveActors, actors) && actors != []
    ensures actors[0] < |boxes|
    ensures Pending(boxes[actors[0]]) ==> AllPlaced(boxes, activeActors + [actors[0]], passiveActors, actors[1..])
    ensures !Pending(boxes[actors[0]]) ==>
              AllPlaced(boxes[actors[0] := boxes[actors[0]].(active := false)], activeActors, passiveActors + [actors[0]], actors[1..])
  {
    var a := actors[0];
    assert a in actors && actors == [a] + actors[1..];
    assert forall b: nat :: b in actors[1..] ==> b in actors;
    if Pending(boxes[a]) {
      forall b | 0 <= b < |boxes| ensures Placed(boxes[b], b, activeActors + [a], passiveActors, actors[1..]) {
        assert Placed(boxes[b], b, activeActors, passiveActors, actors);
      }
    } else {
      var boxes' := boxes[a := boxes[a].(active := false)];
      forall b | 0 <= b < |boxes| ensures Placed(boxes'[b], b, activeActors, passiveActors + [a], actors[1..]) {
        assert Placed(boxes[b], b, activeActors, passiveActors, actors);
        if b == a {
          assert On(actors, a) == 1 + On(actors[1..], a);
        }
      }
    }
  }

  // ---------- nothing due is forgotten ----------

  /** Each message of `due` is handled or in the mailbox of an actor yet to be walked. */
  ghost predicate Attended(boxes: seq<Mailbox>, actors: seq<nat>, handled: seq<Message>, due: seq<Message>) {
    forall m :: m in due ==> m in handled || (m.receiver in actors && m.receiver < |boxes| && m in boxes[m.receiver].incoming)
  }

  /** Mailboxes only gain incoming messages while handlers run. */
  predicate Grows(before: seq<Mailbox>, after: seq<Mailbox>) {
    |before| == |after| && forall a :: 0 <= a < |before| ==>
                             before[a].incoming <= after[a].incoming && before[a].queued == after[a].queued && (before[a].active ==> after[a].active)
  }

  lemma GrowsOn(a: seq<Mailbox>, b: seq<Mailbox>, c: seq<Mailbox>)
    requires Grows(a, b) && Grows(b, c)
    ensures Grows(a, c)
  {
    forall i | 0 <= i < |a| ensures a[i].incoming <= c[i].incoming {
      assert a[i].incoming <= b[i].incoming <= c[i].incoming;
    }
  }

  lemma AttendedGrows(boxes: seq<Mailbox>, boxes': seq<Mailbox>, actors: seq<nat>, handled: seq<Message>, due: seq<Message>)
    requires Attended(boxes, actors, handled, due) && Grows(boxes, boxes')
    ensures Attended(boxes', actors, handled, due)
  {
    forall m | m in due && m !in handled ensures m.receiver in actors && m.receiver < |boxes'| && m in boxes'[m.receiver].incoming {
      assert boxes[m.receiver].incoming <= boxes'[m.receiver].incoming;
    }
  }

  /** What running handlers may have changed. */
  predicate Ran(boxes: seq<Mailbox>, actors: seq<nat>, log: Log, boxes': seq<Mailbox>, actors': seq<nat>, log': Log) {
    Grows(boxes, boxes') && actors' == actors && log.sent <= log'.sent && log'.handled == log.handled
  }

  predicate NoneQueued(boxes: seq<Mailbox>) {
    forall a :: 0 <= a < |boxes| ==> boxes[a].queued == []
  }

  /** The first actor of the walk has handled all it had. */
  lemma AttendedStep(boxes: seq<Mailbox>, boxes': seq<Mailbox>, actors: seq<nat>, handled: seq<Message>, handled': seq<Message>, due: seq<Message>)
    requires Attended(boxes, actors, handled, due) && actors != [] && actors[0] < |boxes| == |boxes'| && handled <= handled'
    requires forall m :: m in boxes[actors[0]].incoming ==> m in handled'
    requires forall b :: 0 <= b < |boxes| && b != actors[0] ==> boxes[b].incoming <= boxes'[b].incoming
    ensures Attended(boxes', actors[1..], handled', due)
  {
    assert actors == [actors[0]] + actors[1..];
    forall m | m in due && m !in handled'
      ensures m.receiver in actors[1..] && m.receiver < |boxes'| && m in boxes'[m.receiver].incoming
    {
      assert boxes[m.receiver].incoming <= boxes'[m.receiver].incoming;
    }
  }

  /** An actor is on the active list between cycles exactly if some message is not handled. */
  lemma ActiveIfPending(boxes: seq<Mailbox>, activeActors: seq<nat>, passiveActors: seq<nat>, outgoing: seq<Message>, log: Log)
    requires Account(boxes, outgoing, log) && AllPlaced(boxes, activeActors, passiveActors, [])
    ensures activeActors == [] && outgoing == [] <==> forall m :: m in log.sent ==> m in log.handled
  {
    if activeActors == [] && outgoing == [] {
      forall m | m in log.sent ensures m in log.handled {
        SentIsSomewhere(boxes, outgoing, log, m);
        assert Placed(boxes[m.receiver], m.receiver, activeActors, passiveActors, []);
      }
    } else {
      var m;
      if outgoing != [] {
        m := outgoing[0];
      } else {
        var a := activeActors[0];
        assert a in activeActors && Placed(boxes[a], a, activeActors, passiveActors, []);
        m := if boxes[a].incoming != [] then boxes[a].incoming[0] else boxes[a].queued[0];
        assert m in boxes[a].incoming || m in boxes[a].queued;
      }
      InOnePlace(boxes, outgoing, log, m);
      assert Times(log.handled, m) == 0;
    }
  }

  /** When a cycle has gathered all messages, every one not handled is attended to. */
  lemma AllAttended(boxes: seq<Mailbox>, activeActors: seq<nat>, passiveActors: seq<nat>, actors: seq<nat>, log: Log)
    requires Account(boxes, [], log) && AllPlaced(boxes, activeActors, passiveActors, actors) && activeActors == []
    requires NoneQueued(boxes)
    ensures Attended(boxes, actors, log.handled, log.sent)
  {
    forall m | m in log.sent && m !in log.handled
      ensures m.receiver in actors && m.receiver < |boxes| && m in boxes[m.receiver].incoming
    {
      SentIsSomewhere(boxes, [], log, m);
      assert Placed(boxes[m.receiver], m.receiver, activeActors, passiveActors, actors);
    }
  }

  // ---------- what was asked for is what is sent ----------

  /** The messages that sends become, numbered from `start` on. */
  function Messages(start: nat, sends: seq<Send>): seq<Message> {
    seq(|sends|, k requires 0 <= k < |sends| => Message(start + k, sends[k].receiver, sends[k].direct))
  }

  lemma MessagesAppend(start: nat, a: seq<Send>, b: seq<Send>)
    ensures Messages(start, a + b) == Messages(start, a) + Messages(start + |a|, b)
  {
  }

  /** The sends of several handlers, or event sources, one after the other. */
  function Together(script: seq<seq<Send>>): seq<Send> {
    if script == [] then [] else script[0] + Together(script[1..])
  }

  lemma {:induction false} TogetherAppend(a: seq<seq<Send>>, b: seq<seq<Send>>)
    ensures Together(a + b) == Together(a) + Together(b)
    decreases |a|
  {
    if a == [] {
      assert a + b == b;
    } else {
      assert (a + b)[0] == a[0] && (a + b)[1..] == a[1..] + b;
      TogetherAppend(a[1..], b);
      assert a[0] + (Together(a[1..]) + Together(b)) == a[0] + Together(a[1..]) + Together(b);
    }
  }

  lemma TogetherSnoc(script: seq<seq<Send>>, i: nat)
    requires i < |script|
    ensures Together(script[..i + 1]) == Together(script[..i]) + script[i]
  {
    var last := [script[i]];
    assert script[..i + 1] == script[..i] + last && last[1..] == [];
    TogetherAppend(script[..i], last);
    assert Together(last) == script[i] + Together([]);
  }

  /** What k handlings of a script ask for, and what is left of it. */
  function Played(script: seq<seq<Send>>, k: nat): seq<Send> {
    if k == 0 || script == [] then [] else script[0] + Played(script[1..], k - 1)
  }

  function Left(script: seq<seq<Send>>, k: nat): seq<seq<Send>> {
    if k == 0 || script == [] then script else Left(script[1..], k - 1)
  }

  /** They take just the first k entries, or all if there are fewer. */
  lemma {:induction false} PlayedFirst(script: seq<seq<Send>>, k: nat)
    ensures var n := if k < |script| then k else |script|;
            Played(script, k) == Together(script[..n]) && Left(script, k) == script[n..]
    decreases k
  {
    if k > 0 && script != [] {
      var n := if k < |script| then k else |script|;
      PlayedFirst(script[1..], k - 1);
      assert script[..n][1..] == script[1..][..n - 1] && script[1..][n - 1..] == script[n..];
    }
  }

  lemma {:induction false} PlayedOn(script: seq<seq<Send>>, j: nat, k: nat)
    ensures Played(script, j + k) == Played(script, j) + Played(Left(script, j), k)
    ensures Left(script, j + k) == Left(Left(script, j), k)
    decreases j
  {
    if j == 0 || script == [] {
      assert Played(script, j) == [] && Left(script, j) == script && Played(script, j + k) == Played(script, k);
    } else {
      var rest := script[1..];
      PlayedOn(rest, j - 1, k);
      var early, late := Played(rest, j - 1), Played(Left(rest, j - 1), k);
      assert Played(script, j + k) == script[0] + (early + late) && Left(script, j) == Left(rest, j - 1);
      assert script[0] + (early + late) == script[0] + early + late;
    }
  }

  /** What is sent beyond `log` is just what `sends` ask for. */
  predicate Sends(log: Log, sends: seq<Send>, log': Log) {
    log'.sent == log.sent + Messages(|log.sent|, sends)
  }

  lemma SendsOn(a: Log, first: seq<Send>, b: Log, second: seq<Send>, c: Log)
    requires Sends(a, first, b) && Sends(b, second, c)
    ensures Sends(a, first + second, c)
  {
    MessagesAppend(|a.sent|, first, second);
  }

  /** Each message handled has had its handler run: what is sent beyond `log` is what was asked for already and then
      what the script asks for in as many handlings, and the script has gone on by as many. */
  predicate Answered(log: Log, asked: seq<Send>, script: seq<seq<Send>>, log': Log, script': seq<seq<Send>>) {
    && |log.handled| <= |log'.handled|
    && var k := |log'.handled| - |log.handled|;
    && script' == Left(script, k) && Sends(log, asked + Played(script, k), log')
  }

  lemma InTurn(a: Log, asked: seq<Send>, early: seq<Send>, b: Log, late: seq<Send>, c: Log, both: seq<Send>)
    requires Sends(a, asked + early, b) && Sends(b, [] + late, c) && both == early + late
    ensures Sends(a, asked + both, c)
  {
    SendsOn(a, asked + early, b, [] + late, c);
    assert asked + early + ([] + late) == asked + both;
  }

  lemma AnsweredOn(a: Log, asked: seq<Send>, script: seq<seq<Send>>, b: Log, script': seq<seq<Send>>, c: Log, script'': seq<seq<Send>>)
    requires Answered(a, asked, script, b, script') && Answered(b, [], script', c, script'')
    ensures Answered(a, asked, script, c, script'')
  {
    var j, k, n := |b.handled| - |a.handled|, |c.handled| - |b.handled|, |c.handled| - |a.handled|;
    PlayedOn(script, j, k);
    assert n == j + k;
    InTurn(a, asked, Played(script, j), b, Played(script', k), c, Played(script, n));
  }

  /** Nothing but `asked` has been sent yet. */
  lemma NoneAnswered(log: Log, asked: seq<Send>, script: seq<seq<Send>>, log': Log)
    requires log'.handled == log.handled && Sends(log, asked, log')
    ensures Answered(log, asked, script, log', script)
  {
    assert asked + Played(script, 0) == asked;
  }

  /** One handler has run, for the message that is now done with. */
  lemma Handled(log: Log, script: seq<seq<Send>>, ran: Log, log': Log, script': seq<seq<Send>>)
    requires |log'.handled| == |log.handled| + 1 && log'.sent == ran.sent
    requires script' == (if script == [] then [] else script[1..]) && Sends(log, if script == [] then [] else script[0], ran)
    ensures Answered(log, [], script, log', script')
  {
    assert Played(script, 1) == if script == [] then [] else script[0];
    assert [] + Played(script, 1) == Played(script, 1);
  }

  /** The first incoming message of actor a is handled. */
  predicate FirstHandled(a: nat, boxes: seq<Mailbox>, log: Log, script: seq<seq<Send>>, boxes': seq<Mailbox>, log': Log, script': seq<seq<Send>>) {
    && a < |boxes| == |boxes'| && boxes[a].incoming != [] && boxes[a].incoming[1..] <= boxes'[a].incoming
    && (forall b :: 0 <= b < |boxes| && b != a ==> boxes[b].incoming <= boxes'[b].incoming)
    && log.sent <= log'.sent && log'.handled == log.handled + [boxes[a].incoming[0]]
    && Answered(log, [], script, log', script')
  }

  /** What a walk along the messages of actor a has come to; those there at first are ahead until it ends. */
  predicate Walk(a: nat, boxes: seq<Mailbox>, log: Log, script: seq<seq<Send>>, boxes': seq<Mailbox>, log': Log, script': seq<seq<Send>>, on: bool) {
    && a < |boxes| == |boxes'|
    && (forall b :: 0 <= b < |boxes| && b != a ==> boxes[b].incoming <= boxes'[b].incoming)
    && log.sent <= log'.sent && log.handled <= log'.handled
    && (forall m :: m in boxes[a].incoming ==> m in log'.handled || (on && m in boxes'[a].incoming))
    && Answered(log, [], script, log', script')
  }

  lemma WalkOn(a: nat, boxes: seq<Mailbox>, log: Log, script: seq<seq<Send>>, boxes': seq<Mailbox>, log': Log, script': seq<seq<Send>>,
               boxes'': seq<Mailbox>, log'': Log, script'': seq<seq<Send>>)
    requires Walk(a, boxes, log, script, boxes', log', script', true)
    requires FirstHandled(a, boxes', log', script', boxes'', log'', script'')
    ensures Walk(a, boxes, log, script, boxes'', log'', script'', |boxes'[a].incoming| > 1)
  {
    forall b | 0 <= b < |boxes| && b != a ensures boxes[b].incoming <= boxes''[b].incoming {
      assert boxes[b].incoming <= boxes'[b].incoming <= boxes''[b].incoming;
    }
    assert boxes'[a].incoming == [boxes'[a].incoming[0]] + boxes'[a].incoming[1..];
    AnsweredOn(log, [], script, log', script', log'', script'');
  }

  function Total(ran: seq<nat>): nat {
    if ran == [] then 0 else Total(ran[..|ran| - 1]) + ran[|ran| - 1]
  }

  /** What several cycles ask for: in each its events, then as many handlers as it runs. */
  function AskedFor(cycles: seq<seq<seq<Send>>>, script: seq<seq<Send>>, ran: seq<nat>): seq<Send>
    requires |ran| == |cycles|
    decreases |cycles|
  {
    if cycles == [] then []
    else
      var n := |cycles| - 1;
      AskedFor(cycles[..n], script, ran[..n]) + (Together(cycles[n]) + Played(Left(script, Total(ran[..n])), ran[n]))
  }

  /** What a run of cycles has come to, with the number of handlings of each. */
  predicate Came(log: Log, cycles: seq<seq<seq<Send>>>, script: seq<seq<Send>>, ran: seq<nat>, log': Log, script': seq<seq<Send>>) {
    && |ran| == |cycles| && |log'.handled| == |log.handled| + Total(ran)
    && script' == Left(script, Total(ran)) && Sends(log, AskedFor(cycles, script, ran), log')
  }

  lemma CameOn(a: Log, cycles: seq<seq<seq<Send>>>, i: nat, script: seq<seq<Send>>, ran: seq<nat>, b: Log, script': seq<seq<Send>>,
               c: Log, script'': seq<seq<Send>>)
    requires i < |cycles| && Came(a, cycles[..i], script, ran, b, script') && Answered(b, Together(cycles[i]), script', c, script'')
    ensures Came(a, cycles[..i + 1], script, ran + [|c.handled| - |b.handled|], c, script'')
  {
    var events, k := cycles[i], |c.handled| - |b.handled|;
    assert cycles[..i + 1][..i] == cycles[..i] && (ran + [k])[..i] == ran;
    PlayedOn(script, Total(ran), k);
    SendsOn(a, AskedFor(cycles[..i], script, ran), b, Together(events) + Played(script', k), c);
  }
}
