/**
 One dispatcher and its actors. What handlers send is not known: it is a script with the sends of one handling
 after the other, over which everything is proved. Handlers send nothing once the script has run out, as a
 handler that always answers itself would keep a cycle going for ever. Actors have no timeouts here.
 */
module Scheduler {
  import opened Options
  import opened SchedulerAccount

  predicate SendsOk(sends: seq<Send>, n: nat) {
    forall k :: 0 <= k < |sends| ==> sends[k].receiver < n
  }

  predicate ScriptOk(script: seq<seq<Send>>, n: nat) {
    forall k :: 0 <= k < |script| ==> SendsOk(script[k], n)
  }

  /** What a list iterator will visit after the first item. */
  function Second<T>(list: seq<T>): Option<T> {
    if |list| > 1 then Some(list[1]) else None
  }

  function First<T>(list: seq<T>): Option<T> {
    if |list| > 0 then Some(list[0]) else None
  }

  const MAX_EVENTS := 10

  class Dispatcher {
    var boxes: seq<Mailbox>      // of the actors, by number
    var activeActors: seq<nat>
    var passiveActors: seq<nat>
    var actors: seq<nat>         // the list of the cycle under way
    var outgoing: seq<Message>
    var script: seq<seq<Send>>   // what the next handlings will send
    var log: Log                 // for the account only

    constructor (n: nat, script: seq<seq<Send>>)
      requires ScriptOk(script, n)
      ensures Ready() && |boxes| == n && log == Log([], []) && this.script == script
    {
      boxes := seq(n, _ => Mailbox([], [], false));
      activeActors, passiveActors, actors, outgoing := [], [], [], [];
      this.script, log := script, Log([], []);
    }

    ghost predicate Valid()
      reads this
    {
      && Account(boxes, outgoing, log) && AllPlaced(boxes, activeActors, passiveActors, actors)
      && ScriptOk(script, |boxes|)
    }

    /** Between cycles nothing is queued: whoever has messages is on the active list. */
    ghost predicate Ready()
      reads this
    {
      Valid() && actors == [] && NoneQueued(boxes)
    }

    /** `activateActor`, for an actor whose mailbox has become `box`. */
    method ActivateActor(a: nat)
      requires a < |boxes|
      modifies this`boxes, this`activeActors, this`passiveActors
      ensures boxes == old(boxes)[a := old(boxes)[a].(active := true)]
      ensures activeActors == old(activeActors) + if old(boxes[a].active) then [] else [a]
      ensures passiveActors == if old(boxes[a].active) then old(passiveActors) else Without(old(passiveActors), a)
    {
      if !boxes[a].active {
        passiveActors := Without(passiveActors, a);
        activeActors := activeActors + [a];
        boxes := boxes[a := boxes[a].(active := true)];
      }
    }

    /** A message is put into a mailbox, which becomes `box`, and its actor activated. */
    method Deposit(a: nat, box: Mailbox)
      requires AllPlaced(boxes, activeActors, passiveActors, actors) && a < |boxes| && Pending(box) && box.active == boxes[a].active
      modifies this`boxes, this`activeActors, this`passiveActors
      ensures AllPlaced(boxes, activeActors, passiveActors, actors) && boxes == old(boxes)[a := box.(active := true)]
    {
      Activate(boxes, activeActors, passiveActors, actors, a, box.(active := true));
      boxes := boxes[a := box];
      ActivateActor(a);
      assert boxes == old(boxes)[a := box.(active := true)];
    }

    /** `queueMessage`: straight into the receiver's mailbox, or to the outgoing list. */
    method QueueMessage(s: Send)
      requires Valid() && s.receiver < |boxes|
      modifies this`boxes, this`activeActors, this`passiveActors, this`outgoing, this`log
      ensures Valid() && Ran(old(boxes), old(actors), old(log), boxes, actors, log)
      ensures log.sent == old(log.sent) + [Message(|old(log.sent)|, s.receiver, s.direct)]
      ensures s.direct ==> outgoing == old(outgoing)
    {
      var m := Message(|log.sent|, s.receiver, s.direct);
      if s.direct {
        var r, box := s.receiver, boxes[s.receiver];
        SendDirect(boxes, outgoing, log, r);
        Deposit(r, box.(incoming := box.incoming + [m]));
      } else {
        SendLater(boxes, outgoing, log, s.receiver);
        outgoing := outgoing + [m];
      }
      log := log.(sent := log.sent + [m]);
    }

    /** A handler, or an event source, makes its sends. */
    method MakeSends(sends: seq<Send>)
      requires Valid() && SendsOk(sends, |boxes|)
      modifies this`boxes, this`activeActors, this`passiveActors, this`outgoing, this`log
      ensures Valid() && Ran(old(boxes), old(actors), old(log), boxes, actors, log)
      ensures Sends(old(log), sends, log)
    {
      var i := 0;
      while i < |sends|
        invariant 0 <= i <= |sends| && Valid() && Ran(old(boxes), old(actors), old(log), boxes, actors, log)
        invariant Sends(old(log), sends[..i], log)
        modifies this`boxes, this`activeActors, this`passiveActors, this`outgoing, this`log
      {
        ghost var before, logged := boxes, log;
        QueueMessage(sends[i]);
        GrowsOn(old(boxes), before, boxes);
        SendsOn(old(log), sends[..i], logged, [sends[i]], log);
        assert sends[..i] + [sends[i]] == sends[..i + 1];
        i := i + 1;
      }
      assert sends[..i] == sends;
    }

    /** `handle`: the next handler of the script. */
    method InvokeHandler()
      requires Valid()
      modifies this`boxes, this`activeActors, this`passiveActors, this`outgoing, this`log, this`script
      ensures Valid() && Ran(old(boxes), old(actors), old(log), boxes, actors, log)
      ensures old(script) == [] ==> script == [] && boxes == old(boxes)
      ensures old(script) != [] ==> script == old(script)[1..]
      ensures Sends(old(log), if old(script) == [] then [] else old(script)[0], log)
    {
      if script != [] {
        var sends := script[0];
        script := script[1..];
        MakeSends(sends);
      }
    }

    /** `handleMessages`: the walk along the incoming messages of the first actor of the cycle's list. The next
        message is looked up before each handler runs, so what a handler appends behind the last one has to wait.
        The handler of each message runs before it is done with. */
    method HandleMessages(a: nat)
      requires Valid() && a < |boxes| && NoneQueued(boxes) && a in actors
      modifies this`boxes, this`activeActors, this`passiveActors, this`outgoing, this`log, this`script
      ensures Valid() && actors == old(actors) && NoneQueued(boxes) && |boxes| == |old(boxes)|
      ensures forall b :: 0 <= b < |boxes| && b != a ==> old(boxes)[b].incoming <= boxes[b].incoming
      ensures old(log.sent) <= log.sent && old(log.handled) <= log.handled
      ensures forall m :: m in old(boxes)[a].incoming ==> m in log.handled
      ensures Answered(old(log), [], old(script), log, script)
    {
      NoneAnswered(log, [], script, log);
      var current, subsequent := First(boxes[a].incoming), Second(boxes[a].incoming);
      while current.Some?
        invariant Valid() && actors == old(actors) && NoneQueued(boxes) && a in actors
        invariant Walk(a, old(boxes), old(log), old(script), boxes, log, script, current.Some?)
        invariant current.Some? ==> current == First(boxes[a].incoming) && subsequent == Second(boxes[a].incoming)
        decreases |script|, |boxes[a].incoming|
        modifies this`boxes, this`activeActors, this`passiveActors, this`outgoing, this`log, this`script
      {
        ghost var before, logged, scripted := boxes, log, script;
        HandleFirst(a);
        WalkOn(a, old(boxes), old(log), old(script), before, logged, scripted, boxes, log, script);
        current := subsequent;
        subsequent := Second(boxes[a].incoming);
      }
    }

    /** The first message is handled: its handler runs, and it is done with. */
    method HandleFirst(a: nat)
      requires Valid() && a < |boxes| && NoneQueued(boxes) && a in actors && boxes[a].incoming != []
      modifies this`boxes, this`activeActors, this`passiveActors, this`outgoing, this`log, this`script
      ensures Valid() && actors == old(actors) && NoneQueued(boxes) && |boxes| == |old(boxes)|
      ensures FirstHandled(a, old(boxes), old(log), old(script), boxes, log, script)
      ensures if old(script) == [] then script == [] && boxes[a].incoming == old(boxes)[a].incoming[1..] else script == old(script)[1..]
    {
      InvokeHandler();
      ghost var logged := log;
      RemoveFirst(a);
      Handled(old(log), old(script), logged, log, script);
    }

    /** `remove` of the message that has been handled. */
    method RemoveFirst(a: nat)
      requires Valid() && a < |boxes| && boxes[a].incoming != [] && a in actors
      modifies this`boxes, this`log
      ensures Valid() && boxes == old(boxes)[a := old(boxes[a]).(incoming := old(boxes[a].incoming)[1..])]
      ensures log == old(log).(handled := old(log.handled) + [old(boxes[a].incoming)[0]])
    {
      Done(boxes, outgoing, log, a);
      var box := boxes[a].(incoming := boxes[a].incoming[1..]);
      SamePlace(boxes, activeActors, passiveActors, actors, a, box);
      log := log.(handled := log.handled + [boxes[a].incoming[0]]);
      boxes := boxes[a := box];
    }

    /** The messages of the outgoing list are delivered to their receivers' queues. */
    method DispatchOutgoing()
      requires Ready()
      modifies this`boxes, this`activeActors, this`passiveActors, this`outgoing
      ensures Valid() && outgoing == [] && |boxes| == |old(boxes)|
    {
      var current, subsequent := First(outgoing), Second(outgoing);
      while current.Some?
        invariant Valid() && |boxes| == |old(boxes)| && current == First(outgoing)
        invariant current.Some? ==> subsequent == Second(outgoing)
        decreases |outgoing|
        modifies this`boxes, this`activeActors, this`passiveActors, this`outgoing
      {
        DeliverFirst();
        current := subsequent;
        subsequent := Second(outgoing);
      }
    }

    method DeliverFirst()
      requires Valid() && outgoing != []
      modifies this`boxes, this`activeActors, this`passiveActors, this`outgoing
      ensures Valid() && outgoing == old(outgoing)[1..] && |boxes| == |old(boxes)|
    {
      Deliver(boxes, outgoing, log);
      var m := outgoing[0];
      var r, box := m.receiver, boxes[m.receiver].(queued := boxes[m.receiver].queued + [m]);
      Reactivated(boxes[r := box], outgoing[1..], log, r, true);
      assert boxes[r := box][r := box.(active := true)] == boxes[r := box.(active := true)];
      outgoing := outgoing[1..];
      Deposit(r, box);
    }

    /** The active actors become the list of the cycle, and their queues become incoming. */
    method GatherActors()
      requires Valid() && outgoing == [] && actors == []
      modifies this`boxes, this`activeActors, this`actors
      ensures Valid() && NoneQueued(boxes) && activeActors == [] && actors == old(activeActors) && |boxes| == |old(boxes)|
      ensures forall a :: 0 <= a < |boxes| ==> boxes[a] == Spliced(old(boxes)[a])
    {
      StartWalk(boxes, activeActors, passiveActors, actors);
      actors, activeActors := actors + activeActors, [];
      var i := 0;
      while i < |actors|
        invariant 0 <= i <= |actors| && Valid() && |boxes| == |old(boxes)|
        invariant forall j :: 0 <= j < i ==> actors[j] < |boxes| && boxes[actors[j]].queued == []
        invariant forall b :: 0 <= b < |boxes| ==> boxes[b] == old(boxes)[b] || boxes[b] == Spliced(old(boxes)[b])
        modifies this`boxes
      {
        var a := actors[i];
        assert a in actors;
        Splice(boxes, outgoing, log, a);
        SamePlace(boxes, activeActors, passiveActors, actors, a, Spliced(boxes[a]));
        SplicedAlready(Spliced(boxes[a]));
        boxes := boxes[a := Spliced(boxes[a])];
        i := i + 1;
      }
      forall a | 0 <= a < |boxes| ensures boxes[a].queued == [] {
        assert Placed(boxes[a], a, activeActors, passiveActors, actors);
        if Pending(boxes[a]) {
          assert a in actors;
        }
      }
      forall a | 0 <= a < |boxes| ensures boxes[a] == Spliced(old(boxes)[a]) {
        SplicedAlready(boxes[a]);
      }
    }

    /** The first actor of the cycle's list goes to the active list if it has messages, else to the passive one. */
    method RetireFirst()
      requires Valid() && actors != [] && actors[0] < |boxes| && NoneQueued(boxes)
      modifies this`boxes, this`activeActors, this`passiveActors, this`actors
      ensures Valid() && actors == old(actors)[1..] && |boxes| == |old(boxes)|
      ensures forall b :: 0 <= b < |boxes| ==> boxes[b].incoming == old(boxes)[b].incoming && boxes[b].queued == old(boxes)[b].queued
      ensures var a, more := old(actors)[0], old(boxes[actors[0]]).incoming != [];
              && activeActors == old(activeActors) + (if more then [a] else [])
              && passiveActors == old(passiveActors) + (if more then [] else [a])
    {
      Retire(boxes, activeActors, passiveActors, actors);
      var a := actors[0];
      Reactivated(boxes, outgoing, log, a, false);
      if boxes[a].incoming != [] {
        activeActors := activeActors + [a];
      } else {
        boxes := boxes[a := boxes[a].(active := false)];
        passiveActors := passiveActors + [a];
      }
      actors := actors[1..];
    }

    /** The active actors handle their messages: all that are there, and some that come meanwhile. */
    method HandleActive(ghost due: seq<Message>)
      requires Valid() && NoneQueued(boxes) && Attended(boxes, actors, log.handled, due)
      modifies this
      ensures Ready() && |boxes| == |old(boxes)| && old(log.sent) <= log.sent && old(log.handled) <= log.handled
      ensures forall m :: m in due ==> m in log.handled
      ensures Answered(old(log), [], old(script), log, script)
    {
      NoneAnswered(log, [], script, log);
      var current, subsequent := First(actors), Second(actors);
      while current.Some?
        invariant Valid() && NoneQueued(boxes) && Attended(boxes, actors, log.handled, due) && |boxes| == |old(boxes)|
        invariant old(log.sent) <= log.sent && old(log.handled) <= log.handled
        invariant current == First(actors) && (current.Some? ==> subsequent == Second(actors))
        invariant Answered(old(log), [], old(script), log, script)
        decreases |actors|
      {
        assert actors[0] in actors;
        ghost var before, logged, scripted := boxes, log, script;
        HandleMessages(current.value);
        RetireFirst();
        AttendedStep(before, boxes, [current.value] + actors, logged.handled, log.handled, due);
        AnsweredOn(old(log), [], old(script), logged, scripted, log, script);
        current := subsequent;
        subsequent := Second(actors);
      }
    }

    /** One turn of the loop of `run`, with the sends that each event makes. Every message sent before the cycle
        has been handled after it, and what is sent in it is what the events and then the handlers ask for, a handler
        for each message handled. The lock is taken, and the poll does not wait, exactly if one was left over. */
    method Cycle(events: seq<seq<Send>>) returns (locked: bool, timeout: int)
      requires Ready() && |events| <= MAX_EVENTS && ScriptOk(events, |boxes|)
      modifies this
      ensures Ready() && |boxes| == |old(boxes)| && old(log.sent) <= log.sent && old(log.handled) <= log.handled
      ensures forall m :: m in old(log.sent) ==> m in log.handled
      ensures Answered(old(log), Together(events), old(script), log, script)
      ensures timeout == if locked then 0 else -1
      ensures locked <==> exists m :: m in old(log.sent) && m !in old(log.handled)
    {
      ActiveIfPending(boxes, activeActors, passiveActors, outgoing, log);
      locked := false;
      if outgoing != [] {
        locked := true;
        DispatchOutgoing();
      }
      GatherActors();
      if actors != [] {
        locked := true;
      }
      timeout := if actors != [] then 0 else -1;
      AllAttended(boxes, activeActors, passiveActors, actors, log);
      ghost var due := log.sent;
      Poll(events, due);
      NoneAnswered(old(log), Together(events), script, log);
      ghost var polled := log;
      HandleActive(due);
      AnsweredOn(old(log), Together(events), old(script), polled, old(script), log, script);
    }

    method Poll(events: seq<seq<Send>>, ghost due: seq<Message>)
      requires Valid() && NoneQueued(boxes) && ScriptOk(events, |boxes|) && Attended(boxes, actors, log.handled, due)
      modifies this`boxes, this`activeActors, this`passiveActors, this`outgoing, this`log
      ensures Valid() && NoneQueued(boxes) && |boxes| == |old(boxes)| && Attended(boxes, actors, log.handled, due)
      ensures old(log.sent) <= log.sent && log.handled == old(log.handled)
      ensures Sends(old(log), Together(events), log)
    {
      var i := 0;
      while i < |events|
        invariant 0 <= i <= |events| && Valid() && NoneQueued(boxes) && |boxes| == |old(boxes)|
        invariant Attended(boxes, actors, log.handled, due) && old(log.sent) <= log.sent && log.handled == old(log.handled)
        invariant Sends(old(log), Together(events[..i]), log)
        modifies this`boxes, this`activeActors, this`passiveActors, this`outgoing, this`log
      {
        ghost var before, logged := boxes, log;
        MakeSends(events[i]);
        AttendedGrows(before, boxes, actors, log.handled, due);
        SendsOn(old(log), Together(events[..i]), logged, events[i], log);
        TogetherSnoc(events, i);
        i := i + 1;
      }
      assert events[..i] == events;
    }

    /** Any number of cycles with any events; `ran` is how many messages each of them handles. */
    method Run(cycles: seq<seq<seq<Send>>>) returns (ghost ran: seq<nat>)
      requires Ready() && forall k :: 0 <= k < |cycles| ==> |cycles[k]| <= MAX_EVENTS && ScriptOk(cycles[k], |boxes|)
      modifies this
      ensures Ready() && old(log.sent) <= log.sent && old(log.handled) <= log.handled
      ensures forall r: nat, d: bool :: r < |boxes| ==> Route(log.handled, r, d) <= Route(log.sent, r, d)
      ensures forall m: Message :: Times(log.handled, m) <= 1
      ensures cycles != [] ==> forall m :: m in old(log.sent) ==> m in log.handled
      ensures Came(old(log), cycles, old(script), ran, log, script)
    {
      ran := [];
      var i := 0;
      while i < |cycles|
        invariant 0 <= i <= |cycles| && Ready() && |boxes| == |old(boxes)|
        invariant old(log.sent) <= log.sent && old(log.handled) <= log.handled
        invariant 0 < i ==> forall m :: m in old(log.sent) ==> m in log.handled
        invariant Came(old(log), cycles[..i], old(script), ran, log, script)
      {
        ghost var logged, scripted := log, script;
        var locked, timeout := Cycle(cycles[i]);
        CameOn(old(log), cycles, i, old(script), ran, logged, scripted, log, script);
        ghost var handled: nat := |log.handled| - |logged.handled|;
        ran := ran + [handled];
        i := i + 1;
      }
      assert cycles[..i] == cycles;
      AllInOrder(boxes, outgoing, log);
    }
  }
}
