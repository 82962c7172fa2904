/**
 How dispatchers pass allocators around under a spinlock: every atomic step of every thread, in any order.
 A thread constructs its dispatcher once and then rotates allocators as often as its cycles dispatch something.
 */
module Rotation {
  import opened Options

  /** What a thread wants the lock for. */
  datatype Section = Construct | Rotate

  /** Where a thread is. `Spin` reads the lock until it looks free; `TestAndSet` then tries to take it. */
  datatype Pc =
    | Unborn | Idle
    | Spin(section: Section) | TestAndSet(section: Section)
    | Check | Create                             // construction, with the lock held
    | ReadRecycled | StoreRecycled | StoreMine   // the swap, with the lock held
    | Unlock

  /** A thread: its dispatcher's `mAllocator`, and the local variable of the swap. */
  datatype Thread = Thread(pc: Pc, mine: Option<nat>, local: Option<nat>)

  /** `lock` is the spinlock's state, `recycled` the shared pointer, `made` the number of allocators made. */
  datatype System = System(lock: nat, recycled: Option<nat>, made: nat, threads: seq<Thread>)

  function Set(s: System, i: nat, pc: Pc): System
    requires i < |s.threads|
  {
    s.(threads := s.threads[i := s.threads[i].(pc := pc)])
  }

  /** The atomic step that thread i takes next. */
  function Step(s: System, i: nat): System
    requires i < |s.threads|
  {
    var t := s.threads[i];
    match t.pc
    case Unborn => s.(made := s.made + 1, threads := s.threads[i := Thread(Spin(Construct), Some(s.made), None)])
    case Idle => Set(s, i, Spin(Rotate))
    case Spin(section) => if s.lock != 0 then s else Set(s, i, TestAndSet(section))
    case TestAndSet(section) =>
      var next := if s.lock != 0 then Spin(section) else if section.Construct? then Check else ReadRecycled;
      Set(s, i, next).(lock := 1)
    case Check => Set(s, i, if s.recycled.None? then Create else Unlock)
    case Create => Set(s, i, Unlock).(made := s.made + 1, recycled := Some(s.made))
    case ReadRecycled => s.(threads := s.threads[i := Thread(StoreRecycled, t.mine, s.recycled)])
    case StoreRecycled => Set(s, i, StoreMine).(recycled := t.mine)
    case StoreMine => s.(threads := s.threads[i := Thread(Unlock, t.local, t.local)])
    case Unlock => Set(s, i, Idle).(lock := 0)
  }

  predicate Holds(t: Thread) {
    t.pc.Check? || t.pc.Create? || t.pc.ReadRecycled? || t.pc.StoreRecycled? || t.pc.StoreMine? || t.pc.Unlock?
  }

  predicate Rotates(t: Thread) {
    t.pc.Idle? || t.pc == Spin(Rotate) || t.pc == TestAndSet(Rotate) || t.pc.ReadRecycled? || t.pc.StoreRecycled? || t.pc.StoreMine? || t.pc.Unlock?
  }

  /** The allocator that a thread will be left with: in the middle of a swap, the one it has just read. */
  function Due(t: Thread): Option<nat> {
    if t.pc.StoreMine? then t.local else t.mine
  }

  /** The lock is taken exactly while a thread is between taking and releasing it, and by one thread only. */
  ghost predicate Exclusive(s: System) {
    && (s.lock != 0 <==> exists i :: 0 <= i < |s.threads| && Holds(s.threads[i]))
    && forall i, j :: 0 <= i < j < |s.threads| ==> !(Holds(s.threads[i]) && Holds(s.threads[j]))
  }

  ghost predicate Local(s: System, t: Thread) {
    && (t.pc.Unborn? <==> t.mine.None?) && (t.pc.Unborn? || Due(t).Some?)
    && (t.pc.StoreRecycled? ==> t.local == s.recycled)
    && (t.pc.StoreMine? ==> s.recycled == t.mine)
    && (Rotates(t) ==> s.recycled.Some?) && (t.pc.Create? ==> s.recycled.None?)
  }

  /** Each allocator made so far is the recycled one or due to exactly one thread. */
  ghost predicate Owned(s: System) {
    && (s.recycled.Some? ==> s.recycled.value < s.made)
    && (forall i :: 0 <= i < |s.threads| && Due(s.threads[i]).Some? ==>
          Due(s.threads[i]).value < s.made && Due(s.threads[i]) != s.recycled)
    && (forall i, j :: 0 <= i < j < |s.threads| && Due(s.threads[i]).Some? ==> Due(s.threads[i]) != Due(s.threads[j]))
    && (forall a: nat :: a < s.made ==> s.recycled == Some(a) || exists i :: 0 <= i < |s.threads| && Due(s.threads[i]) == Some(a))
  }

  ghost predicate Inv(s: System) {
    Exclusive(s) && (forall i :: 0 <= i < |s.threads| ==> Local(s, s.threads[i])) && Owned(s)
  }

  lemma StepExclusive(s: System, i: nat)
    requires Inv(s) && i < |s.threads|
    ensures Exclusive(Step(s, i))
  {
    var s' := Step(s, i);
    forall j | 0 <= j < |s.threads| && j != i ensures s'.threads[j] == s.threads[j] {
    }
    if Holds(s'.threads[i]) && !Holds(s.threads[i]) {
      assert s.lock == 0;
    } else if Holds(s.threads[i]) {
      assert s.lock != 0;
    } else if exists j :: 0 <= j < |s.threads| && Holds(s.threads[j]) {
      var j :| 0 <= j < |s.threads| && Holds(s.threads[j]);
      assert Holds(s'.threads[j]);
    }
  }

  lemma StepLocal(s: System, i: nat, j: nat)
    requires Inv(s) && i < |s.threads| && j < |s.threads|
    ensures Local(Step(s, i), Step(s, i).threads[j])
  {
    var s' := Step(s, i);
    assert Local(s, s.threads[i]) && Local(s, s.threads[j]);
    if j != i {
      assert s'.threads[j] == s.threads[j];
      if s'.recycled != s.recycled {
        assert Holds(s.threads[i]);
      }
    }
  }

  /** A step leaves a thread what is due to it, unless it makes an allocator or exchanges with the recycled one. */
  lemma StepDue(s: System, i: nat)
    requires Inv(s) && i < |s.threads|
    ensures forall j :: 0 <= j < |s.threads| && j != i ==> Step(s, i).threads[j] == s.threads[j]
    ensures var s', t := Step(s, i), s.threads[i];
            match t.pc
            case Unborn => Due(s'.threads[i]) == Some(s.made) && s'.recycled == s.recycled && s'.made == s.made + 1 && Due(t).None?
            case Create => Due(s'.threads[i]) == Due(t) && s'.recycled == Some(s.made) && s'.made == s.made + 1 && s.recycled.None?
            case StoreRecycled => Due(s'.threads[i]) == s.recycled && s'.recycled == Due(t) && s'.made == s.made
            case _ => Due(s'.threads[i]) == Due(t) && s'.recycled == s.recycled && s'.made == s.made
  {
    assert Local(s, s.threads[i]);
  }

  lemma StepLosesNone(s: System, i: nat, a: nat)
    requires Inv(s) && i < |s.threads| && a < Step(s, i).made
    ensures var s' := Step(s, i);
            s'.recycled == Some(a) || exists j :: 0 <= j < |s.threads| && Due(s'.threads[j]) == Some(a)
  {
    var s' := Step(s, i);
    StepDue(s, i);
    if a < s.made && s.recycled != Some(a) {
      var j :| 0 <= j < |s.threads| && Due(s.threads[j]) == Some(a);
      assert j != i ==> Due(s'.threads[j]) == Some(a);
    }
  }

  lemma StepOwned(s: System, i: nat)
    requires Inv(s) && i < |s.threads|
    ensures Owned(Step(s, i))
  {
    StepDue(s, i);
    forall a: nat | a < Step(s, i).made
      ensures Step(s, i).recycled == Some(a) || exists j :: 0 <= j < |s.threads| && Due(Step(s, i).threads[j]) == Some(a)
    {
      StepLosesNone(s, i, a);
    }
  }

  lemma InvKept(s: System, i: nat)
    requires Inv(s) && i < |s.threads|
    ensures Inv(Step(s, i))
  {
    StepExclusive(s, i);
    forall j | 0 <= j < |s.threads| ensures Local(Step(s, i), Step(s, i).threads[j]) {
      StepLocal(s, i, j);
    }
    StepOwned(s, i);
  }

  /** Any number of threads, none of them begun. */
  predicate Initial(s: System) {
    s.lock == 0 && s.recycled.None? && s.made == 0 && forall i :: 0 <= i < |s.threads| ==> s.threads[i] == Thread(Unborn, None, None)
  }

  /** The states that a schedule, naming the thread that goes next, leads through. */
  function RunSchedule(s: System, schedule: seq<nat>): System
    decreases |schedule|
  {
    if schedule == [] then s
    else
      var before := RunSchedule(s, schedule[..|schedule| - 1]);
      var i := schedule[|schedule| - 1];
      if i < |before.threads| then Step(before, i) else before
  }

  lemma {:induction false} EveryStateSafe(s: System, schedule: seq<nat>)
    requires Initial(s)
    ensures Inv(RunSchedule(s, schedule))
    decreases |schedule|
  {
    if schedule != [] {
      EveryStateSafe(s, schedule[..|schedule| - 1]);
      var before := RunSchedule(s, schedule[..|schedule| - 1]);
      var i := schedule[|schedule| - 1];
      if i < |before.threads| {
        InvKept(before, i);
      }
    }
  }

  // ---------- what every interleaving guarantees ----------

  lemma MutualExclusion(s: System, schedule: seq<nat>, i: nat, j: nat)
    requires Initial(s)
    ensures var r := RunSchedule(s, schedule);
            i < |r.threads| && j < |r.threads| && Holds(r.threads[i]) && Holds(r.threads[j]) ==> i == j && r.lock != 0
  {
    EveryStateSafe(s, schedule);
  }

  /** Two dispatchers never have the same allocator, not even in the middle of a swap; and no dispatcher has
      the recycled one, but for a thread that is about to finish its swap. */
  lemma AllocatorsDistinct(s: System, schedule: seq<nat>, i: nat, j: nat)
    requires Initial(s)
    ensures var r := RunSchedule(s, schedule);
            i < |r.threads| && r.threads[i].mine.Some? ==>
              && (j < |r.threads| && i != j ==> r.threads[i].mine != r.threads[j].mine)
              && (r.threads[i].mine == r.recycled <==> r.threads[i].pc.StoreMine?)
  {
    EveryStateSafe(s, schedule);
    var r := RunSchedule(s, schedule);
    if i < |r.threads| && j < |r.threads| && i != j && r.threads[i].mine.Some? {
      assert Local(r, r.threads[i]) && Local(r, r.threads[j]);
      if r.threads[i].pc.StoreMine? {
        assert !r.threads[j].pc.StoreMine?;
      } else if r.threads[j].pc.StoreMine? {
        assert Due(r.threads[i]) != r.recycled;
      }
    }
    if i < |r.threads| && r.threads[i].mine.Some? {
      assert Local(r, r.threads[i]);
    }
  }

  /** No allocator is ever lost: outside swaps, each one made is recycled or some dispatcher's own. */
  lemma NoneLost(s: System, schedule: seq<nat>, a: nat)
    requires Initial(s) && a < RunSchedule(s, schedule).made
    ensures var r := RunSchedule(s, schedule);
            (forall i :: 0 <= i < |r.threads| ==> !r.threads[i].pc.StoreMine?) ==>
              r.recycled == Some(a) || exists i :: 0 <= i < |r.threads| && r.threads[i].mine == Some(a)
  {
    EveryStateSafe(s, schedule);
  }

  function Turns(schedule: seq<nat>, i: nat): nat
    decreases |schedule|
  {
    if schedule == [] then 0 else Turns(schedule[..|schedule| - 1], i) + if schedule[|schedule| - 1] == i then 1 else 0
  }

  /** Thread i has made so many steps of its swap since state s. */
  predicate Swapping(s: System, r: System, i: nat, turns: nat)
    requires i < |s.threads|
  {
    && |r.threads| == |s.threads|
    && match turns
       case 0 => r.threads[i] == s.threads[i] && r.recycled == s.recycled
       case 1 => r.threads[i] == Thread(StoreRecycled, s.threads[i].mine, s.recycled) && r.recycled == s.recycled
       case 2 => r.threads[i] == Thread(StoreMine, s.threads[i].mine, s.recycled) && r.recycled == s.threads[i].mine
       case _ => r.threads[i] == Thread(Unlock, s.recycled, s.recycled) && r.recycled == s.threads[i].mine
  }

  /** Whatever the other threads do in between, the three steps of a swap exchange the two allocators. */
  lemma {:induction false} SwapIsAtomic(s: System, schedule: seq<nat>, i: nat)
    requires Inv(s) && i < |s.threads| && s.threads[i].pc.ReadRecycled? && Turns(schedule, i) <= 3
    ensures Inv(RunSchedule(s, schedule)) && Swapping(s, RunSchedule(s, schedule), i, Turns(schedule, i))
    decreases |schedule|
  {
    if schedule != [] {
      var front, j := schedule[..|schedule| - 1], schedule[|schedule| - 1];
      SwapIsAtomic(s, front, i);
      var before := RunSchedule(s, front);
      assert Holds(before.threads[i]);
      if j < |before.threads| {
        InvKept(before, j);
        if j != i {
          assert !Holds(before.threads[j]);
        }
      }
    }
  }

  // ---------- what every thread gets done ----------

  lemma {:induction false} RunFrom(s: System, i: nat, rest: seq<nat>)
    requires i < |s.threads|
    ensures RunSchedule(s, [i] + rest) == RunSchedule(Step(s, i), rest) && Turns([i] + rest, i) == 1 + Turns(rest, i)
    decreases |rest|
  {
    var schedule := [i] + rest;
    if rest == [] {
      assert schedule[..0] == [] && RunSchedule(s, schedule[..0]) == s;
      assert Turns(schedule[..0], i) == 0;
    } else {
      RunFrom(s, i, rest[..|rest| - 1]);
      assert schedule[..|schedule| - 1] == [i] + rest[..|rest| - 1];
    }
  }

  /** A thread that waits moves on exactly if the lock is free, and then takes it unless another is faster. */
  lemma FreeLockIsTaken(s: System, i: nat)
    requires Inv(s) && i < |s.threads|
    ensures s.threads[i].pc.Spin? ==>
              Step(s, i) == if s.lock == 0 then Set(s, i, TestAndSet(s.threads[i].pc.section)) else s
    ensures s.threads[i].pc.TestAndSet? ==> (Holds(Step(s, i).threads[i]) <==> s.lock == 0) && Step(s, i).lock != 0
    ensures s.threads[i].pc.TestAndSet? && s.lock != 0 ==> Step(s, i).threads[i].pc == Spin(s.threads[i].pc.section)
  {
    if exists j :: 0 <= j < |s.threads| && Holds(s.threads[j]) {
      assert s.lock != 0;
    }
  }

  /** A thread that goes for the lock while it is free rotates: four turns of its own, the first of them now,
      exchange its allocator with the recycled one, whatever the others do in between; one more frees the lock. */
  lemma RotationIsDone(s: System, rest: seq<nat>, i: nat)
    requires Inv(s) && i < |s.threads| && s.threads[i].pc == TestAndSet(Rotate) && s.lock == 0
    requires Turns([i] + rest, i) == 4
    ensures var r := RunSchedule(s, [i] + rest);
            && |r.threads| == |s.threads| && r.threads[i].mine == s.recycled && r.recycled == s.threads[i].mine && r.lock != 0
            && Step(r, i) == Set(r, i, Idle).(lock := 0)
  {
    RunFrom(s, i, rest);
    InvKept(s, i);
    SwapIsAtomic(Step(s, i), rest, i);
    assert Holds(RunSchedule(s, [i] + rest).threads[i]);
  }

  /** While a thread has the lock, another's turn changes neither the thread nor what is recycled. */
  lemma OthersKeepOut(s: System, i: nat, j: nat)
    requires Inv(s) && i < |s.threads| && j < |s.threads| && i != j && Holds(s.threads[i])
    ensures var s' := Step(s, j);
            && |s'.threads| == |s.threads| && s'.threads[i] == s.threads[i] && s'.recycled == s.recycled && s'.lock != 0 && s'.made >= s.made
  {
    assert !Holds(s.threads[j]);
  }

  /** Thread i has made so many steps of its construction since it looked at the recycled allocator in state s. */
  predicate Constructing(s: System, r: System, i: nat, turns: nat)
    requires i < |s.threads|
  {
    && |r.threads| == |s.threads| && s.made <= r.made
    && if turns == 0 then r.threads[i] == s.threads[i] && r.recycled == s.recycled
       else if s.recycled.Some? then r.threads[i] == s.threads[i].(pc := Unlock) && r.recycled == s.recycled
       else if turns == 1 then r.threads[i] == s.threads[i].(pc := Create) && r.recycled.None?
       else r.threads[i] == s.threads[i].(pc := Unlock) && r.recycled.Some? && s.made <= r.recycled.value < r.made
  }

  lemma {:induction false} ConstructionIsAtomic(s: System, schedule: seq<nat>, i: nat)
    requires Inv(s) && i < |s.threads| && s.threads[i].pc.Check? && Turns(schedule, i) <= if s.recycled.Some? then 1 else 2
    ensures Inv(RunSchedule(s, schedule)) && Constructing(s, RunSchedule(s, schedule), i, Turns(schedule, i))
    decreases |schedule|
  {
    if schedule != [] {
      var front, j := schedule[..|schedule| - 1], schedule[|schedule| - 1];
      ConstructionIsAtomic(s, front, i);
      var before := RunSchedule(s, front);
      assert Holds(before.threads[i]);
      if j < |before.threads| {
        InvKept(before, j);
        if j != i {
          OthersKeepOut(before, i, j);
        }
      }
    }
  }

  /** A thread under construction that goes for the lock while it is free leaves an allocator to be recycled when it
      frees the lock: a new one exactly if there was none. That takes it two turns, or three, before that one. */
  lemma ConstructionIsDone(s: System, rest: seq<nat>, i: nat)
    requires Inv(s) && i < |s.threads| && s.threads[i].pc == TestAndSet(Construct) && s.lock == 0
    requires Turns([i] + rest, i) == if s.recycled.Some? then 2 else 3
    ensures var r := RunSchedule(s, [i] + rest);
            && |r.threads| == |s.threads| && r.threads[i].mine == s.threads[i].mine && r.recycled.Some?
            && (if s.recycled.Some? then r.recycled == s.recycled else s.made <= r.recycled.value < r.made)
            && r.lock != 0 && Step(r, i) == Set(r, i, Idle).(lock := 0)
  {
    RunFrom(s, i, rest);
    InvKept(s, i);
    ConstructionIsAtomic(Step(s, i), rest, i);
    assert Holds(RunSchedule(s, [i] + rest).threads[i]);
  }

  /** How many turns of its own a thread holds the lock for, this one included. */
  function TurnsToFree(s: System, t: Thread): nat {
    match t.pc
    case Check => if s.recycled.None? then 3 else 2
    case Create => 2
    case ReadRecycled => 4
    case StoreRecycled => 3
    case StoreMine => 2
    case Unlock => 1
    case _ => 0
  }

  lemma OwnTurn(s: System, i: nat)
    requires Inv(s) && i < |s.threads| && Holds(s.threads[i]) && TurnsToFree(s, s.threads[i]) > 1
    ensures var s' := Step(s, i);
            |s'.threads| == |s.threads| && Holds(s'.threads[i]) && TurnsToFree(s', s'.threads[i]) == TurnsToFree(s, s.threads[i]) - 1
  {
  }

  /** A thread that has the lock keeps it for just so many turns of its own, and while it does no other thread's
      turn changes anything for it. */
  lemma {:induction false} LockIsKept(s: System, schedule: seq<nat>, i: nat)
    requires Inv(s) && i < |s.threads| && Holds(s.threads[i]) && Turns(schedule, i) < TurnsToFree(s, s.threads[i])
    ensures var r := RunSchedule(s, schedule);
            && Inv(r) && |r.threads| == |s.threads| && Holds(r.threads[i])
            && TurnsToFree(r, r.threads[i]) == TurnsToFree(s, s.threads[i]) - Turns(schedule, i)
    decreases |schedule|
  {
    if schedule != [] {
      var front, j := schedule[..|schedule| - 1], schedule[|schedule| - 1];
      LockIsKept(s, front, i);
      var before := RunSchedule(s, front);
      if j < |before.threads| {
        InvKept(before, j);
        if j != i {
          OthersKeepOut(before, i, j);
        } else {
          OwnTurn(before, i);
        }
      }
    }
  }

  /** No thread keeps the lock for ever: the last of those turns frees it. */
  lemma LockIsFreed(s: System, schedule: seq<nat>, i: nat)
    requires Inv(s) && i < |s.threads| && Holds(s.threads[i]) && Turns(schedule, i) == TurnsToFree(s, s.threads[i]) - 1
    ensures var r := RunSchedule(s, schedule); |r.threads| == |s.threads| && r.lock != 0 && Step(r, i) == Set(r, i, Idle).(lock := 0)
  {
    LockIsKept(s, schedule, i);
    assert Holds(RunSchedule(s, schedule).threads[i]);
  }

  /** So a schedule that gives the holder its turns leads to a free lock, in any state that can come about. */
  lemma {:induction false} NoDeadlock(s: System, schedule: seq<nat>, i: nat)
    requires Inv(s) && i < |s.threads| && Holds(s.threads[i]) && Turns(schedule, i) >= TurnsToFree(s, s.threads[i])
    ensures exists k :: 0 <= k <= |schedule| && RunSchedule(s, schedule[..k]).lock == 0
    decreases |schedule|
  {
    var n := |schedule| - 1;
    if Turns(schedule[..n], i) >= TurnsToFree(s, s.threads[i]) {
      NoDeadlock(s, schedule[..n], i);
      var k :| 0 <= k <= n && RunSchedule(s, schedule[..n][..k]).lock == 0;
      assert schedule[..n][..k] == schedule[..k];
    } else {
      LockIsFreed(s, schedule[..n], i);
      assert schedule[..n + 1] == schedule;
    }
  }

  /** A thread goes on alone. */
  function Alone(s: System, i: nat, turns: nat): System
    requires i < |s.threads|
    decreases turns
  {
    if turns == 0 then s else Alone(Step(s, i), i, turns - 1)
  }

  /** With nobody else about, five turns or six construct a dispatcher's allocator and see to the recycled one. */
  lemma ConstructionAlone(s: System, i: nat)
    requires i < |s.threads| && s.threads[i].pc.Unborn? && s.lock == 0
    ensures var done := s.(made := s.made + 1, threads := s.threads[i := Thread(Idle, Some(s.made), None)]);
            if s.recycled.Some? then Alone(s, i, 5) == done
            else Alone(s, i, 6) == done.(made := s.made + 2, recycled := Some(s.made + 1))
  {
    var first := Step(s, i);
    var spun := Step(first, i);
    var locked := Step(spun, i);
    assert locked.threads[i] == Thread(Check, Some(s.made), None) && locked.made == s.made + 1;
    assert Alone(s, i, 5) == Alone(locked, i, 2) && Alone(s, i, 6) == Alone(locked, i, 3);
  }

  /** Seven turns rotate the allocators. */
  lemma RotationAlone(s: System, i: nat)
    requires i < |s.threads| && s.threads[i].pc.Idle? && s.lock == 0
    ensures Alone(s, i, 7) == s.(recycled := s.threads[i].mine, threads := s.threads[i := Thread(Idle, s.recycled, s.recycled)])
  {
  }
}
