/**
  Wakes that are lost.  Two runs, each ending with a task parked for good although
  a wake was issued since it last started to run: in the first a waker of a pinned
  task, in the second the loop that parked a migratable one, is overtaken between
  seeing the park and taking the latch.
*/
module TaskWitness {
  import opened Tally
  import opened TaskSched
  import opened TaskHolders
  import opened TaskDelivery
  import opened TaskPinned

  /** A finite run under construction. */
  datatype Trace = Trace(run: seq<Sys>, acts: seq<Action>)

  ghost predicate Sound(tr: Trace) {
    IsRun(tr.run, tr.acts) && Shape(Last(tr))
  }

  ghost function Last(tr: Trace): Sys
    requires |tr.run| > 0
  {
    tr.run[|tr.run| - 1]
  }

  /** All that matters of the last state: task 0, the loops and the threads. */
  ghost predicate Shows(tr: Trace, task: Task, loops: seq<Loop>, threads: seq<Thread>) {
    && Sound(tr) && At(Last(tr), 0) == task && Last(tr).loops == loops && Last(tr).threads == threads
    && (forall t :: Last(tr).home(t) == 0) && Last(tr).pinned == tr.run[0].pinned
  }

  /** In no state so far has a waker seen the park and not yet taken the latch. */
  ghost predicate Quiet(tr: Trace) {
    forall j :: 0 <= j < |tr.run| ==> NoTake(tr.run[j].threads)
  }

  ghost predicate NoTake(threads: seq<Thread>) {
    forall i :: 0 <= i < |threads| ==> !threads[i].Take?
  }

  /** A waker's load finds the task parked. */
  ghost predicate SeesParked(s: Sys, a: Action) {
    a.Advance? && a.i < |s.threads| && s.threads[a.i].Look? && At(s, s.threads[a.i].t).state == Parked
  }

  lemma StaysQuiet(s: Sys, a: Action)
    requires Shape(s) && Enabled(s, a) && NoTake(s.threads) && !SeesParked(s, a)
    ensures NoTake(Apply(s, a).threads)
  {
    var r := Apply(s, a).threads;
    if a.Advance? {
      assert r == s.threads[a.i := r[a.i]] && !r[a.i].Take?;
    } else if a.WakeBegin? || a.SpawnPop? || a.SpawnFail? {
      assert r == s.threads[a.i := r[a.i]] && !r[a.i].Take?;
    } else {
      assert r == s.threads;
    }
  }

  lemma QuietGrows(tr: Trace, s: Sys, a: Action)
    requires Quiet(tr) && NoTake(s.threads)
    ensures Quiet(Trace(tr.run + [s], tr.acts + [a]))
  {
  }

  lemma RunGrows(run: seq<Sys>, acts: seq<Action>, a: Action, s: Sys)
    requires IsRun(run, acts) && Shape(run[|acts|]) && Enabled(run[|acts|], a) && s == Apply(run[|acts|], a)
    ensures IsRun(run + [s], acts + [a])
  {
    forall k | 0 <= k < |acts + [a]| ensures StepAt(run + [s], acts + [a], k) {
      assert k < |acts| ==> StepAt(run, acts, k);
    }
  }

  lemma Do(tr: Trace, a: Action) returns (next: Trace)
    requires Sound(tr) && Enabled(Last(tr), a)
    ensures Sound(next) && Last(next) == Apply(Last(tr), a)
    ensures next.run[0] == tr.run[0]
    ensures Quiet(tr) && !SeesParked(Last(tr), a) ==> Quiet(next)
  {
    var s := Apply(Last(tr), a);
    ApplyShape(Last(tr), a);
    next := Trace(tr.run + [s], tr.acts + [a]);
    RunGrows(tr.run, tr.acts, a, s);
    if Quiet(tr) && !SeesParked(Last(tr), a) {
      StaysQuiet(Last(tr), a);
      QuietGrows(tr, s, a);
    }
  }

  const Bare := Loop([], [], [], [], Idle)

  function With(r: Runner): Loop {
    Bare.(runner := r)
  }

  /** Task 0 as these runs see it: never on a free list again. */
  function T(state: TaskState, latch: bool, owed: bool): Task {
    Task(state, latch, owed, false)
  }

  /** Thread 0 spawns task 0 on loop 0 ... */
  lemma Spawning(pinned: bool) returns (tr: Trace)
    ensures Shows(tr, Task(Done, false, false, false), [Bare, Bare], [Init(0), Out])
    ensures tr.run[0].pinned(0) == pinned
    ensures Quiet(tr)
  {
    var s := Sys(t => pinned, t => 0, {}, t => Task(Done, false, false, true), [Bare, Bare], [Out, Out]);
    tr := Trace([s], []);
    tr := Do(tr, SpawnPop(0, 0));
  }

  lemma Spawned(pinned: bool) returns (tr: Trace)
    ensures Shows(tr, T(Scheduled, false, false), [Bare, Bare], [Publish(0), Out])
    ensures tr.run[0].pinned(0) == pinned
    ensures Quiet(tr)
  {
    tr := Spawning(pinned);
    tr := Do(tr, Advance(0, Owned));
    tr := Do(tr, Advance(0, Owned));
  }

  /** ... which runs it up to the store of PARKED. */
  lemma AboutToPark() returns (tr: Trace)
    ensures Shows(tr, T(Running, false, false), [With(Park(0)), Bare], [Out, Out])
    ensures tr.run[0].pinned(0)
  {
    tr := Spawned(true);
    tr := Do(tr, Advance(0, Owned));
    assert [] + [0] == [0];
    assert Last(tr).loops == [Bare.(owned := [0]), Bare];
    tr := PopAndRun(tr, 0, [Out, Out], false, false);
    tr := Do(tr, Return(0, SayPending));
    tr := Do(tr, Turn(0, Owned));
  }

  /** Loop l, holding task 0 in its queue, starts to run it. */
  lemma PopAndRun(tr0: Trace, l: nat, threads: seq<Thread>, latch: bool, owed: bool) returns (tr: Trace)
    requires Sound(tr0) && l < |Last(tr0).loops| && Last(tr0).loops[l] == Bare.(owned := [0])
    requires At(Last(tr0), 0) == T(Scheduled, latch, owed) && Last(tr0).threads == threads
    requires (forall t :: Last(tr0).home(t) == 0) && Last(tr0).pinned == tr0.run[0].pinned
    ensures Shows(tr, T(Running, latch, false), Last(tr0).loops[l := With(Run(0))], threads)
    ensures tr.run[0] == tr0.run[0] && (Quiet(tr0) ==> Quiet(tr))
  {
    tr := Do(tr0, PopOwned(l, 0));
    tr := Do(tr, Turn(l, Owned));
  }

  /** Thread 1 wakes task 0 while it runs: the wake is latched and the call returns. */
  lemma LatchedWake(tr0: Trace, loops: seq<Loop>, th: Thread) returns (tr: Trace)
    requires Shows(tr0, T(Running, false, false), loops, [th, Out]) && |loops| > 0
    ensures Shows(tr, T(Running, true, true), loops, [th, Out])
    ensures tr.run[0] == tr0.run[0] && (Quiet(tr0) ==> Quiet(tr))
  {
    tr := Do(tr0, WakeBegin(1, 0, 0));
    tr := Do(tr, Advance(1, Owned));
    tr := Do(tr, Advance(1, Owned));
    tr := Do(tr, Advance(1, Owned));
  }

  /** Loop l, running task 0 with no latch to see, is about to park it ... */
  lemma MayPark(tr0: Trace, l: nat, loops: seq<Loop>, threads: seq<Thread>) returns (tr: Trace)
    requires l < |loops| && loops[l] == With(Run(0)) && Shows(tr0, T(Running, false, true), loops, threads)
    ensures Shows(tr, T(Running, false, true), loops[l := With(Park(0))], threads)
    ensures tr.run[0] == tr0.run[0] && (Quiet(tr0) ==> Quiet(tr))
  {
    tr := Do(tr0, Return(l, SayPending));
    tr := Do(tr, Turn(l, Owned));
  }

  /** ... and does. */
  lemma ParkIt(tr0: Trace, l: nat, loops: seq<Loop>, threads: seq<Thread>) returns (tr: Trace)
    requires l < |loops| && loops[l] == With(Park(0)) && Shows(tr0, T(Running, false, true), loops, threads)
    ensures Shows(tr, T(Parked, false, true), loops[l := Bare], threads)
    ensures tr.run[0] == tr0.run[0] && (Quiet(tr0) ==> Quiet(tr))
  {
    tr := Do(tr0, Turn(l, Owned));
    tr := Do(tr, Turn(l, Owned));
  }

  /** Thread 0 fails to claim task 0, which the loop then parks ... */
  lemma JustMissed(tr0: Trace) returns (tr: Trace)
    requires Shows(tr0, T(Running, false, false), [With(Park(0)), Bare], [Out, Out])
    ensures Shows(tr, T(Parked, false, true), [With(Recheck(0)), Bare], [Latch(0, 0), Out])
    ensures tr.run[0] == tr0.run[0]
  {
    tr := Do(tr0, WakeBegin(0, 0, 0));
    tr := Do(tr, Advance(0, Owned));
    assert Last(tr).threads == [Latch(0, 0), Out] && Last(tr).loops == [With(Park(0)), Bare];
    tr := Do(tr, Turn(0, Owned));
  }

  /** ... latches the wake, sees the park and stalls; the loop takes the latch. */
  lemma SeesPark(tr0: Trace) returns (tr: Trace)
    requires Shows(tr0, T(Parked, false, true), [With(Recheck(0)), Bare], [Latch(0, 0), Out])
    ensures Shows(tr, T(Parked, true, true), [With(Recheck(0)), Bare], [Take(0, 0), Out])
    ensures tr.run[0] == tr0.run[0]
  {
    tr := Do(tr0, Advance(0, Owned));
    tr := Do(tr, Advance(0, Owned));
  }

  lemma LoopTakesIt(tr0: Trace) returns (tr: Trace)
    requires Shows(tr0, T(Parked, true, true), [With(Recheck(0)), Bare], [Take(0, 0), Out])
    ensures Shows(tr, T(Scheduled, false, true), [With(Requeue(0)), Bare], [Take(0, 0), Out])
    ensures tr.run[0] == tr0.run[0]
  {
    tr := Do(tr0, Turn(0, Owned));
    tr := Do(tr, Turn(0, Owned));
  }

  lemma LoopQueuesIt(tr0: Trace) returns (tr: Trace)
    requires Shows(tr0, T(Scheduled, false, true), [With(Requeue(0)), Bare], [Take(0, 0), Out])
    ensures Shows(tr, T(Scheduled, false, true), [Bare.(owned := [0]), Bare], [Take(0, 0), Out])
    ensures tr.run[0] == tr0.run[0]
  {
    tr := Do(tr0, Turn(0, Owned));
    assert [] + [0] == [0];
  }

  lemma TakesAnothers(tr0: Trace) returns (tr: Trace)
    requires Shows(tr0, T(Running, true, true), [With(Run(0)), Bare], [Take(0, 0), Out])
    ensures Shows(tr, T(Running, false, true), [With(Run(0)), Bare], [Out, Out])
    ensures tr.run[0] == tr0.run[0]
  {
    tr := Do(tr0, Advance(0, Owned));
    tr := Do(tr, Advance(0, Owned));
  }

  lemma Unwatched(s: Sys, t: nat)
    requires s.loops == [Bare, Bare] && s.threads == [Out, Out]
    ensures Settled(s, t)
  {
    TotalZero(s.threads, InClaim(t));
    TotalZero(s.threads, InLook(t));
    TotalZero(s.threads, InRetry(t));
    TotalZero(s.loops, InRecheck(t));
    TotalZero(s.loops, InReclaim(t));
    TotalZero(s.loops, InRearm(t));
  }

  /** The step at which a pinned task lost its wake was a waker's. */
  lemma WakerLost(run: seq<Sys>, acts: seq<Action>)
    requires IsRun(run, acts) && run[0].pinned(0)
    requires Settled(run[|acts|], 0) && At(run[|acts|], 0).state == Parked && At(run[|acts|], 0).owed
    ensures exists j :: 0 <= j < |acts| && acts[j].Advance? && LosesWake(run[j], acts[j], 0)
  {
    SettledParked(run, acts, |acts|, 0);
    var j :| 0 <= j < |acts| && LosesWake(run[j], acts[j], 0);
    AlwaysAtHome(run, acts, j, 0);
    RunHeld(run, acts, j, 0);
    if acts[j].Turn? {
      RecheckIsAlone(run[j], acts[j].l, 0);
    }
  }

  /** A stale waker loses another's wake, even of a pinned task. */
  lemma StaleWaker() returns (run: seq<Sys>, acts: seq<Action>)
    ensures IsRun(run, acts) && run[0].pinned(0)
    ensures Settled(run[|acts|], 0) && At(run[|acts|], 0).state == Parked && At(run[|acts|], 0).owed
    ensures exists j :: 0 <= j < |acts| && acts[j].Advance? && LosesWake(run[j], acts[j], 0)
  {
    var tr := AboutToPark();
    tr := JustMissed(tr);
    tr := SeesPark(tr);
    tr := LoopTakesIt(tr);
    tr := LoopQueuesIt(tr);
    tr := PopAndRun(tr, 0, [Take(0, 0), Out], false, true);
    tr := LatchedWake(tr, [With(Run(0)), Bare], Take(0, 0));
    tr := TakesAnothers(tr);
    tr := MayPark(tr, 0, [With(Run(0)), Bare], [Out, Out]);
    tr := ParkIt(tr, 0, [With(Park(0)), Bare], [Out, Out]);
    Unwatched(Last(tr), 0);
    run, acts := tr.run, tr.acts;
    WakerLost(run, acts);
  }

  /** Loop 1 steals task 0, runs it and is about to park it. */
  lemma StolenToPark() returns (tr: Trace)
    ensures Shows(tr, T(Running, false, false), [Bare, With(Park(0))], [Out, Out])
    ensures !tr.run[0].pinned(0)
    ensures Quiet(tr)
  {
    tr := Robbed();
    tr := PopAndRun(tr, 1, [Out, Out], false, false);
    tr := Do(tr, Return(1, SayPending));
    tr := Do(tr, Turn(1, Owned));
  }

  lemma Offered() returns (tr: Trace)
    ensures Shows(tr, T(Scheduled, false, false), [Bare.(deque := [0]), Bare], [Out, Out])
    ensures !tr.run[0].pinned(0)
    ensures Quiet(tr)
  {
    tr := Spawned(false);
    tr := Do(tr, Advance(0, Deque));
    assert [] + [0] == [0];
  }

  lemma Robbed() returns (tr: Trace)
    ensures Shows(tr, T(Scheduled, false, false), [Bare, Bare.(owned := [0])], [Out, Out])
    ensures !tr.run[0].pinned(0)
    ensures Quiet(tr)
  {
    tr := Offered();
    assert [] + [0] == [0] && [0][1..] == [];
    tr := Do(tr, Steal(1, 0));
    assert Last(tr).loops == [Bare, With(Stolen(0))];
    tr := Do(tr, Turn(1, Owned));
  }

  /** Loop 1 has just parked task 0 when thread 0 begins to wake it at its home,
      loop 0 ... */
  lemma WakeBegun(tr0: Trace) returns (tr: Trace)
    requires Shows(tr0, T(Running, false, false), [Bare, With(Park(0))], [Out, Out])
    ensures Shows(tr, T(Parked, false, true), [Bare, With(Recheck(0))], [Claim(0, 0), Out])
    ensures tr.run[0] == tr0.run[0] && (Quiet(tr0) ==> Quiet(tr))
  {
    tr := Do(tr0, Turn(1, Owned));
    tr := Do(tr, WakeBegin(0, 0, 0));
  }

  /** ... and queues it there. */
  lemma WokenAtHome(tr0: Trace) returns (tr: Trace)
    requires Shows(tr0, T(Parked, false, true), [Bare, With(Recheck(0))], [Claim(0, 0), Out])
    ensures Shows(tr, T(Scheduled, false, true), [Bare.(owned := [0]), With(Recheck(0))], [Out, Out])
    ensures tr.run[0] == tr0.run[0] && (Quiet(tr0) ==> Quiet(tr))
  {
    tr := Do(tr0, Advance(0, Owned));
    tr := Do(tr, Advance(0, Owned));
    assert [] + [0] == [0];
  }

  lemma LoopTakesAnothers(tr0: Trace) returns (tr: Trace)
    requires Shows(tr0, T(Running, true, true), [With(Run(0)), With(Recheck(0))], [Out, Out])
    ensures Shows(tr, T(Running, false, true), [With(Run(0)), Bare], [Out, Out])
    ensures tr.run[0] == tr0.run[0] && (Quiet(tr0) ==> Quiet(tr))
  {
    tr := Do(tr0, Turn(1, Owned));
    tr := Do(tr, Turn(1, Owned));
  }

  /** With no waker stale, the step that lost the wake was a loop's. */
  lemma LoopLost(run: seq<Sys>, acts: seq<Action>)
    requires IsRun(run, acts)
    requires forall j :: 0 <= j < |acts| ==> NoStaleWaker(run[j], 0)
    requires Settled(run[|acts|], 0) && At(run[|acts|], 0).state == Parked && At(run[|acts|], 0).owed
    ensures exists j :: 0 <= j < |acts| && acts[j].Turn? && LosesWake(run[j], acts[j], 0)
  {
    SettledParked(run, acts, |acts|, 0);
    var j :| 0 <= j < |acts| && LosesWake(run[j], acts[j], 0);
    assert NoStaleWaker(run[j], 0);
  }

  /** The loop that parked a migratable task loses a wake of it, though no waker is
      ever stale. */
  lemma StaleLoop() returns (run: seq<Sys>, acts: seq<Action>)
    ensures IsRun(run, acts) && !run[0].pinned(0)
    ensures forall j :: 0 <= j < |acts| ==> NoStaleWaker(run[j], 0)
    ensures Settled(run[|acts|], 0) && At(run[|acts|], 0).state == Parked && At(run[|acts|], 0).owed
    ensures exists j :: 0 <= j < |acts| && acts[j].Turn? && LosesWake(run[j], acts[j], 0)
  {
    var tr := StolenToPark();
    tr := WakeBegun(tr);
    tr := WokenAtHome(tr);
    tr := PopAndRun(tr, 0, [Out, Out], false, true);
    tr := LatchedWake(tr, [With(Run(0)), With(Recheck(0))], Out);
    tr := LoopTakesAnothers(tr);
    tr := MayPark(tr, 0, [With(Run(0)), Bare], [Out, Out]);
    tr := ParkIt(tr, 0, [With(Park(0)), Bare], [Out, Out]);
    Unwatched(Last(tr), 0);
    run, acts := tr.run, tr.acts;
    forall j | 0 <= j < |acts| ensures NoStaleWaker(run[j], 0) {
      assert NoTake(run[j].threads);
    }
    LoopLost(run, acts);
  }
}
