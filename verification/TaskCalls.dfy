/**
  Wakes and spawns from their call to their return, in any run and whatever else
  happens meanwhile: what a call does is said of the task and the loop it was made
  for.  And what becomes of the struct of a task that is done.
*/
module TaskCalls {
  import opened Tally
  import opened TaskSched
  import opened TaskHolders
  import opened TaskVerdicts

  /** From its call at k, thread i has not returned by m. */
  ghost predicate Under(run: seq<Sys>, i: nat, k: nat, m: nat)
    requires m < |run|
  {
    forall j {:trigger run[j]} :: k < j <= m ==> i < |run[j].threads| && run[j].threads[i] != Out
  }

  /** It returns with the step at m. */
  ghost predicate Returns(run: seq<Sys>, i: nat, k: nat, m: nat)
    requires m + 1 < |run|
  {
    k < m && Under(run, i, k, m) && i < |run[m + 1].threads| && run[m + 1].threads[i] == Out
  }

  /** The step is thread i's own. */
  predicate By(a: Action, i: nat) {
    (a.Advance? || a.WakeBegin? || a.SpawnPop? || a.SpawnFail?) && a.i == i
  }

  lemma OthersAside(s: Sys, a: Action, i: nat)
    requires Shape(s) && Enabled(s, a) && !By(a, i) && i < |s.threads|
    ensures |Apply(s, a).threads| == |s.threads| && Apply(s, a).threads[i] == s.threads[i]
  {
    if a.Advance? {
      AdvanceShape(s, a.i, a.p);
    } else if a.Turn? {
      TurnShape(s, a.l, a.p);
    }
  }

  // --- Wakes --------------------------------------------------------------

  predicate Waking(th: Thread, t: nat, l: nat) {
    (th.Claim? || th.Latch? || th.Look? || th.Take? || th.Retry? || th.Won?) && th.t == t && th.l == l
  }

  /** One more t on loop l, and the other loops as they were. */
  ghost predicate Queues(s: Sys, s': Sys, t: nat, l: nat) {
    && l < |s.loops| && |s'.loops| == |s.loops| && s'.loops == s.loops[l := s'.loops[l]]
    && LoopReady(s'.loops[l], t) == LoopReady(s.loops[l], t) + 1
  }

  /** Nothing queued: t was not parked, or someone else took the latch. */
  ghost predicate Leaves(s: Sys, s': Sys, t: nat) {
    s'.loops == s.loops && (At(s, t).state != Parked || !At(s, t).latch)
  }

  lemma WakeStep(s: Sys, i: nat, p: Place, t: nat, l: nat)
    requires Shape(s) && Enabled(s, Advance(i, p)) && Waking(s.threads[i], t, l)
    ensures var s' := AdvanceThread(s, i, p);
      && |s'.threads| == |s.threads|
      && (s'.threads[i] != Out ==> Waking(s'.threads[i], t, l) && s'.loops == s.loops)
      && (s'.threads[i] == Out ==> Queues(s, s', t, l) || Leaves(s, s', t))
  {
    assert Aim(s.threads[i]) < |s.loops|;
    if s.threads[i].Won? {
      QueueHolds(s.loops[l], t, p, t);
    }
  }

  lemma WakeOne(run: seq<Sys>, acts: seq<Action>, i: nat, m: nat, t: nat, l: nat)
    requires IsRun(run, acts) && m < |acts| && i < |run[m].threads| && Waking(run[m].threads[i], t, l)
    ensures i < |run[m + 1].threads|
    ensures run[m + 1].threads[i] != Out ==> Waking(run[m + 1].threads[i], t, l)
    ensures run[m + 1].threads[i] == Out ==> By(acts[m], i)
    ensures run[m + 1].threads[i] == Out ==> Queues(run[m], run[m + 1], t, l) || Leaves(run[m], run[m + 1], t)
  {
    assert StepAt(run, acts, m);
    if By(acts[m], i) {
      WakeStep(run[m], i, acts[m].p, t, l);
    } else {
      OthersAside(run[m], acts[m], i);
    }
  }

  lemma WakeBegins(run: seq<Sys>, acts: seq<Action>, i: nat, k: nat, t: nat, l: nat)
    requires IsRun(run, acts) && k < |acts| && acts[k] == WakeBegin(i, t, l)
    ensures i < |run[k + 1].threads| && Waking(run[k + 1].threads[i], t, l) && At(run[k + 1], t).owed
  {
    assert StepAt(run, acts, k);
  }

  lemma {:induction false} WakeStays(run: seq<Sys>, acts: seq<Action>, i: nat, k: nat, m: nat, t: nat, l: nat)
    requires IsRun(run, acts) && k < m <= |acts| && acts[k] == WakeBegin(i, t, l) && Under(run, i, k, m)
    ensures i < |run[m].threads| && Waking(run[m].threads[i], t, l)
  {
    if m == k + 1 {
      WakeBegins(run, acts, i, k, t, l);
    } else {
      WakeStays(run, acts, i, k, m - 1, t, l);
      WakeOne(run, acts, i, m - 1, t, l);
    }
  }

  /** A wake of t through loop l that returns has queued t there at its last step, or
      has queued nothing, and t was not parked then or its latch had been taken. */
  lemma WakeDone(run: seq<Sys>, acts: seq<Action>, i: nat, k: nat, m: nat, t: nat, l: nat)
    requires IsRun(run, acts) && m < |acts| && k < |acts| && acts[k] == WakeBegin(i, t, l) && Returns(run, i, k, m)
    ensures By(acts[m], i) && (Queues(run[m], run[m + 1], t, l) || Leaves(run[m], run[m + 1], t))
  {
    WakeStays(run, acts, i, k, m, t, l);
    WakeOne(run, acts, i, m, t, l);
  }

  // --- Spawns -------------------------------------------------------------

  lemma SpawnStep(s: Sys, a: Action, t: nat)
    requires Shape(s) && Enabled(s, a) && (a.Advance? || a.SpawnFail?) && Spawns(s.threads[a.i], t)
    ensures var s' := Apply(s, a);
      && |s'.threads| == |s.threads|
      && (s'.threads[a.i] != Out ==> Spawns(s'.threads[a.i], t) && s'.loops == s.loops)
      && (s.threads[a.i].Clear? ==> !At(s', t).latch)
      && (s'.threads[a.i].Publish? ==> s.threads[a.i].Clear?)
      && (s'.threads[a.i] == Out ==>
            if a.SpawnFail? then s'.loops == s.loops && At(s', t).free else Queues(s, s', t, s.home(t)))
  {
    if a.Advance? && s.threads[a.i].Publish? {
      QueueHolds(s.loops[s.home(t)], t, a.p, t);
      TimesConcat(s.loops[s.home(t)].pub, [t], t);
    }
  }

  lemma SpawnOne(run: seq<Sys>, acts: seq<Action>, i: nat, m: nat, t: nat)
    requires IsRun(run, acts) && m < |acts| && i < |run[m].threads| && Spawns(run[m].threads[i], t)
    ensures i < |run[m + 1].threads|
    ensures run[m + 1].threads[i] != Out ==> Spawns(run[m + 1].threads[i], t)
    ensures run[m + 1].threads[i].Publish? ==>
      run[m].threads[i].Publish? || (By(acts[m], i) && !At(run[m + 1], t).latch)
    ensures run[m + 1].threads[i] == Out ==> run[m].threads[i].Publish?
    ensures run[m + 1].threads[i] == Out ==> By(acts[m], i)
    ensures run[m + 1].threads[i] == Out && acts[m].SpawnFail? ==>
      run[m + 1].loops == run[m].loops && At(run[m + 1], t).free
    ensures run[m + 1].threads[i] == Out && !acts[m].SpawnFail? ==>
      Queues(run[m], run[m + 1], t, run[m].home(t))
  {
    assert StepAt(run, acts, m);
    if By(acts[m], i) {
      SpawnStep(run[m], acts[m], t);
    } else {
      OthersAside(run[m], acts[m], i);
    }
  }

  lemma SpawnBegins(run: seq<Sys>, acts: seq<Action>, i: nat, k: nat, t: nat)
    requires IsRun(run, acts) && k < |acts| && acts[k] == SpawnPop(i, t)
    ensures i < |run[k + 1].threads| && run[k + 1].threads[i] == Init(t) && !At(run[k + 1], t).free
  {
    assert StepAt(run, acts, k);
  }

  /** One of the spawn's own steps has cleared a latch left by wakes of the struct's
      former life. */
  ghost predicate Cleared(run: seq<Sys>, acts: seq<Action>, i: nat, k: nat, m: nat, t: nat)
    requires m <= |acts| < |run|
  {
    exists j :: k < j < m && By(acts[j], i) && !At(run[j + 1], t).latch
  }

  lemma {:induction false} SpawnStays(run: seq<Sys>, acts: seq<Action>, i: nat, k: nat, m: nat, t: nat)
    requires IsRun(run, acts) && k < m <= |acts| && acts[k] == SpawnPop(i, t) && Under(run, i, k, m)
    ensures i < |run[m].threads| && Spawns(run[m].threads[i], t)
    ensures run[m].threads[i].Publish? ==> Cleared(run, acts, i, k, m, t)
  {
    if m == k + 1 {
      SpawnBegins(run, acts, i, k, t);
    } else {
      SpawnStays(run, acts, i, k, m - 1, t);
      SpawnOne(run, acts, i, m - 1, t);
    }
  }

  /** A spawn of t that returns has queued t on its home loop at its last step, where
      t is ready once; or, refused, has put its struct back on a spare list. */
  lemma SpawnDone(run: seq<Sys>, acts: seq<Action>, i: nat, k: nat, m: nat, t: nat)
    requires IsRun(run, acts) && m < |acts| && k < |acts| && acts[k] == SpawnPop(i, t) && Returns(run, i, k, m)
    ensures By(acts[m], i) && Cleared(run, acts, i, k, m, t)
    ensures if acts[m].SpawnFail? then run[m + 1].loops == run[m].loops && At(run[m + 1], t).free
      else Queues(run[m], run[m + 1], t, run[m].home(t)) && At(run[m + 1], t).state == Scheduled
  {
    SpawnStays(run, acts, i, k, m, t);
    SpawnOne(run, acts, i, m, t);
    RunHeld(run, acts, m + 1, t);
    if !acts[m].SpawnFail? {
      NotRunBy(run[m + 1], run[m].home(t), t);
    }
  }

  // --- Structs of tasks that are done --------------------------------------

  ghost predicate Kept(s: Sys, t: nat) {
    At(s, t).state == Done ==> Finishing(s, t) + Spares(s, t) == 1
  }

  /** A loop leaves t's struct to the end. */
  ghost predicate Forsakes(s: Sys, a: Action, t: nat) {
    a.Abandon? && a.l < |s.loops| && s.loops[a.l].runner == Finish(t)
  }

  /** Nobody's hold on t's struct changes. */
  ghost predicate SameKeepers(s: Sys, s': Sys, t: nat) {
    && |s'.loops| == |s.loops| && |s'.threads| == |s.threads| && At(s', t).free == At(s, t).free
    && (forall l :: 0 <= l < |s.loops| ==> RunnerSpare(s'.loops[l].runner, t) == RunnerSpare(s.loops[l].runner, t))
    && (forall i :: 0 <= i < |s.threads| ==> ThreadSpare(s'.threads[i], t) == ThreadSpare(s.threads[i], t))
  }

  lemma SameKept(s: Sys, s': Sys, t: nat)
    requires SameKeepers(s, s', t)
    ensures Finishing(s', t) == Finishing(s, t) && Spares(s', t) == Spares(s, t)
  {
    TotalSame(s'.loops, s.loops, ByLoopSpare(t));
    TotalSame(s'.threads, s.threads, ByThreadSpare(t));
  }

  lemma AdvanceKeepers(s: Sys, i: nat, p: Place, t: nat)
    requires Shape(s) && Enabled(s, Advance(i, p)) && s.threads[i] != Init(t)
    ensures SameKeepers(s, AdvanceThread(s, i, p), t)
  {
    var s' := AdvanceThread(s, i, p);
    AdvanceShape(s, i, p);
    assert ThreadSpare(s'.threads[i], t) == ThreadSpare(s.threads[i], t);
    assert forall l :: 0 <= l < |s.loops| ==> s'.loops[l].runner == s.loops[l].runner;
  }

  lemma TurnKeepers(s: Sys, l: nat, p: Place, t: nat)
    requires Enabled(s, Turn(l, p)) && s.loops[l].runner != Finish(t)
    ensures SameKeepers(s, TurnLoop(s, l, p), t)
  {
    var s' := TurnLoop(s, l, p);
    TurnShape(s, l, p);
    assert s'.loops == s.loops[l := s'.loops[l]];
    assert RunnerSpare(s'.loops[l].runner, t) == RunnerSpare(s.loops[l].runner, t);
  }

  lemma PickKeepers(s: Sys, a: Action, t: nat)
    requires Shape(s) && Enabled(s, a) && !Forsakes(s, a, t) && !Says(s, a, t, SayDone)
    requires !a.Advance? && !a.Turn? && !a.SpawnFail? && !(a.SpawnPop? && a.t == t)
    ensures SameKeepers(s, Apply(s, a), t)
  {
  }

  /** The steps that pass t's struct on. */
  lemma PassedOn(s: Sys, a: Action, t: nat)
    requires Shape(s) && Enabled(s, a) && Held(s, t) && Kept(s, t)
    requires (a.Turn? && s.loops[a.l].runner == Finish(t)) || Says(s, a, t, SayDone)
    ensures Kept(Apply(s, a), t)
  {
    NotRunBy(s, a.l, t);
    AfterRunner(s, Apply(s, a), a.l, Apply(s, a).loops[a.l].runner, t);
  }

  lemma Reused(s: Sys, a: Action, t: nat)
    requires Shape(s) && Enabled(s, a) && Held(s, t) && Kept(s, t) && ((a.SpawnPop? && a.t == t) || a.SpawnFail?)
    ensures Kept(Apply(s, a), t)
  {
    AfterThread(s, Apply(s, a), a.i, t);
  }

  lemma StepKept(s: Sys, a: Action, t: nat)
    requires Shape(s) && Enabled(s, a) && Held(s, t) && Kept(s, t) && !Forsakes(s, a, t)
    ensures Kept(Apply(s, a), t)
  {
    StateMoves(s, a, t);
    if (a.Turn? && s.loops[a.l].runner == Finish(t)) || Says(s, a, t, SayDone) {
      PassedOn(s, a, t);
    } else if (a.SpawnPop? && a.t == t) || a.SpawnFail? {
      Reused(s, a, t);
    } else if !(a.Advance? && s.threads[a.i] == Init(t)) {
      match a {
        case Advance(i, p) => AdvanceKeepers(s, i, p, t);
        case Turn(l, p) => TurnKeepers(s, l, p, t);
        case _ => PickKeepers(s, a, t);
      }
      SameKept(s, Apply(s, a), t);
    }
  }

  /** No struct is lost: unless a loop left it to the end, the struct of a task that is
      done is with the one loop about to keep it, on a free list or being spawned. */
  lemma {:induction false} DoneIsKept(run: seq<Sys>, acts: seq<Action>, k: nat, t: nat)
    requires IsRun(run, acts) && k <= |acts|
    requires forall j :: 0 <= j < k ==> !Forsakes(run[j], acts[j], t)
    ensures Kept(run[k], t)
  {
    if k == 0 {
      TotalZero(run[0].loops, ByLoopSpare(t));
      TotalZero(run[0].threads, ByThreadSpare(t));
    } else {
      DoneIsKept(run, acts, k - 1, t);
      RunHeld(run, acts, k - 1, t);
      assert StepAt(run, acts, k - 1);
      StepKept(run[k - 1], acts[k - 1], t);
    }
  }

  /** Done, and nobody keeps its struct. */
  ghost predicate Lost(s: Sys, t: nat) {
    At(s, t).state == Done && Finishing(s, t) + Spares(s, t) == 0
  }

  lemma Forsaken(s: Sys, a: Action, t: nat)
    requires Shape(s) && Enabled(s, a) && Held(s, t) && Forsakes(s, a, t)
    ensures Lost(Apply(s, a), t)
  {
    NotRunBy(s, a.l, t);
    AfterRunner(s, Apply(s, a), a.l, Idle, t);
  }

  lemma StaysLost(s: Sys, a: Action, t: nat)
    requires Shape(s) && Enabled(s, a) && Held(s, t) && Lost(s, t)
    ensures Lost(Apply(s, a), t)
  {
    forall i | 0 <= i < |s.threads|
      ensures !Spawns(s.threads[i], t)
    {
      NotHeldBy(s, i, t);
    }
    forall l | 0 <= l < |s.loops|
      ensures RunnerRuns(s.loops[l].runner, t) == 0 && s.loops[l].runner != Finish(t)
    {
      NotRunBy(s, l, t);
    }
    OverStays(s, a, t);
    match a {
      case Advance(i, p) => AdvanceKeepers(s, i, p, t);
      case Turn(l, p) => TurnKeepers(s, l, p, t);
      case SpawnFail(i) => AfterThread(s, Apply(s, a), i, t);
      case _ => PickKeepers(s, a, t);
    }
    if !a.SpawnFail? {
      SameKept(s, Apply(s, a), t);
    }
  }

  /** A struct left to the end is not spawned again. */
  lemma {:induction false} ForsakenForGood(run: seq<Sys>, acts: seq<Action>, k: nat, m: nat, t: nat)
    requires IsRun(run, acts) && k < m <= |acts| && Forsakes(run[k], acts[k], t)
    ensures Lost(run[m], t) && (m < |acts| ==> !(acts[m].SpawnPop? && acts[m].t == t))
  {
    RunHeld(run, acts, m - 1, t);
    assert StepAt(run, acts, m - 1);
    if m == k + 1 {
      Forsaken(run[k], acts[k], t);
    } else {
      ForsakenForGood(run, acts, k, m - 1, t);
      StaysLost(run[m - 1], acts[m - 1], t);
    }
    assert m < |acts| ==> StepAt(run, acts, m);
  }
}
