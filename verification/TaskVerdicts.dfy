/**
  What becomes of a task's verdict, over whole runs and from the actions alone.  A
  task that asks to run again is ready, once, until a loop starts it; a task is done
  only if it said so, and is then not run again before its struct is spawned anew;
  and every start of a task is paid for by a spawn, by its asking to run again or by
  a wake, each of which pays at most once.
*/
module TaskVerdicts {
  import opened Tally
  import opened TaskSched
  import opened TaskHolders
  import opened TaskDelivery

  /** The task function of t returns v at this step. */
  ghost predicate Says(s: Sys, a: Action, t: nat, v: Verdict) {
    a.Return? && a.verdict == v && a.l < |s.loops| && s.loops[a.l].runner.Run? && s.loops[a.l].runner.t == t
  }

  /** A loop starts to run t. */
  ghost predicate Starts(s: Sys, a: Action, t: nat) {
    a.Turn? && a.l < |s.loops| && s.loops[a.l].runner.Popped? && s.loops[a.l].runner.t == t
  }

  /** t's struct is in use: on no free list and in nobody's spawn. */
  ghost predicate InUse(s: Sys, t: nat) {
    !At(s, t).free && forall i :: 0 <= i < |s.threads| ==> !Spawns(s.threads[i], t)
  }

  predicate Spawns(th: Thread, t: nat) {
    (th.Init? || th.Clear? || th.Publish?) && th.t == t
  }

  /** What the holder counts say of one loop and one thread. */
  lemma NotRunBy(s: Sys, l: nat, t: nat)
    requires l < |s.loops|
    ensures RunnerRuns(s.loops[l].runner, t) <= Runs(s, t) && LoopReady(s.loops[l], t) <= Ready(s, t)
    ensures RunnerSpare(s.loops[l].runner, t) <= Finishing(s, t)
  {
    AfterLoop(s, s, l, t);
  }

  lemma NotHeldBy(s: Sys, i: nat, t: nat)
    requires i < |s.threads|
    ensures ThreadReady(s.threads[i], t) <= Ready(s, t) && ThreadSpare(s.threads[i], t) <= Spares(s, t)
  {
    AfterThread(s, s, i, t);
  }

  lemma BusyInUse(s: Sys, t: nat)
    requires Held(s, t) && (At(s, t).state == Running || At(s, t).state == Parked)
    ensures InUse(s, t)
  {
    forall i | 0 <= i < |s.threads|
      ensures !Spawns(s.threads[i], t)
    {
      NotHeldBy(s, i, t);
    }
  }

  lemma NoneSpawns(s: Sys, a: Action, t: nat)
    requires Shape(s) && Enabled(s, a) && !(a.SpawnPop? && a.t == t)
    requires forall i :: 0 <= i < |s.threads| ==> !Spawns(s.threads[i], t)
    ensures forall i :: 0 <= i < |Apply(s, a).threads| ==> !Spawns(Apply(s, a).threads[i], t)
  {
    var r := Apply(s, a).threads;
    if a.Advance? || a.WakeBegin? || a.SpawnPop? || a.SpawnFail? {
      assert r == s.threads[a.i := r[a.i]];
      assert !Spawns(s.threads[a.i], t);
      assert !Spawns(r[a.i], t);
    } else {
      assert r == s.threads;
    }
  }

  /** In use a task stays in use, unless it finishes and its struct is kept. */
  lemma StaysInUse(s: Sys, a: Action, t: nat)
    requires Shape(s) && Enabled(s, a) && InUse(s, t) && !(a.Turn? && s.loops[a.l].runner == Finish(t))
    ensures InUse(Apply(s, a), t)
  {
    NoneSpawns(s, a, t);
    if a.SpawnFail? {
      assert !Spawns(s.threads[a.i], t);
    }
  }

  /** How a step may change t's state: by a thread's step ... */
  lemma AdvanceMoves(s: Sys, i: nat, p: Place, t: nat)
    requires Shape(s) && Enabled(s, Advance(i, p)) && Held(s, t)
    ensures At(AdvanceThread(s, i, p), t).state in {At(s, t).state, Scheduled}
    ensures At(s, t).state == Done && !Spawns(s.threads[i], t) ==> At(AdvanceThread(s, i, p), t).state == Done
  {
    NotHeldBy(s, i, t);
  }

  /** ... or a loop's. */
  lemma TurnMoves(s: Sys, l: nat, p: Place, t: nat)
    requires Shape(s) && Enabled(s, Turn(l, p)) && Held(s, t)
    ensures At(TurnLoop(s, l, p), t).state == Running != At(s, t).state <==> Starts(s, Turn(l, p), t)
    ensures At(TurnLoop(s, l, p), t).state == Done <==> At(s, t).state == Done
    ensures At(s, t).state == Scheduled && !Starts(s, Turn(l, p), t) ==>
      At(TurnLoop(s, l, p), t).state == Scheduled
  {
    NotRunBy(s, l, t);
  }

  lemma ReturnMoves(s: Sys, l: nat, v: Verdict, t: nat)
    requires Shape(s) && Enabled(s, Return(l, v)) && Held(s, t)
    ensures s.loops[l].runner.t != t ==> At(ReturnFrom(s, l, v), t).state == At(s, t).state
    ensures s.loops[l].runner.t == t ==>
      && At(s, t).state == Running
      && At(ReturnFrom(s, l, v), t).state
           == match v case SayDone => Done case SayResched => Scheduled case SayPending => Running
  {
    NotRunBy(s, l, t);
  }

  lemma StateMoves(s: Sys, a: Action, t: nat)
    requires Shape(s) && Enabled(s, a) && Held(s, t)
    ensures At(Apply(s, a), t).state == Done != At(s, t).state <==> Says(s, a, t, SayDone)
    ensures Says(s, a, t, SayDone) ==> At(s, t).state == Running
    ensures Says(s, a, t, SayResched) ==> At(s, t).state == Running && At(Apply(s, a), t).state == Scheduled
    ensures At(Apply(s, a), t).state == Running != At(s, t).state <==> Starts(s, a, t)
    ensures At(s, t).state == Scheduled && !Starts(s, a, t) ==> At(Apply(s, a), t).state == Scheduled
  {
    match a
    case Advance(i, p) => AdvanceMoves(s, i, p, t);
    case Turn(l, p) => TurnMoves(s, l, p, t);
    case Return(l, v) => ReturnMoves(s, l, v, t);
    case _ =>
  }

  /** Ready, in use, and once. */
  ghost predicate Waiting(s: Sys, t: nat) {
    At(s, t).state == Scheduled && InUse(s, t)
  }

  lemma WaitingOnce(s: Sys, t: nat)
    requires Held(s, t) && Waiting(s, t)
    ensures Ready(s, t) == 1 && Runs(s, t) == 0
  {
    TotalZero(s.threads, ByThreadSpare(t));
  }

  lemma WaitingStays(s: Sys, a: Action, t: nat)
    requires Shape(s) && Enabled(s, a) && Held(s, t) && Waiting(s, t) && !Starts(s, a, t)
    ensures Waiting(Apply(s, a), t)
  {
    StateMoves(s, a, t);
    if a.Turn? {
      NotRunBy(s, a.l, t);
    }
    StaysInUse(s, a, t);
  }

  lemma AskedWaits(s: Sys, a: Action, t: nat)
    requires Shape(s) && Enabled(s, a) && Held(s, t) && Says(s, a, t, SayResched)
    ensures Waiting(Apply(s, a), t)
  {
    StateMoves(s, a, t);
    BusyInUse(s, t);
    StaysInUse(s, a, t);
  }

  lemma WaitsOn(run: seq<Sys>, acts: seq<Action>, k: nat, t: nat)
    requires IsRun(run, acts) && k < |acts|
    requires Says(run[k], acts[k], t, SayResched) || (Waiting(run[k], t) && !Starts(run[k], acts[k], t))
    ensures Waiting(run[k + 1], t) && Ready(run[k + 1], t) == 1
  {
    RunHeld(run, acts, k, t);
    RunHeld(run, acts, k + 1, t);
    assert StepAt(run, acts, k);
    if Says(run[k], acts[k], t, SayResched) {
      AskedWaits(run[k], acts[k], t);
    } else {
      WaitingStays(run[k], acts[k], t);
    }
    WaitingOnce(run[k + 1], t);
  }

  /** A task that asks to run again is ready, once, and not done or parked, until a
      loop starts it. */
  lemma {:induction false} ReschedWaits(run: seq<Sys>, acts: seq<Action>, k: nat, m: nat, t: nat)
    requires IsRun(run, acts) && k < m <= |acts| && Says(run[k], acts[k], t, SayResched)
    requires forall j :: k < j < m ==> !Starts(run[j], acts[j], t)
    ensures Waiting(run[m], t) && Ready(run[m], t) == 1
  {
    if m > k + 1 {
      ReschedWaits(run, acts, k, m - 1, t);
    }
    WaitsOn(run, acts, m - 1, t);
  }

  /** A task becomes done exactly when its function says so. */
  lemma DoneBySaying(run: seq<Sys>, acts: seq<Action>, k: nat, t: nat)
    requires IsRun(run, acts) && k < |acts|
    ensures At(run[k], t).state != Done && At(run[k + 1], t).state == Done <==> Says(run[k], acts[k], t, SayDone)
  {
    RunHeld(run, acts, k, t);
    assert StepAt(run, acts, k);
    StateMoves(run[k], acts[k], t);
  }

  /** Done, and nobody spawns it: its struct may be on a free list. */
  ghost predicate Over(s: Sys, t: nat) {
    At(s, t).state == Done && forall i :: 0 <= i < |s.threads| ==> !Spawns(s.threads[i], t)
  }

  lemma OverStays(s: Sys, a: Action, t: nat)
    requires Shape(s) && Enabled(s, a) && Held(s, t) && Over(s, t) && !(a.SpawnPop? && a.t == t)
    ensures Over(Apply(s, a), t)
  {
    NoneSpawns(s, a, t);
    match a
    case Advance(i, p) => AdvanceMoves(s, i, p, t);
    case Turn(l, p) => TurnMoves(s, l, p, t);
    case Return(l, v) => ReturnMoves(s, l, v, t);
    case _ =>
  }

  lemma SaidOver(s: Sys, a: Action, t: nat)
    requires Shape(s) && Enabled(s, a) && Held(s, t) && Says(s, a, t, SayDone)
    ensures Over(Apply(s, a), t)
  {
    StateMoves(s, a, t);
    BusyInUse(s, t);
    NoneSpawns(s, a, t);
  }

  lemma OverOn(run: seq<Sys>, acts: seq<Action>, k: nat, t: nat)
    requires IsRun(run, acts) && k < |acts|
    requires Says(run[k], acts[k], t, SayDone) || (Over(run[k], t) && !(acts[k].SpawnPop? && acts[k].t == t))
    ensures Over(run[k + 1], t)
  {
    RunHeld(run, acts, k, t);
    assert StepAt(run, acts, k);
    if Says(run[k], acts[k], t, SayDone) {
      SaidOver(run[k], acts[k], t);
    } else {
      OverStays(run[k], acts[k], t);
    }
  }

  /** No loop runs t or has it ready. */
  ghost predicate Untouched(s: Sys, t: nat) {
    forall l :: 0 <= l < |s.loops| ==> RunnerRuns(s.loops[l].runner, t) == 0 && LoopReady(s.loops[l], t) == 0
  }

  lemma OverUntouched(s: Sys, t: nat)
    requires Held(s, t) && Over(s, t)
    ensures Untouched(s, t)
  {
    forall l | 0 <= l < |s.loops|
      ensures RunnerRuns(s.loops[l].runner, t) == 0 && LoopReady(s.loops[l], t) == 0
    {
      NotRunBy(s, l, t);
    }
  }

  /** Once a task has said it is done, it is done and no loop runs it or holds it
      ready, before its struct is spawned anew. */
  lemma {:induction false} DoneIsOver(run: seq<Sys>, acts: seq<Action>, k: nat, m: nat, t: nat)
    requires IsRun(run, acts) && k < m <= |acts| && Says(run[k], acts[k], t, SayDone)
    requires forall j :: k < j < m ==> !(acts[j].SpawnPop? && acts[j].t == t)
    ensures Over(run[m], t) && Untouched(run[m], t)
  {
    if m > k + 1 {
      DoneIsOver(run, acts, k, m - 1, t);
    }
    OverOn(run, acts, m - 1, t);
    RunHeld(run, acts, m, t);
    OverUntouched(run[m], t);
  }

  // --- Every start is paid for --------------------------------------------

  /** Runs of t that a loop or a thread still has to bring about. */
  function RunnerOwes(r: Runner, t: nat): nat {
    RunnerReady(r, t) + if r.Rearm? || r.Reclaim? then Is(r.t, t) else 0
  }

  function LoopOwes(lp: Loop, t: nat): nat {
    Times(lp.owned, t) + Times(lp.deque, t) + Times(lp.pub, t) + Times(lp.wake, t) + RunnerOwes(lp.runner, t)
  }

  function ThreadOwes(th: Thread, t: nat): nat {
    if th.Out? || th.Look? || th.Take? then 0 else Is(th.t, t)
  }

  function ByLoopOwes(t: nat): Loop -> nat { (lp: Loop) => LoopOwes(lp, t) }
  function ByThreadOwes(t: nat): Thread -> nat { (th: Thread) => ThreadOwes(th, t) }

  ghost function Owing(s: Sys, t: nat): nat {
    Total(s.loops, ByLoopOwes(t)) + Total(s.threads, ByThreadOwes(t)) + Bit(At(s, t).latch)
  }

  /** The step pays for a run of t: a wake or a spawn of it begins, or it asks for one. */
  ghost predicate Pays(s: Sys, a: Action, t: nat) {
    (a.WakeBegin? && a.t == t) || (a.SpawnPop? && a.t == t) || Says(s, a, t, SayResched)
  }

  ghost predicate Settles(s: Sys, s': Sys, a: Action, t: nat) {
    Owing(s', t) + Bit(Starts(s, a, t)) <= Owing(s, t) + Bit(Pays(s, a, t))
  }

  /** What a change of one thread, or of one loop, does to the total. */
  lemma ThreadShare(s: Sys, s': Sys, i: nat, t: nat)
    requires i < |s.threads| && |s'.threads| == |s.threads| && s'.loops == s.loops
    requires s'.threads == s.threads[i := s'.threads[i]]
    ensures Owing(s', t) + ThreadOwes(s.threads[i], t) + Bit(At(s, t).latch)
      == Owing(s, t) + ThreadOwes(s'.threads[i], t) + Bit(At(s', t).latch)
  {
    TotalUpdate(s.threads, ByThreadOwes(t), i, s'.threads[i]);
  }

  lemma LoopShare(s: Sys, s': Sys, l: nat, t: nat)
    requires l < |s.loops| && |s'.loops| == |s.loops| && s'.threads == s.threads
    requires s'.loops == s.loops[l := s'.loops[l]]
    ensures Owing(s', t) + LoopOwes(s.loops[l], t) + Bit(At(s, t).latch)
      == Owing(s, t) + LoopOwes(s'.loops[l], t) + Bit(At(s', t).latch)
  {
    TotalUpdate(s.loops, ByLoopOwes(t), l, s'.loops[l]);
  }

  lemma RunnerShare(s: Sys, s': Sys, l: nat, r: Runner, t: nat)
    requires l < |s.loops| && s'.threads == s.threads && s'.loops == s.loops[l := s.loops[l].(runner := r)]
    ensures Owing(s', t) + RunnerOwes(s.loops[l].runner, t) + Bit(At(s, t).latch)
      == Owing(s, t) + RunnerOwes(r, t) + Bit(At(s', t).latch)
  {
    LoopShare(s, s', l, t);
  }

  lemma ThreadSettles(s: Sys, a: Action, t: nat)
    requires Shape(s) && Enabled(s, a) && (a.WakeBegin? || a.SpawnPop? || a.SpawnFail?)
    ensures Settles(s, Apply(s, a), a, t)
  {
    ThreadShare(s, Apply(s, a), a.i, t);
  }

  lemma AdvanceSettles(s: Sys, i: nat, p: Place, t: nat)
    requires Shape(s) && Enabled(s, Advance(i, p)) && !s.threads[i].Won? && !s.threads[i].Publish?
    ensures Settles(s, AdvanceThread(s, i, p), Advance(i, p), t)
  {
    ThreadShare(s, AdvanceThread(s, i, p), i, t);
  }

  lemma HandOverSettles(s: Sys, i: nat, p: Place, t: nat)
    requires Shape(s) && Enabled(s, Advance(i, p)) && (s.threads[i].Won? || s.threads[i].Publish?)
    ensures Settles(s, AdvanceThread(s, i, p), Advance(i, p), t)
  {
    var s' := AdvanceThread(s, i, p);
    var th := s.threads[i];
    var l := if th.Won? then th.l else s.home(th.t);
    assert th.Won? ==> Aim(th) == l;
    var mid := s.(loops := s'.loops);
    LoopShare(s, mid, l, t);
    ThreadShare(mid, s', i, t);
    if th.Publish? && p.Inbox? {
      TimesConcat(s.loops[l].pub, [th.t], t);
    } else {
      QueueHolds(s.loops[l], th.t, p, t);
    }
  }

  lemma PopSettles(s: Sys, a: Action, t: nat)
    requires Shape(s) && Enabled(s, a) && (a.PopOwned? || a.PopDeque?)
    ensures Settles(s, Apply(s, a), a, t)
  {
    LoopShare(s, Apply(s, a), a.l, t);
    if a.PopOwned? {
      CutHolds(s.loops[a.l].owned, a.k, t);
    }
  }

  lemma TakePubSettles(s: Sys, l: nat, t: nat)
    requires Shape(s) && Enabled(s, TakePub(l))
    ensures Settles(s, Apply(s, TakePub(l)), TakePub(l), t)
  {
    LoopShare(s, Apply(s, TakePub(l)), l, t);
  }

  lemma ReturnSettles(s: Sys, l: nat, v: Verdict, t: nat)
    requires Shape(s) && Enabled(s, Return(l, v))
    ensures Settles(s, ReturnFrom(s, l, v), Return(l, v), t)
  {
    RunnerShare(s, ReturnFrom(s, l, v), l, ReturnFrom(s, l, v).loops[l].runner, t);
  }

  lemma AbandonSettles(s: Sys, l: nat, t: nat)
    requires Shape(s) && Enabled(s, Abandon(l))
    ensures Settles(s, Apply(s, Abandon(l)), Abandon(l), t)
  {
    RunnerShare(s, SetRunner(s, l, Idle), l, Idle, t);
  }

  lemma StealSettles(s: Sys, l: nat, v: nat, t: nat)
    requires Shape(s) && Enabled(s, Steal(l, v))
    ensures Settles(s, Apply(s, Steal(l, v)), Steal(l, v), t)
  {
    var d := s.loops[v].deque;
    var mid := SetLoop(s, v, s.loops[v].(deque := d[1..]));
    LoopShare(s, mid, v, t);
    assert mid.loops[l] == s.loops[l];
    RunnerShare(mid, Apply(s, Steal(l, v)), l, Stolen(d[0]), t);
  }

  lemma QueueSettles(s: Sys, l: nat, p: Place, t: nat)
    requires l < |s.loops| && (QueuedBy(s.loops[l].runner) != {} || s.loops[l].runner.DrainPub?)
    ensures Settles(s, TurnLoop(s, l, p), Turn(l, p), t)
  {
    var lp := s.loops[l];
    LoopShare(s, TurnLoop(s, l, p), l, t);
    match lp.runner
    case DrainPub(c) => TimesConcat(c, lp.wake, t);
    case Drain(c) => QueueHolds(lp, c[0], p, t);
    case Requeue(u) => QueueHolds(lp, u, p, t);
    case Stolen(u) => QueueHolds(lp, u, p, t);
  }

  lemma LatchSettles(s: Sys, l: nat, p: Place, t: nat)
    requires l < |s.loops|
    requires s.loops[l].runner.Pend? || s.loops[l].runner.Rearm? || s.loops[l].runner.Park?
      || s.loops[l].runner.Recheck? || s.loops[l].runner.Reclaim?
    ensures Settles(s, TurnLoop(s, l, p), Turn(l, p), t)
  {
    RunnerShare(s, TurnLoop(s, l, p), l, TurnLoop(s, l, p).loops[l].runner, t);
  }

  lemma StartSettles(s: Sys, l: nat, p: Place, t: nat)
    requires l < |s.loops|
    requires s.loops[l].runner == Drain([]) || s.loops[l].runner.Popped? || s.loops[l].runner.Finish?
    ensures Settles(s, TurnLoop(s, l, p), Turn(l, p), t)
  {
    RunnerShare(s, TurnLoop(s, l, p), l, TurnLoop(s, l, p).loops[l].runner, t);
  }

  lemma StepSettles(s: Sys, a: Action, t: nat)
    requires Shape(s) && Enabled(s, a)
    ensures Settles(s, Apply(s, a), a, t)
  {
    match a
    case WakeBegin(_, _, _) => ThreadSettles(s, a, t);
    case SpawnPop(_, _) => ThreadSettles(s, a, t);
    case SpawnFail(_) => ThreadSettles(s, a, t);
    case Advance(i, p) =>
      if s.threads[i].Won? || s.threads[i].Publish? {
        HandOverSettles(s, i, p, t);
      } else {
        AdvanceSettles(s, i, p, t);
      }
    case Steal(l, v) => StealSettles(s, l, v, t);
    case Turn(l, p) =>
      if QueuedBy(s.loops[l].runner) != {} || s.loops[l].runner.DrainPub? {
        QueueSettles(s, l, p, t);
      } else if s.loops[l].runner.Drain? || s.loops[l].runner.Popped? || s.loops[l].runner.Finish? {
        StartSettles(s, l, p, t);
      } else {
        LatchSettles(s, l, p, t);
      }
    case TakePub(l) => TakePubSettles(s, l, t);
    case Return(l, v) => ReturnSettles(s, l, v, t);
    case Abandon(l) => AbandonSettles(s, l, t);
    case _ => PopSettles(s, a, t);
  }

  /** How often t has been started, and how often a run of it has been paid for, in the
      first k steps. */
  ghost function Started(run: seq<Sys>, acts: seq<Action>, t: nat, k: nat): nat
    requires k <= |acts| <= |run|
  {
    if k == 0 then 0 else Started(run, acts, t, k - 1) + Bit(Starts(run[k - 1], acts[k - 1], t))
  }

  ghost function Paid(run: seq<Sys>, acts: seq<Action>, t: nat, k: nat): nat
    requires k <= |acts| <= |run|
  {
    if k == 0 then 0 else Paid(run, acts, t, k - 1) + Bit(Pays(run[k - 1], acts[k - 1], t))
  }

  /** No task runs for nothing: with no latch set at the outset, it has been started at
      most once for each wake, each spawn and each time it asked, and the runs still on
      their way come on top. */
  lemma {:induction false} StartsArePaid(run: seq<Sys>, acts: seq<Action>, k: nat, t: nat)
    requires IsRun(run, acts) && k <= |acts|
    ensures Started(run, acts, t, k) + Owing(run[k], t) <= Paid(run, acts, t, k) + Bit(At(run[0], t).latch)
  {
    if k == 0 {
      TotalZero(run[0].loops, ByLoopOwes(t));
      TotalZero(run[0].threads, ByThreadOwes(t));
    } else {
      StartsArePaid(run, acts, k - 1, t);
      assert StepAt(run, acts, k - 1);
      StepSettles(run[k - 1], acts[k - 1], t);
    }
  }

  lemma RanMoves(s: Sys, a: Action)
    requires Shape(s) && Enabled(s, a)
    ensures Apply(s, a).ran ==
      if a.Turn? && s.loops[a.l].runner.Popped? then s.ran + {(s.loops[a.l].runner.t, a.l)} else s.ran
  {
  }

  /** A loop has run t by k if and only if it has started it before: the loops a wake
      of t may name. */
  lemma {:induction false} RanIsRecord(run: seq<Sys>, acts: seq<Action>, k: nat, t: nat, l: nat)
    requires IsRun(run, acts) && k <= |acts|
    ensures (t, l) in run[k].ran <==> exists j :: 0 <= j < k && Starts(run[j], acts[j], t) && acts[j].l == l
  {
    if k > 0 {
      RanIsRecord(run, acts, k - 1, t, l);
      assert StepAt(run, acts, k - 1);
      RanMoves(run[k - 1], acts[k - 1]);
    }
  }
}
