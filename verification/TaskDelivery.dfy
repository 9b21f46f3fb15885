/**
  Wake delivery.  A wake that finds its task not PARKED leaves a latch; whoever
  takes the latch must see to it that the task runs again.  The latch is never
  left on a parked task with nobody about to look at it, and a wake is lost by
  exactly one kind of step: a party that saw an earlier park takes the latch after
  the task has started to run again.
*/
module TaskDelivery {
  import opened Tally
  import opened TaskSched
  import opened TaskHolders

  /** Threads inside a wake of t that have not stored their latch yet. */
  function InClaim(t: nat): Thread -> nat {
    (th: Thread) => if th.Claim? || th.Latch? then Is(th.t, t) else 0
  }

  /** Threads between their latch store and their exchange. */
  function InLook(t: nat): Thread -> nat {
    (th: Thread) => if th.Look? || th.Take? then Is(th.t, t) else 0
  }

  function InRetry(t: nat): Thread -> nat {
    (th: Thread) => if th.Retry? then Is(th.t, t) else 0
  }

  function InRecheck(t: nat): Loop -> nat {
    (lp: Loop) => if lp.runner.Recheck? then Is(lp.runner.t, t) else 0
  }

  function InReclaim(t: nat): Loop -> nat {
    (lp: Loop) => if lp.runner.Reclaim? then Is(lp.runner.t, t) else 0
  }

  function InRearm(t: nat): Loop -> nat {
    (lp: Loop) => if lp.runner.Rearm? then Is(lp.runner.t, t) else 0
  }

  /** Wakers that will still try to claim or latch t. */
  ghost function Claimers(s: Sys, t: nat): nat {
    Total(s.threads, InClaim(t))
  }

  /** Parties that will still look at t's latch though t may be parked. */
  ghost function Lookers(s: Sys, t: nat): nat {
    Total(s.threads, InLook(t)) + Total(s.loops, InRecheck(t))
  }

  /** Parties that took the latch and will try to move t from PARKED. */
  ghost function Retriers(s: Sys, t: nat): nat {
    Total(s.threads, InRetry(t)) + Total(s.loops, InReclaim(t))
  }

  /** Loops that took the latch at a PENDING verdict. */
  ghost function Rearmers(s: Sys, t: nat): nat {
    Total(s.loops, InRearm(t))
  }

  /** A latched wake of a parked task has someone obliged to look. */
  ghost predicate Watched(s: Sys, t: nat) {
    At(s, t).state == Parked && At(s, t).latch ==> Lookers(s, t) > 0
  }

  /** A wake that began since t last started to run is still on its way. */
  ghost predicate Promised(s: Sys, t: nat) {
    At(s, t).owed && At(s, t).state != Done ==>
      || At(s, t).state == Scheduled
      || At(s, t).latch
      || Claimers(s, t) > 0
      || (At(s, t).state == Running && Rearmers(s, t) > 0)
      || (At(s, t).state == Parked && Retriers(s, t) > 0)
  }

  /** The step takes t's latch. */
  ghost predicate Takes(s: Sys, a: Action, t: nat) {
    || (a.Advance? && a.i < |s.threads| && s.threads[a.i].Take? && s.threads[a.i].t == t)
    || (a.Turn? && a.l < |s.loops| && s.loops[a.l].runner.Recheck? && s.loops[a.l].runner.t == t)
  }

  /** The step loses a wake: it takes t's latch on the strength of an earlier park
      while t runs, and nothing else would still deliver the wake. */
  ghost predicate LosesWake(s: Sys, a: Action, t: nat) {
    && Takes(s, a, t)
    && At(s, t).state == Running && At(s, t).latch && At(s, t).owed
    && Claimers(s, t) == 0 && Rearmers(s, t) == 0
  }

  lemma ThreadCounts(s: Sys, s': Sys, i: nat, t: nat)
    requires i < |s.threads| && |s'.threads| == |s.threads|
    requires s'.threads == s.threads[i := s'.threads[i]]
    ensures Total(s'.threads, InClaim(t)) + InClaim(t)(s.threads[i])
      == Total(s.threads, InClaim(t)) + InClaim(t)(s'.threads[i])
    ensures Total(s'.threads, InLook(t)) + InLook(t)(s.threads[i])
      == Total(s.threads, InLook(t)) + InLook(t)(s'.threads[i])
    ensures Total(s'.threads, InRetry(t)) + InRetry(t)(s.threads[i])
      == Total(s.threads, InRetry(t)) + InRetry(t)(s'.threads[i])
  {
    TotalUpdate(s.threads, InClaim(t), i, s'.threads[i]);
    TotalUpdate(s.threads, InLook(t), i, s'.threads[i]);
    TotalUpdate(s.threads, InRetry(t), i, s'.threads[i]);
  }

  lemma LoopCounts(s: Sys, s': Sys, l: nat, t: nat)
    requires l < |s.loops| && |s'.loops| == |s.loops|
    requires s'.loops == s.loops[l := s'.loops[l]]
    ensures Total(s'.loops, InRecheck(t)) + InRecheck(t)(s.loops[l])
      == Total(s.loops, InRecheck(t)) + InRecheck(t)(s'.loops[l])
    ensures Total(s'.loops, InReclaim(t)) + InReclaim(t)(s.loops[l])
      == Total(s.loops, InReclaim(t)) + InReclaim(t)(s'.loops[l])
    ensures Total(s'.loops, InRearm(t)) + InRearm(t)(s.loops[l]) == Total(s.loops, InRearm(t)) + InRearm(t)(s'.loops[l])
  {
    TotalUpdate(s.loops, InRecheck(t), l, s'.loops[l]);
    TotalUpdate(s.loops, InReclaim(t), l, s'.loops[l]);
    TotalUpdate(s.loops, InRearm(t), l, s'.loops[l]);
  }

  /** What a step must do for the two properties to survive it. */
  ghost predicate Follows(s: Sys, s': Sys, a: Action, t: nat) {
    && (Watched(s, t) ==> Watched(s', t))
    && (Promised(s, t) ==> (Promised(s', t) <==> !LosesWake(s, a, t)))
  }

  lemma LatchFollows(s: Sys, i: nat, p: Place, t: nat)
    requires Shape(s) && i < |s.threads| && Held(s, t) && (s.threads[i].Claim? || s.threads[i].Latch?)
    ensures Follows(s, AdvanceThread(s, i, p), Advance(i, p), t)
  {
    ThreadCounts(s, AdvanceThread(s, i, p), i, t);
  }

  lemma LookFollows(s: Sys, i: nat, p: Place, t: nat)
    requires Shape(s) && i < |s.threads| && Held(s, t)
    requires s.threads[i].Look? || s.threads[i].Retry?
    ensures Follows(s, AdvanceThread(s, i, p), Advance(i, p), t)
  {
    ThreadCounts(s, AdvanceThread(s, i, p), i, t);
  }

  lemma TakeFollows(s: Sys, i: nat, p: Place, t: nat)
    requires Shape(s) && i < |s.threads| && Held(s, t) && s.threads[i].Take?
    ensures Follows(s, AdvanceThread(s, i, p), Advance(i, p), t)
  {
    ThreadCounts(s, AdvanceThread(s, i, p), i, t);
  }

  lemma SpawnFollows(s: Sys, i: nat, p: Place, t: nat)
    requires Shape(s) && i < |s.threads| && Held(s, t)
    requires s.threads[i].Init? || s.threads[i].Clear?
    ensures Follows(s, AdvanceThread(s, i, p), Advance(i, p), t)
  {
    var s' := AdvanceThread(s, i, p);
    ThreadCounts(s, s', i, t);
    AfterThread(s, s', i, t);
  }

  lemma HandOverFollows(s: Sys, i: nat, p: Place, t: nat)
    requires Shape(s) && i < |s.threads|
    requires s.threads[i].Won? || s.threads[i].Publish?
    ensures Follows(s, AdvanceThread(s, i, p), Advance(i, p), t)
  {
    HandOverCounts(s, i, p, t);
  }

  lemma HandOverCounts(s: Sys, i: nat, p: Place, t: nat)
    requires Shape(s) && i < |s.threads|
    requires s.threads[i].Won? || s.threads[i].Publish?
    ensures var s' := AdvanceThread(s, i, p);
      Claimers(s', t) == Claimers(s, t) && Lookers(s', t) == Lookers(s, t) &&
      Retriers(s', t) == Retriers(s, t) && Rearmers(s', t) == Rearmers(s, t)
  {
    var s' := AdvanceThread(s, i, p);
    ThreadCounts(s, s', i, t);
    var th := s.threads[i];
    var l := if th.Won? then th.l else s.home(th.t);
    assert th.Won? ==> Aim(th) == l;
    LoopCounts(s, s', l, t);
  }

  /** A loop that runs t without having taken its latch is the only one running it. */
  lemma NoRearm(s: Sys, l: nat, t: nat)
    requires l < |s.loops| && Held(s, t)
    requires RunnerRuns(s.loops[l].runner, t) == 1 && !s.loops[l].runner.Rearm?
    ensures At(s, t).state == Running && Rearmers(s, t) == 0
  {
    TotalUpdate(s.loops, ByLoopRuns(t), l, s.loops[l]);
    if Rearmers(s, t) > 0 {
      var m := TotalHolder(s.loops, InRearm(t));
      if l < m {
        TotalPair(s.loops, ByLoopRuns(t), l, m);
      } else {
        TotalPair(s.loops, ByLoopRuns(t), m, l);
      }
    }
  }

  lemma PendFollows(s: Sys, l: nat, p: Place, t: nat)
    requires l < |s.loops| && Held(s, t)
    requires s.loops[l].runner.Pend? || s.loops[l].runner.Rearm?
    ensures Follows(s, TurnLoop(s, l, p), Turn(l, p), t)
  {
    LoopCounts(s, TurnLoop(s, l, p), l, t);
    TotalUpdate(s.loops, ByLoopRuns(t), l, s.loops[l]);
  }

  lemma ParkFollows(s: Sys, l: nat, p: Place, t: nat)
    requires l < |s.loops| && Held(s, t)
    requires s.loops[l].runner.Park?
    ensures Follows(s, TurnLoop(s, l, p), Turn(l, p), t)
  {
    LoopCounts(s, TurnLoop(s, l, p), l, t);
    if s.loops[l].runner == Park(t) {
      NoRearm(s, l, t);
    }
  }

  lemma RecheckFollows(s: Sys, l: nat, p: Place, t: nat)
    requires l < |s.loops|
    requires s.loops[l].runner.Recheck? || s.loops[l].runner.Reclaim?
    ensures Follows(s, TurnLoop(s, l, p), Turn(l, p), t)
  {
    LoopCounts(s, TurnLoop(s, l, p), l, t);
  }

  lemma StartFollows(s: Sys, l: nat, p: Place, t: nat)
    requires l < |s.loops| && Held(s, t)
    requires s.loops[l].runner.Popped? || s.loops[l].runner.Finish?
    ensures Follows(s, TurnLoop(s, l, p), Turn(l, p), t)
  {
    LoopCounts(s, TurnLoop(s, l, p), l, t);
  }

  lemma QueueFollows(s: Sys, l: nat, p: Place, t: nat)
    requires l < |s.loops|
    requires s.loops[l].runner.Drain? || s.loops[l].runner.DrainPub? || s.loops[l].runner.Requeue?
      || s.loops[l].runner.Stolen?
    ensures Follows(s, TurnLoop(s, l, p), Turn(l, p), t)
  {
    LoopCounts(s, TurnLoop(s, l, p), l, t);
  }

  lemma ReturnFollows(s: Sys, l: nat, v: Verdict, t: nat)
    requires l < |s.loops| && s.loops[l].runner.Run? && Held(s, t)
    ensures Follows(s, ReturnFrom(s, l, v), Return(l, v), t)
  {
    LoopCounts(s, ReturnFrom(s, l, v), l, t);
  }

  lemma PickFollows(s: Sys, a: Action, t: nat)
    requires Shape(s) && Enabled(s, a)
    requires a.TakePub? || a.PopOwned? || a.PopDeque? || a.Abandon?
    ensures Follows(s, Apply(s, a), a, t)
  {
    LoopCounts(s, Apply(s, a), a.l, t);
  }

  lemma StealFollows(s: Sys, l: nat, v: nat, t: nat)
    requires Shape(s) && Enabled(s, Steal(l, v))
    ensures Follows(s, Apply(s, Steal(l, v)), Steal(l, v), t)
  {
    var mid := SetLoop(s, v, s.loops[v].(deque := s.loops[v].deque[1..]));
    LoopCounts(s, mid, v, t);
    LoopCounts(mid, Apply(s, Steal(l, v)), l, t);
  }

  lemma BeginFollows(s: Sys, a: Action, t: nat)
    requires Shape(s) && Enabled(s, a) && (a.WakeBegin? || a.SpawnPop? || a.SpawnFail?)
    ensures Follows(s, Apply(s, a), a, t)
  {
    ThreadCounts(s, Apply(s, a), a.i, t);
  }

  /** Over one step, a latch on a parked task keeps its watcher, and a wake on its
      way stays on its way if and only if the step is not the losing one. */
  lemma StepFollows(s: Sys, a: Action, t: nat)
    requires Shape(s) && Enabled(s, a) && Held(s, t)
    ensures Follows(s, Apply(s, a), a, t)
  {
    match a
    case WakeBegin(_, _, _) => BeginFollows(s, a, t);
    case SpawnPop(_, _) => BeginFollows(s, a, t);
    case SpawnFail(_) => BeginFollows(s, a, t);
    case Advance(i, p) =>
      if s.threads[i].Won? || s.threads[i].Publish? {
        HandOverFollows(s, i, p, t);
      } else if s.threads[i].Init? || s.threads[i].Clear? {
        SpawnFollows(s, i, p, t);
      } else if s.threads[i].Claim? || s.threads[i].Latch? {
        LatchFollows(s, i, p, t);
      } else if s.threads[i].Take? {
        TakeFollows(s, i, p, t);
      } else {
        LookFollows(s, i, p, t);
      }
    case TakePub(_) => PickFollows(s, a, t);
    case PopOwned(_, _) => PickFollows(s, a, t);
    case PopDeque(_) => PickFollows(s, a, t);
    case Steal(l, v) => StealFollows(s, l, v, t);
    case Return(l, v) => ReturnFollows(s, l, v, t);
    case Abandon(_) => PickFollows(s, a, t);
    case Turn(l, p) =>
      var r := s.loops[l].runner;
      if r.Pend? || r.Rearm? {
        PendFollows(s, l, p, t);
      } else if r.Park? {
        ParkFollows(s, l, p, t);
      } else if r.Recheck? || r.Reclaim? {
        RecheckFollows(s, l, p, t);
      } else if r.Popped? || r.Finish? {
        StartFollows(s, l, p, t);
      } else {
        QueueFollows(s, l, p, t);
      }
  }

  /** No party is in the middle of a wake or a park of t. */
  ghost predicate Settled(s: Sys, t: nat) {
    Claimers(s, t) == 0 && Lookers(s, t) == 0 && Retriers(s, t) == 0 && Rearmers(s, t) == 0
  }

  /** In every reachable state, a parked task with its latch set has a party obliged
      to look at it. */
  lemma {:induction false} AlwaysWatched(run: seq<Sys>, acts: seq<Action>, k: nat, t: nat)
    requires IsRun(run, acts) && k < |run|
    ensures Watched(run[k], t)
  {
    if k > 0 {
      AlwaysWatched(run, acts, k - 1, t);
      assert StepAt(run, acts, k - 1);
      RunHeld(run, acts, k - 1, t);
      StepFollows(run[k - 1], acts[k - 1], t);
    }
  }

  /** A wake is on its way in every state of a run none of whose steps is a losing
      one. */
  lemma {:induction false} AlwaysPromised(run: seq<Sys>, acts: seq<Action>, k: nat, t: nat)
    requires IsRun(run, acts) && k < |run|
    requires forall j :: 0 <= j < k ==> !LosesWake(run[j], acts[j], t)
    ensures Promised(run[k], t)
  {
    if k > 0 {
      AlwaysPromised(run, acts, k - 1, t);
      assert StepAt(run, acts, k - 1);
      RunHeld(run, acts, k - 1, t);
      StepFollows(run[k - 1], acts[k - 1], t);
    }
  }

  /** Once nobody is busy with t, a parked t has no latch left; and every wake begun
      since t last started to run has been followed by another run, unless the run
      took a losing step. */
  lemma SettledParked(run: seq<Sys>, acts: seq<Action>, k: nat, t: nat)
    requires IsRun(run, acts) && k < |run|
    requires Settled(run[k], t) && At(run[k], t).state == Parked
    ensures !At(run[k], t).latch
    ensures At(run[k], t).owed ==> exists j :: 0 <= j < k && LosesWake(run[j], acts[j], t)
  {
    AlwaysWatched(run, acts, k, t);
    if At(run[k], t).owed && forall j :: 0 <= j < k ==> !LosesWake(run[j], acts[j], t) {
      AlwaysPromised(run, acts, k, t);
    }
  }
  /** No waker that saw t parked is still about to take the latch while t runs. */
  ghost predicate NoStaleWaker(s: Sys, t: nat) {
    At(s, t).state == Running ==> forall i :: 0 <= i < |s.threads| && s.threads[i].Take? ==> s.threads[i].t != t
  }

  /** No loop that parked t is still about to check its latch again while t runs. */
  ghost predicate NoStaleLoop(s: Sys, t: nat) {
    At(s, t).state == Running ==> forall l :: 0 <= l < |s.loops| ==> s.loops[l].runner != Recheck(t)
  }

  /** Wake delivery for any task: in a run with no stale waker and no stale loop, a
      parked task that nobody is busy with has run again after every wake. */
  lemma Delivery(run: seq<Sys>, acts: seq<Action>, k: nat, t: nat)
    requires IsRun(run, acts) && k < |run|
    requires forall j :: 0 <= j < k ==> NoStaleWaker(run[j], t) && NoStaleLoop(run[j], t)
    requires Settled(run[k], t) && At(run[k], t).state == Parked
    ensures !At(run[k], t).owed
  {
    SettledParked(run, acts, k, t);
  }
}
