/**
  Who holds a task.  A task that is SCHEDULED or RUNNING has exactly one holder
  and a PARKED or DONE task has none, in every reachable state: no task is ever
  queued twice or run on two loops, and one inbox link per task is enough.
*/
module TaskHolders {
  import opened ArraySeq
  import opened Tally
  import opened TaskSched

  /** How often a runner holds t ready to run. */
  function RunnerReady(r: Runner, t: nat): nat {
    match r
    case DrainPub(c) => Times(c, t)
    case Drain(c) => Times(c, t)
    case Popped(u) => Is(u, t)
    case Requeue(u) => Is(u, t)
    case Stolen(u) => Is(u, t)
    case _ => 0
  }

  function LoopReady(lp: Loop, t: nat): nat {
    Times(lp.owned, t) + Times(lp.deque, t) + Times(lp.pub, t) + Times(lp.wake, t) + RunnerReady(lp.runner, t)
  }

  /** Whether a runner is running t. */
  function RunnerRuns(r: Runner, t: nat): nat {
    if r.Run? || r.Pend? || r.Rearm? || r.Park? then Is(r.t, t) else 0
  }

  /** Whether t's struct is on its way to a free list. */
  function RunnerSpare(r: Runner, t: nat): nat {
    if r.Finish? then Is(r.t, t) else 0
  }

  function ThreadReady(th: Thread, t: nat): nat {
    if th.Won? || th.Clear? || th.Publish? then Is(th.t, t) else 0
  }

  function ThreadSpare(th: Thread, t: nat): nat {
    if th.Init? then Is(th.t, t) else 0
  }

  function ByLoopReady(t: nat): Loop -> nat { (lp: Loop) => LoopReady(lp, t) }
  function ByLoopRuns(t: nat): Loop -> nat { (lp: Loop) => RunnerRuns(lp.runner, t) }
  function ByLoopSpare(t: nat): Loop -> nat { (lp: Loop) => RunnerSpare(lp.runner, t) }
  function ByThreadReady(t: nat): Thread -> nat { (th: Thread) => ThreadReady(th, t) }
  function ByThreadSpare(t: nat): Thread -> nat { (th: Thread) => ThreadSpare(th, t) }

  /** The holders of t that have it ready to run, that run it, and that keep its
      struct for reuse. */
  ghost function Ready(s: Sys, t: nat): nat {
    Total(s.loops, ByLoopReady(t)) + Total(s.threads, ByThreadReady(t))
  }

  ghost function Runs(s: Sys, t: nat): nat {
    Total(s.loops, ByLoopRuns(t))
  }

  ghost function Spares(s: Sys, t: nat): nat {
    Total(s.threads, ByThreadSpare(t)) + Bit(At(s, t).free)
  }

  /** Loops about to recycle t's struct. */
  ghost function Finishing(s: Sys, t: nat): nat {
    Total(s.loops, ByLoopSpare(t))
  }

  /** The holders each state calls for.  A struct whose publish failed for want of
      inbox credit goes back to the spare list still SCHEDULED. */
  ghost predicate Held(s: Sys, t: nat) {
    match At(s, t).state
    case Scheduled => Runs(s, t) == 0 && Finishing(s, t) == 0 && Ready(s, t) + Spares(s, t) == 1
    case Running => Runs(s, t) == 1 && Finishing(s, t) == 0 && Ready(s, t) == 0 && Spares(s, t) == 0
    case Parked => Runs(s, t) == 0 && Finishing(s, t) == 0 && Ready(s, t) == 0 && Spares(s, t) == 0
    case Done => Runs(s, t) == 0 && Ready(s, t) == 0 && Finishing(s, t) + Spares(s, t) <= 1
  }

  /** What t's counts become when only thread i and t's flags change. */
  lemma AfterThread(s: Sys, s': Sys, i: nat, t: nat)
    requires i < |s.threads| && |s'.threads| == |s.threads| && s'.loops == s.loops
    requires s'.threads == s.threads[i := s'.threads[i]]
    ensures Runs(s', t) == Runs(s, t) && Finishing(s', t) == Finishing(s, t)
    ensures Ready(s', t) + ThreadReady(s.threads[i], t) == Ready(s, t) + ThreadReady(s'.threads[i], t)
    ensures Spares(s', t) + ThreadSpare(s.threads[i], t) + Bit(At(s, t).free)
      == Spares(s, t) + ThreadSpare(s'.threads[i], t) + Bit(At(s', t).free)
    ensures ThreadReady(s.threads[i], t) <= Ready(s, t)
      && ThreadSpare(s.threads[i], t) + Bit(At(s, t).free) <= Spares(s, t)
  {
    TotalUpdate(s.threads, ByThreadReady(t), i, s'.threads[i]);
    TotalUpdate(s.threads, ByThreadSpare(t), i, s'.threads[i]);
  }

  /** What t's counts become when only loop l and t's flags change. */
  lemma AfterLoop(s: Sys, s': Sys, l: nat, t: nat)
    requires l < |s.loops| && |s'.loops| == |s.loops| && s'.threads == s.threads
    requires s'.loops == s.loops[l := s'.loops[l]]
    ensures Runs(s', t) + RunnerRuns(s.loops[l].runner, t) == Runs(s, t) + RunnerRuns(s'.loops[l].runner, t)
    ensures Ready(s', t) + LoopReady(s.loops[l], t) == Ready(s, t) + LoopReady(s'.loops[l], t)
    ensures Spares(s', t) + Bit(At(s, t).free) == Spares(s, t) + Bit(At(s', t).free)
    ensures Finishing(s', t) + RunnerSpare(s.loops[l].runner, t) == Finishing(s, t) + RunnerSpare(s'.loops[l].runner, t)
    ensures RunnerRuns(s.loops[l].runner, t) <= Runs(s, t) && LoopReady(s.loops[l], t) <= Ready(s, t)
    ensures RunnerSpare(s.loops[l].runner, t) <= Finishing(s, t) && Bit(At(s, t).free) <= Spares(s, t)
  {
    TotalUpdate(s.loops, ByLoopReady(t), l, s'.loops[l]);
    TotalUpdate(s.loops, ByLoopRuns(t), l, s'.loops[l]);
    TotalUpdate(s.loops, ByLoopSpare(t), l, s'.loops[l]);
  }

  /** What t's counts become when only loop l's runner and t's flags change. */
  lemma AfterRunner(s: Sys, s': Sys, l: nat, r: Runner, t: nat)
    requires l < |s.loops| && s'.threads == s.threads && s'.loops == s.loops[l := s.loops[l].(runner := r)]
    ensures Runs(s', t) + RunnerRuns(s.loops[l].runner, t) == Runs(s, t) + RunnerRuns(r, t)
    ensures Ready(s', t) + RunnerReady(s.loops[l].runner, t) == Ready(s, t) + RunnerReady(r, t)
    ensures Spares(s', t) + Bit(At(s, t).free) == Spares(s, t) + Bit(At(s', t).free)
    ensures Finishing(s', t) + RunnerSpare(s.loops[l].runner, t) == Finishing(s, t) + RunnerSpare(r, t)
    ensures RunnerRuns(s.loops[l].runner, t) <= Runs(s, t) && RunnerReady(s.loops[l].runner, t) <= Ready(s, t)
    ensures RunnerSpare(s.loops[l].runner, t) <= Finishing(s, t) && Bit(At(s, t).free) <= Spares(s, t)
  {
    AfterLoop(s, s', l, t);
  }

  /** Queueing a task adds it to what the loop holds, wherever it is put. */
  lemma QueueHolds(lp: Loop, u: nat, p: Place, t: nat)
    ensures Queue(lp, u, p).runner == lp.runner
    ensures LoopReady(Queue(lp, u, p), t) == LoopReady(lp, t) + Is(u, t)
  {
    TimesConcat(match p case Owned => lp.owned case Deque => lp.deque case Inbox => lp.wake, [u], t);
  }

  lemma CutHolds(q: seq<nat>, k: nat, t: nat)
    requires k < |q|
    ensures Times(q, t) == Times(Cut(q, k), t) + Is(q[k], t)
  {
    assert q == q[..k] + q[k..];
    TimesConcat(q[..k], q[k..], t);
    TimesConcat(q[..k], q[k + 1..], t);
  }

  lemma InitHeld(s: Sys, t: nat)
    requires Init0(s)
    ensures Held(s, t)
  {
    TotalZero(s.loops, ByLoopReady(t));
    TotalZero(s.loops, ByLoopRuns(t));
    TotalZero(s.loops, ByLoopSpare(t));
    TotalZero(s.threads, ByThreadReady(t));
    TotalZero(s.threads, ByThreadSpare(t));
  }

  lemma WakeHeld(s: Sys, i: nat, p: Place, t: nat)
    requires Shape(s) && i < |s.threads| && Held(s, t)
    requires s.threads[i].Claim? || s.threads[i].Latch? || s.threads[i].Look? || s.threads[i].Take?
      || s.threads[i].Retry?
    ensures Held(AdvanceThread(s, i, p), t)
  {
    AfterThread(s, AdvanceThread(s, i, p), i, t);
  }

  lemma SpawnHeld(s: Sys, i: nat, p: Place, t: nat)
    requires Shape(s) && i < |s.threads| && Held(s, t)
    requires s.threads[i].Init? || s.threads[i].Clear?
    ensures Held(AdvanceThread(s, i, p), t)
  {
    AfterThread(s, AdvanceThread(s, i, p), i, t);
  }

  lemma HandOverHeld(s: Sys, i: nat, p: Place, t: nat)
    requires Shape(s) && i < |s.threads| && Held(s, t)
    requires s.threads[i].Won? || s.threads[i].Publish?
    ensures Held(AdvanceThread(s, i, p), t)
  {
    var s' := AdvanceThread(s, i, p);
    var th := s.threads[i];
    var l := if th.Won? then th.l else s.home(th.t);
    var mid := s.(loops := s'.loops);
    AfterLoop(s, mid, l, t);
    AfterThread(mid, s', i, t);
    if th.Publish? && p.Inbox? {
      TimesConcat(s.loops[l].pub, [th.t], t);
    } else {
      QueueHolds(s.loops[l], th.t, p, t);
    }
  }

  /** A loop queues the next task it holds. */
  lemma QueueHeld(s: Sys, l: nat, p: Place, t: nat)
    requires l < |s.loops| && Held(s, t) && QueuedBy(s.loops[l].runner) != {}
    ensures Held(TurnLoop(s, l, p), t)
  {
    var s' := TurnLoop(s, l, p);
    var lp := s.loops[l];
    AfterLoop(s, s', l, t);
    match lp.runner
    case Drain(c) => QueueHolds(lp, c[0], p, t);
    case Requeue(u) => QueueHolds(lp, u, p, t);
    case Stolen(u) => QueueHolds(lp, u, p, t);
  }

  lemma DrainHeld(s: Sys, l: nat, p: Place, t: nat)
    requires l < |s.loops| && Held(s, t) && s.loops[l].runner.DrainPub?
    ensures Held(TurnLoop(s, l, p), t)
  {
    AfterLoop(s, TurnLoop(s, l, p), l, t);
    TimesConcat(s.loops[l].runner.chain, s.loops[l].wake, t);
  }

  lemma StartHeld(s: Sys, l: nat, p: Place, t: nat)
    requires l < |s.loops| && Held(s, t)
    requires s.loops[l].runner == Drain([]) || s.loops[l].runner.Popped? || s.loops[l].runner.Finish?
    ensures Held(TurnLoop(s, l, p), t)
  {
    var s' := TurnLoop(s, l, p);
    AfterRunner(s, s', l, s'.loops[l].runner, t);
  }

  lemma PendHeld(s: Sys, l: nat, p: Place, t: nat)
    requires l < |s.loops| && Held(s, t)
    requires s.loops[l].runner.Pend? || s.loops[l].runner.Rearm? || s.loops[l].runner.Park?
    ensures Held(TurnLoop(s, l, p), t)
  {
    var s' := TurnLoop(s, l, p);
    AfterRunner(s, s', l, s'.loops[l].runner, t);
  }

  lemma RecheckHeld(s: Sys, l: nat, p: Place, t: nat)
    requires l < |s.loops| && Held(s, t)
    requires s.loops[l].runner.Recheck? || s.loops[l].runner.Reclaim?
    ensures Held(TurnLoop(s, l, p), t)
  {
    var s' := TurnLoop(s, l, p);
    AfterRunner(s, s', l, s'.loops[l].runner, t);
  }

  lemma FrontTaken(s: Sys, s': Sys, v: nat, t: nat)
    requires v < |s.loops| && s.loops[v].deque != []
    requires s' == SetLoop(s, v, s.loops[v].(deque := s.loops[v].deque[1..]))
    ensures Runs(s', t) == Runs(s, t) && Finishing(s', t) == Finishing(s, t) && Spares(s', t) == Spares(s, t)
    ensures Ready(s', t) + Is(s.loops[v].deque[0], t) == Ready(s, t)
  {
    AfterLoop(s, s', v, t);
  }

  lemma TakenInHand(s: Sys, l: nat, u: nat, t: nat)
    requires l < |s.loops| && s.loops[l].runner == Idle
    ensures var s' := SetRunner(s, l, Stolen(u));
      Runs(s', t) == Runs(s, t) && Finishing(s', t) == Finishing(s, t) &&
      Spares(s', t) == Spares(s, t) && Ready(s', t) == Ready(s, t) + Is(u, t)
  {
    AfterRunner(s, SetRunner(s, l, Stolen(u)), l, Stolen(u), t);
  }

  lemma StealHeld(s: Sys, l: nat, v: nat, t: nat)
    requires Shape(s) && Enabled(s, Steal(l, v)) && Held(s, t)
    ensures Held(Apply(s, Steal(l, v)), t)
  {
    var d := s.loops[v].deque;
    var mid := SetLoop(s, v, s.loops[v].(deque := d[1..]));
    FrontTaken(s, mid, v, t);
    assert mid.loops[l] == s.loops[l];
    TakenInHand(mid, l, d[0], t);
  }

  lemma PopHeld(s: Sys, l: nat, k: nat, t: nat)
    requires Shape(s) && Enabled(s, PopOwned(l, k)) && Held(s, t)
    ensures Held(Apply(s, PopOwned(l, k)), t)
  {
    AfterLoop(s, Apply(s, PopOwned(l, k)), l, t);
    CutHolds(s.loops[l].owned, k, t);
  }

  lemma BeginHeld(s: Sys, a: Action, t: nat)
    requires Shape(s) && Enabled(s, a) && Held(s, t) && (a.WakeBegin? || a.SpawnPop? || a.SpawnFail?)
    ensures Held(Apply(s, a), t)
  {
    AfterThread(s, Apply(s, a), a.i, t);
  }

  lemma ReturnHeld(s: Sys, l: nat, v: Verdict, t: nat)
    requires l < |s.loops| && s.loops[l].runner.Run? && Held(s, t)
    ensures Held(ReturnFrom(s, l, v), t)
  {
    AfterRunner(s, ReturnFrom(s, l, v), l, ReturnFrom(s, l, v).loops[l].runner, t);
  }

  lemma AbandonHeld(s: Sys, l: nat, t: nat)
    requires l < |s.loops| && s.loops[l].runner.Finish? && Held(s, t)
    ensures Held(SetRunner(s, l, Idle), t)
  {
    AfterRunner(s, SetRunner(s, l, Idle), l, Idle, t);
  }

  lemma PickHeld(s: Sys, a: Action, t: nat)
    requires Shape(s) && Enabled(s, a) && Held(s, t) && (a.TakePub? || a.PopDeque?)
    ensures Held(Apply(s, a), t)
  {
    AfterLoop(s, Apply(s, a), a.l, t);
  }

  /** Every action keeps the holder counts. */
  lemma StepHeld(s: Sys, a: Action, t: nat)
    requires Shape(s) && Enabled(s, a) && Held(s, t)
    ensures Held(Apply(s, a), t)
  {
    match a
    case WakeBegin(_, _, _) => BeginHeld(s, a, t);
    case SpawnPop(_, _) => BeginHeld(s, a, t);
    case SpawnFail(_) => BeginHeld(s, a, t);
    case Advance(i, p) =>
      if s.threads[i].Won? || s.threads[i].Publish? {
        HandOverHeld(s, i, p, t);
      } else if s.threads[i].Init? || s.threads[i].Clear? {
        SpawnHeld(s, i, p, t);
      } else {
        WakeHeld(s, i, p, t);
      }
    case TakePub(_) => PickHeld(s, a, t);
    case PopOwned(l, k) => PopHeld(s, l, k, t);
    case PopDeque(_) => PickHeld(s, a, t);
    case Steal(l, v) => StealHeld(s, l, v, t);
    case Return(l, v) => ReturnHeld(s, l, v, t);
    case Abandon(l) => AbandonHeld(s, l, t);
    case Turn(l, p) =>
      if QueuedBy(s.loops[l].runner) != {} {
        QueueHeld(s, l, p, t);
      } else if s.loops[l].runner.DrainPub? {
        DrainHeld(s, l, p, t);
      } else if s.loops[l].runner.Pend? || s.loops[l].runner.Rearm? || s.loops[l].runner.Park? {
        PendHeld(s, l, p, t);
      } else if s.loops[l].runner.Recheck? || s.loops[l].runner.Reclaim? {
        RecheckHeld(s, l, p, t);
      } else {
        StartHeld(s, l, p, t);
      }
  }

  lemma {:induction false} RunHeld(run: seq<Sys>, acts: seq<Action>, k: nat, t: nat)
    requires IsRun(run, acts) && k < |run|
    ensures Shape(run[k]) && Held(run[k], t)
  {
    if k == 0 {
      InitHeld(run[0], t);
    } else {
      RunHeld(run, acts, k - 1, t);
      assert StepAt(run, acts, k - 1);
      StepHeld(run[k - 1], acts[k - 1], t);
      ApplyShape(run[k - 1], acts[k - 1]);
    }
  }

  /** Two loops never run the same task, nor does one run it while another has it
      ready to run. */
  lemma RunOnOneLoop(run: seq<Sys>, acts: seq<Action>, k: nat, t: nat, l: nat, m: nat)
    requires IsRun(run, acts) && k < |run| && l < |run[k].loops| && m < |run[k].loops|
    requires RunnerRuns(run[k].loops[l].runner, t) == 1
    ensures RunnerRuns(run[k].loops[m].runner, t) == 1 ==> l == m
    ensures LoopReady(run[k].loops[m], t) == 0
  {
    var s := run[k];
    RunHeld(run, acts, k, t);
    TotalUpdate(s.loops, ByLoopRuns(t), l, s.loops[l]);
    TotalUpdate(s.loops, ByLoopReady(t), m, s.loops[m]);
    if l < m {
      TotalPair(s.loops, ByLoopRuns(t), l, m);
    } else if m < l {
      TotalPair(s.loops, ByLoopRuns(t), m, l);
    }
  }

  /** A task is in at most one queue, once: not on two loops, not twice on one, and
      on none while a thread is about to queue it.  So the run queue's and the
      inbox's link fields are free whenever a task is queued. */
  lemma QueuedOnce(run: seq<Sys>, acts: seq<Action>, k: nat, t: nat, l: nat, m: nat, i: nat)
    requires IsRun(run, acts) && k < |run| && l < |run[k].loops| && m < |run[k].loops| && i < |run[k].threads|
    ensures LoopReady(run[k].loops[l], t) <= 1
    ensures l != m ==> LoopReady(run[k].loops[l], t) + LoopReady(run[k].loops[m], t) <= 1
    ensures ThreadReady(run[k].threads[i], t) + LoopReady(run[k].loops[l], t) <= 1
  {
    var s := run[k];
    RunHeld(run, acts, k, t);
    TotalUpdate(s.loops, ByLoopReady(t), l, s.loops[l]);
    TotalUpdate(s.threads, ByThreadReady(t), i, s.threads[i]);
    if l < m {
      TotalPair(s.loops, ByLoopReady(t), l, m);
    } else if m < l {
      TotalPair(s.loops, ByLoopReady(t), m, l);
    }
  }
}
