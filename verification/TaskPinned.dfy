/**
  Pinned tasks.  A pinned task is only ever queued, run and parked by its home
  loop, so its own loop can never lose one of its wakes; the only party that can
  is a waker that saw an earlier park and has not yet exchanged the latch.
*/
module TaskPinned {
  import opened Tally
  import opened TaskSched
  import opened TaskHolders
  import opened TaskDelivery

  /** The runner has t in hand, or has just parked it. */
  predicate RunnerHas(r: Runner, t: nat) {
    || RunnerReady(r, t) > 0 || RunnerRuns(r, t) > 0
    || ((r.Recheck? || r.Reclaim?) && r.t == t)
  }

  predicate LoopHas(lp: Loop, t: nat) {
    Times(lp.owned, t) > 0 || Times(lp.pub, t) > 0 || Times(lp.wake, t) > 0 || RunnerHas(lp.runner, t)
  }

  predicate Wakes(th: Thread, t: nat) {
    (th.Claim? || th.Latch? || th.Look? || th.Take? || th.Retry? || th.Won?) && th.t == t
  }

  /** Only t's home loop has it or has run it, no one can steal it, and its wakers
      aim home. */
  ghost predicate AtHome(s: Sys, t: nat) {
    && (forall l :: 0 <= l < |s.loops| && LoopHas(s.loops[l], t) ==> l == s.home(t))
    && (forall l :: 0 <= l < |s.loops| ==> Times(s.loops[l].deque, t) == 0)
    && (forall i :: 0 <= i < |s.threads| && Wakes(s.threads[i], t) ==> Aim(s.threads[i]) == s.home(t))
    && (forall l :: (t, l) in s.ran ==> l == s.home(t))
  }

  lemma QueueHas(lp: Loop, u: nat, p: Place, t: nat)
    requires p == Deque ==> u != t
    ensures LoopHas(Queue(lp, u, p), t) ==> LoopHas(lp, t) || u == t
    ensures Times(Queue(lp, u, p).deque, t) == Times(lp.deque, t)
  {
    TimesConcat(match p case Owned => lp.owned case Deque => lp.deque case Inbox => lp.wake, [u], t);
  }

  lemma LoopStays(s: Sys, s': Sys, l: nat, t: nat)
    requires AtHome(s, t) && l < |s.loops| && |s'.loops| == |s.loops| && s'.threads == s.threads && s'.home == s.home
    requires s'.loops == s.loops[l := s'.loops[l]]
    requires LoopHas(s'.loops[l], t) ==> LoopHas(s.loops[l], t) || l == s.home(t)
    requires Times(s'.loops[l].deque, t) == 0
    requires forall m :: (t, m) in s'.ran ==> (t, m) in s.ran || (m == l && LoopHas(s.loops[l], t))
    ensures AtHome(s', t)
  {
  }

  lemma ThreadStays(s: Sys, s': Sys, i: nat, t: nat)
    requires AtHome(s, t) && i < |s.threads| && |s'.threads| == |s.threads| && s'.loops == s.loops && s'.home == s.home
    requires s'.ran == s.ran && s'.threads == s.threads[i := s'.threads[i]]
    requires Wakes(s'.threads[i], t) ==> Aim(s'.threads[i]) == s.home(t)
    ensures AtHome(s', t)
  {
  }

  lemma AdvanceStays(s: Sys, i: nat, p: Place, t: nat)
    requires Shape(s) && Enabled(s, Advance(i, p)) && AtHome(s, t) && s.pinned(t)
    ensures AtHome(AdvanceThread(s, i, p), t)
  {
    var s' := AdvanceThread(s, i, p);
    var th := s.threads[i];
    if th.Won? || th.Publish? {
      var l := if th.Won? then th.l else s.home(th.t);
      var mid := s.(loops := s'.loops);
      assert th.t in Queued(th);
      if th.Publish? && p.Inbox? {
        TimesConcat(s.loops[l].pub, [th.t], t);
      } else {
        QueueHas(s.loops[l], th.t, p, t);
      }
      LoopStays(s, mid, l, t);
      ThreadStays(mid, s', i, t);
    } else {
      ThreadStays(s, s', i, t);
    }
  }

  lemma QueueStays(s: Sys, l: nat, p: Place, t: nat)
    requires Shape(s) && Enabled(s, Turn(l, p)) && AtHome(s, t) && s.pinned(t)
    requires QueuedBy(s.loops[l].runner) != {}
    ensures AtHome(TurnLoop(s, l, p), t)
  {
    var r := s.loops[l].runner;
    var u := if r.Drain? then r.chain[0] else r.t;
    assert u in QueuedBy(r);
    QueueHas(s.loops[l], u, p, t);
    LoopStays(s, TurnLoop(s, l, p), l, t);
  }

  lemma StartStays(s: Sys, l: nat, p: Place, t: nat)
    requires Enabled(s, Turn(l, p)) && AtHome(s, t) && s.loops[l].runner.Popped?
    ensures AtHome(TurnLoop(s, l, p), t)
  {
    LoopStays(s, TurnLoop(s, l, p), l, t);
  }

  /** A turn that queues nothing leaves the loop with no task it did not have. */
  lemma TurnHas(s: Sys, l: nat, p: Place, t: nat)
    requires Enabled(s, Turn(l, p))
    requires QueuedBy(s.loops[l].runner) == {} && !s.loops[l].runner.Popped? && !s.loops[l].runner.DrainPub?
    ensures var s' := TurnLoop(s, l, p);
      s'.loops == s.loops[l := s'.loops[l]] && s'.loops[l].deque == s.loops[l].deque &&
      (LoopHas(s'.loops[l], t) ==> LoopHas(s.loops[l], t)) && s'.ran == s.ran
  {
  }

  lemma TurnStays(s: Sys, l: nat, p: Place, t: nat)
    requires Enabled(s, Turn(l, p)) && AtHome(s, t)
    requires QueuedBy(s.loops[l].runner) == {} && !s.loops[l].runner.Popped?
    ensures AtHome(TurnLoop(s, l, p), t)
  {
    if s.loops[l].runner.DrainPub? {
      DrainStays(s, l, p, t);
    } else {
      TurnHas(s, l, p, t);
      TurnShape(s, l, p);
      LoopStays(s, TurnLoop(s, l, p), l, t);
    }
  }

  lemma DrainStays(s: Sys, l: nat, p: Place, t: nat)
    requires l < |s.loops| && AtHome(s, t) && s.loops[l].runner.DrainPub?
    ensures AtHome(TurnLoop(s, l, p), t)
  {
    TimesConcat(s.loops[l].runner.chain, s.loops[l].wake, t);
    LoopStays(s, TurnLoop(s, l, p), l, t);
  }

  lemma StealStays(s: Sys, l: nat, v: nat, t: nat)
    requires Shape(s) && Enabled(s, Steal(l, v)) && AtHome(s, t)
    ensures AtHome(Apply(s, Steal(l, v)), t)
  {
    var mid := SetLoop(s, v, s.loops[v].(deque := s.loops[v].deque[1..]));
    LoopStays(s, mid, v, t);
    LoopStays(mid, Apply(s, Steal(l, v)), l, t);
  }

  lemma PickStays(s: Sys, a: Action, t: nat)
    requires Shape(s) && Enabled(s, a) && AtHome(s, t)
    requires a.TakePub? || a.PopOwned? || a.PopDeque? || a.Abandon? || a.Return?
    ensures AtHome(Apply(s, a), t)
  {
    if a.PopOwned? {
      CutHolds(s.loops[a.l].owned, a.k, t);
    }
    LoopStays(s, Apply(s, a), a.l, t);
  }

  lemma StepStays(s: Sys, a: Action, t: nat)
    requires Shape(s) && Enabled(s, a) && AtHome(s, t) && s.pinned(t)
    ensures AtHome(Apply(s, a), t) && Apply(s, a).pinned == s.pinned
  {
    match a
    case WakeBegin(i, _, _) => ThreadStays(s, Apply(s, a), i, t);
    case SpawnPop(i, _) => ThreadStays(s, Apply(s, a), i, t);
    case SpawnFail(i) => ThreadStays(s, Apply(s, a), i, t);
    case Advance(i, p) => AdvanceStays(s, i, p, t);
    case Steal(l, v) => StealStays(s, l, v, t);
    case Turn(l, p) =>
      if s.loops[l].runner.Popped? {
        StartStays(s, l, p, t);
      } else if QueuedBy(s.loops[l].runner) == {} {
        TurnStays(s, l, p, t);
      } else {
        QueueStays(s, l, p, t);
      }
    case _ => PickStays(s, a, t);
  }

  lemma {:induction false} AlwaysAtHome(run: seq<Sys>, acts: seq<Action>, k: nat, t: nat)
    requires IsRun(run, acts) && k < |run| && run[0].pinned(t)
    ensures AtHome(run[k], t) && run[k].pinned == run[0].pinned
  {
    if k > 0 {
      AlwaysAtHome(run, acts, k - 1, t);
      assert StepAt(run, acts, k - 1);
      StepStays(run[k - 1], acts[k - 1], t);
    }
  }

  /** A loop about to check a pinned task's latch again is not racing a run of it. */
  lemma RecheckIsAlone(s: Sys, l: nat, t: nat)
    requires AtHome(s, t) && Held(s, t)
    requires l < |s.loops| && s.loops[l].runner == Recheck(t)
    ensures At(s, t).state != Running
  {
    if At(s, t).state == Running {
      var m := TotalHolder(s.loops, ByLoopRuns(t));
      assert LoopHas(s.loops[m], t) && LoopHas(s.loops[l], t);
    }
  }

  /** Wake delivery for pinned tasks: in a run with no stale waker, a parked task
      that nobody is busy with has run again after every wake. */
  lemma PinnedDelivery(run: seq<Sys>, acts: seq<Action>, k: nat, t: nat)
    requires IsRun(run, acts) && k < |run| && run[0].pinned(t)
    requires forall j :: 0 <= j < k ==> NoStaleWaker(run[j], t)
    requires Settled(run[k], t) && At(run[k], t).state == Parked
    ensures !At(run[k], t).owed
  {
    forall j | 0 <= j < k ensures NoStaleLoop(run[j], t) {
      AlwaysAtHome(run, acts, j, t);
      RunHeld(run, acts, j, t);
      forall l | 0 <= l < |run[j].loops| && run[j].loops[l].runner == Recheck(t)
        ensures At(run[j], t).state != Running
      {
        RecheckIsAlone(run[j], l, t);
      }
    }
    Delivery(run, acts, k, t);
  }
}
