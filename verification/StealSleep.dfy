/**
  The steal nudge (src/evt/exec.c): an executor loop with nothing to run may block
  without a time limit only while no loop has a live unpinned task, and the first
  such task on a loop wakes every loop that blocked on that basis.

  n_mig_loops counts the loops with live unpinned tasks up to the edges still in
  flight, is never negative, and no loop stays blocked without a limit while a peer
  has such a task and nothing is coming to wake it.
*/
module StealSleep {
  import opened Tally

  /** Where a thread stands in a spawn onto loop l or a completion homed there. */
  datatype Thread =
    | Free
    | UpEdge(l: nat)        // raised n_mig_alive from 0; about to raise n_mig_loops
    | Scan(l: nat, i: nat)  // about to load loop i's steal_sleep
    | Exchange(l: nat, i: nat) // saw it set; about to exchange it with 0
    | Ring(l: nat, i: nat)  // took it; about to write loop i's wakeup
    | Counted(l: nat)       // about to publish the task
    | DownEdge(l: nat)      // lowered n_mig_alive to 0; about to lower n_mig_loops

  /** Where a loop stands in __xtc_exec_steal_recheck_ns and its poll. */
  datatype Place =
    | Awake
    | Store    // saw n_mig_loops <= 0; about to set steal_sleep
    | Look     // set it; about to load n_mig_loops again
    | Blocked  // still <= 0: in its poll without a time limit

  /** alive: n_mig_alive; live: published unpinned tasks homed here; flag:
      steal_sleep; bell: wakeups written and not yet consumed. */
  datatype Loop = Loop(alive: int, live: nat, flag: bool, bell: nat, place: Place)

  /** n: n_mig_loops. */
  datatype Sys = Sys(n: int, loops: seq<Loop>, threads: seq<Thread>)

  datatype Action =
    | Spawn(j: nat, l: nat)
    | Finish(j: nat, l: nat)
    | Step(j: nat)            // thread j's next step
    | LookFirst(l: nat)       // the loop's first load
    | LookAgain(l: nat)       // its store, then its second load
    | GiveUp(l: nat)          // work arrived in the inbox: does not block after all
    | PollNow(l: nat)         // a poll that does not block eats the wakeups
    | PollReturns(l: nat, eat: bool)

  ghost predicate Init(s: Sys) {
    && s.n == 0
    && (forall l :: 0 <= l < |s.loops| ==> s.loops[l] == Loop(0, 0, false, 0, Awake))
    && (forall j :: 0 <= j < |s.threads| ==> s.threads[j] == Free)
  }

  ghost predicate Shape(s: Sys) {
    forall j :: 0 <= j < |s.threads| ==> ThreadShape(s.threads[j], |s.loops|)
  }

  predicate ThreadShape(th: Thread, n: nat) {
    match th
    case Free => true
    case UpEdge(l) => l < n
    case Scan(l, i) => l < n && i <= n
    case Exchange(l, i) => l < n && i < n && i != l
    case Ring(l, i) => l < n && i < n && i != l
    case Counted(l) => l < n
    case DownEdge(l) => l < n
  }

  ghost predicate Enabled(s: Sys, a: Action) {
    match a
    case Spawn(j, l) => j < |s.threads| && s.threads[j] == Free && l < |s.loops|
    case Finish(j, l) => j < |s.threads| && s.threads[j] == Free && l < |s.loops| && s.loops[l].live > 0
    case Step(j) => j < |s.threads| && s.threads[j] != Free
    case LookFirst(l) => l < |s.loops| && s.loops[l].place == Awake
    case LookAgain(l) => l < |s.loops| && (s.loops[l].place == Store || s.loops[l].place == Look)
    case GiveUp(l) => l < |s.loops| && s.loops[l].place == Blocked
    case PollNow(l) => l < |s.loops| && s.loops[l].place == Awake
    case PollReturns(l, _) => l < |s.loops| && s.loops[l].place == Blocked
  }

  function SetThread(s: Sys, j: nat, th: Thread): Sys
    requires j < |s.threads|
  {
    s.(threads := s.threads[j := th])
  }

  function SetLoop(s: Sys, l: nat, lp: Loop): Sys
    requires l < |s.loops|
  {
    s.(loops := s.loops[l := lp])
  }

  /** __xtc_exec_mig_alive after its first fetch-and-add, and the publish. */
  ghost function ThreadNext(s: Sys, j: nat): Sys
    requires Shape(s) && j < |s.threads|
  {
    assert ThreadShape(s.threads[j], |s.loops|);
    match s.threads[j]
    case Free => s
    case UpEdge(l) => SetThread(s.(n := s.n + 1), j, Scan(l, 0))
    case Scan(l, i) =>
      SetThread(s, j,
        if i == |s.loops| then Counted(l)
        else if i != l && s.loops[i].flag then Exchange(l, i) else Scan(l, i + 1))
    case Exchange(l, i) =>
      SetThread(SetLoop(s, i, s.loops[i].(flag := false)), j, if s.loops[i].flag then Ring(l, i) else Scan(l, i + 1))
    case Ring(l, i) => SetThread(SetLoop(s, i, s.loops[i].(bell := s.loops[i].bell + 1)), j, Scan(l, i + 1))
    case Counted(l) => SetThread(SetLoop(s, l, s.loops[l].(live := s.loops[l].live + 1)), j, Free)
    case DownEdge(l) => SetThread(s.(n := s.n - 1), j, Free)
  }

  ghost function Apply(s: Sys, a: Action): Sys
    requires Shape(s) && Enabled(s, a)
  {
    match a
    case Spawn(j, l) =>
      SetThread(SetLoop(s, l, s.loops[l].(alive := s.loops[l].alive + 1)), j,
        if s.loops[l].alive == 0 then UpEdge(l) else Counted(l))
    case Finish(j, l) =>
      SetThread(SetLoop(s, l, s.loops[l].(alive := s.loops[l].alive - 1, live := s.loops[l].live - 1)), j,
                if s.loops[l].alive == 1 then DownEdge(l) else Free)
    case Step(j) => ThreadNext(s, j)
    case LookFirst(l) => if s.n <= 0 then SetLoop(s, l, s.loops[l].(place := Store)) else s
    case LookAgain(l) =>
      if s.loops[l].place == Store then SetLoop(s, l, s.loops[l].(flag := true, place := Look))
      else SetLoop(s, l, s.loops[l].(place := if s.n <= 0 then Blocked else Awake))
    case GiveUp(l) => SetLoop(s, l, s.loops[l].(place := Awake))
    case PollNow(l) => SetLoop(s, l, s.loops[l].(bell := 0))
    case PollReturns(l, eat) => SetLoop(s, l, s.loops[l].(bell := if eat then 0 else s.loops[l].bell, place := Awake))
  }

  ghost predicate IsRun(run: seq<Sys>, acts: seq<Action>) {
    && |run| == |acts| + 1 && Init(run[0])
    && (forall k :: 0 <= k < |acts| ==> StepAt(run, acts, k))
  }

  ghost predicate StepAt(run: seq<Sys>, acts: seq<Action>, k: nat)
    requires |run| == |acts| + 1 && k < |acts|
  {
    Shape(run[k]) && Enabled(run[k], acts[k]) && run[k + 1] == Apply(run[k], acts[k])
  }

  // --- Counts -------------------------------------------------------------

  function IsUp(l: nat): Thread -> nat { (th: Thread) => if th == UpEdge(l) then 1 else 0 }
  function IsDown(l: nat): Thread -> nat { (th: Thread) => if th == DownEdge(l) then 1 else 0 }

  /** Spawns onto l counted and not yet published. */
  function IsComing(l: nat): Thread -> nat {
    (th: Thread) => if !th.Free? && !th.DownEdge? then Is(th.l, l) else 0
  }

  /** An up-edge of loop p whose scan has yet to reach loop m. */
  function WillReach(p: nat, m: nat): Thread -> nat {
    (th: Thread) =>
      if th == UpEdge(p) || ((th.Scan? || th.Exchange?) && th.l == p && th.i <= m)
        || (th.Ring? && th.l == p && th.i < m) then 1 else 0
  }

  function IsRinging(m: nat): Thread -> nat { (th: Thread) => if th.Ring? && th.i == m then 1 else 0 }

  ghost function Ups(s: Sys, l: nat): nat { Total(s.threads, IsUp(l)) }
  ghost function Downs(s: Sys, l: nat): nat { Total(s.threads, IsDown(l)) }
  ghost function Comings(s: Sys, l: nat): nat { Total(s.threads, IsComing(l)) }
  ghost function Reaching(s: Sys, p: nat, m: nat): nat { Total(s.threads, WillReach(p, m)) }
  ghost function Ringing(s: Sys, m: nat): nat { Total(s.threads, IsRinging(m)) }

  /** What loop l contributes to n_mig_loops: whether it has live unpinned tasks,
      less its pending up-edges, plus its pending down-edges. */
  ghost function Share(s: Sys, l: nat): int
    requires l < |s.loops|
  {
    Bit(s.loops[l].alive > 0) - Ups(s, l) + Downs(s, l)
  }

  ghost function Shares(s: Sys, m: nat): int
    requires m <= |s.loops|
  {
    if m == 0 then 0 else Shares(s, m - 1) + Share(s, m - 1)
  }

  lemma {:induction false} SharesChange(s: Sys, s': Sys, l: nat, m: nat)
    requires |s.loops| == |s'.loops| && l < |s.loops| && m <= |s.loops|
    requires forall j :: 0 <= j < |s.loops| && j != l ==> Share(s', j) == Share(s, j)
    ensures Shares(s', m) == Shares(s, m) + if l < m then Share(s', l) - Share(s, l) else 0
  {
    if m > 0 {
      SharesChange(s, s', l, m - 1);
    }
  }

  lemma {:induction false} SharesZero(s: Sys, m: nat, l: nat)
    requires l < m <= |s.loops|
    requires forall j :: 0 <= j < |s.loops| ==> Share(s, j) >= 0
    ensures Shares(s, m) >= Share(s, l) && Shares(s, m) >= 0
  {
    if m > 1 {
      SharesZero(s, m - 1, if l < m - 1 then l else 0);
    }
  }

  // --- Invariant ----------------------------------------------------------

  ghost predicate LoopOk(s: Sys, l: nat)
    requires l < |s.loops|
  {
    s.loops[l].alive == s.loops[l].live + Comings(s, l) && Ups(s, l) <= 1
  }

  /** The flag of a loop that will block is up, or a wakeup of it is on its way. */
  ghost predicate FlagOk(s: Sys, m: nat)
    requires m < |s.loops|
  {
    s.loops[m].place == Look || s.loops[m].place == Blocked ==>
      s.loops[m].flag || s.loops[m].bell > 0 || Ringing(s, m) > 0
  }

  /** A blocked loop whose flag is up will be reached by every peer's up-edge. */
  ghost predicate ReachOk(s: Sys, p: nat, m: nat)
    requires p < |s.loops| && m < |s.loops|
  {
    p != m && s.loops[m].place == Blocked && s.loops[m].flag && s.loops[p].alive > 0 ==> Reaching(s, p, m) > 0
  }

  ghost predicate Inv(s: Sys) {
    && Shape(s)
    && (forall l :: 0 <= l < |s.loops| ==> LoopOk(s, l))
    && (forall m :: 0 <= m < |s.loops| ==> FlagOk(s, m))
    && (forall p, m :: 0 <= p < |s.loops| && 0 <= m < |s.loops| ==> ReachOk(s, p, m))
    && s.n == Shares(s, |s.loops|)
  }

  lemma ThreadCounts(s: Sys, j: nat, th: Thread, l: nat)
    requires j < |s.threads|
    ensures Total(s.threads[j := th], IsUp(l)) + IsUp(l)(s.threads[j]) == Ups(s, l) + IsUp(l)(th)
    ensures Total(s.threads[j := th], IsDown(l)) + IsDown(l)(s.threads[j]) == Downs(s, l) + IsDown(l)(th)
    ensures Total(s.threads[j := th], IsComing(l)) + IsComing(l)(s.threads[j]) == Comings(s, l) + IsComing(l)(th)
    ensures IsUp(l)(s.threads[j]) <= Ups(s, l) && IsDown(l)(s.threads[j]) <= Downs(s, l)
      && IsComing(l)(s.threads[j]) <= Comings(s, l)
  {
    TotalUpdate(s.threads, IsUp(l), j, th);
    TotalUpdate(s.threads, IsDown(l), j, th);
    TotalUpdate(s.threads, IsComing(l), j, th);
  }

  lemma UpsCome(s: Sys, l: nat)
    ensures Ups(s, l) <= Comings(s, l)
  {
    TotalLe(s.threads, IsUp(l), IsComing(l));
  }

  lemma SpawnLoopOk(s: Sys, j: nat, k: nat, l: nat)
    requires Shape(s) && Enabled(s, Spawn(j, k)) && l < |s.loops| && LoopOk(s, l)
    ensures var s' := Apply(s, Spawn(j, k)); LoopOk(s', l) && Share(s', l) == Share(s, l)
  {
    UpsCome(s, l);
    ThreadCounts(s, j, Apply(s, Spawn(j, k)).threads[j], l);
  }

  lemma FinishLoopOk(s: Sys, j: nat, k: nat, l: nat)
    requires Shape(s) && Enabled(s, Finish(j, k)) && l < |s.loops| && LoopOk(s, l)
    ensures var s' := Apply(s, Finish(j, k)); LoopOk(s', l) && Share(s', l) == Share(s, l)
  {
    ThreadCounts(s, j, Apply(s, Finish(j, k)).threads[j], l);
  }

  lemma StepLoopOk(s: Sys, j: nat, l: nat)
    requires Shape(s) && Enabled(s, Step(j)) && l < |s.loops| && LoopOk(s, l)
    ensures var s' := ThreadNext(s, j);
            && LoopOk(s', l)
            && Share(s', l) == Share(s, l)
                 + (if s.threads[j] == UpEdge(l) then 1 else if s.threads[j] == DownEdge(l) then -1 else 0)
  {
    assert ThreadShape(s.threads[j], |s.loops|);
    ThreadCounts(s, j, ThreadNext(s, j).threads[j], l);
  }

  /** How a step changes loop l's share. */
  ghost function Change(s: Sys, a: Action, l: nat): int
    requires Enabled(s, a)
  {
    if !a.Step? then 0 else if s.threads[a.j] == UpEdge(l) then 1 else if s.threads[a.j] == DownEdge(l) then -1 else 0
  }

  lemma OneShare(s: Sys, a: Action, l: nat)
    requires Shape(s) && Enabled(s, a) && l < |s.loops| && LoopOk(s, l)
    ensures |Apply(s, a).loops| == |s.loops|
    ensures LoopOk(Apply(s, a), l) && Share(Apply(s, a), l) == Share(s, l) + Change(s, a, l)
  {
    StepShape(s, a);
    match a
    case Spawn(j, k) => SpawnLoopOk(s, j, k, l);
    case Finish(j, k) => FinishLoopOk(s, j, k, l);
    case Step(j) => StepLoopOk(s, j, l);
    case _ =>
  }

  /** The loop whose edge a step passes, if any. */
  ghost function Edge(s: Sys, a: Action): nat
    requires Enabled(s, a)
  {
    if a.Step? && (s.threads[a.j].UpEdge? || s.threads[a.j].DownEdge?) then s.threads[a.j].l else 0
  }

  lemma CountChange(s: Sys, a: Action)
    requires Shape(s) && Enabled(s, a)
    ensures Apply(s, a).n == s.n + Change(s, a, Edge(s, a)) && (|s.loops| > 0 ==> Edge(s, a) < |s.loops|)
    ensures forall l: nat :: l != Edge(s, a) ==> Change(s, a, l) == 0
    ensures |s.loops| == 0 ==> Apply(s, a).n == s.n
  {
    assert a.Step? ==> ThreadShape(s.threads[a.j], |s.loops|);
  }

  /** n_mig_loops keeps step with the shares. */
  lemma StepShares(s: Sys, a: Action)
    requires Shape(s) && Enabled(s, a) && (forall l :: 0 <= l < |s.loops| ==> LoopOk(s, l))
    requires s.n == Shares(s, |s.loops|)
    ensures |Apply(s, a).loops| == |s.loops|
    ensures Apply(s, a).n == Shares(Apply(s, a), |s.loops|)
  {
    var s' := Apply(s, a);
    StepShape(s, a);
    CountChange(s, a);
    forall l | 0 <= l < |s.loops|
      ensures Share(s', l) == Share(s, l) + Change(s, a, l)
    {
      assert LoopOk(s, l);
      OneShare(s, a, l);
    }
    if |s.loops| > 0 {
      SharesChange(s, s', Edge(s, a), |s.loops|);
    }
  }

  lemma NeverNegative(s: Sys)
    requires Inv(s)
    ensures s.n >= 0
    ensures s.n == 0 ==> forall l :: 0 <= l < |s.loops| && s.loops[l].alive > 0 ==> Ups(s, l) > 0
  {
    forall l | 0 <= l < |s.loops|
      ensures Share(s, l) >= 0
    {
      assert LoopOk(s, l);
      UpsCome(s, l);
    }
    if |s.loops| > 0 {
      SharesZero(s, |s.loops|, 0);
    }
    forall l | 0 <= l < |s.loops| && s.n == 0 && s.loops[l].alive > 0
      ensures Ups(s, l) > 0
    {
      SharesZero(s, |s.loops|, l);
    }
  }

  lemma StepFlagOk(s: Sys, a: Action, m: nat)
    requires Shape(s) && Enabled(s, a) && m < |s.loops| && FlagOk(s, m)
    ensures FlagOk(Apply(s, a), m)
  {
    if a.Spawn? || a.Finish? || a.Step? {
      TotalUpdate(s.threads, IsRinging(m), a.j, Apply(s, a).threads[a.j]);
      assert ThreadShape(s.threads[a.j], |s.loops|);
    }
  }

  lemma UpIsReaching(s: Sys, p: nat, m: nat)
    requires Ups(s, p) > 0
    ensures Reaching(s, p, m) > 0
  {
    var j := TotalHolder(s.threads, IsUp(p));
    TotalUpdate(s.threads, WillReach(p, m), j, s.threads[j]);
  }

  lemma ThreadReachOk(s: Sys, a: Action, p: nat, m: nat)
    requires Shape(s) && Enabled(s, a) && p < |s.loops| && m < |s.loops| && (a.Spawn? || a.Finish? || a.Step?)
    requires ReachOk(s, p, m) && LoopOk(s, p)
    ensures |Apply(s, a).loops| == |s.loops| && ReachOk(Apply(s, a), p, m)
  {
    TotalUpdate(s.threads, WillReach(p, m), a.j, Apply(s, a).threads[a.j]);
    assert ThreadShape(s.threads[a.j], |s.loops|);
  }

  lemma LoopReachOk(s: Sys, a: Action, p: nat, m: nat)
    requires Shape(s) && Enabled(s, a) && p < |s.loops| && m < |s.loops| && !a.Spawn? && !a.Finish? && !a.Step?
    requires ReachOk(s, p, m) && (s.n <= 0 && s.loops[p].alive > 0 ==> Reaching(s, p, m) > 0)
    ensures |Apply(s, a).loops| == |s.loops| && ReachOk(Apply(s, a), p, m)
  {
  }

  lemma StepReachOk(s: Sys, a: Action, p: nat, m: nat)
    requires Inv(s) && Enabled(s, a) && p < |s.loops| && m < |s.loops|
    ensures |Apply(s, a).loops| == |s.loops| && ReachOk(Apply(s, a), p, m)
  {
    assert ReachOk(s, p, m) && LoopOk(s, p);
    if a.Spawn? || a.Finish? || a.Step? {
      ThreadReachOk(s, a, p, m);
    } else {
      NeverNegative(s);
      if s.n <= 0 && s.loops[p].alive > 0 {
        UpIsReaching(s, p, m);
      }
      LoopReachOk(s, a, p, m);
    }
  }

  lemma StepShape(s: Sys, a: Action)
    requires Shape(s) && Enabled(s, a)
    ensures Shape(Apply(s, a)) && |Apply(s, a).loops| == |s.loops|
  {
    if a.Step? {
      assert ThreadShape(s.threads[a.j], |s.loops|);
    }
  }

  lemma StepKeeps(s: Sys, a: Action)
    requires Inv(s) && Enabled(s, a)
    ensures Inv(Apply(s, a))
  {
    var s' := Apply(s, a);
    StepShape(s, a);
    StepShares(s, a);
    forall l | 0 <= l < |s.loops|
      ensures LoopOk(s', l)
    {
      assert LoopOk(s, l);
      OneShare(s, a, l);
    }
    forall m | 0 <= m < |s.loops|
      ensures FlagOk(s', m)
    {
      assert FlagOk(s, m);
      StepFlagOk(s, a, m);
    }
    forall p, m | 0 <= p < |s.loops| && 0 <= m < |s.loops|
      ensures ReachOk(s', p, m)
    {
      StepReachOk(s, a, p, m);
    }
  }

  lemma {:induction false} SharesAtRest(s: Sys, m: nat)
    requires Init(s) && m <= |s.loops|
    ensures Shares(s, m) == 0
  {
    if m > 0 {
      SharesAtRest(s, m - 1);
      TotalZero(s.threads, IsUp(m - 1));
      TotalZero(s.threads, IsDown(m - 1));
    }
  }

  lemma InitKeeps(s: Sys)
    requires Init(s)
    ensures Inv(s)
  {
    SharesAtRest(s, |s.loops|);
    forall l | 0 <= l < |s.loops|
      ensures LoopOk(s, l)
    {
      TotalZero(s.threads, IsUp(l));
      TotalZero(s.threads, IsComing(l));
    }
  }

  /** In every reachable state n_mig_loops is the number of loops with live unpinned
      tasks, less the pending up-edges, plus the pending down-edges. */
  lemma {:induction false} RunKeeps(run: seq<Sys>, acts: seq<Action>, k: nat)
    requires IsRun(run, acts) && k < |run|
    ensures Inv(run[k])
    ensures run[k].n == Shares(run[k], |run[k].loops|) >= 0
  {
    if k == 0 {
      InitKeeps(run[0]);
    } else {
      RunKeeps(run, acts, k - 1);
      assert StepAt(run, acts, k - 1);
      StepKeeps(run[k - 1], acts[k - 1]);
    }
    NeverNegative(run[k]);
  }

  /** A loop blocked without a time limit while a peer has a live unpinned task has a
      wakeup waiting or being written, or that peer's up-edge is still to reach it. */
  lemma NeverStranded(run: seq<Sys>, acts: seq<Action>, k: nat, m: nat, p: nat)
    requires IsRun(run, acts) && k < |run|
    requires m < |run[k].loops| && p < |run[k].loops| && p != m
    requires run[k].loops[m].place == Blocked && run[k].loops[p].alive > 0
    ensures || run[k].loops[m].bell > 0
            || (exists j :: 0 <= j < |run[k].threads| && IsRinging(m)(run[k].threads[j]) > 0)
            || (run[k].loops[m].flag && exists j :: 0 <= j < |run[k].threads| && WillReach(p, m)(run[k].threads[j]) > 0)
  {
    RunKeeps(run, acts, k);
    var s := run[k];
    assert FlagOk(s, m) && ReachOk(s, p, m);
    if s.loops[m].flag {
      var j := TotalHolder(s.threads, WillReach(p, m));
    } else if s.loops[m].bell == 0 {
      var j := TotalHolder(s.threads, IsRinging(m));
    }
  }
}
