/**
  The steal handshake's operations from their call to their return, in any run: the
  first live unpinned task of a loop is counted and every peer's flag found down or
  its wakeup written before the task is published, the last one uncounted; and a loop
  blocks if and only if its second look still found no such task anywhere.
*/
module StealCalls {
  import opened StealSleep
  import opened Tally

  /** From its call at k thread j has not returned by m. */
  ghost predicate Under(run: seq<Sys>, j: nat, k: nat, m: nat)
    requires m < |run|
  {
    forall x {:trigger run[x]} :: k < x <= m ==> j < |run[x].threads| && run[x].threads[j] != Free
  }

  lemma OthersAside(s: Sys, a: Action, j: nat)
    requires Shape(s) && Enabled(s, a) && j < |s.threads| && s.threads[j] != Free && a != Step(j)
    ensures |Apply(s, a).threads| == |s.threads| && Apply(s, a).threads[j] == s.threads[j]
  {
    if a.Step? {
      assert ThreadShape(s.threads[a.j], |s.loops|);
    }
  }

  // --- Spawns ---------------------------------------------------------------

  /** The spawn has raised the count at one of its steps. */
  ghost predicate CountedUp(run: seq<Sys>, acts: seq<Action>, j: nat, k: nat, m: nat)
    requires m <= |acts| < |run|
  {
    exists x :: k < x < m && acts[x] == Step(j) && run[x + 1].n == run[x].n + 1
  }

  /** It has found loop i's flag down at one of its steps, or written its wakeup. */
  ghost predicate Reached(run: seq<Sys>, acts: seq<Action>, j: nat, k: nat, m: nat, i: nat)
    requires m <= |acts| < |run|
  {
    exists x :: k < x < m && acts[x] == Step(j) && Tells(run[x], run[x + 1], i)
  }

  predicate Tells(s: Sys, s': Sys, i: nat) {
    && i < |s.loops| == |s'.loops|
    && (!s.loops[i].flag || s'.loops[i].bell == s.loops[i].bell + 1)
  }

  /** So for all loops before i but l's own. */
  ghost predicate ReachedTo(run: seq<Sys>, acts: seq<Action>, j: nat, k: nat, m: nat, l: nat, i: nat)
    requires m <= |acts| < |run|
  {
    forall x :: 0 <= x < i && x != l ==> Reached(run, acts, j, k, m, x)
  }

  lemma CountStays(run: seq<Sys>, acts: seq<Action>, j: nat, k: nat, m: nat)
    requires k < m < |acts| < |run|
    ensures CountedUp(run, acts, j, k, m) ==> CountedUp(run, acts, j, k, m + 1)
    ensures acts[m] == Step(j) && run[m + 1].n == run[m].n + 1 ==> CountedUp(run, acts, j, k, m + 1)
  {
    if CountedUp(run, acts, j, k, m) {
      var x :| k < x < m && acts[x] == Step(j) && run[x + 1].n == run[x].n + 1;
    }
  }

  lemma ReachStays(run: seq<Sys>, acts: seq<Action>, j: nat, k: nat, m: nat, n: nat, l: nat, i: nat)
    requires k < m < n == m + 1 <= |acts| < |run| && ReachedTo(run, acts, j, k, m, l, i)
    ensures ReachedTo(run, acts, j, k, n, l, i)
    ensures i == l || (acts[m] == Step(j) && Tells(run[m], run[n], i)) ==> ReachedTo(run, acts, j, k, n, l, i + 1)
  {
    forall x | 0 <= x < i && x != l
      ensures Reached(run, acts, j, k, n, x)
    {
      assert Reached(run, acts, j, k, m, x);
      var y :| k < y < m && acts[y] == Step(j) && Tells(run[y], run[y + 1], x);
    }
    if acts[m] == Step(j) && Tells(run[m], run[n], i) {
      assert Reached(run, acts, j, k, n, i);
    }
  }

  /** How far the scan of a spawn onto l has come. */
  function ScanAt(th: Thread, loops: nat): nat {
    if th.Scan? || th.Exchange? || th.Ring? then th.i else if th.Counted? then loops else 0
  }

  ghost predicate SpawnStage(run: seq<Sys>, acts: seq<Action>, j: nat, l: nat, k: nat, m: nat)
    requires k < m <= |acts| < |run|
  {
    && j < |run[m].threads|
    && var th := run[m].threads[j];
       && !th.Free? && !th.DownEdge? && th.l == l
       && (l < |run[k].loops| && run[k].loops[l].alive == 0 ==>
             && (!th.UpEdge? ==> CountedUp(run, acts, j, k, m))
             && ReachedTo(run, acts, j, k, m, l, ScanAt(th, |run[m].loops|)))
  }

  /** What a step of a spawn's thread does. */
  lemma SpawnSteps(s: Sys, j: nat, l: nat)
    requires Shape(s) && j < |s.threads| && !s.threads[j].Free? && !s.threads[j].DownEdge? && s.threads[j].l == l
    ensures var s', th := ThreadNext(s, j), s.threads[j];
      && |s'.loops| == |s.loops| && |s'.threads| == |s.threads|
      && var q := s'.threads[j];
         && (th.Counted? ==> q == Free && l < |s.loops| && s'.loops[l].live == s.loops[l].live + 1)
         && (!th.Counted? ==> !q.Free? && !q.DownEdge? && q.l == l && !q.UpEdge?)
         && (th.UpEdge? ==> s'.n == s.n + 1 && q == Scan(l, 0))
         && (th.Scan? || th.Exchange? || th.Ring? ==>
               var i := ScanAt(q, |s.loops|);
               i == th.i || (i == th.i + 1 && (th.i == l || Tells(s, s', th.i))))
  {
    assert ThreadShape(s.threads[j], |s.loops|);
  }

  lemma SpawnOne(run: seq<Sys>, acts: seq<Action>, j: nat, l: nat, k: nat, m: nat)
    requires IsRun(run, acts) && k < m < |acts| && SpawnStage(run, acts, j, l, k, m)
    ensures j < |run[m + 1].threads| && |run[m + 1].loops| == |run[m].loops|
    ensures if run[m + 1].threads[j] == Free then
        acts[m] == Step(j) && run[m].threads[j].Counted? && l < |run[m].loops| &&
        run[m + 1].loops[l].live == run[m].loops[l].live + 1
      else SpawnStage(run, acts, j, l, k, m + 1)
  {
    assert StepAt(run, acts, m);
    StepShape(run[m], acts[m]);
    CountStays(run, acts, j, k, m);
    if l < |run[k].loops| && run[k].loops[l].alive == 0 {
      ReachStays(run, acts, j, k, m, m + 1, l, ScanAt(run[m].threads[j], |run[m].loops|));
    }
    if acts[m] == Step(j) {
      SpawnSteps(run[m], j, l);
    } else {
      OthersAside(run[m], acts[m], j);
    }
  }

  lemma SpawnBegins(run: seq<Sys>, acts: seq<Action>, j: nat, l: nat, k: nat)
    requires IsRun(run, acts) && k < |acts| && acts[k] == Spawn(j, l)
    ensures SpawnStage(run, acts, j, l, k, k + 1) && l < |run[k].loops| == |run[k + 1].loops|
    ensures run[k + 1].loops[l].alive == run[k].loops[l].alive + 1
  {
    assert StepAt(run, acts, k);
  }

  lemma {:induction false} SpawnStays(run: seq<Sys>, acts: seq<Action>, j: nat, l: nat, k: nat, m: nat)
    requires IsRun(run, acts) && k < m <= |acts| && acts[k] == Spawn(j, l) && Under(run, j, k, m)
    ensures SpawnStage(run, acts, j, l, k, m)
  {
    if m == k + 1 {
      SpawnBegins(run, acts, j, l, k);
    } else {
      SpawnStays(run, acts, j, l, k, m - 1);
      SpawnOne(run, acts, j, l, k, m - 1);
    }
  }

  /** A spawn onto l is counted at once and publishes its task at its last step.  If it
      is the first live one of its loop, it has before that raised the count of such
      loops, and found every peer's flag down or written its wakeup. */
  lemma SpawnDone(run: seq<Sys>, acts: seq<Action>, j: nat, l: nat, k: nat, m: nat)
    requires IsRun(run, acts) && k < m < |acts| && acts[k] == Spawn(j, l) && Under(run, j, k, m)
    requires j < |run[m + 1].threads| && run[m + 1].threads[j] == Free
    ensures l < |run[k].loops| == |run[k + 1].loops| && run[k + 1].loops[l].alive == run[k].loops[l].alive + 1
    ensures acts[m] == Step(j) && l < |run[m].loops| == |run[m + 1].loops|
    ensures run[m + 1].loops[l].live == run[m].loops[l].live + 1
    ensures run[k].loops[l].alive == 0 ==>
      CountedUp(run, acts, j, k, m) && ReachedTo(run, acts, j, k, m, l, |run[m].loops|)
  {
    SpawnBegins(run, acts, j, l, k);
    SpawnStays(run, acts, j, l, k, m);
    SpawnOne(run, acts, j, l, k, m);
  }

  // --- Completions ------------------------------------------------------------

  /** A completion is taken off its loop at once, and of a loop's last one the count of
      loops is lowered before its thread goes on. */
  lemma {:induction false} FinishStays(run: seq<Sys>, acts: seq<Action>, j: nat, l: nat, k: nat, m: nat)
    requires IsRun(run, acts) && k < m <= |acts| && acts[k] == Finish(j, l) && Under(run, j, k, m)
    ensures j < |run[m].threads| && run[m].threads[j] == DownEdge(l)
    ensures l < |run[k].loops| && run[k].loops[l].alive == 1
  {
    if m == k + 1 {
      assert StepAt(run, acts, k);
    } else {
      FinishStays(run, acts, j, l, k, m - 1);
      FinishOne(run, acts, j, l, m - 1);
    }
  }

  lemma FinishOne(run: seq<Sys>, acts: seq<Action>, j: nat, l: nat, m: nat)
    requires IsRun(run, acts) && m < |acts| && j < |run[m].threads| && run[m].threads[j] == DownEdge(l)
    ensures j < |run[m + 1].threads|
    ensures if acts[m] == Step(j) then run[m + 1].threads[j] == Free && run[m + 1].n == run[m].n - 1
      else run[m + 1].threads[j] == DownEdge(l)
  {
    assert StepAt(run, acts, m);
    if acts[m] != Step(j) {
      OthersAside(run[m], acts[m], j);
    }
  }

  lemma FinishBegins(run: seq<Sys>, acts: seq<Action>, j: nat, l: nat, k: nat)
    requires IsRun(run, acts) && k < |acts| && acts[k] == Finish(j, l)
    ensures l < |run[k].loops| == |run[k + 1].loops| && j < |run[k + 1].threads|
    ensures run[k + 1].loops[l].alive == run[k].loops[l].alive - 1
    ensures run[k + 1].loops[l].live == run[k].loops[l].live - 1
    ensures run[k + 1].threads[j] != Free <==> run[k].loops[l].alive == 1
  {
    assert StepAt(run, acts, k);
  }

  lemma FinishDone(run: seq<Sys>, acts: seq<Action>, j: nat, l: nat, k: nat, m: nat)
    requires IsRun(run, acts) && k < m < |acts| && acts[k] == Finish(j, l) && Under(run, j, k, m)
    requires j < |run[m + 1].threads| && run[m + 1].threads[j] == Free
    ensures l < |run[k].loops| && run[k].loops[l].alive == 1
    ensures acts[m] == Step(j) && run[m + 1].n == run[m].n - 1
  {
    FinishStays(run, acts, j, l, k, m);
    FinishOne(run, acts, j, l, m);
  }

  // --- Blocking ---------------------------------------------------------------

  predicate Deciding(p: Place) {
    p == Store || p == Look
  }

  /** The loop has raised its flag at one of its steps. */
  ghost predicate Flagged(run: seq<Sys>, acts: seq<Action>, l: nat, k: nat, m: nat)
    requires m <= |acts| < |run|
  {
    exists x :: k < x < m && acts[x] == LookAgain(l) && l < |run[x + 1].loops| && run[x + 1].loops[l].flag
  }

  ghost predicate BlockStage(run: seq<Sys>, acts: seq<Action>, l: nat, k: nat, m: nat)
    requires m <= |acts| < |run|
  {
    && l < |run[m].loops| && Deciding(run[m].loops[l].place)
    && (run[m].loops[l].place == Look ==> Flagged(run, acts, l, k, m))
  }

  lemma LoopAside(s: Sys, a: Action, l: nat)
    requires Shape(s) && Enabled(s, a) && l < |s.loops| && Deciding(s.loops[l].place) && a != LookAgain(l)
    ensures |Apply(s, a).loops| == |s.loops| && Apply(s, a).loops[l].place == s.loops[l].place
  {
    if a.Step? {
      assert ThreadShape(s.threads[a.j], |s.loops|);
    }
  }

  lemma BlockOne(run: seq<Sys>, acts: seq<Action>, l: nat, k: nat, m: nat)
    requires IsRun(run, acts) && k < m < |acts| && BlockStage(run, acts, l, k, m)
    ensures l < |run[m + 1].loops|
    ensures if Deciding(run[m + 1].loops[l].place) then BlockStage(run, acts, l, k, m + 1)
      else BlockEnd(run, acts, l, k, m)
  {
    assert StepAt(run, acts, m);
    if Flagged(run, acts, l, k, m) {
      var x :| k < x < m && acts[x] == LookAgain(l) && l < |run[x + 1].loops| && run[x + 1].loops[l].flag;
      assert Flagged(run, acts, l, k, m + 1);
    }
    if acts[m] != LookAgain(l) {
      LoopAside(run[m], acts[m], l);
    }
  }

  ghost predicate BlockEnd(run: seq<Sys>, acts: seq<Action>, l: nat, k: nat, m: nat)
    requires m < |acts| < |run|
  {
    && acts[m] == LookAgain(l) && Flagged(run, acts, l, k, m)
    && l < |run[m + 1].loops| && run[m + 1].loops[l].place == if run[m].n <= 0 then Blocked else Awake
  }

  lemma LookBegins(run: seq<Sys>, acts: seq<Action>, l: nat, k: nat)
    requires IsRun(run, acts) && k < |acts| && acts[k] == LookFirst(l)
    ensures l < |run[k + 1].loops|
    ensures if run[k].n <= 0 then BlockStage(run, acts, l, k, k + 1) else run[k + 1].loops == run[k].loops
  {
    assert StepAt(run, acts, k);
  }

  lemma {:induction false} BlockStays(run: seq<Sys>, acts: seq<Action>, l: nat, k: nat, m: nat)
    requires IsRun(run, acts) && k < m <= |acts| && acts[k] == LookFirst(l) && run[k].n <= 0
    requires forall x {:trigger run[x]} :: k < x <= m ==> l < |run[x].loops| && Deciding(run[x].loops[l].place)
    ensures BlockStage(run, acts, l, k, m)
  {
    LookBegins(run, acts, l, k);
    if m > k + 1 {
      BlockStays(run, acts, l, k, m - 1);
      BlockOne(run, acts, l, k, m - 1);
    }
  }

  /** A loop whose first look found no live unpinned task raises its flag, looks again,
      and blocks without a time limit if and only if there is still none. */
  lemma BlockDone(run: seq<Sys>, acts: seq<Action>, l: nat, k: nat, m: nat)
    requires IsRun(run, acts) && k < m < |acts| && acts[k] == LookFirst(l) && run[k].n <= 0
    requires forall x {:trigger run[x]} :: k < x <= m ==> l < |run[x].loops| && Deciding(run[x].loops[l].place)
    requires l < |run[m + 1].loops| && !Deciding(run[m + 1].loops[l].place)
    ensures BlockEnd(run, acts, l, k, m)
  {
    BlockStays(run, acts, l, k, m);
    BlockOne(run, acts, l, k, m);
  }

  /** A poll that returns, or is not made after all, leaves its loop awake. */
  lemma PollEnds(run: seq<Sys>, acts: seq<Action>, l: nat, k: nat)
    requires IsRun(run, acts) && k < |acts| && (acts[k] == GiveUp(l) || (acts[k].PollReturns? && acts[k].l == l))
    ensures l < |run[k + 1].loops| == |run[k].loops| && run[k + 1].loops[l].place == Awake
    ensures run[k + 1].loops[l].bell == run[k].loops[l].bell || (acts[k].PollReturns? && acts[k].eat)
  {
    assert StepAt(run, acts, k);
  }

  // --- Wakeups ----------------------------------------------------------------

  predicate Rings(s: Sys, a: Action, l: nat) {
    a.Step? && a.j < |s.threads| && s.threads[a.j].Ring? && s.threads[a.j].i == l
  }

  predicate Eats(a: Action, l: nat) {
    a == PollNow(l) || a == PollReturns(l, true)
  }

  /** Wakeups of loop l written in the first k steps, and those its polls consumed. */
  function Rung(run: seq<Sys>, acts: seq<Action>, l: nat, k: nat): nat
    requires k <= |acts| < |run|
  {
    if k == 0 then 0 else Rung(run, acts, l, k - 1) + Bit(Rings(run[k - 1], acts[k - 1], l))
  }

  function Eaten(run: seq<Sys>, acts: seq<Action>, l: nat, k: nat): nat
    requires k <= |acts| < |run|
  {
    if k == 0 then 0
    else
      Eaten(run, acts, l, k - 1)
      + if Eats(acts[k - 1], l) && l < |run[k - 1].loops| then run[k - 1].loops[l].bell else 0
  }

  lemma BellMoves(s: Sys, a: Action, l: nat)
    requires Shape(s) && Enabled(s, a) && l < |s.loops|
    ensures |Apply(s, a).loops| == |s.loops|
    ensures Apply(s, a).loops[l].bell == if Eats(a, l) then 0 else s.loops[l].bell + Bit(Rings(s, a, l))
  {
    if a.Step? {
      assert ThreadShape(s.threads[a.j], |s.loops|);
    }
  }

  /** Every wakeup written is consumed by a poll, once, or still pending. */
  lemma {:induction false} BellLedger(run: seq<Sys>, acts: seq<Action>, l: nat, k: nat)
    requires IsRun(run, acts) && k <= |acts| && l < |run[0].loops|
    ensures |run[k].loops| == |run[0].loops|
    ensures Rung(run, acts, l, k) == Eaten(run, acts, l, k) + run[k].loops[l].bell
  {
    if k > 0 {
      BellLedger(run, acts, l, k - 1);
      assert StepAt(run, acts, k - 1);
      BellMoves(run[k - 1], acts[k - 1], l);
    }
  }
}
