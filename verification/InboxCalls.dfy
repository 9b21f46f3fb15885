/**
  The inbox's operations from their call to their return, in any run: what is pushed
  is drained or still there, a push writes the owner's wakeup unless it found its flag
  down, and the owner blocks if and only if its last looks found both stacks empty.
*/
module InboxCalls {
  import opened Tally
  import opened InboxSleep

  // --- What is pushed -------------------------------------------------------

  /** The tasks on one of the two stacks. */
  function On(s: Sys, publish: bool): nat {
    if publish then s.pub else s.wake
  }

  predicate Pushes(a: Action, publish: bool) {
    a.Push? && a.publish == publish
  }

  predicate Drains(a: Action, publish: bool) {
    a == if publish then TakePub else TakeWake
  }

  /** Pushes of one kind among the first k actions, and what the drains took of it. */
  function Pushed(acts: seq<Action>, publish: bool, k: nat): nat
    requires k <= |acts|
  {
    if k == 0 then 0 else Pushed(acts, publish, k - 1) + Bit(Pushes(acts[k - 1], publish))
  }

  function Drained(run: seq<Sys>, acts: seq<Action>, publish: bool, k: nat): nat
    requires k <= |acts| < |run|
  {
    if k == 0 then 0
    else Drained(run, acts, publish, k - 1) + if Drains(acts[k - 1], publish) then On(run[k - 1], publish) else 0
  }

  lemma StackMoves(s: Sys, a: Action, publish: bool)
    requires Enabled(s, a)
    ensures On(Apply(s, a), publish)
      == if Drains(a, publish) then 0 else On(s, publish) + Bit(Pushes(a, publish))
  {
  }

  /** Every task pushed on a stack has been taken by a drain, once, or is still there. */
  lemma {:induction false} NothingLost(run: seq<Sys>, acts: seq<Action>, publish: bool, k: nat)
    requires IsRun(run, acts) && k <= |acts|
    ensures Pushed(acts, publish, k) == Drained(run, acts, publish, k) + On(run[k], publish)
  {
    if k > 0 {
      NothingLost(run, acts, publish, k - 1);
      assert StepAt(run, acts, k - 1);
      StackMoves(run[k - 1], acts[k - 1], publish);
    }
  }

  // --- A push ---------------------------------------------------------------

  /** Producer i's push, made at k, has not returned by m. */
  ghost predicate Under(run: seq<Sys>, i: nat, k: nat, m: nat)
    requires m < |run|
  {
    forall j {:trigger run[j]} :: k < j <= m ==> i < |run[j].producers| && run[j].producers[i] != Away
  }

  /** Producer i wrote the wakeup at j, or tried to and has set the flag again. */
  ghost predicate Wrote(run: seq<Sys>, acts: seq<Action>, i: nat, j: nat)
    requires j < |acts| < |run|
  {
    acts[j].Produce? && acts[j].i == i && (run[j + 1].bell == run[j].bell + 1 || run[j + 1].sleeping)
  }

  /** It found the owner's flag down at j. */
  ghost predicate FoundDown(run: seq<Sys>, acts: seq<Action>, i: nat, j: nat)
    requires j < |acts| < |run|
  {
    acts[j].Produce? && acts[j].i == i && !run[j].sleeping
  }

  /** It has taken the flag at one of its steps: it was up, and is down. */
  ghost predicate TookFlag(run: seq<Sys>, acts: seq<Action>, i: nat, k: nat, m: nat)
    requires m <= |acts| < |run|
  {
    exists j :: k < j < m && acts[j].Produce? && acts[j].i == i && run[j].sleeping && !run[j + 1].sleeping
  }

  ghost predicate PushStage(run: seq<Sys>, acts: seq<Action>, i: nat, k: nat, m: nat)
    requires m <= |acts| < |run|
  {
    && i < |run[m].producers| && run[m].producers[i] != Away
    && (run[m].producers[i] == AtWrite || run[m].producers[i] == AtRestore ==> TookFlag(run, acts, i, k, m))
  }

  lemma OthersAside(s: Sys, a: Action, i: nat)
    requires Enabled(s, a) && i < |s.producers| && !(a.Produce? && a.i == i) && !(a.Push? && a.i == i)
    ensures |Apply(s, a).producers| == |s.producers| && Apply(s, a).producers[i] == s.producers[i]
  {
  }

  lemma PushOne(run: seq<Sys>, acts: seq<Action>, i: nat, k: nat, m: nat)
    requires IsRun(run, acts) && k < m < |acts| && PushStage(run, acts, i, k, m)
    ensures i < |run[m + 1].producers|
    ensures run[m + 1].producers[i] != Away ==> PushStage(run, acts, i, k, m + 1)
    ensures run[m + 1].producers[i] == Away ==>
      FoundDown(run, acts, i, m) || (Wrote(run, acts, i, m) && TookFlag(run, acts, i, k, m))
  {
    assert StepAt(run, acts, m);
    if TookFlag(run, acts, i, k, m) {
      var j :| k < j < m && acts[j].Produce? && acts[j].i == i && run[j].sleeping && !run[j + 1].sleeping;
      assert TookFlag(run, acts, i, k, m + 1);
    }
    if !(acts[m].Produce? && acts[m].i == i) {
      OthersAside(run[m], acts[m], i);
    }
  }

  lemma PushBegins(run: seq<Sys>, acts: seq<Action>, i: nat, k: nat)
    requires IsRun(run, acts) && k < |acts| && acts[k].Push? && acts[k].i == i
    ensures PushStage(run, acts, i, k, k + 1)
  {
    assert StepAt(run, acts, k);
  }

  lemma {:induction false} PushStays(run: seq<Sys>, acts: seq<Action>, i: nat, k: nat, m: nat)
    requires IsRun(run, acts) && k < m <= |acts| && acts[k].Push? && acts[k].i == i && Under(run, i, k, m)
    ensures PushStage(run, acts, i, k, m)
  {
    if m == k + 1 {
      PushBegins(run, acts, i, k);
    } else {
      PushStays(run, acts, i, k, m - 1);
      PushOne(run, acts, i, k, m - 1);
    }
  }

  /** A push that returns found the owner's flag down; or it took the flag, and then
      wrote the wakeup or, failing that, set the flag again. */
  lemma PushDone(run: seq<Sys>, acts: seq<Action>, i: nat, k: nat, m: nat)
    requires IsRun(run, acts) && k < m < |acts| && acts[k].Push? && acts[k].i == i && Under(run, i, k, m)
    requires i < |run[m + 1].producers| && run[m + 1].producers[i] == Away
    ensures FoundDown(run, acts, i, m) || (Wrote(run, acts, i, m) && TookFlag(run, acts, i, k, m))
  {
    PushStays(run, acts, i, k, m);
    PushOne(run, acts, i, k, m);
  }

  // --- Going to sleep ---------------------------------------------------------

  predicate Deciding(o: Owner) {
    o == CheckPub || o == CheckWake || o == Withdraw
  }

  /** The owner looked at a stack at j. */
  ghost predicate Looked(run: seq<Sys>, acts: seq<Action>, publish: bool, j: nat, empty: bool)
    requires j < |acts| < |run|
  {
    acts[j] == OwnerStep && (On(run[j], publish) == 0 <==> empty)
  }

  ghost predicate PubEmpty(run: seq<Sys>, acts: seq<Action>, k: nat, m: nat)
    requires m <= |acts| < |run|
  {
    exists j :: k < j < m && Looked(run, acts, true, j, true)
  }

  ghost predicate FoundWork(run: seq<Sys>, acts: seq<Action>, k: nat, m: nat)
    requires m <= |acts| < |run|
  {
    exists j, publish :: k < j < m && Looked(run, acts, publish, j, false)
  }

  ghost predicate SleepStage(run: seq<Sys>, acts: seq<Action>, k: nat, m: nat)
    requires m <= |acts| < |run|
  {
    && Deciding(run[m].owner)
    && (run[m].owner == CheckWake ==> PubEmpty(run, acts, k, m))
    && (run[m].owner == Withdraw ==> FoundWork(run, acts, k, m))
  }

  lemma LooksStay(run: seq<Sys>, acts: seq<Action>, k: nat, m: nat)
    requires m < |acts| < |run|
    ensures PubEmpty(run, acts, k, m) ==> PubEmpty(run, acts, k, m + 1)
    ensures FoundWork(run, acts, k, m) ==> FoundWork(run, acts, k, m + 1)
  {
    if PubEmpty(run, acts, k, m) {
      var j :| k < j < m && Looked(run, acts, true, j, true);
      assert PubEmpty(run, acts, k, m + 1);
    }
    if FoundWork(run, acts, k, m) {
      var j, publish :| k < j < m && Looked(run, acts, publish, j, false);
      assert FoundWork(run, acts, k, m + 1);
    }
  }

  lemma OwnerAside(s: Sys, a: Action)
    requires Enabled(s, a) && Deciding(s.owner) && a != OwnerStep
    ensures Apply(s, a).owner == s.owner
  {
  }

  /** How the owner's last step in its decision ends it. */
  ghost predicate Sleeps(run: seq<Sys>, acts: seq<Action>, k: nat, m: nat)
    requires m < |acts| < |run|
  {
    if run[m + 1].owner == Blocked then PubEmpty(run, acts, k, m) && Looked(run, acts, false, m, true)
    else run[m + 1].owner == Awake && !run[m + 1].sleeping && FoundWork(run, acts, k, m)
  }

  lemma SleepOne(run: seq<Sys>, acts: seq<Action>, k: nat, m: nat)
    requires IsRun(run, acts) && k < m < |acts| && SleepStage(run, acts, k, m)
    ensures if Deciding(run[m + 1].owner) then SleepStage(run, acts, k, m + 1) else Sleeps(run, acts, k, m)
  {
    assert StepAt(run, acts, m);
    LooksStay(run, acts, k, m);
    if acts[m] != OwnerStep {
      OwnerAside(run[m], acts[m]);
    } else if run[m].owner == CheckPub {
      assert Looked(run, acts, true, m, run[m].pub == 0);
    } else if run[m].owner == CheckWake {
      assert Looked(run, acts, false, m, run[m].wake == 0);
    }
  }

  lemma SleepBegins(run: seq<Sys>, acts: seq<Action>, k: nat)
    requires IsRun(run, acts) && k < |acts| && acts[k] == SleepBegin
    ensures SleepStage(run, acts, k, k + 1) && run[k + 1].sleeping
  {
    assert StepAt(run, acts, k);
  }

  lemma {:induction false} SleepStays(run: seq<Sys>, acts: seq<Action>, k: nat, m: nat)
    requires IsRun(run, acts) && k < m <= |acts| && acts[k] == SleepBegin
    requires forall j {:trigger run[j]} :: k < j <= m ==> Deciding(run[j].owner)
    ensures SleepStage(run, acts, k, m)
  {
    if m == k + 1 {
      SleepBegins(run, acts, k);
    } else {
      SleepStays(run, acts, k, m - 1);
      SleepOne(run, acts, k, m - 1);
    }
  }

  /** An owner that has announced its sleep blocks, having then found the publish stack
      and after it the wake stack empty; or it has found work and withdrawn its flag. */
  lemma SleepDone(run: seq<Sys>, acts: seq<Action>, k: nat, m: nat)
    requires IsRun(run, acts) && k < m < |acts| && acts[k] == SleepBegin && !Deciding(run[m + 1].owner)
    requires forall j {:trigger run[j]} :: k < j <= m ==> Deciding(run[j].owner)
    ensures run[k + 1].sleeping && Sleeps(run, acts, k, m)
  {
    SleepBegins(run, acts, k);
    SleepStays(run, acts, k, m);
    SleepOne(run, acts, k, m);
  }

  /** Whenever the owner is awake again its flag is down, failures forgotten. */
  lemma AwakeFlagDown(run: seq<Sys>, acts: seq<Action>, k: nat)
    requires IsRun(run, acts) && k < |acts| && run[k].owner != Awake && run[k + 1].owner == Awake
    ensures !run[k + 1].sleeping && !run[k + 1].failed
  {
    assert StepAt(run, acts, k);
  }

  // --- Wakeups ----------------------------------------------------------------

  predicate Writes(s: Sys, a: Action) {
    a.Produce? && a.ok && a.i < |s.producers| && s.producers[a.i] == AtWrite
  }

  predicate Eats(a: Action) {
    a == PollNow(true) || a == PollReturns(true)
  }

  /** Wakeups written in the first k steps, and those the owner's polls consumed. */
  function Written(run: seq<Sys>, acts: seq<Action>, k: nat): nat
    requires k <= |acts| < |run|
  {
    if k == 0 then 0 else Written(run, acts, k - 1) + Bit(Writes(run[k - 1], acts[k - 1]))
  }

  function Eaten(run: seq<Sys>, acts: seq<Action>, k: nat): nat
    requires k <= |acts| < |run|
  {
    if k == 0 then 0 else Eaten(run, acts, k - 1) + if Eats(acts[k - 1]) then run[k - 1].bell else 0
  }

  lemma BellMoves(s: Sys, a: Action)
    requires Enabled(s, a)
    ensures Apply(s, a).bell == if Eats(a) then 0 else s.bell + Bit(Writes(s, a))
  {
  }

  /** Every wakeup written is consumed by a poll, once, or still pending. */
  lemma {:induction false} BellLedger(run: seq<Sys>, acts: seq<Action>, k: nat)
    requires IsRun(run, acts) && k <= |acts|
    ensures Written(run, acts, k) == Eaten(run, acts, k) + run[k].bell
  {
    if k > 0 {
      BellLedger(run, acts, k - 1);
      assert StepAt(run, acts, k - 1);
      BellMoves(run[k - 1], acts[k - 1]);
    }
  }
}
