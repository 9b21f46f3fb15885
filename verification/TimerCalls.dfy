/**
  Arming, cancelling, releasing and sweeping a timer, each from its call to its
  return and over every move of its fiber from thread to thread: what the call does
  is said of the timer, the task and the heap it was made for.
*/
module TimerCalls {
  import opened TimerRefs

  /** The thread that at m carries the call thread i made at k. */
  function Carrier(acts: seq<Action>, i: nat, k: nat, m: nat): nat
    requires k < m <= |acts|
  {
    if m == k + 1 then i
    else
      var c := Carrier(acts, i, k, m - 1);
      if acts[m - 1].Migrate? && acts[m - 1].i == c then acts[m - 1].j else c
  }

  /** The call has not returned by m. */
  ghost predicate Under(run: seq<Sys>, acts: seq<Action>, i: nat, k: nat, m: nat)
    requires m <= |acts| < |run|
  {
    forall j {:trigger run[j]} :: k < j <= m ==>
      Carrier(acts, i, k, j) < |run[j].threads| && run[j].threads[Carrier(acts, i, k, j)].call != Out
  }

  /** Where the call stands at m. */
  ghost function Now(run: seq<Sys>, acts: seq<Action>, i: nat, k: nat, m: nat): Call
    requires k < m <= |acts| < |run| && Carrier(acts, i, k, m) < |run[m].threads|
  {
    run[m].threads[Carrier(acts, i, k, m)].call
  }

  /** It returns with the step at m. */
  ghost predicate Returns(run: seq<Sys>, acts: seq<Action>, i: nat, k: nat, m: nat)
    requires m < |acts| < |run|
  {
    && k < m && Under(run, acts, i, k, m)
    && Carrier(acts, i, k, m + 1) < |run[m + 1].threads| && Now(run, acts, i, k, m + 1) == Out
  }

  /** The step at j is one of the call's own. */
  predicate Own(acts: seq<Action>, i: nat, k: nat, j: nat)
    requires k < j < |acts|
  {
    acts[j] == CallStep(Carrier(acts, i, k, j)) || acts[j] == ArmFail(Carrier(acts, i, k, j))
  }

  lemma Aside(s: Sys, a: Action, c: nat)
    requires Inv(s) && Enabled(s, a) && c < |s.threads| && s.threads[c].call != Out
    requires a != CallStep(c) && a != ArmFail(c)
    ensures var d := if a.Migrate? && a.i == c then a.j else c;
      d < |Apply(s, a).threads| && Apply(s, a).threads[d].call == s.threads[c].call
  {
    if !a.Migrate? {
      StepFrame(s, a);
    }
  }

  /** Between its own steps a call stands still, wherever it is. */
  lemma Waits(run: seq<Sys>, acts: seq<Action>, i: nat, k: nat, m: nat)
    requires IsRun(run, acts) && k < m < |acts| && Carrier(acts, i, k, m) < |run[m].threads|
    requires Now(run, acts, i, k, m) != Out && !Own(acts, i, k, m)
    ensures Carrier(acts, i, k, m + 1) < |run[m + 1].threads|
    ensures Now(run, acts, i, k, m + 1) == Now(run, acts, i, k, m)
  {
    RunKeeps(run, acts, m);
    assert StepAt(run, acts, m);
    Aside(run[m], acts[m], Carrier(acts, i, k, m));
  }

  /** Its own steps are taken where it is. */
  lemma Steps(run: seq<Sys>, acts: seq<Action>, i: nat, k: nat, m: nat)
    requires IsRun(run, acts) && k < m < |acts| && Own(acts, i, k, m)
    ensures Inv(run[m]) && StepAt(run, acts, m) && |run[m + 1].threads| == |run[m].threads|
    ensures Carrier(acts, i, k, m + 1) == Carrier(acts, i, k, m) < |run[m].threads|
  {
    RunKeeps(run, acts, m);
    assert StepAt(run, acts, m);
    StepFrame(run[m], acts[m]);
  }

  // --- Arming -------------------------------------------------------------

  /** n is in the heap of the thread that armed it. */
  predicate Queued(s: Sys, n: nat, i: nat, k: Kind) {
    At(s, n).live && At(s, n).queued && At(s, n).owner == i && At(s, n).kind == k
  }

  /** What the arming call has done by m: nothing yet, or pushed n at one of its steps. */
  ghost predicate Pushed(run: seq<Sys>, acts: seq<Action>, i: nat, k: nat, m: nat, n: nat, kind: Kind)
    requires k < m <= |acts| < |run|
  {
    exists j :: k < j < m && Own(acts, i, k, j) && Queued(run[j + 1], n, i, kind)
  }

  predicate Arming(c: Call, n: nat, kind: Kind) {
    c == ArmPush(n, kind) || (kind.Park? && c == ArmSlot(n, kind.task))
  }

  /** The owner of a node about to be pushed is the thread that allocated it. */
  ghost predicate ArmStage(run: seq<Sys>, acts: seq<Action>, i: nat, k: nat, m: nat, n: nat, kind: Kind)
    requires k < m <= |acts| < |run|
  {
    && Carrier(acts, i, k, m) < |run[m].threads| && Arming(Now(run, acts, i, k, m), n, kind)
    && (Now(run, acts, i, k, m).ArmSlot? ==> Pushed(run, acts, i, k, m, n, kind))
    && (Now(run, acts, i, k, m).ArmPush? ==>
          At(run[m], n).live && At(run[m], n).owner == i && At(run[m], n).kind == kind)
  }

  predicate Arms(a: Action, i: nat, n: nat, kind: Kind) {
    a == if kind.Park? then ParkOn(i, n, kind.task) else SetUser(i, n, kind.handle)
  }

  lemma ArmBegins(run: seq<Sys>, acts: seq<Action>, i: nat, k: nat, n: nat, kind: Kind)
    requires IsRun(run, acts) && k < |acts| && Arms(acts[k], i, n, kind)
    ensures ArmStage(run, acts, i, k, k + 1, n, kind) && At(run[k + 1], n).fired == Pending
  {
    assert StepAt(run, acts, k);
  }

  lemma ArmWaits(run: seq<Sys>, acts: seq<Action>, i: nat, k: nat, m: nat, n: nat, kind: Kind)
    requires IsRun(run, acts) && k < m < |acts| && ArmStage(run, acts, i, k, m, n, kind) && !Own(acts, i, k, m)
    ensures ArmStage(run, acts, i, k, m + 1, n, kind)
  {
    Waits(run, acts, i, k, m);
    RunKeeps(run, acts, m);
    RunKeeps(run, acts, m + 1);
    if Now(run, acts, i, k, m).ArmPush? {
      var c := Carrier(acts, i, k, m + 1);
      assert ThreadOk(run[m + 1], c) && RefsOk(run[m + 1], n);
      NamedIsLive(run[m + 1], c, n);
      assert StepAt(run, acts, m);
      OwnerStays(run[m], acts[m], n);
    } else {
      var j :| k < j < m && Own(acts, i, k, j) && Queued(run[j + 1], n, i, kind);
    }
  }

  /** The call's own step: it fails to push, pushes, or stores the slot. */
  lemma ArmSteps(run: seq<Sys>, acts: seq<Action>, i: nat, k: nat, m: nat, n: nat, kind: Kind)
    requires IsRun(run, acts) && k < m < |acts| && ArmStage(run, acts, i, k, m, n, kind) && Own(acts, i, k, m)
    ensures Carrier(acts, i, k, m + 1) < |run[m + 1].threads|
    ensures Now(run, acts, i, k, m + 1) != Out ==> ArmStage(run, acts, i, k, m + 1, n, kind)
    ensures Now(run, acts, i, k, m + 1) == Out ==> ArmEnd(run, acts, i, k, m, n, kind)
  {
    Steps(run, acts, i, k, m);
    if Now(run, acts, i, k, m).ArmPush? && acts[m].CallStep? {
      assert Queued(run[m + 1], n, i, kind);
    } else if Now(run, acts, i, k, m).ArmSlot? {
      var j :| k < j < m && Own(acts, i, k, j) && Queued(run[j + 1], n, i, kind);
    }
  }

  /** How an arming call ends: the node is gone; or it is in the heap, the caller has
      its handle if it wanted one, and the task's slot names it if it is a park timer. */
  ghost predicate ArmEnd(run: seq<Sys>, acts: seq<Action>, i: nat, k: nat, m: nat, n: nat, kind: Kind)
    requires k < m < |acts| < |run|
  {
    if acts[m].ArmFail? then !At(run[m + 1], n).live
    else
      && Pushed(run, acts, i, k, m + 1, n, kind)
      && match kind
         case Park(t) => run[m + 1].slots(t) == Holds(n)
         case User(h) => Queued(run[m + 1], n, i, kind) && At(run[m + 1], n).handle == h
  }

  lemma {:induction false} ArmStays(run: seq<Sys>, acts: seq<Action>, i: nat, k: nat, m: nat, n: nat, kind: Kind)
    requires IsRun(run, acts) && k < m <= |acts| && Arms(acts[k], i, n, kind) && Under(run, acts, i, k, m)
    ensures ArmStage(run, acts, i, k, m, n, kind)
  {
    if m == k + 1 {
      ArmBegins(run, acts, i, k, n, kind);
    } else {
      ArmStays(run, acts, i, k, m - 1, n, kind);
      if Own(acts, i, k, m - 1) {
        ArmSteps(run, acts, i, k, m - 1, n, kind);
      } else {
        ArmWaits(run, acts, i, k, m - 1, n, kind);
      }
    }
  }

  /** A call that arms n, from its allocation to its return. */
  lemma ArmDone(run: seq<Sys>, acts: seq<Action>, i: nat, k: nat, m: nat, n: nat, kind: Kind)
    requires IsRun(run, acts) && m < |acts| && k < |acts| && Arms(acts[k], i, n, kind) && Returns(run, acts, i, k, m)
    ensures Own(acts, i, k, m) && ArmEnd(run, acts, i, k, m, n, kind)
  {
    ArmStays(run, acts, i, k, m, n, kind);
    if Own(acts, i, k, m) {
      ArmSteps(run, acts, i, k, m, n, kind);
    } else {
      ArmWaits(run, acts, i, k, m, n, kind);
    }
  }

  // --- Cancelling -----------------------------------------------------------

  /** The step decides against the call: n was no longer pending. */
  predicate Loses(s: Sys, s': Sys, n: nat) {
    At(s, n).live && At(s, n).fired != Pending && At(s', n) == At(s, n)
  }

  /** Or for it: n was pending, has not fired and never will. */
  predicate Wins(s: Sys, s': Sys, n: nat) {
    At(s, n).live && At(s, n).fired == Pending && At(s', n) == At(s, n).(fired := Cancelled, won := true)
  }

  /** n is marked, and off its heap if that is thread c's. */
  predicate TakenOff(s: Sys, n: nat, c: nat) {
    At(s, n).cancelled && (At(s, n).owner == c ==> !At(s, n).queued)
  }

  ghost predicate HasLost(run: seq<Sys>, acts: seq<Action>, i: nat, k: nat, m: nat, n: nat)
    requires k < m <= |acts| < |run|
  {
    exists j :: k < j < m && Own(acts, i, k, j) && Loses(run[j], run[j + 1], n)
  }

  ghost predicate HasWon(run: seq<Sys>, acts: seq<Action>, i: nat, k: nat, m: nat, n: nat)
    requires k < m <= |acts| < |run|
  {
    exists j :: k < j < m && Own(acts, i, k, j) && Wins(run[j], run[j + 1], n)
  }

  ghost predicate HasTaken(run: seq<Sys>, acts: seq<Action>, i: nat, k: nat, m: nat, n: nat)
    requires k < m <= |acts| < |run|
  {
    exists j :: k < j < m && Own(acts, i, k, j) && TakenOff(run[j + 1], n, Carrier(acts, i, k, j))
  }

  /** The call is decided: lost; or won, marked and taken off the heap. */
  ghost predicate Decided(run: seq<Sys>, acts: seq<Action>, i: nat, k: nat, m: nat, n: nat)
    requires k < m <= |acts| < |run|
  {
    HasLost(run, acts, i, k, m, n) || (HasWon(run, acts, i, k, m, n) && HasTaken(run, acts, i, k, m, n))
  }

  predicate Cancelling(c: Call, n: nat, how: How) {
    || ((c.CancelCas? || c.CancelMark? || c.CancelHeap? || c.CancelDrop?) && c.n == n && c.how == how)
    || (how == BySlot && c.LetGo? && c.n == n)
  }

  ghost predicate CancelStage(run: seq<Sys>, acts: seq<Action>, i: nat, k: nat, m: nat, n: nat, how: How)
    requires k < m <= |acts| < |run|
  {
    && Carrier(acts, i, k, m) < |run[m].threads|
    && var c := Now(run, acts, i, k, m);
       && Cancelling(c, n, how)
       && (c.CancelMark? || c.CancelHeap? ==> HasWon(run, acts, i, k, m, n))
       && (c.CancelDrop? || c.LetGo? ==> Decided(run, acts, i, k, m, n))
  }

  /** What has been done stays done. */
  lemma DecidedStays(run: seq<Sys>, acts: seq<Action>, i: nat, k: nat, m: nat, n: nat)
    requires k < m < |acts| < |run|
    ensures HasLost(run, acts, i, k, m, n) ==> HasLost(run, acts, i, k, m + 1, n)
    ensures HasWon(run, acts, i, k, m, n) ==> HasWon(run, acts, i, k, m + 1, n)
    ensures HasTaken(run, acts, i, k, m, n) ==> HasTaken(run, acts, i, k, m + 1, n)
  {
    if HasLost(run, acts, i, k, m, n) {
      var j :| k < j < m && Own(acts, i, k, j) && Loses(run[j], run[j + 1], n);
    }
    if HasWon(run, acts, i, k, m, n) {
      var j :| k < j < m && Own(acts, i, k, j) && Wins(run[j], run[j + 1], n);
    }
    if HasTaken(run, acts, i, k, m, n) {
      var j :| k < j < m && Own(acts, i, k, j) && TakenOff(run[j + 1], n, Carrier(acts, i, k, j));
    }
  }

  /** The deciding steps, from the code. */
  lemma CancelDecides(s: Sys, c: nat, n: nat, how: How)
    requires Inv(s) && Enabled(s, CallStep(c)) && Cancelling(s.threads[c].call, n, how)
    ensures var s' := CallNext(s, c);
      && |s'.threads| == |s.threads|
      && var d := s'.threads[c].call;
         && (d == Out || Cancelling(d, n, how))
         && match s.threads[c].call
            case CancelCas(_, _) => if d.CancelMark? then Wins(s, s', n) else Loses(s, s', n) && (d == Out || d.LetGo?)
            case CancelMark(_, _) => d.CancelHeap?
            case CancelHeap(_, _) => TakenOff(s', n, c) && (d == Out || d.CancelDrop? || d.LetGo?)
            case _ => d == Out || d.CancelDrop? || d.LetGo?
  {
    assert ThreadOk(s, c) && RefsOk(s, n);
    NamedIsLive(s, c, n);
  }

  lemma CancelSteps(run: seq<Sys>, acts: seq<Action>, i: nat, k: nat, m: nat, n: nat, how: How)
    requires IsRun(run, acts) && k < m < |acts| && CancelStage(run, acts, i, k, m, n, how) && Own(acts, i, k, m)
    ensures Carrier(acts, i, k, m + 1) < |run[m + 1].threads|
    ensures Now(run, acts, i, k, m + 1) != Out ==> CancelStage(run, acts, i, k, m + 1, n, how)
    ensures Now(run, acts, i, k, m + 1) == Out ==> Decided(run, acts, i, k, m + 1, n)
  {
    Steps(run, acts, i, k, m);
    DecidedStays(run, acts, i, k, m, n);
    var c := Carrier(acts, i, k, m);
    CancelDecides(run[m], c, n, how);
    if Now(run, acts, i, k, m).CancelHeap? {
      assert TakenOff(run[m + 1], n, c);
    }
  }

  lemma CancelWaits(run: seq<Sys>, acts: seq<Action>, i: nat, k: nat, m: nat, n: nat, how: How)
    requires IsRun(run, acts) && k < m < |acts| && CancelStage(run, acts, i, k, m, n, how) && !Own(acts, i, k, m)
    ensures CancelStage(run, acts, i, k, m + 1, n, how)
  {
    Waits(run, acts, i, k, m);
    DecidedStays(run, acts, i, k, m, n);
  }

  /** A cancel through a handle, or of what the task's slot names, which it empties. */
  ghost predicate Begins(s: Sys, a: Action, i: nat, n: nat, how: How) {
    match how
    case ByHandle => a == CancelHandle(i, n)
    case BySlot => a.CancelPark? && a.i == i && s.slots(a.task) == Holds(n)
  }

  lemma CancelBegins(run: seq<Sys>, acts: seq<Action>, i: nat, k: nat, n: nat, how: How)
    requires IsRun(run, acts) && k < |acts| && Begins(run[k], acts[k], i, n, how)
    ensures CancelStage(run, acts, i, k, k + 1, n, how)
    ensures how == BySlot ==> run[k + 1].slots(acts[k].task) == None
  {
    assert StepAt(run, acts, k);
  }

  lemma {:induction false} CancelStays(run: seq<Sys>, acts: seq<Action>, i: nat, k: nat, m: nat, n: nat, how: How)
    requires IsRun(run, acts) && k < m <= |acts| && Begins(run[k], acts[k], i, n, how) && Under(run, acts, i, k, m)
    ensures CancelStage(run, acts, i, k, m, n, how)
  {
    if m == k + 1 {
      CancelBegins(run, acts, i, k, n, how);
    } else {
      CancelStays(run, acts, i, k, m - 1, n, how);
      if Own(acts, i, k, m - 1) {
        CancelSteps(run, acts, i, k, m - 1, n, how);
      } else {
        CancelWaits(run, acts, i, k, m - 1, n, how);
      }
    }
  }

  /** A cancel that has returned was decided at one of its own steps: it lost, n being
      pending no more; or it won, marked n, and took it off its heap if that was the
      heap of the thread it had come to. */
  lemma CancelDone(run: seq<Sys>, acts: seq<Action>, i: nat, k: nat, m: nat, n: nat, how: How)
    requires IsRun(run, acts) && m < |acts| && k < |acts| && Begins(run[k], acts[k], i, n, how)
    requires Returns(run, acts, i, k, m)
    ensures Own(acts, i, k, m) && Decided(run, acts, i, k, m + 1, n)
    ensures how == BySlot ==> run[k + 1].slots(acts[k].task) == None
  {
    CancelBegins(run, acts, i, k, n, how);
    CancelStays(run, acts, i, k, m, n, how);
    if Own(acts, i, k, m) {
      CancelSteps(run, acts, i, k, m, n, how);
    } else {
      CancelWaits(run, acts, i, k, m, n, how);
    }
  }

  // --- Releasing ------------------------------------------------------------

  /** The step gives up the reference of n's other owner: its handle's or its slot's. */
  ghost predicate GivesBack(s: Sys, s': Sys, n: nat) {
    At(s, n).live && At(s', n).refs + 1 == At(s, n).refs && OtherRefs(s', n) + 1 == OtherRefs(s, n)
  }

  ghost predicate HasGiven(run: seq<Sys>, acts: seq<Action>, i: nat, k: nat, m: nat, n: nat)
    requires k < m <= |acts| < |run|
  {
    exists j :: k < j < m && Own(acts, i, k, j) && GivesBack(run[j], run[j + 1], n)
  }

  /** From its first look at the count to its end. */
  ghost predicate ReleaseStage(run: seq<Sys>, acts: seq<Action>, i: nat, k: nat, m: nat, n: nat)
    requires k < m <= |acts| < |run|
  {
    && Carrier(acts, i, k, m) < |run[m].threads|
    && var c := Now(run, acts, i, k, m);
       c.LetGo? && c.n == n && (c.st == Free ==> HasGiven(run, acts, i, k, m, n))
  }

  lemma ReleaseSteps(s: Sys, c: nat, n: nat)
    requires Inv(s) && Enabled(s, CallStep(c)) && s.threads[c].call.LetGo? && s.threads[c].call.n == n
    ensures var s', st := CallNext(s, c), s.threads[c].call.st;
      && |s'.threads| == |s.threads|
      && (st == Load ==> s'.threads[c].call == LetGo(n, Sub))
      && (st == Sub ==> GivesBack(s, s', n) && s'.threads[c].call in {Out, LetGo(n, Free)})
      && (st == Free ==> s'.threads[c].call == Out)
  {
    assert ThreadOk(s, c) && RefsOk(s, n);
    HasRef(s, c, n);
    ThreadRefs(s, CallNext(s, c), c, n);
  }

  lemma ReleaseOne(run: seq<Sys>, acts: seq<Action>, i: nat, k: nat, m: nat, n: nat)
    requires IsRun(run, acts) && k < m < |acts| && ReleaseStage(run, acts, i, k, m, n)
    ensures Carrier(acts, i, k, m + 1) < |run[m + 1].threads|
    ensures Now(run, acts, i, k, m + 1) != Out ==> ReleaseStage(run, acts, i, k, m + 1, n)
    ensures Now(run, acts, i, k, m + 1) == Out ==> HasGiven(run, acts, i, k, m + 1, n)
  {
    if HasGiven(run, acts, i, k, m, n) {
      var j :| k < j < m && Own(acts, i, k, j) && GivesBack(run[j], run[j + 1], n);
      assert HasGiven(run, acts, i, k, m + 1, n);
    }
    if Own(acts, i, k, m) {
      Steps(run, acts, i, k, m);
      ReleaseSteps(run[m], Carrier(acts, i, k, m), n);
    } else {
      Waits(run, acts, i, k, m);
    }
  }

  lemma ReleaseBegins(run: seq<Sys>, acts: seq<Action>, i: nat, k: nat, n: nat)
    requires IsRun(run, acts) && k < |acts| && acts[k] == ReleaseHandle(i, n)
    ensures ReleaseStage(run, acts, i, k, k + 1, n) && !At(run[k + 1], n).handle
  {
    assert StepAt(run, acts, k);
  }

  lemma {:induction false} ReleaseStays(run: seq<Sys>, acts: seq<Action>, i: nat, k: nat, m: nat, n: nat)
    requires IsRun(run, acts) && k < m <= |acts| && acts[k] == ReleaseHandle(i, n) && Under(run, acts, i, k, m)
    ensures ReleaseStage(run, acts, i, k, m, n)
  {
    if m == k + 1 {
      ReleaseBegins(run, acts, i, k, n);
    } else {
      ReleaseStays(run, acts, i, k, m - 1, n);
      ReleaseOne(run, acts, i, k, m - 1, n);
    }
  }

  /** A release of a handle that has returned has taken the handle from the caller and
      given its reference back, at one step. */
  lemma ReleaseDone(run: seq<Sys>, acts: seq<Action>, i: nat, k: nat, m: nat, n: nat)
    requires IsRun(run, acts) && m < |acts| && k < |acts| && acts[k] == ReleaseHandle(i, n)
    requires Returns(run, acts, i, k, m)
    ensures !At(run[k + 1], n).handle && HasGiven(run, acts, i, k, m + 1, n)
  {
    ReleaseBegins(run, acts, i, k, n);
    ReleaseStays(run, acts, i, k, m, n);
    ReleaseOne(run, acts, i, k, m, n);
  }

  lemma SlotOne(run: seq<Sys>, acts: seq<Action>, i: nat, k: nat, m: nat, n: nat)
    requires IsRun(run, acts) && k < m < |acts| && CancelStage(run, acts, i, k, m, n, BySlot)
    requires Now(run, acts, i, k, m).LetGo? ==> ReleaseStage(run, acts, i, k, m, n)
    requires Carrier(acts, i, k, m + 1) < |run[m + 1].threads|
    ensures Now(run, acts, i, k, m + 1).LetGo? ==> ReleaseStage(run, acts, i, k, m + 1, n)
  {
    if Now(run, acts, i, k, m).LetGo? {
      ReleaseOne(run, acts, i, k, m, n);
    } else if Own(acts, i, k, m) {
      SlotSteps(run, acts, i, k, m, n);
    } else {
      Waits(run, acts, i, k, m);
    }
  }

  lemma SlotBegins(run: seq<Sys>, acts: seq<Action>, i: nat, k: nat, n: nat)
    requires IsRun(run, acts) && k < |acts| && Begins(run[k], acts[k], i, n, BySlot)
    ensures i < |run[k + 1].threads| && !run[k + 1].threads[i].call.LetGo?
  {
    assert StepAt(run, acts, k);
  }

  /** A cancel through the slot comes to its release. */
  lemma {:induction false} SlotStays(run: seq<Sys>, acts: seq<Action>, i: nat, k: nat, m: nat, n: nat)
    requires IsRun(run, acts) && k < m <= |acts| && Begins(run[k], acts[k], i, n, BySlot) && Under(run, acts, i, k, m)
    ensures CancelStage(run, acts, i, k, m, n, BySlot)
    ensures Now(run, acts, i, k, m).LetGo? ==> ReleaseStage(run, acts, i, k, m, n)
  {
    CancelStays(run, acts, i, k, m, n, BySlot);
    if m == k + 1 {
      SlotBegins(run, acts, i, k, n);
    } else {
      SlotStays(run, acts, i, k, m - 1, n);
      SlotOne(run, acts, i, k, m - 1, n);
    }
  }

  lemma SlotSteps(run: seq<Sys>, acts: seq<Action>, i: nat, k: nat, m: nat, n: nat)
    requires IsRun(run, acts) && k < m < |acts| && CancelStage(run, acts, i, k, m, n, BySlot) && Own(acts, i, k, m)
    requires !Now(run, acts, i, k, m).LetGo?
    ensures Carrier(acts, i, k, m + 1) < |run[m + 1].threads| && Now(run, acts, i, k, m + 1) != Out
    ensures Now(run, acts, i, k, m + 1).LetGo? ==> ReleaseStage(run, acts, i, k, m + 1, n)
  {
    Steps(run, acts, i, k, m);
  }

  /** So a cancel of a task's park timer that has returned has also given the slot's
      reference back. */
  lemma SlotDone(run: seq<Sys>, acts: seq<Action>, i: nat, k: nat, m: nat, n: nat)
    requires IsRun(run, acts) && m < |acts| && k < |acts| && Begins(run[k], acts[k], i, n, BySlot)
    requires Returns(run, acts, i, k, m)
    ensures Decided(run, acts, i, k, m + 1, n) && HasGiven(run, acts, i, k, m + 1, n)
  {
    CancelDone(run, acts, i, k, m, n, BySlot);
    SlotStays(run, acts, i, k, m, n);
    if Now(run, acts, i, k, m).LetGo? {
      ReleaseOne(run, acts, i, k, m, n);
    } else {
      SlotSteps(run, acts, i, k, m, n);
    }
  }

  // --- Sweeping -------------------------------------------------------------

  /** The sweep's look at n: it goes off the heap if it is cancelled, and only then. */
  predicate Looks(s: Sys, s': Sys, n: nat) {
    At(s, n).queued && At(s', n) == At(s, n).(queued := At(s, n).fired != Cancelled)
  }

  ghost predicate HasLooked(run: seq<Sys>, acts: seq<Action>, i: nat, k: nat, m: nat, n: nat)
    requires k < m <= |acts| < |run|
  {
    exists j :: k < j < m && Own(acts, i, k, j) && Looks(run[j], run[j + 1], n)
  }

  ghost predicate SweepStage(run: seq<Sys>, acts: seq<Action>, i: nat, k: nat, m: nat, n: nat)
    requires k < m <= |acts| < |run|
  {
    && Carrier(acts, i, k, m) < |run[m].threads|
    && var c := Now(run, acts, i, k, m);
       c == SweepLook(n) || (c.SweepDrop? && c.n == n && HasLooked(run, acts, i, k, m, n))
  }

  lemma SweepLooks(s: Sys, c: nat, n: nat)
    requires Inv(s) && Enabled(s, CallStep(c)) && s.threads[c].call == SweepLook(n)
    ensures Looks(s, CallNext(s, c), n)
    ensures CallNext(s, c).threads[c].call in {Out, SweepDrop(n, Load)}
  {
    assert ThreadOk(s, c);
  }

  lemma LookedStays(run: seq<Sys>, acts: seq<Action>, i: nat, k: nat, m: nat, n: nat)
    requires k < m < |acts| < |run| && HasLooked(run, acts, i, k, m, n)
    ensures HasLooked(run, acts, i, k, m + 1, n)
  {
    var j :| k < j < m && Own(acts, i, k, j) && Looks(run[j], run[j + 1], n);
  }

  lemma SweepSteps(run: seq<Sys>, acts: seq<Action>, i: nat, k: nat, m: nat, n: nat)
    requires IsRun(run, acts) && k < m < |acts| && SweepStage(run, acts, i, k, m, n) && Own(acts, i, k, m)
    ensures Carrier(acts, i, k, m + 1) < |run[m + 1].threads| && HasLooked(run, acts, i, k, m + 1, n)
    ensures var c := Now(run, acts, i, k, m + 1); c == Out || (c.SweepDrop? && c.n == n)
  {
    Steps(run, acts, i, k, m);
    if Now(run, acts, i, k, m) == SweepLook(n) {
      SweepLooks(run[m], Carrier(acts, i, k, m), n);
    } else {
      LookedStays(run, acts, i, k, m, n);
    }
  }

  lemma SweepOne(run: seq<Sys>, acts: seq<Action>, i: nat, k: nat, m: nat, n: nat)
    requires IsRun(run, acts) && k < m < |acts| && SweepStage(run, acts, i, k, m, n)
    ensures Carrier(acts, i, k, m + 1) < |run[m + 1].threads|
    ensures Now(run, acts, i, k, m + 1) != Out ==> SweepStage(run, acts, i, k, m + 1, n)
    ensures Now(run, acts, i, k, m + 1) == Out ==> HasLooked(run, acts, i, k, m + 1, n)
  {
    if Own(acts, i, k, m) {
      SweepSteps(run, acts, i, k, m, n);
    } else {
      Waits(run, acts, i, k, m);
      if Now(run, acts, i, k, m).SweepDrop? {
        LookedStays(run, acts, i, k, m, n);
      }
    }
  }

  lemma SweepBegins(run: seq<Sys>, acts: seq<Action>, i: nat, k: nat, n: nat)
    requires IsRun(run, acts) && k < |acts| && acts[k] == Sweep(i, n)
    ensures SweepStage(run, acts, i, k, k + 1, n)
  {
    assert StepAt(run, acts, k);
  }

  lemma {:induction false} SweepStays(run: seq<Sys>, acts: seq<Action>, i: nat, k: nat, m: nat, n: nat)
    requires IsRun(run, acts) && k < m <= |acts| && acts[k] == Sweep(i, n) && Under(run, acts, i, k, m)
    ensures SweepStage(run, acts, i, k, m, n)
  {
    if m == k + 1 {
      SweepBegins(run, acts, i, k, n);
    } else {
      SweepStays(run, acts, i, k, m - 1, n);
      SweepOne(run, acts, i, k, m - 1, n);
    }
  }

  /** A sweep of n that has returned has looked at it once, and has taken it off the
      heap exactly if it was cancelled. */
  lemma SweepDone(run: seq<Sys>, acts: seq<Action>, i: nat, k: nat, m: nat, n: nat)
    requires IsRun(run, acts) && m < |acts| && k < |acts| && acts[k] == Sweep(i, n) && Returns(run, acts, i, k, m)
    ensures HasLooked(run, acts, i, k, m + 1, n)
  {
    SweepStays(run, acts, i, k, m, n);
    SweepOne(run, acts, i, k, m, n);
  }
}
