/**
  When timers fire, over whole runs.  A timer's heap reference goes only when it has
  fired or a cancel of it has won, so an armed timer that nobody cancels fires
  exactly once; it fires only after a drain found it due; and a drain that looks at a
  due timer does not let go of it before that.
*/
module TimerFires {
  import opened Tally
  import opened TimerRefs

  /** A drain has claimed n and not yet fired it. */
  predicate Claims(d: Drain, n: nat) {
    (d.Pop? || d.Check?) && d.n == n
  }

  function ByClaim(n: nat): Thread -> nat { (th: Thread) => Bit(Claims(th.drain, n)) }
  function ByArm(n: nat): Thread -> nat { (th: Thread) => Bit(th.call.ArmPush? && th.call.n == n) }

  ghost function Claimers(s: Sys, n: nat): nat {
    Total(s.threads, ByClaim(n))
  }

  /** Threads about to push n. */
  ghost function Armers(s: Sys, n: nat): nat {
    Total(s.threads, ByArm(n))
  }

  /** A live node's fate: pending, it is in its heap or about to be; claimed, it has
      fired or one drain is about to fire it.  A dead node is nobody's. */
  ghost predicate Fate(s: Sys, n: nat) {
    if At(s, n).live then
      && At(s, n).fires + Claimers(s, n) == Bit(At(s, n).fired == Fired)
      && (At(s, n).fired == Pending ==> At(s, n).queued || Armers(s, n) > 0)
      && (At(s, n).queued || Armers(s, n) > 0 ==> At(s, n).fires == 0)
    else
      Claimers(s, n) == 0
  }

  /** What a change of one thread does to the two totals. */
  lemma Counts(s: Sys, s': Sys, i: nat, n: nat)
    requires i < |s.threads| && |s'.threads| == |s.threads| && s'.threads == s.threads[i := s'.threads[i]]
    ensures Claimers(s', n) + Bit(Claims(s.threads[i].drain, n)) == Claimers(s, n) + Bit(Claims(s'.threads[i].drain, n))
    ensures Armers(s', n) + ByArm(n)(s.threads[i]) == Armers(s, n) + ByArm(n)(s'.threads[i])
    ensures Bit(Claims(s.threads[i].drain, n)) <= Claimers(s, n) && ByArm(n)(s.threads[i]) <= Armers(s, n)
  {
    TotalUpdate(s.threads, ByClaim(n), i, s'.threads[i]);
    TotalUpdate(s.threads, ByArm(n), i, s'.threads[i]);
  }

  /** Whoever has claimed n, or is about to push it, keeps the heap's reference alive. */
  lemma ClaimHolds(s: Sys, n: nat)
    requires Inv(s) && Claimers(s, n) > 0
    ensures HeapRefs(s, n) > 0 && At(s, n).live
  {
    var i := TotalHolder(s.threads, ByClaim(n));
    assert ThreadOk(s, i) && RefsOk(s, n);
    ThreadRefs(s, s, i, n);
    HasRef(s, i, n);
  }

  lemma ArmHolds(s: Sys, n: nat)
    requires Inv(s) && Armers(s, n) > 0
    ensures HeapRefs(s, n) > 0 && At(s, n).live
  {
    var i := TotalHolder(s.threads, ByArm(n));
    assert ThreadOk(s, i) && RefsOk(s, n);
    ThreadRefs(s, s, i, n);
    HasRef(s, i, n);
  }

  lemma NotBoth(s: Sys, i: nat, n: nat)
    requires Inv(s) && i < |s.threads| && s.threads[i].call.ArmPush? && s.threads[i].call.n == n
    ensures Claimers(s, n) == 0
  {
    if Claimers(s, n) > 0 {
      var j := TotalHolder(s.threads, ByClaim(n));
      assert ThreadOk(s, i) && ThreadOk(s, j) && RefsOk(s, n);
      OneHeapHolder(s, i, j, n);
    }
  }

  /** A queued node is claimed only by its own heap's thread, at its pop. */
  lemma QueuedClaim(s: Sys, n: nat)
    requires Inv(s) && Claimers(s, n) > 0 && At(s, n).queued
    ensures At(s, n).owner < |s.threads| && s.threads[At(s, n).owner].drain == Pop(n)
  {
    var i := TotalHolder(s.threads, ByClaim(n));
    assert ThreadOk(s, i) && RefsOk(s, n);
    HasRef(s, i, n);
  }

  /** A drain that has popped n has the heap's only reference. */
  lemma PoppedAlone(s: Sys, i: nat, n: nat)
    requires Inv(s) && i < |s.threads| && s.threads[i].drain == Check(n)
    ensures !At(s, n).queued && Armers(s, n) == 0
  {
    assert RefsOk(s, n) && ThreadOk(s, i);
    HasRef(s, i, n);
    if Armers(s, n) > 0 {
      var j := TotalHolder(s.threads, ByArm(n));
      assert ThreadOk(s, j);
      OneHeapHolder(s, j, i, n);
    }
  }

  lemma NotDying(s: Sys, i: nat, n: nat)
    requires Inv(s) && i < |s.threads| && Dying(s.threads[i], n) > 0
    ensures Claimers(s, n) == 0
  {
    assert RefsOk(s, n);
    ThreadRefs(s, s, i, n);
    if Claimers(s, n) > 0 {
      ClaimHolds(s, n);
    }
  }

  // --- One step -----------------------------------------------------------

  /** A step of thread i after which n is as live, and as often fired, claimed and
      pushed, as before. */
  ghost predicate Quiet(s: Sys, s': Sys, i: nat, n: nat)
    requires i < |s.threads|
  {
    && |s'.threads| == |s.threads| && s'.threads == s.threads[i := s'.threads[i]]
    && At(s', n).live == At(s, n).live && At(s', n).fires == At(s, n).fires
    && (Claims(s'.threads[i].drain, n) <==> Claims(s.threads[i].drain, n))
    && (At(s', n).fired == Fired <==> At(s, n).fired == Fired)
    && (At(s', n).fired == Pending ==> At(s, n).fired == Pending)
    && (At(s', n).fired == Pending && At(s', n).live ==>
          Bit(At(s, n).queued) + ByArm(n)(s.threads[i]) <= Bit(At(s', n).queued) + ByArm(n)(s'.threads[i]))
    && Bit(At(s', n).queued) + ByArm(n)(s'.threads[i]) <= Bit(At(s, n).queued) + ByArm(n)(s.threads[i])
  }

  lemma QuietFate(s: Sys, s': Sys, i: nat, n: nat)
    requires i < |s.threads| && Fate(s, n) && Quiet(s, s', i, n)
    ensures Fate(s', n)
  {
    Counts(s, s', i, n);
  }

  lemma BeginQuiet(s: Sys, a: Action, n: nat)
    requires Enabled(s, a) && (a.CancelPark? || a.CancelHandle? || a.ReleaseHandle? || a.Sweep? || a.Pick?)
    ensures Quiet(s, Apply(s, a), a.i, n)
  {
  }

  lemma ArmQuiet(s: Sys, i: nat, n: nat)
    requires Enabled(s, CallStep(i)) && (s.threads[i].call.ArmPush? || s.threads[i].call.ArmSlot?)
    requires At(s, s.threads[i].call.n).live ==> !At(s, s.threads[i].call.n).queued || s.threads[i].call.ArmSlot?
    ensures Quiet(s, CallNext(s, i), i, n)
  {
  }

  lemma CancelQuiet(s: Sys, i: nat, n: nat)
    requires Enabled(s, CallStep(i)) && ThreadOk(s, i)
    requires s.threads[i].call.CancelCas? || s.threads[i].call.CancelMark? || s.threads[i].call.CancelHeap?
    ensures Quiet(s, CallNext(s, i), i, n)
  {
  }

  lemma SweepQuiet(s: Sys, i: nat, n: nat)
    requires Enabled(s, CallStep(i)) && s.threads[i].call.SweepLook?
    ensures Quiet(s, CallNext(s, i), i, n)
  {
  }

  lemma DropQuiet(s: Sys, i: nat, n: nat)
    requires Enabled(s, CallStep(i)) && Dropping(s.threads[i].call)
    requires s.threads[i].call.n != n || s.threads[i].call.st != Free
    ensures Quiet(s, CallNext(s, i), i, n)
  {
  }

  lemma LookQuiet(s: Sys, i: nat, due: bool, n: nat)
    requires Enabled(s, DrainStep(i, due)) && (s.threads[i].drain.Top? || s.threads[i].drain.ClaimIt?)
    requires s.threads[i].drain.n != n || s.threads[i].drain.Top? || At(s, n).fired != Pending
    ensures Quiet(s, DrainNext(s, i, due), i, n)
  {
  }

  lemma PopQuiet(s: Sys, i: nat, due: bool, n: nat)
    requires Enabled(s, DrainStep(i, due)) && ThreadOk(s, i)
    requires s.threads[i].drain.Pop? || (s.threads[i].drain.Check? && s.threads[i].drain.n != n)
      || s.threads[i].drain.Calling? || s.threads[i].drain.Unslot?
    ensures Quiet(s, DrainNext(s, i, due), i, n)
  {
  }

  lemma DrainDropQuiet(s: Sys, i: nat, due: bool, n: nat)
    requires Enabled(s, DrainStep(i, due)) && (s.threads[i].drain.DropSlot? || s.threads[i].drain.DropHeap?)
    requires s.threads[i].drain.n != n || s.threads[i].drain.st != Free
    ensures Quiet(s, DrainNext(s, i, due), i, n)
  {
  }

  /** The steps that decide n's fate. */
  lemma ClaimFate(s: Sys, i: nat, due: bool, n: nat)
    requires Enabled(s, DrainStep(i, due)) && Fate(s, n) && At(s, n).live
    requires s.threads[i].drain == ClaimIt(n) && At(s, n).fired == Pending
    ensures Fate(DrainNext(s, i, due), n)
  {
    Counts(s, DrainNext(s, i, due), i, n);
  }

  lemma FireFate(s: Sys, i: nat, due: bool, n: nat)
    requires Inv(s) && Enabled(s, DrainStep(i, due)) && Fate(s, n) && s.threads[i].drain == Check(n)
    ensures Fate(DrainNext(s, i, due), n) && At(DrainNext(s, i, due), n).fires == 1
  {
    assert ThreadOk(s, i) && RefsOk(s, n) && FireOk(At(s, n));
    HasRef(s, i, n);
    PoppedAlone(s, i, n);
    Counts(s, DrainNext(s, i, due), i, n);
  }

  lemma FreeFate(s: Sys, s': Sys, i: nat, n: nat)
    requires Inv(s) && i < |s.threads| && Dying(s.threads[i], n) > 0
    requires |s'.threads| == |s.threads| && s'.threads == s.threads[i := s'.threads[i]]
    requires !At(s', n).live && !Claims(s'.threads[i].drain, n)
    ensures Fate(s', n)
  {
    NotDying(s, i, n);
    Counts(s, s', i, n);
  }

  lemma AllocFate(s: Sys, a: Action, n: nat)
    requires Enabled(s, a) && (a.SetUser? || a.ParkOn?) && Fate(s, n)
    ensures Fate(Apply(s, a), n)
  {
    Counts(s, Apply(s, a), a.i, n);
  }

  lemma ArmFailFate(s: Sys, i: nat, n: nat)
    requires Inv(s) && Enabled(s, ArmFail(i)) && Fate(s, n)
    ensures Fate(Apply(s, ArmFail(i)), n)
  {
    if s.threads[i].call.n == n {
      NotBoth(s, i, n);
    }
    Counts(s, Apply(s, ArmFail(i)), i, n);
  }

  lemma MigrateFate(s: Sys, i: nat, j: nat, n: nat)
    requires Enabled(s, Migrate(i, j)) && Fate(s, n)
    ensures Fate(Apply(s, Migrate(i, j)), n)
  {
    var mid := SetCall(s, i, Out);
    Counts(s, mid, i, n);
    Counts(mid, Apply(s, Migrate(i, j)), j, n);
  }

  lemma CallFate(s: Sys, i: nat, n: nat)
    requires Inv(s) && Enabled(s, CallStep(i)) && Fate(s, n)
    ensures Fate(CallNext(s, i), n)
  {
    var c := s.threads[i].call;
    var s' := CallNext(s, i);
    assert ThreadOk(s, i) && RefsOk(s, c.n);
    if Dropping(c) && c.n == n && c.st == Free {
      HasRef(s, i, n);
      FreeFate(s, s', i, n);
    } else {
      if c.ArmPush? || c.ArmSlot? {
        HasRef(s, i, c.n);
        ArmQuiet(s, i, n);
      } else if Dropping(c) {
        DropQuiet(s, i, n);
      } else if c.SweepLook? {
        SweepQuiet(s, i, n);
      } else {
        CancelQuiet(s, i, n);
      }
      QuietFate(s, s', i, n);
    }
  }

  lemma DrainFate(s: Sys, i: nat, due: bool, n: nat)
    requires Inv(s) && Enabled(s, DrainStep(i, due)) && Fate(s, n)
    ensures Fate(DrainNext(s, i, due), n)
  {
    var d := s.threads[i].drain;
    var s' := DrainNext(s, i, due);
    assert ThreadOk(s, i) && RefsOk(s, d.n);
    if (d.DropSlot? || d.DropHeap?) && d.n == n && d.st == Free {
      FreeFate(s, s', i, n);
    } else if d == ClaimIt(n) && At(s, n).fired == Pending {
      ClaimFate(s, i, due, n);
    } else if d == Check(n) {
      FireFate(s, i, due, n);
    } else {
      if d.Top? || d.ClaimIt? {
        LookQuiet(s, i, due, n);
      } else if d.DropSlot? || d.DropHeap? {
        DrainDropQuiet(s, i, due, n);
      } else {
        PopQuiet(s, i, due, n);
      }
      QuietFate(s, s', i, n);
    }
  }

  lemma StepFate(s: Sys, a: Action, n: nat)
    requires Inv(s) && Enabled(s, a) && Fate(s, n)
    ensures Fate(Apply(s, a), n)
  {
    match a
    case SetUser(_, _, _) => AllocFate(s, a, n);
    case ParkOn(_, _, _) => AllocFate(s, a, n);
    case ArmFail(i) => ArmFailFate(s, i, n);
    case CallStep(i) => CallFate(s, i, n);
    case DrainStep(i, due) => DrainFate(s, i, due, n);
    case Migrate(i, j) => MigrateFate(s, i, j, n);
    case _ =>
      BeginQuiet(s, a, n);
      QuietFate(s, Apply(s, a), a.i, n);
  }

  lemma {:induction false} RunFate(run: seq<Sys>, acts: seq<Action>, k: nat, n: nat)
    requires IsRun(run, acts) && k < |run|
    ensures Inv(run[k]) && Fate(run[k], n)
  {
    RunKeeps(run, acts, k);
    if k == 0 {
      TotalZero(run[0].threads, ByClaim(n));
    } else {
      RunFate(run, acts, k - 1, n);
      assert StepAt(run, acts, k - 1);
      StepFate(run[k - 1], acts[k - 1], n);
    }
  }

  // --- What it comes to ---------------------------------------------------

  /** A claimed timer has fired, unless the drain that claimed it is about to. */
  lemma ClaimedFires(run: seq<Sys>, acts: seq<Action>, k: nat, n: nat)
    requires IsRun(run, acts) && k < |run| && At(run[k], n).live && At(run[k], n).fired == Fired
    requires forall i :: 0 <= i < |run[k].threads| ==> !Claims(run[k].threads[i].drain, n)
    ensures At(run[k], n).fires == 1
  {
    RunFate(run, acts, k, n);
    TotalZero(run[k].threads, ByClaim(n));
  }

  /** Fired once, or won by a cancel, and not both. */
  predicate Settled(node: Node) {
    node.fires == if node.won then 0 else 1
  }

  lemma GoneSettled(s: Sys, n: nat)
    requires Inv(s) && Fate(s, n) && At(s, n).live && HeapRefs(s, n) == 0
    ensures Settled(At(s, n))
  {
    assert FireOk(At(s, n));
    if Claimers(s, n) > 0 {
      ClaimHolds(s, n);
    } else if Armers(s, n) > 0 {
      ArmHolds(s, n);
    }
  }

  /** Once its heap reference is gone, a timer has fired exactly once, unless a cancel
      of it has won, and then it has not. */
  lemma GoneOnceSettled(run: seq<Sys>, acts: seq<Action>, k: nat, n: nat)
    requires IsRun(run, acts) && k < |run| && At(run[k], n).live && HeapRefs(run[k], n) == 0
    ensures Settled(At(run[k], n))
  {
    RunFate(run, acts, k, n);
    GoneSettled(run[k], n);
  }

  /** Who frees n. */
  lemma FreedBy(s: Sys, a: Action, n: nat)
    requires Inv(s) && Enabled(s, a) && At(s, n).live && !At(Apply(s, a), n).live
    ensures a == ArmFail(a.i) || Dying(s.threads[a.i], n) > 0
  {
    match a
    case CallStep(i) => CallFreed(s, i, n);
    case DrainStep(i, due) => DrainFreed(s, i, due, n);
    case _ =>
  }

  lemma CallFreed(s: Sys, i: nat, n: nat)
    requires Enabled(s, CallStep(i)) && At(s, n).live && !At(CallNext(s, i), n).live
    ensures Dying(s.threads[i], n) > 0
  {
    if s.threads[i].call.n != n {
      CallFrame(s, i);
    }
  }

  lemma DrainFreed(s: Sys, i: nat, due: bool, n: nat)
    requires Enabled(s, DrainStep(i, due)) && At(s, n).live && !At(DrainNext(s, i, due), n).live
    ensures Dying(s.threads[i], n) > 0
  {
    if s.threads[i].drain.n != n {
      DrainFrame(s, i, due);
    }
  }

  /** So a timer that was armed is not freed before it has. */
  lemma FreedOnceSettled(run: seq<Sys>, acts: seq<Action>, k: nat, n: nat)
    requires IsRun(run, acts) && k < |acts| && At(run[k], n).live && !At(run[k + 1], n).live && !acts[k].ArmFail?
    ensures Settled(At(run[k], n))
  {
    RunFate(run, acts, k, n);
    assert StepAt(run, acts, k);
    FreedBy(run[k], acts[k], n);
    assert RefsOk(run[k], n);
    ThreadRefs(run[k], run[k], acts[k].i, n);
    GoneSettled(run[k], n);
  }

  // --- Only when due, and whenever due --------------------------------------

  /** The drain is past its look at n, which was due. */
  predicate Committed(d: Drain, n: nat) {
    (d.ClaimIt? || d.Pop? || d.Check?) && d.n == n
  }

  /** Thread i found n due at j. */
  ghost predicate FoundDue(run: seq<Sys>, acts: seq<Action>, i: nat, n: nat, j: nat)
    requires j < |acts| < |run|
  {
    acts[j] == DrainStep(i, true) && i < |run[j].threads| && run[j].threads[i].drain == Top(n)
  }

  lemma DrainAside(s: Sys, a: Action, i: nat)
    requires Enabled(s, a) && i < |s.threads| && !(a.DrainStep? && a.i == i) && !(a.Pick? && a.i == i)
    ensures |Apply(s, a).threads| == |s.threads| && Apply(s, a).threads[i].drain == s.threads[i].drain
  {
    if !a.Migrate? {
      StepFrame(s, a);
    }
  }

  lemma CommitsWhenDue(s: Sys, i: nat, due: bool, n: nat)
    requires Enabled(s, DrainStep(i, due)) && Committed(DrainNext(s, i, due).threads[i].drain, n)
    ensures Committed(s.threads[i].drain, n) || (due && s.threads[i].drain == Top(n))
  {
  }

  /** A drain about to fire n has found it due, and has been at it ever since. */
  lemma {:induction false} CommittedWasDue(run: seq<Sys>, acts: seq<Action>, k: nat, i: nat, n: nat) returns (j: nat)
    requires IsRun(run, acts) && k <= |acts| && i < |run[k].threads| && Committed(run[k].threads[i].drain, n)
    ensures j < k && FoundDue(run, acts, i, n, j)
    ensures forall m :: j < m <= k ==> i < |run[m].threads| && Committed(run[m].threads[i].drain, n)
  {
    WasDueBefore(run, acts, k - 1, i, n);
    if Committed(run[k - 1].threads[i].drain, n) {
      j := CommittedWasDue(run, acts, k - 1, i, n);
    } else {
      j := k - 1;
    }
  }

  lemma WasDueBefore(run: seq<Sys>, acts: seq<Action>, k: nat, i: nat, n: nat)
    requires IsRun(run, acts) && k < |acts| && i < |run[k + 1].threads| && Committed(run[k + 1].threads[i].drain, n)
    ensures i < |run[k].threads| && (Committed(run[k].threads[i].drain, n) || FoundDue(run, acts, i, n, k))
  {
    assert StepAt(run, acts, k);
    var s, a := run[k], acts[k];
    ThreadsStay(s, a);
    if a.DrainStep? && a.i == i {
      CommitsWhenDue(s, i, a.due, n);
    } else if !(a.Pick? && a.i == i) {
      DrainAside(s, a, i);
    }
  }

  lemma ThreadsStay(s: Sys, a: Action)
    requires Enabled(s, a)
    ensures |Apply(s, a).threads| == |s.threads|
  {
    if !a.Migrate? {
      StepFrame(s, a);
    }
  }

  lemma FiresAtCheck(s: Sys, a: Action, n: nat)
    requires Enabled(s, a) && At(s, n).live && At(Apply(s, a), n).fires != At(s, n).fires
    ensures a.DrainStep? && s.threads[a.i].drain == Check(n)
  {
    match a
    case CallStep(i) => CallNeverFires(s, i, n);
    case DrainStep(i, due) => DrainFiresAtCheck(s, i, due, n);
    case _ =>
  }

  lemma CallNeverFires(s: Sys, i: nat, n: nat)
    requires Enabled(s, CallStep(i))
    ensures At(CallNext(s, i), n).fires == At(s, n).fires
  {
    if s.threads[i].call.n != n {
      CallFrame(s, i);
    }
  }

  lemma DrainFiresAtCheck(s: Sys, i: nat, due: bool, n: nat)
    requires Enabled(s, DrainStep(i, due)) && At(DrainNext(s, i, due), n).fires != At(s, n).fires
    ensures s.threads[i].drain == Check(n)
  {
    if s.threads[i].drain.n != n {
      DrainFrame(s, i, due);
    }
  }

  /** A timer fires only in a drain that has found it due and has been at it since. */
  lemma FiresOnlyWhenDue(run: seq<Sys>, acts: seq<Action>, k: nat, n: nat) returns (j: nat)
    requires IsRun(run, acts) && k < |acts| && At(run[k], n).live && At(run[k + 1], n).fires > At(run[k], n).fires
    ensures acts[k].DrainStep? && j < k && FoundDue(run, acts, acts[k].i, n, j)
    ensures forall m :: j < m <= k ==>
      acts[k].i < |run[m].threads| && Committed(run[m].threads[acts[k].i].drain, n)
  {
    assert StepAt(run, acts, k);
    FiresAtCheck(run[k], acts[k], n);
    j := CommittedWasDue(run, acts, k, acts[k].i, n);
  }

  /** A drain at n, from its look to its last release. */
  ghost predicate AtNode(s: Sys, i: nat, n: nat) {
    && i < |s.threads|
    && var d := s.threads[i].drain;
       && d != Idle && d.n == n
       && (d.Top? || Committed(d, n) || Settled(At(s, n)))
  }

  lemma PickLooks(run: seq<Sys>, acts: seq<Action>, i: nat, k: nat, n: nat)
    requires IsRun(run, acts) && k < |acts| && acts[k] == Pick(i, n)
    ensures i < |run[k + 1].threads| && run[k + 1].threads[i].drain == Top(n)
  {
    assert StepAt(run, acts, k);
  }

  /** What a drain's step at n may lead to. */
  lemma DrainGoesOn(s: Sys, i: nat, due: bool, n: nat)
    requires Inv(s) && Fate(s, n) && Enabled(s, DrainStep(i, due)) && AtNode(s, i, n)
    ensures var s' := DrainNext(s, i, due);
      && i < |s'.threads|
      && (s'.threads[i].drain != Idle ==> AtNode(s', i, n) && !s'.threads[i].drain.Top?)
      && (s'.threads[i].drain == Idle ==>
            if s.threads[i].drain.Top? then !due && At(s, n).fired != Cancelled && At(s', n) == At(s, n)
            else Settled(At(s, n)))
  {
    assert ThreadOk(s, i) && RefsOk(s, n) && FireOk(At(s, n));
    HasRef(s, i, n);
    if s.threads[i].drain == Check(n) {
      FireFate(s, i, due, n);
    } else if s.threads[i].drain == ClaimIt(n) {
      NoRivalClaim(s, i, n);
    }
  }

  /** At the claim of its own heap's node no other drain can have been faster. */
  lemma NoRivalClaim(s: Sys, i: nat, n: nat)
    requires Inv(s) && Fate(s, n) && i < |s.threads| && s.threads[i].drain == ClaimIt(n)
    ensures At(s, n).fired != Fired
  {
    assert ThreadOk(s, i) && RefsOk(s, n);
    if Claimers(s, n) > 0 {
      QueuedClaim(s, n);
    }
  }

  /** A drain that looks at n at k stays at it until it is idle again; and that is after
      a look that did not find it due, or once n has fired or been won by a cancel. */
  lemma {:induction false} DrainStays(run: seq<Sys>, acts: seq<Action>, i: nat, k: nat, m: nat, n: nat)
    requires IsRun(run, acts) && k < m <= |acts| && acts[k] == Pick(i, n) && Busy(run, i, k, m)
    ensures AtNode(run[m], i, n) && SlotSeenTo(run, acts, i, k, m, n)
  {
    if m == k + 1 {
      PickLooks(run, acts, i, k, n);
    } else {
      DrainStays(run, acts, i, k, m - 1, n);
      DrainOne(run, acts, i, m - 1, n);
      SlotOne(run, acts, i, k, m - 1, n);
    }
  }

  /** One of the drain's steps has left the task's slot not naming n. */
  ghost predicate Unslotted(run: seq<Sys>, acts: seq<Action>, i: nat, k: nat, m: nat, n: nat, t: nat)
    requires m <= |acts| < |run|
  {
    exists j :: k < j < m && acts[j].DrainStep? && acts[j].i == i && run[j + 1].slots(t) != Holds(n)
  }

  /** A drain that is releasing a park timer it has fired has seen to the slot. */
  ghost predicate SlotSeenTo(run: seq<Sys>, acts: seq<Action>, i: nat, k: nat, m: nat, n: nat)
    requires m <= |acts| < |run|
  {
    i < |run[m].threads| && (
      var d, node := run[m].threads[i].drain, At(run[m], n);
      (d.DropSlot? || d.DropHeap?) && d.n == n && node.fires == 1 && node.kind.Park? ==>
        Unslotted(run, acts, i, k, m, n, node.kind.task))
  }

  /** The drain comes to its releases by way of the slot. */
  lemma ByWayOfSlot(s: Sys, i: nat, due: bool, n: nat)
    requires Inv(s) && Fate(s, n) && Enabled(s, DrainStep(i, due)) && AtNode(s, i, n)
    ensures var s' := DrainNext(s, i, due);
      && i < |s'.threads|
      && var d, node := s'.threads[i].drain, At(s', n);
         ((d.DropSlot? || d.DropHeap?) && d.n == n && node.fires == 1 && node.kind.Park? ==>
            s.threads[i].drain.DropSlot? || s.threads[i].drain.DropHeap? || s'.slots(node.kind.task) != Holds(n))
  {
    assert ThreadOk(s, i) && RefsOk(s, n) && FireOk(At(s, n));
    HasRef(s, i, n);
    if s.threads[i].drain == ClaimIt(n) {
      NoRivalClaim(s, i, n);
    }
  }

  lemma SlotOne(run: seq<Sys>, acts: seq<Action>, i: nat, k: nat, m: nat, n: nat)
    requires IsRun(run, acts) && k < m < |acts| && AtNode(run[m], i, n) && AtNode(run[m + 1], i, n)
    requires SlotSeenTo(run, acts, i, k, m, n)
    ensures SlotSeenTo(run, acts, i, k, m + 1, n)
  {
    RunFate(run, acts, m, n);
    assert StepAt(run, acts, m);
    var s, a := run[m], acts[m];
    assert ThreadOk(s, i) && RefsOk(s, n);
    NamedIsLive(s, i, n);
    OwnerStays(s, a, n);
    if At(run[m + 1], n).fires != At(s, n).fires {
      FiresAtCheck(s, a, n);
    }
    if a.DrainStep? && a.i == i {
      ByWayOfSlot(s, i, a.due, n);
    } else {
      DrainAside(s, a, i);
    }
    var t := At(s, n).kind;
    if t.Park? && Unslotted(run, acts, i, k, m, n, t.task) {
      var j :| k < j < m && acts[j].DrainStep? && acts[j].i == i && run[j + 1].slots(t.task) != Holds(n);
      assert Unslotted(run, acts, i, k, m + 1, n, t.task);
    }
  }

  ghost predicate Busy(run: seq<Sys>, i: nat, k: nat, m: nat)
    requires m < |run|
  {
    forall j {:trigger run[j]} :: k < j <= m ==> i < |run[j].threads| && run[j].threads[i].drain != Idle
  }

  lemma DrainOne(run: seq<Sys>, acts: seq<Action>, i: nat, m: nat, n: nat)
    requires IsRun(run, acts) && m < |acts| && AtNode(run[m], i, n)
    ensures i < |run[m + 1].threads|
    ensures run[m + 1].threads[i].drain != Idle ==> AtNode(run[m + 1], i, n)
    ensures run[m + 1].threads[i].drain == Idle ==> LetsGo(run[m], acts[m], run[m + 1], i, n)
  {
    RunFate(run, acts, m, n);
    RunFate(run, acts, m + 1, n);
    assert StepAt(run, acts, m);
    if acts[m].DrainStep? && acts[m].i == i {
      DrainGoesOn(run[m], i, acts[m].due, n);
    } else {
      StaysAtNode(run[m], acts[m], i, n);
    }
  }

  /** Thread i's drain leaves n: it was not due, and is untouched; or it is settled. */
  ghost predicate LetsGo(s: Sys, a: Action, s': Sys, i: nat, n: nat)
    requires i < |s.threads|
  {
    && a.DrainStep? && a.i == i
    && if s.threads[i].drain.Top? then !a.due && At(s, n).fired != Cancelled && At(s', n) == At(s, n)
       else Settled(At(s, n))
  }

  /** Nobody else disturbs it. */
  lemma StaysAtNode(s: Sys, a: Action, i: nat, n: nat)
    requires Inv(s) && Fate(s, n) && Enabled(s, a) && AtNode(s, i, n) && !(a.DrainStep? && a.i == i)
    requires Inv(Apply(s, a)) && Fate(Apply(s, a), n)
    ensures AtNode(Apply(s, a), i, n)
  {
    DrainAside(s, a, i);
    assert ThreadOk(s, i) && RefsOk(s, n) && FireOk(At(s, n));
    HasRef(s, i, n);
    if Settled(At(s, n)) {
      var s' := Apply(s, a);
      assert ThreadOk(s', i) && RefsOk(s', n) && FireOk(At(s', n));
      NamedIsLive(s', i, n);
      StaysSettled(s, a, n);
    }
  }

  lemma StaysSettled(s: Sys, a: Action, n: nat)
    requires Inv(s) && Enabled(s, a) && At(s, n).live && Settled(At(s, n))
    requires FireOk(At(Apply(s, a), n)) && At(Apply(s, a), n).live
    ensures Settled(At(Apply(s, a), n))
  {
    assert FireOk(At(s, n)) && ThreadOk(s, a.i);
    if At(Apply(s, a), n).fires != At(s, n).fires {
      FiresAtCheck(s, a, n);
    }
    FiredStays(s, a, n);
  }

  lemma FiredStays(s: Sys, a: Action, n: nat)
    requires Inv(s) && Enabled(s, a) && At(s, n).live && At(s, n).fired != Pending
    ensures At(Apply(s, a), n).fired == At(s, n).fired
  {
    if !a.Migrate? {
      assert RefsOk(s, Target(s, a)) && ThreadOk(s, a.i);
      StepFrame(s, a);
      StepGentle(s, a);
    }
  }

  /** A drain that picks n, whether or not it is due, and then is done with it: it has
      left it as it was, not being due, or it has fired or been won by a cancel; and if
      it has fired a park timer, it has cleared the task's slot where it named it. */
  lemma DrainDone(run: seq<Sys>, acts: seq<Action>, i: nat, k: nat, m: nat, n: nat)
    requires IsRun(run, acts) && k < m < |acts| && acts[k] == Pick(i, n) && Busy(run, i, k, m)
    requires i < |run[m + 1].threads| && run[m + 1].threads[i].drain == Idle
    ensures LetsGo(run[m], acts[m], run[m + 1], i, n)
    ensures var node := At(run[m], n);
      node.fires == 1 && node.kind.Park? && !run[m].threads[i].drain.Top? ==>
        Unslotted(run, acts, i, k, m, n, node.kind.task)
  {
    DrainStays(run, acts, i, k, m, n);
    DrainOne(run, acts, i, m, n);
    LastRelease(run, acts, i, m, n);
  }

  lemma LastRelease(run: seq<Sys>, acts: seq<Action>, i: nat, m: nat, n: nat)
    requires IsRun(run, acts) && m < |acts| && AtNode(run[m], i, n)
    requires i < |run[m + 1].threads| && run[m + 1].threads[i].drain == Idle
    ensures run[m].threads[i].drain.Top? || run[m].threads[i].drain.DropHeap?
  {
    assert StepAt(run, acts, m);
    if !(acts[m].DrainStep? && acts[m].i == i) {
      DrainAside(run[m], acts[m], i);
    }
  }
}
