/**
 * Where a fiber's own code goes, over whole runs and under any preemption: a
 * yield suspends and then returns to the function that made it, the function
 * ends only by returning, and the fiber is the proc it last became.
 */
module CoroFlow {
  import opened CoroGuard

  // Fiber f acts: it is the one that thread a.i executes.
  predicate Acts(s: Sys, a: Action, f: int) {
    a.i < |s.threads| && s.threads[a.i].at.On? && s.threads[a.i].at.fiber == f
  }

  predicate Yields(s: Sys, a: Action, f: int) {
    a.Yield? && Acts(s, a, f)
  }

  predicate Returns(s: Sys, a: Action, f: int) {
    a.Return? && Acts(s, a, f)
  }

  // The next place of the fiber's own code, where it has no choice.
  function After(p: FiberPc): FiberPc {
    match p
    case Fresh => EnterCursor
    case EnterCursor => EnterProc
    case EnterProc => EnterGuard
    case EnterGuard => User
    case Park(via) => Save(via)
    case Save(via) => JumpOut(via)
    case JumpOut(via) => Away(via)
    case Away(via) => Restore(via)
    case Restore(via) => Clear(via)
    case Clear(via) => Tail(via)
    case Tail(via) => User
    case Finish => FinishJump
    case _ => Gone
  }

  // An instruction of f's: one on its own stack, or the scheduler's jump to it.
  predicate Executes(s: Sys, a: Action, f: int) {
    || (a.FiberStep? && Acts(s, a, f))
    || (a.SchedStep? && a.i < |s.threads| && s.threads[a.i].at.Sched? && s.threads[a.i].at.pc.Jumping?
        && s.threads[a.i].at.pc.c == f)
  }

  // Where the own code goes from p: on at its own instructions, and nowhere at
  // any other step.
  function Goes(s: Sys, a: Action, f: int, p: FiberPc): FiberPc {
    if Yields(s, a, f) then Park(Own)
    else if Returns(s, a, f) then Finish
    else if Executes(s, a, f) && !InTrampoline(s.fibers(f).pc) then After(p)
    else p
  }

  // A fiber that goes on: its own code moves on, or the trampoline does.
  lemma RunGoes(s: Sys, i: nat, f: int)
    requires Good(s) && Enabled(s, FiberStep(i))
    ensures OwnPlace(RunFiber(s, i).fibers(f).pc) == Goes(s, FiberStep(i), f, OwnPlace(s.fibers(f).pc))
  {
    assert ThreadOk(s, i);
    if InTrampoline(s.fibers(f).pc) {
      StepInvisible(s, FiberStep(i), f);
    }
  }

  lemma ScheduleGoes(s: Sys, i: nat, f: int)
    requires Good(s) && Enabled(s, SchedStep(i))
    ensures OwnPlace(Schedule(s, i).fibers(f).pc) == Goes(s, SchedStep(i), f, OwnPlace(s.fibers(f).pc))
  {
    assert ThreadOk(s, i);
    if InTrampoline(s.fibers(f).pc) {
      StepInvisible(s, SchedStep(i), f);
    }
  }

  lemma UserGoes(s: Sys, a: Action, f: int)
    requires Good(s) && Enabled(s, a) && (a.Yield? || a.Return? || a.Adopt? || a.Choose?)
    ensures OwnPlace(Apply(s, a).fibers(f).pc) == Goes(s, a, f, OwnPlace(s.fibers(f).pc))
  {
    assert ThreadOk(s, a.i);
  }

  lemma StepGoes(s: Sys, a: Action, f: int)
    requires Good(s) && Enabled(s, a)
    ensures (Yields(s, a, f) || Returns(s, a, f)) ==> OwnPlace(s.fibers(f).pc) == User
    ensures OwnPlace(s.fibers(f).pc) == User && Executes(s, a, f) ==> InTrampoline(s.fibers(f).pc)
    ensures OwnPlace(Apply(s, a).fibers(f).pc) == Goes(s, a, f, OwnPlace(s.fibers(f).pc))
  {
    assert ThreadOk(s, a.i);
    match a
    case FiberStep(i) => RunGoes(s, i, f);
    case SchedStep(i) => ScheduleGoes(s, i, f);
    case Tick(_) => StepInvisible(s, a, f);
    case _ => UserGoes(s, a, f);
  }

  lemma RunGoesOn(run: seq<Sys>, acts: seq<Action>, k: nat, f: int)
    requires IsRun(run, acts) && k < |acts|
    ensures (Yields(run[k], acts[k], f) || Returns(run[k], acts[k], f)) ==> Place(run[k], f) == User
    ensures Place(run[k], f) == User && Executes(run[k], acts[k], f) ==> InTrampoline(run[k].fibers(f).pc)
    ensures Place(run[k + 1], f) == Goes(run[k], acts[k], f, Place(run[k], f))
  {
    RunKeeps(run, acts, k);
    assert StepAt(run, acts, k);
    StepGoes(run[k], acts[k], f);
  }

  function Place(s: Sys, f: int): FiberPc {
    OwnPlace(s.fibers(f).pc)
  }

  // ---- Yields ----

  // In xtc_yield or xtc_await, and how far.
  function Depth(p: FiberPc): nat {
    match p
    case Park(_) => 1
    case Save(_) => 2
    case JumpOut(_) => 3
    case Away(_) => 4
    case Restore(_) => 5
    case Clear(_) => 6
    case Tail(_) => 7
    case _ => 0
  }

  // From m the own code is in the yield until n.
  ghost predicate Yielding(run: seq<Sys>, f: int, m: nat, n: nat)
    requires n < |run|
  {
    forall j {:trigger run[j]} :: m < j <= n ==> Depth(Place(run[j], f)) > 0
  }

  lemma DeeperInside(p: FiberPc)
    requires Depth(p) > 0
    ensures Depth(After(p)) == if Depth(p) == 7 then 0 else Depth(p) + 1
    ensures Depth(p) == 7 ==> After(p) == User
  {
  }

  // It goes through it one place at a time, and so through its suspension.
  lemma {:induction false} YieldStage(run: seq<Sys>, acts: seq<Action>, m: nat, n: nat, f: int)
    requires IsRun(run, acts) && m < n <= |acts| && Yields(run[m], acts[m], f) && Yielding(run, f, m, n)
    ensures Depth(Place(run[n], f)) >= 4 ==> exists j :: m < j <= n && Depth(Place(run[j], f)) == 4
  {
    RunGoesOn(run, acts, n - 1, f);
    if m + 1 < n {
      YieldStage(run, acts, m, n - 1, f);
      DeeperInside(Place(run[n - 1], f));
    }
  }

  // A yield suspends the fiber, and when it is over, on whichever thread and
  // however often preempted, the function that called it goes on.
  lemma YieldDone(run: seq<Sys>, acts: seq<Action>, m: nat, n: nat, f: int)
    requires IsRun(run, acts) && m < n < |acts| && Yields(run[m], acts[m], f) && Yielding(run, f, m, n)
    requires Depth(Place(run[n + 1], f)) == 0
    ensures Place(run[m], f) == User && Place(run[m + 1], f) == Park(Own)
    ensures Place(run[n + 1], f) == User && Executes(run[n], acts[n], f)
    ensures exists j :: m < j < n && Depth(Place(run[j], f)) == 4
  {
    RunGoesOn(run, acts, m, f);
    RunGoesOn(run, acts, n, f);
    DeeperInside(Place(run[n], f));
    YieldStage(run, acts, m, n, f);
  }

  // ---- The end ----

  predicate Ending(p: FiberPc) {
    p == Finish || p == FinishJump || p == Gone
  }

  // A function is over if and only if it has returned.
  lemma {:induction false} EndsByReturning(run: seq<Sys>, acts: seq<Action>, n: nat, f: int)
    requires IsRun(run, acts) && n <= |acts|
    ensures Ending(Place(run[n], f)) <==> exists j :: 0 <= j < n && Returns(run[j], acts[j], f)
  {
    if n > 0 {
      EndsByReturning(run, acts, n - 1, f);
      RunGoesOn(run, acts, n - 1, f);
    }
  }

  // ---- The proc it is ----

  predicate Adopts(s: Sys, a: Action, f: int) {
    a.Adopt? && Acts(s, a, f)
  }

  // The proc f last became in the first n steps.
  function LastAdopted(run: seq<Sys>, acts: seq<Action>, n: nat, f: int): int
    requires n <= |acts| < |run|
  {
    if n == 0 then NONE
    else if Adopts(run[n - 1], acts[n - 1], f) then acts[n - 1].p
    else LastAdopted(run, acts, n - 1, f)
  }

  lemma OwnMoves(s: Sys, a: Action, f: int)
    requires Enabled(s, a)
    ensures Apply(s, a).fibers(f).own == if Adopts(s, a, f) then a.p else s.fibers(f).own
  {
  }

  // A fiber is the proc it last became, whatever threads it has run on.
  lemma {:induction false} OwnIsLast(run: seq<Sys>, acts: seq<Action>, n: nat, f: int)
    requires IsRun(run, acts) && n <= |acts|
    ensures run[n].fibers(f).own == LastAdopted(run, acts, n, f)
  {
    if n > 0 {
      OwnIsLast(run, acts, n - 1, f);
      assert StepAt(run, acts, n - 1);
      OwnMoves(run[n - 1], acts[n - 1], f);
    }
  }

  // ---- Trampolines end ----

  // How many instructions of its own a fiber is from the place a tick interrupted.
  function ToGo(pc: FiberPc): nat {
    match pc
    case TrampIn(back) => 9 + ToReturn(back)
    case Park(via) => 8 + ToLeave(via)
    case Save(via) => 7 + ToLeave(via)
    case JumpOut(via) => 6 + ToLeave(via)
    case Away(via) => 5 + ToLeave(via)
    case Restore(via) => 4 + ToLeave(via)
    case Clear(via) => 3 + ToLeave(via)
    case Tail(via) => 2 + ToLeave(via)
    case TrampOut(back) => 1 + ToReturn(back)
    case _ => 0
  }

  function ToLeave(via: Caller): nat {
    match via
    case Own => 0
    case Trampoline(back) => ToReturn(back)
  }

  function ToReturn(back: Back): nat {
    match back
    case ToTail(Trampoline(back)) => 2 + ToReturn(back)
    case _ => 0
  }

  // In the trampoline every instruction of the fiber brings it one closer.
  lemma TrampolineEnds(s: Sys, a: Action, f: int)
    requires Good(s) && Enabled(s, a) && Executes(s, a, f) && InTrampoline(s.fibers(f).pc)
    ensures var pc, next := s.fibers(f).pc, Apply(s, a).fibers(f).pc;
      if InTrampoline(next) then ToGo(next) + 1 == ToGo(pc)
      else ToGo(pc) == 1 && next == Place(s, f)
  {
    assert ThreadOk(s, a.i);
  }

  // ---- Redirects suspend ----

  // Thread i is redirected at this step, and f is what it runs.
  predicate Redirects(s: Sys, a: Action, f: int) {
    a.Tick? && Acts(s, a, f) && Accepts(s, a.i)
  }

  // A tick is accepted exactly on a fiber with the guard clear that is not on its
  // way out of a trampoline; so always in the fiber's own function.
  lemma AcceptedWhere(run: seq<Sys>, acts: seq<Action>, m: nat, i: nat)
    requires IsRun(run, acts) && m <= |acts| && i < |run[m].threads|
    ensures Accepts(run[m], i) <==>
      && run[m].threads[i].at.On?
      && var pc := run[m].fibers(run[m].threads[i].at.fiber).pc; pc in {User, Park(Own), Finish} || pc.Tail?
  {
    RunKeeps(run, acts, m);
    assert ThreadOk(run[m], i);
  }

  // On the way from the redirect to the trampoline's suspension.
  predicate Bound(pc: FiberPc, back: Back) {
    || pc == TrampIn(back) || pc == Park(Trampoline(back))
    || pc == Save(Trampoline(back)) || pc == JumpOut(Trampoline(back))
  }

  ghost predicate Suspended(run: seq<Sys>, f: int, back: Back, m: nat, n: nat)
    requires n < |run|
  {
    exists j :: m < j <= n && run[j].fibers(f).pc == Away(Trampoline(back))
  }

  lemma BoundGoesOn(s: Sys, a: Action, f: int, back: Back)
    requires Good(s) && Enabled(s, a) && Bound(s.fibers(f).pc, back)
    ensures Bound(Apply(s, a).fibers(f).pc, back) || Apply(s, a).fibers(f).pc == Away(Trampoline(back))
  {
    assert ThreadOk(s, a.i);
    if a.Tick? && Accepts(s, a.i) {
      AcceptedOnOwnStack(s, a.i);
    }
  }

  lemma RedirectBinds(s: Sys, a: Action, f: int)
    requires Good(s) && Enabled(s, a) && Redirects(s, a, f)
    ensures Apply(s, a).fibers(f).pc == TrampIn(Interrupted(s.fibers(f).pc))
  {
    AcceptedOnOwnStack(s, a.i);
  }

  // An accepted tick makes its fiber give up the thread: until it has been
  // suspended it is on its way there, and nowhere else.
  lemma {:induction false} RedirectSuspends(run: seq<Sys>, acts: seq<Action>, m: nat, n: nat, f: int)
    requires IsRun(run, acts) && m < n <= |acts| && Redirects(run[m], acts[m], f)
    ensures var back := Interrupted(run[m].fibers(f).pc);
      Bound(run[n].fibers(f).pc, back) || Suspended(run, f, back, m, n)
  {
    var back := Interrupted(run[m].fibers(f).pc);
    RunKeeps(run, acts, n - 1);
    assert StepAt(run, acts, n - 1);
    if n == m + 1 {
      RedirectBinds(run[m], acts[m], f);
    } else {
      RedirectSuspends(run, acts, m, n - 1, f);
      if Suspended(run, f, back, m, n - 1) {
        var j :| m < j <= n - 1 && run[j].fibers(f).pc == Away(Trampoline(back));
      } else {
        BoundGoesOn(run[n - 1], acts[n - 1], f, back);
      }
    }
  }
}
