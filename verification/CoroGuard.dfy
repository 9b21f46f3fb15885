/**
 * The preemption guard around coroutine switches (src/evt/coro_fctx.c,
 * src/inc/coro_preempt.h): any number of scheduler threads, fibers that
 * suspend on one and resume on another, and timer ticks at any instruction.
 * Each thread has its own cursor (the coroutine it believes it runs), guard
 * and current-proc pointer; a context switch is one transfer of control.
 */
module CoroGuard {

  const NONE: int := -1

  // Where a thread's scheduler code stands in __xtc_coro_step.  was: the proc
  // that the fiber it came back from was when it left; the code has no such
  // local, and by now that fiber may run elsewhere.
  datatype SchedPc =
    | Idle
    | Chosen(c: int)                   // about to raise the guard
    | Guarded(c: int)                  // about to set the cursor
    | Jumping(c: int, saved: int)      // about to jump into the fiber
    | Returned(saved: int, was: int)   // back: about to restore the cursor
    | Unguard(saved: int, was: int)    // about to drop the guard
    | Unproc(saved: int, was: int)     // about to give the proc pointer back

  // On whose stack the thread executes; saved is __xtc_coro_step's local.
  datatype Where = Sched(pc: SchedPc) | On(fiber: int, saved: int)

  datatype Thread = Thread(cursor: int, guard: nat, proc: int, at: Where)

  // What a redirected fiber goes back to.  The safe-point check declines all
  // but the first; here any of them may be interrupted.
  datatype Back = ToUser | ToPark | ToTail(via: Caller) | ToFinish

  // Who called xtc_yield: the fiber's own code, or the preemption trampoline.
  datatype Caller = Own | Trampoline(back: Back)

  // Where a fiber's own code stands.
  datatype FiberPc =
    | Fresh                            // never run
    | EnterCursor | EnterProc | EnterGuard
    | User                             // the coroutine's function
    | Park(via: Caller)                 // in xtc_yield or xtc_await: about to raise the guard
    | Save(via: Caller)                 // about to save the proc pointer
    | JumpOut(via: Caller)              // about to jump to the scheduler
    | Away(via: Caller)                 // suspended
    | Restore(via: Caller)              // resumed: about to restore the proc pointer
    | Clear(via: Caller)                // about to drop the guard
    | Tail(via: Caller)                 // the rest of xtc_yield or xtc_await, with the guard clear
    | TrampIn(back: Back)              // redirected: about to call xtc_yield
    | TrampOut(back: Back)             // about to return to the interrupted instruction
    | Finish                           // the function returned: about to raise the guard
    | FinishJump | Gone

  // pctx: the saved proc pointer; own: the proc this fiber is (none for a bare
  // coroutine); host: the thread that has claimed it.
  datatype Fiber = Fiber(pc: FiberPc, pctx: int, own: int, host: int)

  datatype Sys = Sys(threads: seq<Thread>, fibers: int -> Fiber)

  datatype Action =
    | Choose(i: nat, f: int)           // the loop runs a task whose fiber is suspended or new
    | SchedStep(i: nat)
    | FiberStep(i: nat)
    | Yield(i: nat)                    // the fiber calls xtc_yield, or parks in xtc_await
    | Return(i: nat)                   // the fiber's function returns
    | Adopt(i: nat, p: int)            // the fiber becomes proc p
    | Tick(i: nat)                     // a preemption signal lands

  function Put(fibers: int -> Fiber, f: int, b: Fiber): int -> Fiber {
    x => if x == f then b else fibers(x)
  }

  function SetThread(s: Sys, i: nat, t: Thread): Sys
    requires i < |s.threads|
  {
    s.(threads := s.threads[i := t])
  }

  function SetFiber(s: Sys, f: int, b: Fiber): Sys {
    s.(fibers := Put(s.fibers, f, b))
  }

  predicate Runnable(b: Fiber) {
    b.host == NONE && (b.pc == Fresh || b.pc.Away?)
  }

  // The redirect's decline conditions: no fiber, a switch in flight, or the
  // interrupted instruction inside the trampoline.
  predicate Accepts(s: Sys, i: nat)
    requires i < |s.threads|
  {
    var t := s.threads[i];
    t.cursor != NONE && t.guard == 0 && !(t.at.On? && s.fibers(t.at.fiber).pc.TrampOut?)
  }

  ghost predicate Init(s: Sys) {
    && (forall i :: 0 <= i < |s.threads| ==> s.threads[i] == Thread(NONE, 0, NONE, Sched(Idle)))
    && (forall f :: s.fibers(f) == Fiber(Fresh, NONE, NONE, NONE))
  }

  predicate InUser(s: Sys, i: nat) {
    i < |s.threads| && s.threads[i].at.On? && s.fibers(s.threads[i].at.fiber).pc == User
  }

  predicate Enabled(s: Sys, a: Action) {
    match a
    case Choose(i, f) => i < |s.threads| && s.threads[i].at == Sched(Idle) && f != NONE && Runnable(s.fibers(f))
    case SchedStep(i) => i < |s.threads| && s.threads[i].at.Sched? && s.threads[i].at.pc != Idle
    case FiberStep(i) => i < |s.threads| && s.threads[i].at.On? && !InUser(s, i)
    case Yield(i) => InUser(s, i)
    case Return(i) => InUser(s, i)
    case Adopt(i, p) => InUser(s, i)
    case Tick(i) => i < |s.threads|
  }

  // The scheduler side of a step.
  function Schedule(s: Sys, i: nat): Sys
    requires i < |s.threads| && s.threads[i].at.Sched?
  {
    var t := s.threads[i];
    match t.at.pc
    case Idle => s
    case Chosen(c) => SetThread(s, i, t.(guard := 1, at := Sched(Guarded(c))))
    case Guarded(c) => SetThread(s, i, t.(cursor := c, at := Sched(Jumping(c, t.cursor))))
    case Jumping(c, saved) =>
      var b := s.fibers(c);
      SetFiber(SetThread(s, i, t.(at := On(c, saved))), c,
        b.(pc := if b.pc.Away? then Restore(b.pc.via) else EnterCursor))
    case Returned(saved, was) => SetThread(s, i, t.(cursor := saved, at := Sched(Unguard(saved, was))))
    case Unguard(saved, was) => SetThread(s, i, t.(guard := 0, at := Sched(Unproc(saved, was))))
    case Unproc(saved, _) =>
      SetThread(s, i, t.(proc := if saved != NONE then s.fibers(saved).own else NONE, at := Sched(Idle)))
  }

  // The fiber side.
  function RunFiber(s: Sys, i: nat): Sys
    requires i < |s.threads| && s.threads[i].at.On?
  {
    var t := s.threads[i];
    var f := t.at.fiber;
    var b := s.fibers(f);
    match b.pc
    case EnterCursor => SetFiber(SetThread(s, i, t.(cursor := f)), f, b.(pc := EnterProc))
    case EnterProc => SetFiber(SetThread(s, i, t.(proc := NONE)), f, b.(pc := EnterGuard))
    case EnterGuard => SetFiber(SetThread(s, i, t.(guard := 0)), f, b.(pc := User))
    case Park(via) => SetFiber(SetThread(s, i, t.(guard := 1)), f, b.(pc := Save(via)))
    case Save(via) => SetFiber(s, f, b.(pctx := t.proc, pc := JumpOut(via)))
    case JumpOut(via) =>
      SetFiber(SetThread(s, i, t.(at := Sched(Returned(t.at.saved, b.own)))), f, b.(pc := Away(via), host := NONE))
    case Restore(via) => SetFiber(SetThread(s, i, t.(proc := b.pctx)), f, b.(pc := Clear(via)))
    case Clear(via) => SetFiber(SetThread(s, i, t.(guard := 0)), f, b.(pc := Tail(via)))
    case Tail(via) => SetFiber(s, f, b.(pc := if via.Own? then User else TrampOut(via.back)))
    case TrampIn(back) => SetFiber(s, f, b.(pc := Park(Trampoline(back))))
    case TrampOut(back) => SetFiber(s, f, b.(pc := Resumed(back)))
    case Finish => SetFiber(SetThread(s, i, t.(guard := 1)), f, b.(pc := FinishJump))
    case FinishJump =>
      SetFiber(SetThread(s, i, t.(at := Sched(Returned(t.at.saved, b.own)))), f, b.(pc := Gone, host := NONE))
    case _ => s
  }

  function Apply(s: Sys, a: Action): Sys
    requires Enabled(s, a)
  {
    match a
    case Choose(i, f) =>
      SetFiber(SetThread(s, i, s.threads[i].(at := Sched(Chosen(f)))), f, s.fibers(f).(host := i))
    case SchedStep(i) => Schedule(s, i)
    case FiberStep(i) => RunFiber(s, i)
    case Yield(i) => var f := s.threads[i].at.fiber; SetFiber(s, f, s.fibers(f).(pc := Park(Own)))
    case Return(i) => var f := s.threads[i].at.fiber; SetFiber(s, f, s.fibers(f).(pc := Finish))
    case Adopt(i, p) =>
      var f := s.threads[i].at.fiber;
      SetFiber(SetThread(s, i, s.threads[i].(proc := p)), f, s.fibers(f).(own := p))
    case Tick(i) => if Accepts(s, i) then Redirect(s, i) else s
  }

  // The interrupted instruction's place, and back.
  function Interrupted(pc: FiberPc): Back {
    if pc.Park? then ToPark else if pc.Tail? then ToTail(pc.via) else if pc.Finish? then ToFinish else ToUser
  }

  function Resumed(back: Back): FiberPc {
    match back
    case ToUser => User
    case ToPark => Park(Own)
    case ToTail(via) => Tail(via)
    case ToFinish => Finish
  }

  // An accepted tick: the guard goes up, and the fiber the cursor names is
  // made to continue in the trampoline.
  function Redirect(s: Sys, i: nat): Sys
    requires i < |s.threads|
  {
    var t := s.threads[i];
    var b := s.fibers(t.cursor);
    SetFiber(SetThread(s, i, t.(guard := t.guard + 1)), t.cursor, b.(pc := TrampIn(Interrupted(b.pc))))
  }

  // ---- What holds at every instruction ----

  // The fiber the thread has claimed, if any.
  function Claimed(t: Thread): int {
    match t.at
    case On(f, _) => f
    case Sched(pc) => if pc.Chosen? || pc.Guarded? || pc.Jumping? then pc.c else NONE
  }

  predicate SchedOk(t: Thread)
    requires t.at.Sched?
  {
    match t.at.pc
    case Idle => t.cursor == NONE && t.guard == 0 && t.proc == NONE
    case Chosen(c) => t.cursor == NONE && t.guard == 0 && t.proc == NONE
    case Guarded(c) => t.cursor == NONE && t.guard == 1 && t.proc == NONE
    case Jumping(c, saved) => t.cursor == c && t.guard == 1 && saved == NONE
    case Returned(saved, was) => t.guard == 1 && saved == NONE && t.proc == was
    case Unguard(saved, was) => t.cursor == NONE && t.guard == 1 && saved == NONE && t.proc == was
    case Unproc(saved, was) => t.cursor == NONE && t.guard == 0 && saved == NONE && t.proc == was
  }

  // A fiber that executes on thread t.
  predicate RunningOk(t: Thread, b: Fiber, f: int) {
    && t.cursor == f
    && match b.pc
       case EnterCursor => t.guard == 1 && b.own == NONE
       case EnterProc => t.guard == 1 && b.own == NONE
       case EnterGuard => t.guard == 1 && t.proc == b.own
       case User => t.guard == 0 && t.proc == b.own
       case Park(via) => t.guard == (if via.Own? then 0 else 1) && t.proc == b.own
       case Save(_) => t.guard == 1 && t.proc == b.own
       case JumpOut(_) => t.guard == 1 && t.proc == b.own && b.pctx == b.own
       case Restore(_) => t.guard == 1 && b.pctx == b.own
       case Clear(_) => t.guard == 1 && t.proc == b.own
       case Tail(_) => t.guard == 0 && t.proc == b.own
       case TrampIn(_) => t.guard == 1 && t.proc == b.own
       case TrampOut(_) => t.guard == 0 && t.proc == b.own
       case Finish => t.guard == 0 && t.proc == b.own
       case FinishJump => t.guard == 1 && t.proc == b.own
       case _ => false
  }

  predicate ThreadOk(s: Sys, i: nat)
    requires i < |s.threads|
  {
    var t := s.threads[i];
    var c := Claimed(t);
    && (c != NONE ==> s.fibers(c).host == i)
    && (t.at.Sched? && (t.at.pc.Chosen? || t.at.pc.Guarded? || t.at.pc.Jumping?) ==> c != NONE)
    && (t.at.Sched? ==> SchedOk(t) && (c != NONE ==> s.fibers(c).pc == Fresh || s.fibers(c).pc.Away?))
    && (t.at.On? ==> t.at.saved == NONE && c != NONE && RunningOk(t, s.fibers(c), c))
  }

  // A fiber that does not execute: it is its own proc when it comes back.
  predicate FiberOk(s: Sys, f: int) {
    var b := s.fibers(f);
    && (b.pc == Fresh ==> b.own == NONE)
    && (b.pc.Away? ==> b.pctx == b.own)
    && (b.host != NONE ==> 0 <= b.host < |s.threads| && Claimed(s.threads[b.host]) == f)
  }

  ghost predicate Good(s: Sys) {
    && (forall i :: 0 <= i < |s.threads| ==> ThreadOk(s, i))
    && (forall f :: f != NONE ==> FiberOk(s, f))
  }

  // ---- Every step keeps it ----

  // A step of thread i that touches at most fiber f, which no other thread has
  // claimed, leaves everyone else alone.
  lemma Frame(s: Sys, r: Sys, i: nat, f: int)
    requires Good(s) && i < |s.threads| && f != NONE
    requires |r.threads| == |s.threads| && (forall j :: 0 <= j < |s.threads| && j != i ==> r.threads[j] == s.threads[j])
    requires forall g :: g != f ==> r.fibers(g) == s.fibers(g)
    requires s.fibers(f).host == NONE || s.fibers(f).host == i
    requires Claimed(s.threads[i]) == NONE || Claimed(s.threads[i]) == f
    requires ThreadOk(r, i) && FiberOk(r, f)
    ensures Good(r)
  {
    forall j | 0 <= j < |r.threads| && j != i ensures ThreadOk(r, j) {
      assert ThreadOk(s, j);
    }
    forall g | g != NONE && g != f ensures FiberOk(r, g) {
      assert FiberOk(s, g);
    }
  }

  lemma FrameThread(s: Sys, r: Sys, i: nat)
    requires Good(s) && i < |s.threads| && r.fibers == s.fibers
    requires |r.threads| == |s.threads| && (forall j :: 0 <= j < |s.threads| && j != i ==> r.threads[j] == s.threads[j])
    requires Claimed(s.threads[i]) == NONE && Claimed(r.threads[i]) == NONE && ThreadOk(r, i)
    ensures Good(r)
  {
    forall j | 0 <= j < |r.threads| && j != i ensures ThreadOk(r, j) {
      assert ThreadOk(s, j);
    }
    forall g | g != NONE ensures FiberOk(r, g) {
      assert FiberOk(s, g);
    }
  }

  lemma ScheduleGood(s: Sys, i: nat)
    requires Good(s) && i < |s.threads| && s.threads[i].at.Sched? && s.threads[i].at.pc != Idle
    ensures Good(Schedule(s, i))
  {
    assert ThreadOk(s, i);
    var c := Claimed(s.threads[i]);
    var r := Schedule(s, i);
    if c == NONE {
      FrameThread(s, r, i);
    } else {
      assert FiberOk(s, c);
      Frame(s, r, i, c);
    }
  }

  lemma RunGood(s: Sys, i: nat)
    requires Good(s) && i < |s.threads| && s.threads[i].at.On?
    ensures Good(RunFiber(s, i))
  {
    assert ThreadOk(s, i);
    var f := Claimed(s.threads[i]);
    assert FiberOk(s, f);
    Frame(s, RunFiber(s, i), i, f);
  }

  lemma UserGood(s: Sys, a: Action)
    requires Good(s) && Enabled(s, a) && (a.Yield? || a.Return? || a.Adopt?)
    ensures Good(Apply(s, a))
  {
    assert ThreadOk(s, a.i);
    var f := Claimed(s.threads[a.i]);
    assert FiberOk(s, f);
    Frame(s, Apply(s, a), a.i, f);
  }

  lemma ChooseGood(s: Sys, i: nat, f: int)
    requires Good(s) && Enabled(s, Choose(i, f))
    ensures Good(Apply(s, Choose(i, f)))
  {
    assert ThreadOk(s, i);
    assert FiberOk(s, f);
    Frame(s, Apply(s, Choose(i, f)), i, f);
  }

  // A redirect is accepted only on the stack of the fiber the cursor names.
  lemma AcceptedOnOwnStack(s: Sys, i: nat)
    requires Good(s) && i < |s.threads| && s.threads[i].guard == 0 && s.threads[i].cursor != NONE
    ensures s.threads[i].at.On? && s.threads[i].at.fiber == s.threads[i].cursor
  {
    assert ThreadOk(s, i);
  }

  lemma TickGood(s: Sys, i: nat)
    requires Good(s) && i < |s.threads|
    ensures Good(Apply(s, Tick(i)))
  {
    if Accepts(s, i) {
      AcceptedOnOwnStack(s, i);
      assert ThreadOk(s, i);
      var f := Claimed(s.threads[i]);
      assert FiberOk(s, f);
      Frame(s, Redirect(s, i), i, f);
    }
  }

  lemma StepGood(s: Sys, a: Action)
    requires Good(s) && Enabled(s, a)
    ensures Good(Apply(s, a))
  {
    match a
    case Choose(i, f) => ChooseGood(s, i, f);
    case SchedStep(i) => ScheduleGood(s, i);
    case FiberStep(i) => RunGood(s, i);
    case Yield(_) => UserGood(s, a);
    case Return(_) => UserGood(s, a);
    case Adopt(_, _) => UserGood(s, a);
    case Tick(i) => TickGood(s, i);
  }

  // ---- Runs ----

  ghost predicate IsRun(run: seq<Sys>, acts: seq<Action>) {
    && |run| == |acts| + 1 && Init(run[0])
    && forall m :: 0 <= m < |acts| ==> StepAt(run, acts, m)
  }

  ghost predicate StepAt(run: seq<Sys>, acts: seq<Action>, m: nat)
    requires |run| == |acts| + 1 && m < |acts|
  {
    Enabled(run[m], acts[m]) && run[m + 1] == Apply(run[m], acts[m])
  }

  lemma {:induction false} RunKeeps(run: seq<Sys>, acts: seq<Action>, m: nat)
    requires IsRun(run, acts) && m <= |acts|
    ensures Good(run[m])
  {
    if m > 0 {
      RunKeeps(run, acts, m - 1);
      assert StepAt(run, acts, m - 1);
      StepGood(run[m - 1], acts[m - 1]);
    }
  }

  // In every run, with fibers moving between threads: whenever the guard is
  // clear and the cursor set, so that a redirect would be accepted, the thread
  // executes on the cursor's own stack.
  lemma RedirectSafe(run: seq<Sys>, acts: seq<Action>, m: nat, i: nat)
    requires IsRun(run, acts) && m <= |acts| && i < |run[m].threads|
    requires run[m].threads[i].guard == 0 && run[m].threads[i].cursor != NONE
    ensures run[m].threads[i].at.On? && run[m].threads[i].at.fiber == run[m].threads[i].cursor
  {
    RunKeeps(run, acts, m);
    AcceptedOnOwnStack(run[m], i);
  }

  // Once the guard is clear, the fiber in control sees its own proc.  The
  // scheduler sees none if and only if it is not at the one instruction that
  // takes the pointer back, or the fiber it came back from was no proc; and
  // on the scheduler no redirect is ever accepted.
  lemma ProcRight(run: seq<Sys>, acts: seq<Action>, m: nat, i: nat)
    requires IsRun(run, acts) && m <= |acts| && i < |run[m].threads| && run[m].threads[i].guard == 0
    ensures var t := run[m].threads[i];
      && (t.at.On? ==> t.proc == run[m].fibers(t.at.fiber).own)
      && (t.at.Sched? ==> (t.proc == NONE <==> !t.at.pc.Unproc? || t.at.pc.was == NONE))
      && (t.at.Sched? ==> !Accepts(run[m], i))
  {
    RunKeeps(run, acts, m);
    assert ThreadOk(run[m], i);
  }

  // No fiber ever executes on two threads.
  lemma OneStack(run: seq<Sys>, acts: seq<Action>, m: nat, i: nat, j: nat)
    requires IsRun(run, acts) && m <= |acts| && i < |run[m].threads| && j < |run[m].threads|
    requires run[m].threads[i].at.On? && run[m].threads[j].at.On?
      && run[m].threads[i].at.fiber == run[m].threads[j].at.fiber
    ensures i == j
  {
    RunKeeps(run, acts, m);
    assert ThreadOk(run[m], i) && ThreadOk(run[m], j);
  }

  // A redirect is never armed on top of one that has not saved its registers.
  lemma GuardIsFlag(run: seq<Sys>, acts: seq<Action>, m: nat, i: nat)
    requires IsRun(run, acts) && m <= |acts| && i < |run[m].threads|
    ensures run[m].threads[i].guard <= 1
  {
    RunKeeps(run, acts, m);
    assert ThreadOk(run[m], i);
  }

  // The fiber is in the trampoline, or in a yield called by it.
  predicate InTrampoline(pc: FiberPc) {
    match pc
    case TrampIn(_) => true
    case TrampOut(_) => true
    case Park(via) => !via.Own?
    case Save(via) => !via.Own?
    case JumpOut(via) => !via.Own?
    case Away(via) => !via.Own?
    case Restore(via) => !via.Own?
    case Clear(via) => !via.Own?
    case Tail(via) => !via.Own?
    case _ => false
  }

  // Where the fiber's own code stands, under any trampolines.
  function OwnPlace(pc: FiberPc): FiberPc {
    if InTrampoline(pc) then Beneath(Returning(pc)) else pc
  }

  function Beneath(back: Back): FiberPc {
    match back
    case ToUser => User
    case ToPark => Park(Own)
    case ToFinish => Finish
    case ToTail(via) => if via.Own? then Tail(Own) else Beneath(via.back)
  }

  // Ticks, and whatever happens in the trampoline, on whichever thread, leave
  // the fiber's own code where it was.
  lemma StepInvisible(s: Sys, a: Action, f: int)
    requires Good(s) && Enabled(s, a) && (a.Tick? || InTrampoline(s.fibers(f).pc))
    ensures OwnPlace(Apply(s, a).fibers(f).pc) == OwnPlace(s.fibers(f).pc)
  {
    assert ThreadOk(s, a.i);
    if a.Tick? && Accepts(s, a.i) {
      AcceptedOnOwnStack(s, a.i);
    }
  }

  lemma RunInvisible(run: seq<Sys>, acts: seq<Action>, k: nat, f: int)
    requires IsRun(run, acts) && k < |acts| && (acts[k].Tick? || InTrampoline(run[k].fibers(f).pc))
    ensures OwnPlace(run[k + 1].fibers(f).pc) == OwnPlace(run[k].fibers(f).pc)
  {
    RunKeeps(run, acts, k);
    assert StepAt(run, acts, k);
    StepInvisible(run[k], acts[k], f);
  }

  // So a redirected fiber, however often it is preempted again and wherever it
  // is resumed, goes back to the very place the tick interrupted.
  lemma {:induction false} RedirectReturns(run: seq<Sys>, acts: seq<Action>, m: nat, n: nat, f: int)
    requires IsRun(run, acts) && m < n <= |acts| && acts[m].Tick?
    requires forall j :: m < j < n ==> InTrampoline(run[j].fibers(f).pc)
    ensures OwnPlace(run[n].fibers(f).pc) == OwnPlace(run[m].fibers(f).pc)
  {
    RunInvisible(run, acts, n - 1, f);
    if m < n - 1 {
      RedirectReturns(run, acts, m, n - 1, f);
    }
  }

  predicate SafeTick(s: Sys, a: Action) {
    a.Tick? && a.i < |s.threads| && Accepts(s, a.i) ==> InUser(s, a.i)
  }

  // The safe-point check: no tick is accepted outside the fiber's own function.
  ghost predicate SafePoints(run: seq<Sys>, acts: seq<Action>)
    requires IsRun(run, acts)
  {
    forall m :: 0 <= m < |acts| ==> SafeTick(run[m], acts[m])
  }

  // What a fiber in the trampoline goes back to.
  function Returning(pc: FiberPc): Back {
    match pc
    case TrampIn(back) => back
    case TrampOut(back) => back
    case Park(via) => Calling(via)
    case Save(via) => Calling(via)
    case JumpOut(via) => Calling(via)
    case Away(via) => Calling(via)
    case Restore(via) => Calling(via)
    case Clear(via) => Calling(via)
    case Tail(via) => Calling(via)
    case _ => ToUser
  }

  function Calling(via: Caller): Back {
    if via.Own? then ToUser else via.back
  }

  lemma StepFlat(s: Sys, a: Action, f: int)
    requires Good(s) && Enabled(s, a) && SafeTick(s, a) && Returning(s.fibers(f).pc) == ToUser
    ensures Returning(Apply(s, a).fibers(f).pc) == ToUser
  {
    if a.Tick? && Accepts(s, a.i) {
      AcceptedOnOwnStack(s, a.i);
    }
  }

  // With it redirects never nest: every trampoline returns to the fiber's own
  // function.
  lemma {:induction false} NeverNested(run: seq<Sys>, acts: seq<Action>, m: nat, f: int)
    requires IsRun(run, acts) && SafePoints(run, acts) && m <= |acts|
    ensures Returning(run[m].fibers(f).pc) == ToUser
  {
    if m > 0 {
      NeverNested(run, acts, m - 1, f);
      RunKeeps(run, acts, m - 1);
      assert StepAt(run, acts, m - 1);
      StepFlat(run[m - 1], acts[m - 1], f);
    }
  }

  // ---- The one stale instruction is real ----

  ghost predicate Ends(run: seq<Sys>, acts: seq<Action>, t: Thread, b: Fiber) {
    && IsRun(run, acts)
    && run[|run| - 1].threads == [t] && run[|run| - 1].fibers(0) == b
  }

  lemma Extend(run: seq<Sys>, acts: seq<Action>, a: Action) returns (r: seq<Sys>, c: seq<Action>)
    requires IsRun(run, acts) && Enabled(run[|run| - 1], a)
    ensures IsRun(r, c) && r[|r| - 1] == Apply(run[|run| - 1], a)
  {
    r, c := run + [Apply(run[|run| - 1], a)], acts + [a];
    forall m | 0 <= m < |c| ensures StepAt(r, c, m) {
      assert m < |acts| ==> StepAt(run, acts, m);
    }
  }

  // Fiber 0 starts and becomes proc p.
  lemma Started(p: int) returns (run: seq<Sys>, acts: seq<Action>)
    ensures Ends(run, acts, Thread(0, 0, p, On(0, NONE)), Fiber(User, NONE, p, 0))
  {
    run, acts := [Sys([Thread(NONE, 0, NONE, Sched(Idle))], f => Fiber(Fresh, NONE, NONE, NONE))], [];
    run, acts := Extend(run, acts, Choose(0, 0));
    run, acts := Extend(run, acts, SchedStep(0));
    run, acts := Extend(run, acts, SchedStep(0));
    run, acts := Extend(run, acts, SchedStep(0));
    run, acts := Extend(run, acts, FiberStep(0));
    run, acts := Extend(run, acts, FiberStep(0));
    run, acts := Extend(run, acts, FiberStep(0));
    run, acts := Extend(run, acts, Adopt(0, p));
  }

  // It yields; with the guard already clear, the scheduler still sees proc p
  // until its next instruction.
  lemma StaleProc(p: int) returns (run: seq<Sys>, acts: seq<Action>)
    ensures Ends(run, acts, Thread(NONE, 0, p, Sched(Unproc(NONE, p))), Fiber(Away(Own), p, p, NONE))
  {
    run, acts := Started(p);
    run, acts := Extend(run, acts, Yield(0));
    run, acts := Extend(run, acts, FiberStep(0));
    run, acts := Extend(run, acts, FiberStep(0));
    run, acts := Extend(run, acts, FiberStep(0));
    run, acts := Extend(run, acts, SchedStep(0));
    run, acts := Extend(run, acts, SchedStep(0));
  }
}
