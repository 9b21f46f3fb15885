/**
  The life of a task across an executor: waking, parking, queueing, stealing,
  running and recycling, as a sequentially consistent transition system.  Each
  atomic load, store, exchange and compare-and-swap of src/evt/task.c and
  src/evt/loop.c is one action; any number of tasks, loops and other threads
  take actions in any order.

  A thread inside xtc_waker_wake or __xtc_task_spawn_cleanup is a `Thread`.  A
  wake issued from the loop's own thread, by the fiber it is running or by its
  event dispatch, is such a thread too: it may interleave with the loop in more
  ways than the real one, never in fewer.
*/
module TaskSched {
  import opened ArraySeq

  datatype TaskState = Scheduled | Running | Parked | Done

  /** Where a thread stands in a wake or a spawn of task t, aimed at loop l. */
  datatype Thread =
    | Out                   // in neither
    | Claim(t: nat, l: nat) // about to try PARKED -> SCHEDULED
    | Latch(t: nat, l: nat) // that failed; about to store wake_pending = 1
    | Look(t: nat, l: nat)  // latched; about to load the state
    | Take(t: nat, l: nat)  // saw PARKED; about to exchange wake_pending with 0
    | Retry(t: nat, l: nat) // took the latch; about to try PARKED -> SCHEDULED
    | Won(t: nat, l: nat)   // moved t to SCHEDULED; must queue it
    | Init(t: nat)          // spawning: popped a recycled struct
    | Clear(t: nat)         // its state is SCHEDULED; about to clear wake_pending
    | Publish(t: nat)       // about to queue it on its home loop

  /** Where a loop's own thread stands in __xtc_loop_step. */
  datatype Runner =
    | Idle                   // between steps
    | DrainPub(chain: seq<nat>) // emptied the publish stack, not yet the wake stack
    | Drain(chain: seq<nat>) // queueing the tasks it took from the inbox
    | Popped(t: nat)         // off the run queue; about to store RUNNING
    | Run(t: nat)            // inside the task function
    | Finish(t: nat)         // DONE stored; about to recycle the struct
    | Pend(t: nat)           // verdict PENDING; about to exchange wake_pending
    | Rearm(t: nat)          // took the latch; about to store SCHEDULED
    | Park(t: nat)           // no latch; about to store PARKED
    | Recheck(t: nat)        // PARKED stored; about to exchange wake_pending again
    | Reclaim(t: nat)        // took the latch; about to try PARKED -> SCHEDULED
    | Requeue(t: nat)        // t is SCHEDULED again; about to enqueue it
    | Stolen(t: nat)         // off a peer's deque; about to enqueue it here

  /** owned: the owner-only FIFO and class FIFOs; deque: what peers may steal;
      pub, wake: the two inbox stacks, in arrival order. */
  datatype Loop = Loop(owned: seq<nat>, deque: seq<nat>, pub: seq<nat>, wake: seq<nat>, runner: Runner)

  /** owed: a wake of the task has begun since it last started to run.  The code
      has no such field; it records what the wake is for.  free: the struct is on
      a free list or a spare list. */
  datatype Task = Task(state: TaskState, latch: bool, owed: bool, free: bool)

  /** Tasks are numbered without bound; pinned(t) and home(t) never change, since a
      struct is recycled only on its own loop and for its own kind.  ran: which
      task has been run by which loop.  A task arms its wakers, timers and file
      descriptors on the loop it is running on, so these are, besides its home, the
      loops a wake of it can name. */
  datatype Sys = Sys(
    pinned: int -> bool, home: int -> nat, ran: set<(int, int)>,
    tasks: int -> Task, loops: seq<Loop>, threads: seq<Thread>)

  function At(s: Sys, t: nat): Task {
    s.tasks(t)
  }

  function Put(s: Sys, t: nat, task: Task): Sys {
    s.(tasks := u => if u == t then task else s.tasks(u))
  }

  datatype Verdict = SayDone | SayResched | SayPending

  /** Where a task is queued: the owner-only queues, the stealable deque, or the
      inbox. */
  datatype Place = Owned | Deque | Inbox

  datatype Action =
    | WakeBegin(i: nat, t: nat, l: nat)
    | SpawnPop(i: nat, t: nat)
    | SpawnFail(i: nat)           // no inbox credit: back to the spare list
    | Advance(i: nat, p: Place)   // thread i's next atomic step
    | TakePub(l: nat)
    | PopOwned(l: nat, k: nat)
    | PopDeque(l: nat)
    | Steal(l: nat, v: nat)
    | Return(l: nat, verdict: Verdict)
    | Abandon(l: nat)             // left on all_tasks until the loop is finalized
    | Turn(l: nat, p: Place)      // loop l's next atomic step

  /** Loop numbers are in range. */
  ghost predicate Shape(s: Sys) {
    && |s.loops| > 0
    && (forall t: nat :: s.home(t) < |s.loops|)
    && (forall i :: 0 <= i < |s.threads| ==> Aim(s.threads[i]) < |s.loops|)
  }

  /** The loop a thread will queue its task on. */
  function Aim(th: Thread): nat {
    match th
    case Claim(_, l) => l
    case Latch(_, l) => l
    case Look(_, l) => l
    case Take(_, l) => l
    case Retry(_, l) => l
    case Won(_, l) => l
    case _ => 0
  }

  /** Every struct is on a free list and no one is doing anything. */
  ghost predicate Init0(s: Sys) {
    && Shape(s) && s.ran == {}
    && (forall t: nat :: At(s, t).state == Done && !At(s, t).owed && At(s, t).free)
    && (forall i :: 0 <= i < |s.threads| ==> s.threads[i] == Out)
    && (forall l :: 0 <= l < |s.loops| ==> s.loops[l] == Loop([], [], [], [], Idle))
  }

  // --- One action ---------------------------------------------------------

  function SetState(s: Sys, t: nat, v: TaskState): Sys {
    Put(s, t, At(s, t).(state := v))
  }

  function SetLatch(s: Sys, t: nat, v: bool): Sys {
    Put(s, t, At(s, t).(latch := v))
  }

  function SetOwed(s: Sys, t: nat, v: bool): Sys {
    Put(s, t, At(s, t).(owed := v))
  }

  function SetFree(s: Sys, t: nat, v: bool): Sys {
    Put(s, t, At(s, t).(free := v))
  }

  function SetThread(s: Sys, i: nat, th: Thread): Sys
    requires i < |s.threads|
  {
    s.(threads := s.threads[i := th])
  }

  function SetLoop(s: Sys, l: nat, lp: Loop): Sys
    requires l < |s.loops|
  {
    s.(loops := s.loops[l := lp])
  }

  function SetRunner(s: Sys, l: nat, r: Runner): Sys
    requires l < |s.loops|
  {
    SetLoop(s, l, s.loops[l].(runner := r))
  }

  /** __xtc_loop_enqueue, and the inbox push of a wake. */
  function Queue(lp: Loop, t: nat, p: Place): Loop {
    match p
    case Owned => lp.(owned := lp.owned + [t])
    case Deque => lp.(deque := lp.deque + [t])
    case Inbox => lp.(wake := lp.wake + [t])
  }

  /** The next atomic step of a thread inside a wake (task.c, __task_wake_claim
      and its caller) or a spawn. */
  ghost function AdvanceThread(s: Sys, i: nat, p: Place): Sys
    requires Shape(s) && i < |s.threads|
  {
    match s.threads[i]
    case Claim(t, l) =>
      if At(s, t).state == Parked then SetThread(SetState(s, t, Scheduled), i, Won(t, l))
      else SetThread(s, i, Latch(t, l))
    case Latch(t, l) => SetThread(SetLatch(s, t, true), i, Look(t, l))
    case Look(t, l) => SetThread(s, i, if At(s, t).state == Parked then Take(t, l) else Out)
    case Take(t, l) => SetThread(SetLatch(s, t, false), i, if At(s, t).latch then Retry(t, l) else Out)
    case Retry(t, l) =>
      if At(s, t).state == Parked then SetThread(SetState(s, t, Scheduled), i, Won(t, l))
      else SetThread(s, i, Out)
    case Won(t, l) =>
      assert Aim(s.threads[i]) == l;
      SetThread(SetLoop(s, l, Queue(s.loops[l], t, p)), i, Out)
    case Init(t) => SetThread(SetState(s, t, Scheduled), i, Clear(t))
    case Clear(t) => SetThread(SetLatch(s, t, false), i, Publish(t))
    case Publish(t) =>
      var lp := s.loops[s.home(t)];
      SetThread(SetLoop(s, s.home(t), if p.Inbox? then lp.(pub := lp.pub + [t]) else Queue(lp, t, p)), i, Out)
    case Out => s
  }

  /** The next atomic step of a loop, where it has no choice but the queue. */
  ghost function TurnLoop(s: Sys, l: nat, p: Place): Sys
    requires l < |s.loops|
  {
    var lp := s.loops[l];
    match lp.runner
    case DrainPub(c) => SetLoop(s, l, lp.(wake := [], runner := Drain(c + lp.wake)))
    case Drain(c) =>
      SetLoop(s, l, if c == [] then lp.(runner := Idle) else Queue(lp, c[0], p).(runner := Drain(c[1..])))
    case Popped(t) =>
      SetRunner(SetState(SetOwed(s.(ran := s.ran + {(t, l)}), t, false), t, Running), l, Run(t))
    case Finish(t) => SetRunner(SetFree(s, t, true), l, Idle)
    case Pend(t) => SetRunner(SetLatch(s, t, false), l, if At(s, t).latch then Rearm(t) else Park(t))
    case Rearm(t) => SetRunner(SetState(s, t, Scheduled), l, Requeue(t))
    case Park(t) => SetRunner(SetState(s, t, Parked), l, Recheck(t))
    case Recheck(t) => SetRunner(SetLatch(s, t, false), l, if At(s, t).latch then Reclaim(t) else Idle)
    case Reclaim(t) =>
      if At(s, t).state == Parked then SetRunner(SetState(s, t, Scheduled), l, Requeue(t))
      else SetRunner(s, l, Idle)
    case Requeue(t) => SetLoop(s, l, Queue(lp, t, p).(runner := Idle))
    case Stolen(t) => SetLoop(s, l, Queue(lp, t, p).(runner := Idle))
    case Idle => s
    case Run(t) => s
  }

  ghost function ReturnFrom(s: Sys, l: nat, v: Verdict): Sys
    requires l < |s.loops| && s.loops[l].runner.Run?
  {
    var t := s.loops[l].runner.t;
    match v
    case SayDone => SetRunner(SetState(s, t, Done), l, Finish(t))
    case SayResched => SetRunner(SetState(s, t, Scheduled), l, Requeue(t))
    case SayPending => SetRunner(s, l, Pend(t))
  }

  /** The task an action would queue, if any. */
  function Queued(th: Thread): set<nat> {
    if th.Won? || th.Publish? then {th.t} else {}
  }

  function QueuedBy(r: Runner): set<nat> {
    match r
    case Drain(c) => if c == [] then {} else {c[0]}
    case Requeue(t) => {t}
    case Stolen(t) => {t}
    case _ => {}
  }

  ghost predicate Enabled(s: Sys, a: Action) {
    match a
    case WakeBegin(i, t, l) =>
      i < |s.threads| && s.threads[i] == Out && l < |s.loops| && ((t, l) in s.ran || l == s.home(t))
    case SpawnPop(i, t) => i < |s.threads| && s.threads[i] == Out && At(s, t).free
    case SpawnFail(i) => i < |s.threads| && s.threads[i].Publish?
    case Advance(i, p) =>
      && i < |s.threads| && s.threads[i] != Out
      && (p == Deque ==> forall t :: t in Queued(s.threads[i]) ==> !s.pinned(t))
    case TakePub(l) => l < |s.loops| && s.loops[l].runner == Idle
    case PopOwned(l, k) => l < |s.loops| && s.loops[l].runner == Idle && k < |s.loops[l].owned|
    case PopDeque(l) => l < |s.loops| && s.loops[l].runner == Idle && s.loops[l].deque != []
    case Steal(l, v) => l < |s.loops| && v < |s.loops| && l != v && s.loops[l].runner == Idle && s.loops[v].deque != []
    case Return(l, v) => l < |s.loops| && s.loops[l].runner.Run?
    case Abandon(l) => l < |s.loops| && s.loops[l].runner.Finish?
    case Turn(l, p) =>
      && l < |s.loops| && !s.loops[l].runner.Idle? && !s.loops[l].runner.Run? && p != Inbox
      && (p == Deque ==> forall t :: t in QueuedBy(s.loops[l].runner) ==> !s.pinned(t))
  }

  ghost function Apply(s: Sys, a: Action): Sys
    requires Shape(s) && Enabled(s, a)
  {
    match a
    case WakeBegin(i, t, l) => SetThread(SetOwed(s, t, true), i, Claim(t, l))
    case SpawnPop(i, t) => SetThread(SetFree(s, t, false), i, Init(t))
    case SpawnFail(i) => SetThread(SetFree(s, s.threads[i].t, true), i, Out)
    case Advance(i, p) => AdvanceThread(s, i, p)
    case TakePub(l) => SetLoop(s, l, s.loops[l].(pub := [], runner := DrainPub(s.loops[l].pub)))
    case PopOwned(l, k) =>
      SetLoop(s, l, s.loops[l].(owned := Cut(s.loops[l].owned, k), runner := Popped(s.loops[l].owned[k])))
    case PopDeque(l) =>
      SetLoop(s, l, s.loops[l].(deque := s.loops[l].deque[1..], runner := Popped(s.loops[l].deque[0])))
    case Steal(l, v) =>
      SetRunner(SetLoop(s, v, s.loops[v].(deque := s.loops[v].deque[1..])), l, Stolen(s.loops[v].deque[0]))
    case Return(l, v) => ReturnFrom(s, l, v)
    case Abandon(l) => SetRunner(s, l, Idle)
    case Turn(l, p) => TurnLoop(s, l, p)
  }

  lemma AdvanceShape(s: Sys, i: nat, p: Place)
    requires Shape(s) && i < |s.threads|
    ensures var n := AdvanceThread(s, i, p);
      |n.loops| == |s.loops| && n.home == s.home && |n.threads| == |s.threads| &&
      n.threads == s.threads[i := n.threads[i]] && Aim(n.threads[i]) <= Aim(s.threads[i])
  {
  }

  lemma TurnShape(s: Sys, l: nat, p: Place)
    requires l < |s.loops|
    ensures var n := TurnLoop(s, l, p); |n.loops| == |s.loops| && n.home == s.home && n.threads == s.threads
  {
  }

  lemma ApplyShape(s: Sys, a: Action)
    requires Shape(s) && Enabled(s, a)
    ensures Shape(Apply(s, a))
  {
    match a
    case Advance(i, p) => AdvanceShape(s, i, p);
    case Turn(l, p) => TurnShape(s, l, p);
    case _ =>
  }

  /** A run: every state follows from the one before by one enabled action. */
  ghost predicate IsRun(run: seq<Sys>, acts: seq<Action>) {
    && |run| == |acts| + 1
    && Init0(run[0])
    && (forall k :: 0 <= k < |acts| ==> StepAt(run, acts, k))
  }

  ghost predicate StepAt(run: seq<Sys>, acts: seq<Action>, k: nat)
    requires |run| == |acts| + 1 && k < |acts|
  {
    Shape(run[k]) && Enabled(run[k], acts[k]) && run[k + 1] == Apply(run[k], acts[k])
  }
}
