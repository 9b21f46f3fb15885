/**
  Firing, cancelling and freeing timers across threads (src/evt/timer.c, the drain
  in src/evt/loop.c, the park timers in src/evt/task.c).

  Every thread is a loop's thread: it may be draining its own heap, and it may be
  inside a call that arms, cancels or releases a timer, made by the fiber it runs or
  by a timer callback.  A heap belongs to one thread.  A fiber preempted in a call,
  but for the parts that work on its own loop's heap, may go on with it on another
  thread.  Each atomic access is one step, steps of different threads interleave
  freely, and a freed node's address may be handed out again at once.  Which queued
  node the drain looks at is left open; the order of the heap is in TimerHeap.
*/
module TimerRefs {
  import opened Tally

  datatype Fired = Pending | Fired | Cancelled

  /** Park(task): a park timer; its second reference is the task's park_timer slot.
      User(handle): set by xtc_timer_set, with or without a handle for the caller. */
  datatype Kind = Park(task: nat) | User(handle: bool)

  /** handle: the caller still holds its handle.  fires: callbacks run; won: a cancel
      has returned 1.  Both are records, not fields of the code. */
  datatype Node = Node(
    live: bool, owner: nat, kind: Kind, fired: Fired, cancelled: bool, refs: int,
    queued: bool, handle: bool, fires: nat, won: bool)

  datatype Slot = None | Holds(n: nat)

  /** Where __xtc_timer_park_release stands. */
  datatype Stage = Load | Sub | Free

  datatype Drain =
    | Idle
    | Top(n: nat)       // about to load the node's state
    | ClaimIt(n: nat)   // due: about to move it from pending to fired
    | Pop(n: nat)       // claimed: about to take it off the heap
    | Check(n: nat)     // popped: about to look at its cancelled mark
    | Calling(n: nat)   // in its callback, or waking its task
    | Unslot(n: nat)    // about to clear the task's slot if it still names it
    | DropSlot(n: nat, st: Stage) // releasing the slot's reference
    | DropHeap(n: nat, st: Stage) // releasing the heap's reference

  /** On whose behalf a cancel runs: it holds the slot's reference, or the caller's
      handle stays up meanwhile. */
  datatype How = BySlot | ByHandle

  datatype Call =
    | Out
    | ArmPush(n: nat, k: Kind)  // allocated and initialized: about to push it
    | ArmSlot(n: nat, task: nat) // about to store the task's slot
    | CancelCas(n: nat, how: How) // about to move it from pending to cancelled
    | CancelMark(n: nat, how: How) // about to set the cancelled mark
    | CancelHeap(n: nat, how: How) // about to take it off the heap if that is ours
    | CancelDrop(n: nat, how: How, st: Stage) // it was: releasing the heap's reference
    | SweepLook(n: nat)         // sweeping: about to load the node's state
    | SweepDrop(n: nat, st: Stage)
    | LetGo(n: nat, st: Stage)  // releasing the slot's or the handle's reference

  datatype Thread = Thread(drain: Drain, call: Call)

  datatype Sys = Sys(nodes: int -> Node, slots: int -> Slot, threads: seq<Thread>)

  function At(s: Sys, n: nat): Node { s.nodes(n) }

  datatype Action =
    | SetUser(i: nat, n: nat, handle: bool)
    | ParkOn(i: nat, n: nat, task: nat)
    | ArmFail(i: nat)               // the heap could not grow
    | CancelPark(i: nat, task: nat)
    | CancelHandle(i: nat, n: nat)
    | ReleaseHandle(i: nat, n: nat)
    | Sweep(i: nat, n: nat)
    | Pick(i: nat, n: nat)          // the drain looks at a queued node
    | CallStep(i: nat)
    | DrainStep(i: nat, due: bool)
    | Migrate(i: nat, j: nat)       // a preempted fiber goes on with its call on thread j

  ghost predicate Init(s: Sys) {
    && (forall n: nat :: !At(s, n).live && !At(s, n).queued && !At(s, n).handle)
    && (forall t: nat :: s.slots(t) == None)
    && (forall i :: 0 <= i < |s.threads| ==> s.threads[i] == Thread(Idle, Out))
  }

  // --- Steps --------------------------------------------------------------

  function Put(s: Sys, n: nat, node: Node): Sys {
    s.(nodes := m => if m == n then node else s.nodes(m))
  }

  function PutSlot(s: Sys, t: nat, v: Slot): Sys {
    s.(slots := u => if u == t then v else s.slots(u))
  }

  function SetCall(s: Sys, i: nat, c: Call): Sys
    requires i < |s.threads|
  {
    s.(threads := s.threads[i := s.threads[i].(call := c)])
  }

  function SetDrain(s: Sys, i: nat, d: Drain): Sys
    requires i < |s.threads|
  {
    s.(threads := s.threads[i := s.threads[i].(drain := d)])
  }

  /** One step of a release: the stage after it, or nothing once it is over. */
  datatype After = More(st: Stage) | Over

  function ReleaseNode(node: Node, st: Stage): Node {
    match st
    case Load => node
    case Sub => node.(refs := node.refs - 1)
    case Free => node.(live := false)
  }

  function ReleaseAfter(node: Node, st: Stage): After {
    match st
    case Load => if node.refs == 0 then Over else More(Sub)
    case Sub => if node.refs == 1 then More(Free) else Over
    case Free => Over
  }

  function Unqueue(s: Sys, n: nat): Sys {
    Put(s, n, At(s, n).(queued := false))
  }

  function CallNext(s: Sys, i: nat): Sys
    requires i < |s.threads|
  {
    match s.threads[i].call
    case Out => s
    case ArmPush(n, k) =>
      var s1 := Put(s, n, At(s, n).(queued := true, handle := k.User? && k.handle));
      SetCall(s1, i, if k.Park? then ArmSlot(n, k.task) else Out)
    case ArmSlot(n, t) => SetCall(PutSlot(s, t, Holds(n)), i, Out)
    case CancelCas(n, how) =>
      if At(s, n).fired == Pending then SetCall(Put(s, n, At(s, n).(fired := Cancelled, won := true)), i,
        CancelMark(n, how))
      else SetCall(s, i, if how == BySlot then LetGo(n, Load) else Out)
    case CancelMark(n, how) => SetCall(Put(s, n, At(s, n).(cancelled := true)), i, CancelHeap(n, how))
    case CancelHeap(n, how) =>
      if At(s, n).owner == i && At(s, n).queued then SetCall(Unqueue(s, n), i, CancelDrop(n, how, Load))
      else SetCall(s, i, if how == BySlot then LetGo(n, Load) else Out)
    case CancelDrop(n, how, st) =>
      var a := ReleaseAfter(At(s, n), st);
      SetCall(Put(s, n, ReleaseNode(At(s, n), st)), i,
              if a.More? then CancelDrop(n, how, a.st) else if how == BySlot then LetGo(n, Load) else Out)
    case SweepLook(n) =>
      if At(s, n).fired == Cancelled then SetCall(Unqueue(s, n), i, SweepDrop(n, Load)) else SetCall(s, i, Out)
    case SweepDrop(n, st) =>
      var a := ReleaseAfter(At(s, n), st);
      SetCall(Put(s, n, ReleaseNode(At(s, n), st)), i, if a.More? then SweepDrop(n, a.st) else Out)
    case LetGo(n, st) =>
      var a := ReleaseAfter(At(s, n), st);
      SetCall(Put(s, n, ReleaseNode(At(s, n), st)), i, if a.More? then LetGo(n, a.st) else Out)
  }

  /** n's task still has it in its slot. */
  predicate InSlot(s: Sys, n: nat) {
    At(s, n).kind.Park? && s.slots(At(s, n).kind.task) == Holds(n)
  }

  function DrainNext(s: Sys, i: nat, due: bool): Sys
    requires i < |s.threads|
  {
    match s.threads[i].drain
    case Idle => s
    case Top(n) =>
      if At(s, n).fired == Cancelled then SetDrain(Unqueue(s, n), i, DropHeap(n, Load))
      else SetDrain(s, i, if due then ClaimIt(n) else Idle)
    case ClaimIt(n) =>
      if At(s, n).fired == Pending then SetDrain(Put(s, n, At(s, n).(fired := Fired)), i, Pop(n))
      else SetDrain(Unqueue(s, n), i, DropHeap(n, Load))
    case Pop(n) => SetDrain(Unqueue(s, n), i, Check(n))
    case Check(n) =>
      if At(s, n).cancelled then SetDrain(s, i, DropHeap(n, Load))
      else SetDrain(Put(s, n, At(s, n).(fired := Fired, fires := At(s, n).fires + 1)), i, Calling(n))
    case Calling(n) => SetDrain(s, i, if At(s, n).kind.Park? then Unslot(n) else DropHeap(n, Load))
    case Unslot(n) =>
      if InSlot(s, n) then SetDrain(PutSlot(s, At(s, n).kind.task, None), i, DropSlot(n, Load))
      else SetDrain(s, i, DropHeap(n, Load))
    case DropSlot(n, st) =>
      var a := ReleaseAfter(At(s, n), st);
      SetDrain(Put(s, n, ReleaseNode(At(s, n), st)), i, if a.More? then DropSlot(n, a.st) else DropHeap(n, Load))
    case DropHeap(n, st) =>
      var a := ReleaseAfter(At(s, n), st);
      SetDrain(Put(s, n, ReleaseNode(At(s, n), st)), i, if a.More? then DropHeap(n, a.st) else Idle)
  }

  /** The thread may make a call: it runs a fiber, or a timer's callback. */
  predicate MayCall(th: Thread) {
    th.call == Out && (th.drain == Idle || th.drain.Calling?)
  }

  /** The call is past, or has not come to, the part that works on its own loop's heap. */
  predicate Movable(c: Call) {
    !c.Out? && !c.ArmPush? && !c.SweepLook? && !c.SweepDrop?
  }

  predicate ArmsFor(c: Call, t: nat) {
    (c.ArmSlot? && c.task == t) || (c.ArmPush? && c.k == Park(t))
  }

  ghost predicate Enabled(s: Sys, a: Action) {
    && a.i < |s.threads|
    && match a
       case SetUser(i, n, _) => MayCall(s.threads[i]) && !At(s, n).live
       // A task's fiber runs on one thread at a time, and parks with its slot empty.
       case ParkOn(i, n, t) =>
         && MayCall(s.threads[i]) && !At(s, n).live && s.slots(t) == None
         && (forall j :: 0 <= j < |s.threads| ==> !ArmsFor(s.threads[j].call, t))
       case ArmFail(i) => s.threads[i].call.ArmPush?
       case CancelPark(i, _) => MayCall(s.threads[i])
       case CancelHandle(i, n) => MayCall(s.threads[i]) && At(s, n).live && At(s, n).handle
       // A handle is not released while a cancel through it is going on.
       case ReleaseHandle(i, n) =>
         && MayCall(s.threads[i]) && At(s, n).live && At(s, n).handle
         && (forall j :: 0 <= j < |s.threads| ==> !ViaHandle(s.threads[j].call, n))
       case Sweep(i, n) => MayCall(s.threads[i]) && At(s, n).live && At(s, n).queued && At(s, n).owner == i
       case Pick(i, n) => s.threads[i] == Thread(Idle, Out) && At(s, n).live && At(s, n).queued && At(s, n).owner == i
       case CallStep(i) => s.threads[i].call != Out
       case DrainStep(i, _) => s.threads[i].call == Out && s.threads[i].drain != Idle
       // Only a fiber moves, and only to a thread that can run it; a callback does not.
       case Migrate(i, j) =>
         && s.threads[i].drain == Idle && Movable(s.threads[i].call)
         && j < |s.threads| && s.threads[j] == Thread(Idle, Out)
  }

  predicate ViaHandle(c: Call, n: nat) {
    (c.CancelCas? || c.CancelMark? || c.CancelHeap? || c.CancelDrop?) && c.how == ByHandle && c.n == n
  }

  /** A fresh node: pending, with the heap's reference and, if it has one, its other
      owner's. */
  function Fresh(i: nat, k: Kind): Node {
    Node(true, i, k, Pending, false, if k == User(false) then 1 else 2, false, false, 0, false)
  }

  function Apply(s: Sys, a: Action): Sys
    requires Enabled(s, a)
  {
    match a
    case SetUser(i, n, h) => SetCall(Put(s, n, Fresh(i, User(h))), i, ArmPush(n, User(h)))
    case ParkOn(i, n, t) => SetCall(Put(s, n, Fresh(i, Park(t))), i, ArmPush(n, Park(t)))
    case ArmFail(i) => SetCall(Put(s, s.threads[i].call.n, At(s, s.threads[i].call.n).(live := false)), i, Out)
    case CancelPark(i, t) =>
      if s.slots(t).Holds? then SetCall(PutSlot(s, t, None), i, CancelCas(s.slots(t).n, BySlot)) else s
    case CancelHandle(i, n) => SetCall(s, i, CancelCas(n, ByHandle))
    case ReleaseHandle(i, n) => SetCall(Put(s, n, At(s, n).(handle := false)), i, LetGo(n, Load))
    case Sweep(i, n) => SetCall(s, i, SweepLook(n))
    case Pick(i, n) => SetDrain(s, i, Top(n))
    case CallStep(i) => CallNext(s, i)
    case DrainStep(i, due) => DrainNext(s, i, due)
    case Migrate(i, j) => SetCall(SetCall(s, i, Out), j, s.threads[i].call)
  }

  ghost predicate IsRun(run: seq<Sys>, acts: seq<Action>) {
    && |run| == |acts| + 1 && Init(run[0])
    && (forall k :: 0 <= k < |acts| ==> StepAt(run, acts, k))
  }

  ghost predicate StepAt(run: seq<Sys>, acts: seq<Action>, k: nat)
    requires |run| == |acts| + 1 && k < |acts|
  {
    Enabled(run[k], acts[k]) && run[k + 1] == Apply(run[k], acts[k])
  }

  // --- References ---------------------------------------------------------

  /** The heap's reference to n, in a thread's hands. */
  function DrainHeap(d: Drain, n: nat): nat {
    match d
    case Check(m) => Is(m, n)
    case Calling(m) => Is(m, n)
    case Unslot(m) => Is(m, n)
    case DropSlot(m, _) => Is(m, n)
    case DropHeap(m, st) => if st == Free then 0 else Is(m, n)
    case _ => 0
  }

  function CallHeap(c: Call, n: nat): nat {
    match c
    case ArmPush(m, _) => Is(m, n)
    case CancelDrop(m, _, st) => if st == Free then 0 else Is(m, n)
    case SweepDrop(m, st) => if st == Free then 0 else Is(m, n)
    case _ => 0
  }

  /** The other owner's reference to n, in a thread's hands. */
  function DrainSlot(d: Drain, n: nat): nat {
    if d.DropSlot? && d.st != Free then Is(d.n, n) else 0
  }

  function CallSlot(c: Call, n: nat): nat {
    match c
    case ArmPush(m, k) => if k == User(false) then 0 else Is(m, n)
    case ArmSlot(m, _) => Is(m, n)
    case CancelCas(m, how) => if how == BySlot then Is(m, n) else 0
    case CancelMark(m, how) => if how == BySlot then Is(m, n) else 0
    case CancelHeap(m, how) => if how == BySlot then Is(m, n) else 0
    case CancelDrop(m, how, _) => if how == BySlot then Is(m, n) else 0
    case LetGo(m, st) => if st == Free then 0 else Is(m, n)
    case _ => 0
  }

  /** The thread dropped the last reference and is about to free n. */
  function Dying(th: Thread, n: nat): nat {
    (if (th.drain.DropSlot? || th.drain.DropHeap?) && th.drain.st == Free then Is(th.drain.n, n) else 0)
    + (if (th.call.CancelDrop? || th.call.SweepDrop? || th.call.LetGo?) && th.call.st == Free
       then Is(th.call.n, n) else 0)
  }

  function ByHeap(n: nat): Thread -> nat { (th: Thread) => DrainHeap(th.drain, n) + CallHeap(th.call, n) }
  function BySlotRef(n: nat): Thread -> nat { (th: Thread) => DrainSlot(th.drain, n) + CallSlot(th.call, n) }
  function ByDying(n: nat): Thread -> nat { (th: Thread) => Dying(th, n) }

  /** References to n held for the heap and for its other owner. */
  ghost function HeapRefs(s: Sys, n: nat): nat {
    Total(s.threads, ByHeap(n)) + Bit(At(s, n).queued)
  }

  ghost function OtherRefs(s: Sys, n: nat): nat {
    Total(s.threads, BySlotRef(n)) + Bit(At(s, n).handle) + Bit(InSlot(s, n))
  }

  ghost function Freers(s: Sys, n: nat): nat {
    Total(s.threads, ByDying(n))
  }

  // --- Invariant ----------------------------------------------------------

  /** A live node's count is its references, at most one of each kind; the last to
      go leaves exactly one thread to free it.  A dead node has none. */
  ghost predicate RefsOk(s: Sys, n: nat) {
    if At(s, n).live then
      && At(s, n).refs == HeapRefs(s, n) + OtherRefs(s, n)
      && HeapRefs(s, n) <= 1 && OtherRefs(s, n) <= Bit(At(s, n).kind != User(false))
      && Freers(s, n) == Bit(At(s, n).refs == 0)
    else
      HeapRefs(s, n) == 0 && OtherRefs(s, n) == 0 && Freers(s, n) == 0
  }

  /** It fires at most once, and never once a cancel has won. */
  predicate FireOk(node: Node) {
    node.live ==>
      && node.fires <= 1
      && (node.fires == 1 ==> node.fired == Fired)
      && (node.won <==> node.fired == Cancelled)
      && (node.cancelled ==> node.fired == Cancelled)
  }

  predicate SlotOk(s: Sys, t: nat) {
    s.slots(t).Holds? ==> At(s, s.slots(t).n).kind == Park(t) && At(s, s.slots(t).n).live
  }

  /** A node the drain is looking at is in this thread's own heap. */
  predicate DrainOk(s: Sys, i: nat, d: Drain) {
    match d
    case Top(n) => At(s, n).live && At(s, n).queued && At(s, n).owner == i
    case ClaimIt(n) => At(s, n).live && At(s, n).queued && At(s, n).owner == i
    case Pop(n) => At(s, n).live && At(s, n).queued && At(s, n).owner == i && At(s, n).fired == Fired
      && At(s, n).fires == 0
    case Check(n) => At(s, n).fired == Fired && At(s, n).fires == 0
    case Unslot(n) => At(s, n).kind.Park?
    case _ => true
  }

  predicate CallOk(s: Sys, i: nat, c: Call) {
    match c
    case ArmPush(n, k) => At(s, n).kind == k && !At(s, n).handle
    case ArmSlot(n, t) => At(s, n).kind == Park(t)
    case CancelCas(n, how) => how == ByHandle ==> At(s, n).live && At(s, n).handle
    case CancelMark(n, how) => At(s, n).fired == Cancelled && (how == ByHandle ==> At(s, n).live && At(s, n).handle)
    case CancelHeap(n, how) => At(s, n).fired == Cancelled && At(s, n).cancelled
      && (how == ByHandle ==> At(s, n).live && At(s, n).handle)
    case CancelDrop(n, how, _) => how == ByHandle ==> At(s, n).live && At(s, n).handle
    case SweepLook(n) => At(s, n).live && At(s, n).queued && At(s, n).owner == i
    case _ => true
  }

  predicate ThreadOk(s: Sys, i: nat)
    requires i < |s.threads|
  {
    && (s.threads[i].call != Out ==> s.threads[i].drain == Idle || s.threads[i].drain.Calling?)
    && DrainOk(s, i, s.threads[i].drain) && CallOk(s, i, s.threads[i].call)
  }

  /** The fiber arming a timer for t is alone in it, and t's slot is empty. */
  ghost predicate ArmOk(s: Sys, i: nat)
    requires i < |s.threads|
  {
    forall t: nat :: ArmsFor(s.threads[i].call, t) ==>
      s.slots(t) == None && forall j :: 0 <= j < |s.threads| && j != i ==> !ArmsFor(s.threads[j].call, t)
  }

  ghost predicate Inv(s: Sys) {
    && (forall n: nat :: RefsOk(s, n) && FireOk(At(s, n)))
    && (forall t: nat :: SlotOk(s, t))
    && (forall i :: 0 <= i < |s.threads| ==> ThreadOk(s, i) && ArmOk(s, i))
  }

  lemma ThreadRefs(s: Sys, s': Sys, i: nat, n: nat)
    requires i < |s.threads| && |s'.threads| == |s.threads| && s'.threads == s.threads[i := s'.threads[i]]
    ensures Total(s'.threads, ByHeap(n)) + ByHeap(n)(s.threads[i])
      == Total(s.threads, ByHeap(n)) + ByHeap(n)(s'.threads[i])
    ensures Total(s'.threads, BySlotRef(n)) + BySlotRef(n)(s.threads[i])
      == Total(s.threads, BySlotRef(n)) + BySlotRef(n)(s'.threads[i])
    ensures Freers(s', n) + Dying(s.threads[i], n) == Freers(s, n) + Dying(s'.threads[i], n)
    ensures ByHeap(n)(s.threads[i]) <= Total(s.threads, ByHeap(n))
      && BySlotRef(n)(s.threads[i]) <= Total(s.threads, BySlotRef(n))
    ensures Dying(s.threads[i], n) <= Freers(s, n)
  {
    TotalUpdate(s.threads, ByHeap(n), i, s'.threads[i]);
    TotalUpdate(s.threads, BySlotRef(n), i, s'.threads[i]);
    TotalUpdate(s.threads, ByDying(n), i, s'.threads[i]);
  }

  /** What a thread holds of n, and where n is held besides. */
  function HeapPart(s: Sys, i: nat, n: nat): nat
    requires i < |s.threads|
  {
    DrainHeap(s.threads[i].drain, n) + CallHeap(s.threads[i].call, n) + Bit(At(s, n).queued)
  }

  function OtherPart(s: Sys, i: nat, n: nat): nat
    requires i < |s.threads|
  {
    DrainSlot(s.threads[i].drain, n) + CallSlot(s.threads[i].call, n) + Bit(At(s, n).handle) + Bit(InSlot(s, n))
  }

  /** A step of thread i that only moves references to n from one place to another. */
  ghost predicate Moves(s: Sys, s': Sys, i: nat, n: nat)
    requires i < |s.threads|
  {
    && |s'.threads| == |s.threads| && s'.threads == s.threads[i := s'.threads[i]]
    && At(s', n).live == At(s, n).live && At(s', n).refs == At(s, n).refs && At(s', n).kind == At(s, n).kind
    && HeapPart(s', i, n) == HeapPart(s, i, n) && OtherPart(s', i, n) == OtherPart(s, i, n)
    && Dying(s'.threads[i], n) == Dying(s.threads[i], n)
  }

  lemma Moved(s: Sys, s': Sys, i: nat, n: nat)
    requires i < |s.threads| && RefsOk(s, n) && Moves(s, s', i, n)
    ensures RefsOk(s', n)
  {
    ThreadRefs(s, s', i, n);
  }

  /** A step of thread i that gives up one of the references it holds to n. */
  ghost predicate GivesUp(s: Sys, s': Sys, i: nat, n: nat)
    requires i < |s.threads|
  {
    && |s'.threads| == |s.threads| && s'.threads == s.threads[i := s'.threads[i]]
    && At(s', n).live == At(s, n).live && At(s', n).refs == At(s, n).refs - 1 && At(s', n).kind == At(s, n).kind
    && HeapPart(s', i, n) <= HeapPart(s, i, n) && OtherPart(s', i, n) <= OtherPart(s, i, n)
    && HeapPart(s', i, n) + OtherPart(s', i, n) + 1 == HeapPart(s, i, n) + OtherPart(s, i, n)
    && Dying(s.threads[i], n) == 0 && Dying(s'.threads[i], n) == Bit(At(s', n).refs == 0)
  }

  lemma GaveUp(s: Sys, s': Sys, i: nat, n: nat)
    requires i < |s.threads| && RefsOk(s, n) && GivesUp(s, s', i, n)
    ensures RefsOk(s', n)
  {
    ThreadRefs(s, s', i, n);
  }

  /** A thread that holds a reference to n, or is about to free it, keeps it live. */
  lemma HasRef(s: Sys, i: nat, n: nat)
    requires i < |s.threads| && RefsOk(s, n)
    ensures HeapPart(s, i, n) + OtherPart(s, i, n) > 0 ==>
      At(s, n).live && At(s, n).refs >= HeapPart(s, i, n) + OtherPart(s, i, n)
    ensures Dying(s.threads[i], n) > 0 ==>
      At(s, n).live && At(s, n).refs == 0 && HeapPart(s, i, n) + OtherPart(s, i, n) == 0
    ensures HeapPart(s, i, n) <= 1 && OtherPart(s, i, n) <= 1 && Dying(s.threads[i], n) <= 1
    ensures At(s, n).live && At(s, n).kind == User(false) ==> OtherPart(s, i, n) == 0
  {
    ThreadRefs(s, s, i, n);
  }

  /** The thread that dropped the last reference frees n. */
  lemma Freed(s: Sys, s': Sys, i: nat, n: nat)
    requires i < |s.threads| && RefsOk(s, n) && Dying(s.threads[i], n) == 1
    requires |s'.threads| == |s.threads| && s'.threads == s.threads[i := s'.threads[i]]
    requires !At(s', n).live && HeapPart(s', i, n) + OtherPart(s', i, n) == 0 && Dying(s'.threads[i], n) == 0
    ensures RefsOk(s', n)
  {
    ThreadRefs(s, s', i, n);
  }

  lemma LookMoves(s: Sys, i: nat, due: bool, n: nat)
    requires i < |s.threads| && ThreadOk(s, i) && RefsOk(s, n) && s.threads[i].drain.Top?
    ensures RefsOk(DrainNext(s, i, due), n)
  {
    Moved(s, DrainNext(s, i, due), i, n);
  }

  lemma ClaimMoves(s: Sys, i: nat, due: bool, n: nat)
    requires i < |s.threads| && ThreadOk(s, i) && RefsOk(s, n) && s.threads[i].drain.ClaimIt?
    ensures RefsOk(DrainNext(s, i, due), n)
  {
    Moved(s, DrainNext(s, i, due), i, n);
  }

  lemma PopMoves(s: Sys, i: nat, due: bool, n: nat)
    requires i < |s.threads| && ThreadOk(s, i) && RefsOk(s, n) && s.threads[i].drain.Pop?
    ensures RefsOk(DrainNext(s, i, due), n)
  {
    Moved(s, DrainNext(s, i, due), i, n);
  }

  lemma FireMoves(s: Sys, i: nat, due: bool, n: nat)
    requires i < |s.threads| && ThreadOk(s, i) && RefsOk(s, n)
    requires s.threads[i].drain.Check? || s.threads[i].drain.Calling?
    ensures RefsOk(DrainNext(s, i, due), n)
  {
    Moved(s, DrainNext(s, i, due), i, n);
  }

  lemma UnslotMoves(s: Sys, i: nat, due: bool, n: nat)
    requires i < |s.threads| && ThreadOk(s, i) && RefsOk(s, n) && s.threads[i].drain.Unslot?
    ensures RefsOk(DrainNext(s, i, due), n)
  {
    Moved(s, DrainNext(s, i, due), i, n);
  }

  lemma DrainDrops(s: Sys, i: nat, due: bool, n: nat)
    requires i < |s.threads| && RefsOk(s, n)
    requires s.threads[i].drain.DropSlot? || s.threads[i].drain.DropHeap?
    ensures RefsOk(DrainNext(s, i, due), n)
  {
    var s' := DrainNext(s, i, due);
    HasRef(s, i, n);
    if s.threads[i].drain.n != n || s.threads[i].drain.st == Load {
      Moved(s, s', i, n);
    } else if s.threads[i].drain.st == Sub {
      GaveUp(s, s', i, n);
    } else {
      Freed(s, s', i, n);
    }
  }

  lemma ArmMoves(s: Sys, i: nat, n: nat)
    requires i < |s.threads| && ThreadOk(s, i) && ArmOk(s, i) && RefsOk(s, n)
    requires s.threads[i].call.ArmPush? || s.threads[i].call.ArmSlot?
    ensures RefsOk(CallNext(s, i), n)
  {
    HasRef(s, i, n);
    assert s.threads[i].call.ArmSlot? ==> ArmsFor(s.threads[i].call, s.threads[i].call.task);
    Moved(s, CallNext(s, i), i, n);
  }

  lemma CancelMoves(s: Sys, i: nat, n: nat)
    requires i < |s.threads| && RefsOk(s, n) && s.threads[i].call.CancelCas?
    ensures RefsOk(CallNext(s, i), n)
  {
    Moved(s, CallNext(s, i), i, n);
  }

  lemma MarkMoves(s: Sys, i: nat, n: nat)
    requires i < |s.threads| && RefsOk(s, n) && s.threads[i].call.CancelMark?
    ensures RefsOk(CallNext(s, i), n)
  {
    Moved(s, CallNext(s, i), i, n);
  }

  lemma UnqueueMoves(s: Sys, i: nat, n: nat)
    requires i < |s.threads| && ThreadOk(s, i) && RefsOk(s, n) && s.threads[i].call.CancelHeap?
    ensures RefsOk(CallNext(s, i), n)
  {
    Moved(s, CallNext(s, i), i, n);
  }

  lemma SweepMoves(s: Sys, i: nat, n: nat)
    requires i < |s.threads| && ThreadOk(s, i) && RefsOk(s, n) && s.threads[i].call.SweepLook?
    ensures RefsOk(CallNext(s, i), n)
  {
    Moved(s, CallNext(s, i), i, n);
  }

  lemma CancelDrops(s: Sys, i: nat, n: nat)
    requires i < |s.threads| && RefsOk(s, n) && s.threads[i].call.CancelDrop?
    ensures RefsOk(CallNext(s, i), n)
  {
    var s' := CallNext(s, i);
    HasRef(s, i, n);
    if s.threads[i].call.n != n || s.threads[i].call.st == Load {
      Moved(s, s', i, n);
    } else if s.threads[i].call.st == Sub {
      GaveUp(s, s', i, n);
    } else {
      Freed(s, s', i, n);
    }
  }

  lemma OwnDrops(s: Sys, i: nat, n: nat)
    requires i < |s.threads| && RefsOk(s, n) && (s.threads[i].call.SweepDrop? || s.threads[i].call.LetGo?)
    ensures RefsOk(CallNext(s, i), n)
  {
    var s' := CallNext(s, i);
    HasRef(s, i, n);
    if s.threads[i].call.n != n || s.threads[i].call.st == Load {
      Moved(s, s', i, n);
    } else if s.threads[i].call.st == Sub {
      GaveUp(s, s', i, n);
    } else {
      Freed(s, s', i, n);
    }
  }

  lemma Born(s: Sys, i: nat, k: Kind, n: nat)
    requires i < |s.threads| && s.threads[i].call == Out && !At(s, n).live && RefsOk(s, n)
    requires k.Park? ==> s.slots(k.task) == None
    ensures RefsOk(SetCall(Put(s, n, Fresh(i, k)), i, ArmPush(n, k)), n)
  {
    ThreadRefs(s, SetCall(Put(s, n, Fresh(i, k)), i, ArmPush(n, k)), i, n);
  }

  lemma AllocRefs(s: Sys, a: Action, n: nat)
    requires Enabled(s, a) && (a.SetUser? || a.ParkOn?) && RefsOk(s, n)
    ensures RefsOk(Apply(s, a), n)
  {
    if n == a.n {
      Born(s, a.i, if a.SetUser? then User(a.handle) else Park(a.task), n);
    } else {
      Moved(s, Apply(s, a), a.i, n);
    }
  }

  lemma Unborn(s: Sys, i: nat)
    requires Enabled(s, ArmFail(i)) && ThreadOk(s, i) && RefsOk(s, s.threads[i].call.n)
    ensures RefsOk(Apply(s, ArmFail(i)), s.threads[i].call.n)
  {
    HasRef(s, i, s.threads[i].call.n);
    ThreadRefs(s, Apply(s, ArmFail(i)), i, s.threads[i].call.n);
  }

  lemma ArmFailRefs(s: Sys, i: nat, n: nat)
    requires Enabled(s, ArmFail(i)) && ThreadOk(s, i) && RefsOk(s, n)
    ensures RefsOk(Apply(s, ArmFail(i)), n)
  {
    if n == s.threads[i].call.n {
      Unborn(s, i);
    } else {
      Moved(s, Apply(s, ArmFail(i)), i, n);
    }
  }

  lemma BeginRefs(s: Sys, a: Action, n: nat)
    requires Enabled(s, a) && RefsOk(s, n) && (a.CancelHandle? || a.Sweep? || a.Pick?)
    ensures RefsOk(Apply(s, a), n)
  {
    Moved(s, Apply(s, a), a.i, n);
  }

  lemma ReleaseRefs(s: Sys, i: nat, m: nat, n: nat)
    requires Enabled(s, ReleaseHandle(i, m)) && RefsOk(s, n)
    ensures RefsOk(Apply(s, ReleaseHandle(i, m)), n)
  {
    Moved(s, Apply(s, ReleaseHandle(i, m)), i, n);
  }

  lemma CancelParkRefs(s: Sys, i: nat, t: nat, n: nat)
    requires Enabled(s, CancelPark(i, t)) && RefsOk(s, n) && SlotOk(s, t)
    ensures RefsOk(Apply(s, CancelPark(i, t)), n)
  {
    if s.slots(t).Holds? {
      Moved(s, Apply(s, CancelPark(i, t)), i, n);
    }
  }

  /** Every step keeps every node's count right. */
  lemma StepRefs(s: Sys, a: Action, n: nat)
    requires Inv(s) && Enabled(s, a) && !a.Migrate?
    ensures RefsOk(Apply(s, a), n)
  {
    assert RefsOk(s, n) && ThreadOk(s, a.i) && ArmOk(s, a.i);
    match a
    case SetUser(_, _, _) => AllocRefs(s, a, n);
    case ParkOn(_, _, _) => AllocRefs(s, a, n);
    case ArmFail(i) => ArmFailRefs(s, i, n);
    case CancelPark(i, t) =>
      assert SlotOk(s, t);
      CancelParkRefs(s, i, t, n);
    case CallStep(i) =>
      var c := s.threads[i].call;
      if c.ArmPush? || c.ArmSlot? {
        ArmMoves(s, i, n);
      } else if c.CancelDrop? {
        CancelDrops(s, i, n);
      } else if c.SweepDrop? || c.LetGo? {
        OwnDrops(s, i, n);
      } else if c.CancelCas? {
        CancelMoves(s, i, n);
      } else if c.CancelMark? {
        MarkMoves(s, i, n);
      } else if c.CancelHeap? {
        UnqueueMoves(s, i, n);
      } else {
        SweepMoves(s, i, n);
      }
    case DrainStep(i, due) =>
      var d := s.threads[i].drain;
      if d.DropSlot? || d.DropHeap? {
        DrainDrops(s, i, due, n);
      } else if d.Top? {
        LookMoves(s, i, due, n);
      } else if d.ClaimIt? {
        ClaimMoves(s, i, due, n);
      } else if d.Pop? {
        PopMoves(s, i, due, n);
      } else if d.Unslot? {
        UnslotMoves(s, i, due, n);
      } else {
        FireMoves(s, i, due, n);
      }
    case ReleaseHandle(i, m) => ReleaseRefs(s, i, m, n);
    case _ => BeginRefs(s, a, n);
  }

  lemma DropFires(s: Sys, i: nat, due: bool, n: nat)
    requires i < |s.threads| && FireOk(At(s, n)) && (s.threads[i].drain.DropSlot? || s.threads[i].drain.DropHeap?)
    ensures FireOk(At(DrainNext(s, i, due), n))
  {
  }

  lemma DrainFires(s: Sys, i: nat, due: bool, n: nat)
    requires i < |s.threads| && ThreadOk(s, i) && FireOk(At(s, n))
    ensures FireOk(At(DrainNext(s, i, due), n))
  {
    if s.threads[i].drain.DropSlot? || s.threads[i].drain.DropHeap? {
      DropFires(s, i, due, n);
    }
  }

  lemma CancelFires(s: Sys, i: nat, n: nat)
    requires i < |s.threads| && ThreadOk(s, i) && FireOk(At(s, n))
    requires s.threads[i].call.CancelCas? || s.threads[i].call.CancelMark?
    ensures FireOk(At(CallNext(s, i), n))
  {
  }

  predicate Dropping(c: Call) {
    c.CancelDrop? || c.SweepDrop? || c.LetGo?
  }

  lemma CallDropFires(s: Sys, i: nat, n: nat)
    requires i < |s.threads| && FireOk(At(s, n)) && Dropping(s.threads[i].call)
    ensures FireOk(At(CallNext(s, i), n))
  {
  }

  lemma MoveFires(s: Sys, i: nat, n: nat)
    requires i < |s.threads| && FireOk(At(s, n)) && !Dropping(s.threads[i].call)
    requires !s.threads[i].call.CancelCas? && !s.threads[i].call.CancelMark?
    ensures FireOk(At(CallNext(s, i), n))
  {
  }

  lemma CallFires(s: Sys, i: nat, n: nat)
    requires i < |s.threads| && ThreadOk(s, i) && FireOk(At(s, n))
    ensures FireOk(At(CallNext(s, i), n))
  {
    if s.threads[i].call.CancelCas? || s.threads[i].call.CancelMark? {
      CancelFires(s, i, n);
    } else if Dropping(s.threads[i].call) {
      CallDropFires(s, i, n);
    } else {
      MoveFires(s, i, n);
    }
  }

  /** Every step keeps the fire-once rules. */
  lemma StepFires(s: Sys, a: Action, n: nat)
    requires Enabled(s, a) && ThreadOk(s, a.i) && FireOk(At(s, n))
    ensures FireOk(At(Apply(s, a), n))
  {
    match a
    case CallStep(i) => CallFires(s, i, n);
    case DrainStep(i, due) => DrainFires(s, i, due, n);
    case _ =>
  }

  // --- The other parts of the invariant -----------------------------------

  /** The node a step writes, if any. */
  function Target(s: Sys, a: Action): nat
    requires a.i < |s.threads|
  {
    match a
    case SetUser(_, n, _) => n
    case ParkOn(_, n, _) => n
    case ReleaseHandle(_, n) => n
    case ArmFail(i) => if s.threads[i].call != Out then s.threads[i].call.n else 0
    case CallStep(i) => if s.threads[i].call != Out then s.threads[i].call.n else 0
    case DrainStep(i, _) => if s.threads[i].drain != Idle then s.threads[i].drain.n else 0
    case _ => 0
  }

  /** Nothing changes but thread i and node m, and perhaps a slot. */
  ghost predicate Apart(s: Sys, s': Sys, i: nat, m: nat) {
    && |s'.threads| == |s.threads|
    && (forall j :: 0 <= j < |s.threads| && j != i ==> s'.threads[j] == s.threads[j])
    && (forall n: nat :: n != m ==> At(s', n) == At(s, n))
  }

  lemma CallFrame(s: Sys, i: nat)
    requires Enabled(s, CallStep(i))
    ensures Apart(s, CallNext(s, i), i, s.threads[i].call.n)
  {
  }

  lemma DrainFrame(s: Sys, i: nat, due: bool)
    requires Enabled(s, DrainStep(i, due))
    ensures Apart(s, DrainNext(s, i, due), i, s.threads[i].drain.n)
  {
  }

  lemma StepFrame(s: Sys, a: Action)
    requires Enabled(s, a) && !a.Migrate?
    ensures Apart(s, Apply(s, a), a.i, Target(s, a))
  {
    match a
    case CallStep(i) => CallFrame(s, i);
    case DrainStep(i, due) => DrainFrame(s, i, due);
    case _ =>
  }

  /** How a step may change the node it writes, as far as other threads rely on it. */
  ghost predicate Gentle(s: Sys, a: Action)
    requires Enabled(s, a)
  {
    var m := Target(s, a);
    GentleNode(At(s, m), At(Apply(s, a), m), a.i, a.ReleaseHandle?,
      DrainHeap(s.threads[a.i].drain, m) + CallHeap(s.threads[a.i].call, m))
  }

  /** held: the heap's references thread i has in its hands. */
  predicate GentleNode(b: Node, c: Node, i: nat, release: bool, held: nat) {
    b.live ==>
      && c.kind == b.kind && c.owner == b.owner
      && (b.queued && b.owner != i ==> c.live && c.queued)
      && (b.handle && !release ==> c.live && c.handle)
      && (b.fired != Pending ==> c.fired == b.fired) && (b.cancelled ==> c.cancelled)
      && (c.handle && !b.handle ==> held > 0)
      && (c.fires != b.fires ==> held > 0)
  }

  lemma CallGentle(s: Sys, i: nat)
    requires Enabled(s, CallStep(i)) && ThreadOk(s, i) && RefsOk(s, s.threads[i].call.n)
    ensures Gentle(s, CallStep(i))
  {
    HasRef(s, i, s.threads[i].call.n);
  }

  lemma DrainGentle(s: Sys, i: nat, due: bool)
    requires Enabled(s, DrainStep(i, due)) && ThreadOk(s, i) && RefsOk(s, s.threads[i].drain.n)
    ensures Gentle(s, DrainStep(i, due))
  {
    HasRef(s, i, s.threads[i].drain.n);
  }

  lemma StepGentle(s: Sys, a: Action)
    requires Enabled(s, a) && ThreadOk(s, a.i) && RefsOk(s, Target(s, a))
    ensures Gentle(s, a)
  {
    match a
    case CallStep(i) => CallGentle(s, i);
    case DrainStep(i, due) => DrainGentle(s, i, due);
    case ArmFail(i) => HasRef(s, i, s.threads[i].call.n);
    case _ =>
  }

  lemma OwnerStays(s: Sys, a: Action, n: nat)
    requires Inv(s) && Enabled(s, a) && At(s, n).live
    ensures At(Apply(s, a), n).owner == At(s, n).owner && At(Apply(s, a), n).kind == At(s, n).kind
  {
    if !a.Migrate? {
      assert RefsOk(s, Target(s, a)) && ThreadOk(s, a.i);
      StepFrame(s, a);
      StepGentle(s, a);
    }
  }

  /** A thread is somewhere that names n. */
  predicate Names(th: Thread, n: nat) {
    (th.drain != Idle && th.drain.n == n) || (th.call != Out && th.call.n == n)
  }

  /** Whatever a thread names is live. */
  lemma NamedIsLive(s: Sys, i: nat, n: nat)
    requires i < |s.threads| && ThreadOk(s, i) && RefsOk(s, n) && Names(s.threads[i], n)
    ensures At(s, n).live
  {
    HasRef(s, i, n);
  }

  lemma OneHeapHolder(s: Sys, i: nat, j: nat, n: nat)
    requires i < |s.threads| && j < |s.threads| && i != j && RefsOk(s, n)
    requires DrainHeap(s.threads[i].drain, n) + CallHeap(s.threads[i].call, n) > 0
    ensures HeapPart(s, j, n) == 0
  {
    ThreadRefs(s, s, i, n);
    if i < j {
      TotalPair(s.threads, ByHeap(n), i, j);
    } else {
      TotalPair(s.threads, ByHeap(n), j, i);
    }
  }

  /** What the step writes is another thread's to rely on only if it is live and the
      heap's reference is not in both their hands. */
  lemma NotBoth(s: Sys, a: Action, j: nat)
    requires Enabled(s, a) && j < |s.threads| && j != a.i && ThreadOk(s, j) && RefsOk(s, Target(s, a))
    ensures Names(s.threads[j], Target(s, a)) ==> At(s, Target(s, a)).live
    ensures DrainHeap(s.threads[a.i].drain, Target(s, a)) + CallHeap(s.threads[a.i].call, Target(s, a)) > 0 ==>
      HeapPart(s, j, Target(s, a)) == 0
  {
    var m := Target(s, a);
    if Names(s.threads[j], m) {
      NamedIsLive(s, j, m);
    }
    if DrainHeap(s.threads[a.i].drain, m) + CallHeap(s.threads[a.i].call, m) > 0 {
      OneHeapHolder(s, a.i, j, m);
    }
  }

  lemma DrainStays(s: Sys, s': Sys, i: nat, j: nat, m: nat, release: bool, held: nat)
    requires j < |s.threads| && j != i && DrainOk(s, j, s.threads[j].drain) && Apart(s, s', i, m)
    requires GentleNode(At(s, m), At(s', m), i, release, held)
    requires (Names(s.threads[j], m) ==> At(s, m).live) && (held > 0 ==> HeapPart(s, j, m) == 0)
    ensures DrainOk(s', j, s.threads[j].drain)
  {
  }

  lemma CallStays(s: Sys, s': Sys, i: nat, j: nat, m: nat, release: bool, held: nat)
    requires j < |s.threads| && j != i && CallOk(s, j, s.threads[j].call) && Apart(s, s', i, m)
    requires GentleNode(At(s, m), At(s', m), i, release, held)
    requires (Names(s.threads[j], m) ==> At(s, m).live) && (held > 0 ==> HeapPart(s, j, m) == 0)
    requires release ==> !ViaHandle(s.threads[j].call, m)
    ensures CallOk(s', j, s.threads[j].call)
  {
  }

  /** No step takes from another thread what that thread relies on. */
  lemma OtherThreadOk(s: Sys, a: Action, j: nat)
    requires Enabled(s, a) && !a.Migrate? && j < |s.threads| && j != a.i && ThreadOk(s, j) && ThreadOk(s, a.i)
    requires RefsOk(s, Target(s, a))
    ensures |Apply(s, a).threads| == |s.threads| && ThreadOk(Apply(s, a), j)
  {
    var m := Target(s, a);
    var held := DrainHeap(s.threads[a.i].drain, m) + CallHeap(s.threads[a.i].call, m);
    StepFrame(s, a);
    StepGentle(s, a);
    NotBoth(s, a, j);
    DrainStays(s, Apply(s, a), a.i, j, m, a.ReleaseHandle?, held);
    CallStays(s, Apply(s, a), a.i, j, m, a.ReleaseHandle?, held);
  }

  lemma CallSelfOk(s: Sys, i: nat)
    requires Enabled(s, CallStep(i)) && ThreadOk(s, i) && RefsOk(s, s.threads[i].call.n)
    ensures ThreadOk(CallNext(s, i), i)
  {
    HasRef(s, i, s.threads[i].call.n);
  }

  lemma DrainSelfOk(s: Sys, i: nat, due: bool)
    requires Enabled(s, DrainStep(i, due)) && ThreadOk(s, i) && FireOk(At(s, s.threads[i].drain.n))
    ensures ThreadOk(DrainNext(s, i, due), i)
  {
  }

  lemma SelfOk(s: Sys, a: Action)
    requires Inv(s) && Enabled(s, a) && !a.Migrate?
    ensures |Apply(s, a).threads| == |s.threads| && ThreadOk(Apply(s, a), a.i)
  {
    assert ThreadOk(s, a.i);
    match a
    case CallStep(i) =>
      assert RefsOk(s, s.threads[i].call.n);
      CallSelfOk(s, i);
    case DrainStep(i, due) =>
      assert FireOk(At(s, s.threads[i].drain.n));
      DrainSelfOk(s, i, due);
    case _ =>
  }

  lemma CallSlots(s: Sys, i: nat, t: nat)
    requires Enabled(s, CallStep(i)) && ThreadOk(s, i) && SlotOk(s, t) && RefsOk(s, s.threads[i].call.n)
    ensures SlotOk(CallNext(s, i), t)
  {
    HasRef(s, i, s.threads[i].call.n);
  }

  lemma DrainSlots(s: Sys, i: nat, due: bool, t: nat)
    requires Enabled(s, DrainStep(i, due)) && SlotOk(s, t) && RefsOk(s, s.threads[i].drain.n)
    ensures SlotOk(DrainNext(s, i, due), t)
  {
    HasRef(s, i, s.threads[i].drain.n);
  }

  lemma StepSlots(s: Sys, a: Action, t: nat)
    requires Enabled(s, a) && ThreadOk(s, a.i) && SlotOk(s, t) && RefsOk(s, Target(s, a))
    ensures SlotOk(Apply(s, a), t)
  {
    match a
    case CallStep(i) => CallSlots(s, i, t);
    case DrainStep(i, due) => DrainSlots(s, i, due, t);
    case ArmFail(i) => HasRef(s, i, s.threads[i].call.n);
    case _ =>
  }

  lemma CallArms(s: Sys, i: nat, j: nat)
    requires Enabled(s, CallStep(i)) && j < |s.threads| && ArmOk(s, j) && ArmOk(s, i)
    requires |CallNext(s, i).threads| == |s.threads|
    requires forall k :: 0 <= k < |s.threads| && k != i ==> CallNext(s, i).threads[k] == s.threads[k]
    ensures ArmOk(CallNext(s, i), j)
  {
  }

  lemma DrainArms(s: Sys, i: nat, due: bool, j: nat)
    requires Enabled(s, DrainStep(i, due)) && j < |s.threads| && ArmOk(s, j) && ArmOk(s, i)
    requires |DrainNext(s, i, due).threads| == |s.threads|
    requires forall k :: 0 <= k < |s.threads| && k != i ==> DrainNext(s, i, due).threads[k] == s.threads[k]
    ensures ArmOk(DrainNext(s, i, due), j)
  {
  }

  lemma StepArms(s: Sys, a: Action, j: nat)
    requires Enabled(s, a) && !a.Migrate? && j < |s.threads| && ArmOk(s, j) && ArmOk(s, a.i)
    ensures |Apply(s, a).threads| == |s.threads| && ArmOk(Apply(s, a), j)
  {
    StepFrame(s, a);
    match a
    case CallStep(i) => CallArms(s, i, j);
    case DrainStep(i, due) => DrainArms(s, i, due, j);
    case _ =>
  }

  /** A call that moves takes what it holds along. */
  lemma MigrateRefs(s: Sys, i: nat, j: nat, n: nat)
    requires Enabled(s, Migrate(i, j)) && RefsOk(s, n)
    ensures RefsOk(Apply(s, Migrate(i, j)), n)
  {
    var mid := SetCall(s, i, Out);
    ThreadRefs(s, mid, i, n);
    ThreadRefs(mid, Apply(s, Migrate(i, j)), j, n);
  }

  lemma MigrateArms(s: Sys, i: nat, j: nat, k: nat)
    requires Enabled(s, Migrate(i, j)) && k < |s.threads| && ArmOk(s, i) && ArmOk(s, k)
    ensures ArmOk(Apply(s, Migrate(i, j)), k)
  {
    var s' := Apply(s, Migrate(i, j));
    assert s'.threads == s.threads[i := Thread(Idle, Out)][j := s.threads[i]];
  }

  lemma MigrateKeeps(s: Sys, i: nat, j: nat)
    requires Inv(s) && Enabled(s, Migrate(i, j))
    ensures Inv(Apply(s, Migrate(i, j)))
  {
    var s' := Apply(s, Migrate(i, j));
    forall n: nat
      ensures RefsOk(s', n) && FireOk(At(s', n))
    {
      assert RefsOk(s, n);
      MigrateRefs(s, i, j, n);
    }
    forall t: nat
      ensures SlotOk(s', t)
    {
      assert SlotOk(s, t);
    }
    forall k | 0 <= k < |s'.threads|
      ensures ThreadOk(s', k) && ArmOk(s', k)
    {
      assert ThreadOk(s, k) && ThreadOk(s, i) && ArmOk(s, k) && ArmOk(s, i);
      MigrateArms(s, i, j, k);
    }
  }

  lemma StepKeeps(s: Sys, a: Action)
    requires Inv(s) && Enabled(s, a)
    ensures Inv(Apply(s, a))
  {
    if a.Migrate? {
      MigrateKeeps(s, a.i, a.j);
    } else {
      OwnStepKeeps(s, a);
    }
  }

  lemma OwnStepKeeps(s: Sys, a: Action)
    requires Inv(s) && Enabled(s, a) && !a.Migrate?
    ensures Inv(Apply(s, a))
  {
    var s' := Apply(s, a);
    StepFrame(s, a);
    forall n: nat
      ensures RefsOk(s', n) && FireOk(At(s', n))
    {
      assert RefsOk(s, n) && ThreadOk(s, a.i);
      StepRefs(s, a, n);
      StepFires(s, a, n);
    }
    forall t: nat
      ensures SlotOk(s', t)
    {
      assert SlotOk(s, t) && ThreadOk(s, a.i) && RefsOk(s, Target(s, a));
      StepSlots(s, a, t);
    }
    forall j | 0 <= j < |s'.threads|
      ensures ThreadOk(s', j) && ArmOk(s', j)
    {
      assert ThreadOk(s, j) && ThreadOk(s, a.i) && ArmOk(s, j) && ArmOk(s, a.i) && RefsOk(s, Target(s, a));
      StepArms(s, a, j);
      if j == a.i {
        SelfOk(s, a);
      } else {
        OtherThreadOk(s, a, j);
      }
    }
  }

  lemma InitOk(s: Sys)
    requires Init(s)
    ensures Inv(s)
  {
    forall n: nat
      ensures RefsOk(s, n)
    {
      TotalZero(s.threads, ByHeap(n));
      TotalZero(s.threads, BySlotRef(n));
      TotalZero(s.threads, ByDying(n));
    }
  }

  lemma {:induction false} RunKeeps(run: seq<Sys>, acts: seq<Action>, k: nat)
    requires IsRun(run, acts) && k < |run|
    ensures Inv(run[k])
  {
    if k == 0 {
      InitOk(run[0]);
    } else {
      RunKeeps(run, acts, k - 1);
      assert StepAt(run, acts, k - 1);
      StepKeeps(run[k - 1], acts[k - 1]);
    }
  }

  // --- What the protocol promises -----------------------------------------

  /** Nothing is touched after it is freed: whatever a thread names, a heap holds or a
      slot names is live. */
  lemma NoUseAfterFree(run: seq<Sys>, acts: seq<Action>, k: nat, i: nat, n: nat)
    requires IsRun(run, acts) && k < |run| && i < |run[k].threads|
    requires Names(run[k].threads[i], n) || At(run[k], n).queued || At(run[k], n).handle
      || (exists t: nat :: run[k].slots(t) == Holds(n))
    ensures At(run[k], n).live
  {
    RunKeeps(run, acts, k);
    var s := run[k];
    assert RefsOk(s, n) && ThreadOk(s, i);
    if Names(s.threads[i], n) {
      NamedIsLive(s, i, n);
    } else if exists t: nat :: s.slots(t) == Holds(n) {
      var t: nat :| s.slots(t) == Holds(n);
      assert SlotOk(s, t);
    }
  }

  /** Each reference is dropped exactly once: a live node's count is the references
      held, one at most for the heap and one for its other owner, and it is freed by
      the one thread that dropped the last. */
  lemma CountIsExact(run: seq<Sys>, acts: seq<Action>, k: nat, n: nat)
    requires IsRun(run, acts) && k < |run| && At(run[k], n).live
    ensures At(run[k], n).refs == HeapRefs(run[k], n) + OtherRefs(run[k], n)
    ensures HeapRefs(run[k], n) <= 1 && OtherRefs(run[k], n) <= 1
    ensures Freers(run[k], n) == (if At(run[k], n).refs == 0 then 1 else 0)
  {
    RunKeeps(run, acts, k);
    assert RefsOk(run[k], n);
  }

  /** A timer fires at most once, and never if a cancel returned 1; the drain never
      finds a popped timer cancelled. */
  lemma FiresAtMostOnce(run: seq<Sys>, acts: seq<Action>, k: nat, n: nat)
    requires IsRun(run, acts) && k < |run| && At(run[k], n).live
    ensures At(run[k], n).fires <= 1
    ensures At(run[k], n).won ==> At(run[k], n).fires == 0
    ensures forall i :: 0 <= i < |run[k].threads| && run[k].threads[i].drain == Check(n) ==> !At(run[k], n).cancelled
  {
    RunKeeps(run, acts, k);
    var s := run[k];
    assert FireOk(At(s, n));
    forall i | 0 <= i < |s.threads| && s.threads[i].drain == Check(n)
      ensures !At(s, n).cancelled
    {
      assert ThreadOk(s, i);
    }
  }

  /** Once a cancel has won, no later step of the node's life fires it. */
  lemma WonStaysUnfired(run: seq<Sys>, acts: seq<Action>, k: nat, n: nat)
    requires IsRun(run, acts) && k < |acts| && At(run[k], n).live && At(run[k], n).won && At(run[k + 1], n).live
    ensures At(run[k + 1], n).won && At(run[k + 1], n).fires == 0
  {
    RunKeeps(run, acts, k);
    RunKeeps(run, acts, k + 1);
    var s, a := run[k], acts[k];
    assert StepAt(run, acts, k);
    assert FireOk(At(s, n)) && FireOk(At(run[k + 1], n)) && ThreadOk(s, a.i) && RefsOk(s, Target(s, a));
    if !a.Migrate? {
      StepFrame(s, a);
      StepGentle(s, a);
    }
  }

  /** The release's guard against a count already at zero is never needed. */
  lemma NeverOverReleased(run: seq<Sys>, acts: seq<Action>, k: nat, i: nat, n: nat)
    requires IsRun(run, acts) && k < |run| && i < |run[k].threads|
    requires var th := run[k].threads[i];
             || th.drain in {DropSlot(n, Load), DropHeap(n, Load)}
             || th.call in {LetGo(n, Load), SweepDrop(n, Load), CancelDrop(n, BySlot, Load),
               CancelDrop(n, ByHandle, Load)}
    ensures At(run[k], n).refs > 0
  {
    RunKeeps(run, acts, k);
    assert RefsOk(run[k], n);
    HasRef(run[k], i, n);
  }
}
