/**
 * What every sequence of timer-heap operations keeps: the heap behaves as a
 * plain multiset of live timers, and sweeping before growing bounds the array
 * by the largest number of timers ever live at once.
 */
module TimerHeapRuns {
  import opened HeapSeq
  import opened TimerHeap
  import opened Wrappers

  datatype Op =
    | Arm(t: nat, deadline: int, room: bool)
    | CancelElsewhere(t: nat)
    | Cancel(t: nat)
    | PopDue(now: int)
    | NextDeadline

  // A timer is armed only while it is not in the heap.
  predicate Legal(v: Heap, op: Op) {
    op.Arm? ==> !Holds(v.slots, op.t)
  }

  function Apply(v: Heap, op: Op): Heap {
    match op
    case Arm(t, d, room) => Armed(v, t, d, room)
    case CancelElsewhere(t) => Marked(v, t)
    case Cancel(t) => Cancelled(v, t)
    case PopDue(now) => Popped(v, now).0
    case NextDeadline => Dropped(v)
  }

  function Result(v: Heap, op: Op): Option<Slot> {
    if op.PopDue? then Popped(v, op.now).1 else None
  }

  // ---- The multiset priority queue ----

  function Bag(v: Heap): multiset<Slot> {
    multiset(Live(v))
  }

  predicate Least(x: Slot, m: multiset<Slot>) {
    x in m && forall y :: y in m ==> x.deadline <= y.deadline
  }

  // One operation on a bag of live timers.
  ghost predicate BagStep(m: multiset<Slot>, op: Op, grew: bool, m': multiset<Slot>, out: Option<Slot>) {
    match op
    case Arm(t, d, room) => m' == (if grew && !room then m else m + multiset{Slot(d, t)})
    case CancelElsewhere(t) => forall x :: m'[x] == if x.node == t then 0 else m[x]
    case Cancel(t) => forall x :: m'[x] == if x.node == t then 0 else m[x]
    case NextDeadline => m' == m
    case PopDue(now) =>
      if out.Some? then Least(out.value, m) && out.value.deadline <= now && m' == m - multiset{out.value}
      else m' == m && forall y :: y in m ==> y.deadline > now
  }

  lemma BagAt(v: Heap, x: Slot)
    ensures Bag(v)[x] == if x.node in v.cancelled then 0 else multiset(v.slots)[x]
  {
    KeepAt(v.slots, v.cancelled, x);
  }

  lemma SweptSame(v: Heap, x: Slot)
    requires x.node !in v.cancelled
    ensures multiset(Swept(v))[x] == multiset(v.slots)[x]
  {
    SweepCorrect(v.slots, v.cancelled);
    KeepAt(v.slots, v.cancelled, x);
  }

  lemma SweptOrdered(v: Heap)
    requires Ordered(v.slots)
    ensures Ordered(Swept(v))
  {
    SweepCorrect(v.slots, v.cancelled);
  }

  lemma LacksAny(s: seq<Slot>, x: Slot)
    requires !Holds(s, x.node)
    ensures multiset(s)[x] == 0
  {
    assert x !in s;
  }

  lemma ArmAt(v: Heap, t: nat, d: int, room: bool, x: Slot)
    requires Ordered(v.slots) && !Holds(v.slots, t)
    ensures Bag(Armed(v, t, d, room))[x]
         == Bag(v)[x] + if (MustGrow(v) && !room) || x != Slot(d, t) then 0 else 1
  {
    var w := Armed(v, t, d, room);
    BagAt(v, x);
    BagAt(w, x);
    if x.node !in v.cancelled {
      SweptSame(v, x);
    }
    SweptOrdered(v);
    PushCorrect(Swept(v), Slot(d, t));
    if x.node == t {
      LacksAny(v.slots, x);
      SweepLacks(v.slots, v.cancelled, t);
      LacksAny(Swept(v), x);
    }
  }

  lemma CancelAt(v: Heap, t: nat, x: Slot)
    requires Ordered(v.slots)
    ensures Bag(Cancelled(v, t))[x] == if x.node == t then 0 else Bag(v)[x]
    ensures Bag(Marked(v, t))[x] == if x.node == t then 0 else Bag(v)[x]
  {
    BagAt(v, x);
    BagAt(Cancelled(v, t), x);
    BagAt(Marked(v, t), x);
    if !Holds(v.slots, t) {
      if x.node == t {
        LacksAny(v.slots, x);
      }
    } else {
      RemoveCorrect(v.slots, Place(v.slots, t));
    }
  }

  lemma DeadRootGoes(v: Heap)
    requires Ordered(v.slots) && v.slots != [] && v.slots[0].node in v.cancelled
    ensures Ordered(Remove(v.slots, 0)) && Bag(v.(slots := Remove(v.slots, 0))) == Bag(v)
  {
    var w := v.(slots := Remove(v.slots, 0));
    RemoveCorrect(v.slots, 0);
    forall x ensures Bag(w)[x] == Bag(v)[x] {
      BagAt(v, x);
      BagAt(w, x);
    }
  }

  // Discarding cancelled roots changes no live timer and leaves a live root.
  lemma {:induction false} DropKeeps(v: Heap)
    requires Ordered(v.slots)
    ensures Ordered(Dropped(v).slots) && Bag(Dropped(v)) == Bag(v)
    ensures Dropped(v).cancelled == v.cancelled && Dropped(v).cap == v.cap
    ensures |Dropped(v).slots| <= |v.slots|
    ensures Dropped(v).slots != [] ==> Dropped(v).slots[0].node !in v.cancelled
    decreases |v.slots|
  {
    if v.slots != [] && v.slots[0].node in v.cancelled {
      var w := v.(slots := Remove(v.slots, 0));
      RemoveShrinks(v.slots, 0);
      DeadRootGoes(v);
      DropKeeps(w);
    }
  }

  lemma RootIsLeast(v: Heap)
    requires Ordered(v.slots) && v.slots != [] && v.slots[0].node !in v.cancelled
    ensures Least(v.slots[0], Bag(v))
    ensures Bag(v.(slots := Remove(v.slots, 0))) == Bag(v) - multiset{v.slots[0]}
  {
    var w := v.(slots := Remove(v.slots, 0));
    RemoveCorrect(v.slots, 0);
    forall x ensures Bag(w)[x] == (Bag(v) - multiset{v.slots[0]})[x] {
      BagAt(v, x);
      BagAt(w, x);
    }
    BagAt(v, v.slots[0]);
    assert v.slots[0] in multiset(v.slots);
    forall y | y in Bag(v) ensures v.slots[0].deadline <= y.deadline {
      InSlots(v, y);
    }
  }

  lemma InSlots(v: Heap, y: Slot)
    requires Ordered(v.slots) && y in Bag(v)
    ensures v.slots != [] && v.slots[0].deadline <= y.deadline
  {
    BagAt(v, y);
    assert y in v.slots;
    var k :| 0 <= k < |v.slots| && v.slots[k] == y;
    RootLeast(v.slots, k);
  }

  lemma PopRefines(v: Heap, now: int)
    requires Ordered(v.slots)
    ensures Ordered(Popped(v, now).0.slots)
    ensures BagStep(Bag(v), PopDue(now), false, Bag(Popped(v, now).0), Popped(v, now).1)
  {
    DropKeeps(v);
    var d := Dropped(v);
    if Due(d, now) {
      RootIsLeast(d);
      RemoveCorrect(d.slots, 0);
    } else {
      forall y | y in Bag(d) ensures y.deadline > now {
        InSlots(d, y);
      }
    }
  }

  // What NextDeadline reports: the least live deadline, and none only when no timer
  // is live.
  lemma NextIsLeast(v: Heap)
    requires Ordered(v.slots)
    ensures Dropped(v).slots == [] <==> Bag(v) == multiset{}
    ensures Dropped(v).slots != [] ==> Least(Dropped(v).slots[0], Bag(v))
  {
    DropKeeps(v);
    var d := Dropped(v);
    if d.slots != [] {
      RootIsLeast(d);
    } else {
      assert Live(d) == [];
    }
  }

  lemma ArmRefines(v: Heap, t: nat, d: int, room: bool)
    requires Ordered(v.slots) && !Holds(v.slots, t)
    ensures Ordered(Armed(v, t, d, room).slots)
    ensures BagStep(Bag(v), Arm(t, d, room), MustGrow(v), Bag(Armed(v, t, d, room)), None)
  {
    var m := if MustGrow(v) && !room then Bag(v) else Bag(v) + multiset{Slot(d, t)};
    forall x ensures Bag(Armed(v, t, d, room))[x] == m[x] {
      ArmAt(v, t, d, room, x);
    }
    SweptOrdered(v);
    PushCorrect(Swept(v), Slot(d, t));
  }

  lemma CancelRefines(v: Heap, t: nat)
    requires Ordered(v.slots)
    ensures Ordered(Cancelled(v, t).slots)
    ensures BagStep(Bag(v), Cancel(t), false, Bag(Cancelled(v, t)), None)
    ensures BagStep(Bag(v), CancelElsewhere(t), false, Bag(Marked(v, t)), None)
  {
    forall x {
      CancelAt(v, t, x);
    }
    if Holds(v.slots, t) {
      RemoveCorrect(v.slots, Place(v.slots, t));
    }
  }

  // Every operation keeps heap order and is the multiset queue's operation.
  lemma StepRefines(v: Heap, op: Op)
    requires Ordered(v.slots) && Legal(v, op)
    ensures Ordered(Apply(v, op).slots)
    ensures BagStep(Bag(v), op, MustGrow(v), Bag(Apply(v, op)), Result(v, op))
  {
    match op
    case Arm(t, d, room) => ArmRefines(v, t, d, room);
    case CancelElsewhere(t) => CancelRefines(v, t);
    case Cancel(t) => CancelRefines(v, t);
    case PopDue(now) => PopRefines(v, now);
    case NextDeadline => DropKeeps(v);
  }

  // ---- Capacity over whole runs ----

  ghost predicate IsRun(run: seq<Heap>, ops: seq<Op>) {
    && |run| == |ops| + 1
    && run[0] == Heap([], 0, {})
    && forall k :: 0 <= k < |ops| ==> Legal(run[k], ops[k]) && run[k + 1] == Apply(run[k], ops[k])
  }

  // The largest number of timers live at once so far.
  function Peak(run: seq<Heap>): nat {
    if run == [] then 0
    else
      var rest := Peak(run[..|run| - 1]);
      var now := |Live(run[|run| - 1])|;
      if now > rest then now else rest
  }

  function Limit(peak: nat): nat {
    if 4 * peak > 8 then 4 * peak else 8
  }

  lemma StepCap(v: Heap, op: Op)
    requires Ordered(v.slots) && |v.slots| <= v.cap
    ensures |Apply(v, op).slots| <= Apply(v, op).cap
    ensures Apply(v, op).cap <= v.cap || Apply(v, op).cap <= Limit(|Live(v)|)
  {
    match op
    case Arm(t, d, room) =>
    case CancelElsewhere(t) =>
    case Cancel(t) =>
    case PopDue(now) => DropKeeps(v);
    case NextDeadline => DropKeeps(v);
  }

  lemma {:induction false} PeakCovers(run: seq<Heap>, k: nat)
    requires k < |run|
    ensures |Live(run[k])| <= Peak(run)
  {
    if k < |run| - 1 {
      PeakCovers(run[..|run| - 1], k);
    }
  }

  lemma PeakGrows(run: seq<Heap>)
    requires run != []
    ensures Peak(run) >= Peak(run[..|run| - 1])
  {
  }

  // In every run the heap stays ordered and within its array.
  lemma {:induction false} RunOrdered(run: seq<Heap>, ops: seq<Op>, k: nat)
    requires IsRun(run, ops) && k <= |ops|
    ensures Ordered(run[k].slots) && |run[k].slots| <= run[k].cap
  {
    if k > 0 {
      RunOrdered(run, ops, k - 1);
      StepRefines(run[k - 1], ops[k - 1]);
      StepCap(run[k - 1], ops[k - 1]);
    }
  }

  // In every run the array never exceeds max(8, 4 * the peak number of live timers).
  lemma {:induction false} RunCapacity(run: seq<Heap>, ops: seq<Op>, k: nat)
    requires IsRun(run, ops) && k <= |ops|
    ensures run[k].cap <= Limit(Peak(run[..k + 1]))
  {
    if k > 0 {
      RunCapacity(run, ops, k - 1);
      RunOrdered(run, ops, k - 1);
      StepCap(run[k - 1], ops[k - 1]);
      PeakCovers(run[..k], k - 1);
      PeakGrows(run[..k + 1]);
      assert run[..k + 1][..k] == run[..k];
    }
  }

  // In every run each operation is the multiset queue's operation.
  lemma RunRefines(run: seq<Heap>, ops: seq<Op>, k: nat)
    requires IsRun(run, ops) && k < |ops|
    ensures BagStep(Bag(run[k]), ops[k], MustGrow(run[k]), Bag(run[k + 1]), Result(run[k], ops[k]))
  {
    RunOrdered(run, ops, k);
    StepRefines(run[k], ops[k]);
  }
}
