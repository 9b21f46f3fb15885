/**
 * The swap-based binary heap of bench/bench_timerq.c (`bin`), as functions on
 * a sequence of slots.  It is the reference that both the swapping code and
 * the hole-moving code of src/evt/timer.c are proved equal to; heap order,
 * contents and the minimum at the root are proved here, once.
 */
module HeapSeq {
  import opened ArraySeq

  datatype Slot = Slot(deadline: int, node: nat)

  // Exchange the entry with its parent while the parent is later.
  function SwapUp(s: seq<Slot>, i: nat): (r: seq<Slot>)
    requires i < |s|
    ensures |r| == |s|
    decreases i
  {
    if i > 0 && s[Parent(i)].deadline > s[i].deadline then SwapUp(Swap(s, Parent(i), i), Parent(i)) else s
  }

  // The entry among i and its children that bin_down would move to i.
  function Best(s: seq<Slot>, i: nat): (b: nat)
    requires i < |s|
    ensures b < |s| && (b == i || b == 2 * i + 1 || b == 2 * i + 2)
  {
    var l := 2 * i + 1;
    var b := if l < |s| && s[l].deadline < s[i].deadline then l else i;
    if l + 1 < |s| && s[l + 1].deadline < s[b].deadline then l + 1 else b
  }

  // Exchange the entry with its earliest child while that child is earlier.
  function SwapDown(s: seq<Slot>, i: nat): (r: seq<Slot>)
    requires i < |s|
    ensures |r| == |s|
    decreases |s| - i
  {
    var b := Best(s, i);
    if b == i then s else SwapDown(Swap(s, i, b), b)
  }

  // No child is earlier than its parent, for every parent from lo on.
  predicate OrderedFrom(s: seq<Slot>, lo: int) {
    forall k {:trigger Parent(k)} :: 0 < k < |s| && lo <= Parent(k) ==> s[Parent(k)].deadline <= s[k].deadline
  }

  predicate Ordered(s: seq<Slot>) {
    OrderedFrom(s, 0)
  }

  // Heap order everywhere except between i and its parent.
  predicate OrderedAbove(s: seq<Slot>, i: nat) {
    && (forall k {:trigger Parent(k)} :: 0 < k < |s| && k != i ==> s[Parent(k)].deadline <= s[k].deadline)
    && (forall k {:trigger Parent(k)} :: 0 < i < k < |s| && Parent(k) == i ==> s[Parent(i)].deadline <= s[k].deadline)
  }

  // Heap order from lo on everywhere except between i and its children.
  predicate OrderedBelow(s: seq<Slot>, lo: int, i: nat) {
    && (forall k {:trigger Parent(k)} :: 0 < k < |s| && lo <= Parent(k) != i ==> s[Parent(k)].deadline <= s[k].deadline)
    && (forall k {:trigger Parent(k)} ::
          0 < i < k < |s| && Parent(k) == i && lo <= Parent(i) ==> s[Parent(i)].deadline <= s[k].deadline)
  }

  lemma {:induction false} SwapUpKeeps(s: seq<Slot>, i: nat)
    requires i < |s|
    ensures multiset(SwapUp(s, i)) == multiset(s)
    decreases i
  {
    if i > 0 && s[Parent(i)].deadline > s[i].deadline {
      SwapKeeps(s, Parent(i), i);
      SwapUpKeeps(Swap(s, Parent(i), i), Parent(i));
    }
  }

  lemma {:induction false} SwapDownKeeps(s: seq<Slot>, i: nat)
    requires i < |s|
    ensures multiset(SwapDown(s, i)) == multiset(s)
    decreases |s| - i
  {
    var b := Best(s, i);
    if b != i {
      SwapKeeps(s, i, b);
      SwapDownKeeps(Swap(s, i, b), b);
    }
  }

  lemma {:induction false} SwapUpOrders(s: seq<Slot>, i: nat)
    requires i < |s| && OrderedAbove(s, i)
    ensures Ordered(SwapUp(s, i))
    decreases i
  {
    if i > 0 && s[Parent(i)].deadline > s[i].deadline {
      SwapUpOrders(Swap(s, Parent(i), i), Parent(i));
    }
  }

  lemma SwapDownStep(s: seq<Slot>, lo: nat, i: nat)
    requires lo <= i < |s| && OrderedBelow(s, lo, i) && Best(s, i) != i
    ensures OrderedBelow(Swap(s, i, Best(s, i)), lo, Best(s, i))
  {
  }

  lemma {:induction false} SwapDownOrders(s: seq<Slot>, lo: nat, i: nat)
    requires lo <= i < |s| && OrderedBelow(s, lo, i)
    ensures OrderedFrom(SwapDown(s, i), lo)
    decreases |s| - i
  {
    var b := Best(s, i);
    if b != i {
      SwapDownStep(s, lo, i);
      SwapDownOrders(Swap(s, i, b), lo, b);
    }
  }

  // The root is a minimum.
  lemma {:induction false} RootLeast(s: seq<Slot>, k: nat)
    requires Ordered(s) && k < |s|
    ensures s[0].deadline <= s[k].deadline
  {
    if k > 0 {
      RootLeast(s, Parent(k));
    }
  }

  // ---- Whole operations ----

  function Push(s: seq<Slot>, x: Slot): seq<Slot> {
    SwapUp(s + [x], |s|)
  }

  // Take out entry i: the last entry fills its place.
  function Remove(s: seq<Slot>, i: nat): seq<Slot>
    requires i < |s|
  {
    var last := |s| - 1;
    if i == last then s[..last] else Settled(s[..last][i := s[last]], i)
  }

  // Sift an entry that replaced another, whichever way it has to go.
  function Settled(t: seq<Slot>, i: nat): seq<Slot>
    requires i < |t|
  {
    if i > 0 && t[i].deadline < t[Parent(i)].deadline then SwapUp(t, i) else SwapDown(t, i)
  }

  lemma PushCorrect(s: seq<Slot>, x: Slot)
    requires Ordered(s)
    ensures Ordered(Push(s, x))
    ensures multiset(Push(s, x)) == multiset(s) + multiset{x}
  {
    SwapUpOrders(s + [x], |s|);
    SwapUpKeeps(s + [x], |s|);
  }

  lemma FillOrders(s: seq<Slot>, i: nat, t: seq<Slot>)
    requires Ordered(s) && i < |s| - 1 && t == s[..|s| - 1][i := s[|s| - 1]]
    ensures if i > 0 && t[i].deadline < t[Parent(i)].deadline then OrderedAbove(t, i) else OrderedBelow(t, 0, i)
  {
    if i > 0 {
      assert s[Parent(i)].deadline <= s[i].deadline;
    }
    assert forall k :: 0 <= k < |t| ==> t[k] == if k == i then s[|s| - 1] else s[k];
  }

  lemma SettledCorrect(t: seq<Slot>, i: nat)
    requires i < |t|
    requires if i > 0 && t[i].deadline < t[Parent(i)].deadline then OrderedAbove(t, i) else OrderedBelow(t, 0, i)
    ensures Ordered(Settled(t, i)) && multiset(Settled(t, i)) == multiset(t)
  {
    if i > 0 && t[i].deadline < t[Parent(i)].deadline {
      SwapUpOrders(t, i);
      SwapUpKeeps(t, i);
    } else {
      SwapDownOrders(t, 0, i);
      SwapDownKeeps(t, i);
    }
  }

  lemma RemoveCorrect(s: seq<Slot>, i: nat)
    requires Ordered(s) && i < |s|
    ensures Ordered(Remove(s, i))
    ensures multiset(Remove(s, i)) == multiset(s) - multiset{s[i]}
  {
    var last := |s| - 1;
    if i == last {
      assert s == s[..last] + [s[last]];
    } else {
      TakenIs(s, i);
      FillOrders(s, i, s[..last][i := s[last]]);
      SettledCorrect(s[..last][i := s[last]], i);
    }
  }

  // ---- Sweeping out cancelled entries ----

  function Keep(s: seq<Slot>, cancelled: set<nat>): (r: seq<Slot>)
    ensures |r| <= |s|
  {
    if s == [] then []
    else
      var last := |s| - 1;
      Keep(s[..last], cancelled) + if s[last].node in cancelled then [] else [s[last]]
  }

  lemma {:induction false} KeepAt(s: seq<Slot>, cancelled: set<nat>, x: Slot)
    ensures multiset(Keep(s, cancelled))[x] == if x.node in cancelled then 0 else multiset(s)[x]
  {
    if s != [] {
      KeepAt(s[..|s| - 1], cancelled, x);
      assert s == s[..|s| - 1] + [s[|s| - 1]];
    }
  }

  // Sift every parent below k, the last one first.
  function Heapify(s: seq<Slot>, k: nat): (r: seq<Slot>)
    requires k <= |s|
    ensures |r| == |s|
    decreases k
  {
    if k == 0 then s else Heapify(SwapDown(s, k - 1), k - 1)
  }

  lemma {:induction false} HeapifyCorrect(s: seq<Slot>, k: nat)
    requires k <= |s| && OrderedFrom(s, k)
    ensures Ordered(Heapify(s, k)) && multiset(Heapify(s, k)) == multiset(s)
    decreases k
  {
    if k > 0 {
      SwapDownOrders(s, k - 1, k - 1);
      SwapDownKeeps(s, k - 1);
      HeapifyCorrect(SwapDown(s, k - 1), k - 1);
    }
  }

  function Sweep(s: seq<Slot>, cancelled: set<nat>): seq<Slot> {
    var t := Keep(s, cancelled);
    Heapify(t, |t| / 2)
  }

  // A sweep rebuilds the heap with exactly the uncancelled entries.
  lemma SweepCorrect(s: seq<Slot>, cancelled: set<nat>)
    ensures Ordered(Sweep(s, cancelled))
    ensures multiset(Sweep(s, cancelled)) == multiset(Keep(s, cancelled))
  {
    var t := Keep(s, cancelled);
    HeapifyCorrect(t, |t| / 2);
  }
}
