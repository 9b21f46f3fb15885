/**
 * The swapping heap that the hole-moving sifts replaced (`bin` in
 * bench/bench_timerq.c), as code on an array.  The runs of both heaps over any
 * sequence of operations are functions of it, computed by the code of each;
 * whatever the operations and however many deadlines are equal, both hold the
 * same array after every operation and pop the same timers.
 */
module SwapHeap {
  import opened ArraySeq
  import opened HeapSeq
  import opened TimerHeap
  import opened Wrappers

  lemma SwapLinks(s: seq<Slot>, idx: map<nat, int>, i: nat, j: nat)
    requires i < |s| && j < |s| && i != j && BackPointers(s, idx)
    ensures BackPointers(Swap(s, i, j), idx[s[j].node := idx[s[i].node]][s[i].node := idx[s[j].node]])
  {
  }

  lemma CutLinks(s: seq<Slot>, idx: map<nat, int>)
    requires s != [] && BackPointers(s, idx)
    ensures BackPointers(s[..|s| - 1], idx[s[|s| - 1].node := -1])
  {
  }

  class Bin {
    var h: array<Slot>
    var n: nat
    var idx: map<nat, int>

    ghost predicate Linked()
      reads this, h
    {
      n <= h.Length && BackPointers(h[..n], idx)
    }

    constructor (cap: nat)
      ensures Linked() && fresh(h) && n == 0 && h.Length >= 8
    {
      h := new Slot[if cap > 8 then cap else 8];
      n := 0;
      idx := map[];
    }

    method Exchange(i: nat, j: nat)
      requires Linked() && i < n && j < n && i != j
      modifies this`idx, h
      ensures Linked() && h[..n] == Swap(old(h[..n]), i, j)
    {
      ghost var s := h[..n];
      SwapLinks(s, idx, i, j);
      var a, b := h[i], h[j];
      var ia, ib := idx[a.node], idx[b.node];
      h[i] := b;
      idx := idx[b.node := ia];
      h[j] := a;
      idx := idx[a.node := ib];
      assert h[..n] == Swap(s, i, j);
    }

    method Up(at: nat)
      requires Linked() && at < n
      modifies this`idx, h
      ensures Linked() && h[..n] == SwapUp(old(h[..n]), at)
    {
      var i := at;
      while i > 0
        invariant Linked() && 0 <= i < n && SwapUp(h[..n], i) == SwapUp(old(h[..n]), at)
      {
        var parent := (i - 1) / 2;
        if h[parent].deadline <= h[i].deadline {
          break;
        }
        Exchange(parent, i);
        i := parent;
      }
    }

    method Earliest(i: nat) returns (best: nat)
      requires i < n <= h.Length
      ensures best == Best(h[..n], i)
    {
      var l := 2 * i + 1;
      var r := 2 * i + 2;
      best := i;
      if l < n && h[l].deadline < h[best].deadline {
        best := l;
      }
      if r < n && h[r].deadline < h[best].deadline {
        best := r;
      }
    }

    method Down(at: nat)
      requires Linked() && at < n
      modifies this`idx, h
      ensures Linked() && h[..n] == SwapDown(old(h[..n]), at)
    {
      var i := at;
      while true
        invariant Linked() && i < n && SwapDown(h[..n], i) == SwapDown(old(h[..n]), at)
        decreases n - i
      {
        var best := Earliest(i);
        if best == i {
          break;
        }
        Exchange(i, best);
        i := best;
      }
    }

    method Add(x: Slot)
      requires Linked() && h.Length > 0 && !Holds(h[..n], x.node)
      modifies this, h
      ensures Linked() && h[..n] == Push(old(h[..n]), x)
      ensures h == old(h) || fresh(h)
      ensures h.Length > 0
    {
      ghost var s := h[..n];
      if n >= h.Length {
        var g := new Slot[h.Length * 2];
        forall i | 0 <= i < n {
          g[i] := h[i];
        }
        h := g;
      }
      idx := idx[x.node := n];
      h[n] := x;
      n := n + 1;
      assert h[..n] == s + [x];
      Up(n - 1);
    }

    // Drop entry i, which is not the last, and move the last one there.
    method Refill(i: nat)
      requires Linked() && i < n - 1
      modifies this`n, this`idx, h
      ensures n == old(n) - 1 && Linked()
      ensures h[..n] == old(h[..n])[..n][i := old(h[..n])[n]]
    {
      ghost var s := h[..n];
      n := n - 1;
      idx := idx[h[i].node := -1];
      HoleOpens(s, old(idx), i);
      HoleFills(s[..n][i := s[n]], idx, i);
      h[i] := h[n];
      idx := idx[h[i].node := i];
      assert h[..n] == s[..n][i := s[n]];
    }

    method RemoveAt(i: nat)
      requires Linked() && i < n
      modifies this`n, this`idx, h
      ensures Linked() && h[..n] == Remove(old(h[..n]), i)
    {
      if i == n - 1 {
        DropLast();
      } else {
        Refill(i);
        Settle(i);
      }
    }

    method DropLast()
      requires Linked() && n > 0
      modifies this`n, this`idx
      ensures n == old(n) - 1 && Linked() && h[..n] == old(h[..n])[..n]
    {
      CutLinks(h[..n], idx);
      idx := idx[h[n - 1].node := -1];
      n := n - 1;
      assert h[..n] == old(h[..n])[..n];
    }

    method Settle(i: nat)
      requires Linked() && i < n
      modifies this`idx, h
      ensures Linked() && h[..n] == Settled(old(h[..n]), i)
    {
      if i > 0 && h[i].deadline < h[(i - 1) / 2].deadline {
        Up(i);
      } else {
        Down(i);
      }
    }

    method Cancel(t: nat)
      requires Linked() && Holds(h[..n], t)
      modifies this`n, this`idx, h
      ensures Linked() && h[..n] == Remove(old(h[..n]), Place(old(h[..n]), t))
    {
      PlaceIs(h[..n], idx, t);
      RemoveAt(idx[t]);
    }

    method PopDue(now: int) returns (r: Option<Slot>)
      requires Linked()
      modifies this`n, this`idx, h
      ensures Linked()
      ensures r == if old(n) > 0 && old(h[..n])[0].deadline <= now then Some(old(h[..n])[0]) else None
      ensures h[..n] == if r.None? then old(h[..n]) else Remove(old(h[..n]), 0)
    {
      if n == 0 || h[0].deadline > now {
        return None;
      }
      r := Some(h[0]);
      RemoveAt(0);
    }
  }

  // ---- Runs of both heaps ----

  // Starting a timer that is running and stopping one that is not do nothing; the
  // allocator never refuses, since the swapping heap aborts if it does.
  datatype Op = Start(t: nat, deadline: int) | Stop(t: nat) | Pop(now: int)

  // One operation on the runtime's heap, with what it pops.
  function OurStep(v: Heap, op: Op): (Heap, seq<Option<Slot>>) {
    match op
    case Start(t, d) => (if Holds(v.slots, t) then v else Armed(v, t, d, true), [])
    case Stop(t) => (Cancelled(v, t), [])
    case Pop(now) => var p := Popped(v, now); (p.0, [p.1])
  }

  // The same operation on the swapping heap.
  function TheirStep(s: seq<Slot>, op: Op): (seq<Slot>, seq<Option<Slot>>) {
    match op
    case Start(t, d) => (if Holds(s, t) then s else Push(s, Slot(d, t)), [])
    case Stop(t) => (if Holds(s, t) then Remove(s, Place(s, t)) else s, [])
    case Pop(now) =>
      if s != [] && s[0].deadline <= now then (Remove(s, 0), [Some(s[0])]) else (s, [None])
  }

  function OurHeap(ops: seq<Op>): Heap {
    if ops == [] then Heap([], 0, {}) else OurStep(OurHeap(ops[..|ops| - 1]), ops[|ops| - 1]).0
  }

  function OurPops(ops: seq<Op>): seq<Option<Slot>> {
    if ops == [] then []
    else OurPops(ops[..|ops| - 1]) + OurStep(OurHeap(ops[..|ops| - 1]), ops[|ops| - 1]).1
  }

  // The array after each operation.
  function OurArrays(ops: seq<Op>): seq<seq<Slot>> {
    if ops == [] then [] else OurArrays(ops[..|ops| - 1]) + [OurHeap(ops).slots]
  }

  function TheirArray(ops: seq<Op>): seq<Slot> {
    if ops == [] then [] else TheirStep(TheirArray(ops[..|ops| - 1]), ops[|ops| - 1]).0
  }

  function TheirPops(ops: seq<Op>): seq<Option<Slot>> {
    if ops == [] then []
    else TheirPops(ops[..|ops| - 1]) + TheirStep(TheirArray(ops[..|ops| - 1]), ops[|ops| - 1]).1
  }

  function TheirArrays(ops: seq<Op>): seq<seq<Slot>> {
    if ops == [] then [] else TheirArrays(ops[..|ops| - 1]) + [TheirArray(ops)]
  }

  lemma RunsGrow(ops: seq<Op>, i: nat)
    requires i < |ops|
    ensures OurHeap(ops[..i + 1]) == OurStep(OurHeap(ops[..i]), ops[i]).0
    ensures OurPops(ops[..i + 1]) == OurPops(ops[..i]) + OurStep(OurHeap(ops[..i]), ops[i]).1
    ensures OurArrays(ops[..i + 1]) == OurArrays(ops[..i]) + [OurHeap(ops[..i + 1]).slots]
    ensures TheirArray(ops[..i + 1]) == TheirStep(TheirArray(ops[..i]), ops[i]).0
    ensures TheirPops(ops[..i + 1]) == TheirPops(ops[..i]) + TheirStep(TheirArray(ops[..i]), ops[i]).1
    ensures TheirArrays(ops[..i + 1]) == TheirArrays(ops[..i]) + [TheirArray(ops[..i + 1])]
  {
    assert ops[..i + 1][..i] == ops[..i];
  }

  // ---- Why they agree ----

  // Rebuilding a heap that is already ordered changes nothing.
  lemma {:induction false} HeapifyIdle(s: seq<Slot>, k: nat)
    requires Ordered(s) && k <= |s|
    ensures Heapify(s, k) == s
    decreases k
  {
    if k > 0 {
      assert Best(s, k - 1) == k - 1 by {
        assert Parent(2 * k - 1) == k - 1 && Parent(2 * k) == k - 1;
      }
      HeapifyIdle(s, k - 1);
    }
  }

  predicate NoneCancelled(s: seq<Slot>, cancelled: set<nat>) {
    forall k :: 0 <= k < |s| ==> s[k].node !in cancelled
  }

  // The heap when no timer is cancelled from elsewhere.
  ghost predicate Plain(v: Heap) {
    Ordered(v.slots) && NoneCancelled(v.slots, v.cancelled) && exists idx :: BackPointers(v.slots, idx)
  }

  lemma {:induction false} KeepAll(s: seq<Slot>, cancelled: set<nat>)
    requires NoneCancelled(s, cancelled)
    ensures Keep(s, cancelled) == s
  {
    if s != [] {
      KeepAll(s[..|s| - 1], cancelled);
      assert s == s[..|s| - 1] + [s[|s| - 1]];
    }
  }

  // So arming is the plain push.
  lemma ArmedIsPush(v: Heap, t: nat, d: int)
    requires Ordered(v.slots) && NoneCancelled(v.slots, v.cancelled)
    ensures Armed(v, t, d, true).slots == Push(v.slots, Slot(d, t))
  {
    KeepAll(v.slots, v.cancelled);
    HeapifyIdle(v.slots, |v.slots| / 2);
  }

  lemma PushPlain(v: Heap, t: nat, d: int)
    requires Plain(v) && !Holds(v.slots, t)
    ensures Plain(Armed(v, t, d, true))
  {
    var s, x := v.slots, Slot(d, t);
    ArmedIsPush(v, t, d);
    PushCorrect(s, x);
    var r := Push(s, x);
    forall k | 0 <= k < |r| ensures r[k].node !in v.cancelled - {t} {
      assert r[k] in multiset(r);
      assert r[k] == x || r[k] in s;
    }
    var idx :| BackPointers(s, idx);
    IdxUpLinks(s + [x], idx, |s|);
  }

  // A node sits in one slot, so once removed it is in none.
  lemma {:induction false} OnceEach(s: seq<Slot>, i: nat)
    requires i < |s| && (forall j, k :: 0 <= j < k < |s| ==> s[j].node != s[k].node)
    ensures multiset(s)[s[i]] == 1
  {
    var last := |s| - 1;
    assert s == s[..last] + [s[last]];
    if i < last {
      OnceEach(s[..last], i);
    }
  }

  lemma RemovePlain(v: Heap, i: nat, cancelled: set<nat>)
    requires Plain(v) && i < |v.slots| && cancelled <= v.cancelled + {v.slots[i].node}
    ensures Plain(v.(slots := Remove(v.slots, i), cancelled := cancelled))
  {
    var s := v.slots;
    var idx :| BackPointers(s, idx);
    RemoveCorrect(s, i);
    OnceEach(s, i);
    var r := Remove(s, i);
    forall k | 0 <= k < |r| ensures r[k].node !in cancelled {
      assert r[k] in multiset(r);
      assert r[k] in s;
    }
    IdxRemoveLinks(s, idx, i);
  }

  lemma SameStep(v: Heap, op: Op)
    requires Plain(v)
    ensures Plain(OurStep(v, op).0)
    ensures OurStep(v, op).0.slots == TheirStep(v.slots, op).0 && OurStep(v, op).1 == TheirStep(v.slots, op).1
  {
    match op
    case Start(t, d) =>
      if !Holds(v.slots, t) {
        ArmedIsPush(v, t, d);
        PushPlain(v, t, d);
      }
    case Stop(t) =>
      if Holds(v.slots, t) {
        RemovePlain(v, Place(v.slots, t), v.cancelled + {t});
      }
    case Pop(now) =>
      if v.slots != [] {
        RemovePlain(v, 0, v.cancelled);
      }
  }

  // After every sequence of operations both heaps hold the same array and
  // have popped the same timers in the same order.
  lemma {:induction false} SameRun(ops: seq<Op>)
    ensures Plain(OurHeap(ops))
    ensures OurHeap(ops).slots == TheirArray(ops)
    ensures OurArrays(ops) == TheirArrays(ops) && OurPops(ops) == TheirPops(ops)
  {
    if ops == [] {
      assert BackPointers([], map[]);
    } else {
      SameRun(ops[..|ops| - 1]);
      SameStep(OurHeap(ops[..|ops| - 1]), ops[|ops| - 1]);
    }
  }

  // ---- The code run over a sequence of operations ----

  method ReplayOurs(ops: seq<Op>) returns (arrays: seq<seq<Slot>>, pops: seq<Option<Slot>>)
    ensures arrays == OurArrays(ops) && pops == OurPops(ops)
  {
    var a := new Timers();
    arrays, pops := [], [];
    for i := 0 to |ops|
      invariant a.Valid() && fresh(a) && fresh(a.h)
      invariant a.View() == OurHeap(ops[..i]) && pops == OurPops(ops[..i])
      invariant arrays == OurArrays(ops[..i])
    {
      RunsGrow(ops, i);
      var out := OurOp(a, ops[i]);
      pops := pops + out;
      arrays := arrays + [a.h[..a.n]];
    }
    assert ops[..|ops|] == ops;
  }

  method OurOp(a: Timers, op: Op) returns (out: seq<Option<Slot>>)
    requires a.Valid()
    modifies a, a.h
    ensures a.Valid() && (a.h == old(a.h) || fresh(a.h))
    ensures (a.View(), out) == OurStep(old(a.View()), op)
  {
    out := [];
    match op
    case Start(t, d) =>
      PlaceIs(a.h[..a.n], a.heapIdx, t);
      if t !in a.heapIdx || a.heapIdx[t] < 0 {
        var _ := a.Arm(t, d, true);
      }
    case Stop(t) =>
      var _ := a.Cancel(t);
    case Pop(now) =>
      var r := a.PopDue(now);
      out := [r];
  }

  method ReplayTheirs(ops: seq<Op>) returns (arrays: seq<seq<Slot>>, pops: seq<Option<Slot>>)
    ensures arrays == TheirArrays(ops) && pops == TheirPops(ops)
  {
    var b := new Bin(0);
    arrays, pops := [], [];
    for i := 0 to |ops|
      invariant b.Linked() && b.h.Length > 0 && fresh(b) && fresh(b.h)
      invariant b.h[..b.n] == TheirArray(ops[..i]) && pops == TheirPops(ops[..i])
      invariant arrays == TheirArrays(ops[..i])
    {
      RunsGrow(ops, i);
      var out := TheirOp(b, ops[i]);
      pops := pops + out;
      arrays := arrays + [b.h[..b.n]];
    }
    assert ops[..|ops|] == ops;
  }

  method TheirOp(b: Bin, op: Op) returns (out: seq<Option<Slot>>)
    requires b.Linked() && b.h.Length > 0
    modifies b, b.h
    ensures b.Linked() && b.h.Length > 0 && (b.h == old(b.h) || fresh(b.h))
    ensures (b.h[..b.n], out) == TheirStep(old(b.h[..b.n]), op)
  {
    out := [];
    match op
    case Start(t, d) =>
      PlaceIs(b.h[..b.n], b.idx, t);
      if t !in b.idx || b.idx[t] < 0 {
        b.Add(Slot(d, t));
      }
    case Stop(t) =>
      PlaceIs(b.h[..b.n], b.idx, t);
      if t in b.idx && b.idx[t] >= 0 {
        b.Cancel(t);
      }
    case Pop(now) =>
      var r := b.PopDue(now);
      out := [r];
  }

  // Run the same operations through the code of both heaps.
  method Replay(ops: seq<Op>)
    returns (ourArrays: seq<seq<Slot>>, ours: seq<Option<Slot>>,
             theirArrays: seq<seq<Slot>>, theirs: seq<Option<Slot>>)
    ensures ourArrays == OurArrays(ops) && ours == OurPops(ops)
    ensures theirArrays == TheirArrays(ops) && theirs == TheirPops(ops)
    ensures ourArrays == theirArrays && ours == theirs
  {
    ourArrays, ours := ReplayOurs(ops);
    theirArrays, theirs := ReplayTheirs(ops);
    SameRun(ops);
  }
}
