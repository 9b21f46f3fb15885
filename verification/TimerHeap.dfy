/**
 * The loop's timer heap (src/evt/timer.c): an array of {deadline, node} slots,
 * a back-pointer from every node to its slot, and the cancel marks other
 * threads leave.  Its abstract value and its operations come first, as
 * functions over the swap-based reference heap; the class below is the code.
 */
module TimerHeap {
  import opened ArraySeq
  import opened HeapSeq
  import opened Wrappers

  // What the heap holds: the slots in array order, the array's capacity, and
  // the nodes marked cancelled.
  datatype Heap = Heap(slots: seq<Slot>, cap: nat, cancelled: set<nat>)

  predicate Holds(s: seq<Slot>, t: nat) {
    exists k :: 0 <= k < |s| && s[k].node == t
  }

  // The timers that can still fire.
  function Live(v: Heap): seq<Slot> {
    Keep(v.slots, v.cancelled)
  }

  // The slots that remain once room for one more has been looked for.
  function Swept(v: Heap): seq<Slot> {
    if |v.slots| >= v.cap && |v.slots| > 0 then Sweep(v.slots, v.cancelled) else v.slots
  }

  predicate MustGrow(v: Heap) {
    |v.slots| >= v.cap && (v.cap == 0 || |Swept(v)| > v.cap / 2)
  }

  function Grown(v: Heap): nat {
    if !MustGrow(v) then v.cap else if v.cap == 0 then 8 else v.cap * 2
  }

  // Start timer t; `room` is the allocator's answer should the array have to grow.
  function Armed(v: Heap, t: nat, deadline: int, room: bool): Heap {
    if MustGrow(v) && !room then v.(slots := Swept(v))
    else Heap(Push(Swept(v), Slot(deadline, t)), Grown(v), v.cancelled - {t})
  }

  // The node's place in the array, if it has one.
  function Place(s: seq<Slot>, t: nat): (k: int)
    ensures k == -1 || (0 <= k < |s| && s[k].node == t)
    ensures k == -1 <==> !Holds(s, t)
  {
    if s == [] then -1
    else
      var last := |s| - 1;
      if s[last].node == t then last
      else var p := Place(s[..last], t); assert p == -1 ==> !Holds(s[..last], t); p
  }

  // A cancel from another thread: the node stays until the owner meets it.
  function Marked(v: Heap, t: nat): Heap {
    if Holds(v.slots, t) then v.(cancelled := v.cancelled + {t}) else v
  }

  // A cancel on the loop's own thread.
  function Cancelled(v: Heap, t: nat): Heap {
    if Holds(v.slots, t) && t !in v.cancelled
    then v.(slots := Remove(v.slots, Place(v.slots, t)), cancelled := v.cancelled + {t})
    else v
  }

  // A pop discards the cancelled slots it meets at the root.
  function Dropped(v: Heap): Heap
    decreases |v.slots|
  {
    if v.slots == [] || v.slots[0].node !in v.cancelled then v
    else RemoveShrinks(v.slots, 0); Dropped(v.(slots := Remove(v.slots, 0)))
  }

  predicate Due(v: Heap, now: int) {
    v.slots != [] && v.slots[0].deadline <= now
  }

  function Popped(v: Heap, now: int): (Heap, Option<Slot>) {
    var d := Dropped(v);
    if Due(d, now) then (d.(slots := Remove(d.slots, 0)), Some(d.slots[0])) else (d, None)
  }

  lemma RemoveShrinks(s: seq<Slot>, i: nat)
    requires i < |s|
    ensures |Remove(s, i)| == |s| - 1
  {
  }

  // ---- Back-pointers ----

  // Every slot's node points back at it, and no other node points anywhere.
  predicate BackPointers(s: seq<Slot>, idx: map<nat, int>) {
    && (forall k :: 0 <= k < |s| ==> s[k].node in idx && idx[s[k].node] == k)
    && (forall t :: t in idx && idx[t] != -1 ==> 0 <= idx[t] < |s| && s[idx[t]].node == t)
  }

  // The same, but for a hole at i that is to be filled with node x.
  predicate BackPointersBut(s: seq<Slot>, idx: map<nat, int>, i: int, x: nat) {
    && (forall k :: 0 <= k < |s| && k != i ==> s[k].node in idx && idx[s[k].node] == k && s[k].node != x)
    && (forall t :: t in idx && t != x && idx[t] != -1 ==> 0 <= idx[t] < |s| && idx[t] != i && s[idx[t]].node == t)
  }

  lemma PlaceIs(s: seq<Slot>, idx: map<nat, int>, t: nat)
    requires BackPointers(s, idx)
    ensures Holds(s, t) <==> t in idx && idx[t] >= 0
    ensures Holds(s, t) ==> Place(s, t) == idx[t]
  {
    if t in idx && idx[t] >= 0 {
      assert s[idx[t]].node == t;
    }
  }

  // Every slot carries its node's own deadline.
  predicate SlotKeys(s: seq<Slot>, deadlines: map<nat, int>) {
    forall x :: x in s ==> x.node in deadlines && deadlines[x.node] == x.deadline
  }

  // The back-pointers the sifts write: each slot moved into the hole, then
  // the entry itself where it comes to rest.
  function IdxUp(s: seq<Slot>, idx: map<nat, int>, i: nat): map<nat, int>
    requires i < |s|
    decreases i
  {
    if i > 0 && s[Parent(i)].deadline > s[i].deadline
    then IdxUp(Swap(s, Parent(i), i), idx[s[Parent(i)].node := i], Parent(i))
    else idx[s[i].node := i]
  }

  function IdxDown(s: seq<Slot>, idx: map<nat, int>, i: nat): map<nat, int>
    requires i < |s|
    decreases |s| - i
  {
    var b := Best(s, i);
    if b == i then idx[s[i].node := i] else IdxDown(Swap(s, i, b), idx[s[b].node := i], b)
  }

  lemma HoleMoves(s: seq<Slot>, idx: map<nat, int>, i: nat, j: nat)
    requires i < |s| && j < |s| && i != j && BackPointersBut(s, idx, i, s[i].node)
    ensures BackPointersBut(Swap(s, i, j), idx[s[j].node := i], j, s[i].node)
  {
    assert s[j].node != s[i].node;
  }

  lemma HoleFills(s: seq<Slot>, idx: map<nat, int>, i: nat)
    requires i < |s| && BackPointersBut(s, idx, i, s[i].node)
    ensures BackPointers(s, idx[s[i].node := i])
  {
  }

  lemma {:induction false} IdxUpLinks(s: seq<Slot>, idx: map<nat, int>, i: nat)
    requires i < |s| && BackPointersBut(s, idx, i, s[i].node)
    ensures BackPointers(SwapUp(s, i), IdxUp(s, idx, i))
    decreases i
  {
    if i > 0 && s[Parent(i)].deadline > s[i].deadline {
      HoleMoves(s, idx, i, Parent(i));
      assert Swap(s, Parent(i), i) == Swap(s, i, Parent(i));
      IdxUpLinks(Swap(s, Parent(i), i), idx[s[Parent(i)].node := i], Parent(i));
    } else {
      HoleFills(s, idx, i);
    }
  }

  lemma {:induction false} IdxDownLinks(s: seq<Slot>, idx: map<nat, int>, i: nat)
    requires i < |s| && BackPointersBut(s, idx, i, s[i].node)
    ensures BackPointers(SwapDown(s, i), IdxDown(s, idx, i))
    decreases |s| - i
  {
    var b := Best(s, i);
    if b != i {
      HoleMoves(s, idx, i, b);
      IdxDownLinks(Swap(s, i, b), idx[s[b].node := i], b);
    } else {
      HoleFills(s, idx, i);
    }
  }

  // Taking out node s[i] and moving the last slot there leaves such a hole.
  lemma HoleOpens(s: seq<Slot>, idx: map<nat, int>, i: nat)
    requires i < |s| - 1 && BackPointers(s, idx)
    ensures BackPointersBut(s[..|s| - 1][i := s[|s| - 1]], idx[s[i].node := -1], i, s[|s| - 1].node)
  {
    assert forall k :: 0 <= k < |s| && k != i ==> s[k].node != s[i].node;
  }

  function IdxRemove(s: seq<Slot>, idx: map<nat, int>, i: nat): map<nat, int>
    requires i < |s|
  {
    var last := |s| - 1;
    var cut := idx[s[i].node := -1];
    if i == last then cut
    else
      var t := s[..last][i := s[last]];
      if i > 0 && t[i].deadline < t[Parent(i)].deadline then IdxUp(t, cut, i) else IdxDown(t, cut, i)
  }

  lemma IdxRemoveLinks(s: seq<Slot>, idx: map<nat, int>, i: nat)
    requires i < |s| && BackPointers(s, idx)
    ensures BackPointers(Remove(s, i), IdxRemove(s, idx, i))
  {
    var last := |s| - 1;
    if i < last {
      var t := s[..last][i := s[last]];
      HoleOpens(s, idx, i);
      if i > 0 && t[i].deadline < t[Parent(i)].deadline {
        IdxUpLinks(t, idx[s[i].node := -1], i);
      } else {
        IdxDownLinks(t, idx[s[i].node := -1], i);
      }
    }
  }

  // The sweep's first pass numbers what it keeps and unlinks what it drops.
  function IdxKeep(s: seq<Slot>, idx: map<nat, int>, cancelled: set<nat>): map<nat, int> {
    if s == [] then idx
    else
      var last := |s| - 1;
      IdxKeep(s[..last], idx, cancelled)[s[last].node :=
        if s[last].node in cancelled then -1 else |Keep(s[..last], cancelled)|]
  }

  function IdxHeapify(s: seq<Slot>, idx: map<nat, int>, k: nat): map<nat, int>
    requires k <= |s|
    decreases k
  {
    if k == 0 then idx else IdxHeapify(SwapDown(s, k - 1), IdxDown(s, idx, k - 1), k - 1)
  }

  function IdxSweep(s: seq<Slot>, idx: map<nat, int>, cancelled: set<nat>): map<nat, int> {
    var t := Keep(s, cancelled);
    IdxHeapify(t, IdxKeep(s, idx, cancelled), |t| / 2)
  }

  // With the first i slots of s packed into kept, the rest still in place.
  predicate Packed(s: seq<Slot>, i: nat, kept: seq<Slot>, idx: map<nat, int>)
    requires i <= |s|
  {
    && |kept| <= i
    && (forall k :: 0 <= k < |kept| ==> kept[k].node in idx && idx[kept[k].node] == k)
    && (forall k :: i <= k < |s| ==> s[k].node in idx && idx[s[k].node] == k)
    && (forall t :: t in idx && idx[t] != -1 ==>
          || (0 <= idx[t] < |kept| && kept[idx[t]].node == t)
          || (i <= idx[t] < |s| && s[idx[t]].node == t))
  }

  lemma KeepNext(s: seq<Slot>, i: nat, idx: map<nat, int>, cancelled: set<nat>)
    requires i < |s|
    ensures var kept, links := Keep(s[..i], cancelled), IdxKeep(s[..i], idx, cancelled);
      var dead := s[i].node in cancelled;
      && Keep(s[..i + 1], cancelled) == (if dead then kept else kept + [s[i]])
      && IdxKeep(s[..i + 1], idx, cancelled) == links[s[i].node := if dead then -1 else |kept|]
  {
    assert s[..i + 1][..i] == s[..i];
  }

  lemma PackedDrops(s: seq<Slot>, i: nat, kept: seq<Slot>, idx: map<nat, int>)
    requires i < |s| && Packed(s, i, kept, idx)
    ensures Packed(s, i + 1, kept, idx[s[i].node := -1])
  {
  }

  lemma PackedKeeps(s: seq<Slot>, i: nat, kept: seq<Slot>, idx: map<nat, int>)
    requires i < |s| && Packed(s, i, kept, idx)
    ensures Packed(s, i + 1, kept + [s[i]], idx[s[i].node := |kept|])
  {
  }

  lemma PackedNext(s: seq<Slot>, i: nat, idx: map<nat, int>, cancelled: set<nat>)
    requires i < |s| && Packed(s, i, Keep(s[..i], cancelled), IdxKeep(s[..i], idx, cancelled))
    ensures Packed(s, i + 1, Keep(s[..i + 1], cancelled), IdxKeep(s[..i + 1], idx, cancelled))
  {
    var kept, links := Keep(s[..i], cancelled), IdxKeep(s[..i], idx, cancelled);
    KeepNext(s, i, idx, cancelled);
    if s[i].node in cancelled {
      PackedDrops(s, i, kept, links);
    } else {
      PackedKeeps(s, i, kept, links);
    }
  }

  lemma {:induction false} IdxKeepLinks(s: seq<Slot>, i: nat, idx: map<nat, int>, cancelled: set<nat>)
    requires BackPointers(s, idx) && i <= |s|
    ensures Packed(s, i, Keep(s[..i], cancelled), IdxKeep(s[..i], idx, cancelled))
  {
    if i > 0 {
      IdxKeepLinks(s, i - 1, idx, cancelled);
      PackedNext(s, i - 1, idx, cancelled);
    }
  }

  lemma {:induction false} IdxHeapifyLinks(s: seq<Slot>, idx: map<nat, int>, k: nat)
    requires k <= |s| && BackPointers(s, idx)
    ensures BackPointers(Heapify(s, k), IdxHeapify(s, idx, k))
    decreases k
  {
    if k > 0 {
      IdxDownLinks(s, idx, k - 1);
      IdxHeapifyLinks(SwapDown(s, k - 1), IdxDown(s, idx, k - 1), k - 1);
    }
  }

  lemma IdxSweepLinks(s: seq<Slot>, idx: map<nat, int>, cancelled: set<nat>)
    requires BackPointers(s, idx)
    ensures BackPointers(Sweep(s, cancelled), IdxSweep(s, idx, cancelled))
  {
    IdxKeepLinks(s, |s|, idx, cancelled);
    assert s[..|s|] == s;
    var t := Keep(s, cancelled);
    IdxHeapifyLinks(t, IdxKeep(s, idx, cancelled), |t| / 2);
  }

  lemma SlotKeysFrom(s: seq<Slot>, t: seq<Slot>, deadlines: map<nat, int>)
    requires SlotKeys(s, deadlines) && multiset(t) <= multiset(s)
    ensures SlotKeys(t, deadlines)
  {
    forall x | x in t ensures x in s {
      assert x in multiset(t);
      assert x in multiset(s);
    }
  }

  lemma RemoveFits(s: seq<Slot>, i: nat, deadlines: map<nat, int>)
    requires i < |s| && Ordered(s) && SlotKeys(s, deadlines)
    ensures Ordered(Remove(s, i)) && SlotKeys(Remove(s, i), deadlines)
  {
    RemoveCorrect(s, i);
    SlotKeysFrom(s, Remove(s, i), deadlines);
  }

  lemma SweepFits(s: seq<Slot>, cancelled: set<nat>, deadlines: map<nat, int>)
    requires SlotKeys(s, deadlines)
    ensures Ordered(Sweep(s, cancelled)) && SlotKeys(Sweep(s, cancelled), deadlines)
  {
    SweepCorrect(s, cancelled);
    forall x ensures multiset(Sweep(s, cancelled))[x] <= multiset(s)[x] {
      KeepAt(s, cancelled, x);
    }
    SlotKeysFrom(s, Sweep(s, cancelled), deadlines);
  }

  lemma SweepLacks(s: seq<Slot>, cancelled: set<nat>, t: nat)
    requires !Holds(s, t)
    ensures !Holds(Sweep(s, cancelled), t)
  {
    var r := Sweep(s, cancelled);
    SweepCorrect(s, cancelled);
    forall k | 0 <= k < |r| ensures r[k].node != t {
      KeepAt(s, cancelled, r[k]);
      assert r[k] in multiset(r);
      assert r[k] in s;
    }
  }

  lemma PushFits(s: seq<Slot>, x: Slot, idx: map<nat, int>, deadlines: map<nat, int>)
    requires Ordered(s) && BackPointers(s, idx) && SlotKeys(s, deadlines)
    requires !Holds(s, x.node)
    ensures Ordered(Push(s, x)) && BackPointers(Push(s, x), IdxUp(s + [x], idx, |s|))
    ensures SlotKeys(Push(s, x), deadlines[x.node := x.deadline])
  {
    PushCorrect(s, x);
    IdxUpLinks(s + [x], idx, |s|);
    SlotKeysFrom(s + [x], Push(s, x), deadlines[x.node := x.deadline]);
  }

  // One move of the hole at i up or down, x being the entry it carries: the
  // array the swapping sift is left with, whatever slot i still holds.
  lemma HoleUp(s: seq<Slot>, idx: map<nat, int>, i: nat, x: Slot)
    requires 0 < i < |s| && s[Parent(i)].deadline > x.deadline
    ensures var p := Parent(i); var t := s[i := s[p]];
      && SwapUp(s[i := x], i) == SwapUp(t[p := x], p)
      && IdxUp(s[i := x], idx, i) == IdxUp(t[p := x], idx[s[p].node := i], p)
  {
    var p := Parent(i);
    assert Swap(s[i := x], p, i) == s[i := s[p]][p := x];
  }

  // The hole takes the smaller child, the left one on a tie, exactly when
  // the swapping sift would exchange it with the entry.
  function Child(s: seq<Slot>, i: nat): nat
    requires 2 * i + 1 < |s|
  {
    if 2 * i + 2 < |s| && s[2 * i + 2].deadline < s[2 * i + 1].deadline then 2 * i + 2 else 2 * i + 1
  }

  lemma HoleDown(s: seq<Slot>, idx: map<nat, int>, i: nat, x: Slot)
    requires 2 * i + 1 < |s| && s[Child(s, i)].deadline < x.deadline
    ensures var c := Child(s, i); var t := s[i := s[c]];
      && SwapDown(s[i := x], i) == SwapDown(t[c := x], c)
      && IdxDown(s[i := x], idx, i) == IdxDown(t[c := x], idx[s[c].node := i], c)
  {
    var c := Child(s, i);
    assert Best(s[i := x], i) == c;
    assert Swap(s[i := x], i, c) == s[i := s[c]][c := x];
  }

  lemma HoleRests(s: seq<Slot>, idx: map<nat, int>, i: nat, x: Slot)
    requires i < |s| && (2 * i + 1 < |s| ==> s[Child(s, i)].deadline >= x.deadline)
    ensures SwapDown(s[i := x], i) == s[i := x]
    ensures IdxDown(s[i := x], idx, i) == idx[x.node := i]
  {
    assert Best(s[i := x], i) == i;
  }

  class Timers {
    var h: array<Slot>
    var n: nat
    var heapIdx: map<nat, int>
    var deadlines: map<nat, int>
    var cancelled: set<nat>

    ghost predicate Fits()
      reads this
    {
      n <= h.Length
    }

    ghost function View(): Heap
      reads this, h
      requires Fits()
    {
      Heap(h[..n], h.Length, cancelled)
    }

    ghost predicate Valid()
      reads this, h
    {
      && Fits()
      && Ordered(h[..n])
      && BackPointers(h[..n], heapIdx)
      && SlotKeys(h[..n], deadlines)
    }

    constructor ()
      ensures Valid() && fresh(h) && View() == Heap([], 0, {})
    {
      h := new Slot[0];
      n := 0;
      heapIdx := map[];
      deadlines := map[];
      cancelled := {};
    }

    // Place x by moving the hole at i towards the root: the array the
    // swapping sift would leave.
    method SiftUp(at: nat, x: Slot)
      requires Fits() && at < n
      modifies this`heapIdx, h
      ensures h[..n] == SwapUp(old(h[..n])[at := x], at)
      ensures heapIdx == IdxUp(old(h[..n])[at := x], old(heapIdx), at)
    {
      var i := at;
      while i > 0
        invariant 0 <= i <= at
        invariant SwapUp(h[..n][i := x], i) == SwapUp(old(h[..n])[at := x], at)
        invariant IdxUp(h[..n][i := x], heapIdx, i) == IdxUp(old(h[..n])[at := x], old(heapIdx), at)
      {
        var parent := (i - 1) / 2;
        if h[parent].deadline <= x.deadline {
          break;
        }
        ghost var s := h[..n];
        HoleUp(s, heapIdx, i, x);
        h[i] := h[parent];
        heapIdx := heapIdx[h[i].node := i];
        assert h[..n] == s[i := s[parent]];
        i := parent;
      }
      ghost var s := h[..n];
      h[i] := x;
      heapIdx := heapIdx[x.node := i];
      assert h[..n] == s[i := x];
    }

    method Earlier(i: nat) returns (c: nat)
      requires Fits() && 2 * i + 1 < n
      ensures c == Child(h[..n], i)
    {
      var l := 2 * i + 1;
      var r := l + 1;
      c := if r < n && h[r].deadline < h[l].deadline then r else l;
    }

    // The same towards the leaves.
    method SiftDown(at: nat, x: Slot)
      requires Fits() && at < n
      modifies this`heapIdx, h
      ensures h[..n] == SwapDown(old(h[..n])[at := x], at)
      ensures heapIdx == IdxDown(old(h[..n])[at := x], old(heapIdx), at)
    {
      var i := at;
      while 2 * i + 1 < n
        invariant 0 <= i < n
        invariant SwapDown(h[..n][i := x], i) == SwapDown(old(h[..n])[at := x], at)
        invariant IdxDown(h[..n][i := x], heapIdx, i) == IdxDown(old(h[..n])[at := x], old(heapIdx), at)
        decreases n - i
      {
        var c := Earlier(i);
        ghost var s := h[..n];
        if h[c].deadline >= x.deadline {
          break;
        }
        HoleDown(s, heapIdx, i, x);
        h[i] := h[c];
        heapIdx := heapIdx[h[i].node := i];
        assert h[..n] == s[i := s[c]];
        i := c;
      }
      ghost var s := h[..n];
      HoleRests(s, heapIdx, i, x);
      h[i] := x;
      heapIdx := heapIdx[x.node := i];
      assert h[..n] == s[i := x];
    }

    method Unlink(i: nat)
      requires Fits() && i < n
      modifies this`n, this`heapIdx, h
      ensures n == old(n) - 1
      ensures h[..n] == Remove(old(h[..n]), i)
      ensures heapIdx == IdxRemove(old(h[..n]), old(heapIdx), i)
    {
      ghost var s := h[..n];
      var last := n - 1;
      n := last;
      heapIdx := heapIdx[h[i].node := -1];
      assert h[..n] == s[..last];
      if i == last {
        return;
      }
      if i > 0 && h[last].deadline < h[(i - 1) / 2].deadline {
        SiftUp(i, h[last]);
      } else {
        SiftDown(i, h[last]);
      }
    }

    method RemoveAt(i: nat)
      requires Valid() && i < n
      modifies this`n, this`heapIdx, h
      ensures Valid() && View() == old(View()).(slots := Remove(old(h[..n]), i))
    {
      RemoveFits(h[..n], i, deadlines);
      IdxRemoveLinks(h[..n], heapIdx, i);
      Unlink(i);
    }

    // Keep entry i at m unless it is cancelled.
    method PackOne(i: nat, m: nat, ghost s: seq<Slot>) returns (m': nat)
      requires Fits() && m <= i < n == |s| && h[i..n] == s[i..]
      modifies this`heapIdx, h
      ensures m <= m' <= i + 1 && h[i + 1..n] == s[i + 1..]
      ensures h[..m'] == old(h[..m]) + if s[i].node in cancelled then [] else [s[i]]
      ensures heapIdx == old(heapIdx)[s[i].node := if s[i].node in cancelled then -1 else m]
    {
      assert h[i] == h[i..n][0] == s[i];
      assert h[i + 1..n] == h[i..n][1..];
      if h[i].node in cancelled {
        heapIdx := heapIdx[h[i].node := -1];
        return m;
      }
      heapIdx := heapIdx[h[i].node := m];
      h[m] := h[i];
      return m + 1;
    }

    // The sweep's first pass: pack the uncancelled slots to the front.
    method Pack()
      requires Fits()
      modifies this`n, this`heapIdx, h
      ensures Fits() && h[..n] == Keep(old(h[..n]), cancelled)
      ensures heapIdx == IdxKeep(old(h[..n]), old(heapIdx), cancelled)
    {
      ghost var s := h[..n];
      var m := 0;
      for i := 0 to n
        invariant m <= i && n == old(n)
        invariant h[..m] == Keep(s[..i], cancelled)
        invariant h[i..n] == s[i..]
        invariant heapIdx == IdxKeep(s[..i], old(heapIdx), cancelled)
      {
        KeepNext(s, i, old(heapIdx), cancelled);
        m := PackOne(i, m, s);
      }
      assert s[..n] == s;
      n := m;
    }

    // Sift every parent, the last one first.
    method Rebuild()
      requires Fits()
      modifies this`heapIdx, h
      ensures h[..n] == Heapify(old(h[..n]), n / 2)
      ensures heapIdx == IdxHeapify(old(h[..n]), old(heapIdx), n / 2)
    {
      for i := n / 2 downto 0
        invariant Heapify(h[..n], i) == Heapify(old(h[..n]), n / 2)
        invariant IdxHeapify(h[..n], heapIdx, i) == IdxHeapify(old(h[..n]), old(heapIdx), n / 2)
      {
        Resettle(i);
      }
    }

    method Resettle(i: nat)
      requires Fits() && i < n
      modifies this`heapIdx, h
      ensures h[..n] == SwapDown(old(h[..n]), i) && heapIdx == IdxDown(old(h[..n]), old(heapIdx), i)
    {
      assert h[..n][i := h[i]] == h[..n];
      SiftDown(i, h[i]);
    }

    method SweepCancelled()
      requires Valid()
      modifies this`n, this`heapIdx, h
      ensures Valid() && View() == old(View()).(slots := Sweep(old(h[..n]), cancelled))
    {
      SweepFits(h[..n], cancelled, deadlines);
      IdxSweepLinks(h[..n], heapIdx, cancelled);
      Pack();
      Rebuild();
    }

    method Grow()
      requires Valid()
      modifies this`h
      ensures Valid() && fresh(h)
      ensures View() == old(View()).(cap := if old(h.Length) == 0 then 8 else old(h.Length) * 2)
    {
      h := Copied(if h.Length == 0 then 8 else h.Length * 2);
    }

    method Copied(cap: nat) returns (g: array<Slot>)
      requires Fits() && n <= cap
      ensures fresh(g) && g.Length == cap && g[..n] == h[..n]
    {
      g := new Slot[cap];
      forall i | 0 <= i < n {
        g[i] := h[i];
      }
    }

    method Append(x: Slot)
      requires Fits() && n < h.Length
      modifies this`n, this`heapIdx, h
      ensures Fits() && h[..n] == Push(old(h[..n]), x)
      ensures heapIdx == IdxUp(old(h[..n]) + [x], old(heapIdx), old(n))
    {
      ghost var s := h[..n];
      n := n + 1;
      assert h[..n][n - 1 := x] == s + [x];
      SiftUp(n - 1, x);
    }

    method Insert(t: nat, deadline: int)
      requires Valid() && n < h.Length && !Holds(h[..n], t)
      modifies this`n, this`heapIdx, this`deadlines, h
      ensures Valid() && View() == old(View()).(slots := Push(old(h[..n]), Slot(deadline, t)))
    {
      PushFits(h[..n], Slot(deadline, t), heapIdx, deadlines);
      deadlines := deadlines[t := deadline];
      Append(Slot(deadline, t));
    }

    // A full array is swept of the timers cancelled by other threads first,
    // and grows only if it is still more than half full.
    method MakeRoom(room: bool) returns (ok: bool)
      requires Valid()
      modifies this`n, this`heapIdx, this`h, h
      ensures Valid() && (h == old(h) || fresh(h))
      ensures ok == (!MustGrow(old(View())) || room)
      ensures h[..n] == Swept(old(View()))
      ensures h.Length == if ok then Grown(old(View())) else old(h.Length)
      ensures ok ==> n < h.Length
    {
      if n >= h.Length {
        if n > 0 {
          SweepCancelled();
        }
        if h.Length == 0 || n > h.Length / 2 {
          if !room {
            return false;
          }
          Grow();
        }
      }
      return true;
    }

    // Start timer t; `room` is the allocator's answer if the array must grow.
    method Arm(t: nat, deadline: int, room: bool) returns (ok: bool)
      requires Valid() && !Holds(h[..n], t)
      modifies this, h
      ensures Valid() && (h == old(h) || fresh(h))
      ensures View() == Armed(old(View()), t, deadline, room)
      ensures ok == (!MustGrow(old(View())) || room)
    {
      SweepLacks(h[..n], cancelled, t);
      ok := MakeRoom(room);
      if ok {
        cancelled := cancelled - {t};
        Insert(t, deadline);
      }
    }

    // A cancel from another thread only leaves a mark.
    method CancelElsewhere(t: nat)
      requires Valid()
      modifies this`cancelled
      ensures Valid() && View() == Marked(old(View()), t)
    {
      PlaceIs(h[..n], heapIdx, t);
      if t in heapIdx && heapIdx[t] >= 0 {
        cancelled := cancelled + {t};
      }
    }

    // A cancel on the loop's own thread takes the node out at once.
    method Cancel(t: nat) returns (won: bool)
      requires Valid()
      modifies this`n, this`heapIdx, this`cancelled, h
      ensures Valid() && View() == Cancelled(old(View()), t)
      ensures won == (Holds(old(h[..n]), t) && t !in old(cancelled))
    {
      PlaceIs(h[..n], heapIdx, t);
      won := t in heapIdx && heapIdx[t] >= 0 && t !in cancelled;
      if won {
        cancelled := cancelled + {t};
        RemoveAt(heapIdx[t]);
      }
    }

    // The next deadline among the timers that can still fire, -1 for none.
    method NextDeadline() returns (d: int)
      requires Valid()
      modifies this`n, this`heapIdx, h
      ensures Valid() && View() == Dropped(old(View()))
      ensures d == if View().slots == [] then -1 else View().slots[0].deadline
    {
      while n > 0 && h[0].node in cancelled
        invariant Valid() && Dropped(View()) == Dropped(old(View()))
        decreases n
      {
        RemoveShrinks(h[..n], 0);
        RemoveAt(0);
      }
      d := if n == 0 then -1 else h[0].deadline;
    }

    // Take out the next timer if it is due, discarding cancelled ones on the way.
    method PopDue(now: int) returns (r: Option<Slot>)
      requires Valid()
      modifies this`n, this`heapIdx, h
      ensures Valid() && (View(), r) == Popped(old(View()), now)
    {
      while n > 0
        invariant Valid() && Popped(View(), now) == Popped(old(View()), now)
        decreases n
      {
        var top := h[0];
        RemoveShrinks(h[..n], 0);
        if top.node !in cancelled {
          if top.deadline > now {
            return None;
          }
          RemoveAt(0);
          return Some(top);
        }
        RemoveAt(0);
      }
      return None;
    }
  }
}
