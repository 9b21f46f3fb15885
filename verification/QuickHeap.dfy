/**
 * The QuickHeap of bench/bench_timerq.c (qh) as code: buckets split at the
 * bottom on demand; timers are cancelled at once through a handle, or lazily by
 * a mark and an occasional sweep.
 */
module QuickHeap {
  import opened ArraySeq
  import opened FlatSeq
  import opened HeapSeq
  import opened QuickCounts
  import opened QuickHandles
  import opened QuickLayers
  import opened Tally
  import opened Wrappers

  const SMALL: nat := 16

  lemma PlaceOf(bs: seq<seq<Slot>>, x: Slot) returns (i: nat, p: nat)
    requires x in multiset(Flat(bs))
    ensures i < |bs| && p < |bs[i]| && bs[i][p] == x
  {
    assert x in Flat(bs);
    i := FlatHas(bs, x);
    p :| 0 <= p < |bs[i]| && bs[i][p] == x;
  }

  lemma PrefixDistinct(ord: seq<nat>, nid: nat)
    requires AllDistinct(ord + [nid])
    ensures AllDistinct(ord)
  {
    assert forall i :: 0 <= i < |ord| ==> ord[i] == (ord + [nid])[i];
  }

  // A split around an entry that leaves something below it.
  lemma SplitFine(bs: seq<seq<Slot>>, pivots: seq<int>, pi: nat, p: int)
    requires Layered(bs, pivots) && Filled(bs) && pi < |bs[|bs| - 1]| && bs[|bs| - 1][pi].deadline == p
    requires Parts(bs[|bs| - 1], pi, p).0 != []
    ensures var r := Parts(bs[|bs| - 1], pi, p); var cs := Split(bs, r.1, r.0);
      && Layered(cs, pivots + [p]) && Filled(cs) && multiset(Flat(cs)) == multiset(Flat(bs))
      && |r.0| < |bs[|bs| - 1]|
  {
    var b := bs[|bs| - 1];
    var r := Parts(b, pi, p);
    PartsSame(b, pi, p);
    PartsOrdered(b, pi, p);
    SplitLayers(bs, pivots, p, r.1, r.0);
    SplitSame(bs, r.1, r.0);
  }

  lemma DropFine(bs: seq<seq<Slot>>, pivots: seq<int>, ord: seq<nat>, oi: nat)
    requires Layered(bs, pivots) && |ord| == |bs| > 1 && oi < |bs| && bs[oi] == []
    ensures var pi := if oi == |bs| - 1 then oi - 1 else oi;
      Layered(bs[..oi] + bs[oi + 1..], pivots[..pi] + pivots[pi + 1..])
    ensures Flat(bs[..oi] + bs[oi + 1..]) == Flat(bs) && |Cut(ord, oi)| == |Cut(bs, oi)|
  {
    DropLayers(bs, pivots, oi);
    DropSame(bs, oi);
  }

  lemma InBottom(bs: seq<seq<Slot>>, mi: nat)
    requires bs != [] && mi < |bs[|bs| - 1]|
    ensures bs[|bs| - 1][mi] in multiset(Flat(bs))
  {
    FlatIn(bs, |bs| - 1, bs[|bs| - 1][mi]);
    assert bs[|bs| - 1][mi] in Flat(bs);
  }

  datatype Round = Nothing | Took(t: Slot) | Skipped

  class Queue {
    var bs: seq<seq<Slot>>
    var pivots: seq<int>
    var dead: set<nat>
    var nlive: int
    var ndead: int
    const lazy: bool
    var ord: seq<nat>
    var freeIds: seq<nat>
    var npool: nat
    var handle: map<nat, Handle>

    // Bucket ids and, unless cancels are lazy, every timer's handle.
    ghost predicate Tracked()
      reads this`bs, this`ord, this`freeIds, this`npool, this`handle
    {
      |ord| == |bs| && Ids(ord, freeIds, npool) && (!lazy ==> Handles(bs, ord, handle))
    }

    ghost predicate Valid()
      reads this`bs, this`pivots, this`ord, this`freeIds, this`npool, this`handle
    {
      Layered(bs, pivots) && Filled(bs) && Tracked()
    }

    // Everything in the buckets, cancelled or not.
    ghost function All(): multiset<Slot>
      reads this`bs
    {
      multiset(Flat(bs))
    }

    // The counters are right, and no node is in two entries.
    ghost predicate Counted()
      reads this`bs, this`dead, this`nlive, this`ndead
    {
      Tallied(Flat(bs), dead, nlive, ndead)
    }

    // The timers that can still fire.
    ghost function Live(): multiset<Slot>
      reads this`bs, this`dead
    {
      Bag(Flat(bs), dead)
    }

    constructor (lazily: bool)
      ensures Valid() && All() == multiset{} && dead == {} && lazy == lazily && Counted() && Live() == multiset{}
    {
      bs, pivots, dead, nlive, ndead, lazy := [[]], [], {}, 0, 0, lazily;
      ord, freeIds, npool, handle := [0], [], 1, map[];
      new;
      FlatOne<Slot>([]);
    }

    // ---- What the operations do to the counters ----

    // Moving entries about leaves them right.
    twostate lemma StillCounted()
      requires All() == old(All()) && dead == old(dead) && nlive == old(nlive) && ndead == old(ndead)
      ensures old(Counted()) ==> Counted()
    {
      if old(Counted()) {
        TallySame(old(Flat(bs)), Flat(bs), dead, nlive, ndead);
      }
    }

    twostate lemma Grew(x: Slot)
      requires All() == old(All()) + multiset{x} && dead == old(dead) - {x.node}
      requires forall y :: y in old(All()) ==> y.node != x.node
      requires nlive == old(nlive) + 1 && ndead == old(ndead)
      ensures Live() == old(Live()) + multiset{x} && (old(Counted()) ==> Counted())
    {
      BagAdds(old(Flat(bs)), Flat(bs), old(dead), x);
      if old(Counted()) {
        TallyAdds(old(Flat(bs)), Flat(bs), old(dead), x, old(nlive), ndead);
      }
    }

    twostate lemma Shrank(x: Slot)
      requires old(All()) == All() + multiset{x} && dead == old(dead)
      requires nlive == old(nlive) - Bit(x.node !in dead) && ndead == old(ndead) - Bit(x.node in dead)
      ensures All() == old(All()) - multiset{x} && (old(Counted()) ==> Counted())
      ensures x.node !in dead ==> Live() == old(Live()) - multiset{x}
    {
      assert x in old(All());
      assert All() == old(All()) - multiset{x};
      if x.node !in dead {
        BagLess(old(Flat(bs)), Flat(bs), dead, x);
      }
      if old(Counted()) {
        TallyTakes(old(Flat(bs)), Flat(bs), dead, x, old(nlive), old(ndead));
      }
    }

    twostate lemma SweptOut()
      requires SameLive(All(), old(All()), dead) && (forall x :: x in All() ==> x.node !in dead)
      requires dead == old(dead) && nlive == old(nlive) && ndead == 0
      ensures old(Counted()) ==> Counted()
    {
      if old(Counted()) {
        TallySweeps(old(Flat(bs)), Flat(bs), dead, nlive, old(ndead));
      }
    }

    // Start a timer that is not in the queue.
    method Push(x: Slot)
      requires Valid() && forall y :: y in All() ==> y.node != x.node
      modifies this
      ensures Valid() && All() == old(All()) + multiset{x} && dead == old(dead) - {x.node}
      ensures Live() == old(Live()) + multiset{x} && (old(Counted()) ==> Counted())
    {
      Place(x);
      dead := dead - {x.node};
      nlive := nlive + 1;
      Grew(x);
    }

    // Scan the pivots from the top for its bucket.
    method Place(x: Slot)
      requires Valid() && forall y :: y in All() ==> y.node != x.node
      modifies this`bs, this`handle
      ensures Valid() && All() == old(All()) + multiset{x}
    {
      var i := 0;
      while i < |bs| - 1 && x.deadline < pivots[i]
        invariant 0 <= i < |bs| && forall j :: 0 <= j < i ==> x.deadline < pivots[j]
      {
        i := i + 1;
      }
      PutLayers(bs, pivots, i, x);
      PutSame(bs, i, x);
      Append(i, x);
    }

    method Append(i: nat, x: Slot)
      requires Tracked() && i < |bs| && forall y :: y in All() ==> y.node != x.node
      modifies this`bs, this`handle
      ensures Tracked() && bs == old(bs)[i := old(bs)[i] + [x]]
    {
      if !lazy {
        assert forall y :: y in Flat(bs) ==> y in All();
        PutHandles(bs, ord, handle, i, x);
        handle := handle[x.node := Handle(ord[i], |bs[i]|)];
      }
      bs := bs[i := bs[i] + [x]];
    }

    // The id of bucket oi is free for reuse.
    method ReleaseId(oi: nat)
      requires Ids(ord, freeIds, npool) && oi < |ord|
      modifies this`ord, this`freeIds
      ensures Ids(ord, freeIds, npool) && ord == Cut(old(ord), oi)
    {
      FreeIds(ord, freeIds, npool, oi);
      freeIds := freeIds + [ord[oi]];
      ord := ord[..oi] + ord[oi + 1..];
    }

    // Drop the empty bucket oi and a pivot.
    method Drop(oi: nat)
      requires Layered(bs, pivots) && Tracked() && |bs| > 1 && oi < |bs| && bs[oi] == []
      modifies this`bs, this`pivots, this`ord, this`freeIds
      ensures Layered(bs, pivots) && Tracked() && bs == Cut(old(bs), oi) && Flat(bs) == Flat(old(bs))
    {
      DropFine(bs, pivots, ord, oi);
      if !lazy {
        CutHandles(bs, ord, handle, oi);
      }
      ReleaseId(oi);
      var pi := if oi == |bs| - 1 then oi - 1 else oi;
      bs := bs[..oi] + bs[oi + 1..];
      pivots := pivots[..pi] + pivots[pi + 1..];
    }

    method RemoveAt(oi: nat, p: nat)
      requires Valid() && oi < |bs| && p < |bs[oi]|
      modifies this`bs, this`pivots, this`ord, this`freeIds, this`handle
      ensures Valid() && All() == old(All()) - multiset{old(bs)[oi][p]}
    {
      TakenSame(bs, oi, p);
      TakenLayers(bs, pivots, oi, p);
      TakenFilled(bs, oi, p);
      Shrink(oi, p);
      if bs[oi] == [] && |bs| > 1 {
        Drop(oi);
      }
    }

    // The last entry of the bucket fills the place and its handle follows.
    method Shrink(oi: nat, p: nat)
      requires Tracked() && oi < |bs| && p < |bs[oi]|
      modifies this`bs, this`handle
      ensures Tracked() && bs == old(bs)[oi := Taken(old(bs)[oi], p)]
    {
      var b := bs[oi];
      var last := |b| - 1;
      if !lazy {
        TakenHandles(bs, ord, handle, oi, p);
        if p != last {
          handle := handle[b[last].node := Handle(ord[oi], p)];
        }
      }
      b := if p == last then b[..last] else b[..last][p := b[last]];
      bs := bs[oi := b];
    }

    method NewBucket() returns (id: nat)
      requires Ids(ord, freeIds, npool)
      modifies this`freeIds, this`npool
      ensures Ids(ord + [id], freeIds, npool)
    {
      NewIds(ord, freeIds, npool);
      if freeIds != [] {
        id := freeIds[|freeIds| - 1];
        freeIds := freeIds[..|freeIds| - 1];
      } else {
        id := npool;
        npool := npool + 1;
      }
    }

    // Split the bottom bucket once; false if no pivot split it.
    method Partition() returns (split: bool)
      requires Valid() && bs[|bs| - 1] != []
      modifies this`bs, this`pivots, this`ord, this`freeIds, this`npool, this`handle
      ensures Valid() && All() == old(All())
      ensures split ==> |bs[|bs| - 1]| < |old(bs)[|old(bs)| - 1]|
    {
      for tries := 0 to 8
        invariant Valid() && bs == old(bs)
      {
        split := TrySplit();
        if split {
          return;
        }
      }
      return false;
    }

    // One try with a random pivot.
    method TrySplit() returns (split: bool)
      requires Valid() && bs[|bs| - 1] != []
      modifies this`bs, this`pivots, this`ord, this`freeIds, this`npool, this`handle
      ensures Valid() && All() == old(All())
      ensures if split then |bs[|bs| - 1]| < |old(bs)[|old(bs)| - 1]| else bs == old(bs)
    {
      var n := |bs| - 1;
      var b := bs[n];
      var pi: nat :| pi < |b|;
      var nid := NewBucket();
      var up, down, h := Part(b, pi, ord[n], nid);
      if down == [] {
        Returned(nid);
        return false;
      }
      SplitIn(pi, nid, up, down, h);
      return true;
    }

    method SplitIn(pi: nat, nid: nat, up: seq<Slot>, down: seq<Slot>, h: map<nat, Handle>)
      requires Layered(bs, pivots) && Filled(bs) && |ord| == |bs| && Ids(ord + [nid], freeIds, npool) && down != []
      requires !lazy ==> Handles(bs, ord, handle)
      requires pi < |bs[|bs| - 1]| && (down, up) == Parts(bs[|bs| - 1], pi, bs[|bs| - 1][pi].deadline)
      requires h == Dealt(bs[|bs| - 1], pi, bs[|bs| - 1][pi].deadline, ord[|bs| - 1], nid, handle)
      modifies this`bs, this`pivots, this`ord, this`handle
      ensures Valid() && All() == old(All()) && |bs[|bs| - 1]| < |old(bs)[|old(bs)| - 1]|
    {
      SplitFine(bs, pivots, pi, bs[|bs| - 1][pi].deadline);
      Install(pi, nid, up, down, h);
    }

    // The bottom bucket keeps `up`; `down` becomes the new bottom.
    method Install(pi: nat, nid: nat, up: seq<Slot>, down: seq<Slot>, h: map<nat, Handle>)
      requires |ord| == |bs| > 0 && Ids(ord + [nid], freeIds, npool) && (!lazy ==> Handles(bs, ord, handle))
      requires pi < |bs[|bs| - 1]| && (down, up) == Parts(bs[|bs| - 1], pi, bs[|bs| - 1][pi].deadline)
      requires h == Dealt(bs[|bs| - 1], pi, bs[|bs| - 1][pi].deadline, ord[|bs| - 1], nid, handle)
      modifies this`bs, this`pivots, this`ord, this`handle
      ensures Tracked() && bs == Split(old(bs), up, down)
      ensures pivots == old(pivots) + [old(bs)[|old(bs)| - 1][pi].deadline]
    {
      var n := |bs| - 1;
      if !lazy {
        PrefixDistinct(ord, nid);
        SplitHandles(bs, ord, handle, pi, bs[n][pi].deadline, nid);
        handle := h;
      }
      pivots := pivots + [bs[n][pi].deadline];
      ord := ord + [nid];
      bs := bs[..n] + [up, down];
    }

    method Returned(nid: nat)
      requires Ids(ord + [nid], freeIds, npool)
      modifies this`freeIds
      ensures Ids(ord, freeIds, npool)
    {
      FreeIds(ord + [nid], freeIds, npool, |ord|);
      assert Cut(ord + [nid], |ord|) == ord;
      freeIds := freeIds + [nid];
    }

    // The two-way split of one bucket, with the handles it writes.
    method Part(b: seq<Slot>, pi: nat, bid: nat, nid: nat) returns (up: seq<Slot>, down: seq<Slot>, h: map<nat, Handle>)
      requires pi < |b|
      ensures (down, up) == Parts(b, pi, b[pi].deadline)
      ensures h == Dealt(b, pi, b[pi].deadline, bid, nid, handle)
    {
      up, down, h := [], [], handle;
      for j := 0 to |b|
        invariant (down, up) == Parts(b[..j], pi, b[pi].deadline)
        invariant h == Dealt(b[..j], pi, b[pi].deadline, bid, nid, handle)
      {
        assert b[..j + 1][..j] == b[..j];
        if (if j < pi then b[j].deadline < b[pi].deadline else j > pi && b[j].deadline <= b[pi].deadline) {
          h := h[b[j].node := Handle(nid, |down|)];
          down := down + [b[j]];
        } else {
          h := h[b[j].node := Handle(bid, |up|)];
          up := up + [b[j]];
        }
      }
      assert b[..|b|] == b;
    }

    // The place of the minimum in the bottom bucket, -1 if the queue is empty.
    method BottomMin() returns (mi: int)
      requires Valid()
      modifies this`bs, this`pivots, this`ord, this`freeIds, this`npool, this`handle
      ensures Valid() && All() == old(All()) && -1 <= mi < |bs[|bs| - 1]|
      ensures mi == -1 ==> All() == multiset{}
      ensures mi >= 0 ==> var t := bs[|bs| - 1][mi];
        t in All() && forall y :: y in All() ==> t.deadline <= y.deadline
    {
      var more := true;
      while more && |bs[|bs| - 1]| > SMALL
        invariant Valid() && All() == old(All())
        decreases more, |bs[|bs| - 1]|
      {
        more := Partition();
      }
      var b := bs[|bs| - 1];
      if b == [] {
        assert bs == [[]];
        FlatOne<Slot>([]);
        return -1;
      }
      mi := 0;
      for j := 1 to |b|
        invariant 0 <= mi < j && forall i :: 0 <= i < j ==> b[mi].deadline <= b[i].deadline
      {
        if b[j].deadline < b[mi].deadline {
          mi := j;
        }
      }
      BottomLeast(bs, pivots, mi);
    }

    // Drop every lazily cancelled entry, then every bucket that became empty.
    method Sweep()
      requires Valid() && lazy
      modifies this`bs, this`pivots, this`ord, this`freeIds, this`ndead
      ensures Valid() && SameLive(All(), old(All()), dead) && forall x :: x in All() ==> x.node !in dead
      ensures ndead == 0 && (old(Counted()) ==> Counted()) && All() <= old(All())
    {
      ghost var f := All();
      CompactLive();
      DropEmpties();
      ndead := 0;
      SweptOut();
      SweptPart(All(), f, dead);
    }

    method CompactLive()
      requires Layered(bs, pivots) && Tracked() && lazy
      modifies this`bs
      ensures Layered(bs, pivots) && Tracked()
      ensures SameLive(All(), old(All()), dead) && forall x :: x in All() ==> x.node !in dead
    {
      KeepLayers(bs, pivots, dead);
      SweptLive(bs, dead);
      Compact();
    }

    method Compact()
      modifies this`bs
      ensures bs == KeepEach(old(bs), dead)
    {
      var n := |bs|;
      for oi := 0 to n
        invariant |bs| == n && bs == KeepEach(old(bs)[..oi], dead) + old(bs)[oi..]
      {
        KeepEachNext(old(bs), dead, oi);
        var kept := CompactBucket(bs[oi]);
        bs := bs[oi := kept];
      }
      assert old(bs)[..n] == old(bs);
    }

    // Move the live entries to the front, in order, and cut the rest off.
    method CompactBucket(b0: seq<Slot>) returns (b: seq<Slot>)
      ensures b == Keep(b0, dead)
    {
      b := b0;
      var w := 0;
      for j := 0 to |b0|
        invariant |b| == |b0| && w <= j && b[..w] == Keep(b0[..j], dead) && b[j..] == b0[j..]
      {
        assert b0[..j + 1][..j] == b0[..j];
        assert b[j] == b[j..][0] == b0[j];
        assert b[j + 1..] == b[j..][1..];
        if b[j].node in dead {
          continue;
        }
        b := b[w := b[j]];
        w := w + 1;
      }
      assert b0[..|b0|] == b0;
      b := b[..w];
    }

    method DropEmpties()
      requires Layered(bs, pivots) && Tracked()
      modifies this`bs, this`pivots, this`ord, this`freeIds
      ensures Valid() && Flat(bs) == Flat(old(bs))
    {
      var oi := |bs|;
      while oi > 0 && |bs| > 1
        invariant 0 <= oi <= |bs| && Layered(bs, pivots) && Tracked() && Flat(bs) == Flat(old(bs))
        invariant forall i :: oi <= i < |bs| ==> bs[i] != []
      {
        oi := oi - 1;
        if bs[oi] == [] {
          Drop(oi);
        }
      }
    }

    // The position in the order of the bucket with this id, which is i's.
    method FindBucket(id: nat, ghost i: nat) returns (oi: nat)
      requires i < |ord| && ord[i] == id
      ensures oi < |ord| && ord[oi] == id
    {
      oi := 0;
      while ord[oi] != id
        invariant 0 <= oi <= i
        decreases i - oi
      {
        oi := oi + 1;
      }
    }

    // Take the timer out of the place its handle names.
    method Extract(x: Slot)
      requires Valid() && !lazy && x in All()
      modifies this`bs, this`pivots, this`ord, this`freeIds, this`handle
      ensures Valid() && old(All()) == All() + multiset{x}
    {
      ghost var i, p := PlaceOf(bs, x);
      var oi := FindBucket(handle[x.node].id, i);
      HandleFinds(bs, ord, handle, i, p, oi);
      RemoveAt(oi, handle[x.node].pos);
    }

    // Cancel at once.
    method CancelEager(x: Slot)
      requires Valid() && !lazy && x in All()
      modifies this`bs, this`pivots, this`ord, this`freeIds, this`handle, this`nlive
      ensures Valid() && All() == old(All()) - multiset{x}
      ensures x.node !in dead ==> Live() == old(Live()) - multiset{x} && (old(Counted()) ==> Counted())
    {
      nlive := nlive - 1;
      Extract(x);
      if x.node !in dead {
        Shrank(x);
      }
    }

    // Cancel by a mark; sweep when the marks outnumber the live timers.
    method CancelLazy(t: nat)
      requires Valid() && lazy
      modifies this
      ensures Valid() && dead == old(dead) + {t} && SameLive(All(), old(All()), dead) && All() <= old(All())
      ensures old(Counted()) && old(Pending(t)) ==> Counted() && (ndead <= 32 || ndead <= nlive)
      ensures forall x :: old(Counted()) && x in old(All()) && x.node == t && t !in old(dead) ==>
        Live() == old(Live()) - multiset{x}
    {
      forall x | Counted() && x in All() && x.node == t && t !in dead
        ensures Tallied(Flat(bs), dead + {t}, nlive - 1, ndead + 1) && Bag(Flat(bs), dead + {t}) == Live() - multiset{x}
      {
        BagMarks(Flat(bs), dead, x);
        TallyMarks(Flat(bs), dead, x, nlive, ndead);
      }
      nlive := nlive - 1;
      dead := dead + {t};
      ndead := ndead + 1;
      ghost var f := Flat(bs);
      if ndead > nlive && ndead > 32 {
        Sweep();
      }
      BagSame(Flat(bs), f, dead);
    }

    // Node t is in the queue and not cancelled.
    ghost predicate Pending(t: nat)
      reads this`bs, this`dead
    {
      exists x :: x in All() && x.node == t && t !in dead
    }

    // One round of a pop: nothing due, the least live timer, or a dead one dropped.
    method PopOnce(now: int) returns (r: Round)
      requires Valid()
      modifies this`bs, this`pivots, this`ord, this`freeIds, this`npool, this`handle, this`nlive, this`ndead
      ensures Valid() && (old(Counted()) ==> Counted())
      ensures All() <= old(All())
      ensures r.Nothing? ==> All() == old(All()) && LeastLive(All(), dead, now + 1)
      ensures r.Took? ==>
        LessLive(old(All()), All(), dead, r.t) && r.t.deadline <= now && LeastLive(old(All()), dead, r.t.deadline)
      ensures r.Skipped? ==> SameLive(All(), old(All()), dead) && |All()| < |old(All())|
    {
      var mi := BottomMin();
      StillCounted();
      if mi < 0 {
        return Nothing;
      }
      var n := |bs| - 1;
      var t := bs[n][mi];
      if t.node !in dead && t.deadline > now {
        return Nothing;
      }
      TakeOut(mi, t);
      if t.node in dead {
        return Skipped;
      }
      return Took(t);
    }

    method TakeAt(mi: nat, t: Slot)
      requires Valid() && mi < |bs[|bs| - 1]| && bs[|bs| - 1][mi] == t
      modifies this`bs, this`pivots, this`ord, this`freeIds, this`handle
      ensures Valid() && old(All()) == All() + multiset{t}
    {
      InBottom(bs, mi);
      RemoveAt(|bs| - 1, mi);
    }

    // Remove the bottom bucket's entry mi, which is t, and count it.
    method TakeOut(mi: nat, t: Slot)
      requires Valid() && mi < |bs[|bs| - 1]| && bs[|bs| - 1][mi] == t
      modifies this`bs, this`pivots, this`ord, this`freeIds, this`npool, this`handle, this`nlive, this`ndead
      ensures Valid() && (old(Counted()) ==> Counted()) && All() <= old(All()) && |All()| < |old(All())|
      ensures if t.node in dead then SameLive(All(), old(All()), dead) else LessLive(old(All()), All(), dead, t)
    {
      Discount(t);
      TakeAt(mi, t);
      Shrank(t);
      TakeLive(old(All()), All(), t, dead);
    }

    method Discount(t: Slot)
      modifies this`nlive, this`ndead
      ensures nlive == old(nlive) - Bit(t.node !in dead) && ndead == old(ndead) - Bit(t.node in dead)
    {
      if t.node !in dead {
        nlive := nlive - 1;
      } else {
        ndead := ndead - 1;
      }
    }

    // The least live timer if it is due, else nothing; cancelled ones met on
    // the way are dropped.
    method PopDue(now: int) returns (r: Option<Slot>)
      requires Valid()
      modifies this`bs, this`pivots, this`ord, this`freeIds, this`npool, this`handle, this`nlive, this`ndead
      ensures Valid() && (old(Counted()) ==> Counted()) && All() <= old(All())
      ensures Pops(old(All()), All(), dead, now, r)
    {
      while true
        invariant Valid() && SameLive(All(), old(All()), dead) && (old(Counted()) ==> Counted()) && All() <= old(All())
        decreases |All()|
      {
        var o := PopOnce(now);
        if o.Nothing? {
          return None;
        }
        if o.Took? {
          return Some(o.t);
        }
      }
    }

    // Whether some entry is of node t.
    method HasNode(t: nat) returns (there: bool)
      ensures there <==> exists x :: x in All() && x.node == t
    {
      there := exists i, j :: 0 <= i < |bs| && 0 <= j < |bs[i]| && bs[i][j].node == t;
      if there {
        ghost var i, j :| 0 <= i < |bs| && 0 <= j < |bs[i]| && bs[i][j].node == t;
        FlatIn(bs, i, bs[i][j]);
        assert bs[i][j] in Flat(bs);
      }
      if x :| x in All() && x.node == t {
        ghost var i, p := PlaceOf(bs, x);
      }
    }

    // Whether x is in the queue and not cancelled.
    method HasLive(x: Slot) returns (there: bool)
      ensures there <==> x in All() && x.node !in dead
    {
      there := x.node !in dead && exists i :: 0 <= i < |bs| && x in bs[i];
      if there {
        ghost var i :| 0 <= i < |bs| && x in bs[i];
        FlatIn(bs, i, x);
        assert x in Flat(bs);
      }
      if x in All() {
        assert x in Flat(bs);
        ghost var i := FlatHas(bs, x);
      }
    }

    // One round of a look: none left, the least live deadline, or a dead entry dropped.
    method LookOnce() returns (r: Round)
      requires Valid()
      modifies this`bs, this`pivots, this`ord, this`freeIds, this`npool, this`handle, this`nlive, this`ndead
      ensures Valid() && (old(Counted()) ==> Counted())
      ensures All() <= old(All()) && (!r.Skipped? ==> All() == old(All()))
      ensures r.Nothing? ==> All() == multiset{}
      ensures r.Took? ==> r.t in All() && r.t.node !in dead && LeastLive(All(), dead, r.t.deadline)
      ensures r.Skipped? ==> SameLive(All(), old(All()), dead) && |All()| < |old(All())|
    {
      var mi := BottomMin();
      StillCounted();
      if mi < 0 {
        return Nothing;
      }
      var t := bs[|bs| - 1][mi];
      if t.node !in dead {
        return Took(t);
      }
      TakeOut(mi, t);
      return Skipped;
    }

    // The least live deadline, -1 if there is none; cancelled entries met at
    // the bottom are dropped.
    method Next() returns (d: int)
      requires Valid()
      modifies this`bs, this`pivots, this`ord, this`freeIds, this`npool, this`handle, this`nlive, this`ndead
      ensures Valid() && SameLive(All(), old(All()), dead) && (old(Counted()) ==> Counted()) && All() <= old(All())
      ensures (exists t :: t in old(All()) && t.node !in dead) ==>
        (exists t :: t in old(All()) && t.node !in dead && t.deadline == d) && LeastLive(old(All()), dead, d)
      ensures (forall t :: t in old(All()) ==> t.node in dead) ==> d == -1
    {
      while true
        invariant Valid() && SameLive(All(), old(All()), dead) && (old(Counted()) ==> Counted()) && All() <= old(All())
        decreases |All()|
      {
        var o := LookOnce();
        if o.Nothing? {
          return -1;
        }
        if o.Took? {
          return o.t.deadline;
        }
      }
    }
  }
}
