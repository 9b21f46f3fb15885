/**
 * The order the QuickHeap of bench/bench_timerq.c (qh) keeps: buckets from the
 * largest keys to the smallest with pivots between them.  What a push, a split
 * of the bottom bucket, a removal, a dropped bucket and a sweep do to it.
 */
module QuickLayers {
  import opened ArraySeq
  import opened FlatSeq
  import opened HeapSeq
  import opened Wrappers

  predicate AllGe(s: seq<Slot>, p: int) {
    forall x :: x in s ==> x.deadline >= p
  }

  predicate AllLe(s: seq<Slot>, p: int) {
    forall x :: x in s ==> x.deadline <= p
  }

  // Pivot i is between bucket i and every later one.
  predicate Layered(bs: seq<seq<Slot>>, pivots: seq<int>) {
    && |pivots| + 1 == |bs|
    && (forall i :: 0 <= i < |pivots| ==> AllGe(bs[i], pivots[i]))
    && (forall i, j :: 0 <= i < j < |bs| ==> AllLe(bs[j], pivots[i]))
  }

  // ---- Dropping a bucket ----

  // The pivot that goes with bucket oi.
  function PivotOf(n: nat, oi: nat): int {
    if oi == n - 1 then oi - 1 else oi
  }

  lemma DropLayers(bs: seq<seq<Slot>>, pivots: seq<int>, oi: nat)
    requires Layered(bs, pivots) && |bs| > 1 && oi < |bs|
    ensures Layered(Cut(bs, oi), Cut(pivots, PivotOf(|bs|, oi)))
  {
    var cs, qs := Cut(bs, oi), Cut(pivots, PivotOf(|bs|, oi));
    var n := |bs|;
    forall i | 0 <= i < |qs| ensures AllGe(cs[i], qs[i]) {
      assert cs[i] == bs[if i < oi then i else i + 1];
      assert qs[i] == pivots[if i < PivotOf(n, oi) then i else i + 1];
    }
    forall i, j | 0 <= i < j < |cs| ensures AllLe(cs[j], qs[i]) {
      assert cs[j] == bs[if j < oi then j else j + 1];
      assert qs[i] == pivots[if i < PivotOf(n, oi) then i else i + 1];
    }
  }

  lemma {:induction false} DropSame(bs: seq<seq<Slot>>, oi: nat)
    requires oi < |bs| && bs[oi] == []
    ensures Flat(Cut(bs, oi)) == Flat(bs)
  {
    var n := |bs| - 1;
    if oi == n {
      assert Cut(bs, oi) == bs[..n];
    } else {
      DropSame(bs[..n], oi);
      assert Cut(bs, oi)[..n - 1] == Cut(bs[..n], oi);
    }
  }

  // ---- Splitting a bucket around the entry at pi ----

  // Entry j goes down if it is smaller than the pivot, or equal and to its right.
  predicate GoesDown(x: Slot, j: nat, pi: nat, p: int) {
    if j < pi then x.deadline < p else j > pi && x.deadline <= p
  }

  // What goes down and what stays.
  function Parts(s: seq<Slot>, pi: nat, p: int): (seq<Slot>, seq<Slot>) {
    if s == [] then ([], [])
    else
      var n := |s| - 1;
      var r := Parts(s[..n], pi, p);
      if GoesDown(s[n], n, pi, p) then (r.0 + [s[n]], r.1) else (r.0, r.1 + [s[n]])
  }

  lemma OneMore(a: seq<Slot>, b: seq<Slot>, c: seq<Slot>, y: Slot)
    requires multiset(a) + multiset(b) == multiset(c)
    ensures multiset(a + [y]) + multiset(b) == multiset(c + [y])
    ensures multiset(a) + multiset(b + [y]) == multiset(c + [y])
  {
    assert multiset(a + [y]) + multiset(b) == (multiset(a) + multiset(b)) + multiset{y};
    assert multiset(a) + multiset(b + [y]) == (multiset(a) + multiset(b)) + multiset{y};
  }

  lemma {:induction false} PartsSame(s: seq<Slot>, pi: nat, p: int)
    ensures var r := Parts(s, pi, p); multiset(r.0) + multiset(r.1) == multiset(s) && |r.0| + |r.1| == |s|
  {
    if s != [] {
      var t, x := s[..|s| - 1], s[|s| - 1];
      PartsSame(t, pi, p);
      OneMore(Parts(t, pi, p).0, Parts(t, pi, p).1, t, x);
      assert s == t + [x];
    }
  }

  lemma {:induction false} PartsOrdered(s: seq<Slot>, pi: nat, p: int)
    requires pi < |s| ==> s[pi].deadline == p
    ensures var r := Parts(s, pi, p);
      && AllLe(r.0, p) && AllGe(r.1, p)
      && (forall x :: x in r.0 || x in r.1 ==> x in s)
      && (|s| > pi ==> r.1 != [])
  {
    if s != [] {
      PartsOrdered(s[..|s| - 1], pi, p);
    }
  }

  lemma SplitLayers(bs: seq<seq<Slot>>, pivots: seq<int>, p: int, up: seq<Slot>, down: seq<Slot>)
    requires Layered(bs, pivots) && AllGe(up, p) && AllLe(down, p)
    requires forall x :: x in up || x in down ==> x in bs[|bs| - 1]
    ensures Layered(Split(bs, up, down), pivots + [p])
  {
    var n := |bs| - 1;
    var cs := Split(bs, up, down);
    assert forall i :: 0 <= i < n ==> cs[i] == bs[i];
    assert cs[n] == up && cs[n + 1] == down;
    forall i, j | 0 <= i < j < |cs| ensures AllLe(cs[j], (pivots + [p])[i]) {
      if i < n {
        assert AllLe(bs[if j < n then j else n], pivots[i]);
      }
    }
  }

  // ---- Taking an entry out ----

  lemma TakenLayers(bs: seq<seq<Slot>>, pivots: seq<int>, oi: nat, p: nat)
    requires Layered(bs, pivots) && oi < |bs| && p < |bs[oi]|
    ensures Layered(bs[oi := Taken(bs[oi], p)], pivots)
  {
    TakenIs(bs[oi], p);
  }

  lemma TakenFilled(bs: seq<seq<Slot>>, oi: nat, p: nat)
    requires Filled(bs) && oi < |bs| && p < |bs[oi]|
    ensures var cs := bs[oi := Taken(bs[oi], p)];
      if cs[oi] == [] && |cs| > 1 then Filled(Cut(cs, oi)) else Filled(cs)
  {
    var cs := bs[oi := Taken(bs[oi], p)];
    if cs[oi] == [] && |cs| > 1 {
      forall i | 0 <= i < |cs| - 1 ensures Cut(cs, oi)[i] != [] {
        assert Cut(cs, oi)[i] == bs[if i < oi then i else i + 1];
      }
    }
  }

  // ---- Sweeping ----

  lemma {:induction false} KeepConcat(a: seq<Slot>, b: seq<Slot>, dead: set<nat>)
    ensures Keep(a + b, dead) == Keep(a, dead) + Keep(b, dead)
  {
    if b == [] {
      assert a + b == a;
    } else {
      KeepConcat(a, b[..|b| - 1], dead);
      assert (a + b)[..|a + b| - 1] == a + b[..|b| - 1];
    }
  }

  function KeepEach(bs: seq<seq<Slot>>, dead: set<nat>): (r: seq<seq<Slot>>)
    ensures |r| == |bs|
  {
    if bs == [] then [] else KeepEach(bs[..|bs| - 1], dead) + [Keep(bs[|bs| - 1], dead)]
  }

  lemma {:induction false} KeepEachAt(bs: seq<seq<Slot>>, dead: set<nat>, i: nat)
    requires i < |bs|
    ensures KeepEach(bs, dead)[i] == Keep(bs[i], dead)
  {
    if i < |bs| - 1 {
      KeepEachAt(bs[..|bs| - 1], dead, i);
    }
  }

  lemma KeepEachNext(bs: seq<seq<Slot>>, dead: set<nat>, i: nat)
    requires i < |bs|
    ensures var cs := KeepEach(bs[..i], dead) + bs[i..];
      cs[i] == bs[i] && cs[i := Keep(bs[i], dead)] == KeepEach(bs[..i + 1], dead) + bs[i + 1..]
  {
    assert bs[..i + 1][..i] == bs[..i];
    assert KeepEach(bs[..i + 1], dead) == KeepEach(bs[..i], dead) + [Keep(bs[i], dead)];
    assert bs[i..] == [bs[i]] + bs[i + 1..];
  }

  lemma {:induction false} KeepEachFlat(bs: seq<seq<Slot>>, dead: set<nat>)
    ensures Flat(KeepEach(bs, dead)) == Keep(Flat(bs), dead)
  {
    if bs != [] {
      var n := |bs| - 1;
      KeepEachFlat(bs[..n], dead);
      FlatLast(KeepEach(bs[..n], dead), Keep(bs[n], dead));
      KeepConcat(Flat(bs[..n]), bs[n], dead);
    }
  }

  lemma KeepInside(s: seq<Slot>, dead: set<nat>, x: Slot)
    requires x in Keep(s, dead)
    ensures x in s && x.node !in dead
  {
    KeepAt(s, dead, x);
    assert x in multiset(Keep(s, dead));
    assert x in multiset(s);
  }

  lemma KeepLayers(bs: seq<seq<Slot>>, pivots: seq<int>, dead: set<nat>)
    requires Layered(bs, pivots)
    ensures Layered(KeepEach(bs, dead), pivots)
  {
    var cs := KeepEach(bs, dead);
    forall i, x | 0 <= i < |cs| && x in cs[i] ensures x in bs[i] {
      KeepEachAt(bs, dead, i);
      KeepInside(bs[i], dead, x);
    }
  }

  // ---- The live timers ----

  // Two contents agree on the timers that are not cancelled.
  ghost predicate SameLive(a: multiset<Slot>, b: multiset<Slot>, dead: set<nat>) {
    forall x: Slot :: x.node !in dead ==> a[x] == b[x]
  }

  // b has the timers of a that are not cancelled, less t.
  ghost predicate LessLive(a: multiset<Slot>, b: multiset<Slot>, dead: set<nat>, t: Slot) {
    t in a && t.node !in dead && SameLive(b, a - multiset{t}, dead)
  }

  predicate LeastLive(m: multiset<Slot>, dead: set<nat>, d: int) {
    forall x :: x in m && x.node !in dead ==> d <= x.deadline
  }

  // A pop that leaves the entries g of f takes the least live timer if it is due;
  // only cancelled ones go besides.
  ghost predicate Pops(f: multiset<Slot>, g: multiset<Slot>, dead: set<nat>, now: int, r: Option<Slot>) {
    match r
    case Some(x) => LessLive(f, g, dead, x) && x.deadline <= now && LeastLive(f, dead, x.deadline)
    case None => SameLive(g, f, dead) && LeastLive(f, dead, now + 1)
  }

  lemma SweptLive(bs: seq<seq<Slot>>, dead: set<nat>)
    ensures SameLive(multiset(Flat(KeepEach(bs, dead))), multiset(Flat(bs)), dead)
    ensures forall x :: x in multiset(Flat(KeepEach(bs, dead))) ==> x.node !in dead
  {
    KeepEachFlat(bs, dead);
    forall x ensures multiset(Flat(KeepEach(bs, dead)))[x] == if x.node in dead then 0 else multiset(Flat(bs))[x] {
      KeepAt(Flat(bs), dead, x);
    }
  }

  // What is left once t is taken out: as much less of the live timers as t was.
  lemma TakeLive(a: multiset<Slot>, b: multiset<Slot>, t: Slot, dead: set<nat>)
    requires a == b + multiset{t}
    ensures t in a && b == a - multiset{t} && b <= a && |b| < |a|
    ensures if t.node in dead then SameLive(b, a, dead) else LessLive(a, b, dead, t)
  {
    assert b == a - multiset{t};
  }

  lemma PutLayers(bs: seq<seq<Slot>>, pivots: seq<int>, i: nat, x: Slot)
    requires Layered(bs, pivots) && Filled(bs) && i < |bs|
    requires (forall j :: 0 <= j < i ==> x.deadline < pivots[j]) && (i < |bs| - 1 ==> x.deadline >= pivots[i])
    ensures Layered(bs[i := bs[i] + [x]], pivots) && Filled(bs[i := bs[i] + [x]])
  {
  }

  // The least of the bottom bucket is the least of all.
  lemma BottomLeast(bs: seq<seq<Slot>>, pivots: seq<int>, mi: nat)
    requires Layered(bs, pivots) && mi < |bs[|bs| - 1]|
    requires var b := bs[|bs| - 1]; forall j :: 0 <= j < |b| ==> b[mi].deadline <= b[j].deadline
    ensures var t := bs[|bs| - 1][mi];
      t in multiset(Flat(bs)) && forall y :: y in multiset(Flat(bs)) ==> t.deadline <= y.deadline
  {
    var n := |bs| - 1;
    var t := bs[n][mi];
    assert t in bs[n];
    FlatIn(bs, n, t);
    assert t in Flat(bs);
    forall y | y in multiset(Flat(bs)) ensures t.deadline <= y.deadline {
      assert y in Flat(bs);
      var i := FlatHas(bs, y);
      if i < n {
        assert AllGe(bs[i], pivots[i]) && AllLe(bs[n], pivots[i]);
      }
    }
  }
}
