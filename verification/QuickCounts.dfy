/**
 * The two counters of the QuickHeap (bench/bench_timerq.c, qh) that decide when
 * lazily cancelled timers are swept out: how many entries are live and how many
 * are marked, over the contents of all buckets.
 */
module QuickCounts {
  import opened HeapSeq
  import opened QuickLayers

  // The live timers among the entries f.
  ghost function Bag(f: seq<Slot>, dead: set<nat>): multiset<Slot> {
    multiset(Keep(f, dead))
  }

  ghost function Nodes(m: multiset<Slot>): set<nat> {
    set x | x in m :: x.node
  }

  // No node is in two entries: there are as many nodes as entries.
  ghost predicate Unique(m: multiset<Slot>) {
    |Nodes(m)| == |m|
  }

  lemma {:induction false} NodesAtMost(m: multiset<Slot>)
    ensures |Nodes(m)| <= |m|
    decreases |m|
  {
    if x :| x in m {
      var r := m - multiset{x};
      OneOut(m, x);
      NodesAtMost(r);
      assert m == r + multiset{x};
      assert Nodes(m) == Nodes(r) + {x.node};
    }
  }

  lemma UniqueMeans(m: multiset<Slot>, x: Slot)
    requires Unique(m) && x in m
    ensures Unique(m - multiset{x}) && forall y :: y in m - multiset{x} ==> y.node != x.node
  {
    var r := m - multiset{x};
    OneOut(m, x);
    NodesAtMost(r);
    assert m == r + multiset{x};
    assert Nodes(m) == Nodes(r) + {x.node};
  }

  lemma UniqueGrows(m: multiset<Slot>, x: Slot)
    requires Unique(m) && forall y :: y in m ==> y.node != x.node
    ensures Unique(m + multiset{x})
  {
    assert Nodes(m + multiset{x}) == Nodes(m) + {x.node};
  }

  // A part of what is unique is unique.
  lemma {:induction false} UniquePart(m: multiset<Slot>, r: multiset<Slot>)
    requires Unique(m) && r <= m
    ensures Unique(r)
    decreases |m|
  {
    if x :| x in m - r {
      UniqueMeans(m, x);
      OneOut(m, x);
      UniquePart(m - multiset{x}, r);
    } else {
      forall x ensures m[x] == r[x] {
        assert x !in m - r;
      }
      assert m == r;
    }
  }

  // The counters count.
  ghost predicate Tallied(f: seq<Slot>, dead: set<nat>, nlive: int, ndead: int) {
    Unique(multiset(f)) && nlive == |Bag(f, dead)| && nlive + ndead == |multiset(f)|
  }

  lemma BagAt(f: seq<Slot>, dead: set<nat>, x: Slot)
    ensures Bag(f, dead)[x] == if x.node in dead then 0 else multiset(f)[x]
  {
    KeepAt(f, dead, x);
  }

  // The bag follows from what is there, whatever the order.
  lemma BagSame(f: seq<Slot>, g: seq<Slot>, dead: set<nat>)
    requires SameLive(multiset(f), multiset(g), dead)
    ensures Bag(f, dead) == Bag(g, dead)
  {
    forall x ensures Bag(f, dead)[x] == Bag(g, dead)[x] {
      BagAt(f, dead, x);
      BagAt(g, dead, x);
    }
  }

  lemma BagLess(f: seq<Slot>, g: seq<Slot>, dead: set<nat>, t: Slot)
    requires LessLive(multiset(f), multiset(g), dead, t)
    ensures t in Bag(f, dead) && Bag(g, dead) == Bag(f, dead) - multiset{t}
  {
    forall x ensures Bag(g, dead)[x] == (Bag(f, dead) - multiset{t})[x] {
      BagAt(f, dead, x);
      BagAt(g, dead, x);
    }
    BagAt(f, dead, t);
  }

  lemma BagAdds(f: seq<Slot>, g: seq<Slot>, dead: set<nat>, x: Slot)
    requires multiset(g) == multiset(f) + multiset{x} && forall y :: y in multiset(f) ==> y.node != x.node
    ensures Bag(g, dead - {x.node}) == Bag(f, dead) + multiset{x}
  {
    forall y ensures Bag(g, dead - {x.node})[y] == (Bag(f, dead) + multiset{x})[y] {
      BagAt(f, dead, y);
      BagAt(g, dead - {x.node}, y);
    }
  }

  lemma BagMarks(f: seq<Slot>, dead: set<nat>, x: Slot)
    requires Unique(multiset(f)) && x in multiset(f) && x.node !in dead
    ensures x in Bag(f, dead) && Bag(f, dead + {x.node}) == Bag(f, dead) - multiset{x}
  {
    var m := multiset(f);
    UniqueMeans(m, x);
    forall y ensures Bag(f, dead + {x.node})[y] == (Bag(f, dead) - multiset{x})[y] {
      assert m[y] == (m - multiset{x})[y] + multiset{x}[y];
      BagAt(f, dead, y);
      BagAt(f, dead + {x.node}, y);
    }
    BagAt(f, dead, x);
  }

  lemma OneOut(m: multiset<Slot>, x: Slot)
    requires x in m
    ensures |m - multiset{x}| == |m| - 1
  {
    assert m == (m - multiset{x}) + multiset{x};
  }

  lemma TallyAdds(f: seq<Slot>, g: seq<Slot>, dead: set<nat>, x: Slot, nlive: int, ndead: int)
    requires Tallied(f, dead, nlive, ndead)
    requires multiset(g) == multiset(f) + multiset{x} && forall y :: y in multiset(f) ==> y.node != x.node
    ensures Tallied(g, dead - {x.node}, nlive + 1, ndead)
  {
    UniqueGrows(multiset(f), x);
    BagAdds(f, g, dead, x);
  }

  lemma TallyTakes(f: seq<Slot>, g: seq<Slot>, dead: set<nat>, x: Slot, nlive: int, ndead: int)
    requires Tallied(f, dead, nlive, ndead) && x in multiset(f) && multiset(g) == multiset(f) - multiset{x}
    ensures if x.node in dead then Tallied(g, dead, nlive, ndead - 1) else Tallied(g, dead, nlive - 1, ndead)
  {
    OneOut(multiset(f), x);
    UniqueMeans(multiset(f), x);
    if x.node in dead {
      BagSame(g, f, dead);
    } else {
      BagLess(f, g, dead, x);
      OneOut(Bag(f, dead), x);
    }
  }

  lemma TallyMarks(f: seq<Slot>, dead: set<nat>, x: Slot, nlive: int, ndead: int)
    requires Tallied(f, dead, nlive, ndead) && x in multiset(f) && x.node !in dead
    ensures Tallied(f, dead + {x.node}, nlive - 1, ndead + 1)
  {
    BagMarks(f, dead, x);
    OneOut(Bag(f, dead), x);
  }

  lemma TallySame(f: seq<Slot>, g: seq<Slot>, dead: set<nat>, nlive: int, ndead: int)
    requires Tallied(f, dead, nlive, ndead) && multiset(g) == multiset(f)
    ensures Tallied(g, dead, nlive, ndead)
  {
    BagSame(g, f, dead);
  }

  lemma SweptPart(g: multiset<Slot>, f: multiset<Slot>, dead: set<nat>)
    requires SameLive(g, f, dead) && forall x :: x in g ==> x.node !in dead
    ensures g <= f
  {
    forall x ensures g[x] <= f[x] {
      if x.node in dead {
        assert x !in g;
      }
    }
  }

  lemma TallySweeps(f: seq<Slot>, g: seq<Slot>, dead: set<nat>, nlive: int, ndead: int)
    requires Tallied(f, dead, nlive, ndead) && SameLive(multiset(g), multiset(f), dead)
    requires forall x :: x in multiset(g) ==> x.node !in dead
    ensures Tallied(g, dead, nlive, 0)
  {
    BagSame(g, f, dead);
    forall x ensures multiset(g)[x] == Bag(g, dead)[x] {
      BagAt(g, dead, x);
    }
    assert multiset(g) == Bag(g, dead);
    SweptPart(multiset(g), multiset(f), dead);
    UniquePart(multiset(f), multiset(g));
  }
}
