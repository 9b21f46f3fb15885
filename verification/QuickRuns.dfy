/**
 * Runs of the QuickHeap: whether timers are cancelled at once or lazily, any
 * sequence of operations on its code is one on a plain multiset of timers.
 */
module QuickRuns {
  import opened FlatSeq
  import opened HeapSeq
  import opened QuickCounts
  import opened QuickHeap
  import opened QuickLayers
  import opened Wrappers

  datatype Op = Start(x: Slot) | Stop(x: Slot) | Pop(now: int) | Look

  datatype Out = Quiet | Popped(r: Option<Slot>) | Saw(d: int)

  // The timers that can still fire, and the nodes of all entries, marked or not.
  datatype State = State(live: multiset<Slot>, held: set<nat>)

  ghost predicate Least(x: Slot, m: multiset<Slot>) {
    x in m && forall y :: y in m ==> x.deadline <= y.deadline
  }

  ghost predicate PopStep(m: multiset<Slot>, now: int, m': multiset<Slot>, r: Option<Slot>) {
    match r
    case Some(x) => Least(x, m) && x.deadline <= now && m' == m - multiset{x}
    case None => m' == m && forall y :: y in m ==> y.deadline > now
  }

  ghost predicate LookStep(m: multiset<Slot>, d: int) {
    if m == multiset{} then d == -1 else exists x :: Least(x, m) && x.deadline == d
  }

  // A node with an entry is not started again; a timer that is not live is not
  // stopped.
  ghost predicate Step(s: State, op: Op, s': State, out: Out) {
    match op
    case Start(x) =>
      out == Quiet && s' == if x.node in s.held then s else State(s.live + multiset{x}, s.held + {x.node})
    case Stop(x) =>
      out == Quiet && s'.held <= s.held && s'.live == if x in s.live then s.live - multiset{x} else s.live
    case Pop(now) => out.Popped? && s'.held <= s.held && PopStep(s.live, now, s'.live, out.r)
    case Look => out.Saw? && s'.held <= s.held && s'.live == s.live && LookStep(s.live, out.d)
  }

  // Every live timer has its entry; when cancels take effect at once, there is no other.
  ghost predicate Sane(s: State, lazily: bool) {
    Nodes(s.live) <= s.held && (!lazily ==> s.held == Nodes(s.live))
  }

  ghost predicate IsRun(run: seq<State>, ops: seq<Op>, outs: seq<Out>, lazily: bool) {
    && |run| == |ops| + 1 && |outs| == |ops| && run[0] == State(multiset{}, {})
    && (forall k :: 0 <= k < |ops| ==> Step(run[k], ops[k], run[k + 1], outs[k]))
    && (forall k :: 0 <= k < |run| ==> Sane(run[k], lazily))
  }

  // A run over the first k operations that has come to s.
  ghost predicate Reached(run: seq<State>, ops: seq<Op>, outs: seq<Out>, lazily: bool, k: nat, s: State)
    requires k <= |ops|
  {
    IsRun(run, ops[..k], outs, lazily) && run[k] == s
  }

  lemma RunGrows(
    run: seq<State>, ops: seq<Op>, outs: seq<Out>, lazily: bool, k: nat, s: State, next: State, out: Out)
    requires k < |ops| && Reached(run, ops, outs, lazily, k, s) && Step(s, ops[k], next, out) && Sane(next, lazily)
    ensures Reached(run + [next], ops, outs + [out], lazily, k + 1, next)
  {
    var r, o, p := run + [next], outs + [out], ops[..k + 1];
    forall j | 0 <= j < |p| ensures Step(r[j], p[j], r[j + 1], o[j]) {
      if j < k {
        assert Step(run[j], ops[..k][j], run[j + 1], outs[j]);
      }
    }
    forall j | 0 <= j < |r| ensures Sane(r[j], lazily) {
      assert j <= k ==> Sane(run[j], lazily);
    }
  }

  // The live timers, and the nodes of all entries; none is marked unless cancels are lazy.
  ghost predicate Shows(q: Queue, s: State)
    reads q
  {
    q.Valid() && q.Counted() && q.Live() == s.live && Nodes(q.All()) == s.held && (!q.lazy ==> q.dead == {})
  }

  lemma ShowsSane(q: Queue, s: State)
    requires Shows(q, s)
    ensures Sane(s, q.lazy)
  {
    forall x ensures x in q.Live() <==> x in q.All() && x.node !in q.dead {
      LiveIs(Flat(q.bs), q.dead, x);
    }
  }

  lemma LiveIs(f: seq<Slot>, dead: set<nat>, x: Slot)
    ensures x in Bag(f, dead) <==> x in multiset(f) && x.node !in dead
  {
    BagAt(f, dead, x);
  }

  lemma PoppedLeast(f: seq<Slot>, g: seq<Slot>, dead: set<nat>, now: int, r: Option<Slot>)
    requires Pops(multiset(f), multiset(g), dead, now, r)
    ensures PopStep(Bag(f, dead), now, Bag(g, dead), r)
  {
    forall y ensures y in Bag(f, dead) <==> y in multiset(f) && y.node !in dead {
      LiveIs(f, dead, y);
    }
    if r.Some? {
      BagLess(f, g, dead, r.value);
    } else {
      BagSame(g, f, dead);
    }
  }

  lemma SeenLeast(f: seq<Slot>, dead: set<nat>, d: int)
    requires (exists t :: t in multiset(f) && t.node !in dead) ==>
      (exists t :: t in multiset(f) && t.node !in dead && t.deadline == d) && LeastLive(multiset(f), dead, d)
    requires (forall t :: t in multiset(f) ==> t.node in dead) ==> d == -1
    ensures LookStep(Bag(f, dead), d)
  {
    forall y ensures y in Bag(f, dead) <==> y in multiset(f) && y.node !in dead {
      LiveIs(f, dead, y);
    }
    if t :| t in multiset(f) && t.node !in dead && t.deadline == d {
      if t in Bag(f, dead) && LeastLive(multiset(f), dead, d) {
        assert Least(t, Bag(f, dead));
      }
    }
  }

  lemma FewerNodes(a: multiset<Slot>, b: multiset<Slot>)
    requires a <= b
    ensures Nodes(a) <= Nodes(b)
  {
    forall n | n in Nodes(a) ensures n in Nodes(b) {
      var x :| x in a && x.node == n;
      assert x in b;
    }
  }

  lemma MoreNodes(a: multiset<Slot>, x: Slot)
    ensures Nodes(a + multiset{x}) == Nodes(a) + {x.node}
  {
    assert x in a + multiset{x};
    forall n | n in Nodes(a) ensures n in Nodes(a + multiset{x}) {
      var y :| y in a && y.node == n;
      assert y in a + multiset{x};
    }
  }

  method DoStart(q: Queue, x: Slot, ghost s: State) returns (ghost next: State)
    requires Shows(q, s)
    modifies q
    ensures Shows(q, next) && Step(s, Start(x), next, Quiet)
  {
    next := s;
    var taken := q.HasNode(x.node);
    if !taken {
      MoreNodes(q.All(), x);
      q.Push(x);
      next := State(s.live + multiset{x}, s.held + {x.node});
    }
  }

  method StopLive(q: Queue, x: Slot)
    requires q.Valid() && q.Counted() && x in q.All() && x.node !in q.dead
    modifies q
    ensures q.Valid() && q.Counted() && q.Live() == old(q.Live()) - multiset{x} && q.All() <= old(q.All())
    ensures !q.lazy ==> q.dead == old(q.dead)
  {
    if q.lazy {
      assert q.Pending(x.node);
      q.CancelLazy(x.node);
    } else {
      q.CancelEager(x);
    }
  }

  method DoStop(q: Queue, x: Slot, ghost s: State) returns (ghost next: State)
    requires Shows(q, s)
    modifies q
    ensures Shows(q, next) && Step(s, Stop(x), next, Quiet)
  {
    LiveIs(Flat(q.bs), q.dead, x);
    var live := q.HasLive(x);
    next := s;
    if live {
      ghost var all := q.All();
      StopLive(q, x);
      FewerNodes(q.All(), all);
      next := State(s.live - multiset{x}, Nodes(q.All()));
    }
  }

  method PopLive(q: Queue, now: int) returns (r: Option<Slot>)
    requires q.Valid() && q.Counted()
    modifies q
    ensures q.Valid() && q.Counted() && q.All() <= old(q.All()) && q.dead == old(q.dead)
    ensures PopStep(old(q.Live()), now, q.Live(), r)
  {
    ghost var f := Flat(q.bs);
    r := q.PopDue(now);
    PoppedLeast(f, Flat(q.bs), q.dead, now, r);
  }

  method DoPop(q: Queue, now: int, ghost s: State) returns (out: Out, ghost next: State)
    requires Shows(q, s)
    modifies q
    ensures Shows(q, next) && Step(s, Pop(now), next, out)
  {
    ghost var all := q.All();
    var r := PopLive(q, now);
    FewerNodes(q.All(), all);
    out, next := Popped(r), State(q.Live(), Nodes(q.All()));
  }

  method LookLive(q: Queue) returns (d: int)
    requires q.Valid() && q.Counted()
    modifies q
    ensures q.Valid() && q.Counted() && q.Live() == old(q.Live()) && q.All() <= old(q.All()) && q.dead == old(q.dead)
    ensures LookStep(q.Live(), d)
  {
    ghost var f := Flat(q.bs);
    d := q.Next();
    SeenLeast(f, q.dead, d);
    BagSame(Flat(q.bs), f, q.dead);
  }

  method DoLook(q: Queue, ghost s: State) returns (out: Out, ghost next: State)
    requires Shows(q, s)
    modifies q
    ensures Shows(q, next) && Step(s, Look, next, out)
  {
    ghost var all := q.All();
    var d := LookLive(q);
    FewerNodes(q.All(), all);
    out, next := Saw(d), State(s.live, Nodes(q.All()));
  }

  // The code run over any operations, with either kind of cancel, is such a run.
  method Replay(ops: seq<Op>, lazily: bool) returns (outs: seq<Out>)
    ensures exists run :: IsRun(run, ops, outs, lazily)
  {
    var q := new Queue(lazily);
    ghost var s := State(multiset{}, {});
    ghost var run := [s];
    outs := [];
    for k := 0 to |ops|
      invariant fresh(q) && q.lazy == lazily && Shows(q, s) && Reached(run, ops, outs, lazily, k, s)
    {
      var out := Quiet;
      ghost var next;
      match ops[k] {
        case Start(x) => next := DoStart(q, x, s);
        case Stop(x) => next := DoStop(q, x, s);
        case Pop(now) => out, next := DoPop(q, now, s);
        case Look => out, next := DoLook(q, s);
      }
      ShowsSane(q, next);
      RunGrows(run, ops, outs, lazily, k, s, next, out);
      outs, run, s := outs + [out], run + [next], next;
    }
    assert ops[..|ops|] == ops;
    assert IsRun(run, ops, outs, lazily);
  }
}
