/**
 * The radix heap on nanosecond keys (bench/bench_timerq.c, rx).  Bucket 0 holds
 * the keys not above `last`, bucket i the keys whose highest bit differing
 * from `last` is bit i - 1; a pop moves `last` up to the least key and deals
 * its bucket out again, each entry strictly lower.
 */
module RadixHeap {
  import opened ArraySeq
  import opened Bits
  import opened FlatSeq
  import opened HeapSeq
  import opened SlotBuckets
  import opened Wrappers

  const KEYS: nat := 0x8000_0000_0000_0000

  // The length of the exclusive or of two keys: how often both must be halved
  // to become equal.
  function Diff(a: nat, b: nat): nat {
    if a == b then 0 else 1 + Diff(a / 2, b / 2)
  }

  function Bucket(last: nat, k: nat): nat {
    if k <= last then 0 else Diff(k, last)
  }

  lemma {:induction false} DiffIsLength(a: nat, b: nat)
    ensures Diff(a, b) == BitLength(Xor(a, b))
  {
    XorZero(a, b);
    if a != b {
      XorHalf(a, b);
      DiffIsLength(a / 2, b / 2);
    }
  }

  function Pow2(n: nat): nat {
    if n == 0 then 1 else 2 * Pow2(n - 1)
  }

  lemma {:induction false} DiffFits(a: nat, b: nat, n: nat)
    requires a < Pow2(n) && b < Pow2(n)
    ensures Diff(a, b) <= n
    decreases n
  {
    if n > 0 && a != b {
      DiffFits(a / 2, b / 2, n - 1);
    }
  }

  // Lower buckets hold lower keys.
  lemma {:induction false} LowerBucket(last: nat, x: nat, y: nat)
    requires last < x && last < y && Diff(x, last) < Diff(y, last)
    ensures x < y
  {
    if x / 2 != last / 2 {
      LowerBucket(last / 2, x / 2, y / 2);
    }
  }

  // Moving last into a bucket leaves the buckets above it alone ...
  lemma {:induction false} HigherStay(last: nat, m: nat, y: nat)
    requires last < m && Diff(m, last) < Diff(y, last)
    ensures Diff(y, m) == Diff(y, last)
  {
    if m / 2 != last / 2 {
      HigherStay(last / 2, m / 2, y / 2);
    }
  }

  // ... and sends that bucket's own entries strictly down.
  lemma {:induction false} SameFalls(last: nat, m: nat, x: nat)
    requires last < m <= x && Diff(m, last) == Diff(x, last)
    ensures Diff(x, m) < Diff(m, last)
  {
    if m / 2 != last / 2 {
      SameFalls(last / 2, m / 2, x / 2);
    }
  }

  lemma PowEight(n: nat)
    ensures Pow2(n + 8) == 256 * Pow2(n)
  {
    assert Pow2(n + 2) == 4 * Pow2(n);
    assert Pow2(n + 4) == 4 * Pow2(n + 2);
    assert Pow2(n + 6) == 4 * Pow2(n + 4);
    assert Pow2(n + 8) == 4 * Pow2(n + 6);
  }

  lemma Pow63()
    ensures Pow2(63) == KEYS
  {
    assert Pow2(3) == 8 && Pow2(5) == 32 && Pow2(7) == 128;
    PowEight(7);
    PowEight(15);
    PowEight(23);
    PowEight(31);
    PowEight(39);
    PowEight(47);
    PowEight(55);
  }

  // ---- As a queue of timers ----

  datatype State = State(contents: multiset<Slot>, last: nat)

  datatype Op = Push(x: Slot) | Cancel(x: Slot) | Pop(now: int)

  predicate InRange(x: Slot) {
    0 <= x.deadline < KEYS
  }

  // Nothing was pushed below last.
  ghost predicate Exact(s: State) {
    forall x :: x in s.contents ==> s.last <= x.deadline
  }

  // The least timer if it is due, else nothing.
  ghost predicate LeastIfDue(m: multiset<Slot>, now: int, out: Option<Slot>) {
    match out
    case Some(x) => x in m && x.deadline <= now && forall y :: y in m ==> x.deadline <= y.deadline
    case None => NoneDue(m, now)
  }

  ghost predicate PopStep(s: State, now: int, s': State, out: Option<Slot>) {
    && (s'.last == s.last || s.last < s'.last <= now)
    && (match out
        case Some(x) => x in s.contents && x.deadline <= now && s'.contents == s.contents - multiset{x}
        case None => s'.contents == s.contents)
    && (s.last <= now ==> (out.None? <==> NoneDue(s.contents, now)))
    && (Exact(s) ==> Exact(s') && LeastIfDue(s.contents, now, out))
  }

  ghost predicate NoneDue(m: multiset<Slot>, now: int) {
    forall y :: y in m ==> y.deadline > now
  }

  // Pushing a key out of range and cancelling a timer that is not there are skipped.
  ghost predicate Step(s: State, op: Op, s': State, out: Option<Slot>) {
    match op
    case Push(x) => s' == (if InRange(x) then s.(contents := s.contents + multiset{x}) else s) && out == None
    case Cancel(x) => s' == (if x in s.contents then s.(contents := s.contents - multiset{x}) else s) && out == None
    case Pop(now) => PopStep(s, now, s', out)
  }

  ghost predicate IsRun(run: seq<State>, ops: seq<Op>, outs: seq<Option<Slot>>) {
    && |run| == |ops| + 1 && |outs| == |ops| && run[0] == State(multiset{}, 0)
    && forall k :: 0 <= k < |ops| ==> Step(run[k], ops[k], run[k + 1], outs[k])
  }

  // The clock has read no later than `t` in the first k operations.
  predicate ReadAtMost(ops: seq<Op>, k: nat, t: int)
    requires k <= |ops|
  {
    forall j :: 0 <= j < k && ops[j].Pop? ==> ops[j].now <= t
  }

  // No timer is pushed with a deadline that a pop has already looked past.
  predicate Timely(ops: seq<Op>) {
    forall k :: 0 <= k < |ops| && ops[k].Push? ==> ReadAtMost(ops, k, ops[k].x.deadline)
  }

  // last has moved no further than the clock.
  lemma {:induction false} LastRead(run: seq<State>, ops: seq<Op>, outs: seq<Option<Slot>>, k: nat, t: nat)
    requires IsRun(run, ops, outs) && k <= |ops| && ReadAtMost(ops, k, t)
    ensures run[k].last <= t
  {
    if k > 0 {
      LastRead(run, ops, outs, k - 1, t);
      assert Step(run[k - 1], ops[k - 1], run[k], outs[k - 1]);
    }
  }

  // No timer is pushed below last.
  ghost predicate NotBelow(run: seq<State>, ops: seq<Op>)
    requires |run| == |ops| + 1
  {
    forall k :: 0 <= k < |ops| && ops[k].Push? && InRange(ops[k].x) ==> run[k].last <= ops[k].x.deadline
  }

  lemma TimelyNotBelow(run: seq<State>, ops: seq<Op>, outs: seq<Option<Slot>>)
    requires IsRun(run, ops, outs) && Timely(ops)
    ensures NotBelow(run, ops)
  {
    forall k | 0 <= k < |ops| && ops[k].Push? && InRange(ops[k].x) ensures run[k].last <= ops[k].x.deadline {
      LastRead(run, ops, outs, k, ops[k].x.deadline);
    }
  }

  lemma {:induction false} StaysExact(run: seq<State>, ops: seq<Op>, outs: seq<Option<Slot>>, k: nat)
    requires IsRun(run, ops, outs) && NotBelow(run, ops) && k <= |ops|
    ensures Exact(run[k])
  {
    if k > 0 {
      StaysExact(run, ops, outs, k - 1);
      assert Step(run[k - 1], ops[k - 1], run[k], outs[k - 1]);
    }
  }

  // In every run without a push below last, with cancels anywhere, each pop is
  // that of a plain multiset.
  lemma AlwaysLeast(run: seq<State>, ops: seq<Op>, outs: seq<Option<Slot>>, k: nat)
    requires IsRun(run, ops, outs) && NotBelow(run, ops) && k < |ops| && ops[k].Pop?
    ensures LeastIfDue(run[k].contents, ops[k].now, outs[k])
    ensures run[k + 1].contents == if outs[k].Some? then run[k].contents - multiset{outs[k].value} else run[k].contents
  {
    StaysExact(run, ops, outs, k);
    assert Step(run[k], ops[k], run[k + 1], outs[k]);
  }

  // ---- The heap ----

  predicate Layout(bs: seq<seq<Slot>>, last: nat) {
    && |bs| == 65 && last < KEYS
    && forall b, x :: 0 <= b < 65 && x in bs[b] ==> InRange(x) && Bucket(last, x.deadline) == b
  }

  // An entry above last, least among them.
  predicate LeastAbove(bs: seq<seq<Slot>>, m: int) {
    && (exists b, x :: 1 <= b < |bs| && x in bs[b] && x.deadline == m)
    && (forall b, x :: 1 <= b < |bs| && x in bs[b] ==> m <= x.deadline)
  }

  // 63-bit keys never reach the last bucket, so 64 mask bits are enough.
  lemma BucketFits(last: nat, k: nat)
    requires last < KEYS && k < KEYS
    ensures Bucket(last, k) < 64
  {
    Pow63();
    DiffFits(k, last, 63);
  }

  // The least entry of the lowest bucket above 0 is the least above last.
  lemma LowestHasLeast(bs: seq<seq<Slot>>, last: nat, b: nat, m: int)
    requires Layout(bs, last) && 1 <= b < 65 && (forall c :: 1 <= c < b ==> bs[c] == [])
    requires (exists x :: x in bs[b] && x.deadline == m) && forall x :: x in bs[b] ==> m <= x.deadline
    ensures LeastAbove(bs, m)
  {
    var x :| x in bs[b] && x.deadline == m;
    forall c, y | 1 <= c < |bs| && y in bs[c] ensures m <= y.deadline {
      if c > b {
        LowerBucket(last, x.deadline, y.deadline);
      }
    }
  }

  // Moving last to the least key: with its bucket taken out, the layout holds.
  lemma LayoutMoves(bs: seq<seq<Slot>>, last: nat, b: nat, m: nat)
    requires Layout(bs, last) && 1 <= b < 65 && (forall c :: 0 <= c < b ==> bs[c] == [])
    requires exists x :: x in bs[b] && x.deadline == m
    ensures Layout(bs[b := []], m)
  {
    var x :| x in bs[b] && x.deadline == m;
    var cs := bs[b := []];
    forall c, y: Slot | 0 <= c < 65 && y in cs[c] ensures 0 <= y.deadline < KEYS && Bucket(m, y.deadline) == c {
      assert c > b && y in bs[c];
      LowerBucket(last, m, y.deadline);
      HigherStay(last, m, y.deadline);
    }
  }

  // Prepending an entry to its own bucket.
  lemma LayoutTakes(bs: seq<seq<Slot>>, last: nat, x: Slot)
    requires Layout(bs, last) && InRange(x)
    ensures var b := Bucket(last, x.deadline);
      && b < 65 && Layout(bs[b := [x] + bs[b]], last)
      && multiset(Flat(bs[b := [x] + bs[b]])) == multiset(Flat(bs)) + multiset{x}
  {
    BucketFits(last, x.deadline);
    FlatGains(bs, Bucket(last, x.deadline), x);
  }

  lemma LayoutLoses(bs: seq<seq<Slot>>, last: nat, b: nat, k: nat)
    requires Layout(bs, last) && b < 65 && k < |bs[b]|
    ensures var cs := bs[b := Cut(bs[b], k)];
      && Layout(cs, last)
      && multiset(Flat(cs)) == multiset(Flat(bs)) - multiset{bs[b][k]}
  {
    var t := Cut(bs[b], k);
    CutIs(bs[b], k);
    FlatLoses(bs, b, k);
  }

  // ---- How the cached minimum survives a push and a cancel ----

  lemma LeastTakes(bs: seq<seq<Slot>>, b: nat, x: Slot, m: int)
    requires LeastAbove(bs, m) && b < |bs|
    ensures LeastAbove(bs[b := [x] + bs[b]], if b != 0 && x.deadline < m then x.deadline else m)
  {
    var cs := bs[b := [x] + bs[b]];
    var c, y :| 1 <= c < |bs| && y in bs[c] && y.deadline == m;
    assert y in cs[c];
    if b != 0 && x.deadline < m {
      assert x in cs[b];
    }
  }

  lemma LeastLoses(bs: seq<seq<Slot>>, b: nat, k: nat, m: int)
    requires LeastAbove(bs, m) && b < |bs| && k < |bs[b]| && (b == 0 || bs[b][k].deadline != m)
    ensures LeastAbove(bs[b := Cut(bs[b], k)], m)
  {
    var cs := bs[b := Cut(bs[b], k)];
    var c, y :| 1 <= c < |bs| && y in bs[c] && y.deadline == m;
    CutIs(bs[b], k);
    assert y in cs[c];
  }

  lemma LeastStays(bs: seq<seq<Slot>>, m: int, b: nat, k: nat)
    requires b < |bs| && k < |bs[b]|
    ensures LeastAbove(bs, m) && (b == 0 || bs[b][k].deadline != m) ==> LeastAbove(bs[b := Cut(bs[b], k)], m)
  {
    if LeastAbove(bs, m) && (b == 0 || bs[b][k].deadline != m) {
      LeastLoses(bs, b, k, m);
    }
  }

  // Bucket 0 tells whether anything was pushed below last.
  lemma ExactIff(bs: seq<seq<Slot>>, last: nat)
    requires Layout(bs, last)
    ensures Exact(State(multiset(Flat(bs)), last)) <==> forall x :: x in bs[0] ==> x.deadline == last
  {
    if forall x :: x in bs[0] ==> x.deadline == last {
      forall y | y in multiset(Flat(bs)) ensures last <= y.deadline {
        assert y in Flat(bs);
        var i := FlatHas(bs, y);
      }
    }
    if Exact(State(multiset(Flat(bs)), last)) {
      forall x | x in bs[0] ensures x.deadline == last {
        FlatIn(bs, 0, x);
        assert x in multiset(Flat(bs));
      }
    }
  }

  // ---- Dealing a bucket out ----

  // Entries not below last that belong under bucket b.
  predicate Falling(l: seq<Slot>, last: nat, b: nat) {
    && (forall x :: x in l ==> last <= x.deadline < KEYS && Bucket(last, x.deadline) < b)
    && (exists x :: x in l && x.deadline == last)
  }

  lemma AllFall(bs: seq<seq<Slot>>, last: nat, b: nat, m: int)
    requires Layout(bs, last) && 1 <= b < 65 && last < m < KEYS && (exists x :: x in bs[b] && x.deadline == m)
    requires forall x :: x in bs[b] ==> m <= x.deadline && Diff(x.deadline, last) == b == Diff(m, last)
    ensures Falling(bs[b], m, b)
  {
    forall x | x in bs[b] ensures Bucket(m, x.deadline) < b {
      SameFalls(last, m, x.deadline);
    }
  }

  function Dealt(bs: seq<seq<Slot>>, last: nat, l: seq<Slot>): (r: seq<seq<Slot>>)
    requires |bs| == 65 && last < KEYS && forall x :: x in l ==> InRange(x)
    ensures |r| == 65
  {
    if l == [] then bs
    else
      var x := l[|l| - 1];
      assert x in l && InRange(x);
      BucketFits(last, x.deadline);
      var r := Dealt(bs, last, l[..|l| - 1]);
      var b := Bucket(last, x.deadline);
      r[b := [x] + r[b]]
  }

  lemma {:induction false} DealtSame(bs: seq<seq<Slot>>, last: nat, l: seq<Slot>)
    requires |bs| == 65 && last < KEYS && forall x :: x in l ==> InRange(x)
    ensures multiset(Flat(Dealt(bs, last, l))) == multiset(Flat(bs)) + multiset(l)
  {
    if l != [] {
      var t, x := l[..|l| - 1], l[|l| - 1];
      assert x in l;
      BucketFits(last, x.deadline);
      DealtSame(bs, last, t);
      FlatGains(Dealt(bs, last, t), Bucket(last, x.deadline), x);
      AppendSame(multiset(Flat(bs)), t, x);
      assert l == t + [x];
    }
  }

  lemma {:induction false} DealtWhere(bs: seq<seq<Slot>>, last: nat, l: seq<Slot>, b: nat)
    requires |bs| == 65 && last < KEYS && 1 <= b < 65 && bs[0] == []
    requires forall x :: x in l ==> last <= x.deadline < KEYS && Bucket(last, x.deadline) < b
    ensures forall c :: b <= c < 65 ==> Dealt(bs, last, l)[c] == bs[c]
    ensures forall x :: x in Dealt(bs, last, l)[0] ==> x.deadline == last
    ensures (exists x :: x in l && x.deadline == last) ==> Dealt(bs, last, l)[0] != []
  {
    if l != [] {
      var t, x := l[..|l| - 1], l[|l| - 1];
      assert x in l;
      DealtWhere(bs, last, t, b);
      assert l == t + [x];
    }
  }

  lemma DealtIs(bs: seq<seq<Slot>>, last: nat, l: seq<Slot>, b: nat)
    requires Layout(bs, last) && 1 <= b < 65 && bs[0] == [] && Falling(l, last, b)
    ensures var r := Dealt(bs, last, l);
      && r[0] != [] && (forall x :: x in r[0] ==> x.deadline == last)
      && multiset(Flat(r)) == multiset(Flat(bs)) + multiset(l)
      && forall c :: b <= c < 65 ==> r[c] == bs[c]
  {
    DealtSame(bs, last, l);
    DealtWhere(bs, last, l, b);
  }

  class Radix {
    var bs: seq<seq<Slot>>
    var mask: seq<bool>
    var last: nat
    var cmin: int
    var cminOk: bool
    var idx: map<Slot, nat>

    ghost predicate Placed()
      reads this
    {
      Layout(bs, last) && Recorded(bs, mask, idx)
    }

    ghost predicate Valid()
      reads this
    {
      Placed() && (cminOk ==> LeastAbove(bs, cmin))
    }

    ghost function Contents(): multiset<Slot>
      reads this
    {
      multiset(Flat(bs))
    }

    ghost function View(): State
      reads this
    {
      State(Contents(), last)
    }

    constructor ()
      ensures Valid() && View() == State(multiset{}, 0)
    {
      bs, mask, last, cmin, cminOk, idx := seq(65, i => []), seq(65, i => false), 0, 0, false, map[];
      new;
      FlatEmpty(bs);
    }

    method Insert(x: Slot) returns (b: nat)
      requires Placed() && InRange(x)
      modifies this`bs, this`mask, this`idx
      ensures Placed() && b == Bucket(last, x.deadline) < 64
      ensures bs == old(bs)[b := [x] + old(bs)[b]] && Contents() == old(Contents()) + multiset{x}
    {
      BucketFits(last, x.deadline);
      LayoutTakes(bs, last, x);
      RecordedTakes(bs, mask, idx, Bucket(last, x.deadline), x);
      b := 0;
      if x.deadline > last {
        DiffIsLength(x.deadline, last);
        b := BitLength(Xor(x.deadline, last));
      }
      idx := idx[x := b];
      bs := bs[b := [x] + bs[b]];
      mask := mask[b := true];
    }

    method Push(x: Slot)
      requires Valid() && InRange(x)
      modifies this
      ensures Valid() && View() == old(View()).(contents := old(Contents()) + multiset{x})
    {
      ghost var old' := bs;
      var b := Insert(x);
      if cminOk {
        LeastTakes(old', b, x, cmin);
      }
      if b != 0 && cminOk && x.deadline < cmin {
        cmin := x.deadline;
      }
    }

    // Unlink entry k of bucket b.
    method Unlink(b: nat, k: nat)
      requires Placed() && b < 65 && k < |bs[b]|
      modifies this`bs, this`mask
      ensures Placed() && Contents() == old(Contents()) - multiset{old(bs)[b][k]}
      ensures LeastAbove(old(bs), cmin) && (b == 0 || old(bs)[b][k].deadline != cmin) ==> LeastAbove(bs, cmin)
    {
      LayoutLoses(bs, last, b, k);
      RecordedLoses(bs, mask, idx, b, k);
      LeastStays(bs, cmin, b, k);
      bs := bs[b := bs[b][..k] + bs[b][k + 1..]];
      mask := mask[b := bs[b] != []];
    }

    method Cancel(x: Slot)
      requires Valid() && x in Contents()
      modifies this
      ensures Valid() && View() == old(View()).(contents := old(Contents()) - multiset{x})
    {
      assert x in Flat(bs);
      ghost var c := FlatHas(bs, x);
      assert idx[x] == c;
      Remove(idx[x], Find(bs[idx[x]], x), x);
    }

    method Remove(b: nat, k: nat, x: Slot)
      requires Valid() && b < 65 && k < |bs[b]| && bs[b][k] == x
      modifies this`bs, this`mask, this`cminOk
      ensures Valid() && Contents() == old(Contents()) - multiset{x}
    {
      Unlink(b, k);
      if b != 0 && cminOk && x.deadline == cmin {
        cminOk := false;
      }
    }

    // The lowest bucket in use from `from` on.
    method LowestUsed(from: nat) returns (b: nat)
      requires Placed() && from < 65 && exists c :: from <= c < 65 && bs[c] != []
      ensures from <= b < 65 && bs[b] != [] && forall c :: from <= c < b ==> bs[c] == []
    {
      b := from;
      while !mask[b]
        invariant from <= b < 65 && (forall c :: from <= c < b ==> bs[c] == [])
        invariant exists c :: b <= c < 65 && bs[c] != []
        decreases 65 - b
      {
        b := b + 1;
      }
    }

    // The least key above last: cached, or found in the lowest bucket above 0.
    method MinAbove() returns (m: int)
      requires Valid() && exists c :: 1 <= c < 65 && bs[c] != []
      modifies this`cmin, this`cminOk
      ensures Valid() && cminOk && m == cmin && LeastAbove(bs, m)
    {
      if !cminOk {
        var b := LowestUsed(1);
        var s := bs[b];
        cmin := KEYS - 1;
        for i := 0 to |s|
          invariant !cminOk && cmin <= KEYS - 1
          invariant forall j :: 0 <= j < i ==> cmin <= s[j].deadline
          invariant cmin == KEYS - 1 || exists j :: 0 <= j < i && s[j].deadline == cmin
        {
          if s[i].deadline < cmin {
            cmin := s[i].deadline;
          }
        }
        Attained(s, cmin);
        LowestHasLeast(bs, last, b, cmin);
        cminOk := true;
      }
      m := cmin;
    }

    // Empty bucket b and move last to the least key, which is in it.
    method Uproot(b: nat) returns (l: seq<Slot>)
      requires Placed() && 1 <= b < 65 && bs[b] != [] && (forall c :: 0 <= c < b ==> bs[c] == [])
        && LeastAbove(bs, cmin)
      modifies this`bs, this`mask, this`last
      ensures Placed() && last == cmin > old(last) && l == old(bs)[b] && bs == old(bs)[b := []]
      ensures Falling(l, last, b) && multiset(Flat(bs)) + multiset(l) == old(Contents())
    {
      l := bs[b];
      LeastInLowest(bs, last, b, cmin);
      LayoutMoves(bs, last, b, cmin);
      AllFall(bs, last, b, cmin);
      FlatUpdate(bs, b, []);
      RecordedClears(bs, mask, idx, b);
      last := cmin;
      bs := bs[b := []];
      mask := mask[b := false];
    }

    // Move last to the least key and deal its bucket out again; every entry
    // lands in a strictly lower bucket.
    method Deal(b: nat)
      requires Placed() && 1 <= b < 65 && bs[b] != [] && (forall c :: 0 <= c < b ==> bs[c] == [])
        && LeastAbove(bs, cmin)
      modifies this`bs, this`mask, this`idx, this`last
      ensures Placed() && last == cmin > old(last) && bs[0] != [] && (forall x :: x in bs[0] ==> x.deadline == last)
      ensures Contents() == old(Contents())
      ensures bs[b] == [] && forall c :: b < c < 65 ==> bs[c] == old(bs)[c]
    {
      var l := Uproot(b);
      DealtIs(bs, last, l, b);
      DealOut(l);
    }

    method DealOut(l: seq<Slot>)
      requires Placed() && forall x :: x in l ==> InRange(x)
      modifies this`bs, this`mask, this`idx
      ensures Placed() && bs == Dealt(old(bs), last, l)
    {
      for i := 0 to |l|
        invariant Placed() && bs == Dealt(old(bs), last, l[..i])
      {
        assert l[i] in l;
        assert l[..i + 1][..i] == l[..i];
        var _ := Insert(l[i]);
      }
      assert l[..|l|] == l;
    }

    // Bring the least entries into bucket 0, if they are due.
    method Surface(now: int) returns (found: bool)
      requires Valid()
      modifies this
      ensures Valid() && Brought(old(View()), View(), now)
      ensures found ==> bs[0] != [] && Heads(View(), bs[0][0])
      ensures !found ==> NoneDue(Contents(), now)
    {
      if mask == seq(65, i => false) {
        FlatEmpty(bs);
        return false;
      }
      found := true;
      if !mask[0] {
        found := Raise(now);
      }
      if found {
        HeadLeast(bs, last);
      }
    }

    // Bucket 0 is empty: the least key above last is the least of all.
    method LeastKey() returns (m: int)
      requires Valid() && !mask[0] && mask != seq(65, i => false)
      modifies this`cmin, this`cminOk
      ensures Valid() && Exact(View()) && LeastAbove(bs, cmin) && m == cmin >= 0
      ensures (exists x :: x in Contents() && x.deadline == m) && forall x :: x in Contents() ==> m <= x.deadline
      ensures bs[0] == [] && exists c :: 0 <= c < 65 && bs[c] != []
    {
      SomeAbove(bs, mask, idx);
      m := MinAbove();
      NothingBelow(bs, m);
      EmptyExact(bs, last);
    }

    // Deal out the bucket of the least key.
    method Lift()
      requires Placed() && LeastAbove(bs, cmin) && bs[0] == [] && exists c :: 0 <= c < 65 && bs[c] != []
      modifies this`bs, this`mask, this`idx, this`last, this`cminOk
      ensures Placed() && Exact(View()) && !cminOk && last == cmin > old(last) && bs[0] != []
      ensures Contents() == old(Contents())
    {
      var b := LowestUsed(0);
      Deal(b);
      ExactIff(bs, last);
      cminOk := false;
    }

    // Bucket 0 is empty: move the least entries there, if they are due.
    method Raise(now: int) returns (found: bool)
      requires Valid() && !mask[0] && mask != seq(65, i => false)
      modifies this
      ensures Valid() && Brought(old(View()), View(), now) && Exact(View())
      ensures if found then bs[0] != [] else NoneDue(Contents(), now)
    {
      var m := LeastKey();
      if m > now {
        return false;
      }
      Lift();
      return true;
    }

    // Take the next entry if it is due.
    method PopDue(now: int) returns (r: Option<Slot>)
      requires Valid()
      modifies this
      ensures Valid() && PopStep(old(View()), now, View(), r)
    {
      var found := Surface(now);
      if !found {
        NonePops(old(View()), View(), now);
        return None;
      }
      HeadPops(old(View()), View(), now, bs[0][0]);
      r := TakeHead(now);
    }

    method TakeHead(now: int) returns (r: Option<Slot>)
      requires Valid() && bs[0] != []
      modifies this`bs, this`mask, this`cminOk
      ensures Valid() && r == if old(bs)[0][0].deadline <= now then Some(old(bs)[0][0]) else None
      ensures View() == if r.Some? then Less(old(View()), r.value) else old(View())
    {
      var t := bs[0][0];
      if t.deadline > now {
        return None;
      }
      Remove(0, 0, t);
      return Some(t);
    }

    // The least key if nothing was pushed below last; with a timer below it,
    // last itself, which is already past.
    method Next() returns (d: int)
      requires Valid()
      modifies this`cmin, this`cminOk
      ensures Valid() && View() == old(View())
      ensures d == -1 <==> Contents() == multiset{}
      ensures Exact(View()) && d != -1 ==>
        (exists x :: x in Contents() && x.deadline == d) && forall x :: x in Contents() ==> d <= x.deadline
      ensures !Exact(View()) ==> d == last
    {
      if mask == seq(65, i => false) {
        FlatEmpty(bs);
        return -1;
      }
      if mask[0] {
        HeadLeast(bs, last);
        assert bs[0][0] in Contents();
        return last;
      }
      d := LeastKey();
    }

    method Holds(x: Slot) returns (there: bool)
      requires Valid()
      ensures there <==> x in Contents()
    {
      there := x in idx && idx[x] < 65 && x in bs[idx[x]];
      if there {
        FlatIn(bs, idx[x], x);
        assert x in Flat(bs);
      }
      if x in Contents() {
        assert x in Flat(bs);
        var c := FlatHas(bs, x);
      }
    }
  }

  // A run over the first k operations that has come to s.
  ghost predicate Reached(run: seq<State>, ops: seq<Op>, outs: seq<Option<Slot>>, k: nat, s: State)
    requires k <= |ops|
  {
    IsRun(run, ops[..k], outs) && run[k] == s
  }

  lemma RunGrows(
    run: seq<State>, ops: seq<Op>, outs: seq<Option<Slot>>, k: nat, s: State, next: State, out: Option<Slot>)
    requires k < |ops| && Reached(run, ops, outs, k, s) && Step(s, ops[k], next, out)
    ensures Reached(run + [next], ops, outs + [out], k + 1, next)
  {
    var r, o, p := run + [next], outs + [out], ops[..k + 1];
    forall j | 0 <= j < |p| ensures Step(r[j], p[j], r[j + 1], o[j]) {
      if j < k {
        assert Step(run[j], ops[..k][j], run[j + 1], outs[j]);
      }
    }
  }

  // The code run over any operations is such a run.
  method Replay(ops: seq<Op>) returns (outs: seq<Option<Slot>>)
    ensures exists run :: IsRun(run, ops, outs)
  {
    var h := new Radix();
    ghost var run := [h.View()];
    outs := [];
    for k := 0 to |ops|
      invariant fresh(h) && h.Valid() && Reached(run, ops, outs, k, h.View())
    {
      ghost var before := h.View();
      var out := Do(h, ops[k]);
      RunGrows(run, ops, outs, k, before, h.View(), out);
      outs, run := outs + [out], run + [h.View()];
    }
    assert ops[..|ops|] == ops;
    assert IsRun(run, ops, outs);
  }

  method Do(h: Radix, op: Op) returns (out: Option<Slot>)
    requires h.Valid()
    modifies h
    ensures h.Valid() && Step(old(h.View()), op, h.View(), out)
  {
    out := None;
    match op
    case Push(x) =>
      if InRange(x) {
        h.Push(x);
      }
    case Cancel(x) =>
      var there := h.Holds(x);
      if there {
        h.Cancel(x);
      }
    case Pop(now) =>
      out := h.PopDue(now);
  }

  // The least entry above last is in the lowest bucket.
  lemma LeastInLowest(bs: seq<seq<Slot>>, last: nat, b: nat, m: int)
    requires Layout(bs, last) && 1 <= b < 65 && bs[b] != [] && (forall c :: 0 <= c < b ==> bs[c] == [])
      && LeastAbove(bs, m)
    ensures last < m < KEYS && (exists x :: x in bs[b] && x.deadline == m)
    ensures forall x :: x in bs[b] ==> m <= x.deadline && Diff(x.deadline, last) == b == Diff(m, last)
  {
    var c, x :| 1 <= c < |bs| && x in bs[c] && x.deadline == m;
    if c != b {
      assert bs[b][0] in bs[b];
      LowerBucket(last, bs[b][0].deadline, m);
    }
  }

  lemma SomeAbove(bs: seq<seq<Slot>>, mask: seq<bool>, idx: map<Slot, nat>)
    requires |bs| == 65 && Recorded(bs, mask, idx) && mask != seq(65, i => false) && !mask[0]
    ensures bs[0] == [] && exists c :: 1 <= c < 65 && bs[c] != []
  {
    var c :| 0 <= c < 65 && mask[c] != seq(65, i => false)[c];
    assert bs[c] != [];
  }

  lemma NothingBelow(bs: seq<seq<Slot>>, m: int)
    requires LeastAbove(bs, m) && bs[0] == []
    ensures exists x :: x in multiset(Flat(bs)) && x.deadline == m
    ensures forall y :: y in multiset(Flat(bs)) ==> m <= y.deadline
  {
    var c, x :| 1 <= c < |bs| && x in bs[c] && x.deadline == m;
    FlatIn(bs, c, x);
    assert x in multiset(Flat(bs));
    forall y | y in multiset(Flat(bs)) ensures m <= y.deadline {
      assert y in Flat(bs);
      var i := FlatHas(bs, y);
    }
  }

  // The head of bucket 0 is a least entry if nothing was pushed below last.
  ghost predicate Heads(s: State, x: Slot) {
    x in s.contents && x.deadline <= s.last && (Exact(s) ==> x.deadline == s.last)
  }

  lemma HeadLeast(bs: seq<seq<Slot>>, last: nat)
    requires Layout(bs, last) && bs[0] != []
    ensures Heads(State(multiset(Flat(bs)), last), bs[0][0])
  {
    ExactIff(bs, last);
    assert bs[0][0] in bs[0];
    FlatIn(bs, 0, bs[0][0]);
    assert bs[0][0] in Flat(bs);
  }

  // s is a with the least entries brought into bucket 0 if they are due.
  ghost predicate Brought(a: State, s: State, now: int) {
    s.contents == a.contents && (s.last == a.last || a.last < s.last <= now) && (Exact(a) ==> Exact(s))
  }

  function Less(s: State, x: Slot): State {
    s.(contents := s.contents - multiset{x})
  }

  // So popping the head if it is due is the pop of a multiset.
  lemma HeadPops(a: State, s: State, now: int, x: Slot)
    requires Brought(a, s, now) && Heads(s, x)
    ensures if x.deadline <= now then PopStep(a, now, Less(s, x), Some(x)) else PopStep(a, now, s, None)
  {
  }

  lemma NonePops(a: State, s: State, now: int)
    requires Brought(a, s, now) && NoneDue(s.contents, now)
    ensures PopStep(a, now, s, None)
  {
  }

  lemma EmptyExact(bs: seq<seq<Slot>>, last: nat)
    requires Layout(bs, last) && bs[0] == []
    ensures Exact(State(multiset(Flat(bs)), last))
  {
    ExactIff(bs, last);
  }

  lemma Attained(s: seq<Slot>, m: int)
    requires s != [] && (forall x :: x in s ==> x.deadline <= KEYS - 1)
    requires forall j :: 0 <= j < |s| ==> m <= s[j].deadline
    requires m == KEYS - 1 || exists j :: 0 <= j < |s| && s[j].deadline == m
    ensures (exists x :: x in s && x.deadline == m) && forall x :: x in s ==> m <= x.deadline
  {
    if m == KEYS - 1 {
      assert s[0] in s && s[0].deadline == m;
    } else {
      var j :| 0 <= j < |s| && s[j].deadline == m;
      assert s[j] in s;
    }
  }
}
