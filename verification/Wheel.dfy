/**
 * The hierarchical timing wheel (bench/bench_timerq.c, wh): nine levels of 64
 * slots, level l holding the timers whose tick first differs from the current
 * one in base-64 digit l.  Slot sl of level l is bucket 64 * l + sl.
 */
module Wheel {
  import opened ArraySeq
  import opened Bits
  import opened FlatSeq
  import opened HeapSeq
  import opened SlotBuckets
  import opened Wrappers

  const LEVELS: nat := 9
  const SLOTS: nat := 576
  const TICKS: nat := 0x20_0000_0000_0000   // ticks of 1024 ns in 63 bits of ns

  function Tick(x: Slot): int {
    x.deadline / 1024
  }

  predicate InRange(x: Slot) {
    0 <= x.deadline && Tick(x) < TICKS
  }

  // ---- Base-64 digits ----

  // a without its l lowest digits.
  function Hi(a: nat, l: nat): nat {
    if l == 0 then a else Hi(a / 64, l - 1)
  }

  // x followed by l zero digits.
  function Up(x: nat, l: nat): nat {
    if l == 0 then x else 64 * Up(x, l - 1)
  }

  // The highest digit in which two ticks differ, 0 if they are equal.
  function Level(a: nat, b: nat): nat {
    if a / 64 == b / 64 then 0 else 1 + Level(a / 64, b / 64)
  }

  lemma {:induction false} LevelIsDigit(a: nat, b: nat)
    ensures Xor(a, b) == 0 ==> Level(a, b) == 0
    ensures Xor(a, b) != 0 ==> Level(a, b) == (BitLength(Xor(a, b)) - 1) / 6
  {
    XorZero(a, b);
    XorDigit(a, b);
    XorZero(a / 64, b / 64);
    if a / 64 != b / 64 {
      LengthDigit(Xor(a, b));
      LevelIsDigit(a / 64, b / 64);
    } else if a != b {
      LengthSmall(Xor(a, b));
    }
  }

  lemma {:induction false} HiNext(a: nat, l: nat)
    ensures Hi(a, l + 1) == Hi(a, l) / 64
    decreases l
  {
    if l > 0 {
      HiNext(a / 64, l - 1);
    }
  }

  lemma {:induction false} HiMono(a: nat, b: nat, l: nat)
    requires a <= b
    ensures Hi(a, l) <= Hi(b, l)
    decreases l
  {
    if l > 0 {
      HiMono(a / 64, b / 64, l - 1);
    }
  }

  lemma {:induction false} HiAgree(a: nat, b: nat, l: nat, m: nat)
    requires Hi(a, l) == Hi(b, l) && l <= m
    ensures Hi(a, m) == Hi(b, m)
    decreases m
  {
    if l < m {
      HiAgree(a, b, l, m - 1);
      HiNext(a, m - 1);
      HiNext(b, m - 1);
    }
  }

  lemma {:induction false} UpDiv(x: nat, l: nat)
    requires l > 0
    ensures Up(x, l) / 64 == Up(x, l - 1)
  {
  }

  lemma {:induction false} HiUp(x: nat, l: nat)
    ensures Hi(Up(x, l), l) == x
    decreases l
  {
    if l > 0 {
      UpDiv(x, l);
      HiUp(x, l - 1);
    }
  }

  // Zeroing the low digits does not raise a number.
  lemma {:induction false} UpHi(a: nat, l: nat)
    ensures Up(Hi(a, l), l) <= a
    decreases l
  {
    if l > 0 {
      UpHi(a / 64, l - 1);
    }
  }

  lemma {:induction false} LevelIs(a: nat, b: nat)
    ensures var l := Level(a, b);
      Hi(a, l + 1) == Hi(b, l + 1) && (l > 0 ==> Hi(a, l) != Hi(b, l))
    decreases a + b
  {
    if a / 64 != b / 64 {
      LevelIs(a / 64, b / 64);
    }
  }

  // Agreeing from digit l on puts the difference below level l.
  lemma {:induction false} LevelBelow(a: nat, b: nat, l: nat)
    requires l > 0 && Hi(a, l) == Hi(b, l)
    ensures Level(a, b) < l
    decreases l
  {
    if a / 64 != b / 64 {
      LevelBelow(a / 64, b / 64, l - 1);
    }
  }

  lemma LevelFits(a: nat, b: nat)
    requires a < TICKS && b < TICKS
    ensures Level(a, b) < LEVELS
  {
    HiSmall(a);
    HiSmall(b);
    LevelBelow(a, b, LEVELS);
  }

  lemma HiThree(a: nat)
    ensures Hi(a, 3) == a / 262144
  {
    assert Hi(a, 3) == Hi(a / 64, 2);
    assert Hi(a / 64, 2) == Hi(a / 64 / 64, 1);
  }

  lemma HiSmall(a: nat)
    requires a < TICKS
    ensures Hi(a, 9) == 0
  {
    HiThree(a);
    HiThree(a / 262144);
    HiThree(a / 262144 / 262144);
    HiTwice(a, 3, 3);
    HiTwice(a, 6, 3);
  }

  lemma {:induction false} HiTwice(a: nat, l: nat, m: nat)
    ensures Hi(Hi(a, l), m) == Hi(a, l + m)
    decreases l
  {
    if l > 0 {
      HiTwice(a / 64, l - 1, m);
    }
  }

  // ---- Where a timer belongs ----

  // The tick of level-0 slot s.
  function TickOf(cur: nat, s: nat): nat {
    cur / 64 * 64 + s
  }

  // Bucket pos is right for x: at level 0 its slot's tick is the timer's own,
  // or the current one if the timer was already late when it came; above, the
  // slot is the timer's digit and the levels say where it differs.
  predicate Fits(cur: nat, pos: nat, x: Slot) {
    var l, s := pos / 64, pos % 64;
    && InRange(x)
    && if l == 0 then
         TickOf(cur, s) >= cur && (Tick(x) == TickOf(cur, s) || (Tick(x) < cur == TickOf(cur, s)))
       else
         Hi(Tick(x), l + 1) == Hi(cur, l + 1) && Hi(Tick(x), l) > Hi(cur, l) && Hi(Tick(x), l) % 64 == s
  }

  predicate Layout(bs: seq<seq<Slot>>, cur: nat) {
    && |bs| == SLOTS && cur < TICKS
    && forall pos, x :: 0 <= pos < SLOTS && x in bs[pos] ==> Fits(cur, pos, x)
  }

  // The bucket wh_ins chooses.
  function Home(cur: nat, x: Slot): nat
    requires 0 <= x.deadline
  {
    var tk := if Tick(x) < cur then cur else Tick(x);
    var l := Level(tk, cur);
    64 * l + Hi(tk, l) % 64
  }

  lemma HomeFits(cur: nat, x: Slot)
    requires cur < TICKS && InRange(x)
    ensures Home(cur, x) < SLOTS && Fits(cur, Home(cur, x), x)
  {
    var tk := if Tick(x) < cur then cur else Tick(x);
    var l := Level(tk, cur);
    LevelFits(tk, cur);
    LevelIs(tk, cur);
    HiMono(cur, tk, l);
    assert Home(cur, x) / 64 == l && Home(cur, x) % 64 == Hi(tk, l) % 64;
    if l == 0 {
      assert tk == tk / 64 * 64 + tk % 64;
    } else {
      assert tk == Tick(x);
    }
  }

  // A timer above level 0 lies past the current block of 64 ticks.
  lemma {:induction false} PastBlock(cur: nat, tk: nat, l: nat)
    requires l >= 1 && Hi(tk, l) > Hi(cur, l)
    ensures tk / 64 > cur / 64
  {
    if tk / 64 <= cur / 64 {
      HiMono(tk / 64, cur / 64, l - 1);
    }
  }

  // ---- Moving the current tick ----

  // To the lowest used slot of level 0.
  lemma AdvanceFits(cur: nat, s: nat, pos: nat, x: Slot)
    requires s < 64 && TickOf(cur, s) >= cur && Fits(cur, pos, x) && (pos < 64 ==> pos >= s)
    ensures Fits(TickOf(cur, s), pos, x)
  {
    var t := TickOf(cur, s);
    assert t / 64 == cur / 64;
    var l := pos / 64;
    if l > 0 {
      assert Hi(t, 1) == Hi(cur, 1);
      HiAgree(t, cur, 1, l);
      HiAgree(t, cur, 1, l + 1);
    }
  }

  // The first tick of slot s of level l.
  function Start(cur: nat, l: nat, s: nat): nat {
    Up(Hi(cur, l + 1) * 64 + s, l)
  }

  lemma StartDigits(cur: nat, l: nat, s: nat)
    requires s < 64
    ensures Hi(Start(cur, l, s), l) == Hi(cur, l + 1) * 64 + s
    ensures Hi(Start(cur, l, s), l + 1) == Hi(cur, l + 1)
  {
    HiUp(Hi(cur, l + 1) * 64 + s, l);
    HiNext(Start(cur, l, s), l);
  }

  // With nothing below level l and slot s the lowest used there: the timers
  // of other slots stay where they are.
  lemma CascadeFits(cur: nat, l: nat, s: nat, pos: nat, x: Slot)
    requires 1 <= l && s < 64 && Fits(cur, pos, x) && pos > 64 * l + s
    ensures Fits(Start(cur, l, s), pos, x)
  {
    var m, t := pos / 64, Start(cur, l, s);
    StartDigits(cur, l, s);
    HiAgree(t, cur, l + 1, m + 1);
    if m == l {
      HiNext(Tick(x), l);
      assert Hi(Tick(x), l) == Hi(Tick(x), l) / 64 * 64 + Hi(Tick(x), l) % 64;
    } else {
      HiAgree(t, cur, l + 1, m);
    }
  }

  // The timers of that slot are not before its start, and fall at least a level.
  lemma CascadeFalls(cur: nat, l: nat, s: nat, x: Slot)
    requires 1 <= l && s < 64 && Fits(cur, 64 * l + s, x)
    ensures Start(cur, l, s) <= Tick(x) && Home(Start(cur, l, s), x) < 64 * l
  {
    var t := Start(cur, l, s);
    assert (64 * l + s) / 64 == l && (64 * l + s) % 64 == s;
    StartDigits(cur, l, s);
    HiNext(Tick(x), l);
    assert Hi(Tick(x), l) == Hi(Tick(x), l) / 64 * 64 + Hi(Tick(x), l) % 64;
    UpHi(Tick(x), l);
    LevelBelow(Tick(x), t, l);
    assert Hi(Tick(x), Level(Tick(x), t)) % 64 < 64;
  }

  // The start of the lowest used slot is no later than any timer above level 0.
  lemma StartEarliest(cur: nat, l: nat, s: nat, pos: nat, x: Slot)
    requires 1 <= l && s < 64 && Fits(cur, pos, x) && pos >= 64 * l + s
    ensures Start(cur, l, s) <= Tick(x)
  {
    if pos == 64 * l + s {
      CascadeFalls(cur, l, s, x);
    } else {
      CascadeFits(cur, l, s, pos, x);
      var t, m := Start(cur, l, s), pos / 64;
      if Tick(x) < t {
        HiMono(Tick(x), t, m);
      }
    }
  }

  // ---- A timer has one place ----

  lemma {:induction false} LevelExact(a: nat, b: nat, l: nat)
    requires Hi(a, l + 1) == Hi(b, l + 1) && (l > 0 ==> Hi(a, l) != Hi(b, l))
    ensures Level(a, b) == l
    decreases l
  {
    if l == 0 {
      HiNext(a, 0);
      HiNext(b, 0);
    } else {
      assert a / 64 != b / 64;
      LevelExact(a / 64, b / 64, l - 1);
    }
  }

  lemma FitsHome(cur: nat, pos: nat, x: Slot)
    requires Fits(cur, pos, x)
    ensures pos == Home(cur, x)
  {
    var tk := if Tick(x) < cur then cur else Tick(x);
    var l := pos / 64;
    if l == 0 {
      HiNext(tk, 0);
      HiNext(cur, 0);
      LevelExact(tk, cur, 0);
    } else {
      if Tick(x) < cur {
        HiMono(Tick(x), cur, l);
      }
      LevelExact(tk, cur, l);
    }
  }

  lemma LayoutTakes(bs: seq<seq<Slot>>, cur: nat, x: Slot)
    requires Layout(bs, cur) && InRange(x)
    ensures var b := Home(cur, x); b < SLOTS && Layout(bs[b := [x] + bs[b]], cur)
    ensures forall c :: 0 <= c < |bs| && x in bs[c] ==> c == Home(cur, x)
  {
    HomeFits(cur, x);
    forall c | 0 <= c < |bs| && x in bs[c] ensures c == Home(cur, x) {
      FitsHome(cur, c, x);
    }
  }

  lemma LayoutLoses(bs: seq<seq<Slot>>, cur: nat, b: nat, k: nat)
    requires Layout(bs, cur) && b < SLOTS && k < |bs[b]|
    ensures Layout(bs[b := Cut(bs[b], k)], cur)
  {
    CutIs(bs[b], k);
  }

  // Buckets [lo, hi) are empty.
  predicate Unused(bs: seq<seq<Slot>>, lo: nat, hi: nat) {
    hi <= |bs| && forall c :: lo <= c < hi ==> bs[c] == []
  }

  lemma AdvanceLayout(bs: seq<seq<Slot>>, cur: nat, s: nat)
    requires Layout(bs, cur) && s < 64 && bs[s] != [] && Unused(bs, 0, s)
    ensures cur <= TickOf(cur, s) && Layout(bs, TickOf(cur, s))
  {
    assert bs[s][0] in bs[s];
    assert Fits(cur, s, bs[s][0]);
    forall pos, x | 0 <= pos < SLOTS && x in bs[pos] ensures Fits(TickOf(cur, s), pos, x) {
      AdvanceFits(cur, s, pos, x);
    }
  }

  lemma CascadeLayout(bs: seq<seq<Slot>>, cur: nat, l: nat, s: nat)
    requires Layout(bs, cur) && 1 <= l < LEVELS && s < 64 && bs[64 * l + s] != [] && Unused(bs, 0, 64 * l + s)
    ensures cur < Start(cur, l, s) && Layout(bs[64 * l + s := []], Start(cur, l, s))
    ensures forall x :: x in bs[64 * l + s] ==>
      Start(cur, l, s) <= Tick(x) < TICKS && Home(Start(cur, l, s), x) < 64 * l
  {
    var b, t := 64 * l + s, Start(cur, l, s);
    forall x | x in bs[b] ensures t <= Tick(x) && Home(t, x) < 64 * l {
      CascadeFalls(cur, l, s, x);
    }
    var y := bs[b][0];
    assert y in bs[b];
    assert Fits(cur, b, y);
    StartDigits(cur, l, s);
    HiNext(Tick(y), l);
    assert Hi(Tick(y), l) == Hi(Tick(y), l) / 64 * 64 + Hi(Tick(y), l) % 64;
    if t <= cur {
      HiMono(t, cur, l);
    }
    var cs := bs[b := []];
    forall pos, x: Slot | 0 <= pos < SLOTS && x in cs[pos] ensures Fits(t, pos, x) {
      assert x in bs[pos];
      CascadeFits(cur, l, s, pos, x);
    }
  }

  // ---- Dealing a slot out ----

  predicate Known(l: seq<Slot>) {
    forall x :: x in l ==> InRange(x)
  }

  function Dealt(bs: seq<seq<Slot>>, cur: nat, l: seq<Slot>): (r: seq<seq<Slot>>)
    requires |bs| == SLOTS && cur < TICKS && Known(l)
    ensures |r| == SLOTS
  {
    if l == [] then bs
    else
      var x := l[|l| - 1];
      assert x in l;
      HomeFits(cur, x);
      var r := Dealt(bs, cur, l[..|l| - 1]);
      r[Home(cur, x) := [x] + r[Home(cur, x)]]
  }

  lemma {:induction false} DealtSame(bs: seq<seq<Slot>>, cur: nat, l: seq<Slot>)
    requires |bs| == SLOTS && cur < TICKS && Known(l)
    ensures multiset(Flat(Dealt(bs, cur, l))) == multiset(Flat(bs)) + multiset(l)
  {
    if l != [] {
      var t, x := l[..|l| - 1], l[|l| - 1];
      assert x in l;
      HomeFits(cur, x);
      DealtSame(bs, cur, t);
      FlatGains(Dealt(bs, cur, t), Home(cur, x), x);
      AppendSame(multiset(Flat(bs)), t, x);
      assert l == t + [x];
    }
  }

  // Everything dealt lies below bucket b; from b on nothing changes.
  lemma {:induction false} DealtWhere(bs: seq<seq<Slot>>, cur: nat, l: seq<Slot>, b: nat)
    requires |bs| == SLOTS && cur < TICKS && Known(l) && b <= SLOTS && forall x :: x in l ==> Home(cur, x) < b
    ensures forall c :: b <= c < SLOTS ==> Dealt(bs, cur, l)[c] == bs[c]
    ensures l != [] ==> exists c :: 0 <= c < b && Dealt(bs, cur, l)[c] != []
  {
    if l != [] {
      assert l[|l| - 1] in l;
      DealtWhere(bs, cur, l[..|l| - 1], b);
      var c := Home(cur, l[|l| - 1]);
      assert Dealt(bs, cur, l)[c] != [];
    }
  }

  // ---- Due or not ----

  // The tick at which the wheel holds a timer due: its own, or the current one
  // if that has passed it by.
  function Release(cur: nat, x: Slot): int {
    if Tick(x) < cur then cur else Tick(x)
  }

  // Slot s, the lowest used of level 0, holds the timers released first.
  lemma FirstReleased(bs: seq<seq<Slot>>, cur: nat, s: nat)
    requires Layout(bs, cur) && s < 64 && Unused(bs, 0, s)
    ensures forall x :: x in multiset(Flat(bs)) ==> TickOf(cur, s) <= Release(cur, x)
    ensures forall x :: x in bs[s] ==> TickOf(cur, s) == Release(cur, x)
  {
    forall x | x in multiset(Flat(bs)) ensures TickOf(cur, s) <= Release(cur, x) {
      assert x in Flat(bs);
      var pos := FlatHas(bs, x);
      assert Fits(cur, pos, x);
      if pos >= 64 {
        PastBlock(cur, Tick(x), pos / 64);
      }
    }
    forall x | x in bs[s] ensures TickOf(cur, s) == Release(cur, x) {
      assert Fits(cur, s, x);
    }
  }

  ghost predicate AllFrom(m: multiset<Slot>, tick: nat) {
    forall x :: x in m ==> tick <= Tick(x)
  }

  // With level 0 empty, no timer is before the start of the lowest used slot.
  lemma StartFirst(bs: seq<seq<Slot>>, cur: nat, l: nat, s: nat)
    requires Layout(bs, cur) && 1 <= l && s < 64 && Unused(bs, 0, 64 * l + s)
    ensures AllFrom(multiset(Flat(bs)), Start(cur, l, s))
  {
    forall x | x in multiset(Flat(bs)) ensures Start(cur, l, s) <= Tick(x) {
      assert x in Flat(bs);
      var pos := FlatHas(bs, x);
      StartEarliest(cur, l, s, pos, x);
    }
  }

  // No timer comes due before tick nt.
  ghost predicate NoneReleased(m: multiset<Slot>, cur: nat, nt: int) {
    forall x :: x in m ==> nt <= Release(cur, x)
  }

  lemma NoneAtZero(bs: seq<seq<Slot>>, cur: nat, s: nat, nt: int)
    requires Layout(bs, cur) && s < 64 && Unused(bs, 0, s) && TickOf(cur, s) >= nt
    ensures NoneReleased(multiset(Flat(bs)), cur, nt)
  {
    FirstReleased(bs, cur, s);
  }

  lemma NoneAbove(m: multiset<Slot>, cur: nat, start: nat, nt: int)
    requires AllFrom(m, start) && start >= nt
    ensures NoneReleased(m, cur, nt)
  {
  }

  // ---- The lowest used slot ----

  predicate IsLowest(bs: seq<seq<Slot>>, b: nat) {
    b < SLOTS && |bs| == SLOTS && bs[b] != [] && Unused(bs, 0, b)
  }

  function SlotStart(cur: nat, b: nat): nat {
    if b < 64 then TickOf(cur, b) else Start(cur, b / 64, b % 64)
  }

  // Its first tick is past.
  ghost predicate Ripe(bs: seq<seq<Slot>>, cur: nat, now: int) {
    exists b :: IsLowest(bs, b) && SlotStart(cur, b) < now / 1024
  }

  // Some timer is released within the current block of 64 ticks.
  ghost predicate InBlock(m: multiset<Slot>, cur: nat) {
    exists x :: x in m && Release(cur, x) / 64 == cur / 64
  }

  // No timer is released before the start of the lowest used slot, and with one
  // in the current block, one is released exactly then.
  lemma NextExact(bs: seq<seq<Slot>>, cur: nat, b: nat)
    requires Layout(bs, cur) && IsLowest(bs, b)
    ensures multiset(Flat(bs)) != multiset{}
    ensures NoneReleased(multiset(Flat(bs)), cur, SlotStart(cur, b))
    ensures InBlock(multiset(Flat(bs)), cur) ==>
      exists x :: x in multiset(Flat(bs)) && Release(cur, x) == SlotStart(cur, b)
  {
    var y := bs[b][0];
    assert y in bs[b];
    FlatIn(bs, b, y);
    assert y in multiset(Flat(bs));
    if b < 64 {
      FirstReleased(bs, cur, b);
    } else {
      StartFirst(bs, cur, b / 64, b % 64);
      forall x | x in multiset(Flat(bs)) ensures Release(cur, x) / 64 != cur / 64 {
        assert x in Flat(bs);
        var pos := FlatHas(bs, x);
        assert Fits(cur, pos, x);
        PastBlock(cur, Tick(x), pos / 64);
      }
    }
  }

  // ---- The wheel as a queue of timers ----

  datatype State = State(contents: multiset<Slot>, cur: nat)

  datatype Op = Push(x: Slot) | Cancel(x: Slot) | Pop(now: int)

  // The current tick moves, if at all, past no timer and not up to the clock.
  ghost predicate Moves(s: State, now: int, cur: nat) {
    cur == s.cur || (s.cur < cur < now / 1024 && AllFrom(s.contents, cur))
  }

  lemma MovesOn(s: State, now: int, cur: nat, start: nat)
    requires Moves(s, now, cur) && cur < start < now / 1024 && AllFrom(s.contents, start)
    ensures Moves(s, now, start)
  {
  }

  ghost predicate PopStep(s: State, now: int, s': State, out: Option<Slot>) {
    match out
    case Some(x) =>
      && x in s.contents && Release(s.cur, x) < now / 1024
      && (forall y :: y in s.contents ==> Release(s.cur, x) <= Release(s.cur, y))
      && s' == State(s.contents - multiset{x}, Release(s.cur, x))
    case None =>
      && NoneReleased(s.contents, s.cur, now / 1024)
      && s'.contents == s.contents && Moves(s, now, s'.cur)
  }

  // Pushing a timer outside the clock's range and cancelling one that is not
  // there are skipped.
  ghost predicate Step(s: State, op: Op, s': State, out: Option<Slot>) {
    match op
    case Push(x) => s' == (if InRange(x) then s.(contents := s.contents + multiset{x}) else s) && out == None
    case Cancel(x) => s' == (if x in s.contents then s.(contents := s.contents - multiset{x}) else s) && out == None
    case Pop(now) => PopStep(s, now, s', out)
  }

  ghost predicate IsRun(run: seq<State>, ops: seq<Op>, outs: seq<Option<Slot>>) {
    && |run| == |ops| + 1 && |outs| == |ops| && run[0] == State(multiset{}, 0)
    && forall k :: 0 <= k < |ops| ==> Step(run[k], ops[k], run[k + 1], outs[k])
  }

  // A timer whose deadline is a whole tick past.
  predicate Overdue(x: Slot, now: int) {
    x.deadline + 1024 <= now
  }

  // A pop never returns a timer early, and returns one exactly when some
  // timer's tick and the current one are both past.
  lemma PopExact(s: State, now: int, s': State, out: Option<Slot>)
    requires PopStep(s, now, s', out)
    ensures out.Some? ==> out.value.deadline < now
    ensures out.Some? <==> exists x :: x in s.contents && Tick(x) < now / 1024 && s.cur < now / 1024
  {
    if out.Some? {
      assert out.value in s.contents && Tick(out.value) < now / 1024;
    }
  }

  // No clock reading before step k is later than `now`.
  predicate ClockAtMost(ops: seq<Op>, k: nat, now: int)
    requires k <= |ops|
  {
    forall j :: 0 <= j < k && ops[j].Pop? ==> ops[j].now <= now
  }

  // While the clock does not go back the current tick stays behind it.
  lemma {:induction false} StaysBehind(run: seq<State>, ops: seq<Op>, outs: seq<Option<Slot>>, k: nat, now: int)
    requires IsRun(run, ops, outs) && k <= |ops| && ClockAtMost(ops, k, now)
    ensures run[k].cur == 0 || run[k].cur < now / 1024
    ensures forall x :: x in run[k].contents ==> 0 <= x.deadline
  {
    if k > 0 {
      StaysBehind(run, ops, outs, k - 1, now);
      assert Step(run[k - 1], ops[k - 1], run[k], outs[k - 1]);
    }
  }

  // In every run, a pop at a clock not behind any earlier one comes back empty
  // only if no timer is a whole tick overdue.
  lemma NeverWithheld(run: seq<State>, ops: seq<Op>, outs: seq<Option<Slot>>, k: nat)
    requires IsRun(run, ops, outs) && k < |ops| && ops[k].Pop? && ClockAtMost(ops, k, ops[k].now)
    ensures outs[k].None? ==> forall x :: x in run[k].contents ==> !Overdue(x, ops[k].now)
  {
    StaysBehind(run, ops, outs, k, ops[k].now);
    assert Step(run[k], ops[k], run[k + 1], outs[k]);
  }

  // A clock that goes back can withhold one: a timer that comes late is held
  // at the current tick.
  lemma ClockBack(run: seq<State>, outs: seq<Option<Slot>>)
    requires IsRun(run, [Push(Slot(5120, 0)), Pop(6144), Push(Slot(0, 1)), Pop(3072)], outs)
    ensures outs[3] == None && Slot(0, 1) in run[3].contents && Overdue(Slot(0, 1), 3072)
  {
    var ops := [Push(Slot(5120, 0)), Pop(6144), Push(Slot(0, 1)), Pop(3072)];
    assert Step(run[0], ops[0], run[1], outs[0]);
    assert Slot(5120, 0) in run[1].contents && Release(0, Slot(5120, 0)) == 5;
    assert Step(run[1], ops[1], run[2], outs[1]);
    assert Step(run[2], ops[2], run[3], outs[2]);
    assert Step(run[3], ops[3], run[4], outs[3]);
  }

  class Timers {
    var bs: seq<seq<Slot>>
    var mask: seq<bool>
    var cur: nat
    var pos: map<Slot, nat>

    ghost predicate Valid()
      reads this
    {
      Layout(bs, cur) && Recorded(bs, mask, pos)
    }

    ghost function Contents(): multiset<Slot>
      reads this
    {
      multiset(Flat(bs))
    }

    ghost function View(): State
      reads this
    {
      State(Contents(), cur)
    }

    constructor ()
      ensures Valid() && View() == State(multiset{}, 0)
    {
      bs, mask, cur, pos := seq(SLOTS, i => []), seq(SLOTS, i => false), 0, map[];
      new;
      FlatEmpty(bs);
    }

    method Insert(x: Slot)
      requires Valid() && InRange(x)
      modifies this`bs, this`mask, this`pos
      ensures Valid() && Home(cur, x) < SLOTS && bs == old(bs)[Home(cur, x) := [x] + old(bs)[Home(cur, x)]]
      ensures Contents() == old(Contents()) + multiset{x}
    {
      LayoutTakes(bs, cur, x);
      RecordedTakes(bs, mask, pos, Home(cur, x), x);
      FlatGains(bs, Home(cur, x), x);
      var tk := x.deadline / 1024;
      if tk < cur {
        tk := cur;
      }
      var lv := LevelOf(tk);
      var b := lv * 64 + Hi(tk, lv) % 64;
      pos := pos[x := b];
      bs := bs[b := [x] + bs[b]];
      mask := mask[b := true];
    }

    // The level from the highest bit in which the two ticks differ.
    method LevelOf(tk: nat) returns (lv: nat)
      ensures lv == Level(tk, cur)
    {
      LevelIsDigit(tk, cur);
      var x := Xor(tk, cur);
      lv := if x != 0 then (BitLength(x) - 1) / 6 else 0;
    }

    method Push(x: Slot)
      requires Valid() && InRange(x)
      modifies this`bs, this`mask, this`pos
      ensures Valid() && View() == old(View()).(contents := old(Contents()) + multiset{x})
    {
      Insert(x);
    }

    method Unlink(b: nat, k: nat)
      requires Valid() && b < SLOTS && k < |bs[b]|
      modifies this`bs, this`mask
      ensures Valid() && Contents() == old(Contents()) - multiset{old(bs)[b][k]}
    {
      LayoutLoses(bs, cur, b, k);
      RecordedLoses(bs, mask, pos, b, k);
      FlatLoses(bs, b, k);
      bs := bs[b := bs[b][..k] + bs[b][k + 1..]];
      mask := mask[b := bs[b] != []];
    }

    method Holds(x: Slot) returns (there: bool)
      requires Valid()
      ensures there <==> x in Contents()
    {
      there := x in pos && pos[x] < SLOTS && x in bs[pos[x]];
      if there {
        FlatIn(bs, pos[x], x);
        assert x in Flat(bs);
      }
      if x in Contents() {
        assert x in Flat(bs);
        var c := FlatHas(bs, x);
      }
    }

    method Cancel(x: Slot)
      requires Valid() && x in Contents()
      modifies this`bs, this`mask
      ensures Valid() && View() == old(View()).(contents := old(Contents()) - multiset{x})
    {
      assert x in Flat(bs);
      ghost var c := FlatHas(bs, x);
      assert pos[x] == c;
      Unlink(pos[x], Find(bs[pos[x]], x));
    }

    // The lowest slot in use, level by level.
    method Lowest() returns (b: nat)
      requires Valid()
      ensures b <= SLOTS && Unused(bs, 0, b) && (b < SLOTS ==> IsLowest(bs, b))
    {
      b := 0;
      while b < SLOTS && !mask[b]
        invariant b <= SLOTS && Unused(bs, 0, b)
      {
        b := b + 1;
      }
    }

    // Move the current tick to the start of slot s of level l and deal its
    // timers out; each lands on a lower level.
    method Cascade(l: nat, s: nat)
      requires Valid() && 1 <= l < LEVELS && s < 64 && bs[64 * l + s] != [] && Unused(bs, 0, 64 * l + s)
      modifies this
      ensures Valid() && cur == Start(old(cur), l, s) > old(cur) && Contents() == old(Contents())
      ensures exists c :: 0 <= c < 64 * l && bs[c] != []
      ensures bs[64 * l + s] == [] && forall c :: 64 * l + s < c < SLOTS ==> bs[c] == old(bs)[c]
    {
      var list := Uproot(l, s);
      DealtSame(bs, cur, list);
      DealtWhere(bs, cur, list, 64 * l);
      DealOut(list);
    }

    // Empty the slot and move the current tick to its start.
    method Uproot(l: nat, s: nat) returns (list: seq<Slot>)
      requires Valid() && 1 <= l < LEVELS && s < 64 && bs[64 * l + s] != [] && Unused(bs, 0, 64 * l + s)
      modifies this`bs, this`mask, this`cur
      ensures Valid() && cur == Start(old(cur), l, s) > old(cur)
      ensures list == old(bs)[64 * l + s] && bs == old(bs)[64 * l + s := []]
      ensures Known(list) && (forall x :: x in list ==> Home(cur, x) < 64 * l)
      ensures multiset(Flat(bs)) + multiset(list) == old(Contents())
    {
      var b := 64 * l + s;
      list := bs[b];
      CascadeLayout(bs, cur, l, s);
      FlatUpdate(bs, b, []);
      RecordedClears(bs, mask, pos, b);
      cur := Start(cur, l, s);
      bs := bs[b := []];
      mask := mask[b := false];
    }

    method DealOut(list: seq<Slot>)
      requires Valid() && Known(list)
      modifies this`bs, this`mask, this`pos
      ensures Valid() && bs == Dealt(old(bs), cur, list)
    {
      for i := 0 to |list|
        invariant Valid() && bs == Dealt(old(bs), cur, list[..i])
      {
        assert list[i] in list;
        assert list[..i + 1][..i] == list[..i];
        Insert(list[i]);
      }
      assert list[..|list|] == list;
    }

    // Cascade the lowest used slot; the next one is lower.
    method Descend(b: nat) returns (next: nat)
      requires Valid() && 64 <= b && IsLowest(bs, b)
      modifies this
      ensures Valid() && cur == Start(old(cur), b / 64, b % 64) > old(cur) && Contents() == old(Contents())
      ensures next < b && IsLowest(bs, next)
    {
      Cascade(b / 64, b % 64);
      next := Lowest();
    }

    // Bring the earliest timers down to level 0; -1 if none can be due.
    method Settle(now: int) returns (s: int)
      requires Valid()
      modifies this
      ensures Valid() && Contents() == old(Contents()) && Moves(old(View()), now, cur)
      ensures -1 <= s < 64
      ensures s >= 0 ==> bs[s] != [] && Unused(bs, 0, s) && TickOf(cur, s) < now / 1024
      ensures s == -1 ==> NoneReleased(Contents(), cur, now / 1024)
      ensures Ripe(old(bs), old(cur), now) ==> s >= 0 || cur > old(cur)
    {
      ghost var a := View();
      var nt := now / 1024;
      var b := Lowest();
      while b < SLOTS
        invariant Valid() && Contents() == a.contents && Moves(a, now, cur)
        invariant cur > old(cur) || (cur == old(cur) && bs == old(bs))
        invariant 0 <= b <= SLOTS && Unused(bs, 0, b) && (b < SLOTS ==> IsLowest(bs, b))
        decreases b
      {
        var l, sl := b / 64, b % 64;
        if l == 0 {
          if TickOf(cur, sl) >= nt {
            NoneAtZero(bs, cur, sl, nt);
            return -1;
          }
          return sl;
        }
        StartFirst(bs, cur, l, sl);
        if Start(cur, l, sl) >= nt {
          NoneAbove(Contents(), cur, Start(cur, l, sl), nt);
          return -1;
        }
        ghost var was := cur;
        b := Descend(b);
        MovesOn(a, now, was, cur);
      }
      FlatEmpty(bs);
      return -1;
    }

    // A timer is returned once its tick and the current one have passed, the
    // first to be released first.
    method PopDue(now: int) returns (r: Option<Slot>)
      requires Valid()
      modifies this
      ensures Valid() && PopStep(old(View()), now, View(), r)
      ensures Ripe(old(bs), old(cur), now) ==> r.Some? || cur > old(cur)
    {
      var s := Settle(now);
      if s < 0 {
        NonePops(old(View()), View(), now);
        return None;
      }
      HeadPops(old(View()), bs, cur, s, now);
      AdvanceLayout(bs, cur, s);
      r := Some(bs[s][0]);
      cur := TickOf(cur, s);
      Unlink(s, 0);
    }

    // When to pop next, -1 if the wheel is empty: no later than any timer is
    // released, and at level 0 exactly then.
    method Next() returns (d: int)
      requires Valid()
      ensures d == -1 <==> Contents() == multiset{}
      ensures d != -1 ==> NoneReleased(Contents(), cur, d / 1024 - 1) && d % 1024 == 0
      ensures d != -1 && InBlock(Contents(), cur) ==>
        exists x :: x in Contents() && d == (Release(cur, x) + 1) * 1024
      ensures d != -1 ==> Ripe(bs, cur, d)
    {
      var b := Lowest();
      if b == SLOTS {
        FlatEmpty(bs);
        return -1;
      }
      NextExact(bs, cur, b);
      return (SlotStart(cur, b) + 1) * 1024;
    }

    // Sleeping until then and popping gets somewhere: a timer, or a later
    // current tick.
    method PopNext() returns (d: int, r: Option<Slot>)
      requires Valid()
      modifies this
      ensures Valid() && (d == -1 <==> old(Contents()) == multiset{})
      ensures d != -1 ==> PopStep(old(View()), d, View(), r) && (r.Some? || cur > old(cur))
    {
      d := Next();
      r := None;
      if d != -1 {
        r := PopDue(d);
      }
    }
  }

  lemma NonePops(a: State, s: State, now: int)
    requires s.contents == a.contents && Moves(a, now, s.cur) && NoneReleased(s.contents, s.cur, now / 1024)
    ensures PopStep(a, now, s, None)
  {
  }

  // a is the wheel before its earliest timers were brought down to level 0.
  lemma HeadPops(a: State, bs: seq<seq<Slot>>, cur: nat, s: nat, now: int)
    requires Layout(bs, cur) && s < 64 && bs[s] != [] && Unused(bs, 0, s) && TickOf(cur, s) < now / 1024
    requires a.contents == multiset(Flat(bs)) && Moves(a, now, cur)
    ensures var x := bs[s][0];
      PopStep(a, now, State(a.contents - multiset{x}, TickOf(cur, s)), Some(x))
  {
    FirstReleased(bs, cur, s);
    assert bs[s][0] in bs[s];
    FlatIn(bs, s, bs[s][0]);
    assert bs[s][0] in Flat(bs);
  }

  // A run over the first k operations that has come to s.
  ghost predicate Reached(run: seq<State>, ops: seq<Op>, outs: seq<Option<Slot>>, k: nat, s: State)
    requires k <= |ops|
  {
    IsRun(run, ops[..k], outs) && run[k] == s
  }

  lemma RunGrows(
    run: seq<State>, ops: seq<Op>, outs: seq<Option<Slot>>, k: nat, s: State, next: State, out: Option<Slot>)
    requires k < |ops| && Reached(run, ops, outs, k, s) && Step(s, ops[k], next, out)
    ensures Reached(run + [next], ops, outs + [out], k + 1, next)
  {
    var r, o, p := run + [next], outs + [out], ops[..k + 1];
    forall j | 0 <= j < |p| ensures Step(r[j], p[j], r[j + 1], o[j]) {
      if j < k {
        assert Step(run[j], ops[..k][j], run[j + 1], outs[j]);
      }
    }
  }

  // The code run over any operations is such a run.
  method Replay(ops: seq<Op>) returns (outs: seq<Option<Slot>>)
    ensures exists run :: IsRun(run, ops, outs)
  {
    var w := new Timers();
    ghost var run := [w.View()];
    outs := [];
    for k := 0 to |ops|
      invariant fresh(w) && w.Valid() && Reached(run, ops, outs, k, w.View())
    {
      ghost var before := w.View();
      var out := Do(w, ops[k]);
      RunGrows(run, ops, outs, k, before, w.View(), out);
      outs, run := outs + [out], run + [w.View()];
    }
    assert ops[..|ops|] == ops;
    assert IsRun(run, ops, outs);
  }

  method Do(w: Timers, op: Op) returns (out: Option<Slot>)
    requires w.Valid()
    modifies w
    ensures w.Valid() && Step(old(w.View()), op, w.View(), out)
  {
    out := None;
    match op
    case Push(x) =>
      if InRange(x) {
        w.Push(x);
      }
    case Cancel(x) =>
      var there := w.Holds(x);
      if there {
        w.Cancel(x);
      }
    case Pop(now) =>
      out := w.PopDue(now);
  }
}
