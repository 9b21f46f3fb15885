/**
  The bounded work-stealing deque of src/inc/deque.h: one owner pushes and pops at
  the bottom and takes from the top, any number of thieves steal from the top.
  Each atomic access is one step; steps of different threads interleave freely.

  The deque refines a plain sequence: a push appends, a pop removes the last item,
  a steal or a take removes the first, each at one step, and every item pushed is
  returned to exactly one consumer or is still there.
*/
module Deque {
  import opened Bits
  import opened Tally

  /** Where a thief, or the owner inside a take, stands in xtc_deque_steal. */
  datatype Thief =
    | Away                      // about to load top
    | AtBottom(t: int)          // about to load bottom
    | AtSlot(t: int)            // saw t below bottom; about to read the slot
    | AtCas(t: int, x: nat)     // about to move top from t to t + 1

  datatype Got = Nothing | Item(x: nat)

  datatype Owner =
    | Rest
    | PushTop(v: nat, b: int)    // loaded bottom = b; about to load top
    | PushSlot(v: nat, b: int)   // there was room; about to write the slot
    | PushBottom(v: nat, b: int) // about to store bottom = b + 1
    | PopBottom(b: int)          // about to store bottom = b
    | PopTop(b: int)             // about to load top
    | PopEmpty(t: int)           // top was above b; about to store bottom = t
    | PopRead(b: int, x: nat)    // uncontested: about to read the slot, which holds x
    | PopLast(b: int)            // one item left: about to read the slot
    | PopCas(b: int, x: nat)     // about to move top from b to b + 1
    | PopFix(b: int, got: Got)   // about to store bottom = b + 1
    | TakeBottom                 // about to load bottom
    | TakeTop(b: int)            // about to load top
    | Taking(th: Thief)          // inside the steal

  /** pushed and got record what has been pushed and what has been returned. */
  datatype Sys = Sys(
    top: int, bottom: int, buf: seq<nat>, owner: Owner, thieves: seq<Thief>,
    pushed: multiset<nat>, got: multiset<nat>)

  datatype Action = PushBegin(v: nat) | PopBegin | TakeBegin | OwnerStep | ThiefStep(i: nat)

  /** What a step does to the deque as a sequence. */
  datatype Effect = Keep | Append(v: nat) | DropLast(x: nat) | DropFirst(x: nat)

  ghost predicate Init(s: Sys) {
    && s.top == 0 && s.bottom == 0 && |s.buf| > 0 && s.owner == Rest
    && (forall i :: 0 <= i < |s.thieves| ==> s.thieves[i] == Away)
    && s.pushed == multiset{} && s.got == multiset{}
  }

  // --- The sequence the deque stands for ----------------------------------

  /** Index i masked by the capacity: the remainder of i, for i not negative. */
  function Ring(i: int, cap: int): (r: nat)
    requires cap > 0
    ensures r < cap
    decreases if i < 0 then 0 else i
  {
    if i < 0 then 0 else if i < cap then i else Ring(i - cap, cap)
  }

  lemma {:induction false} RingMod(i: nat, cap: nat)
    requires cap > 0
    ensures Ring(i, cap) == i % cap
  {
    if i >= cap {
      RingMod(i - cap, cap);
      assert i == ((i - cap) / cap + 1) * cap + (i - cap) % cap;
      ModIs(i, cap, (i - cap) / cap + 1, (i - cap) % cap);
    } else {
      ModIs(i, cap, 0, i);
    }
  }

  /** With a power of two for a capacity, as XTC_DEQUE_CAP is, this is what the code
      computes: the bits of the index under a mask of ones. */
  lemma RingMasks(i: nat, n: nat)
    ensures Ring(i, Ones(n) + 1) == And(i, Ones(n))
  {
    RingMod(i, Ones(n) + 1);
    AndOnes(i, n);
  }

  function Slot(s: Sys, i: int): nat
    requires |s.buf| > 0
  {
    s.buf[Ring(i, |s.buf|)]
  }

  ghost function Window(buf: seq<nat>, lo: int, hi: int): seq<nat>
    requires |buf| > 0 && lo <= hi
  {
    seq(hi - lo, k => buf[Ring(lo + k, |buf|)])
  }

  /** One past the last item: bottom, except while a pop has lowered bottom and has
      not yet learnt whether the item there is its own. */
  function Limit(s: Sys): int {
    match s.owner
    case PopTop(b) => b + 1
    case PopEmpty(t) => t
    case PopLast(b) => b + 1
    case PopCas(b, _) => b + 1
    case PopFix(b, _) => b + 1
    case _ => s.bottom
  }

  ghost function Content(s: Sys): seq<nat>
    requires |s.buf| > 0 && s.top <= Limit(s)
  {
    Window(s.buf, s.top, Limit(s))
  }

  /** What the owner's pop has removed and not yet returned. */
  function InHand(o: Owner, x: nat): nat {
    match o
    case PopRead(_, y) => Is(y, x)
    case PopFix(_, Item(y)) => Is(y, x)
    case _ => 0
  }

  // --- Steps --------------------------------------------------------------

  /** A thief's next step: its new place, the new top, and what it returns. */
  function Move(s: Sys, th: Thief): (Thief, int, Got)
    requires |s.buf| > 0
  {
    match th
    case Away => (AtBottom(s.top), s.top, Nothing)
    case AtBottom(t) => (if t >= s.bottom then Away else AtSlot(t), s.top, Nothing)
    case AtSlot(t) => (AtCas(t, Slot(s, t)), s.top, Nothing)
    case AtCas(t, x) => if s.top == t then (Away, t + 1, Item(x)) else (Away, s.top, Nothing)
  }

  function Return(s: Sys, got: Got): Sys {
    if got.Item? then s.(got := s.got + multiset{got.x}) else s
  }

  function OwnerNext(s: Sys): Sys
    requires |s.buf| > 0
  {
    match s.owner
    case Rest => s
    case PushTop(v, b) => s.(owner := if b - s.top >= |s.buf| then Rest else PushSlot(v, b))
    case PushSlot(v, b) => s.(buf := s.buf[Ring(b, |s.buf|) := v], owner := PushBottom(v, b))
    case PushBottom(v, b) => s.(bottom := b + 1, owner := Rest, pushed := s.pushed + multiset{v})
    case PopBottom(b) => s.(bottom := b, owner := PopTop(b))
    case PopTop(b) =>
      s.(owner := if s.top > b then PopEmpty(s.top) else if s.top < b then PopRead(b, Slot(s, b)) else PopLast(b))
    case PopEmpty(t) => s.(bottom := t, owner := Rest)
    case PopRead(b, _) => Return(s.(owner := Rest), Item(Slot(s, b)))
    case PopLast(b) => s.(owner := PopCas(b, Slot(s, b)))
    case PopCas(b, x) =>
      if s.top == b then s.(top := b + 1, owner := PopFix(b, Item(x))) else s.(owner := PopFix(b, Nothing))
    case PopFix(b, got) => Return(s.(bottom := b + 1, owner := Rest), got)
    case TakeBottom => s.(owner := TakeTop(s.bottom))
    case TakeTop(b) => s.(owner := if b > s.top then Taking(Away) else Rest)
    case Taking(th) =>
      var (th', top', got) := Move(s, th);
      Return(s.(top := top', owner := if got.Item? then Rest else if th' == Away then TakeBottom else Taking(th')), got)
  }

  function ThiefNext(s: Sys, i: nat): Sys
    requires |s.buf| > 0 && i < |s.thieves|
  {
    var (th', top', got) := Move(s, s.thieves[i]);
    Return(s.(top := top', thieves := s.thieves[i := th']), got)
  }

  ghost predicate Enabled(s: Sys, a: Action) {
    && |s.buf| > 0
    && match a
       case PushBegin(_) => s.owner == Rest
       case PopBegin => s.owner == Rest
       case TakeBegin => s.owner == Rest
       case OwnerStep => s.owner != Rest
       case ThiefStep(i) => i < |s.thieves|
  }

  function Apply(s: Sys, a: Action): Sys
    requires Enabled(s, a)
  {
    match a
    case PushBegin(v) => s.(owner := PushTop(v, s.bottom))
    case PopBegin => s.(owner := PopBottom(s.bottom - 1))
    case TakeBegin => s.(owner := TakeBottom)
    case OwnerStep => OwnerNext(s)
    case ThiefStep(i) => ThiefNext(s, i)
  }

  ghost predicate IsRun(run: seq<Sys>, acts: seq<Action>) {
    && |run| == |acts| + 1 && Init(run[0])
    && (forall k :: 0 <= k < |acts| ==> StepAt(run, acts, k))
  }

  ghost predicate StepAt(run: seq<Sys>, acts: seq<Action>, k: nat)
    requires |run| == |acts| + 1 && k < |acts|
  {
    Enabled(run[k], acts[k]) && run[k + 1] == Apply(run[k], acts[k])
  }

  // --- Invariant ----------------------------------------------------------

  /** A thief that could still win the item at t holds the right one. */
  ghost predicate ThiefOk(s: Sys, th: Thief)
    requires |s.buf| > 0
  {
    match th
    case Away => true
    case AtBottom(t) => 0 <= t <= s.top
    case AtSlot(t) => 0 <= t <= s.top && (t == s.top ==> t < Limit(s))
    case AtCas(t, x) => 0 <= t <= s.top && (t == s.top ==> t < Limit(s) && x == Slot(s, t))
  }

  ghost predicate OwnerOk(s: Sys)
    requires |s.buf| > 0
  {
    match s.owner
    case Rest => true
    case PushTop(_, b) => b == s.bottom
    case PushSlot(_, b) => b == s.bottom && b - s.top < |s.buf|
    case PushBottom(v, b) => b == s.bottom && b - s.top < |s.buf| && Slot(s, b) == v
    case PopBottom(b) => b == s.bottom - 1
    case PopTop(b) => b == s.bottom
    case PopEmpty(t) => t == s.top && s.bottom == t - 1
    case PopRead(b, x) => b == s.bottom && Slot(s, b) == x
    case PopLast(b) => b == s.bottom && s.top >= b
    case PopCas(b, x) => b == s.bottom && s.top >= b && Slot(s, b) == x
    case PopFix(b, _) => b == s.bottom && s.top == b + 1
    case TakeBottom => true
    case TakeTop(b) => b == s.bottom
    case Taking(th) => ThiefOk(s, th)
  }

  ghost predicate Inv(s: Sys) {
    && |s.buf| > 0
    && 0 <= s.top <= Limit(s) <= s.top + |s.buf|
    && OwnerOk(s)
    && (forall i :: 0 <= i < |s.thieves| ==> ThiefOk(s, s.thieves[i]))
  }

  /** Indices less than a capacity apart use different slots. */
  lemma {:induction false} SlotsDiffer(i: int, j: int, cap: int)
    requires 0 <= i < j < i + cap
    ensures Ring(i, cap) != Ring(j, cap)
    decreases i
  {
    if i >= cap {
      SlotsDiffer(i - cap, j - cap, cap);
    }
  }

  /** Writing the slot past the last item leaves the items alone. */
  lemma WriteBeyond(buf: seq<nat>, lo: int, hi: int, v: nat)
    requires 0 <= lo <= hi < lo + |buf|
    ensures Window(buf[Ring(hi, |buf|) := v], lo, hi) == Window(buf, lo, hi)
  {
    forall k | 0 <= k < hi - lo
      ensures Window(buf[Ring(hi, |buf|) := v], lo, hi)[k] == Window(buf, lo, hi)[k]
    {
      SlotsDiffer(lo + k, hi, |buf|);
    }
  }

  lemma WindowEnds(buf: seq<nat>, lo: int, hi: int)
    requires |buf| > 0 && lo < hi
    ensures Window(buf, lo, hi) == [buf[Ring(lo, |buf|)]] + Window(buf, lo + 1, hi)
    ensures Window(buf, lo, hi) == Window(buf, lo, hi - 1) + [buf[Ring(hi - 1, |buf|)]]
  {
  }

  // --- One step -----------------------------------------------------------

  /** The step's effect on the sequence. */
  ghost function EffectOf(s: Sys, a: Action): Effect
    requires Enabled(s, a)
  {
    match a
    case OwnerStep =>
      (match s.owner
       case PushBottom(v, _) => Append(v)
       case PopTop(b) => if s.top < b then DropLast(Slot(s, b)) else Keep
       case PopCas(b, x) => if s.top == b then DropLast(x) else Keep
       case Taking(AtCas(t, x)) => if s.top == t then DropFirst(x) else Keep
       case _ => Keep)
    case ThiefStep(i) =>
      (match s.thieves[i]
       case AtCas(t, x) => if s.top == t then DropFirst(x) else Keep
       case _ => Keep)
    case _ => Keep
  }

  ghost predicate Does(e: Effect, q: seq<nat>, q': seq<nat>) {
    match e
    case Keep => q' == q
    case Append(v) => q' == q + [v]
    case DropLast(x) => q == q' + [x]
    case DropFirst(x) => q == [x] + q'
  }

  ghost predicate Refines(s: Sys, s': Sys, e: Effect)
    requires Inv(s)
  {
    Inv(s') && Does(e, Content(s), Content(s'))
  }

  /** A thief's step leaves every other thief's place sound. */
  lemma OthersStay(s: Sys, s': Sys, th: Thief)
    requires Inv(s) && ThiefOk(s, th) && s'.buf == s.buf && s.top <= s'.top && Limit(s') == Limit(s)
    ensures ThiefOk(s', th)
  {
  }

  lemma OwnerStays(s: Sys, s': Sys)
    requires Inv(s) && s'.buf == s.buf && s'.owner == s.owner && s'.bottom == s.bottom && s.top <= s'.top <= Limit(s)
    requires s.top == Limit(s) ==> s'.top == s.top
    ensures OwnerOk(s')
  {
    if s.owner.Taking? {
      OthersStay(s, s', s.owner.th);
    }
  }

  /** Where a thief's own step leads is sound, and its move of top drops the first
      item. */
  lemma MoveRefines(s: Sys, s': Sys, th: Thief)
    requires Inv(s) && ThiefOk(s, th) && s'.buf == s.buf && s'.top == Move(s, th).1 && Limit(s') == Limit(s)
    ensures s.top <= s'.top <= Limit(s) && ThiefOk(s', Move(s, th).0)
    ensures Does(if Move(s, th).2.Item? then DropFirst(Move(s, th).2.x) else Keep, Content(s), Content(s'))
  {
    if th.AtCas? && s.top == th.t {
      WindowEnds(s.buf, s.top, Limit(s));
    }
  }

  lemma ThiefRefines(s: Sys, i: nat)
    requires Inv(s) && Enabled(s, ThiefStep(i))
    ensures Refines(s, ThiefNext(s, i), EffectOf(s, ThiefStep(i)))
  {
    var s' := ThiefNext(s, i);
    MoveRefines(s, s', s.thieves[i]);
    forall j | 0 <= j < |s.thieves|
      ensures ThiefOk(s', s'.thieves[j])
    {
      OthersStay(s, s', s.thieves[j]);
    }
    OwnerStays(s, s');
  }

  lemma TakingRefines(s: Sys)
    requires Inv(s) && s.owner.Taking?
    ensures Refines(s, OwnerNext(s), EffectOf(s, OwnerStep))
  {
    var s' := OwnerNext(s);
    MoveRefines(s, s', s.owner.th);
    forall j | 0 <= j < |s.thieves|
      ensures ThiefOk(s', s'.thieves[j])
    {
      OthersStay(s, s', s.thieves[j]);
    }
  }

  lemma PushRefines(s: Sys)
    requires Inv(s) && (s.owner.PushTop? || s.owner.PushSlot? || s.owner.PushBottom?)
    ensures Refines(s, OwnerNext(s), EffectOf(s, OwnerStep))
  {
    match s.owner
    case PushTop(_, _) =>
    case PushSlot(v, b) =>
      WriteBeyond(s.buf, s.top, b, v);
      if s.top < b {
        SlotsDiffer(s.top, b, |s.buf|);
      }
    case PushBottom(v, b) => WindowEnds(s.buf, s.top, b + 1);
  }

  lemma PopRefines(s: Sys)
    requires Inv(s) && (s.owner.PopBottom? || s.owner.PopTop? || s.owner.PopEmpty? || s.owner.PopRead?)
    ensures Refines(s, OwnerNext(s), EffectOf(s, OwnerStep))
  {
    if s.owner.PopTop? && s.top < s.owner.b {
      WindowEnds(s.buf, s.top, s.owner.b + 1);
    }
  }

  lemma PopLastRefines(s: Sys)
    requires Inv(s) && (s.owner.PopLast? || s.owner.PopCas? || s.owner.PopFix?)
    ensures Refines(s, OwnerNext(s), EffectOf(s, OwnerStep))
  {
    if s.owner.PopCas? && s.top == s.owner.b {
      WindowEnds(s.buf, s.top, s.top + 1);
    }
  }

  /** Every step does to the sequence what its effect says, and keeps the
      invariant. */
  lemma StepRefines(s: Sys, a: Action)
    requires Inv(s) && Enabled(s, a)
    ensures Refines(s, Apply(s, a), EffectOf(s, a))
  {
    match a
    case OwnerStep =>
      if s.owner.Taking? {
        TakingRefines(s);
      } else if s.owner.PushTop? || s.owner.PushSlot? || s.owner.PushBottom? {
        PushRefines(s);
      } else if s.owner.PopBottom? || s.owner.PopTop? || s.owner.PopEmpty? || s.owner.PopRead? {
        PopRefines(s);
      } else if s.owner.PopLast? || s.owner.PopCas? || s.owner.PopFix? {
        PopLastRefines(s);
      }
    case ThiefStep(i) => ThiefRefines(s, i);
    case _ =>
  }

  // --- Whole runs ---------------------------------------------------------

  /** Every push of x has been returned once, is being returned by the owner's pop,
      or is in the deque. */
  ghost predicate Conserved(s: Sys, x: nat)
    requires Inv(s)
  {
    s.pushed[x] == s.got[x] + InHand(s.owner, x) + Times(Content(s), x)
  }

  lemma EffectCounts(e: Effect, q: seq<nat>, q': seq<nat>, x: nat)
    requires Does(e, q, q')
    ensures e.Keep? ==> Times(q', x) == Times(q, x)
    ensures e.Append? ==> Times(q', x) == Times(q, x) + Is(e.v, x)
    ensures e.DropLast? || e.DropFirst? ==> Times(q', x) + Is(e.x, x) == Times(q, x)
  {
    match e
    case Keep =>
    case Append(v) => TimesConcat(q, [v], x);
    case DropLast(y) => TimesConcat(q', [y], x);
    case DropFirst(y) => TimesConcat([y], q', x);
  }

  /** What a step adds to the ledger is what its effect moves. */
  ghost predicate Booked(s: Sys, s': Sys, e: Effect, x: nat) {
    && s'.pushed[x] == s.pushed[x] + (if e.Append? then Is(e.v, x) else 0)
    && s'.got[x] + InHand(s'.owner, x)
       == s.got[x] + InHand(s.owner, x) + (if e.DropLast? || e.DropFirst? then Is(e.x, x) else 0)
  }

  lemma ThiefBooked(s: Sys, i: nat, x: nat)
    requires |s.buf| > 0 && i < |s.thieves|
    ensures Booked(s, ThiefNext(s, i), EffectOf(s, ThiefStep(i)), x)
  {
  }

  lemma OwnerBooked(s: Sys, x: nat)
    requires Inv(s) && s.owner != Rest
    ensures Booked(s, OwnerNext(s), EffectOf(s, OwnerStep), x)
  {
  }

  lemma StepConserves(s: Sys, a: Action, x: nat)
    requires Inv(s) && Enabled(s, a) && Conserved(s, x)
    ensures Inv(Apply(s, a)) && Conserved(Apply(s, a), x)
  {
    StepRefines(s, a);
    EffectCounts(EffectOf(s, a), Content(s), Content(Apply(s, a)), x);
    match a
    case OwnerStep => OwnerBooked(s, x);
    case ThiefStep(i) => ThiefBooked(s, i, x);
    case _ =>
  }

  lemma {:induction false} RunConserves(run: seq<Sys>, acts: seq<Action>, k: nat, x: nat)
    requires IsRun(run, acts) && k < |run|
    ensures Inv(run[k]) && Conserved(run[k], x)
  {
    if k > 0 {
      RunConserves(run, acts, k - 1, x);
      assert StepAt(run, acts, k - 1);
      StepConserves(run[k - 1], acts[k - 1], x);
    }
  }

  /** At any step of any run: a steal or a take that succeeds returns the oldest
      item, whatever was pushed since it read the slot; a pop returns the newest. */
  lemma RunRefines(run: seq<Sys>, acts: seq<Action>, k: nat)
    requires IsRun(run, acts) && k < |acts|
    ensures StepAt(run, acts, k) && Inv(run[k]) && Inv(run[k + 1])
    ensures Does(EffectOf(run[k], acts[k]), Content(run[k]), Content(run[k + 1]))
  {
    RunConserves(run, acts, k, 0);
    assert StepAt(run, acts, k);
    StepRefines(run[k], acts[k]);
  }

  /** The owner's operations come back with nothing only when there is nothing, and
      a push is refused only when the deque is full. */
  lemma RunHonest(run: seq<Sys>, acts: seq<Action>, k: nat)
    requires IsRun(run, acts) && k < |acts| && acts[k] == OwnerStep
    ensures StepAt(run, acts, k) && Inv(run[k]) && Inv(run[k + 1])
    ensures run[k].owner.PushTop? ==> (run[k + 1].owner == Rest <==> |Content(run[k])| == |run[k].buf|)
    ensures run[k].owner.PopTop? ==> (run[k + 1].owner.PopEmpty? <==> Content(run[k]) == [])
    ensures run[k].owner.PopCas? ==> (run[k + 1].owner.got == Nothing <==> Content(run[k]) == [])
    ensures run[k].owner.TakeTop? ==> (run[k + 1].owner == Rest <==> Content(run[k]) == [])
  {
    RunRefines(run, acts, k);
  }
}
