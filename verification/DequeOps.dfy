/**
  Operations on the deque from their call to their return, in any run: what a call
  made by an action does is said of the action's own arguments, of the sequence the
  deque stands for and of what has been returned.  A push appends its argument or
  finds the deque full, a pop removes and returns the newest item or finds none, a
  take removes and returns the oldest or finds none, and a steal comes back empty
  only if there was nothing to steal or someone else was faster.
*/
module DequeOps {
  import opened Deque

  datatype Party = Owning | Stealing(i: nat)

  predicate By(a: Action, p: Party) {
    match p
    case Owning => !a.ThiefStep?
    case Stealing(i) => a == ThiefStep(i)
  }

  /** The step touches neither the sequence nor the ledger. */
  ghost predicate Untouched(s: Sys, s': Sys) {
    Inv(s) && Inv(s') && Content(s') == Content(s) && s'.got == s.got && s'.pushed == s.pushed
  }

  /** No step of p from k up to m does. */
  ghost predicate Idle(run: seq<Sys>, acts: seq<Action>, p: Party, k: nat, m: nat)
    requires |run| == |acts| + 1 && m <= |acts|
  {
    forall j {:trigger acts[j]} :: k <= j < m && By(acts[j], p) ==> Untouched(run[j], run[j + 1])
  }

  ghost predicate Appends(s: Sys, s': Sys, v: nat) {
    Inv(s) && Inv(s') && Content(s') == Content(s) + [v] && s'.pushed == s.pushed + multiset{v} && s'.got == s.got
  }

  /** Takes x off the bottom, to be returned later. */
  ghost predicate Unpushes(s: Sys, s': Sys, x: nat) {
    Inv(s) && Inv(s') && Content(s) == Content(s') + [x] && s'.pushed == s.pushed && s'.got == s.got
  }

  ghost predicate Returns(s: Sys, s': Sys, x: nat) {
    Inv(s) && Inv(s') && Content(s') == Content(s) && s'.pushed == s.pushed && s'.got == s.got + multiset{x}
  }

  /** Takes the oldest item off the top and returns it. */
  ghost predicate Takes(s: Sys, s': Sys) {
    && Inv(s) && Inv(s') && Content(s) != [] && Content(s') == Content(s)[1..]
    && s'.pushed == s.pushed && s'.got == s.got + multiset{Content(s)[0]}
  }

  ghost predicate Full(s: Sys) {
    Inv(s) && |Content(s)| == |s.buf|
  }

  ghost predicate Empty(s: Sys) {
    Inv(s) && Content(s) == []
  }

  lemma IdleGrows(run: seq<Sys>, acts: seq<Action>, p: Party, k: nat, m: nat)
    requires |run| == |acts| + 1 && m < |acts| && Idle(run, acts, p, k, m)
    requires By(acts[m], p) ==> Untouched(run[m], run[m + 1])
    ensures Idle(run, acts, p, k, m + 1)
  {
  }

  /** From its call at k the owner's operation has not returned by m. */
  ghost predicate Under(run: seq<Sys>, k: nat, m: nat)
    requires m < |run|
  {
    forall j {:trigger run[j]} :: k < j <= m ==> run[j].owner != Rest
  }

  /** Its first return is at m. */
  ghost predicate Done(run: seq<Sys>, k: nat, m: nat)
    requires m < |run|
  {
    k < m && run[m].owner == Rest && Under(run, k, m - 1)
  }

  lemma ThiefAside(s: Sys, i: nat)
    requires Enabled(s, ThiefStep(i))
    ensures Apply(s, ThiefStep(i)).owner == s.owner
  {
  }

  // --- Push ---------------------------------------------------------------

  predicate Pushing(o: Owner, v: nat) {
    (o.PushTop? || o.PushSlot? || o.PushBottom?) && o.v == v
  }

  lemma PushStep(s: Sys, v: nat)
    requires Inv(s) && Pushing(s.owner, v)
    ensures var s' := OwnerNext(s);
      || (Pushing(s'.owner, v) && Untouched(s, s'))
      || (s'.owner == Rest && Untouched(s, s') && Full(s))
      || (s'.owner == Rest && Appends(s, s', v))
  {
    StepRefines(s, OwnerStep);
  }

  lemma PushOne(run: seq<Sys>, acts: seq<Action>, k: nat, m: nat, v: nat)
    requires IsRun(run, acts) && k < m < |acts| && Pushing(run[m].owner, v) && run[m + 1].owner != Rest
    ensures Pushing(run[m + 1].owner, v) && (By(acts[m], Owning) ==> Untouched(run[m], run[m + 1]))
  {
    RunRefines(run, acts, m);
    if acts[m].ThiefStep? {
      ThiefAside(run[m], acts[m].i);
    } else {
      PushStep(run[m], v);
    }
  }

  lemma Begins(run: seq<Sys>, acts: seq<Action>, k: nat)
    requires IsRun(run, acts) && k < |acts| && (acts[k].PushBegin? || acts[k].PopBegin? || acts[k].TakeBegin?)
    ensures run[k + 1].owner == match acts[k]
      case PushBegin(v) => PushTop(v, run[k].bottom)
      case PopBegin => PopBottom(run[k].bottom - 1)
      case _ => TakeBottom
    ensures Idle(run, acts, Owning, k, k + 1)
  {
    RunRefines(run, acts, k);
  }

  lemma {:induction false} PushStage(run: seq<Sys>, acts: seq<Action>, k: nat, m: nat, v: nat)
    requires IsRun(run, acts) && k < m <= |acts| && acts[k] == PushBegin(v) && Under(run, k, m)
    ensures Pushing(run[m].owner, v) && Idle(run, acts, Owning, k, m)
  {
    if m == k + 1 {
      Begins(run, acts, k);
    } else {
      PushStage(run, acts, k, m - 1, v);
      PushOne(run, acts, k, m - 1, v);
      IdleGrows(run, acts, Owning, k, m - 1);
    }
  }

  /** A push of v that returns at m has appended v at its last step, or left the
      deque as it was, which was full. */
  lemma PushDone(run: seq<Sys>, acts: seq<Action>, k: nat, m: nat, v: nat)
    requires IsRun(run, acts) && m <= |acts| && k < |acts| && acts[k] == PushBegin(v) && Done(run, k, m)
    ensures acts[m - 1] == OwnerStep && Idle(run, acts, Owning, k, m - 1)
    ensures Appends(run[m - 1], run[m], v) || (Full(run[m - 1]) && Untouched(run[m - 1], run[m]))
  {
    RunRefines(run, acts, k);
    RunRefines(run, acts, m - 1);
    if m > k + 1 {
      PushStage(run, acts, k, m - 1, v);
      if acts[m - 1] == OwnerStep {
        PushStep(run[m - 1], v);
      }
    }
  }

  // --- Pop ----------------------------------------------------------------

  /** Inside a pop that has nothing in hand; it has missed once it knows that. */
  predicate Seeking(o: Owner) {
    o.PopBottom? || o.PopTop? || o.PopLast? || o.PopCas?
  }

  predicate Missed(o: Owner) {
    o.PopEmpty? || (o.PopFix? && o.got == Nothing)
  }

  predicate Holding(o: Owner, x: nat) {
    (o.PopRead? && o.x == x) || (o.PopFix? && o.got == Item(x))
  }

  lemma SeekStep(s: Sys)
    requires Inv(s) && Seeking(s.owner)
    ensures var s' := OwnerNext(s);
      || (Seeking(s'.owner) && Untouched(s, s'))
      || (Missed(s'.owner) && Untouched(s, s') && Empty(s))
      || (exists x :: Holding(s'.owner, x) && Unpushes(s, s', x))
  {
    StepRefines(s, OwnerStep);
    var s' := OwnerNext(s);
    if s.owner.PopTop? && s.top < s.owner.b {
      assert Holding(s'.owner, Slot(s, s.owner.b));
    } else if s.owner.PopCas? && s.top == s.owner.b {
      assert Holding(s'.owner, s.owner.x);
    }
  }

  lemma MissedStep(s: Sys)
    requires Inv(s) && Missed(s.owner)
    ensures OwnerNext(s).owner == Rest && Untouched(s, OwnerNext(s))
  {
    StepRefines(s, OwnerStep);
  }

  lemma HoldStep(s: Sys, x: nat)
    requires Inv(s) && Holding(s.owner, x)
    ensures OwnerNext(s).owner == Rest && Returns(s, OwnerNext(s), x)
  {
    StepRefines(s, OwnerStep);
  }

  /** The pop called at k has found the deque empty, and touched nothing, by m. */
  ghost predicate FoundNone(run: seq<Sys>, acts: seq<Action>, k: nat, m: nat)
    requires |run| == |acts| + 1 && m <= |acts|
  {
    Idle(run, acts, Owning, k, m) && exists j :: k < j < m && Empty(run[j])
  }

  /** It took x off the bottom at j, and touched nothing before or since. */
  ghost predicate Took(run: seq<Sys>, acts: seq<Action>, k: nat, j: nat, m: nat, x: nat)
    requires |run| == |acts| + 1 && m <= |acts|
  {
    && k < j < m && acts[j] == OwnerStep && Unpushes(run[j], run[j + 1], x)
    && Idle(run, acts, Owning, k, j) && Idle(run, acts, Owning, j + 1, m)
  }

  /** At m it returns what it took. */
  ghost predicate GaveBack(run: seq<Sys>, acts: seq<Action>, k: nat, m: nat)
    requires |run| == |acts| + 1 && m < |acts|
  {
    exists j: nat, x: nat :: Took(run, acts, k, j, m, x) && Returns(run[m], run[m + 1], x)
  }

  ghost predicate Popping(run: seq<Sys>, acts: seq<Action>, k: nat, m: nat)
    requires |run| == |acts| + 1 && m <= |acts|
  {
    || (Seeking(run[m].owner) && Idle(run, acts, Owning, k, m))
    || (Missed(run[m].owner) && FoundNone(run, acts, k, m))
    || (exists j: nat, x: nat :: Took(run, acts, k, j, m, x) && Holding(run[m].owner, x))
  }

  lemma PopMoves(run: seq<Sys>, acts: seq<Action>, k: nat, m: nat)
    requires IsRun(run, acts) && k < m < |acts| && Popping(run, acts, k, m) && run[m + 1].owner != Rest
    requires acts[m] == OwnerStep
    ensures Popping(run, acts, k, m + 1)
  {
    RunRefines(run, acts, m);
    if Seeking(run[m].owner) {
      SeekStep(run[m]);
      if Untouched(run[m], run[m + 1]) {
        IdleGrows(run, acts, Owning, k, m);
      } else {
        var x :| Holding(run[m + 1].owner, x) && Unpushes(run[m], run[m + 1], x);
        assert Took(run, acts, k, m, m + 1, x);
      }
    } else if Missed(run[m].owner) {
      MissedStep(run[m]);
    } else {
      var j: nat, x: nat :| Took(run, acts, k, j, m, x) && Holding(run[m].owner, x);
      HoldStep(run[m], x);
    }
  }

  lemma PopWaits(run: seq<Sys>, acts: seq<Action>, k: nat, m: nat)
    requires IsRun(run, acts) && k < m < |acts| && Popping(run, acts, k, m) && acts[m].ThiefStep?
    ensures Popping(run, acts, k, m + 1)
  {
    RunRefines(run, acts, m);
    ThiefAside(run[m], acts[m].i);
    if Seeking(run[m].owner) || Missed(run[m].owner) {
      IdleGrows(run, acts, Owning, k, m);
    } else {
      var j: nat, x: nat :| Took(run, acts, k, j, m, x) && Holding(run[m].owner, x);
      IdleGrows(run, acts, Owning, j + 1, m);
      assert Took(run, acts, k, j, m + 1, x);
    }
  }

  lemma PopOne(run: seq<Sys>, acts: seq<Action>, k: nat, m: nat)
    requires IsRun(run, acts) && k < m < |acts| && Popping(run, acts, k, m)
    requires run[m].owner != Rest && run[m + 1].owner != Rest
    ensures Popping(run, acts, k, m + 1)
  {
    assert StepAt(run, acts, m);
    if acts[m].ThiefStep? {
      PopWaits(run, acts, k, m);
    } else {
      PopMoves(run, acts, k, m);
    }
  }

  lemma PopBegins(run: seq<Sys>, acts: seq<Action>, k: nat)
    requires IsRun(run, acts) && k < |acts| && acts[k] == PopBegin
    ensures Popping(run, acts, k, k + 1)
  {
    Begins(run, acts, k);
  }

  lemma {:induction false} PopStage(run: seq<Sys>, acts: seq<Action>, k: nat, m: nat)
    requires IsRun(run, acts) && k < m <= |acts| && acts[k] == PopBegin && Under(run, k, m)
    ensures Popping(run, acts, k, m)
  {
    if m == k + 1 {
      PopBegins(run, acts, k);
    } else {
      PopStage(run, acts, k, m - 1);
      PopOne(run, acts, k, m - 1);
    }
  }

  lemma PopEnds(run: seq<Sys>, acts: seq<Action>, k: nat, m: nat)
    requires IsRun(run, acts) && k < m < |acts| && Popping(run, acts, k, m) && run[m + 1].owner == Rest
    ensures acts[m] == OwnerStep
    ensures FoundNone(run, acts, k, m + 1) || GaveBack(run, acts, k, m)
  {
    RunRefines(run, acts, m);
    if acts[m].ThiefStep? {
      ThiefAside(run[m], acts[m].i);
    } else if Seeking(run[m].owner) {
      SeekStep(run[m]);
    } else if Missed(run[m].owner) {
      MissedStep(run[m]);
      IdleGrows(run, acts, Owning, k, m);
    } else {
      var j: nat, x: nat :| Took(run, acts, k, j, m, x) && Holding(run[m].owner, x);
      HoldStep(run[m], x);
    }
  }

  /** A pop that returns at m has returned the item it took off the bottom at one of
      its steps; or it has returned and taken nothing, and the deque was empty. */
  lemma PopDone(run: seq<Sys>, acts: seq<Action>, k: nat, m: nat)
    requires IsRun(run, acts) && m <= |acts| && k < |acts| && acts[k] == PopBegin && Done(run, k, m)
    ensures acts[m - 1] == OwnerStep
    ensures FoundNone(run, acts, k, m) || GaveBack(run, acts, k, m - 1)
  {
    Begins(run, acts, k);
    PopStage(run, acts, k, m - 1);
    PopEnds(run, acts, k, m - 1);
  }

  // --- Take ---------------------------------------------------------------

  predicate Taker(o: Owner) {
    o.TakeBottom? || o.TakeTop? || o.Taking?
  }

  /** A round of a take fails only if someone else has moved top since it loaded it, or
      the deque is empty. */
  lemma TakeStep(s: Sys)
    requires Inv(s) && Taker(s.owner)
    ensures var s' := OwnerNext(s);
      || (Taker(s'.owner) && Untouched(s, s'))
      || (s'.owner == Rest && Untouched(s, s') && Empty(s))
      || (s'.owner == Rest && Takes(s, s'))
    ensures s.owner.Taking? && OwnerNext(s).owner.TakeBottom? ==>
      !s.owner.th.Away? && (s.owner.th.t < s.top || Empty(s))
  {
    StepRefines(s, OwnerStep);
    if s.owner.Taking? && s.owner.th.AtCas? && s.top == s.owner.th.t {
      assert Content(s) == [s.owner.th.x] + Content(OwnerNext(s));
    }
  }

  lemma TakeOne(run: seq<Sys>, acts: seq<Action>, k: nat, m: nat)
    requires IsRun(run, acts) && k < m < |acts| && Taker(run[m].owner) && run[m + 1].owner != Rest
    ensures Taker(run[m + 1].owner) && (By(acts[m], Owning) ==> Untouched(run[m], run[m + 1]))
  {
    RunRefines(run, acts, m);
    if acts[m].ThiefStep? {
      ThiefAside(run[m], acts[m].i);
    } else {
      TakeStep(run[m]);
    }
  }

  lemma {:induction false} TakeStage(run: seq<Sys>, acts: seq<Action>, k: nat, m: nat)
    requires IsRun(run, acts) && k < m <= |acts| && acts[k] == TakeBegin && Under(run, k, m)
    ensures Taker(run[m].owner) && Idle(run, acts, Owning, k, m)
  {
    if m == k + 1 {
      Begins(run, acts, k);
    } else {
      TakeStage(run, acts, k, m - 1);
      TakeOne(run, acts, k, m - 1);
      IdleGrows(run, acts, Owning, k, m - 1);
    }
  }

  /** A take that returns at m has taken the oldest item at its last step and returned
      it, or has taken and returned nothing, and the deque was empty. */
  lemma TakeDone(run: seq<Sys>, acts: seq<Action>, k: nat, m: nat)
    requires IsRun(run, acts) && m <= |acts| && k < |acts| && acts[k] == TakeBegin && Done(run, k, m)
    ensures acts[m - 1] == OwnerStep && Idle(run, acts, Owning, k, m - 1)
    ensures Takes(run[m - 1], run[m]) || (Empty(run[m - 1]) && Untouched(run[m - 1], run[m]))
  {
    RunRefines(run, acts, k);
    RunRefines(run, acts, m - 1);
    if m > k + 1 {
      TakeStage(run, acts, k, m - 1);
      if acts[m - 1] == OwnerStep {
        TakeStep(run[m - 1]);
      }
    }
  }

  // --- Steal --------------------------------------------------------------

  /** Thief i's steal, begun at k, has not returned by m. */
  ghost predicate Inside(run: seq<Sys>, i: nat, k: nat, m: nat)
    requires m < |run|
  {
    forall j {:trigger run[j]} :: k < j <= m ==> i < |run[j].thieves| && run[j].thieves[i] != Away
  }

  /** It loaded top at k and holds what it saw. */
  predicate Loaded(th: Thief, top: int) {
    !th.Away? && th.t == top
  }

  /** Nothing to steal, but perhaps the one item that the owner's pop is after. */
  ghost predicate Bare(s: Sys) {
    Inv(s) && |Content(s)| <= if s.owner.PopTop? || s.owner.PopLast? || s.owner.PopCas? then 1 else 0
  }

  lemma StealStep(s: Sys, i: nat, top: int)
    requires Inv(s) && i < |s.thieves| && Loaded(s.thieves[i], top)
    ensures var s' := ThiefNext(s, i);
      || (Loaded(s'.thieves[i], top) && Untouched(s, s'))
      || (s'.thieves[i] == Away && Untouched(s, s') && (s.top > top || Bare(s)))
      || (s'.thieves[i] == Away && Takes(s, s'))
  {
    StepRefines(s, ThiefStep(i));
    if s.thieves[i].AtCas? && s.top == s.thieves[i].t {
      assert Content(s) == [s.thieves[i].x] + Content(ThiefNext(s, i));
    }
  }

  lemma OtherAside(s: Sys, a: Action, i: nat)
    requires Enabled(s, a) && a != ThiefStep(i) && i < |s.thieves|
    ensures |Apply(s, a).thieves| == |s.thieves| && Apply(s, a).thieves[i] == s.thieves[i]
  {
  }

  lemma StealOne(run: seq<Sys>, acts: seq<Action>, i: nat, m: nat, top: int)
    requires IsRun(run, acts) && m < |acts| && i < |run[m].thieves| && Loaded(run[m].thieves[i], top)
    requires i < |run[m + 1].thieves| && run[m + 1].thieves[i] != Away
    ensures Loaded(run[m + 1].thieves[i], top) && (By(acts[m], Stealing(i)) ==> Untouched(run[m], run[m + 1]))
  {
    RunRefines(run, acts, m);
    if acts[m] == ThiefStep(i) {
      StealStep(run[m], i, top);
    } else {
      OtherAside(run[m], acts[m], i);
    }
  }

  lemma StealBegins(run: seq<Sys>, acts: seq<Action>, i: nat, k: nat)
    requires IsRun(run, acts) && k < |acts|
    requires acts[k] == ThiefStep(i) && i < |run[k].thieves| && run[k].thieves[i] == Away
    ensures i < |run[k + 1].thieves| && run[k + 1].thieves[i] == AtBottom(run[k].top)
    ensures Idle(run, acts, Stealing(i), k, k + 1)
  {
    RunRefines(run, acts, k);
  }

  lemma {:induction false} StealStage(run: seq<Sys>, acts: seq<Action>, i: nat, k: nat, m: nat)
    requires IsRun(run, acts) && k < m <= |acts| && Inside(run, i, k, m)
    requires acts[k] == ThiefStep(i) && i < |run[k].thieves| && run[k].thieves[i] == Away
    ensures Loaded(run[m].thieves[i], run[k].top) && Idle(run, acts, Stealing(i), k, m)
  {
    if m == k + 1 {
      StealBegins(run, acts, i, k);
    } else {
      StealStage(run, acts, i, k, m - 1);
      StealOne(run, acts, i, m - 1, run[k].top);
      IdleGrows(run, acts, Stealing(i), k, m - 1);
    }
  }

  /** A steal that returns at m has taken the oldest item at its last step and returned
      it; or it has touched nothing, and top had moved since it loaded it or there was
      nothing to steal. */
  lemma StealDone(run: seq<Sys>, acts: seq<Action>, i: nat, k: nat, m: nat)
    requires IsRun(run, acts) && k + 1 < m <= |acts| && Inside(run, i, k, m - 1)
    requires acts[k] == ThiefStep(i) && i < |run[k].thieves| && run[k].thieves[i] == Away
    requires i < |run[m].thieves| && run[m].thieves[i] == Away
    ensures acts[m - 1] == ThiefStep(i) && Idle(run, acts, Stealing(i), k, m - 1)
    ensures || Takes(run[m - 1], run[m])
            || (Untouched(run[m - 1], run[m]) && (run[m - 1].top > run[k].top || Bare(run[m - 1])))
  {
    RunRefines(run, acts, m - 1);
    StealStage(run, acts, i, k, m - 1);
    if acts[m - 1] == ThiefStep(i) {
      StealStep(run[m - 1], i, run[k].top);
    } else {
      OtherAside(run[m - 1], acts[m - 1], i);
    }
  }

  // --- Progress -----------------------------------------------------------

  /** Steps p makes from k up to m. */
  function StepsOf(acts: seq<Action>, p: Party, k: nat, m: nat): nat
    requires m <= |acts|
  {
    if m <= k then 0 else StepsOf(acts, p, k, m - 1) + if By(acts[m - 1], p) then 1 else 0
  }

  /** How many steps a push or a pop still takes at most. */
  function Ahead(o: Owner): nat {
    match o
    case PushTop(_, _) => 3
    case PushSlot(_, _) => 2
    case PushBottom(_, _) => 1
    case PopBottom(_) => 5
    case PopTop(_) => 4
    case PopLast(_) => 3
    case PopCas(_, _) => 2
    case PopEmpty(_) => 1
    case PopRead(_, _) => 1
    case PopFix(_, _) => 1
    case _ => 0
  }

  function ToGo(th: Thief): nat {
    match th
    case Away => 0
    case AtBottom(_) => 3
    case AtSlot(_) => 2
    case AtCas(_, _) => 1
  }

  lemma AheadFalls(s: Sys, a: Action)
    requires Enabled(s, a) && Ahead(s.owner) > 0
    ensures Ahead(Apply(s, a).owner) + (if By(a, Owning) then 1 else 0) <= Ahead(s.owner)
  {
  }

  /** A push makes its call and at most three more steps, a pop at most five, whatever
      others do. */
  lemma {:induction false} OwnerWaitFree(run: seq<Sys>, acts: seq<Action>, k: nat, m: nat)
    requires IsRun(run, acts) && k < m <= |acts| && (acts[k].PushBegin? || acts[k].PopBegin?) && Under(run, k, m - 1)
    ensures StepsOf(acts, Owning, k + 1, m) + Ahead(run[m].owner) <= if acts[k].PushBegin? then 3 else 5
  {
    assert StepAt(run, acts, m - 1);
    if m > k + 1 {
      OwnerWaitFree(run, acts, k, m - 1);
      if acts[k].PushBegin? {
        PushStage(run, acts, k, m - 1, acts[k].v);
      } else {
        PopStage(run, acts, k, m - 1);
      }
      AheadFalls(run[m - 1], acts[m - 1]);
    }
  }

  lemma ToGoFalls(s: Sys, a: Action, i: nat)
    requires Enabled(s, a) && i < |s.thieves| && s.thieves[i] != Away
    ensures |Apply(s, a).thieves| == |s.thieves|
    ensures ToGo(Apply(s, a).thieves[i]) + (if By(a, Stealing(i)) then 1 else 0) <= ToGo(s.thieves[i])
  {
  }

  /** A steal makes its first load and at most three more steps. */
  lemma {:induction false} StealWaitFree(run: seq<Sys>, acts: seq<Action>, i: nat, k: nat, m: nat)
    requires IsRun(run, acts) && k < m <= |acts| && Inside(run, i, k, m - 1)
    requires acts[k] == ThiefStep(i) && i < |run[k].thieves| && run[k].thieves[i] == Away
    ensures i < |run[m].thieves| && StepsOf(acts, Stealing(i), k + 1, m) + ToGo(run[m].thieves[i]) <= 3
  {
    if m == k + 1 {
      StealBegins(run, acts, i, k);
    } else {
      StealWaitFree(run, acts, i, k, m - 1);
      assert StepAt(run, acts, m - 1);
      ToGoFalls(run[m - 1], acts[m - 1], i);
    }
  }
}
