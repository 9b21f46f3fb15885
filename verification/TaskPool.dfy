/**
 * Recycling of task structs (src/evt/task.c): the owner's free lists, the
 * spares any thread may take under a spinlock, and the stack on which other
 * loops hand structs back.  One home loop, its owner (thread 0) and any number
 * of other threads spawning onto it; each atomic access is one step.  Pinned
 * and migratable structs are kept apart; `k` below is the pinned-ness.
 */
module TaskPool {
  import opened Tally

  const RETAIN_MAX: nat := 4096

  // Where a thread stands in a spawn or in giving a struct back.
  datatype Pc =
    | Idle
    | Look(k: bool)                    // owner: about to check its free list
    | Want(k: bool)                    // about to take the spare lock
    | Peek(k: bool)                    // has the lock: about to read the spare head
    | Unhook(k: bool, seen: nat)       // read a head: about to store the next one
    | Leave(k: bool, found: bool)      // about to release the lock
    | Alloc(k: bool)                   // found nothing: about to call the allocator
    | Hold(k: bool)                    // not the owner: has a struct, about to charge an inbox slot
    | Return(k: bool)                  // owner: has a finished struct to put away
    | PutWant(k: bool)                 // giving it to the spares: about to take the lock
    | PutPeek(k: bool)                 // has the lock: about to read the spare head
    | Hook(k: bool, seen: nat)         // about to store the new head
    | PutLeave                         // about to release the lock

  // How many structs of one pinned-ness are where.  live: tasks spawned and not
  // finished; dead: handed back by other loops; draining: taken off that stack by
  // the owner and not yet put away.
  datatype Counts = Counts(free: nat, spare: nat, live: nat, dead: nat, draining: nat)

  datatype Sys = Sys(local: nat, pinned: Counts, loose: Counts, lock: bool, holder: nat, threads: seq<Pc>) {
    function Of(k: bool): Counts {
      if k then pinned else loose
    }

    function Put(k: bool, c: Counts): Sys {
      if k then this.(pinned := c) else this.(loose := c)
    }
  }

  datatype Action =
    | Spawn(i: nat, k: bool)
    | Step(i: nat, ok: bool)           // thread i's next access; ok: the allocator has memory
    | Refused(i: nat, stable: bool)    // no inbox slot: a type-stable struct goes to the spares
    | FinishHome(k: bool, keep: bool)  // a task ends on its home loop; keep: recycle it
    | FinishAway(k: bool)              // a task ends on another loop and is handed back
    | Drain                            // the owner takes the hand-back stack
    | DrainOne(k: bool)                // and recycles one struct of it

  const NONE := Counts(0, 0, 0, 0, 0)

  ghost predicate Init(s: Sys) {
    && s.pinned == NONE && s.loose == NONE && !s.lock
    && |s.threads| > 0 && forall i :: 0 <= i < |s.threads| ==> s.threads[i] == Idle
  }

  function FreeCount(s: Sys): nat {
    s.pinned.free + s.loose.free
  }

  function Retained(s: Sys): nat {
    FreeCount(s) + s.pinned.spare + s.loose.spare
  }

  function At(s: Sys, i: nat, p: Pc): Sys
    requires i < |s.threads|
  {
    s.(threads := s.threads[i := p])
  }

  predicate Enabled(s: Sys, a: Action) {
    match a
    case Spawn(i, k) => i < |s.threads| && s.threads[i] == Idle
    case Step(i, ok) => i < |s.threads| && s.threads[i] != Idle
    case Refused(i, stable) => i < |s.threads| && s.threads[i].Hold?
    case FinishHome(k, keep) =>
      |s.threads| > 0 && s.threads[0] == Idle && s.Of(k).live > 0 && (keep || Retained(s) >= RETAIN_MAX)
    case FinishAway(k) => s.Of(k).live > 0
    case Drain => |s.threads| > 0 && s.threads[0] == Idle && s.pinned.draining == 0 && s.loose.draining == 0
    case DrainOne(k) => |s.threads| > 0 && s.threads[0] == Idle && s.Of(k).draining > 0
  }

  // What the access of a thread i at p does to the counts of its kind; ok: the
  // allocator has memory; room: the free lists are below their cap.
  function Counted(c: Counts, p: Pc, i: nat, ok: bool, room: bool): Counts {
    match p
    case Look(_) => if c.free > 0 then c.(free := c.free - 1, live := c.live + 1) else c
    case Unhook(_, seen) => c.(spare := if seen > 0 then seen - 1 else 0)
    case Leave(_, found) => if found && i == 0 then c.(live := c.live + 1) else c
    case Alloc(_) => if ok && i == 0 then c.(live := c.live + 1) else c
    case Hold(_) => c.(live := c.live + 1)
    case Return(_) => if room then c.(free := c.free + 1) else c
    case Hook(_, seen) => c.(spare := seen + 1)
    case _ => c
  }

  // Where it stands then.  With a struct found or made, the owner's task is live
  // at once; another thread must first charge an inbox slot for it.
  function NextPc(c: Counts, p: Pc, i: nat, ok: bool, room: bool, lock: bool): Pc {
    match p
    case Idle => Idle
    case Look(k) => if c.free > 0 then Idle else Want(k)
    case Want(k) => if lock then p else Peek(k)
    case Peek(k) => if c.spare > 0 then Unhook(k, c.spare) else Leave(k, false)
    case Unhook(k, _) => Leave(k, true)
    case Leave(k, found) => if !found then Alloc(k) else if i == 0 then Idle else Hold(k)
    case Alloc(k) => if ok && i != 0 then Hold(k) else Idle
    case Hold(_) => Idle
    case Return(k) => if room then Idle else PutWant(k)
    case PutWant(k) => if lock then p else PutPeek(k)
    case PutPeek(k) => Hook(k, c.spare)
    case Hook(_, _) => PutLeave
    case PutLeave => Idle
  }

  // The kind a thread is busy with.
  function KindOf(p: Pc): bool {
    if p.Idle? || p.PutLeave? then true else p.k
  }

  predicate Takes(p: Pc, lock: bool) {
    (p.Want? || p.PutWant?) && !lock
  }

  // Thread i's next access.
  function Advance(s: Sys, i: nat, ok: bool): Sys
    requires i < |s.threads|
  {
    var p, room := s.threads[i], FreeCount(s) < s.local;
    var k := KindOf(p);
    s.Put(k, Counted(s.Of(k), p, i, ok, room)).(
      threads := s.threads[i := NextPc(s.Of(k), p, i, ok, room, s.lock)],
      lock := Takes(p, s.lock) || (s.lock && !p.Leave? && !p.PutLeave?),
      holder := if Takes(p, s.lock) then i else s.holder)
  }

  function Apply(s: Sys, a: Action): Sys
    requires Enabled(s, a)
  {
    match a
    case Spawn(i, k) => At(s, i, if i == 0 then Look(k) else Want(k))
    case Step(i, ok) => Advance(s, i, ok)
    case Refused(i, stable) => At(s, i, if stable then PutWant(s.threads[i].k) else Idle)
    case FinishHome(k, keep) =>
      At(s.Put(k, s.Of(k).(live := s.Of(k).live - 1)), 0, if keep then Return(k) else Idle)
    case FinishAway(k) => s.Put(k, s.Of(k).(live := s.Of(k).live - 1, dead := s.Of(k).dead + 1))
    case Drain => s.(pinned := Drained(s.pinned), loose := Drained(s.loose))
    case DrainOne(k) => At(s.Put(k, s.Of(k).(draining := s.Of(k).draining - 1)), 0, Return(k))
  }

  function Drained(c: Counts): Counts {
    c.(dead := 0, draining := c.dead)
  }

  // ---- Counting ----

  // The thread has a struct in its hands.
  predicate Carrying(p: Pc, k: bool) {
    && (p.Hold? || p.Return? || p.PutWant? || p.PutPeek? || p.Hook? || (p.Leave? && p.found))
    && p.k == k
  }

  // It has one, or has found none and is about to make one.
  predicate Claiming(p: Pc, k: bool) {
    Carrying(p, k) || ((p.Leave? || p.Alloc?) && p.k == k)
  }

  // It counts as a use: from the failed check of the free list (or the start of a
  // spawn from elsewhere) until the struct is put away.
  predicate Using(p: Pc, k: bool) {
    Claiming(p, k) || ((p.Want? || p.Peek? || p.Unhook?) && p.k == k)
  }

  function Carries(k: bool): Pc -> nat {
    (p: Pc) => if Carrying(p, k) then 1 else 0
  }

  function Claims(k: bool): Pc -> nat {
    (p: Pc) => if Claiming(p, k) then 1 else 0
  }

  function Uses(k: bool): Pc -> nat {
    (p: Pc) => if Using(p, k) then 1 else 0
  }

  function Settled(s: Sys, k: bool): nat {
    s.Of(k).live + s.Of(k).dead + s.Of(k).draining
  }

  // Structs of the loop, in existence.
  ghost function Structs(s: Sys, k: bool): nat {
    s.Of(k).free + s.Of(k).spare + Settled(s, k) + Total(s.threads, Carries(k))
  }

  // The same plus those about to be allocated.
  ghost function Owned(s: Sys, k: bool): nat {
    s.Of(k).free + s.Of(k).spare + Settled(s, k) + Total(s.threads, Claims(k))
  }

  ghost function InUse(s: Sys, k: bool): nat {
    Settled(s, k) + Total(s.threads, Uses(k))
  }

  // Inside the spinlock.
  predicate Inside(p: Pc) {
    p.Peek? || p.Unhook? || p.Leave? || p.PutPeek? || p.Hook? || p.PutLeave?
  }

  // What thread i relies on: it alone is inside, and what it read is current.
  predicate ThreadOk(s: Sys, i: nat)
    requires i < |s.threads|
  {
    var p := s.threads[i];
    && (Inside(p) ==> s.lock && s.holder == i)
    && (p.Unhook? || p.Hook? ==> p.seen == s.Of(p.k).spare)
    && (p.Unhook? ==> p.seen > 0)
    && (i != 0 ==> !p.Look? && !p.Return?)
  }

  ghost predicate Good(s: Sys) {
    && (forall i :: 0 <= i < |s.threads| ==> ThreadOk(s, i))
    && |s.threads| > 0
    && FreeCount(s) <= s.local
  }

  // ---- Invariants ----

  lemma AdvanceGood(s: Sys, i: nat, ok: bool, j: nat)
    requires i < |s.threads| && j < |s.threads| && ThreadOk(s, i) && ThreadOk(s, j)
    ensures ThreadOk(Advance(s, i, ok), j)
  {
  }

  lemma AdvanceFree(s: Sys, i: nat, ok: bool)
    requires i < |s.threads| && FreeCount(s) <= s.local
    ensures FreeCount(Advance(s, i, ok)) <= s.local
    ensures Advance(s, i, ok).local == s.local && |Advance(s, i, ok).threads| == |s.threads|
  {
  }

  lemma StepGood(s: Sys, a: Action)
    requires Good(s) && Enabled(s, a)
    ensures Good(Apply(s, a)) && Apply(s, a).local == s.local
  {
    var t := Apply(s, a);
    if a.Step? {
      AdvanceFree(s, a.i, a.ok);
    }
    forall j | 0 <= j < |t.threads| ensures ThreadOk(t, j) {
      assert ThreadOk(s, j);
      if a.Step? {
        AdvanceGood(s, a.i, a.ok, j);
      }
    }
  }

  // Structs not in any thread's hands.
  function Shelf(s: Sys, k: bool): nat {
    s.Of(k).free + s.Of(k).spare + Settled(s, k)
  }

  lemma AdvanceThreads(s: Sys, i: nat, ok: bool)
    requires i < |s.threads|
    ensures var t := Advance(s, i, ok); |t.threads| == |s.threads| && t.threads == s.threads[i := t.threads[i]]
  {
  }

  function Sum(c: Counts): nat {
    c.free + c.spare + c.live + c.dead + c.draining
  }

  // What an access from p to q does to the structs of a kind on the shelf and in
  // the thread's hands, the allocator's included; and to those and its claim,
  // unless it is a look at the spares that fails.
  predicate Booked(c: Counts, d: Counts, p: Pc, q: Pc, k: bool, ok: bool) {
    && Sum(d) + Bit(Carrying(q, k)) == Sum(c) + Bit(Carrying(p, k)) + Bit(p.Alloc? && p.k == k && ok)
    && ((p.Peek? && p.k == k && c.spare == 0) || Sum(d) + Bit(Claiming(q, k)) <= Sum(c) + Bit(Claiming(p, k)))
  }

  lemma OwnBooked(c: Counts, p: Pc, i: nat, ok: bool, room: bool, lock: bool)
    requires (p.Unhook? ==> p.seen == c.spare > 0) && (p.Hook? ==> p.seen == c.spare)
    ensures var d, q, k := Counted(c, p, i, ok, room), NextPc(c, p, i, ok, room, lock), KindOf(p);
      && Sum(d) + Bit(Carrying(q, k)) == Sum(c) + Bit(Carrying(p, k)) + Bit(p.Alloc? && ok)
      && ((p.Peek? && c.spare == 0) || Sum(d) + Bit(Claiming(q, k)) <= Sum(c) + Bit(Claiming(p, k)))
      && (q.Idle? || q.PutLeave? || KindOf(q) == k)
  {
  }

  lemma OtherBooked(c: Counts, p: Pc, q: Pc, k: bool, ok: bool)
    requires KindOf(p) != k && (q.Idle? || q.PutLeave? || KindOf(q) == KindOf(p))
    ensures Booked(c, c, p, q, k, ok)
  {
  }

  lemma AdvanceBooked(s: Sys, i: nat, ok: bool, k: bool)
    requires i < |s.threads| && ThreadOk(s, i)
    ensures var t := Advance(s, i, ok); Booked(s.Of(k), t.Of(k), s.threads[i], t.threads[i], k, ok)
  {
    var p, room := s.threads[i], FreeCount(s) < s.local;
    var c := s.Of(KindOf(p));
    OwnBooked(c, p, i, ok, room, s.lock);
    if k != KindOf(p) {
      OtherBooked(s.Of(k), p, NextPc(c, p, i, ok, room, s.lock), k, ok);
    }
  }

  lemma FailedLook(s: Sys, i: nat, ok: bool, k: bool)
    requires Good(s) && i < |s.threads| && s.threads[i] == Peek(k) && s.Of(k).spare == 0
    ensures Owned(Advance(s, i, ok), k) <= InUse(Advance(s, i, ok), k) + s.local
  {
    TotalLe(Advance(s, i, ok).threads, Claims(k), Uses(k));
  }

  // Owned grows only where a look at the spares has just failed, and there
  // everything owned is in use or on the owner's free list.
  lemma AdvanceOwned(s: Sys, i: nat, ok: bool, k: bool)
    requires Good(s) && i < |s.threads|
    ensures var t := Advance(s, i, ok); Owned(t, k) <= Owned(s, k) || Owned(t, k) <= InUse(t, k) + s.local
  {
    assert ThreadOk(s, i);
    AdvanceThreads(s, i, ok);
    if s.threads[i] == Peek(k) && s.Of(k).spare == 0 {
      FailedLook(s, i, ok, k);
    } else {
      AdvanceBooked(s, i, ok, k);
      TotalUpdate(s.threads, Claims(k), i, Advance(s, i, ok).threads[i]);
    }
  }

  // The struct goes back to the allocator.
  predicate Freed(s: Sys, a: Action, k: bool) {
    a == FinishHome(k, false) || (a.Refused? && a.i < |s.threads| && s.threads[a.i] == Hold(k) && !a.stable)
  }

  // A task ends, or the owner takes up a struct handed back.
  lemma OwnerShelf(s: Sys, a: Action, k: bool)
    requires Enabled(s, a) && |s.threads| > 0 && (a.FinishHome? || a.DrainOne?)
    ensures var t := Apply(s, a);
      && |t.threads| == |s.threads| && t.threads == s.threads[0 := t.threads[0]]
      && Shelf(t, k) + Claims(k)(t.threads[0]) <= Shelf(s, k) + Claims(k)(s.threads[0])
  {
  }

  lemma RefusedShelf(s: Sys, a: Action, k: bool)
    requires Enabled(s, a) && a.Refused?
    ensures var t := Apply(s, a);
      && |t.threads| == |s.threads| && t.threads == s.threads[a.i := t.threads[a.i]] && Shelf(t, k) == Shelf(s, k)
      && Claims(k)(t.threads[a.i]) <= Claims(k)(s.threads[a.i])
      && Carries(k)(s.threads[a.i]) == Carries(k)(t.threads[a.i]) + Bit(Freed(s, a, k))
  {
  }

  lemma HandBackShelf(s: Sys, a: Action, k: bool)
    requires Enabled(s, a) && (a.FinishAway? || a.Drain?)
    ensures Shelf(Apply(s, a), k) == Shelf(s, k) && Apply(s, a).threads == s.threads
  {
  }

  lemma StepOwned(s: Sys, a: Action, k: bool)
    requires Good(s) && Enabled(s, a)
    ensures Owned(Apply(s, a), k) <= Owned(s, k) || Owned(Apply(s, a), k) <= InUse(Apply(s, a), k) + s.local
  {
    if a.Spawn? {
      TotalUpdate(s.threads, Claims(k), a.i, Apply(s, a).threads[a.i]);
    } else if a.Step? {
      AdvanceOwned(s, a.i, a.ok, k);
    } else if a.Refused? {
      RefusedShelf(s, a, k);
      TotalUpdate(s.threads, Claims(k), a.i, Apply(s, a).threads[a.i]);
    } else if a.FinishHome? || a.DrainOne? {
      OwnerShelf(s, a, k);
      TotalUpdate(s.threads, Claims(k), 0, Apply(s, a).threads[0]);
    } else {
      HandBackShelf(s, a, k);
    }
  }

  // ---- Conservation ----

  lemma AdvanceConserves(s: Sys, i: nat, ok: bool, k: bool)
    requires i < |s.threads| && ThreadOk(s, i)
    ensures Structs(Advance(s, i, ok), k) == Structs(s, k) + Bit(s.threads[i] == Alloc(k) && ok)
  {
    AdvanceThreads(s, i, ok);
    AdvanceBooked(s, i, ok, k);
    TotalUpdate(s.threads, Carries(k), i, Advance(s, i, ok).threads[i]);
  }

  lemma OwnerConserves(s: Sys, a: Action, k: bool)
    requires Enabled(s, a) && |s.threads| > 0 && (a.FinishHome? || a.DrainOne?)
    ensures var t := Apply(s, a);
      && |t.threads| == |s.threads| && t.threads == s.threads[0 := t.threads[0]]
      && Shelf(t, k) + Carries(k)(t.threads[0]) + Bit(a == FinishHome(k, false))
         == Shelf(s, k) + Carries(k)(s.threads[0])
  {
  }

  // No struct is lost or doubled: the number of structs changes only by what
  // the allocator hands out and what goes back to it.
  lemma StepConserves(s: Sys, a: Action, k: bool)
    requires Good(s) && Enabled(s, a)
    ensures Structs(Apply(s, a), k) + Bit(Freed(s, a, k))
         == Structs(s, k) + Bit(a.Step? && s.threads[a.i] == Alloc(k) && a.ok)
  {
    if a.Spawn? {
      TotalUpdate(s.threads, Carries(k), a.i, Apply(s, a).threads[a.i]);
    } else if a.Step? {
      assert ThreadOk(s, a.i);
      AdvanceConserves(s, a.i, a.ok, k);
    } else if a.Refused? {
      RefusedShelf(s, a, k);
      TotalUpdate(s.threads, Carries(k), a.i, Apply(s, a).threads[a.i]);
    } else if a.FinishHome? || a.DrainOne? {
      OwnerConserves(s, a, k);
      TotalUpdate(s.threads, Carries(k), 0, Apply(s, a).threads[0]);
    } else {
      HandBackShelf(s, a, k);
    }
  }

  // ---- Runs ----

  ghost predicate IsRun(run: seq<Sys>, acts: seq<Action>) {
    && |run| == |acts| + 1 && Init(run[0])
    && forall m :: 0 <= m < |acts| ==> StepAt(run, acts, m)
  }

  predicate StepAt(run: seq<Sys>, acts: seq<Action>, m: nat)
    requires |run| == |acts| + 1 && m < |acts|
  {
    Enabled(run[m], acts[m]) && run[m + 1] == Apply(run[m], acts[m])
  }

  ghost function Peak(run: seq<Sys>, k: bool): nat {
    if run == [] then 0
    else
      var rest := Peak(run[..|run| - 1], k);
      var now := InUse(run[|run| - 1], k);
      if now > rest then now else rest
  }

  lemma {:induction false} RunGood(run: seq<Sys>, acts: seq<Action>, m: nat)
    requires IsRun(run, acts) && m <= |acts|
    ensures Good(run[m]) && run[m].local == run[0].local
  {
    if m > 0 {
      RunGood(run, acts, m - 1);
      assert StepAt(run, acts, m - 1);
      StepGood(run[m - 1], acts[m - 1]);
    }
  }

  lemma {:induction false} RunOwned(run: seq<Sys>, acts: seq<Action>, k: bool, m: nat)
    requires IsRun(run, acts) && m <= |acts|
    ensures Owned(run[m], k) <= Peak(run[..m + 1], k) + run[0].local
  {
    assert run[..m + 1][..m] == run[..m];
    if m == 0 {
      TotalZero(run[0].threads, Claims(k));
    } else {
      RunOwned(run, acts, k, m - 1);
      RunGood(run, acts, m - 1);
      assert StepAt(run, acts, m - 1);
      StepOwned(run[m - 1], acts[m - 1], k);
    }
  }

  // The structs of each pinned-ness never exceed the peak number in use plus
  // the owner's local cap, for any mix of home and foreign spawns.
  lemma Retention(run: seq<Sys>, acts: seq<Action>, k: bool, m: nat)
    requires IsRun(run, acts) && m <= |acts|
    ensures Structs(run[m], k) <= Peak(run[..m + 1], k) + run[0].local
  {
    RunOwned(run, acts, k, m);
    TotalLe(run[m].threads, Carries(k), Claims(k));
  }

  // ---- A refused spawn ----

  // By how much thread i's own accesses in steps from .. to have raised the spares.
  ghost function Gave(run: seq<Sys>, acts: seq<Action>, i: nat, k: bool, from: nat, upTo: nat): int
    requires |run| == |acts| + 1 && from <= upTo <= |acts|
  {
    if from == upTo then 0
    else
      Gave(run, acts, i, k, from, upTo - 1)
      + if acts[upTo - 1].Step? && acts[upTo - 1].i == i then run[upTo].Of(k).spare - run[upTo - 1].Of(k).spare else 0
  }

  // How far a thread has come in giving a struct of kind k to the spares: 0 with
  // it in hand, 1 with it there.
  predicate Giving(p: Pc, k: bool, given: int) {
    if given == 0 then p == PutWant(k) || p == PutPeek(k) || (p.Hook? && p.k == k)
    else given == 1 && (p == PutLeave || p == Idle)
  }

  lemma GivingStep(s: Sys, a: Action, i: nat, k: bool, given: int)
    requires Good(s) && Enabled(s, a) && i < |s.threads| && s.threads[i] != Idle && Giving(s.threads[i], k, given)
    ensures var t := Apply(s, a);
      && i < |t.threads|
      && Giving(t.threads[i], k, given + if a.Step? && a.i == i then t.Of(k).spare - s.Of(k).spare else 0)
  {
    assert ThreadOk(s, i);
    if a.Step? && a.i != i {
      AdvanceThreads(s, a.i, a.ok);
    }
  }

  // Whatever other threads do meanwhile: a type-stable struct whose spawn is
  // refused its inbox slot is given to the spares, once, before its thread is
  // done.
  lemma {:induction false} RefusedGiven(run: seq<Sys>, acts: seq<Action>, i: nat, k: bool, m: nat, n: nat)
    requires IsRun(run, acts) && m < n <= |acts| && acts[m] == Refused(i, true)
    requires i < |run[m].threads| && run[m].threads[i] == Hold(k)
    requires forall j :: m < j < n ==> i < |run[j].threads| && run[j].threads[i] != Idle
    ensures i < |run[n].threads| && Giving(run[n].threads[i], k, Gave(run, acts, i, k, m + 1, n))
    ensures run[n].threads[i] == Idle ==> Gave(run, acts, i, k, m + 1, n) == 1
  {
    assert StepAt(run, acts, m);
    if n > m + 1 {
      RefusedGiven(run, acts, i, k, m, n - 1);
      RunGood(run, acts, n - 1);
      assert StepAt(run, acts, n - 1);
      GivingStep(run[n - 1], acts[n - 1], i, k, Gave(run, acts, i, k, m + 1, n - 1));
    }
  }
}
