/**
 * Spawns and returns of task structs, from their call to their end, in any run
 * and whatever other threads do meanwhile: where the struct of a spawn comes
 * from, where a finished one goes, and what becomes of those handed back.
 */
module PoolCalls {
  import opened Tally
  import opened TaskPool

  // What one step may do to the structs of a kind.
  datatype Event =
    | SawNoFree     // found the owner's free list empty
    | SawNoSpare    // found the spares empty
    | SawFull       // found the free lists at their cap
    | TookSpare     // took a struct off the spares
    | Made          // had one from the allocator
    | GaveSpare     // put one on the spares
    | Refusal       // was refused an inbox slot

  ghost predicate Happens(e: Event, s: Sys, a: Action, t: Sys, k: bool) {
    match e
    case SawNoFree => s.Of(k).free == 0
    case SawNoSpare => s.Of(k).spare == 0
    case SawFull => FreeCount(s) >= s.local
    case TookSpare => s.Of(k).spare > 0 && t.Of(k) == s.Of(k).(spare := s.Of(k).spare - 1)
    case Made => Structs(t, k) == Structs(s, k) + 1
    case GaveSpare => t.Of(k) == s.Of(k).(spare := s.Of(k).spare + 1)
    case Refusal => a.Refused?
  }

  predicate By(a: Action, i: nat) {
    (a.Step? || a.Refused?) && a.i == i
  }

  // Thread i has done so at one of its steps after m and before n.
  ghost predicate Has(run: seq<Sys>, acts: seq<Action>, i: nat, k: bool, m: nat, n: nat, e: Event)
    requires n <= |acts| < |run|
  {
    exists j :: m < j < n && By(acts[j], i) && Happens(e, run[j], acts[j], run[j + 1], k)
  }

  lemma HasStays(run: seq<Sys>, acts: seq<Action>, i: nat, k: bool, m: nat, n: nat, e: Event)
    requires m < n < |acts| < |run|
    ensures Has(run, acts, i, k, m, n, e) ==> Has(run, acts, i, k, m, n + 1, e)
    ensures By(acts[n], i) && Happens(e, run[n], acts[n], run[n + 1], k) ==> Has(run, acts, i, k, m, n + 1, e)
  {
    if Has(run, acts, i, k, m, n, e) {
      var j :| m < j < n && By(acts[j], i) && Happens(e, run[j], acts[j], run[j + 1], k);
    }
  }

  lemma AllStay(run: seq<Sys>, acts: seq<Action>, i: nat, k: bool, m: nat, n: nat)
    requires m < n < |acts| < |run|
    ensures forall e :: Has(run, acts, i, k, m, n, e) ==> Has(run, acts, i, k, m, n + 1, e)
    ensures Sourced(run, acts, i, k, m, n) ==> Sourced(run, acts, i, k, m, n + 1)
  {
    forall e
      ensures Has(run, acts, i, k, m, n, e) ==> Has(run, acts, i, k, m, n + 1, e)
    {
      HasStays(run, acts, i, k, m, n, e);
    }
  }

  ghost predicate Under(run: seq<Sys>, i: nat, m: nat, n: nat)
    requires n < |run|
  {
    forall j {:trigger run[j]} :: m < j <= n ==> i < |run[j].threads| && run[j].threads[i] != Idle
  }

  lemma OthersAside(s: Sys, a: Action, i: nat)
    requires Enabled(s, a) && i < |s.threads| && s.threads[i] != Idle && !By(a, i)
    ensures i < |Apply(s, a).threads| && Apply(s, a).threads[i] == s.threads[i]
  {
    if a.Step? {
      AdvanceThreads(s, a.i, a.ok);
    }
  }

  // ---- Spawns ----

  // Where a spawn has its struct from: the spares; or, these being empty, the
  // allocator.  The owner has found its free list empty before.
  ghost predicate Sourced(run: seq<Sys>, acts: seq<Action>, i: nat, k: bool, m: nat, n: nat)
    requires n <= |acts| < |run|
  {
    && Barren(run, acts, i, k, m, n)
    && (|| Has(run, acts, i, k, m, n, TookSpare)
        || (Has(run, acts, i, k, m, n, SawNoSpare) && Has(run, acts, i, k, m, n, Made)))
  }

  predicate Spawning(p: Pc, k: bool) {
    (p.Look? || p.Want? || p.Peek? || p.Unhook? || p.Leave? || p.Alloc? || p.Hold?) && p.k == k
  }

  predicate Giving(p: Pc, k: bool) {
    (p.PutWant? || p.PutPeek? || p.Hook?) && p.k == k
  }

  // The owner has found its free list empty.
  ghost predicate Barren(run: seq<Sys>, acts: seq<Action>, i: nat, k: bool, m: nat, n: nat)
    requires n <= |acts| < |run|
  {
    i == 0 ==> Has(run, acts, i, k, m, n, SawNoFree)
  }

  ghost predicate SpawnAt(run: seq<Sys>, acts: seq<Action>, i: nat, k: bool, m: nat, n: nat, p: Pc)
    requires n <= |acts| < |run|
  {
    match p
    case Look(_) => i == 0
    case Want(_) => Barren(run, acts, i, k, m, n)
    case Peek(_) => Barren(run, acts, i, k, m, n)
    case Unhook(_, _) => Barren(run, acts, i, k, m, n)
    case Leave(_, found) =>
      Barren(run, acts, i, k, m, n) && Has(run, acts, i, k, m, n, if found then TookSpare else SawNoSpare)
    case Alloc(_) => Barren(run, acts, i, k, m, n) && Has(run, acts, i, k, m, n, SawNoSpare)
    case Hold(_) => i != 0 && Sourced(run, acts, i, k, m, n)
    case _ =>
      && i != 0 && Sourced(run, acts, i, k, m, n) && Has(run, acts, i, k, m, n, Refusal)
      && (p == PutLeave ==> Has(run, acts, i, k, m, n, GaveSpare))
  }

  ghost predicate SpawnStage(run: seq<Sys>, acts: seq<Action>, i: nat, k: bool, m: nat, n: nat)
    requires n <= |acts| < |run|
  {
    && i < |run[n].threads|
    && var p := run[n].threads[i];
       (Spawning(p, k) || Giving(p, k) || p == PutLeave) && SpawnAt(run, acts, i, k, m, n, p)
  }

  // A task more is live, and nothing else changes.
  predicate Enlivens(s: Sys, t: Sys, k: bool) {
    t.Of(k) == s.Of(k).(live := s.Of(k).live + 1)
  }

  predicate EnlivensFree(s: Sys, t: Sys, k: bool) {
    s.Of(k).free > 0 && t.Of(k) == s.Of(k).(free := s.Of(k).free - 1, live := s.Of(k).live + 1)
  }

  // How a spawn may end.
  ghost predicate SpawnEnd(run: seq<Sys>, acts: seq<Action>, i: nat, k: bool, m: nat, n: nat)
    requires n < |acts| < |run|
  {
    // the owner takes a struct of its own;
    || (i == 0 && EnlivensFree(run[n], run[n + 1], k))
    // one from elsewhere;
    || (Enlivens(run[n], run[n + 1], k) && Sourced(run, acts, i, k, m, n + 1))
    // no memory;
    || (acts[n] == Step(i, false) && run[n + 1].Of(k) == run[n].Of(k) && Has(run, acts, i, k, m, n, SawNoSpare))
    // refused, and the struct freed, or given to the spares.
    || (acts[n] == Refused(i, false) && run[n + 1].Of(k) == run[n].Of(k) && Sourced(run, acts, i, k, m, n))
    || (Has(run, acts, i, k, m, n, Refusal) && Has(run, acts, i, k, m, n, GaveSpare) && Sourced(run, acts, i, k, m, n))
  }

  // What the thread's own access does, by where it stands.
  lemma SpawnAccess(s: Sys, i: nat, ok: bool, k: bool)
    requires Good(s) && i < |s.threads| && Spawning(s.threads[i], k) && (s.threads[i].Look? ==> i == 0)
    requires s.threads[i].Hold? ==> i != 0
    ensures var t, p := Advance(s, i, ok), s.threads[i];
      && i < |t.threads|
      && var q := t.threads[i];
         match p
         case Look(_) => if q == Idle then EnlivensFree(s, t, k) else q == Want(k) && s.Of(k).free == 0
         case Want(_) => q == Want(k) || q == Peek(k)
         case Peek(_) => if s.Of(k).spare == 0 then q == Leave(k, false) else q.Unhook? && q.k == k
         case Unhook(_, _) => q == Leave(k, true) && Happens(TookSpare, s, Step(i, ok), t, k)
         case Leave(_, found) =>
           if !found then q == Alloc(k) else if i == 0 then q == Idle && Enlivens(s, t, k) else q == Hold(k)
         case Alloc(_) =>
           if !ok then q == Idle && t.Of(k) == s.Of(k)
           else Happens(Made, s, Step(i, ok), t, k) && if i == 0 then q == Idle && Enlivens(s, t, k) else q == Hold(k)
         case _ => q == Idle && Enlivens(s, t, k)
  {
    assert ThreadOk(s, i);
    if s.threads[i].Alloc? {
      AdvanceConserves(s, i, ok, k);
    }
  }

  lemma GiveAccess(s: Sys, i: nat, ok: bool, k: bool)
    requires Good(s) && i < |s.threads| && Giving(s.threads[i], k)
    ensures var t, p := Advance(s, i, ok), s.threads[i];
      && i < |t.threads|
      && var q := t.threads[i];
         if p.Hook? then q == PutLeave && Happens(GaveSpare, s, Step(i, ok), t, k) else Giving(q, k)
  {
    assert ThreadOk(s, i);
  }

  // The search for a struct: the free list, the spares.
  lemma LookOwn(run: seq<Sys>, acts: seq<Action>, i: nat, k: bool, m: nat, n: nat)
    requires IsRun(run, acts) && m < n < |acts| && SpawnStage(run, acts, i, k, m, n)
    requires acts[n].Step? && acts[n].i == i && run[n].threads[i] == Look(k)
    ensures i < |run[n + 1].threads|
    ensures if run[n + 1].threads[i] == Idle then SpawnEnd(run, acts, i, k, m, n)
      else SpawnStage(run, acts, i, k, m, n + 1)
  {
    RunGood(run, acts, n);
    assert StepAt(run, acts, n);
    SpawnAccess(run[n], i, acts[n].ok, k);
    HasStays(run, acts, i, k, m, n, SawNoFree);
  }

  lemma PeekOwn(run: seq<Sys>, acts: seq<Action>, i: nat, k: bool, m: nat, n: nat)
    requires IsRun(run, acts) && m < n < |acts| && SpawnStage(run, acts, i, k, m, n)
    requires acts[n].Step? && acts[n].i == i && (run[n].threads[i] == Want(k) || run[n].threads[i] == Peek(k))
    ensures i < |run[n + 1].threads|
    ensures SpawnStage(run, acts, i, k, m, n + 1)
  {
    RunGood(run, acts, n);
    assert StepAt(run, acts, n);
    SpawnAccess(run[n], i, acts[n].ok, k);
    HasStays(run, acts, i, k, m, n, SawNoFree);
    HasStays(run, acts, i, k, m, n, SawNoSpare);
  }

  lemma UnhookOwn(run: seq<Sys>, acts: seq<Action>, i: nat, k: bool, m: nat, n: nat)
    requires IsRun(run, acts) && m < n < |acts| && SpawnStage(run, acts, i, k, m, n)
    requires acts[n].Step? && acts[n].i == i && run[n].threads[i].Unhook? && run[n].threads[i].k == k
    ensures i < |run[n + 1].threads|
    ensures SpawnStage(run, acts, i, k, m, n + 1)
  {
    RunGood(run, acts, n);
    assert StepAt(run, acts, n);
    SpawnAccess(run[n], i, acts[n].ok, k);
    HasStays(run, acts, i, k, m, n, SawNoFree);
    HasStays(run, acts, i, k, m, n, TookSpare);
  }

  lemma LeaveOwn(run: seq<Sys>, acts: seq<Action>, i: nat, k: bool, m: nat, n: nat)
    requires IsRun(run, acts) && m < n < |acts| && SpawnStage(run, acts, i, k, m, n)
    requires acts[n].Step? && acts[n].i == i && run[n].threads[i].Leave? && run[n].threads[i].k == k
    ensures i < |run[n + 1].threads|
    ensures if run[n + 1].threads[i] == Idle then SpawnEnd(run, acts, i, k, m, n)
      else SpawnStage(run, acts, i, k, m, n + 1)
  {
    RunGood(run, acts, n);
    assert StepAt(run, acts, n);
    SpawnAccess(run[n], i, acts[n].ok, k);
    HasStays(run, acts, i, k, m, n, SawNoFree);
    HasStays(run, acts, i, k, m, n, TookSpare);
    HasStays(run, acts, i, k, m, n, SawNoSpare);
  }

  // With none found, or with it in hand.
  lemma AllocOwn(run: seq<Sys>, acts: seq<Action>, i: nat, k: bool, m: nat, n: nat)
    requires IsRun(run, acts) && m < n < |acts| && SpawnStage(run, acts, i, k, m, n)
    requires acts[n].Step? && acts[n].i == i && run[n].threads[i] == Alloc(k)
    ensures i < |run[n + 1].threads|
    ensures if run[n + 1].threads[i] == Idle then SpawnEnd(run, acts, i, k, m, n)
      else SpawnStage(run, acts, i, k, m, n + 1)
  {
    RunGood(run, acts, n);
    assert StepAt(run, acts, n);
    SpawnAccess(run[n], i, acts[n].ok, k);
    HasStays(run, acts, i, k, m, n, SawNoFree);
    HasStays(run, acts, i, k, m, n, SawNoSpare);
    HasStays(run, acts, i, k, m, n, Made);
  }

  lemma HoldOwn(run: seq<Sys>, acts: seq<Action>, i: nat, k: bool, m: nat, n: nat)
    requires IsRun(run, acts) && m < n < |acts| && SpawnStage(run, acts, i, k, m, n)
    requires acts[n].Step? && acts[n].i == i && run[n].threads[i] == Hold(k)
    ensures i < |run[n + 1].threads|
    ensures run[n + 1].threads[i] == Idle && SpawnEnd(run, acts, i, k, m, n)
  {
    RunGood(run, acts, n);
    assert StepAt(run, acts, n);
    SpawnAccess(run[n], i, acts[n].ok, k);
    HasStays(run, acts, i, k, m, n, SawNoFree);
    AllStay(run, acts, i, k, m, n);
  }

  lemma GiveOwn(run: seq<Sys>, acts: seq<Action>, i: nat, k: bool, m: nat, n: nat)
    requires IsRun(run, acts) && m < n < |acts| && SpawnStage(run, acts, i, k, m, n) && !Spawning(run[n].threads[i], k)
    requires acts[n].Step? && acts[n].i == i
    ensures i < |run[n + 1].threads|
    ensures if run[n + 1].threads[i] == Idle then SpawnEnd(run, acts, i, k, m, n)
      else SpawnStage(run, acts, i, k, m, n + 1)
  {
    RunGood(run, acts, n);
    assert StepAt(run, acts, n);
    if Giving(run[n].threads[i], k) {
      GiveAccess(run[n], i, acts[n].ok, k);
    }
    AllStay(run, acts, i, k, m, n);
    HasStays(run, acts, i, k, m, n, GaveSpare);
  }

  lemma RefusedOwn(run: seq<Sys>, acts: seq<Action>, i: nat, k: bool, m: nat, n: nat)
    requires IsRun(run, acts) && m < n < |acts| && SpawnStage(run, acts, i, k, m, n)
    requires acts[n].Refused? && acts[n].i == i
    ensures i < |run[n + 1].threads|
    ensures if run[n + 1].threads[i] == Idle then SpawnEnd(run, acts, i, k, m, n)
      else SpawnStage(run, acts, i, k, m, n + 1)
  {
    assert StepAt(run, acts, n);
    AllStay(run, acts, i, k, m, n);
    HasStays(run, acts, i, k, m, n, Refusal);
  }

  lemma SpawnWaits(run: seq<Sys>, acts: seq<Action>, i: nat, k: bool, m: nat, n: nat)
    requires IsRun(run, acts) && m < n < |acts| && SpawnStage(run, acts, i, k, m, n) && !By(acts[n], i)
    ensures SpawnStage(run, acts, i, k, m, n + 1)
  {
    assert StepAt(run, acts, n);
    OthersAside(run[n], acts[n], i);
    AllStay(run, acts, i, k, m, n);
  }

  lemma StepOwn(run: seq<Sys>, acts: seq<Action>, i: nat, k: bool, m: nat, n: nat)
    requires IsRun(run, acts) && m < n < |acts| && SpawnStage(run, acts, i, k, m, n)
    requires acts[n].Step? && acts[n].i == i
    ensures i < |run[n + 1].threads|
    ensures if run[n + 1].threads[i] == Idle then SpawnEnd(run, acts, i, k, m, n)
      else SpawnStage(run, acts, i, k, m, n + 1)
  {
    match run[n].threads[i]
    case Look(_) => LookOwn(run, acts, i, k, m, n);
    case Want(_) => PeekOwn(run, acts, i, k, m, n);
    case Peek(_) => PeekOwn(run, acts, i, k, m, n);
    case Unhook(_, _) => UnhookOwn(run, acts, i, k, m, n);
    case Leave(_, _) => LeaveOwn(run, acts, i, k, m, n);
    case Alloc(_) => AllocOwn(run, acts, i, k, m, n);
    case Hold(_) => HoldOwn(run, acts, i, k, m, n);
    case _ => GiveOwn(run, acts, i, k, m, n);
  }

  lemma SpawnOne(run: seq<Sys>, acts: seq<Action>, i: nat, k: bool, m: nat, n: nat)
    requires IsRun(run, acts) && m < n < |acts| && SpawnStage(run, acts, i, k, m, n)
    ensures i < |run[n + 1].threads|
    ensures if run[n + 1].threads[i] == Idle then By(acts[n], i) && SpawnEnd(run, acts, i, k, m, n)
      else SpawnStage(run, acts, i, k, m, n + 1)
  {
    if !By(acts[n], i) {
      SpawnWaits(run, acts, i, k, m, n);
    } else if acts[n].Refused? {
      RefusedOwn(run, acts, i, k, m, n);
    } else {
      StepOwn(run, acts, i, k, m, n);
    }
  }

  lemma SpawnBegins(run: seq<Sys>, acts: seq<Action>, i: nat, k: bool, m: nat)
    requires IsRun(run, acts) && m < |acts| && acts[m] == Spawn(i, k)
    ensures SpawnStage(run, acts, i, k, m, m + 1)
  {
    assert StepAt(run, acts, m);
  }

  lemma {:induction false} SpawnStays(run: seq<Sys>, acts: seq<Action>, i: nat, k: bool, m: nat, n: nat)
    requires IsRun(run, acts) && m < n <= |acts| && acts[m] == Spawn(i, k) && Under(run, i, m, n)
    ensures SpawnStage(run, acts, i, k, m, n)
  {
    if n == m + 1 {
      SpawnBegins(run, acts, i, k, m);
    } else {
      SpawnStays(run, acts, i, k, m, n - 1);
      SpawnOne(run, acts, i, k, m, n - 1);
    }
  }

  // A spawn that is over has made one task live, with a struct off the owner's free
  // list, off the spares, or from the allocator only after it found these empty; or
  // there was no memory; or it was refused, and has freed its struct or given it to
  // the spares.
  lemma SpawnDone(run: seq<Sys>, acts: seq<Action>, i: nat, k: bool, m: nat, n: nat)
    requires IsRun(run, acts) && m < n < |acts| && acts[m] == Spawn(i, k) && Under(run, i, m, n)
    requires i < |run[n + 1].threads| && run[n + 1].threads[i] == Idle
    ensures By(acts[n], i) && SpawnEnd(run, acts, i, k, m, n)
  {
    SpawnStays(run, acts, i, k, m, n);
    SpawnOne(run, acts, i, k, m, n);
  }

  // ---- Putting a struct away ----

  // The owner has a struct to put away: a task ended at home and is kept, or it
  // takes one up that another loop handed back.
  predicate PutBegins(a: Action, k: bool) {
    a == FinishHome(k, true) || a == DrainOne(k)
  }

  ghost predicate PutStage(run: seq<Sys>, acts: seq<Action>, k: bool, m: nat, n: nat)
    requires n <= |acts| < |run|
  {
    && |run[n].threads| > 0
    && var p := run[n].threads[0];
       && (p == Return(k) || Giving(p, k) || p == PutLeave)
       && (p != Return(k) ==> Has(run, acts, 0, k, m, n, SawFull))
       && (p == PutLeave ==> Has(run, acts, 0, k, m, n, GaveSpare))
  }

  // On the free list if there is room; else, the lists being full, on the spares.
  ghost predicate PutEnd(run: seq<Sys>, acts: seq<Action>, k: bool, m: nat, n: nat)
    requires n < |acts| < |run|
  {
    || (FreeCount(run[n]) < run[n].local && run[n + 1].Of(k) == run[n].Of(k).(free := run[n].Of(k).free + 1))
    || (Has(run, acts, 0, k, m, n, SawFull) && Has(run, acts, 0, k, m, n, GaveSpare))
  }

  lemma PutAccess(s: Sys, ok: bool, k: bool)
    requires |s.threads| > 0 && s.threads[0] == Return(k)
    ensures var t := Advance(s, 0, ok);
      && |t.threads| > 0
      && if FreeCount(s) < s.local then t.threads[0] == Idle && t.Of(k) == s.Of(k).(free := s.Of(k).free + 1)
         else t.threads[0] == PutWant(k)
  {
  }

  lemma PutOne(run: seq<Sys>, acts: seq<Action>, k: bool, m: nat, n: nat)
    requires IsRun(run, acts) && m < n < |acts| && PutStage(run, acts, k, m, n)
    ensures |run[n + 1].threads| > 0
    ensures if run[n + 1].threads[0] == Idle then PutEnd(run, acts, k, m, n) else PutStage(run, acts, k, m, n + 1)
  {
    RunGood(run, acts, n);
    assert StepAt(run, acts, n);
    AllStay(run, acts, 0, k, m, n);
    if !By(acts[n], 0) {
      OthersAside(run[n], acts[n], 0);
    } else if run[n].threads[0] == Return(k) {
      PutAccess(run[n], acts[n].ok, k);
      HasStays(run, acts, 0, k, m, n, SawFull);
    } else if Giving(run[n].threads[0], k) {
      GiveAccess(run[n], 0, acts[n].ok, k);
      HasStays(run, acts, 0, k, m, n, GaveSpare);
    }
  }

  lemma PutStarts(run: seq<Sys>, acts: seq<Action>, k: bool, m: nat)
    requires IsRun(run, acts) && m < |acts| && PutBegins(acts[m], k)
    ensures PutStage(run, acts, k, m, m + 1)
  {
    assert StepAt(run, acts, m);
  }

  lemma {:induction false} PutStays(run: seq<Sys>, acts: seq<Action>, k: bool, m: nat, n: nat)
    requires IsRun(run, acts) && m < n <= |acts| && PutBegins(acts[m], k) && Under(run, 0, m, n)
    ensures PutStage(run, acts, k, m, n)
  {
    if n == m + 1 {
      PutStarts(run, acts, k, m);
    } else {
      PutStays(run, acts, k, m, n - 1);
      PutOne(run, acts, k, m, n - 1);
    }
  }

  // A struct the owner has put away is on its free list, or on the spares if the
  // lists were at their cap.
  lemma PutDone(run: seq<Sys>, acts: seq<Action>, k: bool, m: nat, n: nat)
    requires IsRun(run, acts) && m < n < |acts| && PutBegins(acts[m], k) && Under(run, 0, m, n)
    requires |run[n + 1].threads| > 0 && run[n + 1].threads[0] == Idle
    ensures PutEnd(run, acts, k, m, n)
  {
    PutStays(run, acts, k, m, n);
    PutOne(run, acts, k, m, n);
  }

  // ---- Structs handed back ----

  // In the first n steps: tasks ended on other loops, structs the owner took off
  // the hand-back stack, and of these how many it has taken up.
  function EndedAway(acts: seq<Action>, k: bool, n: nat): nat
    requires n <= |acts|
  {
    if n == 0 then 0 else EndedAway(acts, k, n - 1) + Bit(acts[n - 1] == FinishAway(k))
  }

  function TakenOff(run: seq<Sys>, acts: seq<Action>, k: bool, n: nat): nat
    requires n <= |acts| < |run|
  {
    if n == 0 then 0 else TakenOff(run, acts, k, n - 1) + if acts[n - 1] == Drain then run[n - 1].Of(k).dead else 0
  }

  function TakenUp(acts: seq<Action>, k: bool, n: nat): nat
    requires n <= |acts|
  {
    if n == 0 then 0 else TakenUp(acts, k, n - 1) + Bit(acts[n - 1] == DrainOne(k))
  }

  lemma BackMoves(s: Sys, a: Action, k: bool)
    requires Enabled(s, a)
    ensures Apply(s, a).Of(k).dead == if a == Drain then 0 else s.Of(k).dead + Bit(a == FinishAway(k))
    ensures Apply(s, a).Of(k).draining + Bit(a == DrainOne(k))
         == s.Of(k).draining + if a == Drain then s.Of(k).dead else 0
  {
  }

  // Each is taken off the stack once and taken up once, or still on its way.
  lemma {:induction false} BackLedger(run: seq<Sys>, acts: seq<Action>, k: bool, n: nat)
    requires IsRun(run, acts) && n <= |acts|
    ensures EndedAway(acts, k, n) == TakenOff(run, acts, k, n) + run[n].Of(k).dead
    ensures TakenOff(run, acts, k, n) == TakenUp(acts, k, n) + run[n].Of(k).draining
  {
    if n > 0 {
      BackLedger(run, acts, k, n - 1);
      assert StepAt(run, acts, n - 1);
      BackMoves(run[n - 1], acts[n - 1], k);
    }
  }
}
