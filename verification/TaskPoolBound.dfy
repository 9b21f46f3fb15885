/**
 * When the retention bound of src/evt/task.c:62-68 holds: the peak number of
 * live tasks, plus the local cap, plus one.  A struct can be neither live nor on
 * a shelf: in a spawn under way, being put away, or handed back by another loop
 * and not yet taken up.  With at most one such struct or spawn at a time the
 * bound holds in every run; with two it fails for every cap, and with any number
 * of either kind alone no bound by the peak of live tasks holds at all.
 */
module TaskPoolBound {
  import opened Tally
  import opened TaskPool

  // What is in use without being a live task.
  ghost function Pending(s: Sys, k: bool): nat {
    s.Of(k).dead + s.Of(k).draining + Total(s.threads, Uses(k))
  }

  ghost function PeakLive(run: seq<Sys>, k: bool): nat {
    if run == [] then 0
    else
      var rest := PeakLive(run[..|run| - 1], k);
      var now := run[|run| - 1].Of(k).live;
      if now > rest then now else rest
  }

  ghost predicate PendingAtMost(run: seq<Sys>, k: bool, d: nat) {
    forall m :: 0 <= m < |run| ==> Pending(run[m], k) <= d
  }

  lemma {:induction false} PeakSplits(run: seq<Sys>, k: bool, d: nat)
    requires PendingAtMost(run, k, d)
    ensures Peak(run, k) <= PeakLive(run, k) + d
  {
    if run != [] {
      PeakSplits(run[..|run| - 1], k, d);
      assert InUse(run[|run| - 1], k) == run[|run| - 1].Of(k).live + Pending(run[|run| - 1], k);
    }
  }

  // With at most d pending, d more than the peak of live tasks and the cap.
  lemma LiveBound(run: seq<Sys>, acts: seq<Action>, k: bool, d: nat)
    requires IsRun(run, acts) && PendingAtMost(run, k, d)
    ensures Structs(Last(run), k) <= PeakLive(run, k) + run[0].local + d
  {
    Retention(run, acts, k, |acts|);
    assert run[..|acts| + 1] == run;
    PeakSplits(run, k, d);
  }

  ghost function Last(run: seq<Sys>): Sys
    requires run != []
  {
    run[|run| - 1]
  }

  // The bound as the comment has it, at the end of a run.
  ghost predicate WithinComment(run: seq<Sys>, k: bool)
    requires run != []
  {
    Structs(Last(run), k) <= PeakLive(run, k) + run[0].local + 1
  }

  // It holds at the end of every run with at most d pending, and so, every
  // start of a run being a run, throughout.
  ghost predicate CommentHolds(local: nat, d: nat) {
    forall run: seq<Sys>, acts: seq<Action>, k: bool ::
      IsRun(run, acts) && run[0].local == local && PendingAtMost(run, k, d) ==> WithinComment(run, k)
  }

  // Whatever the cap, the comment's bound is good for one pending and no more.
  lemma CommentExactly(local: nat, d: nat)
    ensures CommentHolds(local, d) <==> d <= 1
  {
    if d <= 1 {
      forall run: seq<Sys>, acts: seq<Action>, k: bool |
        IsRun(run, acts) && run[0].local == local && PendingAtMost(run, k, d)
        ensures WithinComment(run, k)
      {
        LiveBound(run, acts, k, d);
      }
    } else {
      var run, acts := TwoPending(local, true);
      assert PendingAtMost(run, true, d);
    }
  }

  // ---- Runs under construction ----

  // At most so many tasks live, uses by threads, and structs handed back.
  datatype Limits = Limits(live: nat, spawns: nat, back: nat)

  ghost predicate Meek(s: Sys, k: bool, lim: Limits) {
    s.Of(k).live <= lim.live && Total(s.threads, Uses(k)) <= lim.spawns && s.Of(k).dead + s.Of(k).draining <= lim.back
  }

  ghost predicate Trace(run: seq<Sys>, acts: seq<Action>, k: bool, lim: Limits) {
    IsRun(run, acts) && forall m :: 0 <= m < |run| ==> Meek(run[m], k, lim)
  }

  lemma RunGrows(run: seq<Sys>, acts: seq<Action>, a: Action, s: Sys)
    requires IsRun(run, acts) && Enabled(Last(run), a) && s == Apply(Last(run), a)
    ensures IsRun(run + [s], acts + [a])
  {
    var r, c := run + [s], acts + [a];
    forall m | 0 <= m < |c| ensures StepAt(r, c, m) {
      assert m < |acts| ==> StepAt(run, acts, m);
    }
  }

  lemma Extend(run: seq<Sys>, acts: seq<Action>, a: Action, s: Sys, k: bool, lim: Limits)
    returns (r: seq<Sys>, c: seq<Action>)
    requires Trace(run, acts, k, lim) && Enabled(Last(run), a) && s == Apply(Last(run), a) && Meek(s, k, lim)
    ensures Trace(r, c, k, lim) && Last(r) == s && r[0] == run[0]
  {
    r, c := run + [s], acts + [a];
    RunGrows(run, acts, a, s);
  }

  // s with thread i at p and the lock as given.
  function With(s: Sys, i: nat, p: Pc, lock: bool, holder: nat): Sys
    requires i < |s.threads|
  {
    At(s, i, p).(lock := lock, holder := holder)
  }

  // There is room for thread i to be anywhere.
  ghost predicate Room(s: Sys, i: nat, k: bool, lim: Limits) {
    && i < |s.threads| && s.threads[i] == Idle
    && s.Of(k).live <= lim.live && Total(s.threads, Uses(k)) < lim.spawns && s.Of(k).dead + s.Of(k).draining <= lim.back
  }

  lemma WithMeek(s: Sys, i: nat, p: Pc, lock: bool, holder: nat, k: bool, lim: Limits)
    requires Room(s, i, k, lim)
    ensures Meek(With(s, i, p, lock, holder), k, lim)
    ensures Total(With(s, i, p, lock, holder).threads, Uses(k)) == Total(s.threads, Uses(k)) + Uses(k)(p)
  {
    TotalUpdate(s.threads, Uses(k), i, p);
  }

  // Thread i, not the owner, starts to spawn and has the lock ...
  lemma Locks(run: seq<Sys>, acts: seq<Action>, i: nat, k: bool, lim: Limits) returns (r: seq<Sys>, c: seq<Action>)
    requires Trace(run, acts, k, lim) && Room(Last(run), i, k, lim) && i != 0 && !Last(run).lock
    ensures Trace(r, c, k, lim) && r[0] == run[0] && Last(r) == With(Last(run), i, Peek(k), true, i)
  {
    var s := Last(run);
    WithMeek(s, i, Want(k), s.lock, s.holder, k, lim);
    r, c := Extend(run, acts, Spawn(i, k), With(s, i, Want(k), s.lock, s.holder), k, lim);
    WithMeek(s, i, Peek(k), true, i, k, lim);
    r, c := Extend(r, c, Step(i, true), With(s, i, Peek(k), true, i), k, lim);
  }

  // ... finds the spares empty ...
  lemma Peeks(run: seq<Sys>, acts: seq<Action>, i: nat, k: bool, lim: Limits) returns (r: seq<Sys>, c: seq<Action>)
    requires Trace(run, acts, k, lim) && Room(Last(run), i, k, lim)
    requires i != 0 && !Last(run).lock && Last(run).Of(k).spare == 0
    ensures Trace(r, c, k, lim) && r[0] == run[0] && Last(r) == With(Last(run), i, Leave(k, false), true, i)
  {
    var s := Last(run);
    r, c := Locks(run, acts, i, k, lim);
    WithMeek(s, i, Leave(k, false), true, i, k, lim);
    r, c := Extend(r, c, Step(i, true), With(s, i, Leave(k, false), true, i), k, lim);
  }

  // ... and lets the lock go ...
  lemma FindsNone(run: seq<Sys>, acts: seq<Action>, i: nat, k: bool, lim: Limits) returns (r: seq<Sys>, c: seq<Action>)
    requires Trace(run, acts, k, lim) && Room(Last(run), i, k, lim)
    requires i != 0 && !Last(run).lock && Last(run).Of(k).spare == 0
    ensures Trace(r, c, k, lim) && r[0] == run[0] && Last(r) == With(Last(run), i, Alloc(k), false, i)
  {
    var s := Last(run);
    r, c := Peeks(run, acts, i, k, lim);
    WithMeek(s, i, Alloc(k), false, i, k, lim);
    r, c := Extend(r, c, Step(i, true), With(s, i, Alloc(k), false, i), k, lim);
  }

  // ... allocates ...
  lemma Allocates(run: seq<Sys>, acts: seq<Action>, i: nat, k: bool, lim: Limits) returns (r: seq<Sys>, c: seq<Action>)
    requires Trace(run, acts, k, lim) && Room(Last(run), i, k, lim)
    requires i != 0 && !Last(run).lock && Last(run).Of(k).spare == 0
    ensures Trace(r, c, k, lim) && r[0] == run[0] && Last(r) == With(Last(run), i, Hold(k), false, i)
  {
    var s := Last(run);
    r, c := FindsNone(run, acts, i, k, lim);
    WithMeek(s, i, Hold(k), false, i, k, lim);
    r, c := Extend(r, c, Step(i, true), With(s, i, Hold(k), false, i), k, lim);
  }

  // One task of kind k more is live.
  function Enliven(s: Sys, k: bool): Sys {
    s.Put(k, s.Of(k).(live := s.Of(k).live + 1))
  }

  // s with one more task live; every thread as before.
  function Livelier(s: Sys, i: nat, k: bool): Sys {
    Enliven(s, k).(lock := false, holder := i)
  }

  // ... and its task is live.
  lemma Spawns(run: seq<Sys>, acts: seq<Action>, i: nat, k: bool, lim: Limits) returns (r: seq<Sys>, c: seq<Action>)
    requires Trace(run, acts, k, lim) && Room(Last(run), i, k, lim)
    requires i != 0 && !Last(run).lock && Last(run).Of(k).spare == 0
    requires Last(run).Of(k).live < lim.live
    ensures Trace(r, c, k, lim) && r[0] == run[0] && Last(r) == Livelier(Last(run), i, k)
  {
    var s := Last(run);
    r, c := Allocates(run, acts, i, k, lim);
    assert s.threads[i := Hold(k)][i := Idle] == s.threads;
    r, c := Extend(r, c, Step(i, true), Livelier(s, i, k), k, lim);
  }

  // ---- Structs handed back ----

  ghost predicate AllIdle(s: Sys, n: nat) {
    |s.threads| == n && !s.lock && forall i :: 0 <= i < n ==> s.threads[i] == Idle
  }

  lemma IdleUses(s: Sys, n: nat, k: bool)
    requires AllIdle(s, n)
    ensures Total(s.threads, Uses(k)) == 0 && Total(s.threads, Carries(k)) == 0
  {
    TotalZero(s.threads, Uses(k));
    TotalZero(s.threads, Carries(k));
  }

  // However few threads spawn and however few tasks are live: while the owner is
  // busy, structs of tasks that finish elsewhere pile up without bound.
  lemma {:induction false} HandedBack(start: Sys, n: nat, k: bool) returns (run: seq<Sys>, acts: seq<Action>)
    requires Init(start) && |start.threads| == 2
    ensures Trace(run, acts, k, Limits(1, 1, n)) && run[0] == start
    ensures AllIdle(Last(run), 2) && Last(run).Of(k).dead == n && Structs(Last(run), k) == n
    ensures Last(run).Of(k).live == 0 && Last(run).Of(k).draining == 0
    ensures Last(run).Of(k).spare == 0 && Last(run).Of(k).free == 0
  {
    IdleUses(start, 2, k);
    if n == 0 {
      run, acts := [start], [];
    } else {
      run, acts := HandedBack(start, n - 1, k);
      Loosen(run, acts, k, Limits(1, 1, n - 1), Limits(1, 1, n));
      run, acts := OneAway(run, acts, n, k);
    }
  }

  lemma Loosen(run: seq<Sys>, acts: seq<Action>, k: bool, lim: Limits, wide: Limits)
    requires Trace(run, acts, k, lim) && lim.live <= wide.live && lim.spawns <= wide.spawns && lim.back <= wide.back
    ensures Trace(run, acts, k, wide)
  {
    forall m | 0 <= m < |run| ensures Meek(run[m], k, wide) {
      assert Meek(run[m], k, lim);
    }
  }

  lemma OneAway(run: seq<Sys>, acts: seq<Action>, n: nat, k: bool) returns (r: seq<Sys>, c: seq<Action>)
    requires n > 0 && Trace(run, acts, k, Limits(1, 1, n)) && AllIdle(Last(run), 2) && Last(run).Of(k).dead == n - 1
    requires var s := Last(run); s.Of(k).live == 0 && s.Of(k).draining == 0 && s.Of(k).spare == 0 && s.Of(k).free == 0
    ensures Trace(r, c, k, Limits(1, 1, n)) && r[0] == run[0]
    ensures AllIdle(Last(r), 2) && Last(r).Of(k).dead == n && Structs(Last(r), k) == n
    ensures var s := Last(r); s.Of(k).live == 0 && s.Of(k).draining == 0 && s.Of(k).spare == 0 && s.Of(k).free == 0
  {
    IdleUses(Last(run), 2, k);
    r, c := Spawns(run, acts, 1, k, Limits(1, 1, n));
    r, c := Extend(r, c, FinishAway(k), Apply(Last(r), FinishAway(k)), k, Limits(1, 1, n));
    IdleUses(Last(r), 2, k);
  }

  // ---- Two pending ----

  // No thread is busy, and this many tasks are live and structs free.
  ghost predicate Stocked(s: Sys, n: nat, live: nat, free: nat, k: bool) {
    && AllIdle(s, n) && s.Of(k).live == live && s.Of(k).free == free && s.Of(!k).free == 0
    && s.Of(k).spare == 0 && s.Of(k).dead == 0 && s.Of(k).draining == 0
  }

  lemma {:induction false} SpawnMany(run: seq<Sys>, acts: seq<Action>, j: nat, free: nat, k: bool, lim: Limits)
    returns (r: seq<Sys>, c: seq<Action>)
    requires Trace(run, acts, k, lim) && Stocked(Last(run), 3, 0, free, k) && j <= lim.live && lim.spawns >= 1
    ensures Trace(r, c, k, lim) && r[0] == run[0] && Stocked(Last(r), 3, j, free, k) && Last(r).local == Last(run).local
  {
    if j == 0 {
      r, c := run, acts;
    } else {
      r, c := SpawnMany(run, acts, j - 1, free, k, lim);
      IdleUses(Last(r), 3, k);
      r, c := Spawns(r, c, 1, k, lim);
    }
  }

  // The owner ends a task and its struct goes to the free list.
  lemma Shelves(run: seq<Sys>, acts: seq<Action>, live: nat, free: nat, k: bool, lim: Limits)
    returns (r: seq<Sys>, c: seq<Action>)
    requires Trace(run, acts, k, lim) && Stocked(Last(run), 3, live, free, k) && live > 0 && lim.spawns >= 1
    requires free < Last(run).local
    ensures Trace(r, c, k, lim) && r[0] == run[0] && Stocked(Last(r), 3, live - 1, free + 1, k)
    ensures Last(r).local == Last(run).local
  {
    var s := Last(run);
    IdleUses(s, 3, k);
    var t := At(s.Put(k, s.Of(k).(live := s.Of(k).live - 1)), 0, Return(k));
    TotalUpdate(s.threads, Uses(k), 0, Return(k));
    r, c := Extend(run, acts, FinishHome(k, true), t, k, lim);
    var u := At(t.Put(k, t.Of(k).(free := t.Of(k).free + 1)), 0, Idle);
    IdleUses(u, 3, k);
    assert FreeCount(t) == free;
    r, c := Extend(r, c, Step(0, true), u, k, lim);
  }

  lemma {:induction false} ShelveMany(run: seq<Sys>, acts: seq<Action>, j: nat, all: nat, k: bool, lim: Limits)
    returns (r: seq<Sys>, c: seq<Action>)
    requires Trace(run, acts, k, lim) && Stocked(Last(run), 3, all, 0, k) && lim.spawns >= 1
    requires j <= all <= Last(run).local
    ensures Trace(r, c, k, lim) && r[0] == run[0] && Stocked(Last(r), 3, all - j, j, k)
    ensures Last(r).local == Last(run).local
  {
    if j == 0 {
      r, c := run, acts;
    } else {
      r, c := ShelveMany(run, acts, j - 1, all, k, lim);
      r, c := Shelves(r, c, all - (j - 1), j - 1, k, lim);
    }
  }

  // The free list is full, which spawns from elsewhere cannot reach; as many
  // tasks are live again; and two more spawns have allocated.
  lemma TwoPending(local: nat, k: bool) returns (run: seq<Sys>, acts: seq<Action>)
    ensures IsRun(run, acts) && run[0].local == local && PendingAtMost(run, k, 2) && !WithinComment(run, k)
  {
    var lim := Limits(local, 2, 0);
    var start := Sys(local, NONE, NONE, false, 0, [Idle, Idle, Idle]);
    IdleUses(start, 3, k);
    run, acts := [start], [];
    run, acts := SpawnMany(run, acts, local, 0, k, lim);
    run, acts := ShelveMany(run, acts, local, local, k, lim);
    run, acts := SpawnMany(run, acts, local, local, k, lim);
    run, acts := TwoMore(run, acts, local, k, lim);
    TraceLimits(run, acts, k, lim);
  }

  lemma TwoMore(run: seq<Sys>, acts: seq<Action>, local: nat, k: bool, lim: Limits)
    returns (r: seq<Sys>, c: seq<Action>)
    requires lim == Limits(local, 2, 0) && Trace(run, acts, k, lim) && Stocked(Last(run), 3, local, local, k)
    ensures Trace(r, c, k, lim) && r[0] == run[0] && Structs(Last(r), k) == 2 * local + 2
  {
    var s := Last(run);
    IdleUses(s, 3, k);
    r, c := Allocates(run, acts, 1, k, lim);
    var t := Last(r);
    TotalUpdate(s.threads, Uses(k), 1, Hold(k));
    TotalUpdate(s.threads, Carries(k), 1, Hold(k));
    r, c := Allocates(r, c, 2, k, lim);
    TotalUpdate(t.threads, Carries(k), 2, Hold(k));
  }

  lemma TraceLimits(run: seq<Sys>, acts: seq<Action>, k: bool, lim: Limits)
    requires Trace(run, acts, k, lim)
    ensures PendingAtMost(run, k, lim.spawns + lim.back) && PeakLive(run, k) <= lim.live
  {
    forall m | 0 <= m < |run| ensures Pending(run[m], k) <= lim.spawns + lim.back && run[m].Of(k).live <= lim.live {
      assert Meek(run[m], k, lim);
    }
    PeakLiveAtMost(run, k, lim.live);
  }

  lemma {:induction false} PeakLiveAtMost(run: seq<Sys>, k: bool, p: nat)
    requires forall m :: 0 <= m < |run| ==> run[m].Of(k).live <= p
    ensures PeakLive(run, k) <= p
  {
    if run != [] {
      PeakLiveAtMost(run[..|run| - 1], k, p);
    }
  }

  // ---- Stalled spawns ----

  // Threads from + 1 .. to have found nothing and are about to allocate; the
  // others, up to n, have not started or are done.
  ghost predicate Waiting(s: Sys, from: nat, to: nat, n: nat, k: bool) {
    && |s.threads| == n + 1 && !s.lock && from <= to <= n
    && (forall i :: 0 <= i <= n ==> s.threads[i] == if from < i <= to then Alloc(k) else Idle)
    && Total(s.threads, Uses(k)) == to - from
  }

  // Nothing live or handed back, and j structs put away.
  ghost predicate PutBy(s: Sys, j: nat, k: bool) {
    s.Of(k).free + s.Of(k).spare == j && Settled(s, k) == 0
  }

  lemma Started(s: Sys, j: nat, n: nat, k: bool)
    requires 0 < j <= n && Waiting(s, 0, j - 1, n, k)
    ensures Waiting(With(s, j, Alloc(k), false, j), 0, j, n, k)
  {
    TotalUpdate(s.threads, Uses(k), j, Alloc(k));
  }

  lemma {:induction false} AllStall(start: Sys, j: nat, n: nat, k: bool) returns (run: seq<Sys>, acts: seq<Action>)
    requires Init(start) && |start.threads| == n + 1 && j <= n
    ensures Trace(run, acts, k, Limits(1, n, 0)) && run[0] == start
    ensures Waiting(Last(run), 0, j, n, k) && PutBy(Last(run), 0, k)
  {
    if j == 0 {
      IdleUses(start, n + 1, k);
      run, acts := [start], [];
    } else {
      run, acts := AllStall(start, j - 1, n, k);
      Started(Last(run), j, n, k);
      run, acts := FindsNone(run, acts, j, k, Limits(1, n, 0));
    }
  }

  // Thread j allocates ...
  lemma Obtains(run: seq<Sys>, acts: seq<Action>, j: nat, n: nat, k: bool) returns (r: seq<Sys>, c: seq<Action>)
    requires Trace(run, acts, k, Limits(1, n, 0)) && 0 < j <= n
    requires Waiting(Last(run), j - 1, n, n, k) && PutBy(Last(run), j - 1, k)
    ensures Trace(r, c, k, Limits(1, n, 0)) && r[0] == run[0] && Last(r) == At(Last(run), j, Hold(k))
  {
    var s := Last(run);
    TotalUpdate(s.threads, Uses(k), j, Hold(k));
    r, c := Extend(run, acts, Step(j, true), At(s, j, Hold(k)), k, Limits(1, n, 0));
  }

  lemma Stopped(s: Sys, j: nat, n: nat, k: bool)
    requires 0 < j <= n && Waiting(s, j - 1, n, n, k)
    ensures Waiting(At(s, j, Idle), j, n, n, k)
  {
    TotalUpdate(s.threads, Uses(k), j, Idle);
  }

  // ... and its task is live ...
  lemma GoesLive(run: seq<Sys>, acts: seq<Action>, j: nat, n: nat, k: bool) returns (r: seq<Sys>, c: seq<Action>)
    requires Trace(run, acts, k, Limits(1, n, 0)) && 0 < j <= n
    requires Waiting(Last(run), j - 1, n, n, k) && PutBy(Last(run), j - 1, k)
    ensures Trace(r, c, k, Limits(1, n, 0)) && r[0] == run[0] && Waiting(Last(r), j, n, n, k)
    ensures Last(r) == At(Enliven(Last(run), k), j, Idle)
  {
    var s := Last(run);
    r, c := Obtains(run, acts, j, n, k);
    Stopped(s, j, n, k);
    assert s.threads[j := Hold(k)][j := Idle] == s.threads[j := Idle];
    r, c := Extend(r, c, Step(j, true), At(Enliven(s, k), j, Idle), k, Limits(1, n, 0));
  }

  // ... and ends, and the struct is put away.
  lemma OneServed(run: seq<Sys>, acts: seq<Action>, j: nat, n: nat, k: bool) returns (r: seq<Sys>, c: seq<Action>)
    requires Trace(run, acts, k, Limits(1, n, 0)) && 0 < j <= n
    requires Waiting(Last(run), j - 1, n, n, k) && PutBy(Last(run), j - 1, k)
    ensures Trace(r, c, k, Limits(1, n, 0)) && r[0] == run[0]
    ensures Waiting(Last(r), j, n, n, k) && PutBy(Last(r), j, k)
  {
    r, c := GoesLive(run, acts, j, n, k);
    var s := Last(r);
    var t := s.Put(k, s.Of(k).(live := 0));
    WithMeek(t, 0, Return(k), t.lock, t.holder, k, Limits(1, n, 0));
    r, c := Extend(r, c, FinishHome(k, true), At(t, 0, Return(k)), k, Limits(1, n, 0));
    r, c := PutAway(r, c, t, k, Limits(1, n, 0));
  }

  function Spared(t: Sys, k: bool): Sys {
    t.Put(k, t.Of(k).(spare := t.Of(k).spare + 1))
  }

  // The owner puts a struct away; t is the state but for that.
  lemma PutAway(run: seq<Sys>, acts: seq<Action>, t: Sys, k: bool, lim: Limits) returns (r: seq<Sys>, c: seq<Action>)
    requires Trace(run, acts, k, lim) && Room(t, 0, k, lim) && !t.lock && Last(run) == At(t, 0, Return(k))
    ensures Trace(r, c, k, lim) && r[0] == run[0]
    ensures var s := Last(r);
      && s.threads == t.threads && !s.lock && Settled(s, k) == Settled(t, k)
      && s.Of(k).free + s.Of(k).spare == t.Of(k).free + t.Of(k).spare + 1
  {
    assert t.threads[0 := Return(k)][0 := Idle] == t.threads;
    if FreeCount(t) < t.local {
      r, c := Extend(run, acts, Step(0, true), t.Put(k, t.Of(k).(free := t.Of(k).free + 1)), k, lim);
    } else {
      WithMeek(t, 0, PutWant(k), t.lock, t.holder, k, lim);
      r, c := Extend(run, acts, Step(0, true), With(t, 0, PutWant(k), t.lock, t.holder), k, lim);
      r, c := ToSpares(r, c, t, k, lim);
    }
  }

  lemma ToSpares(run: seq<Sys>, acts: seq<Action>, t: Sys, k: bool, lim: Limits) returns (r: seq<Sys>, c: seq<Action>)
    requires Trace(run, acts, k, lim) && Room(t, 0, k, lim) && !t.lock
    requires Last(run) == With(t, 0, PutWant(k), t.lock, t.holder)
    ensures Trace(r, c, k, lim) && r[0] == run[0]
    ensures Last(r) == Spared(t, k).(holder := 0)
  {
    var n := t.Of(k).spare;
    WithMeek(t, 0, PutPeek(k), true, 0, k, lim);
    r, c := Extend(run, acts, Step(0, true), With(t, 0, PutPeek(k), true, 0), k, lim);
    WithMeek(t, 0, Hook(k, n), true, 0, k, lim);
    r, c := Extend(r, c, Step(0, true), With(t, 0, Hook(k, n), true, 0), k, lim);
    r, c := Unlocks(r, c, t, k, lim);
  }

  lemma Unlocks(run: seq<Sys>, acts: seq<Action>, t: Sys, k: bool, lim: Limits) returns (r: seq<Sys>, c: seq<Action>)
    requires Trace(run, acts, k, lim) && Room(t, 0, k, lim) && !t.lock
    requires Last(run) == With(t, 0, Hook(k, t.Of(k).spare), true, 0)
    ensures Trace(r, c, k, lim) && r[0] == run[0]
    ensures Last(r) == Spared(t, k).(holder := 0)
  {
    var u := Spared(t, k);
    WithMeek(u, 0, PutLeave, true, 0, k, lim);
    r, c := Extend(run, acts, Step(0, true), With(u, 0, PutLeave, true, 0), k, lim);
    assert u.threads[0 := PutLeave][0 := Idle] == u.threads;
    r, c := Extend(r, c, Step(0, true), u.(holder := 0), k, lim);
  }

  lemma {:induction false} AllServed(run: seq<Sys>, acts: seq<Action>, j: nat, n: nat, k: bool)
    returns (r: seq<Sys>, c: seq<Action>)
    requires Trace(run, acts, k, Limits(1, n, 0)) && j <= n && Waiting(Last(run), 0, n, n, k) && PutBy(Last(run), 0, k)
    ensures Trace(r, c, k, Limits(1, n, 0)) && r[0] == run[0]
    ensures Waiting(Last(r), j, n, n, k) && PutBy(Last(r), j, k)
  {
    if j == 0 {
      r, c := run, acts;
    } else {
      r, c := AllServed(run, acts, j - 1, n, k);
      r, c := OneServed(r, c, j, n, k);
    }
  }

  // Whatever the local cap, and with nothing ever handed back: n spawns from
  // elsewhere that all find the spares empty, and are then slow to allocate,
  // leave n structs behind although no more than one task was ever live.
  lemma StalledSpawns(start: Sys, n: nat, k: bool) returns (run: seq<Sys>, acts: seq<Action>)
    requires Init(start) && |start.threads| == n + 1
    ensures Trace(run, acts, k, Limits(1, n, 0)) && run[0] == start && Structs(Last(run), k) == n
  {
    run, acts := AllStall(start, n, n, k);
    run, acts := AllServed(run, acts, n, n, k);
    TotalZero(Last(run).threads, Carries(k));
  }
}
