/**
 * A loop's run queues as code (src/evt/loop.c, src/evt/sched.c): the default
 * lane (an owner-only FIFO and a deque that thieves take from at any moment)
 * and one FIFO per run class; the minimum-vruntime pop, the policy pop with
 * its fallbacks, and the bypass guard.  Lanes are numbered as in the source:
 * -1 is the default lane, 0 and up are classes, -2 stands for no choice.
 */
module RunLanes {
  import opened LaneGuard
  import opened Wrappers
  import Shares = LaneShares

  datatype Task = Task(id: nat, tag: int, pinned: bool)

  // The queues as a value.
  datatype Lanes = Lanes(fifo: seq<Task>, deque: seq<Task>, queues: seq<seq<Task>>)

  predicate ReadyAt(q: Lanes, lane: int)
    requires -1 <= lane < |q.queues|
  {
    if lane == -1 then q.fifo != [] || q.deque != [] else q.queues[lane] != []
  }

  function Ready(q: Lanes): (r: seq<bool>)
    ensures |r| == |q.queues| + 1
    ensures forall i :: 0 <= i < |r| ==> r[i] == ReadyAt(q, i - 1)
  {
    seq(|q.queues| + 1, i requires 0 <= i < |q.queues| + 1 => ReadyAt(q, i - 1))
  }

  // A class lane has the tasks with its tag; the default lane those whose tag
  // names no class of this loop.
  predicate Tagged(t: Task, classes: nat, lane: int) {
    if lane == -1 then t.tag < 0 || t.tag >= classes else t.tag == lane
  }

  function LaneOf(t: Task, classes: nat): (lane: int)
    ensures -1 <= lane < classes && Tagged(t, classes, lane)
  {
    if 0 <= t.tag < classes then t.tag else -1
  }

  // The lanes shown to the policy.
  function Ids(ready: seq<bool>, k: nat): seq<int>
    requires k <= |ready|
  {
    if k == 0 then [] else Ids(ready, k - 1) + if ready[k - 1] then [k - 2] else []
  }

  lemma {:induction false} ReadyIds(ready: seq<bool>, k: nat, lane: int)
    requires k <= |ready|
    ensures lane in Ids(ready, k) <==> -1 <= lane < k - 1 && ready[lane + 1]
  {
    if k > 0 {
      ReadyIds(ready, k - 1, lane);
    }
  }

  lemma NoneReady(ready: seq<bool>, k: nat)
    requires k <= |ready| && Ids(ready, k) == []
    ensures forall i :: 0 <= i < k ==> !ready[i]
  {
    forall i | 0 <= i < k ensures !ready[i] {
      ReadyIds(ready, k, i - 1);
    }
  }

  predicate AllIn(s: seq<Task>, classes: nat, lane: int) {
    forall k :: 0 <= k < |s| ==> Tagged(s[k], classes, lane)
  }

  predicate Routed(q: Lanes) {
    && (forall i :: 0 <= i < |q.queues| ==> AllIn(q.queues[i], |q.queues|, i))
    && AllIn(q.fifo, |q.queues|, -1)
    && AllIn(q.deque, |q.queues|, -1)
  }

  // Thieves have taken some of the oldest entries of a, leaving b.
  predicate Robbed(a: seq<Task>, b: seq<Task>) {
    |b| <= |a| && b == a[|a| - |b|..]
  }

  lemma RobbedAgain(a: seq<Task>, b: seq<Task>, c: seq<Task>)
    requires Robbed(a, b) && Robbed(b, c)
    ensures Robbed(a, c)
  {
  }

  // Only thieves have been at work between a and b.
  predicate OnlyRobbed(a: Lanes, b: Lanes) {
    b.fifo == a.fifo && b.queues == a.queues && Robbed(a.deque, b.deque)
  }

  // The owner took t from the default lane, the oldest of the part it chose.
  predicate TookDefault(a: Lanes, b: Lanes, t: Task) {
    && b.queues == a.queues
    && (|| (a.fifo == [t] + b.fifo && Robbed(a.deque, b.deque))
        || (a.fifo == b.fifo && Robbed(a.deque, [t] + b.deque)))
  }

  // The owner took t, the oldest of its lane; thieves had the rest.
  predicate Took(a: Lanes, b: Lanes, t: Task, lane: int) {
    if lane == -1 then TookDefault(a, b, t)
    else
      && 0 <= lane < |a.queues| && a.queues[lane] != []
      && t == a.queues[lane][0] && b.queues == a.queues[lane := a.queues[lane][1..]]
      && b.fifo == a.fifo && Robbed(a.deque, b.deque)
  }

  lemma RobbedRouted(a: Lanes, b: Lanes)
    requires Routed(a) && OnlyRobbed(a, b)
    ensures Routed(b)
  {
  }

  lemma RobbedAllIn(a: seq<Task>, b: seq<Task>, classes: nat, lane: int)
    requires AllIn(a, classes, lane) && Robbed(a, b)
    ensures AllIn(b, classes, lane)
  {
  }

  lemma HeadAllIn(t: Task, b: seq<Task>, classes: nat, lane: int)
    requires AllIn([t] + b, classes, lane)
    ensures AllIn(b, classes, lane) && Tagged(t, classes, lane)
  {
    var a := [t] + b;
    assert a[0] == t;
    assert forall k :: 0 <= k < |b| ==> b[k] == a[k + 1];
  }

  lemma TookRouted(a: Lanes, b: Lanes, t: Task, lane: int)
    requires Routed(a) && Took(a, b, t, lane)
    ensures Routed(b) && Tagged(t, |a.queues|, lane) && LaneOf(t, |a.queues|) == lane
  {
    if lane != -1 {
      RobbedAllIn(a.deque, b.deque, |a.queues|, -1);
    } else if a.fifo == [t] + b.fifo && Robbed(a.deque, b.deque) {
      HeadAllIn(t, b.fifo, |a.queues|, -1);
      RobbedAllIn(a.deque, b.deque, |a.queues|, -1);
    } else {
      RobbedAllIn(a.deque, [t] + b.deque, |a.queues|, -1);
      HeadAllIn(t, b.deque, |a.queues|, -1);
    }
  }

  lemma TookReady(a: Lanes, b: Lanes, t: Task, lane: int)
    requires Took(a, b, t, lane)
    ensures -1 <= lane < |a.queues| && ReadyAt(a, lane)
  {
    if lane == -1 && a.fifo == b.fifo {
      assert |[t] + b.deque| > 0;
    }
  }

  lemma RobbedTook(a: Lanes, b: Lanes, c: Lanes, t: Task, lane: int)
    requires OnlyRobbed(a, b) && Took(b, c, t, lane)
    ensures Took(a, c, t, lane)
  {
    if lane == -1 && !(b.fifo == [t] + c.fifo && Robbed(b.deque, c.deque)) {
      RobbedAgain(a.deque, b.deque, [t] + c.deque);
    } else {
      RobbedAgain(a.deque, b.deque, c.deque);
    }
  }

  lemma RoundMade(b: seq<nat>, seen: seq<bool>, left: seq<bool>, lane: int, limit: nat) returns (r: Round)
    requires |seen| == |left| == |b| && 0 <= lane < |b|
    requires var f := Forced(Refreshed(b, seen), seen, limit, |b|); f != -1 ==> lane == f || (f == 0 && !left[0])
    ensures r == Round(seen, left, left, lane) && RoundOk(b, r, limit)
  {
    r := Round(seen, left, left, lane);
  }

  class RunQueue {
    const classes: nat
    const limit: nat
    const shares: seq<nat>
    var fifo: seq<Task>
    var deque: seq<Task>
    var flip: bool
    var queues: seq<seq<Task>>
    const vruntime: array<nat>
    const bypasses: array<nat>
    const runs: array<nat>

    ghost function View(): Lanes
      reads this
    {
      Lanes(fifo, deque, queues)
    }

    ghost predicate Valid()
      reads this
    {
      && limit >= 1
      && |queues| == classes && |shares| == classes + 1
      && (forall i :: 0 <= i < |shares| ==> shares[i] > 0)
      && vruntime.Length == bypasses.Length == runs.Length == classes + 1
      && vruntime != bypasses && bypasses != runs && runs != vruntime
      && Routed(View())
    }

    constructor (n: nat, weights: seq<nat>, maxBypass: nat)
      requires maxBypass >= 1 && |weights| == n + 1 && forall i :: 0 <= i <= n ==> weights[i] > 0
      ensures Valid() && classes == n && limit == maxBypass && shares == weights
      ensures fresh(vruntime) && fresh(bypasses) && fresh(runs)
      ensures View() == Lanes([], [], seq(n, i => []))
      ensures forall i :: 0 <= i <= n ==> vruntime[i] == 0 && bypasses[i] == 0
      ensures Bounded(bypasses[..], limit)
    {
      classes, limit, shares := n, maxBypass, weights;
      fifo, deque, flip := [], [], false;
      queues := seq(n, i => []);
      vruntime := new nat[n + 1](i => 0);
      bypasses := new nat[n + 1](i => 0);
      runs := new nat[n + 1](i => 0);
      new;
      StartBounded(bypasses[..], limit);
    }

    // Any number of steals from the old end of the deque.
    method Thieves()
      requires Valid()
      modifies this`deque
      ensures Valid() && OnlyRobbed(old(View()), View())
    {
      var k: int := *;
      if 0 <= k <= |deque| {
        deque := deque[k..];
      }
      RobbedRouted(old(View()), View());
    }

    // A ready task joins the back of its lane; `full` says the deque refused it.
    method Enqueue(t: Task, shared: bool, full: bool)
      requires Valid()
      modifies this`fifo, this`deque, this`queues
      ensures Valid()
      ensures 0 <= t.tag < classes ==>
        queues == old(queues)[t.tag := old(queues)[t.tag] + [t]] && fifo == old(fifo) && deque == old(deque)
      ensures !(0 <= t.tag < classes) ==>
        && queues == old(queues)
        && if shared && !t.pinned && !full then deque == old(deque) + [t] && fifo == old(fifo)
           else fifo == old(fifo) + [t] && deque == old(deque)
    {
      if 0 <= t.tag < classes {
        queues := queues[t.tag := queues[t.tag] + [t]];
      } else if shared && !t.pinned && !full {
        deque := deque + [t];
      } else {
        fifo := fifo + [t];
      }
    }

    // Owner-side pop of the default lane, alternating between its two parts
    // while both hold work.
    method DefaultPop() returns (r: Option<Task>)
      requires Valid()
      modifies this`fifo, this`deque, this`flip
      ensures Valid()
      ensures r.Some? ==> Took(old(View()), View(), r.value, -1) && (r.value.tag < 0 || r.value.tag >= classes)
      ensures r.None? ==> fifo == [] && deque == [] && OnlyRobbed(old(View()), View())
      ensures r.Some? && old(fifo) != [] && (old(deque) == [] || !old(flip)) ==> old(fifo) == [r.value] + fifo
      ensures r.Some? && old(fifo) != [] && old(deque) != [] && old(flip) ==> old(fifo) == fifo || deque == []
      ensures flip == if old(fifo) != [] && old(deque) != [] then !old(flip) else old(flip)
    {
      ghost var a := View();
      var first := fifo != [];
      if first && deque != [] {
        flip := !flip;
        first := flip;
      }
      Thieves();
      ghost var b := View();
      if !first && deque != [] {
        r := Some(deque[0]);
        assert [deque[0]] + deque[1..] == deque;
        deque := deque[1..];
        RobbedTook(a, b, View(), r.value, -1);
        TookRouted(a, View(), r.value, -1);
        return;
      }
      if fifo == [] {
        return None;
      }
      r := Some(fifo[0]);
      assert [fifo[0]] + fifo[1..] == fifo;
      fifo := fifo[1..];
      TookRouted(a, View(), r.value, -1);
    }

    // Take the head of a class's queue.
    method ClassPop(lane: nat) returns (t: Task)
      requires Valid() && lane < classes && queues[lane] != []
      modifies this`queues
      ensures Valid() && Took(old(View()), View(), t, lane) && t.tag == lane
    {
      t := queues[lane][0];
      queues := queues[lane := queues[lane][1..]];
      TookRouted(old(View()), View(), t, lane);
    }

    // The ready lane with the least virtual time, -2 if none is ready.
    method LeastVruntime() returns (best: int)
      requires Valid()
      ensures best == Shares.Pick(vruntime[..], Ready(View()), classes + 1) - 1
    {
      ghost var ready := Ready(View());
      best := -1;
      var bestVr := vruntime[0];
      if fifo == [] && deque == [] {
        best := -2;
      }
      assert Shares.Pick(vruntime[..], ready, 0) == -1;
      for i := 0 to classes
        invariant best == Shares.Pick(vruntime[..], ready, i + 1) - 1
        invariant best >= -1 ==> bestVr == vruntime[best + 1]
      {
        if queues[i] != [] && (best == -2 || vruntime[i + 1] < bestVr) {
          best := i;
          bestVr := vruntime[i + 1];
        }
      }
    }

    // Owner-side pop: the lane the pick chose, or nothing if that was the
    // default lane and thieves emptied it meanwhile.
    method QueuePop() returns (r: Option<Task>, ghost picked: int)
      requires Valid()
      modifies this`fifo, this`deque, this`flip, this`queues
      ensures Valid()
      ensures picked == Shares.Pick(vruntime[..], Ready(old(View())), classes + 1) - 1
      ensures r.Some? ==> -1 <= picked < classes && Took(old(View()), View(), r.value, picked)
      ensures r.Some? ==> if picked >= 0 then r.value.tag == picked else r.value.tag < 0 || r.value.tag >= classes
      ensures r.None? ==> picked < 0 && fifo == [] && deque == [] && OnlyRobbed(old(View()), View())
    {
      ghost var ready := Ready(View());
      var best := LeastVruntime();
      picked := best;
      Shares.PickIsLeast(vruntime[..], ready, classes + 1);
      if best >= 0 {
        assert ready[best + 1];
        var t := ClassPop(best);
        return Some(t), picked;
      }
      r := DefaultPop();
      if r.Some? {
        TookReady(old(View()), View(), r.value, -1);
        assert ready[0];
      }
    }

    method LaneReady(lane: int) returns (ready: bool)
      requires Valid() && -1 <= lane < classes
      ensures ready == Ready(View())[lane + 1]
    {
      if lane == -1 {
        return fifo != [] || deque != [];
      }
      return queues[lane] != [];
    }

    // A lane with nothing to run loses its age.
    method ForgetIfEmpty(lane: int, ghost seen: seq<bool>) returns (ready: bool)
      requires Valid() && -1 <= lane < classes && seen == Ready(View())
      modifies bypasses
      ensures ready == seen[lane + 1]
      ensures forall k :: 0 <= k <= classes ==> bypasses[k] == if k == lane + 1 && !ready then 0 else old(bypasses[k])
    {
      ready := LaneReady(lane);
      if !ready {
        bypasses[lane + 1] := 0;
      }
    }

    // Look at one lane, with what has been seen of those before it.
    method ScanLane(l: int, forced: int, oldest: nat, view: seq<int>, ghost seen: seq<bool>, ghost b: seq<nat>)
      returns (forced': int, oldest': nat, view': seq<int>)
      requires Valid() && -1 <= l < classes && seen == Ready(View()) && |b| == classes + 1
      requires b[l + 1] == if seen[l + 1] then bypasses[l + 1] else 0
      requires forced == Forced(b, seen, limit, l + 1) - 1 && (forced != -2 ==> oldest == b[forced + 1])
      requires view == Ids(seen, l + 1)
      modifies bypasses
      ensures forall k :: 0 <= k <= classes ==> bypasses[k] == if k == l + 1 then b[k] else old(bypasses[k])
      ensures forced' == Forced(b, seen, limit, l + 2) - 1 && (forced' != -2 ==> oldest' == b[forced' + 1])
      ensures view' == Ids(seen, l + 2)
    {
      forced', oldest', view' := forced, oldest, view;
      var ready := ForgetIfEmpty(l, seen);
      if ready {
        view' := view + [l];
        if bypasses[l + 1] >= limit && (forced == -2 || bypasses[l + 1] > oldest) {
          forced' := l;
          oldest' := bypasses[l + 1];
        }
      }
    }

    // Look over the lanes: forget the age of those with nothing to run, list
    // the others for the policy, and note the oldest at the limit.
    method Scan() returns (forced: int, view: seq<int>, ghost seen: seq<bool>)
      requires Valid()
      modifies bypasses
      ensures seen == Ready(View())
      ensures bypasses[..] == Refreshed(old(bypasses[..]), seen)
      ensures view == Ids(seen, classes + 1)
      ensures forced == Forced(bypasses[..], seen, limit, classes + 1) - 1
    {
      seen := Ready(View());
      ghost var b := Refreshed(bypasses[..], seen);
      var oldest := 0;
      forced, view := -2, [];
      for l := -1 to classes
        invariant forall i :: 0 <= i <= classes ==> bypasses[i] == if i <= l then b[i] else old(bypasses[i])
        invariant forced == Forced(b, seen, limit, l + 1) - 1
        invariant forced != -2 ==> oldest == b[forced + 1]
        invariant view == Ids(seen, l + 1)
      {
        forced, oldest, view := ScanLane(l, forced, oldest, view, seen, b);
      }
      assert bypasses[..] == b;
    }

    // Ask the policy, then let the guard have its way.
    // choice: what the policy answers, if it is asked.
    method Select() returns (lane: int, ghost seen: seq<bool>, ghost choice: int)
      requires Valid()
      modifies bypasses
      ensures Valid() && seen == Ready(View())
      ensures bypasses[..] == Refreshed(old(bypasses[..]), seen)
      ensures -2 <= lane < classes && (lane != -2 ==> seen[lane + 1])
      ensures var f := Forced(bypasses[..], seen, limit, classes + 1);
        lane == if f != -1 then f - 1 else if -1 <= choice < classes && seen[choice + 1] then choice else -2
    {
      var forced, view;
      forced, view, seen := Scan();
      ForcedIsOldest(bypasses[..], seen, limit, classes + 1);
      ReadyIds(seen, classes + 1, forced);
      if view == [] {
        NoneReady(seen, classes + 1);
        return -2, seen, -2;
      }
      var answer: int := *;     // the user's callback: any answer at all
      choice := answer;
      if forced != -2 {
        return forced, seen, choice;
      }
      ReadyIds(seen, classes + 1, answer);
      lane := if answer in view then answer else -2;
    }

    // The first class with a task queued.
    method FirstClass() returns (i: nat)
      requires Valid()
      ensures i <= classes && (i < classes ==> queues[i] != []) && forall j :: 0 <= j < i ==> queues[j] == []
    {
      i := 0;
      while i < classes && queues[i] == []
        invariant 0 <= i <= classes && forall j :: 0 <= j < i ==> queues[j] == []
      {
        i := i + 1;
      }
    }

    // The ordinary pick, and once more if a thief won it: with the default
    // lane then empty, the second pick sees the classes.
    // at: the queues when the pick that found it was made.
    method Fallback() returns (r: Option<Task>, ghost at: Lanes)
      requires Valid()
      modifies this`fifo, this`deque, this`flip, this`queues
      ensures Valid() && OnlyRobbed(old(View()), at)
      ensures r.Some? ==> Took(old(View()), View(), r.value, LaneOf(r.value, classes))
      ensures r.Some? ==> LaneOf(r.value, classes) + 1 == Shares.Pick(vruntime[..], Ready(at), classes + 1)
      ensures r.None? ==> OnlyRobbed(old(View()), View()) && forall l :: -1 <= l < classes ==> !ReadyAt(View(), l)
      ensures !ReadyAt(old(View()), -1) ==> !ReadyAt(View(), -1)
    {
      ghost var a := View();
      ghost var p;
      at := a;
      r, p := QueuePop();
      if r.Some? {
        TookRouted(a, View(), r.value, p);
        return;
      }
      var i := FirstClass();
      if i == classes {
        return;
      }
      at := View();
      var t := PickClass(i);
      RobbedTook(a, at, View(), t, LaneOf(t, classes));
      r := Some(t);
    }

    // The ordinary pick with only class work about, of which class i has some.
    method PickClass(i: nat) returns (t: Task)
      requires Valid() && !ReadyAt(View(), -1) && i < classes && queues[i] != []
      modifies this`fifo, this`deque, this`flip, this`queues
      ensures Valid() && !ReadyAt(View(), -1)
      ensures Took(old(View()), View(), t, LaneOf(t, classes))
      ensures LaneOf(t, classes) + 1 == Shares.Pick(vruntime[..], Ready(old(View())), classes + 1)
    {
      ghost var b := View();
      Shares.PickIsLeast(vruntime[..], Ready(b), classes + 1);
      assert Ready(b)[i + 1] && !Ready(b)[0];
      var r, p := QueuePop();
      TookRouted(b, View(), r.value, p);
      t := r.value;
    }

    // The policy's lane, if it named one that thieves have not emptied.
    method PopLane(lane: int, ghost seen: Lanes) returns (r: Option<Task>)
      requires Valid() && seen == View() && -2 <= lane < classes && (lane != -2 ==> ReadyAt(seen, lane))
      modifies this`fifo, this`deque, this`flip, this`queues
      ensures Valid()
      ensures r.Some? ==> lane != -2 && Took(seen, View(), r.value, lane) && Tagged(r.value, classes, lane)
      ensures r.None? ==> lane < 0 && OnlyRobbed(seen, View()) && (lane == -1 ==> fifo == [] && deque == [])
    {
      Thieves();
      ghost var b := View();
      r := None;
      if lane >= 0 {
        var t := ClassPop(lane);
        r := Some(t);
      } else if lane == -1 {
        r := DefaultPop();
      }
      if r.Some? {
        RobbedTook(seen, b, View(), r.value, lane);
        TookRouted(seen, View(), r.value, lane);
      } else {
        RobbedAgain(seen.deque, b.deque, deque);
      }
    }

    // Pop for the policy: its lane, then the ordinary pick, then once more if
    // a thief also won that one.
    method PolicyPop() returns (r: Option<Task>, ghost seen: seq<bool>, ghost choice: int, ghost at: Lanes)
      requires Valid()
      modifies this`fifo, this`deque, this`flip, this`queues, bypasses
      ensures Valid() && seen == Ready(old(View())) && |seen| == classes + 1 && OnlyRobbed(old(View()), at)
      ensures bypasses[..] == Refreshed(old(bypasses[..]), seen)
      ensures r.Some? ==> Took(old(View()), View(), r.value, LaneOf(r.value, classes))
      ensures r.None? ==> OnlyRobbed(old(View()), View()) && forall l :: -1 <= l < classes ==> !ReadyAt(View(), l)
      ensures var f := Forced(bypasses[..], seen, limit, classes + 1);
        f != -1 ==> ServedLane(r, f - 1) || (f == 0 && fifo == [] && deque == [])
      ensures var f := Forced(bypasses[..], seen, limit, classes + 1);
        f == -1 && -1 <= choice < classes && seen[choice + 1] ==>
          ServedLane(r, choice) || (choice == -1 && fifo == [] && deque == [])
      ensures var f := Forced(bypasses[..], seen, limit, classes + 1);
        f == -1 && !(-1 <= choice < classes && seen[choice + 1]) && r.Some? ==>
          ServedLane(r, Shares.Pick(vruntime[..], Ready(at), classes + 1) - 1)
    {
      ghost var a := View();
      var lane;
      lane, seen, choice := Select();
      at := a;
      r := PopLane(lane, a);
      if r.Some? {
        return;
      }
      ghost var c := View();
      r, at := Fallback();
      RobbedAgain(a.deque, c.deque, at.deque);
      if r.Some? {
        RobbedTook(a, c, View(), r.value, LaneOf(r.value, classes));
      } else {
        RobbedAgain(a.deque, c.deque, deque);
      }
    }

    // The task served is one of that lane's.
    predicate ServedLane(r: Option<Task>, lane: int) {
      r.Some? && if lane >= 0 then r.value.tag == lane else r.value.tag < 0 || r.value.tag >= classes
    }

    // Count a service of the lane, `left` being what is ready at that moment.
    method Service(lane: int, ghost left: seq<bool>)
      requires Valid() && -1 <= lane < classes && left == Ready(View())
      modifies bypasses, runs
      ensures bypasses[..] == Serviced(old(bypasses[..]), left, lane + 1)
      ensures runs[..] == old(runs[..])[lane + 1 := Inc(old(runs[lane + 1]))]
    {
      ghost var b := Serviced(bypasses[..], left, lane + 1);
      for i := -1 to classes
        invariant forall k :: 0 <= k <= classes ==> bypasses[k] == if k <= i then b[k] else old(bypasses[k])
        invariant runs[..] == old(runs[..])
      {
        var ready := LaneReady(i);
        if i == lane || !ready {
          bypasses[i + 1] := 0;
        } else if bypasses[i + 1] != UINT64_MAX {
          bypasses[i + 1] := bypasses[i + 1] + 1;
        }
      }
      assert bypasses[..] == b;
      if runs[lane + 1] != UINT64_MAX {
        runs[lane + 1] := runs[lane + 1] + 1;
      }
    }

    // After the run: a lane that drained or parked loses its age.
    method Ran()
      requires Valid()
      modifies bypasses
      ensures Valid() && bypasses[..] == Refreshed(old(bypasses[..]), Ready(View()))
    {
      ghost var seen := Ready(View());
      ghost var b := Refreshed(bypasses[..], seen);
      for i := -1 to classes
        invariant forall k :: 0 <= k <= classes ==> bypasses[k] == if k <= i then b[k] else old(bypasses[k])
      {
        var _ := ForgetIfEmpty(i, seen);
      }
      assert bypasses[..] == b;
    }

    method CountBypasses(lane: int) returns (ghost left: seq<bool>)
      requires Valid() && -1 <= lane < classes
      modifies this`deque, bypasses, runs
      ensures Valid() && left == Ready(View()) && |left| == classes + 1 && OnlyRobbed(old(View()), View())
      ensures fifo == [] && old(deque) == [] ==> !left[0]
      ensures bypasses[..] == Serviced(old(bypasses[..]), left, lane + 1)
      ensures runs[..] == old(runs[..])[lane + 1 := Inc(old(runs[lane + 1]))]
    {
      Thieves();
      left := Ready(View());
      Service(lane, left);
    }

    // Count the service of a lane as a guard round that began with counters b.
    method CountRound(lane: int, ghost b: seq<nat>, ghost seen: seq<bool>) returns (ghost round: Round)
      requires Valid() && -1 <= lane < classes && |b| == |seen| == classes + 1 && bypasses[..] == Refreshed(b, seen)
      requires var f := Forced(bypasses[..], seen, limit, classes + 1);
        f != -1 ==> lane == f - 1 || (f == 0 && fifo == [] && deque == [])
      modifies this`deque, bypasses, runs
      ensures Valid() && round.Round? && round.seen == seen && round.lane == lane + 1 && round.left == Ready(View())
      ensures OnlyRobbed(old(View()), View()) && RoundOk(b, round, limit) && bypasses[..] == Counted(b, round)
      ensures runs[..] == old(runs[..])[lane + 1 := Inc(old(runs[lane + 1]))]
    {
      ghost var c := Refreshed(b, seen);
      assert bypasses[..] == c;
      ghost var left := CountBypasses(lane);
      assert bypasses[..] == Serviced(c, left, lane + 1);
      round := RoundMade(b, seen, left, lane + 1, limit);
    }

    // Pop a task and count the bypasses.  mid: the queues right after the pop.
    method PopAndCount() returns (r: Option<Task>, ghost round: Round, ghost mid: Lanes)
      requires Valid()
      modifies this`fifo, this`deque, this`flip, this`queues, bypasses, runs
      ensures Valid() && OnlyRobbed(mid, View()) && Popped(old(View()), r, round, mid)
      ensures RoundOk(old(bypasses[..]), round, limit) && bypasses[..] == Counted(old(bypasses[..]), round)
      ensures r.None? ==> forall l :: -1 <= l < classes ==> !ReadyAt(View(), l)
      ensures r.None? ==> runs[..] == old(runs[..])
      ensures r.Some? ==> round.left == Ready(View())
      ensures r.Some? ==> runs[..] == old(runs[..])[round.lane := Inc(old(runs[round.lane]))]
    {
      ghost var seen, choice, at;
      ghost var b := bypasses[..];
      r, seen, choice, at := PolicyPop();
      mid := View();
      if r.None? {
        round := Idle(seen);
      } else {
        round := CountRound(LaneOf(r.value, classes), b, seen);
      }
    }

    // The round saw the queues as they were, and served the lane of the task
    // that was taken from it, or none.
    ghost predicate Popped(a: Lanes, r: Option<Task>, round: Round, mid: Lanes) {
      && round.seen == Ready(a) && (r.Some? <==> round.Round?)
      && match r
         case None => OnlyRobbed(a, mid)
         case Some(t) =>
           0 <= round.lane <= classes && ServedLane(r, round.lane - 1) && Took(a, mid, t, round.lane - 1)
    }

    // One dispatch under the policy.  It is a guard round either way, so the
    // guard's bound survives it.
    method Dispatch() returns (r: Option<Task>, ghost round: Round, ghost mid: Lanes)
      requires Valid()
      modifies this`fifo, this`deque, this`flip, this`queues, bypasses, runs
      ensures Valid() && OnlyRobbed(mid, View()) && Popped(old(View()), r, round, mid)
      ensures RoundOk(old(bypasses[..]), round, limit) && bypasses[..] == Counted(old(bypasses[..]), round)
      ensures r.None? ==> forall l :: -1 <= l < classes ==> !ReadyAt(View(), l)
      ensures r.None? ==> runs[..] == old(runs[..])
      ensures r.Some? ==> round.left == Ready(View())
      ensures r.Some? ==> runs[..] == old(runs[..])[round.lane := Inc(old(runs[round.lane]))]
      ensures Bounded(old(bypasses[..]), limit) ==> Bounded(bypasses[..], limit)
    {
      ghost var b := bypasses[..];
      r, round, mid := PopAndCount();
      if Bounded(b, limit) {
        ServiceKeeps(b, round, limit);
      }
    }

    // The same for the end of the run.
    method RanBounded()
      requires Valid() && Bounded(bypasses[..], limit)
      modifies bypasses
      ensures Valid() && Bounded(bypasses[..], limit)
      ensures bypasses[..] == Refreshed(old(bypasses[..]), Ready(View()))
    {
      RefreshKeeps(bypasses[..], Ready(View()), limit);
      Ran();
    }

    // Charge a finished run to its lane.
    method Charge(lane: int, elapsed: int)
      requires Valid() && -1 <= lane < classes
      modifies vruntime
      ensures vruntime[..] == old(vruntime[..])[lane + 1 :=
        Shares.Plus(old(vruntime[lane + 1]), Shares.Charge(shares, lane + 1, Shares.Turn([], elapsed)))]
    {
      var cost := if elapsed < Shares.MIN_QUANTUM_NS then Shares.MIN_QUANTUM_NS else elapsed;
      var gain := (cost * (0x40_0000 / shares[lane + 1]) % Shares.WRAP) / 0x1000;
      vruntime[lane + 1] := (vruntime[lane + 1] + gain) % Shares.WRAP;
    }

    // One dispatch without a policy: the least virtual time is served, and
    // its task's run is charged to the lane it came from.
    method FairTurn(elapsed: int) returns (r: Option<Task>, ghost seen: seq<bool>)
      requires Valid()
      modifies this`fifo, this`deque, this`flip, this`queues, vruntime
      ensures Valid() && seen == Ready(old(View()))
        && Shares.TurnOk(old(vruntime[..]), shares, Shares.Turn(seen, elapsed))
      ensures r.None? ==> vruntime[..] == old(vruntime[..]) && !ReadyAt(View(), -1) && OnlyRobbed(old(View()), View())
      ensures r.Some? ==> vruntime[..] == Shares.Next(old(vruntime[..]), shares, Shares.Turn(seen, elapsed))
      ensures r.Some? ==> var lane := Shares.Picked(old(vruntime[..]), Shares.Turn(seen, elapsed)) - 1;
        ServedLane(r, lane) && Took(old(View()), View(), r.value, lane)
    {
      ghost var a := View();
      seen := Ready(a);
      ghost var picked;
      r, picked := QueuePop();
      if r.Some? {
        Shares.PickIsLeast(vruntime[..], seen, classes + 1);
        TookRouted(a, View(), r.value, picked);
        Charge(LaneOf(r.value, classes), elapsed);
      }
    }
  }
}
