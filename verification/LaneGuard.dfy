/**
 * The bounded-bypass guard around a user scheduling policy (src/evt/sched.c),
 * as functions on the vector of bypass counters: entry 0 is the default lane,
 * entry i + 1 is run class i.  The policy's choice is arbitrary and thieves
 * may empty the default lane at any moment; the guard alone bounds how often
 * a ready lane can be passed over.
 */
module LaneGuard {

  const UINT64_MAX: nat := 0xFFFF_FFFF_FFFF_FFFF

  function Inc(x: nat): nat {
    if x != UINT64_MAX then x + 1 else x
  }

  // A lane that is not ready loses its age.
  function Refreshed(b: seq<nat>, ready: seq<bool>): (r: seq<nat>)
    requires |ready| == |b|
    ensures |r| == |b|
    ensures forall i :: 0 <= i < |b| ==> r[i] == if ready[i] then b[i] else 0
  {
    seq(|b|, i requires 0 <= i < |b| => if ready[i] then b[i] else 0)
  }

  // The served lane restarts; every other ready lane has been passed over once more.
  function Serviced(b: seq<nat>, ready: seq<bool>, lane: int): (r: seq<nat>)
    requires |ready| == |b|
    ensures |r| == |b|
    ensures forall i :: 0 <= i < |b| ==> r[i] == if i == lane || !ready[i] then 0 else Inc(b[i])
  {
    seq(|b|, i requires 0 <= i < |b| => if i == lane || !ready[i] then 0 else Inc(b[i]))
  }

  // The lane the guard insists on: among the first k, the first with the
  // largest counter at or over the limit; -1 if none has reached it.
  function Forced(b: seq<nat>, ready: seq<bool>, limit: nat, k: nat): (f: int)
    requires |ready| == |b| && k <= |b|
    ensures -1 <= f < k
  {
    if k == 0 then -1
    else
      var f := Forced(b, ready, limit, k - 1);
      if ready[k - 1] && b[k - 1] >= limit && (f == -1 || b[k - 1] > b[f]) then k - 1 else f
  }

  lemma {:induction false} ForcedIsOldest(b: seq<nat>, ready: seq<bool>, limit: nat, k: nat)
    requires |ready| == |b| && k <= |b|
    ensures var f := Forced(b, ready, limit, k);
      if f == -1 then forall i :: 0 <= i < k && ready[i] ==> b[i] < limit
      else ready[f] && b[f] >= limit && (forall i :: 0 <= i < k && ready[i] ==> b[i] <= b[f])
                    && (forall i :: 0 <= i < f && ready[i] ==> b[i] < b[f])
  {
    if k > 0 {
      ForcedIsOldest(b, ready, limit, k - 1);
    }
  }

  // ---- The counting invariant ----

  // How many lanes have been passed over at least `level` times.
  function AtLeast(b: seq<nat>, level: int): (c: nat)
    ensures c <= |b|
  {
    if b == [] then 0 else AtLeast(b[..|b| - 1], level) + if b[|b| - 1] >= level then 1 else 0
  }

  // At most K - 1 - j lanes are at or above limit + j, for every j.
  ghost predicate Bounded(b: seq<nat>, limit: nat) {
    forall j: nat :: AtLeast(b, limit + j) <= Spare(|b|, j)
  }

  function Spare(lanes: nat, j: nat): nat {
    if j + 1 <= lanes then lanes - 1 - j else 0
  }

  lemma {:induction false} AtLeastFewer(b: seq<nat>, c: seq<nat>, level: int)
    requires |b| == |c| && forall i :: 0 <= i < |b| ==> c[i] <= b[i]
    ensures AtLeast(c, level) <= AtLeast(b, level)
  {
    if b != [] {
      AtLeastFewer(b[..|b| - 1], c[..|b| - 1], level);
    }
  }

  // Every counter may go up by one, except f's, which falls below the level.
  lemma {:induction false} AtLeastDrops(b: seq<nat>, c: seq<nat>, f: nat, level: int)
    requires |b| == |c| && f < |b| && b[f] >= level - 1 && c[f] < level
    requires forall i :: 0 <= i < |b| ==> c[i] <= b[i] + 1
    ensures AtLeast(c, level) < AtLeast(b, level - 1)
  {
    var n := |b| - 1;
    if f < n {
      AtLeastDrops(b[..n], c[..n], f, level);
    } else {
      AtLeastUp(b[..n], c[..n], level);
    }
  }

  lemma {:induction false} AtLeastUp(b: seq<nat>, c: seq<nat>, level: int)
    requires |b| == |c| && forall i :: 0 <= i < |b| ==> c[i] <= b[i] + 1
    ensures AtLeast(c, level) <= AtLeast(b, level - 1)
  {
    if b != [] {
      AtLeastUp(b[..|b| - 1], c[..|b| - 1], level);
    }
  }

  lemma {:induction false} AtLeastNone(b: seq<nat>, level: int)
    ensures AtLeast(b, level) == 0 <==> forall i :: 0 <= i < |b| ==> b[i] < level
  {
    if b != [] {
      AtLeastNone(b[..|b| - 1], level);
      var n := |b| - 1;
      if forall i :: 0 <= i < n ==> b[..n][i] < level {
        assert forall i :: 0 <= i < n ==> b[i] == b[..n][i];
      }
    }
  }

  lemma {:induction false} AtLeastMiss(b: seq<nat>, f: nat, level: int)
    requires f < |b| && b[f] < level
    ensures AtLeast(b, level) < |b|
  {
    if f < |b| - 1 {
      AtLeastMiss(b[..|b| - 1], f, level);
    }
  }

  lemma RefreshKeeps(b: seq<nat>, ready: seq<bool>, limit: nat)
    requires |ready| == |b| && Bounded(b, limit)
    ensures Bounded(Refreshed(b, ready), limit)
  {
    forall j: nat ensures AtLeast(Refreshed(b, ready), limit + j) <= Spare(|b|, j) {
      AtLeastFewer(b, Refreshed(b, ready), limit + j);
    }
  }

  // ---- One round: select, pop, service, and the refresh after the run ----

  // Which lanes were ready when the guard looked, when the popped task was
  // about to run, and after it ran; and the lane that was served.  Idle: the
  // guard looked, and then thieves left nothing to pop.
  datatype Round =
    | Round(seen: seq<bool>, left: seq<bool>, after: seq<bool>, lane: int)
    | Idle(seen: seq<bool>)

  // The guard's promise: the lane it insists on is the one served, unless
  // thieves emptied it meanwhile.
  predicate GuardHeld(b: seq<nat>, r: Round, limit: nat)
    requires r.Round? && |r.seen| == |r.left| == |b|
  {
    var f := Forced(Refreshed(b, r.seen), r.seen, limit, |b|);
    f != -1 ==> r.lane == f || !r.left[f]
  }

  predicate RoundOk(b: seq<nat>, r: Round, limit: nat) {
    && |r.seen| == |b|
    && (r.Round? ==> |r.left| == |r.after| == |b| && 0 <= r.lane < |b| && GuardHeld(b, r, limit))
  }

  // The counters when the task is about to run.
  function Counted(b: seq<nat>, r: Round): (c: seq<nat>)
    requires |r.seen| == |b| && (r.Round? ==> |r.left| == |b|)
    ensures |c| == |b|
  {
    if r.Idle? then Refreshed(b, r.seen) else Serviced(Refreshed(b, r.seen), r.left, r.lane)
  }

  function Next(b: seq<nat>, r: Round): seq<nat>
    requires |r.seen| == |b| && (r.Round? ==> |r.left| == |r.after| == |b|)
  {
    if r.Idle? then Counted(b, r) else Refreshed(Counted(b, r), r.after)
  }

  // Why the bound holds: once any lane is at the limit, each service takes
  // the highest one down, so one fewer lane can climb to the next level.
  lemma OldestFalls(a: seq<nat>, c: seq<nat>, f: int, limit: nat, level: nat)
    requires |a| == |c| && limit < level && -1 <= f < |a|
    requires forall i :: 0 <= i < |a| ==> c[i] <= a[i] + 1
    requires if f == -1 then forall i :: 0 <= i < |a| ==> a[i] < limit
             else c[f] == 0 && forall i :: 0 <= i < |a| ==> a[i] <= a[f]
    ensures AtLeast(c, level) < AtLeast(a, level - 1) || AtLeast(c, level) == AtLeast(a, level - 1) == 0
  {
    AtLeastNone(a, level - 1);
    AtLeastUp(a, c, level);
    if AtLeast(a, level - 1) > 0 {
      AtLeastDrops(a, c, f, level);
    }
  }

  lemma ServiceKeepsAt(b: seq<nat>, r: Round, limit: nat, j: nat)
    requires limit >= 1 && r.Round? && RoundOk(b, r, limit) && Bounded(Refreshed(b, r.seen), limit)
    ensures AtLeast(Serviced(Refreshed(b, r.seen), r.left, r.lane), limit + j) <= Spare(|b|, j)
  {
    var a := Refreshed(b, r.seen);
    var c := Serviced(a, r.left, r.lane);
    if j == 0 {
      AtLeastMiss(c, r.lane, limit);
    } else {
      ForcedIsOldest(a, r.seen, limit, |b|);
      OldestFalls(a, c, Forced(a, r.seen, limit, |b|), limit, limit + j);
      assert AtLeast(a, limit + (j - 1)) <= Spare(|a|, j - 1);
    }
  }

  lemma ServiceKeeps(b: seq<nat>, r: Round, limit: nat)
    requires limit >= 1 && RoundOk(b, r, limit) && Bounded(b, limit)
    ensures Bounded(Counted(b, r), limit)
  {
    RefreshKeeps(b, r.seen, limit);
    if r.Round? {
      forall j: nat ensures AtLeast(Counted(b, r), limit + j) <= Spare(|b|, j) {
        ServiceKeepsAt(b, r, limit, j);
      }
    }
  }

  lemma RoundKeeps(b: seq<nat>, r: Round, limit: nat)
    requires limit >= 1 && RoundOk(b, r, limit) && Bounded(b, limit)
    ensures Bounded(Next(b, r), limit)
  {
    ServiceKeeps(b, r, limit);
    if r.Round? {
      RefreshKeeps(Counted(b, r), r.after, limit);
    }
  }

  // No counter exceeds max_bypass + K - 2.
  lemma BoundedCeiling(b: seq<nat>, limit: nat, i: nat)
    requires Bounded(b, limit) && i < |b|
    ensures b[i] <= limit + |b| - 2
  {
    var j := |b| - 1;
    assert AtLeast(b, limit + j) <= Spare(|b|, j);
    AtLeastNone(b, limit + j);
  }

  // ---- Whole runs ----

  ghost predicate IsRun(bs: seq<seq<nat>>, rounds: seq<Round>, limit: nat) {
    && |bs| == |rounds| + 1
    && (forall i :: 0 <= i < |bs[0]| ==> bs[0][i] == 0)
    && forall k :: 0 <= k < |rounds| ==> RoundOk(bs[k], rounds[k], limit) && bs[k + 1] == Next(bs[k], rounds[k])
  }

  lemma StartBounded(b: seq<nat>, limit: nat)
    requires limit >= 1 && forall i :: 0 <= i < |b| ==> b[i] == 0
    ensures Bounded(b, limit)
  {
    forall j: nat ensures AtLeast(b, limit + j) <= Spare(|b|, j) {
      AtLeastNone(b, limit + j);
    }
  }

  lemma {:induction false} RunBounded(bs: seq<seq<nat>>, rounds: seq<Round>, limit: nat, k: nat)
    requires limit >= 1 && IsRun(bs, rounds, limit) && k <= |rounds|
    ensures Bounded(bs[k], limit) && |bs[k]| == |bs[0]|
  {
    if k == 0 {
      StartBounded(bs[0], limit);
    } else {
      RunBounded(bs, rounds, limit, k - 1);
      RoundKeeps(bs[k - 1], rounds[k - 1], limit);
    }
  }

  // Over every run, whatever the policy and the thieves do.
  lemma NeverBypassedMore(bs: seq<seq<nat>>, rounds: seq<Round>, limit: nat, k: nat, lane: nat)
    requires limit >= 1 && IsRun(bs, rounds, limit) && k <= |rounds| && lane < |bs[0]|
    ensures |bs[k]| == |bs[0]| && bs[k][lane] <= limit + |bs[0]| - 2
  {
    RunBounded(bs, rounds, limit, k);
    BoundedCeiling(bs[k], limit, lane);
  }

  // The lane is ready throughout the round and not served in it.
  predicate PassedOver(r: Round, lane: nat) {
    && lane < |r.seen| && r.seen[lane]
    && (r.Round? ==> lane < |r.left| == |r.after| && r.left[lane] && r.after[lane] && r.lane != lane)
  }

  predicate Waits(rounds: seq<Round>, lane: nat, from: nat, to: nat)
    requires from <= to <= |rounds|
  {
    forall k :: from <= k < to ==> PassedOver(rounds[k], lane)
  }

  lemma PassedCounts(b: seq<nat>, r: Round, limit: nat, lane: nat)
    requires RoundOk(b, r, limit) && lane < |b| && PassedOver(r, lane) && b[lane] < UINT64_MAX
    ensures |Next(b, r)| == |b| && Next(b, r)[lane] == b[lane] + if r.Round? then 1 else 0
  {
  }

  // How many of those rounds served a lane.
  function Services(rounds: seq<Round>, from: nat, to: nat): nat
    requires from <= to <= |rounds|
  {
    if from == to then 0 else Services(rounds, from, to - 1) + if rounds[to - 1].Round? then 1 else 0
  }

  lemma {:induction false} WaitingCounts(
    bs: seq<seq<nat>>, rounds: seq<Round>, limit: nat, lane: nat, from: nat, to: nat)
    requires limit >= 1 && IsRun(bs, rounds, limit) && lane < |bs[0]| && from <= to <= |rounds|
    requires Waits(rounds, lane, from, to) && limit + |bs[0]| <= UINT64_MAX
    ensures |bs[to]| == |bs[0]| && bs[to][lane] >= Services(rounds, from, to)
  {
    RunBounded(bs, rounds, limit, to);
    if from < to {
      WaitingCounts(bs, rounds, limit, lane, from, to - 1);
      NeverBypassedMore(bs, rounds, limit, to - 1, lane);
      PassedCounts(bs[to - 1], rounds[to - 1], limit, lane);
      assert bs[to - 1 + 1] == Next(bs[to - 1], rounds[to - 1]);
    }
  }

  // A continuously ready lane is served within max_bypass + K - 1 services:
  // over any stretch in which it waits, fewer than that are made.
  lemma ServedSoon(bs: seq<seq<nat>>, rounds: seq<Round>, limit: nat, lane: nat, from: nat, to: nat)
    requires limit >= 1 && IsRun(bs, rounds, limit) && lane < |bs[0]| && limit + |bs[0]| <= UINT64_MAX
    requires from <= to <= |rounds| && Waits(rounds, lane, from, to)
    ensures Services(rounds, from, to) < limit + |bs[0]| - 1
  {
    WaitingCounts(bs, rounds, limit, lane, from, to);
    NeverBypassedMore(bs, rounds, limit, to, lane);
  }
}
