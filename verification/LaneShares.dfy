/**
 * Proportional shares: the minimum-vruntime pick over the default lane and
 * the run classes, and the weighted accrual after each run (src/evt/loop.c).
 * Lane 0 is the default lane, lane i + 1 is run class i.
 */
module LaneShares {

  const WRAP: nat := 0x1_0000_0000_0000_0000
  const MIN_QUANTUM_NS: nat := 1000

  function Reciprocal(shares: nat): nat
    requires shares > 0
  {
    0x40_0000 / shares
  }

  // A run is charged at least one minimum quantum.
  function Cost(elapsed: int): (c: nat)
    ensures c >= MIN_QUANTUM_NS && c >= elapsed && (c == MIN_QUANTUM_NS || c == elapsed)
  {
    if elapsed < MIN_QUANTUM_NS then MIN_QUANTUM_NS else elapsed
  }

  // Virtual time accrued for a cost, in 64-bit arithmetic.
  function Accrual(cost: nat, reciprocal: nat): nat {
    (cost * reciprocal % WRAP) / 0x1000
  }

  function Plus(a: nat, b: nat): nat {
    (a + b) % WRAP
  }

  // The ready lane with the least virtual time, the first one on a tie;
  // -1 if no lane is ready.
  function Pick(v: seq<nat>, ready: seq<bool>, k: nat): (p: int)
    requires |ready| == |v| && k <= |v|
    ensures -1 <= p < k
  {
    if k == 0 then -1
    else
      var p := Pick(v, ready, k - 1);
      if ready[k - 1] && (p == -1 || v[k - 1] < v[p]) then k - 1 else p
  }

  lemma {:induction false} PickIsLeast(v: seq<nat>, ready: seq<bool>, k: nat)
    requires |ready| == |v| && k <= |v|
    ensures var p := Pick(v, ready, k);
      if p == -1 then forall i :: 0 <= i < k ==> !ready[i]
      else ready[p] && (forall i :: 0 <= i < k && ready[i] ==> v[p] <= v[i])
                    && (forall i :: 0 <= i < p && ready[i] ==> v[p] < v[i])
  {
    if k > 0 {
      PickIsLeast(v, ready, k - 1);
    }
  }

  // A new class starts at the least virtual time of the classes there are, so
  // it is neither favoured nor starved; the first one starts at 0.
  method Seed(classes: seq<nat>) returns (m: nat)
    ensures classes == [] ==> m == 0
    ensures classes != [] ==> m in classes && forall i :: 0 <= i < |classes| ==> m <= classes[i]
  {
    m := 0;
    var have := false;
    for i := 0 to |classes|
      invariant have == (i > 0) && (have ==> m in classes) && (!have ==> m == 0)
      invariant forall j :: 0 <= j < i ==> m <= classes[j]
    {
      if !have || classes[i] < m {
        m := classes[i];
        have := true;
      }
    }
  }

  // ---- Runs ----

  // One turn of the loop: who was ready, and how long the picked task ran.
  datatype Turn = Turn(ready: seq<bool>, elapsed: int)

  predicate TurnOk(v: seq<nat>, shares: seq<nat>, t: Turn) {
    |t.ready| == |v| == |shares| && (forall i :: 0 <= i < |shares| ==> shares[i] > 0)
  }

  function Picked(v: seq<nat>, t: Turn): int
    requires |t.ready| == |v|
  {
    Pick(v, t.ready, |v|)
  }

  function Charge(shares: seq<nat>, lane: nat, t: Turn): nat
    requires lane < |shares| && shares[lane] > 0
  {
    Accrual(Cost(t.elapsed), Reciprocal(shares[lane]))
  }

  function Next(v: seq<nat>, shares: seq<nat>, t: Turn): seq<nat>
    requires TurnOk(v, shares, t)
  {
    var p := Picked(v, t);
    if p == -1 then v else v[p := Plus(v[p], Charge(shares, p, t))]
  }

  ghost predicate IsRun(vs: seq<seq<nat>>, shares: seq<nat>, turns: seq<Turn>) {
    && |vs| == |turns| + 1 && |vs[0]| == |shares|
    && (forall k :: 0 <= k < |turns| ==> TurnOk(vs[k], shares, turns[k]))
    && (forall k :: 0 <= k < |turns| ==> vs[k + 1] == Next(vs[k], shares, turns[k]))
  }

  // A turn in which one of the two lanes was picked.
  predicate Theirs(v: seq<nat>, t: Turn, i: nat, j: nat)
    requires |t.ready| == |v|
  {
    Picked(v, t) == i || Picked(v, t) == j
  }

  // Over the first k turns both lanes are ready at every pick, and neither
  // lane's virtual time wraps.
  ghost predicate Contend(vs: seq<seq<nat>>, shares: seq<nat>, turns: seq<Turn>, i: nat, j: nat, k: nat)
    requires IsRun(vs, shares, turns) && i < |shares| && j < |shares| && k <= |turns|
  {
    forall m :: 0 <= m < k ==>
      && turns[m].ready[i] && turns[m].ready[j]
      && (Theirs(vs[m], turns[m], i, j) ==>
            var p := Picked(vs[m], turns[m]); vs[m][p] + Charge(shares, p, turns[m]) < WRAP)
  }

  function Gap(v: seq<nat>, i: nat, j: nat): nat
    requires i < |v| && j < |v|
  {
    if v[i] >= v[j] then v[i] - v[j] else v[j] - v[i]
  }

  function Max(a: nat, b: nat): nat {
    if a >= b then a else b
  }

  // No run of either lane is charged more than this.
  ghost predicate ChargesWithin(
    vs: seq<seq<nat>>, shares: seq<nat>, turns: seq<Turn>, i: nat, j: nat, most: nat, k: nat)
    requires IsRun(vs, shares, turns) && i < |shares| && j < |shares| && k <= |turns|
  {
    forall m :: 0 <= m < k && Theirs(vs[m], turns[m], i, j) ==>
      Charge(shares, Picked(vs[m], turns[m]), turns[m]) <= most
  }

  lemma PlusIs(a: nat, b: nat)
    requires a + b < WRAP
    ensures Plus(a, b) == a + b
  {
  }

  // A turn adds its charge to the picked lane and leaves every other alone.
  lemma NextIs(v: seq<nat>, shares: seq<nat>, t: Turn, c: nat)
    requires TurnOk(v, shares, t) && Picked(v, t) >= 0 && c == Charge(shares, Picked(v, t), t)
    requires v[Picked(v, t)] + c < WRAP
    ensures Next(v, shares, t) == v[Picked(v, t) := v[Picked(v, t)] + c]
  {
    PlusIs(v[Picked(v, t)], c);
  }

  lemma NextLeaves(v: seq<nat>, shares: seq<nat>, t: Turn, i: nat)
    requires TurnOk(v, shares, t) && i < |v| && Picked(v, t) != i
    ensures |Next(v, shares, t)| == |v| && Next(v, shares, t)[i] == v[i]
  {
  }

  lemma GainGap(v: seq<nat>, p: nat, gain: nat, i: nat, j: nat, most: nat)
    requires p < |v| && i < |v| && j < |v| && v[p] <= v[i] && v[p] <= v[j]
    requires p == i || p == j ==> gain <= most
    ensures Gap(v[p := v[p] + gain], i, j) <= Max(Gap(v, i, j), most)
  {
  }

  lemma StepGap(v: seq<nat>, shares: seq<nat>, t: Turn, i: nat, j: nat, most: nat)
    requires TurnOk(v, shares, t) && i < |v| && j < |v| && t.ready[i] && t.ready[j]
    requires Theirs(v, t, i, j) ==>
      var p := Picked(v, t); Charge(shares, p, t) <= most && v[p] + Charge(shares, p, t) < WRAP
    ensures Gap(Next(v, shares, t), i, j) <= Max(Gap(v, i, j), most)
  {
    PickIsLeast(v, t.ready, |v|);
    if Theirs(v, t, i, j) {
      var c := Charge(shares, Picked(v, t), t);
      NextIs(v, shares, t, c);
      GainGap(v, Picked(v, t), c, i, j, most);
    } else {
      NextLeaves(v, shares, t, i);
      NextLeaves(v, shares, t, j);
    }
  }

  lemma {:induction false} RunShape(vs: seq<seq<nat>>, shares: seq<nat>, turns: seq<Turn>, k: nat)
    requires IsRun(vs, shares, turns) && k <= |turns|
    ensures |vs[k]| == |shares|
  {
    if k > 0 {
      RunShape(vs, shares, turns, k - 1);
      assert vs[k - 1 + 1] == Next(vs[k - 1], shares, turns[k - 1]);
    }
  }

  // The gap never exceeds the larger of the starting gap and one accrual,
  // whatever other lanes do in between.
  lemma {:induction false} GapStays(
    vs: seq<seq<nat>>, shares: seq<nat>, turns: seq<Turn>, i: nat, j: nat, most: nat, k: nat)
    requires IsRun(vs, shares, turns) && i < |shares| && j < |shares| && k <= |turns|
    requires Contend(vs, shares, turns, i, j, k) && ChargesWithin(vs, shares, turns, i, j, most, k)
    ensures |vs[k]| == |shares| && Gap(vs[k], i, j) <= Max(Gap(vs[0], i, j), most)
  {
    RunShape(vs, shares, turns, k);
    if k > 0 {
      GapStays(vs, shares, turns, i, j, most, k - 1);
      StepGap(vs[k - 1], shares, turns[k - 1], i, j, most);
      assert vs[k - 1 + 1] == Next(vs[k - 1], shares, turns[k - 1]);
    }
  }

  // ---- Run counts ----

  // How often the lane was picked in the first k turns.
  function Runs(vs: seq<seq<nat>>, turns: seq<Turn>, lane: nat, k: nat): (n: nat)
    requires k <= |turns| < |vs| && forall m :: 0 <= m < |turns| ==> |turns[m].ready| == |vs[m]|
  {
    if k == 0 then 0
    else Runs(vs, turns, lane, k - 1) + if Picked(vs[k - 1], turns[k - 1]) == lane then 1 else 0
  }

  // Every run of the two lanes costs the same.
  ghost predicate EqualCost(
    vs: seq<seq<nat>>, shares: seq<nat>, turns: seq<Turn>, i: nat, j: nat, cost: nat, k: nat)
    requires IsRun(vs, shares, turns) && k <= |turns|
  {
    forall m :: 0 <= m < k && Theirs(vs[m], turns[m], i, j) ==> Cost(turns[m].elapsed) == cost
  }

  lemma {:induction false} RunsCharged(
    vs: seq<seq<nat>>, shares: seq<nat>, turns: seq<Turn>, cost: nat, i: nat, j: nat, k: nat)
    requires IsRun(vs, shares, turns) && i < |shares| && j < |shares| && k <= |turns| && shares[i] > 0
    requires Contend(vs, shares, turns, i, j, k) && EqualCost(vs, shares, turns, i, j, cost, k)
    ensures |vs[k]| == |shares|
    ensures vs[k][i] == vs[0][i] + Runs(vs, turns, i, k) * Accrual(cost, Reciprocal(shares[i]))
  {
    RunShape(vs, shares, turns, k);
    if k > 0 {
      RunsCharged(vs, shares, turns, cost, i, j, k - 1);
      OneMore(Runs(vs, turns, i, k - 1), Accrual(cost, Reciprocal(shares[i])));
      assert vs[k - 1 + 1] == Next(vs[k - 1], shares, turns[k - 1]);
      if Picked(vs[k - 1], turns[k - 1]) == i {
        NextIs(vs[k - 1], shares, turns[k - 1], Accrual(cost, Reciprocal(shares[i])));
      } else {
        NextLeaves(vs[k - 1], shares, turns[k - 1], i);
      }
    }
  }

  lemma OneMore(n: nat, a: nat)
    ensures (n + 1) * a == n * a + a
  {
  }

  lemma TimesAtMost(a: nat, b: nat, c: nat)
    requires b <= c
    ensures a * b <= a * c
  {
  }

  lemma ReciprocalFloor(shares: nat)
    requires 1 <= shares <= 1000
    ensures Reciprocal(shares) >= 0x1000
  {
    var r := 0x40_0000 / shares;
    assert 0x40_0000 == shares * r + 0x40_0000 % shares;
    if r <= 0xFFF {
      TimesAtMost(shares, r, 0xFFF);
      assert false;
    }
  }

  // Every run advances its lane's virtual time, by its cost at least, for all the
  // shares a class may have; so a run that takes no time at all still does.
  lemma AlwaysAdvances(elapsed: int, shares: nat)
    requires 1 <= shares <= 1000 && Cost(elapsed) * Reciprocal(shares) < WRAP
    ensures Accrual(Cost(elapsed), Reciprocal(shares)) >= Cost(elapsed) >= MIN_QUANTUM_NS
  {
    ReciprocalFloor(shares);
    TimesAtMost(Cost(elapsed), 0x1000, Reciprocal(shares));
    ShiftFloor(Cost(elapsed) * Reciprocal(shares), Cost(elapsed));
  }

  lemma ShiftFloor(x: nat, c: nat)
    requires c * 0x1000 <= x < WRAP
    ensures (x % WRAP) / 0x1000 >= c
  {
  }

  // The reciprocal and the shift each truncate: by how much, at most.
  lemma AccrualNear(cost: nat, shares: nat)
    requires shares > 0 && cost * Reciprocal(shares) < WRAP
    ensures var a := 0x1000 * (shares * Accrual(cost, Reciprocal(shares)));
      cost * 0x40_0000 - shares * (cost + 0x1000) <= a <= cost * 0x40_0000
  {
    DivNear(0x40_0000, shares);
    ShiftNear(cost * Reciprocal(shares));
    TruncationNear(cost, shares, Reciprocal(shares), Accrual(cost, Reciprocal(shares)));
  }

  lemma ShiftNear(x: nat)
    requires x < WRAP
    ensures 0x1000 * ((x % WRAP) / 0x1000) <= x <= 0x1000 * ((x % WRAP) / 0x1000) + 0x1000
  {
  }

  lemma TruncationNear(cost: nat, shares: nat, r: nat, a: nat)
    requires 0x1000 * a <= cost * r <= 0x1000 * a + 0x1000
    requires 0x40_0000 - shares <= shares * r <= 0x40_0000
    ensures cost * 0x40_0000 - shares * (cost + 0x1000) <= 0x1000 * (shares * a) <= cost * 0x40_0000
  {
    Scale(shares * r, 0x40_0000, cost);
    Scale(0x40_0000 - shares, shares * r, cost);
    Scale(0x1000 * a, cost * r, shares);
    Scale(cost * r, 0x1000 * a + 0x1000, shares);
    Turn3(shares, cost, r);
    Assoc(shares, 0x1000, a);
    Spread(shares, 0x1000 * a, 0x1000);
    Distribute(cost, 0x40_0000, shares);
    Spread(shares, cost, 0x1000);
  }

  lemma Turn3(x: nat, y: nat, z: nat)
    ensures x * (y * z) == y * (x * z)
  {
  }

  lemma DivNear(n: nat, d: nat)
    requires d > 0
    ensures n - d <= d * (n / d) <= n
  {
    assert n == d * (n / d) + n % d;
  }

  lemma Scale(a: int, b: int, k: nat)
    requires a <= b
    ensures k * a <= k * b
  {
  }

  // Equal-cost runs come out in the ratio of the shares.  n, m: run counts;
  // a, b: accruals per run; s, t: shares; off: how far apart the two lanes'
  // accrued times can be.
  lemma RatioOneSide(n: nat, m: nat, a: nat, b: nat, s: nat, t: nat, cost: nat, off: nat)
    requires 0x1000 * (s * a) >= cost * 0x40_0000 - s * (cost + 0x1000)
    requires 0x1000 * (t * b) <= cost * 0x40_0000
    requires n * a <= m * b + off
    ensures Near(n, m, s, t, cost, off)
  {
    var u := cost * 0x40_0000;
    var e := s * (cost + 0x1000);
    // n * t times the first bound, m * s times the second.
    Scale(u - e, 0x1000 * (s * a), n * t);
    Scale(0x1000 * (t * b), u, m * s);
    Scale(n * a, m * b + off, 0x1000 * (s * t));
    assert (n * t) * (0x1000 * (s * a)) == (0x1000 * (s * t)) * (n * a) by { Shuffle(n, t, s, a); }
    assert (m * s) * (0x1000 * (t * b)) == (0x1000 * (s * t)) * (m * b) by { Shuffle(m, s, t, b); }
    Spread(0x1000 * (s * t), m * b, off);
    assert (n * t) * (u - e) == u * (n * t) - (n * t) * e by { Distribute(n * t, u, e); }
    assert (n * t) * e == s * t * (cost + 0x1000) * n by { Regroup(n, t, s, cost + 0x1000); }
    assert u * (n * t - m * s) == u * (n * t) - (m * s) * u by { Distribute(u, n * t, m * s); }
    assert (0x1000 * (s * t)) * off == 0x1000 * (s * t * off) by { Assoc(0x1000, s * t, off); }
  }

  lemma Shuffle(n: nat, t: nat, s: nat, a: nat)
    ensures (n * t) * (0x1000 * (s * a)) == (0x1000 * (s * t)) * (n * a)
  {
    assert (n * t) * (s * a) == (s * t) * (n * a);
  }

  lemma Spread(k: nat, x: int, y: int)
    ensures k * (x + y) == k * x + k * y
  {
  }

  lemma Distribute(k: nat, x: int, y: int)
    ensures k * (x - y) == k * x - k * y && k * x == x * k && k * y == y * k
  {
  }

  lemma Regroup(n: nat, t: nat, s: nat, c: nat)
    ensures (n * t) * (s * c) == s * t * c * n
  {
    assert s * t * c * n == (s * c) * (t * n);
  }

  lemma Assoc(k: nat, x: nat, y: nat)
    ensures (k * x) * y == k * (x * y)
  {
  }

  // How far apart the two lanes' accrued times can come: the starting gap g,
  // and once more it or one accrual a or b.
  function Drift(g: nat, a: nat, b: nat): nat {
    g + Max(g, Max(a, b))
  }

  // n runs of accrual a with shares s against m runs of accrual b with shares
  // t: what the gap and the two truncations allow.
  predicate Near(n: nat, m: nat, s: nat, t: nat, cost: nat, off: nat) {
    cost * 0x40_0000 * (n * t - m * s) <= 0x1000 * (s * t * off) + s * t * (cost + 0x1000) * n
  }

  lemma RatioBothSides(n: nat, m: nat, s: nat, t: nat, cost: nat, g: nat)
    requires s > 0 && t > 0 && cost * Reciprocal(s) < WRAP && cost * Reciprocal(t) < WRAP
    requires var a, b := Accrual(cost, Reciprocal(s)), Accrual(cost, Reciprocal(t));
      var off := Drift(g, a, b); n * a <= m * b + off && m * b <= n * a + off
    ensures var off := Drift(g, Accrual(cost, Reciprocal(s)), Accrual(cost, Reciprocal(t)));
      Near(n, m, s, t, cost, off) && Near(m, n, t, s, cost, off)
  {
    var a, b := Accrual(cost, Reciprocal(s)), Accrual(cost, Reciprocal(t));
    AccrualNear(cost, s);
    AccrualNear(cost, t);
    RatioOneSide(n, m, a, b, s, t, cost, Drift(g, a, b));
    RatioOneSide(m, n, b, a, t, s, cost, Drift(g, a, b));
  }

  // For two lanes ready at every pick and equal run costs, the run counts
  // n and m satisfy n / m ~ shares[i] / shares[j]: exactly, |n * s_j - m * s_i|
  // is bounded by the gap and by what the two truncations lose per run.
  lemma RunsFollowShares(
    vs: seq<seq<nat>>, shares: seq<nat>, turns: seq<Turn>, i: nat, j: nat, cost: nat, k: nat)
    requires IsRun(vs, shares, turns) && i < |shares| && j < |shares| && k <= |turns|
    requires shares[i] > 0 && shares[j] > 0
    requires Contend(vs, shares, turns, i, j, k) && EqualCost(vs, shares, turns, i, j, cost, k)
    requires cost * Reciprocal(shares[i]) < WRAP && cost * Reciprocal(shares[j]) < WRAP
    ensures
      var n, m := Runs(vs, turns, i, k), Runs(vs, turns, j, k);
      var a, b := Accrual(cost, Reciprocal(shares[i])), Accrual(cost, Reciprocal(shares[j]));
      var off := Drift(Gap(vs[0], i, j), a, b);
      Near(n, m, shares[i], shares[j], cost, off) && Near(m, n, shares[j], shares[i], cost, off)
  {
    var a, b := Accrual(cost, Reciprocal(shares[i])), Accrual(cost, Reciprocal(shares[j]));
    GapStays(vs, shares, turns, i, j, Max(a, b), k);
    RunsCharged(vs, shares, turns, cost, i, j, k);
    RunsCharged(vs, shares, turns, cost, j, i, k);
    RatioBothSides(Runs(vs, turns, i, k), Runs(vs, turns, j, k), shares[i], shares[j], cost, Gap(vs[0], i, j));
  }
}
