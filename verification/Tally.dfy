/**
  Totals over a sequence of parties.  Every protocol in this project keeps its
  threads, loops or slots in a sequence of any length and counts what they hold
  by weighing each party; a step changes one party, and `TotalUpdate` says what
  that does to the total.
*/
module Tally {

  function Bit(b: bool): nat {
    if b then 1 else 0
  }

  ghost function Total<P(!new)>(parties: seq<P>, weight: P -> nat): nat {
    if parties == [] then 0 else weight(parties[0]) + Total(parties[1..], weight)
  }

  lemma {:induction false} TotalUpdate<P(!new)>(parties: seq<P>, weight: P -> nat, i: nat, p: P)
    requires i < |parties|
    ensures Total(parties[i := p], weight) + weight(parties[i]) == Total(parties, weight) + weight(p)
    ensures weight(parties[i]) <= Total(parties, weight)
  {
    if i == 0 {
      assert parties[0 := p][1..] == parties[1..];
    } else {
      assert parties[i := p][1..] == parties[1..][i - 1 := p];
      TotalUpdate(parties[1..], weight, i - 1, p);
    }
  }

  /** Two different parties together weigh no more than the total. */
  lemma {:induction false} TotalPair<P(!new)>(parties: seq<P>, weight: P -> nat, i: nat, j: nat)
    requires i < j < |parties|
    ensures weight(parties[i]) + weight(parties[j]) <= Total(parties, weight)
  {
    if i == 0 {
      TotalUpdate(parties[1..], weight, j - 1, parties[j]);
    } else {
      TotalPair(parties[1..], weight, i - 1, j - 1);
    }
  }

  /** A positive total has a party to it. */
  lemma {:induction false} TotalHolder<P(!new)>(parties: seq<P>, weight: P -> nat) returns (i: nat)
    requires Total(parties, weight) > 0
    ensures i < |parties| && weight(parties[i]) > 0
  {
    if weight(parties[0]) > 0 {
      i := 0;
    } else {
      i := TotalHolder(parties[1..], weight);
      i := i + 1;
    }
  }

  lemma {:induction false} TotalZero<P(!new)>(parties: seq<P>, weight: P -> nat)
    requires forall i :: 0 <= i < |parties| ==> weight(parties[i]) == 0
    ensures Total(parties, weight) == 0
  {
    if Total(parties, weight) > 0 {
      var i := TotalHolder(parties, weight);
    }
  }

  lemma {:induction false} TotalLe<P(!new)>(parties: seq<P>, less: P -> nat, more: P -> nat)
    requires forall i :: 0 <= i < |parties| ==> less(parties[i]) <= more(parties[i])
    ensures Total(parties, less) <= Total(parties, more)
  {
    if parties != [] {
      TotalLe(parties[1..], less, more);
    }
  }

  lemma {:induction false} TotalSame<P(!new)>(p: seq<P>, q: seq<P>, weight: P -> nat)
    requires |p| == |q| && forall i :: 0 <= i < |p| ==> weight(p[i]) == weight(q[i])
    ensures Total(p, weight) == Total(q, weight)
  {
    if p != [] {
      TotalSame(p[1..], q[1..], weight);
    }
  }

  // --- Occurrences in a queue ---------------------------------------------

  function Is(a: nat, b: nat): nat {
    if a == b then 1 else 0
  }

  /** How often x is in q. */
  function Times(q: seq<nat>, x: nat): nat {
    if q == [] then 0 else Is(q[0], x) + Times(q[1..], x)
  }

  lemma {:induction false} TimesConcat(p: seq<nat>, q: seq<nat>, x: nat)
    ensures Times(p + q, x) == Times(p, x) + Times(q, x)
  {
    if p == [] {
      assert p + q == q;
    } else {
      assert (p + q)[1..] == p[1..] + q;
      TimesConcat(p[1..], q, x);
    }
  }
}
