/** Contents of a sequence of buckets, whatever their entries are. */
module FlatSeq {
  import opened ArraySeq

  function Flat<T>(bs: seq<seq<T>>): seq<T> {
    if bs == [] then [] else Flat(bs[..|bs| - 1]) + bs[|bs| - 1]
  }

  lemma FlatLast<T>(bs: seq<seq<T>>, b: seq<T>)
    ensures Flat(bs + [b]) == Flat(bs) + b
  {
    assert (bs + [b])[..|bs|] == bs;
  }

  lemma FlatOne<T>(b: seq<T>)
    ensures Flat([b]) == b
  {
    assert [b][..0] == [];
    assert Flat([b]) == Flat([b][..0]) + b;
  }

  lemma {:induction false} FlatHas<T>(bs: seq<seq<T>>, x: T) returns (i: nat)
    requires x in Flat(bs)
    ensures i < |bs| && x in bs[i]
  {
    if x in bs[|bs| - 1] {
      i := |bs| - 1;
    } else {
      i := FlatHas(bs[..|bs| - 1], x);
    }
  }

  lemma {:induction false} FlatEmpty<T>(bs: seq<seq<T>>)
    requires forall i :: 0 <= i < |bs| ==> bs[i] == []
    ensures Flat(bs) == []
  {
    if bs != [] {
      FlatEmpty(bs[..|bs| - 1]);
    }
  }

  lemma {:induction false} FlatIn<T>(bs: seq<seq<T>>, i: nat, x: T)
    requires i < |bs| && x in bs[i]
    ensures x in Flat(bs)
  {
    if i < |bs| - 1 {
      FlatIn(bs[..|bs| - 1], i, x);
    }
  }

  lemma Widen<T>(a: multiset<T>, b: multiset<T>, c: multiset<T>, d: multiset<T>, n: multiset<T>)
    requires a + b == c + d
    ensures (a + n) + b == (c + n) + d
  {
    assert (a + n) + b == (a + b) + n;
    assert (c + n) + d == (c + d) + n;
  }

  // Replacing one bucket changes the contents by that bucket.
  lemma {:induction false} FlatUpdate<T>(bs: seq<seq<T>>, i: nat, b: seq<T>)
    requires i < |bs|
    ensures multiset(Flat(bs[i := b])) + multiset(bs[i]) == multiset(Flat(bs)) + multiset(b)
  {
    var n := |bs| - 1;
    var cs := bs[i := b];
    if i == n {
      assert cs[..n] == bs[..n];
      assert multiset(Flat(cs)) == multiset(Flat(bs[..n])) + multiset(b);
      assert multiset(Flat(bs)) == multiset(Flat(bs[..n])) + multiset(bs[n]);
    } else {
      FlatUpdate(bs[..n], i, b);
      assert cs[..n] == bs[..n][i := b];
      assert cs[n] == bs[n];
      assert multiset(Flat(cs)) == multiset(Flat(cs[..n])) + multiset(bs[n]);
      assert multiset(Flat(bs)) == multiset(Flat(bs[..n])) + multiset(bs[n]);
      Widen(multiset(Flat(cs[..n])), multiset(bs[i]), multiset(Flat(bs[..n])), multiset(b), multiset(bs[n]));
    }
  }
  // Only a single bucket may be empty.
  predicate Filled<T(==)>(bs: seq<seq<T>>) {
    |bs| > 1 ==> forall i :: 0 <= i < |bs| ==> bs[i] != []
  }

  // The bottom bucket split in two.
  function Split<T>(bs: seq<seq<T>>, up: seq<T>, down: seq<T>): seq<seq<T>>
    requires bs != []
  {
    bs[..|bs| - 1] + [up, down]
  }

  lemma SplitSame<T>(bs: seq<seq<T>>, up: seq<T>, down: seq<T>)
    requires bs != [] && multiset(down) + multiset(up) == multiset(bs[|bs| - 1])
    ensures multiset(Flat(Split(bs, up, down))) == multiset(Flat(bs))
  {
    var n := |bs| - 1;
    FlatLast(bs[..n] + [up], down);
    FlatLast(bs[..n], up);
    assert Split(bs, up, down) == bs[..n] + [up] + [down];
  }

  lemma PutSame<T>(bs: seq<seq<T>>, i: nat, x: T)
    requires i < |bs|
    ensures multiset(Flat(bs[i := bs[i] + [x]])) == multiset(Flat(bs)) + multiset{x}
  {
    FlatUpdate(bs, i, bs[i] + [x]);
    var after, before, b := multiset(Flat(bs[i := bs[i] + [x]])), multiset(Flat(bs)), multiset(bs[i]);
    assert after + b == before + (b + multiset{x});
    assert (after + b) - b == after;
    assert (before + (b + multiset{x})) - b == before + multiset{x};
  }

  lemma TakenSame<T>(bs: seq<seq<T>>, b: nat, i: nat)
    requires b < |bs| && i < |bs[b]|
    ensures multiset(Flat(bs[b := Taken(bs[b], i)])) == multiset(Flat(bs)) - multiset{bs[b][i]}
  {
    var t := Taken(bs[b], i);
    TakenIs(bs[b], i);
    FlatUpdate(bs, b, t);
    var after, before := multiset(Flat(bs[b := t])), multiset(Flat(bs));
    assert after + (multiset(t) + multiset{bs[b][i]}) == before + multiset(t);
    assert (after + (multiset(t) + multiset{bs[b][i]})) - multiset(t) == after + multiset{bs[b][i]};
    assert (before + multiset(t)) - multiset(t) == before;
  }
}
