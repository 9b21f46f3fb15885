/**
 * The bucket heap of bench/bench_topk.c (sqh): buckets in descending order with
 * pivots between them; a pop splits the bottom bucket until it is small and
 * takes its minimum.  Its K pops are the first K entries of the full sort.
 */
module BucketHeap {
  import opened ArraySeq
  import opened FlatSeq
  import opened KvOrder
  import opened QuickSelect

  predicate AllLt(s: seq<Kv>, p: Kv) {
    forall x :: x in s ==> Lt(x, p)
  }

  predicate AllGe(s: seq<Kv>, p: Kv) {
    forall x :: x in s ==> Le(p, x)
  }

  // pivots[i] separates bucket i (not below it) from every later one (below it).
  predicate Layered(bs: seq<seq<Kv>>, pivots: seq<Kv>) {
    && |pivots| + 1 == |bs|
    && (forall i :: 0 <= i < |pivots| ==> AllGe(bs[i], pivots[i]))
    && (forall i, j :: 0 <= i < j < |bs| ==> AllLt(bs[j], pivots[i]))
  }

  // The bottom bucket holds the least entries.
  lemma BottomLeast(bs: seq<seq<Kv>>, pivots: seq<Kv>, x: Kv, y: Kv)
    requires Layered(bs, pivots) && x in bs[|bs| - 1] && y in Flat(bs) && y !in bs[|bs| - 1]
    ensures Lt(x, y)
  {
    var i := FlatHas(bs, y);
    assert AllGe(bs[i], pivots[i]);
    assert AllLt(bs[|bs| - 1], pivots[i]);
  }

  lemma PartInside(s: seq<Kv>, p: Kv)
    ensures AllLt(Less(s, p), p) && AllGe(Rest(s, p), p)
    ensures forall x :: x in Less(s, p) || x in Rest(s, p) ==> x in s
  {
    PartIs(s, p);
    var t := Less(s, p) + Rest(s, p);
    forall x | x in Less(s, p) || x in Rest(s, p) ensures x in s {
      assert x in t;
      InBoth(s, t, x);
    }
  }

  // Splitting the bottom bucket around one of its entries.
  lemma SplitLayers(bs: seq<seq<Kv>>, pivots: seq<Kv>, p: Kv, l: seq<Kv>, r: seq<Kv>)
    requires Layered(bs, pivots) && AllLt(l, p) && AllGe(r, p)
    requires forall x :: x in l || x in r ==> x in bs[|bs| - 1]
    ensures Layered(Split(bs, r, l), pivots + [p])
  {
    var n := |bs| - 1;
    var cs := Split(bs, r, l);
    assert forall i :: 0 <= i < n ==> cs[i] == bs[i];
    assert cs[n] == r && cs[n + 1] == l;
    forall i, j | 0 <= i < j < |cs| ensures AllLt(cs[j], (pivots + [p])[i]) {
      if i < n {
        assert AllLt(bs[if j < n then j else n], pivots[i]);
      }
    }
  }

  // So does the bottom bucket's partition around p.
  lemma PartLayers(bs: seq<seq<Kv>>, pivots: seq<Kv>, p: Kv)
    requires Layered(bs, pivots)
    ensures var b := bs[|bs| - 1]; Layered(Split(bs, Rest(b, p), Less(b, p)), pivots + [p])
  {
    var b := bs[|bs| - 1];
    PartInside(b, p);
    SplitLayers(bs, pivots, p, Less(b, p), Rest(b, p));
  }

  lemma PartSame(bs: seq<seq<Kv>>, p: Kv)
    requires bs != []
    ensures var b := bs[|bs| - 1]; multiset(Flat(Split(bs, Rest(b, p), Less(b, p)))) == multiset(Flat(bs))
  {
    var b := bs[|bs| - 1];
    PartIs(b, p);
    SplitSame(bs, Rest(b, p), Less(b, p));
  }

  lemma SplitFilled(bs: seq<seq<Kv>>, r: seq<Kv>, l: seq<Kv>)
    requires bs != [] && Filled(bs) && r != [] && l != []
    ensures Filled(Split(bs, r, l))
  {
    var n, cs := |bs| - 1, Split(bs, r, l);
    forall i | 0 <= i < |cs| ensures cs[i] != [] {
      assert i < n ==> cs[i] == bs[i];
    }
  }

  // Partitioning a bucket around one of its entries leaves something on the
  // upper side.
  lemma PartFine(b: seq<Kv>, p: Kv, at: nat)
    requires at < |b| && b[at] == p
    ensures |Less(b, p)| < |b| && Rest(b, p) != []
  {
    assert b[0..] == b;
    PivotStays(b, 0, p, at);
    PartLengths(b, p);
  }

  lemma LeastOfAll(bs: seq<seq<Kv>>, pivots: seq<Kv>, i: nat)
    requires Layered(bs, pivots) && i < |bs[|bs| - 1]|
    requires var bottom := bs[|bs| - 1]; forall j :: 0 <= j < |bottom| ==> Le(bottom[i], bottom[j])
    ensures var r := bs[|bs| - 1][i];
      r in multiset(Flat(bs)) && forall y :: y in multiset(Flat(bs)) ==> Le(r, y)
  {
    var bottom := bs[|bs| - 1];
    assert bottom[i] in Flat(bs);
    forall y | y in multiset(Flat(bs)) ensures Le(bottom[i], y) {
      assert y in Flat(bs);
      if y !in bottom {
        BottomLeast(bs, pivots, bottom[i], y);
      }
    }
  }

  lemma BottomNotEmpty(bs: seq<seq<Kv>>)
    requires bs != [] && Filled(bs) && multiset(Flat(bs)) != multiset{}
    ensures bs[|bs| - 1] != []
  {
    if |bs| == 1 {
      assert Flat(bs[..0]) == [];
      assert Flat(bs) == bs[0];
    }
  }

  // Taking an entry from the bottom bucket, which goes when it is empty.
  function BottomTaken(bs: seq<seq<Kv>>, i: nat): seq<seq<Kv>>
    requires bs != [] && i < |bs[|bs| - 1]|
  {
    var n := |bs| - 1;
    if |bs[n]| == 1 && n > 0 then bs[..n] else bs[n := Taken(bs[n], i)]
  }

  function PivotsTaken(bs: seq<seq<Kv>>, pivots: seq<Kv>): seq<Kv>
    requires |pivots| + 1 == |bs|
  {
    if |bs[|bs| - 1]| == 1 && |bs| > 1 then pivots[..|pivots| - 1] else pivots
  }

  lemma BottomTakenSame(bs: seq<seq<Kv>>, i: nat)
    requires bs != [] && i < |bs[|bs| - 1]|
    ensures multiset(Flat(BottomTaken(bs, i))) == multiset(Flat(bs)) - multiset{bs[|bs| - 1][i]}
  {
    var n := |bs| - 1;
    if |bs[n]| == 1 && n > 0 {
      assert bs[n] == [bs[n][i]];
    } else {
      TakenSame(bs, n, i);
    }
  }

  lemma BottomTakenLayers(bs: seq<seq<Kv>>, pivots: seq<Kv>, i: nat)
    requires Layered(bs, pivots) && Filled(bs) && i < |bs[|bs| - 1]|
    ensures Filled(BottomTaken(bs, i))
    ensures Layered(BottomTaken(bs, i), PivotsTaken(bs, pivots))
  {
    TakenIs(bs[|bs| - 1], i);
  }

  class Buckets {
    var bs: seq<seq<Kv>>
    var pivots: seq<Kv>

    ghost predicate Valid()
      reads this
    {
      Layered(bs, pivots) && Filled(bs)
    }

    ghost function Contents(): multiset<Kv>
      reads this
    {
      multiset(Flat(bs))
    }

    constructor ()
      ensures Valid() && Contents() == multiset{}
    {
      bs, pivots := [[]], [];
    }

    method Push(x: Kv)
      requires Valid()
      modifies this
      ensures Valid() && Contents() == old(Contents()) + multiset{x}
    {
      var i := 0;
      while i < |bs| - 1 && Lt(x, pivots[i])
        invariant 0 <= i < |bs| && forall j :: 0 <= j < i ==> Lt(x, pivots[j])
      {
        i := i + 1;
      }
      PutSame(bs, i, x);
      bs := bs[i := bs[i] + [x]];
    }

    // What is less than p goes to a buffer; the rest stays, packed, in the bucket.
    method Part(s: seq<Kv>, p: Kv) returns (l: seq<Kv>, r: seq<Kv>)
      ensures l == Less(s, p) && r == Rest(s, p)
    {
      var v := new Kv[|s|](i requires 0 <= i < |s| => s[i]);
      var tmp := new Kv[|s|](i requires 0 <= i < |s| => p);
      assert v[0..|s|] == s;
      var a := PartScalar(v, 0, |s|, p, tmp, 0, v, 0);
      l, r := tmp[0..][..a], v[0..][..|s| - a];
    }

    // Split the bottom bucket once, unless it is small or has no lesser side.
    method SplitBottom() returns (more: bool)
      requires Valid()
      modifies this
      ensures Valid() && Contents() == old(Contents())
      ensures more ==> |bs[|bs| - 1]| < |old(bs)[|old(bs)| - 1]|
    {
      var n := |bs| - 1;
      var bottom := bs[n];
      if |bottom| <= 16 {
        return false;
      }
      var at :| 0 <= at < |bottom|;
      var p := bottom[at];
      var l, r := Part(bottom, p);
      if |l| == 0 {
        return false;
      }
      PartFine(bottom, p, at);
      SplitAround(p, l, r);
      return true;
    }

    method SplitAround(p: Kv, l: seq<Kv>, r: seq<Kv>)
      requires Valid() && l == Less(bs[|bs| - 1], p) && r == Rest(bs[|bs| - 1], p) && l != [] && r != []
      modifies this
      ensures Valid() && Contents() == old(Contents()) && bs[|bs| - 1] == l
    {
      PartLayers(bs, pivots, p);
      PartSame(bs, p);
      SplitFilled(bs, r, l);
      bs := bs[..|bs| - 1] + [r, l];
      pivots := pivots + [p];
    }

    method LeastOf(s: seq<Kv>) returns (mi: nat)
      requires s != []
      ensures mi < |s| && forall j :: 0 <= j < |s| ==> Le(s[mi], s[j])
    {
      mi := 0;
      for i := 1 to |s|
        invariant mi < i && forall j :: 0 <= j < i ==> Le(s[mi], s[j])
      {
        if Lt(s[i], s[mi]) {
          mi := i;
        }
      }
    }

    // Fill the bottom bucket's entry mi with its last; the bucket goes when it is empty.
    method TakeAt(mi: nat)
      requires Valid() && mi < |bs[|bs| - 1]|
      modifies this
      ensures bs == BottomTaken(old(bs), mi) && pivots == PivotsTaken(old(bs), old(pivots))
    {
      var n := |bs| - 1;
      var bottom := bs[n];
      TakenInPlace(bottom, mi);
      if |bottom| == 1 && n > 0 {
        bs, pivots := bs[..n], pivots[..n - 1];
      } else {
        bs := bs[n := bottom[mi := bottom[|bottom| - 1]][..|bottom| - 1]];
      }
    }

    // The minimum of the bottom bucket.
    method TakeLeast() returns (r: Kv)
      requires Valid() && bs[|bs| - 1] != []
      modifies this
      ensures Valid() && r in old(Contents()) && Contents() == old(Contents()) - multiset{r}
      ensures forall y :: y in old(Contents()) ==> Le(r, y)
    {
      var n := |bs| - 1;
      var bottom := bs[n];
      var mi := LeastOf(bottom);
      r := bottom[mi];
      LeastOfAll(bs, pivots, mi);
      BottomTakenSame(bs, mi);
      BottomTakenLayers(bs, pivots, mi);
      TakeAt(mi);
    }

    method Pop() returns (r: Kv)
      requires Valid() && Contents() != multiset{}
      modifies this
      ensures Valid() && r in old(Contents()) && Contents() == old(Contents()) - multiset{r}
      ensures forall y :: y in old(Contents()) ==> Le(r, y)
    {
      var more := true;
      while more
        invariant Valid() && Contents() == old(Contents())
        decreases more, |bs[|bs| - 1]|
      {
        more := SplitBottom();
      }
      BottomNotEmpty(bs);
      r := TakeLeast();
    }
  }

  // ---- Top-K by K pops ----

  // out holds the k lowest of all in order, and the rest is still in the heap.
  predicate Drained(all: multiset<Kv>, out: seq<Kv>, rest: multiset<Kv>) {
    && multiset(out) + rest == all
    && Increasing(out)
    && forall x, y :: x in out && y in rest ==> Lt(x, y)
  }

  lemma DrainNext(e: seq<Kv>, out: seq<Kv>, rest: multiset<Kv>, r: Kv)
    requires Distinct(e) && Drained(multiset(e), out, rest) && r in rest && forall y :: y in rest ==> Le(r, y)
    ensures Drained(multiset(e), out + [r], rest - multiset{r})
  {
    EntriesOnce(e, r);
    assert multiset(e)[r] == multiset(out)[r] + rest[r];
    assert r !in rest - multiset{r};
    assert multiset(out + [r]) + (rest - multiset{r}) == multiset(e);
  }

  lemma {:induction false} EntriesOnce(s: seq<Kv>, x: Kv)
    requires Distinct(s)
    ensures multiset(s)[x] <= 1
  {
    if s != [] {
      var t := s[..|s| - 1];
      EntriesOnce(t, x);
      assert s == t + [s[|s| - 1]];
      assert s[|s| - 1] !in t;
    }
  }

  lemma DrainedTopK(input: seq<int>, out: seq<Kv>, rest: multiset<Kv>, k: nat)
    requires Drained(multiset(Entries(input)), out, rest) && |out| == Min(k, |input|)
    ensures out == TopK(input, k)
  {
    var e := Entries(input);
    ElemsCount(e);
    ElemsCount(out);
    forall x | x in out ensures x in e {
      assert x in multiset(out) + rest;
      assert x in multiset(e);
    }
    forall x, y | x in out && y in e && y !in out ensures Lt(x, y) {
      assert y in multiset(e);
      assert y in multiset(out) + rest;
    }
    IsTopK(out, input, k);
  }

  method PushAll(input: seq<int>) returns (q: Buckets)
    ensures fresh(q) && q.Valid() && q.Contents() == multiset(Entries(input))
  {
    ghost var e := Entries(input);
    q := new Buckets();
    assert e[..0] == [];
    for i := 0 to |input|
      invariant fresh(q) && q.Valid() && q.Contents() == multiset(e[..i])
    {
      q.Push(Kv(input[i], i));
      assert e[..i + 1] == e[..i] + [e[i]];
    }
    assert e[..|input|] == e;
  }

  method PopNext(q: Buckets, out: array<Kv>, i: nat, ghost e: seq<Kv>)
    requires q.Valid() && i < out.Length && i < |e| && Distinct(e) && Drained(multiset(e), out[..i], q.Contents())
    modifies q, out
    ensures q.Valid() && Drained(multiset(e), out[..i + 1], q.Contents())
  {
    ghost var s, rest := out[..i], q.Contents();
    StillSome(e, s, rest);
    var r := q.Pop();
    DrainNext(e, s, rest, r);
    out[i] := r;
    assert out[..i + 1] == s + [r];
  }

  method PopAll(q: Buckets, out: array<Kv>, m: nat, ghost e: seq<Kv>)
    requires q.Valid() && q.Contents() == multiset(e) && Distinct(e) && m <= |e| && m <= out.Length
    modifies q, out
    ensures q.Valid() && Drained(multiset(e), out[..m], q.Contents())
  {
    for i := 0 to m
      invariant q.Valid() && Drained(multiset(e), out[..i], q.Contents())
    {
      PopNext(q, out, i, e);
    }
  }

  method TopkSqh(input: seq<int>, k: nat, out: array<Kv>) returns (m: nat)
    requires out.Length >= Min(k, |input|)
    modifies out
    ensures m == Min(k, |input|) && out[..m] == TopK(input, k)
  {
    var q := PushAll(input);
    m := if k < |input| then k else |input|;
    PopAll(q, out, m, Entries(input));
    DrainedTopK(input, out[..m], q.Contents(), k);
  }

  lemma StillSome(e: seq<Kv>, out: seq<Kv>, rest: multiset<Kv>)
    requires Drained(multiset(e), out, rest) && |out| < |e|
    ensures rest != multiset{}
  {
    assert |multiset(out) + rest| == |out| + |rest|;
    assert |multiset(e)| == |e|;
  }
}
