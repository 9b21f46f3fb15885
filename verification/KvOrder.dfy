/**
 * The order on (key, arrival) pairs of bench/bench_topk.c, what it means to be
 * the K lowest of a set of them, and the specification every selector is held
 * to: the first K entries of the full sort.
 */
module KvOrder {

  datatype Kv = Kv(k: int, s: nat)

  predicate Lt(a: Kv, b: Kv) {
    a.k < b.k || (a.k == b.k && a.s < b.s)
  }

  predicate Le(a: Kv, b: Kv) {
    !Lt(b, a)
  }

  function Min(a: nat, b: nat): nat {
    if a < b then a else b
  }

  // ---- Sets of pairs ----

  function Elems(s: seq<Kv>): set<Kv> {
    set x | x in s
  }

  predicate Distinct(s: seq<Kv>) {
    forall i, j :: 0 <= i < j < |s| ==> s[i] != s[j]
  }

  lemma ElemsAppend(s: seq<Kv>, x: Kv)
    ensures Elems(s + [x]) == Elems(s) + {x}
  {
  }

  lemma {:induction false} ElemsCount(s: seq<Kv>)
    requires Distinct(s)
    ensures |Elems(s)| == |s|
  {
    if s != [] {
      var t, x := s[..|s| - 1], s[|s| - 1];
      ElemsCount(t);
      assert x !in t;
      ElemsAppend(t, x);
      assert s == t + [x];
    }
  }

  lemma {:induction false} SubsetCount(a: set<Kv>, b: set<Kv>)
    requires a <= b
    ensures |a| <= |b|
  {
    if a != {} {
      var x :| x in a;
      SubsetCount(a - {x}, b - {x});
    }
  }

  lemma SubsetSame(a: set<Kv>, b: set<Kv>)
    requires a <= b && |a| == |b|
    ensures a == b
  {
    if x :| x in b && x !in a {
      SubsetCount(a, b - {x});
    }
  }

  lemma {:induction false} CountDistinct(s: seq<Kv>)
    requires |Elems(s)| == |s|
    ensures Distinct(s)
  {
    if s != [] {
      var t, x := s[..|s| - 1], s[|s| - 1];
      assert s == t + [x];
      ElemsAppend(t, x);
      ElemsAtMost(t);
      assert x in Elems(t) ==> Elems(t) + {x} == Elems(t);
      CountDistinct(t);
    }
  }

  lemma {:induction false} ElemsAtMost(s: seq<Kv>)
    ensures |Elems(s)| <= |s|
  {
    if s != [] {
      var t, x := s[..|s| - 1], s[|s| - 1];
      assert s == t + [x];
      ElemsAppend(t, x);
      ElemsAtMost(t);
    }
  }

  // A rearrangement has the same elements.
  lemma SameElems(s: seq<Kv>, t: seq<Kv>)
    requires multiset(s) == multiset(t)
    ensures Elems(s) == Elems(t) && |s| == |t| && (Distinct(s) ==> Distinct(t))
  {
    forall x ensures x in s <==> x in t {
      assert x in s <==> x in multiset(s);
      assert x in t <==> x in multiset(t);
    }
    assert |s| == |multiset(s)| && |t| == |multiset(t)|;
    assert Elems(s) == Elems(t);
    if Distinct(s) {
      ElemsCount(s);
      CountDistinct(t);
    }
  }

  // t holds the k lowest of all.
  predicate Lowest(all: set<Kv>, t: set<Kv>, k: nat) {
    && t <= all && |t| == Min(k, |all|)
    && forall x, y :: x in t && y in all && y !in t ==> Lt(x, y)
  }

  lemma LowestUnique(all: set<Kv>, t: set<Kv>, u: set<Kv>, k: nat)
    requires Lowest(all, t, k) && Lowest(all, u, k)
    ensures t == u
  {
    if t <= u {
      SubsetSame(t, u);
    } else if u <= t {
      SubsetSame(u, t);
    } else {
      var x :| x in t && x !in u;
      var y :| y in u && y !in t;
      assert false;
    }
  }

  // A newcomer below the worst of k takes its place.
  lemma LowestSwaps(all: set<Kv>, t: set<Kv>, w: Kv, x: Kv, k: nat)
    requires Lowest(all, t, k) && |t| == k && w in t && x !in all && Lt(x, w)
    requires forall y :: y in t ==> Le(y, w)
    ensures Lowest(all + {x}, t - {w} + {x}, k)
  {
    var u := t - {w} + {x};
    forall a, b | a in u && b in all + {x} && b !in u ensures Lt(a, b) {
      if b != w {
        assert Lt(w, b);
      }
    }
  }

  // ---- The full sort ----

  predicate Increasing(s: seq<Kv>) {
    forall i, j :: 0 <= i < j < |s| ==> Lt(s[i], s[j])
  }

  lemma {:induction false} IncreasingUnique(s: seq<Kv>, t: seq<Kv>)
    requires Increasing(s) && Increasing(t) && Elems(s) == Elems(t)
    ensures s == t
  {
    ElemsCount(s);
    ElemsCount(t);
    if s != [] {
      assert s[0] in Elems(t);
      assert t[0] in Elems(s);
      RestElems(s);
      RestElems(t);
      IncreasingUnique(s[1..], t[1..]);
    }
  }

  lemma RestElems(s: seq<Kv>)
    requires s != [] && Increasing(s)
    ensures Elems(s[1..]) == Elems(s) - {s[0]}
  {
    assert s == [s[0]] + s[1..];
  }

  function Insert(x: Kv, s: seq<Kv>): (r: seq<Kv>)
    ensures |r| == |s| + 1
  {
    if s == [] then [x] else if Lt(s[0], x) then [s[0]] + Insert(x, s[1..]) else [x] + s
  }

  function Sort(s: seq<Kv>): (r: seq<Kv>)
    ensures |r| == |s|
  {
    if s == [] then [] else Insert(s[0], Sort(s[1..]))
  }

  lemma {:induction false} InsertIs(x: Kv, s: seq<Kv>)
    requires Increasing(s) && x !in s
    ensures Increasing(Insert(x, s)) && Elems(Insert(x, s)) == Elems(s) + {x}
  {
    if s == [] {
    } else if Lt(s[0], x) {
      var r := Insert(x, s[1..]);
      InsertIs(x, s[1..]);
      assert s == [s[0]] + s[1..];
      forall j | 0 <= j < |r| ensures Lt(s[0], r[j]) {
        assert r[j] in Elems(r);
      }
    } else {
      assert Lt(x, s[0]);
    }
  }

  lemma {:induction false} SortIs(s: seq<Kv>)
    requires Distinct(s)
    ensures Increasing(Sort(s)) && Elems(Sort(s)) == Elems(s)
  {
    if s != [] {
      SortIs(s[1..]);
      assert s == [s[0]] + s[1..];
      assert s[0] !in Elems(s[1..]);
      InsertIs(s[0], Sort(s[1..]));
    }
  }

  // ---- The specification ----

  // Each input with its arrival number.
  function Entries(input: seq<int>): (r: seq<Kv>)
    ensures |r| == |input|
    ensures forall i :: 0 <= i < |r| ==> r[i] == Kv(input[i], i)
  {
    seq(|input|, i requires 0 <= i < |input| => Kv(input[i], i))
  }

  // The first k entries of the (key, arrival) sort.
  function TopK(input: seq<int>, k: nat): seq<Kv> {
    Sort(Entries(input))[..Min(k, |input|)]
  }

  lemma PrefixLowest(s: seq<Kv>, k: nat)
    requires Increasing(s) && k <= |s|
    ensures Lowest(Elems(s), Elems(s[..k]), k)
  {
    ElemsCount(s);
    ElemsCount(s[..k]);
  }

  // An increasing sequence of the k lowest entries is that prefix.
  lemma IsTopK(out: seq<Kv>, input: seq<int>, k: nat)
    requires Increasing(out) && Lowest(Elems(Entries(input)), Elems(out), k)
    ensures out == TopK(input, k)
  {
    var e := Entries(input);
    SortIs(e);
    ElemsCount(e);
    var m := Min(k, |e|);
    PrefixLowest(Sort(e), m);
    LowestUnique(Elems(e), Elems(out), Elems(TopK(input, k)), m);
    IncreasingUnique(out, TopK(input, k));
  }
}
