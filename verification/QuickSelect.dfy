/**
 * QuickSelect cuts (bench/bench_topk.c): Hoare's in-place partition, and the
 * two-output partition whose outputs may overlap its input.  Whatever pivots
 * the random choice gives, the first k slots end up holding the k lowest.
 */
module QuickSelect {
  import opened KvOrder
  import opened TopKStream

  // Everything before i is below everything from i on.
  predicate SplitAt(s: seq<Kv>, i: nat) {
    i <= |s| && forall a, c :: a in s[..i] && c in s[i..] ==> Lt(a, c)
  }

  lemma SplitLowest(s: seq<Kv>, k: nat)
    requires Distinct(s) && SplitAt(s, k)
    ensures Lowest(Elems(s), Elems(s[..k]), k)
  {
    ElemsCount(s);
    ElemsCount(s[..k]);
    forall x, y | x in s[..k] && y in s && y !in s[..k] ensures Lt(x, y) {
      assert s == s[..k] + s[k..];
      assert y in s[k..];
    }
  }

  // t rearranges s within [lo, hi).
  predicate Within(s: seq<Kv>, t: seq<Kv>, lo: nat, hi: nat) {
    && lo <= hi <= |s| == |t|
    && s[..lo] == t[..lo] && s[hi..] == t[hi..] && multiset(s) == multiset(t)
  }

  lemma CutTail(p: seq<Kv>, r: seq<Kv>, q: seq<Kv>)
    requires multiset(p + q) == multiset(r + q)
    ensures multiset(p) == multiset(r)
  {
    assert multiset(p + q) - multiset(q) == multiset(p);
    assert multiset(r + q) - multiset(q) == multiset(r);
  }

  lemma CutHead(q: seq<Kv>, p: seq<Kv>, r: seq<Kv>)
    requires multiset(q + p) == multiset(q + r)
    ensures multiset(p) == multiset(r)
  {
    assert multiset(q + p) - multiset(q) == multiset(p);
    assert multiset(q + r) - multiset(q) == multiset(r);
  }

  lemma MiddleSame(s: seq<Kv>, t: seq<Kv>, lo: nat, hi: nat)
    requires Within(s, t, lo, hi)
    ensures multiset(s[lo..]) == multiset(t[lo..]) && multiset(s[..hi]) == multiset(t[..hi])
  {
    assert s == s[..lo] + s[lo..] && t == t[..lo] + t[lo..];
    CutHead(s[..lo], s[lo..], t[lo..]);
    assert s == s[..hi] + s[hi..] && t == t[..hi] + t[hi..];
    CutTail(s[..hi], t[..hi], s[hi..]);
  }

  lemma InBoth(s: seq<Kv>, t: seq<Kv>, x: Kv)
    requires multiset(s) == multiset(t) && x in t
    ensures x in s
  {
    assert x in multiset(t);
  }

  // Rearranging within a stretch keeps the splits at its ends.
  lemma SplitsStay(s: seq<Kv>, t: seq<Kv>, lo: nat, hi: nat)
    requires Within(s, t, lo, hi) && SplitAt(s, lo) && SplitAt(s, hi)
    ensures SplitAt(t, lo) && SplitAt(t, hi)
  {
    MiddleSame(s, t, lo, hi);
    forall a, c | a in t[..lo] && c in t[lo..] ensures Lt(a, c) {
      InBoth(s[lo..], t[lo..], c);
    }
    forall a, c | a in t[..hi] && c in t[hi..] ensures Lt(a, c) {
      InBoth(s[..hi], t[..hi], a);
    }
  }

  // A partition of the stretch at j is a split of the whole.
  lemma SplitNew(t: seq<Kv>, lo: nat, j: nat, hi: nat)
    requires lo <= j <= hi <= |t| && SplitAt(t, lo) && SplitAt(t, hi)
    requires forall a, c :: a in t[lo..j] && c in t[j..hi] ==> Lt(a, c)
    ensures SplitAt(t, j)
  {
    assert t[..j] == t[..lo] + t[lo..j] && t[j..] == t[j..hi] + t[hi..];
    assert t[lo..] == t[lo..j] + t[j..] && t[..hi] == t[..j] + t[j..hi];
  }

  // The median of three positions; the random ones can be any.
  method Pick(b: array<Kv>, lo: nat, hi: nat) returns (r: nat)
    requires lo <= hi < b.Length
    ensures lo <= r <= hi
  {
    var x: nat :| lo <= x <= hi;
    var y: nat :| lo <= y <= hi;
    var z: nat :| lo <= z <= hi;
    if Lt(b[x], b[y]) {
      return if Lt(b[y], b[z]) then y else if Lt(b[x], b[z]) then z else x;
    }
    return if Lt(b[x], b[z]) then x else if Lt(b[y], b[z]) then z else y;
  }

  method Exchange(b: array<Kv>, i: nat, j: nat, ghost lo: nat, ghost hi: nat)
    requires lo <= i < hi <= b.Length && lo <= j < hi
    modifies b
    ensures Within(old(b[..]), b[..], lo, hi)
    ensures b[i] == old(b[j]) && b[j] == old(b[i])
    ensures forall m :: 0 <= m < b.Length && m != i && m != j ==> b[m] == old(b[m])
  {
    ghost var s := b[..];
    var tmp := b[i];
    b[i] := b[j];
    b[j] := tmp;
    assert b[..] == s[i := s[j]][j := s[i]];
  }

  // Hoare's partition of [lo, hi] around the entry at lo.
  method Hoare(b: array<Kv>, lo: nat, hi: nat) returns (j: int, ghost p: Kv)
    requires lo < hi < b.Length
    modifies b
    ensures lo <= j < hi && Within(old(b[..]), b[..], lo, hi + 1)
    ensures forall x :: lo <= x <= j ==> Le(b[x], p)
    ensures forall y :: j < y <= hi ==> Le(p, b[y])
  {
    var pivot := b[lo];
    p := pivot;
    var i := lo - 1;
    j := hi + 1;
    ghost var first := true;
    while true
      invariant lo - 1 <= i < j <= hi + 1 && Within(old(b[..]), b[..], lo, hi + 1)
      invariant first ==> i == lo - 1 && j == hi + 1 && b[lo] == p
      invariant !first ==> lo <= i && j <= hi && Le(b[i], p) && Le(p, b[j])
      invariant forall x :: lo <= x <= i ==> Le(b[x], p)
      invariant forall y :: j <= y <= hi ==> Le(p, b[y])
      decreases j - i
    {
      ghost var i0, j0 := i, j;
      i := ScanUp(b, i + 1, pivot, if first then lo else j);
      j := ScanDown(b, j - 1, pivot, if first then lo else i0);
      if i >= j {
        break;
      }
      Exchange(b, i, j, lo, hi + 1);
      first := false;
    }
  }

  lemma HoareSplits(t: seq<Kv>, lo: nat, j: nat, hi: nat, p: Kv)
    requires lo <= j < hi < |t| && Distinct(t)
    requires forall x :: lo <= x <= j ==> Le(t[x], p)
    requires forall y :: j < y <= hi ==> Le(p, t[y])
    ensures forall a, c :: a in t[lo..j + 1] && c in t[j + 1..hi + 1] ==> Lt(a, c)
  {
    forall a, c | a in t[lo..j + 1] && c in t[j + 1..hi + 1] ensures Lt(a, c) {
      var x :| lo <= x <= j && t[x] == a;
      var y :| j < y <= hi && t[y] == c;
      assert t[x] != t[y];
    }
  }

  // Narrow [lo, hi] until it is the k-th slot alone.
  method SelHoare(b: array<Kv>, n: nat, k: nat)
    requires k <= n <= b.Length && Distinct(b[..n])
    modifies b
    ensures b[n..] == old(b[n..]) && multiset(b[..n]) == multiset(old(b[..n]))
    ensures Distinct(b[..n]) && Lowest(Elems(old(b[..n])), Elems(b[..k]), k)
  {
    var lo, hi := 0, n - 1;
    ghost var s0 := b[..n];
    while hi > lo
      invariant 0 <= lo && hi < n && (k > 0 ==> lo <= k - 1 <= hi)
      invariant b[n..] == old(b[n..]) && multiset(b[..n]) == multiset(s0) && Distinct(b[..n])
      invariant SplitAt(b[..n], lo) && (hi >= lo ==> SplitAt(b[..n], hi + 1))
      decreases hi - lo
    {
      var j := Narrow(b, n, lo, hi);
      if k - 1 <= j {
        hi := j;
      } else {
        lo := j + 1;
      }
    }
    assert SplitAt(b[..n], k);
    SameElems(s0, b[..n]);
    SplitLowest(b[..n], k);
    assert b[..n][..k] == b[..k];
  }

  // One round: choose a pivot, bring it to the front, partition.
  method Narrow(b: array<Kv>, n: nat, lo: nat, hi: nat) returns (j: int)
    requires lo < hi < n <= b.Length && Distinct(b[..n]) && SplitAt(b[..n], lo) && SplitAt(b[..n], hi + 1)
    modifies b
    ensures lo <= j < hi
    ensures b[n..] == old(b[n..]) && multiset(b[..n]) == multiset(old(b[..n])) && Distinct(b[..n])
    ensures SplitAt(b[..n], lo) && SplitAt(b[..n], j + 1) && SplitAt(b[..n], hi + 1)
  {
    ghost var s := b[..];
    var pi := Pick(b, lo, hi);
    Exchange(b, lo, pi, lo, hi + 1);
    ghost var p;
    j, p := Hoare(b, lo, hi);
    Prefixes(s, b[..], n, lo, hi + 1);
    SameElems(s[..n], b[..n]);
    SplitsStay(s[..n], b[..n], lo, hi + 1);
    HoareSplits(b[..n], lo, j, hi, p);
    SplitNew(b[..n], lo, j + 1, hi + 1);
  }

  lemma Prefixes(s: seq<Kv>, t: seq<Kv>, n: nat, lo: nat, hi: nat)
    requires Within(s, t, lo, hi) && hi <= n <= |s|
    ensures Within(s[..n], t[..n], lo, hi) && s[n..] == t[n..]
  {
    assert s == s[..n] + s[n..] && t == t[..n] + t[n..];
    assert s[n..] == s[hi..][n - hi..] && t[n..] == t[hi..][n - hi..];
    CutTail(s[..n], t[..n], s[n..]);
    assert s[..n][hi..] == s[hi..][..n - hi] && t[..n][hi..] == t[hi..][..n - hi];
  }

  // do i++ while (b[i] < p); something at or before `stop` ends it.
  method ScanUp(b: array<Kv>, from: nat, p: Kv, ghost stop: nat) returns (i: nat)
    requires from <= stop < b.Length && Le(p, b[stop])
    ensures from <= i <= stop && Le(p, b[i]) && forall x :: from <= x < i ==> Lt(b[x], p)
  {
    i := from;
    while Lt(b[i], p)
      invariant from <= i <= stop && forall x :: from <= x < i ==> Lt(b[x], p)
      decreases stop - i
    {
      i := i + 1;
    }
  }

  method ScanDown(b: array<Kv>, from: nat, p: Kv, ghost stop: nat) returns (j: nat)
    requires stop <= from < b.Length && Le(b[stop], p)
    ensures stop <= j <= from && Le(b[j], p) && forall y :: j < y <= from ==> Lt(p, b[y])
  {
    j := from;
    while Lt(p, b[j])
      invariant stop <= j <= from && forall y :: j < y <= from ==> Lt(p, b[y])
      decreases j
    {
      j := j - 1;
    }
  }

  // ---- Two-output partition ----

  function Less(s: seq<Kv>, p: Kv): (r: seq<Kv>)
    ensures |r| <= |s|
  {
    if s == [] then []
    else Less(s[..|s| - 1], p) + if Lt(s[|s| - 1], p) then [s[|s| - 1]] else []
  }

  function Rest(s: seq<Kv>, p: Kv): (r: seq<Kv>)
    ensures |r| <= |s|
  {
    if s == [] then []
    else Rest(s[..|s| - 1], p) + if Lt(s[|s| - 1], p) then [] else [s[|s| - 1]]
  }

  lemma {:induction false} LessCounts(s: seq<Kv>, p: Kv, x: Kv)
    ensures multiset(Less(s, p))[x] == if Lt(x, p) then multiset(s)[x] else 0
  {
    if s != [] {
      LessCounts(s[..|s| - 1], p, x);
      assert s == s[..|s| - 1] + [s[|s| - 1]];
    }
  }

  lemma {:induction false} RestCounts(s: seq<Kv>, p: Kv, x: Kv)
    ensures multiset(Rest(s, p))[x] == if Lt(x, p) then 0 else multiset(s)[x]
  {
    if s != [] {
      RestCounts(s[..|s| - 1], p, x);
      assert s == s[..|s| - 1] + [s[|s| - 1]];
    }
  }

  lemma {:induction false} PartLengths(s: seq<Kv>, p: Kv)
    ensures |Less(s, p)| + |Rest(s, p)| == |s|
  {
    if s != [] {
      PartLengths(s[..|s| - 1], p);
    }
  }

  lemma PartIs(s: seq<Kv>, p: Kv)
    ensures multiset(Less(s, p) + Rest(s, p)) == multiset(s)
    ensures forall x :: x in Less(s, p) ==> Lt(x, p)
    ensures forall x :: x in Rest(s, p) ==> Le(p, x)
  {
    forall x ensures multiset(Less(s, p) + Rest(s, p))[x] == multiset(s)[x] {
      LessCounts(s, p, x);
      RestCounts(s, p, x);
    }
    forall x | x in Less(s, p) ensures Lt(x, p) {
      LessCounts(s, p, x);
      assert x in multiset(Less(s, p));
    }
    forall x | x in Rest(s, p) ensures Le(p, x) {
      RestCounts(s, p, x);
      assert x in multiset(Rest(s, p));
    }
  }

  lemma PartNext(s: seq<Kv>, i: nat, p: Kv)
    requires i < |s|
    ensures Less(s[..i + 1], p) == if Lt(s[i], p) then Less(s[..i], p) + [s[i]] else Less(s[..i], p)
    ensures Rest(s[..i + 1], p) == if Lt(s[i], p) then Rest(s[..i], p) else Rest(s[..i], p) + [s[i]]
  {
    assert s[..i + 1][..i] == s[..i];
  }

  // After i steps over s its rest is still in place ...
  predicate Unread(s: seq<Kv>, i: nat, src: seq<Kv>) {
    i <= |s| <= |src| && forall j :: i <= j < |s| ==> src[j] == s[j]
  }

  // ... and an output holds what has been read for it.
  predicate Holds(out: seq<Kv>, r: seq<Kv>) {
    |r| <= |out| && forall j :: 0 <= j < |r| ==> out[j] == r[j]
  }

  lemma UnreadNext(s: seq<Kv>, i: nat, src: seq<Kv>, w: nat, x: Kv)
    requires Unread(s, i, src) && i < |s| && w <= i
    ensures Unread(s, i + 1, src) && Unread(s, i + 1, src[w := x])
  {
  }

  lemma HoldsNext(out: seq<Kv>, r: seq<Kv>, x: Kv)
    requires Holds(out, r) && |r| < |out|
    ensures Holds(out[|r| := x], r) && Holds(out[|r| := x], r + [x])
  {
  }

  predicate Halfway(s: seq<Kv>, p: Kv, i: nat, a: nat, g: nat, src: seq<Kv>, lt: seq<Kv>, ge: seq<Kv>) {
    && Unread(s, i, src) && Holds(lt, Less(s[..i], p)) && Holds(ge, Rest(s[..i], p))
    && a == |Less(s[..i], p)| && g == |Rest(s[..i], p)| && a + g == i
  }

  lemma HalfwayNext(s: seq<Kv>, p: Kv, i: nat, a: nat, g: nat, src: seq<Kv>, lt: seq<Kv>, ge: seq<Kv>, src': seq<Kv>)
    requires Halfway(s, p, i, a, g, src, lt, ge) && i < |s| && |s| <= |lt| && |s| <= |ge|
    requires src' == src || src' == src[a := s[i]] || src' == src[g := s[i]]
    ensures var go := Lt(s[i], p);
      Halfway(s, p, i + 1, if go then a + 1 else a, if go then g else g + 1, src', lt[a := s[i]], ge[g := s[i]])
  {
    PartNext(s, i, p);
    UnreadNext(s, i, src, a, s[i]);
    UnreadNext(s, i, src, g, s[i]);
    HoldsNext(lt, Less(s[..i], p), s[i]);
    HoldsNext(ge, Rest(s[..i], p), s[i]);
  }

  method WriteBoth(src: array<Kv>, at: nat, lt: array<Kv>, ltAt: nat, a: nat, ge: array<Kv>, geAt: nat, g: nat, x: Kv)
    requires at <= src.Length && ltAt + a < lt.Length && geAt + g < ge.Length
    requires lt != ge && (lt == src ==> ltAt == at) && (ge == src ==> geAt == at)
    modifies lt, ge
    ensures lt[ltAt..] == old(lt[ltAt..])[a := x] && ge[geAt..] == old(ge[geAt..])[g := x]
    ensures src[at..] ==
      if src == lt then old(src[at..])[a := x] else if src == ge then old(src[at..])[g := x] else old(src[at..])
    ensures lt[..ltAt] == old(lt[..ltAt]) && ge[..geAt] == old(ge[..geAt])
  {
    lt[ltAt + a] := x;
    ge[geAt + g] := x;
  }

  method PartStep(src: array<Kv>, at: nat, p: Kv, lt: array<Kv>, ltAt: nat, a: nat, ge: array<Kv>, geAt: nat, g: nat,
                  i: nat, ghost s: seq<Kv>)
    returns (go: bool)
    requires at + |s| <= src.Length && ltAt + |s| <= lt.Length && geAt + |s| <= ge.Length && i < |s|
    requires lt != ge && (lt == src ==> ltAt == at) && (ge == src ==> geAt == at)
    requires Halfway(s, p, i, a, g, src[at..], lt[ltAt..], ge[geAt..])
    modifies lt, ge
    ensures Halfway(s, p, i + 1, if go then a + 1 else a, if go then g else g + 1, src[at..], lt[ltAt..], ge[geAt..])
    ensures lt[..ltAt] == old(lt[..ltAt]) && ge[..geAt] == old(ge[..geAt])
  {
    ghost var src0, lt0, ge0 := src[at..], lt[ltAt..], ge[geAt..];
    var x := src[at + i];
    assert x == src0[i];
    go := Lt(x, p);
    WriteBoth(src, at, lt, ltAt, a, ge, geAt, g, x);
    HalfwayNext(s, p, i, a, g, src0, lt0, ge0, src[at..]);
  }

  // Both outputs are written at every step; either may lie over the input,
  // since neither write index ever passes the read index.
  method PartScalar(src: array<Kv>, at: nat, n: nat, p: Kv, lt: array<Kv>, ltAt: nat, ge: array<Kv>, geAt: nat)
    returns (a: nat)
    requires at + n <= src.Length && ltAt + n <= lt.Length && geAt + n <= ge.Length
    requires lt != ge && (lt == src ==> ltAt == at) && (ge == src ==> geAt == at)
    modifies lt, ge
    ensures a == |Less(old(src[at..at + n]), p)| <= n && |Rest(old(src[at..at + n]), p)| == n - a
    ensures lt[ltAt..][..a] == Less(old(src[at..at + n]), p)
    ensures ge[geAt..][..n - a] == Rest(old(src[at..at + n]), p)
    ensures lt[..ltAt] == old(lt[..ltAt]) && ge[..geAt] == old(ge[..geAt])
  {
    ghost var s := src[at..at + n];
    a := 0;
    var g := 0;
    for i := 0 to n
      invariant Halfway(s, p, i, a, g, src[at..], lt[ltAt..], ge[geAt..])
      invariant lt[..ltAt] == old(lt[..ltAt]) && ge[..geAt] == old(ge[..geAt])
    {
      var go := PartStep(src, at, p, lt, ltAt, a, ge, geAt, g, i, s);
      if go {
        a := a + 1;
      } else {
        g := g + 1;
      }
    }
    assert s[..n] == s;
  }

  // ---- QuickSelect by that partition ----

  lemma LowestOfLowest(all: set<Kv>, t: set<Kv>, u: set<Kv>, hi: nat, k: nat)
    requires Lowest(all, t, hi) && Lowest(t, u, k) && k <= |t|
    ensures Lowest(all, u, k)
  {
    SubsetCount(t, all);
  }

  // The first hi slots hold the hi lowest of all, split at lo, and k is in between.
  predicate Cut(all: set<Kv>, s: seq<Kv>, lo: nat, hi: nat, k: nat) {
    && lo <= k <= hi == |s|
    && Distinct(s) && Lowest(all, Elems(s), hi) && SplitAt(s, lo)
  }

  // The stretch from lo on, partitioned around p.
  function Parted(s: seq<Kv>, lo: nat, p: Kv): seq<Kv>
    requires lo <= |s|
  {
    s[..lo] + Less(s[lo..], p) + Rest(s[lo..], p)
  }

  lemma PartedWithin(s: seq<Kv>, lo: nat, p: Kv)
    requires lo <= |s|
    ensures Within(s, Parted(s, lo, p), lo, |s|)
  {
    PartLengths(s[lo..], p);
    PartIs(s[lo..], p);
    assert Parted(s, lo, p) == s[..lo] + (Less(s[lo..], p) + Rest(s[lo..], p));
    assert s == s[..lo] + s[lo..];
  }

  lemma PartedSplits(s: seq<Kv>, lo: nat, p: Kv)
    requires SplitAt(s, lo) && Distinct(s)
    ensures var u := Parted(s, lo, p);
      && Distinct(u) && Elems(u) == Elems(s) && |u| == |s|
      && SplitAt(u, lo) && SplitAt(u, lo + |Less(s[lo..], p)|)
  {
    var u := Parted(s, lo, p);
    var m := lo + |Less(s[lo..], p)|;
    PartedWithin(s, lo, p);
    SameElems(s, u);
    SplitsStay(s, u, lo, |s|);
    assert u[lo..m] == Less(s[lo..], p) && u[m..|u|] == Rest(s[lo..], p);
    PartIs(s[lo..], p);
    SplitNew(u, lo, m, |u|);
  }

  // The rank lies below the pivot: keep the lesser side.
  lemma CutBelow(all: set<Kv>, s: seq<Kv>, lo: nat, hi: nat, k: nat, p: Kv)
    requires Cut(all, s, lo, hi, k) && k <= lo + |Less(s[lo..], p)|
    ensures Cut(all, Parted(s, lo, p)[..lo + |Less(s[lo..], p)|], lo, lo + |Less(s[lo..], p)|, k)
  {
    var u := Parted(s, lo, p);
    var m := lo + |Less(s[lo..], p)|;
    PartLengths(s[lo..], p);
    PartedSplits(s, lo, p);
    SplitPrefix(u, lo, m);
    SplitLowest(u, m);
    ElemsCount(u);
    LowestOfLowest(all, Elems(u), Elems(u[..m]), hi, m);
  }

  lemma SplitPrefix(u: seq<Kv>, lo: nat, m: nat)
    requires lo <= m <= |u| && SplitAt(u, lo)
    ensures SplitAt(u[..m], lo)
  {
    var t := u[..m];
    assert t[..lo] == u[..lo] && u[lo..] == t[lo..] + u[m..];
  }

  // The rank lies at or above it: move past the lesser side, or past the
  // pivot alone when nothing is less.
  lemma CutAbove(all: set<Kv>, s: seq<Kv>, lo: nat, hi: nat, k: nat, p: Kv)
    requires Cut(all, s, lo, hi, k) && k > lo + |Less(s[lo..], p)|
    ensures Cut(all, Parted(s, lo, p), lo + |Less(s[lo..], p)|, hi, k)
  {
    PartLengths(s[lo..], p);
    PartedSplits(s, lo, p);
  }

  lemma CutPivot(all: set<Kv>, s: seq<Kv>, t: seq<Kv>, lo: nat, hi: nat, k: nat, p: Kv)
    requires Cut(all, s, lo, hi, k) && k > lo && Within(s, t, lo, hi) && t[lo] == p
    requires forall x :: x in s[lo..] ==> Le(p, x)
    ensures Cut(all, t, lo + 1, hi, k)
  {
    SameElems(s, t);
    SplitsStay(s, t, lo, hi);
    MiddleSame(s, t, lo, hi);
    forall a, c | a in t[lo..lo + 1] && c in t[lo + 1..hi] ensures Lt(a, c) {
      var j :| lo + 1 <= j < hi && t[j] == c;
      assert c == t[lo..][j - lo];
      InBoth(s[lo..], t[lo..], c);
      assert t[lo] != t[j];
    }
    SplitNew(t, lo, lo + 1, hi);
  }

  lemma ElemsConcat(p: seq<Kv>, q: seq<Kv>)
    ensures Elems(p + q) == Elems(p) + Elems(q)
  {
  }

  // Sorting from lo on makes every later index a split.
  lemma SortedSplits(s: seq<Kv>, lo: nat, k: nat)
    requires SplitAt(s, lo) && Distinct(s) && lo <= k <= |s|
    ensures SplitAt(s[..lo] + Sort(s[lo..]), k)
  {
    var r := Sort(s[lo..]);
    var t := s[..lo] + r;
    SortIs(s[lo..]);
    assert t[..k] == s[..lo] + r[..k - lo] && t[k..] == r[k - lo..];
    forall a, c | a in t[..k] && c in t[k..] ensures Lt(a, c) {
      assert c in r && c in Elems(r) && c in s[lo..];
      if a !in s[..lo] {
        var i :| 0 <= i < k - lo && r[i] == a;
        var j :| k - lo <= j < |r| && r[j] == c;
      }
    }
  }

  lemma CutSorted(all: set<Kv>, s: seq<Kv>, lo: nat, hi: nat, k: nat)
    requires Cut(all, s, lo, hi, k)
    ensures var t := s[..lo] + Sort(s[lo..]);
      Distinct(t) && Lowest(all, Elems(t[..k]), k)
  {
    var t := s[..lo] + Sort(s[lo..]);
    SortIs(s[lo..]);
    ElemsCount(s);
    assert s == s[..lo] + s[lo..];
    ElemsConcat(s[..lo], s[lo..]);
    ElemsConcat(s[..lo], Sort(s[lo..]));
    CountDistinct(t);
    SortedSplits(s, lo, k);
    SplitLowest(t, k);
    LowestOfLowest(all, Elems(t), Elems(t[..k]), hi, k);
  }

  method NarrowOnce(b: array<Kv>, lo: nat, hi: nat, k: nat, tmp: array<Kv>, ghost all: set<Kv>)
    returns (lo': nat, hi': nat)
    requires lo < hi <= b.Length && hi <= tmp.Length && b != tmp && Cut(all, b[..hi], lo, hi, k)
    modifies b, tmp
    ensures lo <= lo' <= hi' <= hi && hi' - lo' < hi - lo && Cut(all, b[..hi'], lo', hi', k)
  {
    ghost var s := b[..hi];
    ghost var p;
    lo', hi', p := Round(b, lo, hi, k, tmp);
    KeptCut(all, s, lo, hi, k, p, b[..hi'], lo');
  }

  method SortCut(b: array<Kv>, lo: nat, hi: nat, ghost k: nat, ghost all: set<Kv>)
    requires lo <= hi <= b.Length && Cut(all, b[..hi], lo, hi, k)
    modifies b
    ensures Distinct(b[..k]) && Lowest(all, Elems(b[..k]), k)
  {
    CutSorted(all, b[..hi], lo, hi, k);
    SortTail(b, lo, hi);
    assert b[..k] == b[..hi][..k];
  }

  // Afterwards the first k slots hold the k lowest of the first n; later
  // slots may hold stale copies.
  method SelPart(b: array<Kv>, n: nat, k: nat, tmp: array<Kv>)
    requires k <= n <= b.Length && n <= tmp.Length && b != tmp && Distinct(b[..n])
    modifies b, tmp
    ensures Distinct(b[..k]) && Lowest(Elems(old(b[..n])), Elems(b[..k]), k)
  {
    ghost var all := Elems(b[..n]);
    var lo, hi := 0, n;
    ElemsCount(b[..n]);
    while hi - lo > 16
      invariant 0 <= lo <= hi <= n && Cut(all, b[..hi], lo, hi, k)
      decreases hi - lo
    {
      lo, hi := NarrowOnce(b, lo, hi, k, tmp, all);
    }
    SortCut(b, lo, hi, k, all);
  }

  // Sort b[lo..hi], which is short.
  method SortTail(b: array<Kv>, lo: nat, hi: nat)
    requires lo <= hi <= b.Length
    modifies b
    ensures b[..hi] == old(b[..hi])[..lo] + Sort(old(b[..hi])[lo..])
  {
    ghost var s := b[..hi];
    assert s[lo..] == b[lo..hi] && s[..lo] == b[..lo];
    if hi - lo > 1 {
      QSort(b, lo, hi);
    } else {
      assert Sort(s[lo..]) == s[lo..];
    }
    assert b[..hi] == b[..lo] + b[lo..hi];
  }

  // The front of v and w hold the two sides of the partition of s from lo on.
  lemma PartedAs(s: seq<Kv>, lo: nat, p: Kv, v: seq<Kv>, w: seq<Kv>, a: nat)
    requires lo <= |s| <= |v| && |s| <= |w| && a == |Less(s[lo..], p)| && v[..lo] == s[..lo]
    requires lo + a <= |s| && v[lo..][..a] == Less(s[lo..], p) && w[..|s| - lo - a] == Rest(s[lo..], p)
    ensures |Parted(s, lo, p)| == |s|
    ensures v[..lo + a] == Parted(s, lo, p)[..lo + a] && w[..|s| - lo - a] == Parted(s, lo, p)[lo + a..]
  {
    assert v[..lo + a] == v[..lo] + v[lo..][..a];
    PartLengths(s[lo..], p);
  }

  // Partition b[lo..hi] over itself, the rest going to tmp.
  method PartOver(b: array<Kv>, lo: nat, hi: nat, p: Kv, tmp: array<Kv>) returns (a: nat)
    requires lo <= hi <= b.Length && hi <= tmp.Length && b != tmp
    modifies b, tmp
    ensures a == |Less(old(b[..hi])[lo..], p)| <= hi - lo && |Parted(old(b[..hi]), lo, p)| == hi
    ensures b[..lo + a] == Parted(old(b[..hi]), lo, p)[..lo + a]
    ensures tmp[..hi - lo - a] == Parted(old(b[..hi]), lo, p)[lo + a..]
  {
    ghost var s := b[..hi];
    assert s[lo..] == b[lo..hi] && s[..lo] == b[..lo];
    a := PartScalar(b, lo, hi - lo, p, b, lo, tmp, 0);
    ghost var v, w := b[..], tmp[..];
    assert v[..lo] == b[..lo] && v[lo..] == b[lo..] && w[0..] == w;
    PartedAs(s, lo, p, v, w, a);
  }

  method CopyBack(b: array<Kv>, from: nat, hi: nat, tmp: array<Kv>)
    requires from <= hi <= b.Length && hi - from <= tmp.Length && b != tmp
    modifies b
    ensures b[..hi] == old(b[..from]) + tmp[..hi - from]
  {
    forall j | from <= j < hi {
      b[j] := tmp[j - from];
    }
  }

  // The pivot is the minimum: find it and split it off.
  method SplitOff(b: array<Kv>, lo: nat, hi: nat, p: Kv)
    requires lo < hi <= b.Length && p in b[lo..hi]
    modifies b
    ensures Within(old(b[..hi]), b[..hi], lo, hi) && b[lo] == p
  {
    var pi := lo;
    while !(b[pi].k == p.k && b[pi].s == p.s)
      invariant lo <= pi < hi && p in b[pi..hi]
      decreases hi - pi
    {
      assert b[pi..hi] == [b[pi]] + b[pi + 1..hi];
      pi := pi + 1;
    }
    ghost var s := b[..];
    Exchange(b, lo, pi, lo, hi);
    Prefixes(s, b[..], hi, lo, hi);
  }

  // What a round around pivot p makes of the first hi slots s: it keeps the
  // slots t, with the rank in [lo', |t|).
  predicate Kept(s: seq<Kv>, lo: nat, k: nat, p: Kv, t: seq<Kv>, lo': nat)
    requires lo <= |s|
  {
    var a := |Less(s[lo..], p)|;
    var u := Parted(s, lo, p);
    && lo + a <= |u|
    && if k <= lo + a then lo' == lo && t == u[..lo + a]
       else if a > 0 then lo' == lo + a && t == u
       else lo' == lo + 1 <= |t| && Within(u, t, lo, |u|) && t[lo] == p
  }

  lemma KeptCut(all: set<Kv>, s: seq<Kv>, lo: nat, hi: nat, k: nat, p: Kv, t: seq<Kv>, lo': nat)
    requires Cut(all, s, lo, hi, k) && Kept(s, lo, k, p, t, lo')
    ensures Cut(all, t, lo', |t|, k)
  {
    var a := |Less(s[lo..], p)|;
    if k <= lo + a {
      CutBelow(all, s, lo, hi, k, p);
    } else {
      CutAbove(all, s, lo, hi, k, p);
      if a == 0 {
        PartIs(s[lo..], p);
        assert Parted(s, lo, p)[lo..] == Rest(s[lo..], p);
        CutPivot(all, Parted(s, lo, p), t, lo, hi, k, p);
      }
    }
  }

  // The rank is not below the pivot: put the rest back behind the lesser
  // side, and if nothing was less, the pivot first.
  method MoveUp(b: array<Kv>, lo: nat, hi: nat, p: Kv, a: nat, tmp: array<Kv>, ghost u: seq<Kv>) returns (lo': nat)
    requires lo + a <= hi <= b.Length && lo < hi && hi - lo - a <= tmp.Length && b != tmp && |u| == hi
    requires b[..lo + a] == u[..lo + a] && tmp[..hi - lo - a] == u[lo + a..] && (a == 0 ==> p in u[lo..])
    modifies b
    ensures a > 0 ==> lo' == lo + a && b[..hi] == u
    ensures a == 0 ==> lo' == lo + 1 && Within(u, b[..hi], lo, hi) && b[lo] == p
  {
    CopyBack(b, lo + a, hi, tmp);
    assert b[..hi] == u by {
      assert u == u[..lo + a] + u[lo + a..];
    }
    if a > 0 {
      return lo + a;
    }
    assert b[lo..hi] == b[..hi][lo..];
    SplitOff(b, lo, hi, p);
    return lo + 1;
  }

  // One round: partition around a random entry and keep the side of the rank.
  method Round(b: array<Kv>, lo: nat, hi: nat, k: nat, tmp: array<Kv>) returns (lo': nat, hi': nat, ghost p: Kv)
    requires lo < hi <= b.Length && hi <= tmp.Length && b != tmp
    modifies b, tmp
    ensures lo <= lo' && hi' <= hi && hi' - lo' < hi - lo
    ensures Kept(old(b[..hi]), lo, k, p, b[..hi'], lo')
  {
    ghost var s := b[..hi];
    var pi := Pick(b, lo, hi - 1);
    var pivot := b[pi];
    p := pivot;
    PivotStays(s, lo, p, pi);
    var a := PartOver(b, lo, hi, pivot, tmp);
    if k - 1 < lo + a {
      return lo, lo + a, p;
    }
    lo' := MoveUp(b, lo, hi, pivot, a, tmp, Parted(s, lo, p));
    hi' := hi;
  }

  // The pivot is not less than itself.
  lemma PivotStays(s: seq<Kv>, lo: nat, p: Kv, i: nat)
    requires lo <= i < |s| && s[i] == p
    ensures |Less(s[lo..], p)| < |s| - lo
    ensures |Less(s[lo..], p)| == 0 ==> p in Parted(s, lo, p)[lo..]
  {
    var mid := s[lo..];
    RestCounts(mid, p, p);
    assert mid[i - lo] == p;
    assert p in multiset(mid);
    assert p in multiset(Rest(mid, p));
    PartLengths(mid, p);
    if |Less(mid, p)| == 0 {
      assert Parted(s, lo, p)[lo..] == Rest(mid, p);
    }
  }
}
