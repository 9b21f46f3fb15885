/**
 * Streaming selectors (bench/bench_topk.c): keep the K lowest seen so far, by
 * replacing the worst or in a bounded max-heap.
 */
module TopKStream {
  import opened ArraySeq
  import opened KvOrder

  // libc's qsort, by its contract.
  method QSort(b: array<Kv>, lo: nat, hi: nat)
    requires lo <= hi <= b.Length
    modifies b
    ensures b[lo..hi] == Sort(old(b[lo..hi]))
    ensures b[..lo] == old(b[..lo]) && b[hi..] == old(b[hi..])
  {
    var r := Sort(b[lo..hi]);
    for i := 0 to |r|
      invariant b[lo..lo + i] == r[..i]
      invariant b[..lo] == old(b[..lo]) && b[hi..] == old(b[hi..])
    {
      b[lo + i] := r[i];
      assert b[lo..lo + i + 1] == b[lo..lo + i] + [r[i]];
    }
  }

  // s holds the k lowest of the first i entries.
  predicate Keeps(e: seq<Kv>, i: nat, s: seq<Kv>, k: nat)
    requires i <= |e|
  {
    Distinct(s) && |s| == Min(k, i) && Lowest(Elems(e[..i]), Elems(s), k)
  }

  // Arrival numbers count up from zero.
  predicate Arrivals(e: seq<Kv>) {
    forall i :: 0 <= i < |e| ==> e[i].s == i
  }

  predicate Worst(s: seq<Kv>, w: int) {
    0 <= w < |s| && forall r :: 0 <= r < |s| ==> Le(s[r], s[w])
  }

  lemma Seen(e: seq<Kv>, i: nat)
    requires Arrivals(e) && i < |e|
    ensures Elems(e[..i + 1]) == Elems(e[..i]) + {e[i]} && |Elems(e[..i])| == i && e[i] !in Elems(e[..i])
    ensures forall x :: x in Elems(e[..i]) ==> x.s < i
  {
    assert e[..i + 1] == e[..i] + [e[i]];
    ElemsAppend(e[..i], e[i]);
    ElemsCount(e[..i]);
  }

  lemma Admit(e: seq<Kv>, i: nat, s: seq<Kv>, k: nat)
    requires Arrivals(e) && i < |e| && Keeps(e, i, s, k) && |s| < k
    ensures Keeps(e, i + 1, s + [e[i]], k)
  {
    Seen(e, i);
    ElemsCount(s);
    SubsetSame(Elems(s), Elems(e[..i]));
    ElemsAppend(s, e[i]);
    assert e[i] !in s;
  }

  // A later arrival is kept only if its key is strictly smaller than the worst.
  lemma Reject(e: seq<Kv>, i: nat, s: seq<Kv>, w: nat, k: nat)
    requires Arrivals(e) && i < |e| && Keeps(e, i, s, k) && |s| == k && Worst(s, w) && e[i].k >= s[w].k
    ensures Keeps(e, i + 1, s, k)
  {
    Seen(e, i);
    forall x | x in s ensures Lt(x, e[i]) {
      assert x in Elems(s);
      assert Le(x, s[w]);
    }
  }

  lemma Replace(e: seq<Kv>, i: nat, s: seq<Kv>, w: nat, k: nat)
    requires Arrivals(e) && i < |e| && Keeps(e, i, s, k) && |s| == k && Worst(s, w) && e[i].k < s[w].k
    ensures Keeps(e, i + 1, s[w := e[i]], k)
  {
    Seen(e, i);
    assert e[i] !in s by {
      assert e[i] !in Elems(s);
    }
    Swapped(s, w, e[i]);
    ElemsCount(s);
    assert forall y :: y in Elems(s) ==> Le(y, s[w]);
    LowestSwaps(Elems(e[..i]), Elems(s), s[w], e[i], k);
  }

  lemma Swapped(s: seq<Kv>, w: nat, x: Kv)
    requires Distinct(s) && w < |s| && x !in s
    ensures Distinct(s[w := x]) && Elems(s[w := x]) == Elems(s) - {s[w]} + {x}
  {
    var t := s[w := x];
    forall y ensures y in t <==> y == x || (y in s && y != s[w]) {
      if y in s && y != s[w] {
        var j :| 0 <= j < |s| && s[j] == y;
        assert t[j] == y;
      }
      assert t[w] == x;
    }
  }

  // With nothing kept this names slot 0, whatever it holds.
  method WorstOf(out: array<Kv>, m: nat) returns (w: nat)
    requires m <= out.Length
    ensures if m == 0 then w == 0 else Worst(out[..m], w)
  {
    w := 0;
    var r := 1;
    while r < m
      invariant 1 <= r && (m > 0 ==> w < r <= m) && (m == 0 ==> w == 0)
      invariant m > 0 ==> forall j :: 0 <= j < r ==> Le(out[j], out[w])
    {
      if Lt(out[w], out[r]) {
        w := r;
      }
      r := r + 1;
    }
  }

  // For K = 0 the streaming selectors still read and write slot 0.
  predicate Room(n: nat, k: nat, slots: nat) {
    Min(k, n) <= slots && (k == 0 < n ==> slots > 0)
  }

  // What the entry that meets a full buffer does to it.
  lemma Meets(e: seq<Kv>, i: nat, s: seq<Kv>, w: nat, k: nat)
    requires Arrivals(e) && i < |e| && Keeps(e, i, s, k) && |s| == k && (k > 0 ==> Worst(s, w))
    ensures k > 0 && e[i].k < s[w].k ==> Keeps(e, i + 1, s[w := e[i]], k)
    ensures !(k > 0 && e[i].k < s[w].k) ==> Keeps(e, i + 1, s, k)
  {
    if k == 0 {
      Seen(e, i);
    } else if e[i].k < s[w].k {
      Replace(e, i, s, w, k);
    } else {
      Reject(e, i, s, w, k);
    }
  }

  // Replace the worst, rescanning for it when it has changed.
  method TopkRepl(input: seq<int>, k: nat, out: array<Kv>) returns (m: nat)
    requires Room(|input|, k, out.Length)
    modifies out
    ensures m == Min(k, |input|) && out[..m] == TopK(input, k)
  {
    ghost var e := Entries(input);
    m := 0;
    var w := -1;
    for i := 0 to |input|
      invariant m <= out.Length && Keeps(e, i, out[..m], k)
      invariant w == -1 || (m == k && if k == 0 then w == 0 else Worst(out[..m], w))
    {
      var x := Kv(input[i], i);
      if m < k {
        Admit(e, i, out[..m], k);
        out[m] := x;
        m := m + 1;
        assert out[..m] == out[..m - 1] + [x];
        continue;
      }
      if w < 0 {
        w := WorstOf(out, m);
      }
      ghost var s := out[..m];
      Meets(e, i, s, w, k);
      if x.k >= out[w].k {
        continue;
      }
      out[w] := x;
      assert out[..m] == if m == 0 then s else s[w := x];
      w := -1;
    }
    Finish(e, out, m, input, k);
  }

  // Sort what was kept.
  method Finish(ghost e: seq<Kv>, out: array<Kv>, m: nat, ghost input: seq<int>, ghost k: nat)
    requires e == Entries(input) && m <= out.Length && Keeps(e, |e|, out[..m], k)
    modifies out
    ensures out[..m] == TopK(input, k)
  {
    SortIs(out[..m]);
    assert e[..|e|] == e;
    assert out[..m] == out[0..m];
    QSort(out, 0, m);
    assert out[..m] == out[0..m];
    IsTopK(out[..m], input, k);
  }

  // ---- The bounded max-heap ----

  // No child is above its parent.
  predicate MaxHeap(s: seq<Kv>) {
    forall c {:trigger Parent(c)} :: 0 < c < |s| ==> Le(s[c], s[Parent(c)])
  }

  // Heap order but between j and its parent; and between j and its children.
  predicate HeapAbove(s: seq<Kv>, j: nat) {
    && (forall c {:trigger Parent(c)} :: 0 < c < |s| && c != j ==> Le(s[c], s[Parent(c)]))
    && (forall c {:trigger Parent(c)} :: 0 < j < c < |s| && Parent(c) == j ==> Le(s[c], s[Parent(j)]))
  }

  predicate HeapBelow(s: seq<Kv>, j: nat) {
    && (forall c {:trigger Parent(c)} :: 0 < c < |s| && Parent(c) != j ==> Le(s[c], s[Parent(c)]))
    && (forall c {:trigger Parent(c)} :: 0 < j < c < |s| && Parent(c) == j ==> Le(s[c], s[Parent(j)]))
  }

  lemma {:induction false} RootWorst(s: seq<Kv>, j: nat)
    requires MaxHeap(s) && j < |s|
    ensures Le(s[j], s[0])
  {
    if j > 0 {
      RootWorst(s, Parent(j));
    }
  }

  lemma SwapRises(s: seq<Kv>, j: nat)
    requires 0 < j < |s| && HeapAbove(s, j) && Lt(s[Parent(j)], s[j])
    ensures HeapAbove(Swap(s, j, Parent(j)), Parent(j))
  {
  }

  lemma SwapSinks(s: seq<Kv>, j: nat)
    requires 2 * j + 1 < |s| && HeapBelow(s, j) && Lt(s[j], s[LargerChild(s, j)])
    ensures HeapBelow(Swap(s, j, LargerChild(s, j)), LargerChild(s, j))
  {
  }

  // One move of the hole at j, which will hold x.
  lemma HoleUp(s: seq<Kv>, j: nat, x: Kv)
    requires 0 < j < |s| && HeapAbove(s[j := x], j) && Lt(s[Parent(j)], x)
    ensures var t := s[j := s[Parent(j)]];
      HeapAbove(t[Parent(j) := x], Parent(j)) && multiset(t[Parent(j) := x]) == multiset(s[j := x])
  {
    SwapRises(s[j := x], j);
    SwapKeeps(s[j := x], j, Parent(j));
    assert Swap(s[j := x], j, Parent(j)) == s[j := s[Parent(j)]][Parent(j) := x];
  }

  function LargerChild(s: seq<Kv>, j: nat): nat
    requires 2 * j + 1 < |s|
  {
    if 2 * j + 2 < |s| && Lt(s[2 * j + 1], s[2 * j + 2]) then 2 * j + 2 else 2 * j + 1
  }

  lemma HoleDown(s: seq<Kv>, j: nat, x: Kv)
    requires 2 * j + 1 < |s| && HeapBelow(s[j := x], j) && Lt(x, s[LargerChild(s, j)])
    ensures var c := LargerChild(s, j); var t := s[j := s[c]];
      HeapBelow(t[c := x], c) && multiset(t[c := x]) == multiset(s[j := x])
  {
    var c := LargerChild(s, j);
    SwapSinks(s[j := x], j);
    SwapKeeps(s[j := x], j, c);
    assert Swap(s[j := x], j, c) == s[j := s[c]][c := x];
  }

  lemma SinkStarts(s: seq<Kv>, x: Kv)
    requires s != [] && MaxHeap(s)
    ensures HeapBelow(s[0 := x], 0)
  {
  }

  // The hole has come to rest.
  lemma HoleRests(s: seq<Kv>, j: nat, x: Kv)
    requires j < |s| && HeapBelow(s[j := x], j) && (2 * j + 1 < |s| ==> Le(s[LargerChild(s, j)], x))
    ensures MaxHeap(s[j := x])
  {
  }

  lemma RiseStarts(s: seq<Kv>, x: Kv)
    requires MaxHeap(s)
    ensures HeapAbove(s + [x], |s|)
  {
  }

  lemma RiseRests(s: seq<Kv>, j: nat, x: Kv)
    requires j < |s| && HeapAbove(s[j := x], j) && (j > 0 ==> Le(x, s[Parent(j)]))
    ensures MaxHeap(s[j := x])
  {
  }

  // Add x below the last entry and let it rise.
  method Rise(h: array<Kv>, m: nat, x: Kv)
    requires m < h.Length && MaxHeap(h[..m])
    modifies h
    ensures MaxHeap(h[..m + 1]) && multiset(h[..m + 1]) == multiset(old(h[..m]) + [x])
  {
    var j := m;
    ghost var n := m + 1;
    RiseStarts(h[..m], x);
    assert h[..n][j := x] == h[..m] + [x];
    while j > 0 && Lt(h[(j - 1) / 2], x)
      invariant 0 <= j <= m
      invariant HeapAbove(h[..n][j := x], j) && multiset(h[..n][j := x]) == multiset(old(h[..m]) + [x])
    {
      ghost var s := h[..n];
      HoleUp(s, j, x);
      h[j] := h[(j - 1) / 2];
      assert h[..n] == s[j := s[Parent(j)]];
      j := (j - 1) / 2;
    }
    ghost var s := h[..n];
    RiseRests(s, j, x);
    h[j] := x;
    assert h[..n] == s[j := x];
  }

  method Larger(h: array<Kv>, m: nat, j: nat) returns (c: nat)
    requires 2 * j + 1 < m <= h.Length
    ensures c == LargerChild(h[..m], j)
  {
    c := 2 * j + 1;
    if c + 1 < m && Lt(h[c], h[c + 1]) {
      c := c + 1;
    }
  }

  // Put x in the root's place and let it sink.
  method Sink(h: array<Kv>, m: nat, x: Kv)
    requires 0 < m <= h.Length && MaxHeap(h[..m])
    modifies h
    ensures MaxHeap(h[..m]) && multiset(h[..m]) == multiset(old(h[..m])[0 := x])
  {
    var j := 0;
    SinkStarts(h[..m], x);
    while 2 * j + 1 < m
      invariant 0 <= j < m
      invariant HeapBelow(h[..m][j := x], j) && multiset(h[..m][j := x]) == multiset(old(h[..m])[0 := x])
    {
      ghost var s := h[..m];
      var c := Larger(h, m, j);
      if !Lt(x, h[c]) {
        break;
      }
      HoleDown(s, j, x);
      h[j] := h[c];
      assert h[..m] == s[j := s[c]];
      j := c;
    }
    ghost var s := h[..m];
    HoleRests(s, j, x);
    h[j] := x;
    assert h[..m] == s[j := x];
  }

  lemma KeepsAny(e: seq<Kv>, i: nat, s: seq<Kv>, t: seq<Kv>, k: nat)
    requires i <= |e| && Keeps(e, i, s, k) && multiset(t) == multiset(s)
    ensures Keeps(e, i, t, k)
  {
    SameElems(s, t);
  }

  // An entry while there is room.
  method Enter(ghost e: seq<Kv>, ghost i: nat, ghost k: nat, h: array<Kv>, m: nat, x: Kv)
    requires Arrivals(e) && i < |e| && x == e[i] && m < h.Length && m < k && Keeps(e, i, h[..m], k) && MaxHeap(h[..m])
    modifies h
    ensures Keeps(e, i + 1, h[..m + 1], k) && MaxHeap(h[..m + 1])
  {
    ghost var s := h[..m];
    Admit(e, i, s, k);
    Rise(h, m, x);
    KeepsAny(e, i + 1, s + [x], h[..m + 1], k);
  }

  // An entry that meets a full heap takes the root's place if it is below it;
  // with nothing kept, slot 0.
  method Displace(ghost e: seq<Kv>, ghost i: nat, ghost k: nat, h: array<Kv>, m: nat, x: Kv)
    requires Arrivals(e) && i < |e| && x == e[i] && m <= h.Length && h.Length > 0
    requires m == k && Keeps(e, i, h[..m], k) && MaxHeap(h[..m])
    modifies h
    ensures Keeps(e, i + 1, h[..m], k) && MaxHeap(h[..m])
  {
    ghost var s := h[..m];
    RootIsWorst(s);
    Meets(e, i, s, 0, k);
    if x.k >= h[0].k {
      return;
    }
    if m == 0 {
      h[0] := x;
    } else {
      Sink(h, m, x);
      KeepsAny(e, i + 1, s[0 := x], h[..m], k);
    }
  }

  method TopkBh(input: seq<int>, k: nat, h: array<Kv>) returns (m: nat)
    requires Room(|input|, k, h.Length)
    modifies h
    ensures m == Min(k, |input|) && h[..m] == TopK(input, k)
  {
    ghost var e := Entries(input);
    m := 0;
    for i := 0 to |input|
      invariant m == Min(k, i) && Keeps(e, i, h[..m], k) && MaxHeap(h[..m])
    {
      var x := Kv(input[i], i);
      if m < k {
        Enter(e, i, k, h, m, x);
        m := m + 1;
      } else {
        Displace(e, i, k, h, m, x);
      }
    }
    Finish(e, h, m, input, k);
  }

  lemma RootIsWorst(s: seq<Kv>)
    requires MaxHeap(s)
    ensures s != [] ==> Worst(s, 0)
  {
    forall r | 0 <= r < |s| ensures Le(s[r], s[0]) {
      RootWorst(s, r);
    }
  }

  // The reference: sort everything, keep the first k.
  method TopkSort(input: seq<int>, k: nat, out: array<Kv>) returns (m: nat)
    requires out.Length >= Min(k, |input|)
    modifies out
    ensures m == Min(k, |input|) && out[..m] == TopK(input, k)
  {
    var a := new Kv[|input|](i requires 0 <= i < |input| => Kv(input[i], i));
    assert a[0..|input|] == Entries(input);
    QSort(a, 0, |input|);
    m := if k < |input| then k else |input|;
    forall i | 0 <= i < m {
      out[i] := a[i];
    }
    assert out[..m] == a[0..|input|][..m];
  }
}
