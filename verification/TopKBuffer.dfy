/**
 * Top-K through a buffer of about 2K entries (topk_qs in bench/bench_topk.c):
 * fill it, cut it back to the K lowest with a QuickSelect, and admit only keys
 * strictly below a threshold from then on.
 */
module TopKBuffer {
  import opened KvOrder
  import opened TopKStream
  import opened QuickSelect

  function Below(b: set<Kv>, y: Kv): set<Kv> {
    set x | x in b && Lt(x, y)
  }

  // Whatever is missing from b has k entries of b below it.
  predicate Covers(all: set<Kv>, b: set<Kv>, k: nat) {
    b <= all && forall y :: y in all && y !in b ==> |Below(b, y)| >= k
  }

  lemma CoverAdd(all: set<Kv>, b: set<Kv>, x: Kv, k: nat)
    requires Covers(all, b, k)
    ensures Covers(all + {x}, b + {x}, k)
  {
    forall y | y in all + {x} && y !in b + {x} ensures |Below(b + {x}, y)| >= k {
      SubsetCount(Below(b, y), Below(b + {x}, y));
    }
  }

  lemma CoverSkip(all: set<Kv>, b: set<Kv>, x: Kv, k: nat)
    requires Covers(all, b, k) && |Below(b, x)| >= k
    ensures Covers(all + {x}, b, k)
  {
  }

  // The k lowest of b lie below everything b leaves out.
  lemma LowestBelow(b: set<Kv>, t: set<Kv>, y: Kv, k: nat)
    requires Lowest(b, t, k) && |Below(b, y)| >= k && k <= |b|
    ensures Below(t, y) == t
  {
    if x :| x in t && !Lt(x, y) {
      assert Below(b, y) <= t - {x};
      SubsetCount(Below(b, y), t - {x});
    }
  }

  lemma CoverCut(all: set<Kv>, b: set<Kv>, t: set<Kv>, k: nat)
    requires Covers(all, b, k) && Lowest(b, t, k) && k <= |b|
    ensures Covers(all, t, k)
  {
    forall y | y in all && y !in t ensures |Below(t, y)| >= k {
      if y in b {
        assert Below(t, y) == t;
      } else {
        LowestBelow(b, t, y, k);
      }
    }
  }

  // The k lowest of the buffer are the k lowest of everything.
  lemma CoverLowest(all: set<Kv>, b: set<Kv>, t: set<Kv>, k: nat)
    requires Covers(all, b, k) && Lowest(b, t, k)
    ensures Lowest(all, t, k)
  {
    SubsetCount(b, all);
    if |b| < k {
      if y :| y in all && y !in b {
        SubsetCount(Below(b, y), b);
      }
      assert all == b;
    } else {
      forall x, y | x in t && y in all && y !in t ensures Lt(x, y) {
        if y !in b {
          LowestBelow(b, t, y, k);
          assert x in Below(t, y);
        }
      }
    }
  }

  // ---- The threshold ----

  function UpTo(b: set<Kv>, thr: int): set<Kv> {
    set x | x in b && x.k <= thr
  }

  predicate Threshold(b: set<Kv>, thr: int, k: nat) {
    |UpTo(b, thr)| >= k
  }

  lemma ThresholdAdd(b: set<Kv>, x: Kv, thr: int, k: nat)
    requires Threshold(b, thr, k)
    ensures Threshold(b + {x}, thr, k)
  {
    SubsetCount(UpTo(b, thr), UpTo(b + {x}, thr));
  }

  // A later arrival with a key at or over the threshold cannot be in the top k.
  lemma ThresholdSkips(b: set<Kv>, x: Kv, thr: int, k: nat)
    requires Threshold(b, thr, k) && x.k >= thr && forall y :: y in b ==> y.s < x.s
    ensures |Below(b, x)| >= k
  {
    SubsetCount(UpTo(b, thr), Below(b, x));
  }

  // ---- The buffer ----

  // What the loop keeps after i inputs.
  predicate Holding(e: seq<Kv>, i: nat, s: seq<Kv>, k: nat, haveThr: bool, thr: int)
    requires i <= |e|
  {
    && Distinct(s) && Covers(Elems(e[..i]), Elems(s), k)
    && (haveThr ==> Threshold(Elems(s), thr, k))
  }

  lemma BufferSkips(e: seq<Kv>, i: nat, s: seq<Kv>, k: nat, thr: int)
    requires Arrivals(e) && i < |e| && Holding(e, i, s, k, true, thr) && e[i].k >= thr
    ensures Holding(e, i + 1, s, k, true, thr)
  {
    Seen(e, i);
    ThresholdSkips(Elems(s), e[i], thr, k);
    CoverSkip(Elems(e[..i]), Elems(s), e[i], k);
  }

  lemma BufferTakes(e: seq<Kv>, i: nat, s: seq<Kv>, k: nat, haveThr: bool, thr: int)
    requires Arrivals(e) && i < |e| && Holding(e, i, s, k, haveThr, thr)
    ensures Holding(e, i + 1, s + [e[i]], k, haveThr, thr)
  {
    Seen(e, i);
    ElemsAppend(s, e[i]);
    CoverAdd(Elems(e[..i]), Elems(s), e[i], k);
    if haveThr {
      ThresholdAdd(Elems(s), e[i], thr, k);
    }
    assert e[i] !in Elems(s);
  }

  // A cut leaves the k lowest, whose largest key is the new threshold.
  lemma BufferCut(e: seq<Kv>, i: nat, s: seq<Kv>, t: seq<Kv>, k: nat, haveThr: bool, thr: int, thr': int)
    requires i <= |e| && Holding(e, i, s, k, haveThr, thr) && k <= |s|
    requires Distinct(t) && |t| == k && Lowest(Elems(s), Elems(t), k) && forall x :: x in t ==> x.k <= thr'
    ensures Holding(e, i, t, k, true, thr')
  {
    ElemsCount(s);
    CoverCut(Elems(e[..i]), Elems(s), Elems(t), k);
    FullThreshold(t, k, thr');
  }

  lemma FullThreshold(t: seq<Kv>, k: nat, thr: int)
    requires Distinct(t) && |t| >= k && forall x :: x in t ==> x.k <= thr
    ensures Threshold(Elems(t), thr, k)
  {
    ElemsCount(t);
    assert UpTo(Elems(t), thr) == Elems(t);
  }

  // The largest key of the first k slots (the first slot's if k is 0).
  method LargestKey(b: array<Kv>, k: nat) returns (thr: int)
    requires 0 < b.Length && k <= b.Length
    ensures forall x :: x in b[..k] ==> x.k <= thr
  {
    thr := b[0].k;
    for w := 1 to Max1(k)
      invariant forall j :: 0 <= j < w && j < k ==> b[j].k <= thr
    {
      if b[w].k > thr {
        thr := b[w].k;
      }
    }
  }

  function Max1(k: nat): nat {
    if k > 1 then k else 1
  }

  method Select(b: array<Kv>, m: nat, k: nat, tmp: array<Kv>, hoare: bool)
    requires k <= m <= b.Length && m <= tmp.Length && b != tmp && Distinct(b[..m])
    modifies b, tmp
    ensures Distinct(b[..k]) && Lowest(Elems(old(b[..m])), Elems(b[..k]), k)
  {
    if hoare {
      SelHoare(b, m, k);
      assert b[..k] == b[..m][..k];
    } else {
      SelPart(b, m, k, tmp);
    }
  }

  // A full buffer: cut it and set the threshold.
  method CutBack(b: array<Kv>, m: nat, k: nat, tmp: array<Kv>, hoare: bool,
                 ghost e: seq<Kv>, ghost i: nat, ghost haveThr: bool, ghost old': int)
    returns (thr: int)
    requires k <= m <= b.Length && 0 < m <= tmp.Length && b != tmp && i <= |e|
    requires Holding(e, i, b[..m], k, haveThr, old')
    modifies b, tmp
    ensures Holding(e, i, b[..k], k, true, thr)
  {
    ghost var s := b[..m];
    Select(b, m, k, tmp, hoare);
    thr := LargestKey(b, k);
    BufferCut(e, i, s, b[..k], k, haveThr, old', thr);
  }

  method TopkQs(input: seq<int>, k: nat, out: array<Kv>, hoare: bool) returns (m: nat)
    requires out.Length >= Min(k, |input|)
    modifies out
    ensures m == Min(k, |input|) && out[..m] == TopK(input, k)
  {
    ghost var e := Entries(input);
    var cap := k + if k > 32 then k else 32;
    var b := new Kv[cap + 16](_ => Kv(0, 0));
    var tmp := new Kv[cap + 16](_ => Kv(0, 0));
    var thr, haveThr := 0, false;
    m := 0;
    for i := 0 to |input|
      invariant m <= cap && fresh(b) && fresh(tmp) && Holding(e, i, b[..m], k, haveThr, thr)
    {
      if haveThr && input[i] >= thr {
        BufferSkips(e, i, b[..m], k, thr);
        continue;
      }
      if m == cap {
        thr := CutBack(b, m, k, tmp, hoare, e, i, haveThr, thr);
        m := k;
        haveThr := true;
        if input[i] >= thr {
          BufferSkips(e, i, b[..m], k, thr);
          continue;
        }
      }
      BufferTakes(e, i, b[..m], k, haveThr, thr);
      b[m] := Kv(input[i], i);
      assert b[..m + 1] == b[..m] + [e[i]];
      m := m + 1;
      if !haveThr && m == k {
        thr := LargestKey(b, k);
        haveThr := true;
        FullThreshold(b[..m], k, thr);
      }
    }
    m := Conclude(b, m, k, tmp, hoare, e, |input|, haveThr, thr, input);
    forall j | 0 <= j < m {
      out[j] := b[j];
    }
    assert out[..m] == b[..m];
  }

  // The last cut, and the sort.
  method Conclude(b: array<Kv>, n: nat, k: nat, tmp: array<Kv>, hoare: bool,
                  ghost e: seq<Kv>, ghost i: nat, ghost haveThr: bool, ghost thr: int, ghost input: seq<int>)
    returns (m: nat)
    requires n <= b.Length && n <= tmp.Length && b != tmp && e == Entries(input) && i == |e|
    requires Holding(e, i, b[..n], k, haveThr, thr)
    modifies b, tmp
    ensures m <= b.Length && m == Min(k, |input|) && b[..m] == TopK(input, k)
  {
    ghost var s := b[..n];
    m := n;
    ElemsCount(s);
    if m > k {
      Select(b, m, k, tmp, hoare);
      m := k;
    }
    assert e[..i] == e;
    CoverLowest(Elems(e), Elems(s), Elems(b[..m]), k);
    ElemsCount(e);
    ElemsCount(b[..m]);
    SortIs(b[..m]);
    assert b[..m] == b[0..m];
    QSort(b, 0, m);
    assert b[..m] == b[0..m];
    IsTopK(b[..m], input, k);
  }
}
