/**
 * Handles into a QuickHeap that cancels at once: every timer remembers the
 * stable id of its bucket and its position there, and still does after the
 * buckets around it have been split, shrunk or dropped.
 */
module QuickHandles {
  import opened ArraySeq
  import opened FlatSeq
  import opened HeapSeq
  import opened QuickLayers

  datatype Handle = Handle(id: nat, pos: nat)

  predicate AllDistinct(s: seq<nat>) {
    forall i, j :: 0 <= i < j < |s| ==> s[i] != s[j]
  }

  // Bucket ids in use and ids free for reuse, out of a pool of npool.
  predicate Ids(ord: seq<nat>, free: seq<nat>, npool: nat) {
    && AllDistinct(ord) && AllDistinct(free)
    && (forall x :: x in ord ==> x < npool && x !in free)
    && (forall x :: x in free ==> x < npool)
  }

  // Every entry's handle names its bucket and its position.
  predicate Handles(bs: seq<seq<Slot>>, ord: seq<nat>, h: map<nat, Handle>) {
    && |ord| == |bs|
    && forall oi, p :: 0 <= oi < |bs| && 0 <= p < |bs[oi]| ==>
         bs[oi][p].node in h && h[bs[oi][p].node] == Handle(ord[oi], p)
  }

  lemma NewIds(ord: seq<nat>, free: seq<nat>, npool: nat)
    requires Ids(ord, free, npool)
    ensures free != [] ==> Ids(ord + [free[|free| - 1]], free[..|free| - 1], npool)
    ensures free == [] ==> Ids(ord + [npool], free, npool + 1)
  {
    if free == [] {
      Append(ord, npool);
      forall x | x in ord + [npool] ensures x < npool + 1 && x !in free {
        assert x in ord || x == npool;
      }
    } else {
      var id := free[|free| - 1];
      assert id in free;
      Append(ord, id);
      assert id !in free[..|free| - 1];
      var rest := free[..|free| - 1];
      assert AllDistinct(rest) && forall x :: x in rest ==> x in free;
      forall x | x in ord + [id] ensures x < npool && x !in rest {
        assert x in ord || x == id;
      }
    }
  }

  lemma Append(s: seq<nat>, x: nat)
    requires AllDistinct(s) && x !in s
    ensures AllDistinct(s + [x])
  {
  }

  lemma FreeIds(ord: seq<nat>, free: seq<nat>, npool: nat, oi: nat)
    requires Ids(ord, free, npool) && oi < |ord|
    ensures Ids(Cut(ord, oi), free + [ord[oi]], npool)
  {
    assert ord[oi] in ord;
    Append(free, ord[oi]);
    CutIds(ord, oi);
  }

  lemma CutIds(ord: seq<nat>, oi: nat)
    requires AllDistinct(ord) && oi < |ord|
    ensures AllDistinct(Cut(ord, oi)) && forall x :: x in Cut(ord, oi) ==> x in ord && x != ord[oi]
  {
    var c := Cut(ord, oi);
    assert forall i :: 0 <= i < |c| ==> c[i] == ord[if i < oi then i else i + 1];
    forall x | x in c ensures x in ord && x != ord[oi] {
      var i :| 0 <= i < |c| && c[i] == x;
      assert ord[if i < oi then i else i + 1] == x;
    }
  }

  lemma PutHandles(bs: seq<seq<Slot>>, ord: seq<nat>, h: map<nat, Handle>, i: nat, x: Slot)
    requires Handles(bs, ord, h) && i < |bs| && forall y :: y in Flat(bs) ==> y.node != x.node
    ensures Handles(bs[i := bs[i] + [x]], ord, h[x.node := Handle(ord[i], |bs[i]|)])
  {
    forall oi, p | 0 <= oi < |bs| && 0 <= p < |bs[oi]| ensures bs[oi][p].node != x.node {
      assert bs[oi][p] in bs[oi];
      FlatIn(bs, oi, bs[oi][p]);
    }
  }

  lemma CutHandles(bs: seq<seq<Slot>>, ord: seq<nat>, h: map<nat, Handle>, oi: nat)
    requires Handles(bs, ord, h) && oi < |bs|
    ensures Handles(Cut(bs, oi), Cut(ord, oi), h)
  {
    var c, d := Cut(bs, oi), Cut(ord, oi);
    assert forall i :: 0 <= i < |c| ==>
      c[i] == bs[if i < oi then i else i + 1] && d[i] == ord[if i < oi then i else i + 1];
  }

  // The entry that fills the gap gets its new position.
  function Refilled(h: map<nat, Handle>, b: seq<Slot>, id: nat, p: nat): map<nat, Handle>
    requires p < |b|
  {
    if p == |b| - 1 then h else h[b[|b| - 1].node := Handle(id, p)]
  }

  lemma TakenHandles(bs: seq<seq<Slot>>, ord: seq<nat>, h: map<nat, Handle>, oi: nat, p: nat)
    requires Handles(bs, ord, h) && AllDistinct(ord) && oi < |bs| && p < |bs[oi]|
    ensures Handles(bs[oi := Taken(bs[oi], p)], ord, Refilled(h, bs[oi], ord[oi], p))
  {
    var b := bs[oi];
    var last := |b| - 1;
    if p != last {
      forall i, q | 0 <= i < |bs| && 0 <= q < |bs[i]| && !(i == oi && q == last) ensures bs[i][q].node != b[last].node {
        assert h[bs[i][q].node] == Handle(ord[i], q);
        assert h[bs[oi][last].node] == Handle(ord[oi], last);
      }
    }
  }

  // ---- Splitting ----

  // The handles a split of bucket bid writes, entry by entry.
  function Dealt(s: seq<Slot>, pi: nat, p: int, bid: nat, nid: nat, h: map<nat, Handle>): map<nat, Handle> {
    if s == [] then h
    else
      var n := |s| - 1;
      var r := Parts(s[..n], pi, p);
      Dealt(s[..n], pi, p, bid, nid, h)[s[n].node :=
        if GoesDown(s[n], n, pi, p) then Handle(nid, |r.0|) else Handle(bid, |r.1|)]
  }

  predicate Named(s: seq<Slot>, id: nat, h: map<nat, Handle>) {
    forall k :: 0 <= k < |s| ==> s[k].node in h && h[s[k].node] == Handle(id, k)
  }

  predicate NodesDistinct(s: seq<Slot>) {
    forall i, j :: 0 <= i < j < |s| ==> s[i].node != s[j].node
  }

  // Writing a handle for another node changes nothing for these.
  lemma NamedStays(s: seq<Slot>, id: nat, h: map<nat, Handle>, t: nat, v: Handle)
    requires Named(s, id, h) && forall k :: 0 <= k < |s| ==> s[k].node != t
    ensures Named(s, id, h[t := v])
  {
  }

  lemma {:induction false} DealtNames(s: seq<Slot>, pi: nat, p: int, bid: nat, nid: nat, h: map<nat, Handle>)
    requires NodesDistinct(s)
    ensures var r := Parts(s, pi, p); var g := Dealt(s, pi, p, bid, nid, h);
      Named(r.0, nid, g) && Named(r.1, bid, g)
  {
    if s != [] {
      var n := |s| - 1;
      var t, x := s[..n], s[n];
      DealtNames(t, pi, p, bid, nid, h);
      var r, g := Parts(t, pi, p), Dealt(t, pi, p, bid, nid, h);
      PartsFrom(t, pi, p);
      forall k | 0 <= k < |r.0| ensures r.0[k].node != x.node {
        assert r.0[k] in t;
      }
      forall k | 0 <= k < |r.1| ensures r.1[k].node != x.node {
        assert r.1[k] in t;
      }
      var v := Dealt(s, pi, p, bid, nid, h)[x.node];
      NamedStays(r.0, nid, g, x.node, v);
      NamedStays(r.1, bid, g, x.node, v);
    }
  }

  lemma {:induction false} PartsFrom(s: seq<Slot>, pi: nat, p: int)
    ensures var r := Parts(s, pi, p); forall x :: x in r.0 || x in r.1 ==> x in s
  {
    if s != [] {
      PartsFrom(s[..|s| - 1], pi, p);
      assert forall x :: x in s[..|s| - 1] ==> x in s;
    }
  }

  lemma {:induction false} DealtElsewhere(
    s: seq<Slot>, pi: nat, p: int, bid: nat, nid: nat, h: map<nat, Handle>, t: nat)
    requires t in h && forall k :: 0 <= k < |s| ==> s[k].node != t
    ensures var g := Dealt(s, pi, p, bid, nid, h); t in g && g[t] == h[t]
  {
    if s != [] {
      DealtElsewhere(s[..|s| - 1], pi, p, bid, nid, h, t);
    }
  }

  lemma SplitHandles(bs: seq<seq<Slot>>, ord: seq<nat>, h: map<nat, Handle>, pi: nat, p: int, nid: nat)
    requires Handles(bs, ord, h) && AllDistinct(ord) && bs != []
    ensures var n := |bs| - 1; var r := Parts(bs[n], pi, p);
      Handles(Split(bs, r.1, r.0), ord + [nid], Dealt(bs[n], pi, p, ord[n], nid, h))
  {
    var n := |bs| - 1;
    var b := bs[n];
    var r, g := Parts(b, pi, p), Dealt(b, pi, p, ord[n], nid, h);
    forall i, j | 0 <= i < j < |b| ensures b[i].node != b[j].node {
      assert h[bs[n][i].node] == Handle(ord[n], i) && h[bs[n][j].node] == Handle(ord[n], j);
    }
    DealtNames(b, pi, p, ord[n], nid, h);
    var cs: seq<seq<Slot>> := Split(bs, r.1, r.0);
    forall oi: nat, q: nat | oi < |cs| && q < |cs[oi]|
      ensures cs[oi][q].node in g && g[cs[oi][q].node] == Handle((ord + [nid])[oi], q)
    {
      if oi < n {
        var t := bs[oi][q].node;
        forall k | 0 <= k < |b| ensures b[k].node != t {
          assert h[bs[n][k].node] == Handle(ord[n], k) && h[t] == Handle(ord[oi], q);
        }
        DealtElsewhere(b, pi, p, ord[n], nid, h, t);
      } else if oi == n {
        assert cs[oi] == r.1;
      } else {
        assert cs[oi] == r.0;
      }
    }
  }

  // Two entries never share a node.
  lemma HandleFinds(bs: seq<seq<Slot>>, ord: seq<nat>, h: map<nat, Handle>, i: nat, p: nat, oi: nat)
    requires Handles(bs, ord, h) && AllDistinct(ord) && i < |bs| && p < |bs[i]|
    requires oi < |bs| && ord[oi] == h[bs[i][p].node].id
    ensures oi == i && h[bs[i][p].node].pos == p
  {
  }
}
