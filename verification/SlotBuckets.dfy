/**
 * Bucket queues of timers: what the radix heap and the timing wheel of
 * bench/bench_timerq.c share.  Each keeps its timers in an array of lists, a
 * bitmap of the lists in use, and with every timer the list it is on.
 */
module SlotBuckets {
  import opened ArraySeq
  import opened FlatSeq
  import opened HeapSeq

  lemma FlatGains(bs: seq<seq<Slot>>, b: nat, x: Slot)
    requires b < |bs|
    ensures multiset(Flat(bs[b := [x] + bs[b]])) == multiset(Flat(bs)) + multiset{x}
  {
    FlatUpdate(bs, b, [x] + bs[b]);
    Gain(multiset(Flat(bs[b := [x] + bs[b]])), multiset(Flat(bs)), multiset(bs[b]), x);
  }

  lemma AppendSame(a: multiset<Slot>, t: seq<Slot>, x: Slot)
    ensures (a + multiset(t)) + multiset{x} == a + multiset(t + [x])
  {
    assert multiset(t + [x]) == multiset(t) + multiset{x};
  }

  lemma Gain(after: multiset<Slot>, before: multiset<Slot>, b: multiset<Slot>, x: Slot)
    requires after + b == before + (multiset{x} + b)
    ensures after == before + multiset{x}
  {
    assert (after + b) - b == after;
    assert (before + (multiset{x} + b)) - b == before + multiset{x};
  }

  lemma CutIs(s: seq<Slot>, k: nat)
    requires k < |s|
    ensures multiset(s) == multiset(Cut(s, k)) + multiset{s[k]}
    ensures forall x :: x in s <==> x in Cut(s, k) || x == s[k]
  {
    assert s == s[..k] + ([s[k]] + s[k + 1..]);
  }

  lemma FlatLoses(bs: seq<seq<Slot>>, b: nat, k: nat)
    requires b < |bs| && k < |bs[b]|
    ensures multiset(Flat(bs[b := Cut(bs[b], k)])) == multiset(Flat(bs)) - multiset{bs[b][k]}
  {
    var t := Cut(bs[b], k);
    CutIs(bs[b], k);
    FlatUpdate(bs, b, t);
    Loss(multiset(Flat(bs[b := t])), multiset(Flat(bs)), multiset(t), bs[b][k]);
  }

  lemma Loss(after: multiset<Slot>, before: multiset<Slot>, t: multiset<Slot>, x: Slot)
    requires after + (t + multiset{x}) == before + t
    ensures after == before - multiset{x}
  {
    assert (after + (t + multiset{x})) - t == after + multiset{x};
    assert (before + t) - t == before;
  }

  // Every entry's recorded bucket is the one it is in, and the mask marks the
  // buckets in use.
  predicate Recorded(bs: seq<seq<Slot>>, mask: seq<bool>, idx: map<Slot, nat>) {
    && |mask| == |bs|
    && (forall b :: 0 <= b < |bs| ==> (mask[b] <==> bs[b] != []))
    && (forall b, x :: 0 <= b < |bs| && x in bs[b] ==> x in idx && idx[x] == b)
  }

  lemma RecordedTakes(bs: seq<seq<Slot>>, mask: seq<bool>, idx: map<Slot, nat>, b: nat, x: Slot)
    requires Recorded(bs, mask, idx) && b < |bs| && (forall c :: 0 <= c < |bs| && x in bs[c] ==> c == b)
    ensures Recorded(bs[b := [x] + bs[b]], mask[b := true], idx[x := b])
  {
  }

  lemma RecordedLoses(bs: seq<seq<Slot>>, mask: seq<bool>, idx: map<Slot, nat>, b: nat, k: nat)
    requires Recorded(bs, mask, idx) && b < |bs| && k < |bs[b]|
    ensures var t := Cut(bs[b], k);
      Recorded(bs[b := t], mask[b := t != []], idx)
  {
    CutIs(bs[b], k);
  }

  lemma RecordedClears(bs: seq<seq<Slot>>, mask: seq<bool>, idx: map<Slot, nat>, b: nat)
    requires Recorded(bs, mask, idx) && b < |bs|
    ensures Recorded(bs[b := []], mask[b := false], idx)
  {
  }

  // The position of an entry in its bucket.
  function Find(s: seq<Slot>, x: Slot): (k: nat)
    requires x in s
    ensures k < |s| && s[k] == x
  {
    if s[0] == x then 0 else 1 + Find(s[1..], x)
  }
}
