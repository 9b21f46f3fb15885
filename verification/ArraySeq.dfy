/** What array code does to a sequence of entries, whatever they are. */
module ArraySeq {

  // The parent of entry i in an array heap.
  function Parent(i: int): int {
    (i - 1) / 2
  }

  function Swap<T>(s: seq<T>, i: nat, j: nat): seq<T>
    requires i < |s| && j < |s|
  {
    s[i := s[j]][j := s[i]]
  }

  lemma SwapKeeps<T>(s: seq<T>, i: nat, j: nat)
    requires i < |s| && j < |s|
    ensures multiset(Swap(s, i, j)) == multiset(s)
  {
  }

  // Entry i taken out, the others closing up.
  function Cut<T>(s: seq<T>, i: nat): seq<T>
    requires i < |s|
  {
    s[..i] + s[i + 1..]
  }

  // Entry i taken out, the last one filling its place.
  function Taken<T>(s: seq<T>, i: nat): (r: seq<T>)
    requires i < |s|
    ensures |r| == |s| - 1
  {
    if i == |s| - 1 then s[..i] else s[..|s| - 1][i := s[|s| - 1]]
  }

  // The same done in the array.
  lemma TakenInPlace<T>(s: seq<T>, i: nat)
    requires i < |s|
    ensures s[i := s[|s| - 1]][..|s| - 1] == Taken(s, i)
  {
  }

  lemma TakenIs<T>(s: seq<T>, i: nat)
    requires i < |s|
    ensures multiset(Taken(s, i)) + multiset{s[i]} == multiset(s)
    ensures forall x :: x in Taken(s, i) ==> x in s
  {
    var last := |s| - 1;
    assert s == s[..last] + [s[last]];
    if i < last {
      assert s[i] == s[..last][i];
    }
    forall x | x in Taken(s, i) ensures x in s {
      assert x in multiset(Taken(s, i)) + multiset{s[i]};
    }
  }
}
