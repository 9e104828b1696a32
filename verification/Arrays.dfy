/** Helpers on parts of arrays. */
module Arrays {
  ghost predicate Distinct<T>(s: seq<T>) {
    forall i, j :: 0 <= i < j < |s| ==> s[i] != s[j]
  }

  function Exchanged<T>(s: seq<T>, i: nat, j: nat): seq<T>
    requires i < |s| && j < |s|
  {
    s[i := s[j]][j := s[i]]
  }

  lemma ExchangedSame<T>(s: seq<T>, i: nat, j: nat)
    requires i < |s| && j < |s|
    ensures multiset(Exchanged(s, i, j)) == multiset(s)
  {
  }

  method Swap<T>(arr: array<T>, lo: nat, count: nat, i: nat, j: nat)
    requires lo + count <= arr.Length && i < count && j < count
    modifies arr
    ensures arr[lo..lo + count] == Exchanged(old(arr[lo..lo + count]), i, j)
    ensures forall k :: (0 <= k < lo || lo + count <= k < arr.Length) ==> arr[k] == old(arr[k])
  {
    arr[lo + i], arr[lo + j] := arr[lo + j], arr[lo + i];
  }
}

/** Where things first occur in a sequence. */
module Sequences {
  import opened Arrays

  /** The place of the first x. */
  function FirstIndex<T(==)>(s: seq<T>, x: T): (i: nat)
    requires x in s
    ensures i < |s| && s[i] == x && x !in s[..i]
  {
    if s[0] == x then 0 else
      var i := FirstIndex(s[1..], x);
      assert s[..i + 1] == [s[0]] + s[1..][..i];
      i + 1
  }

  lemma FirstIs<T>(s: seq<T>, x: T, i: nat)
    requires i < |s| && s[i] == x && x !in s[..i]
    ensures x in s && FirstIndex(s, x) == i
  {
    NotBefore(s, x, i);
    NotBefore(s, x, FirstIndex(s, x));
  }

  lemma NotBefore<T>(s: seq<T>, x: T, n: nat)
    requires n <= |s| && x !in s[..n]
    ensures forall j :: 0 <= j < n ==> s[j] != x
  {
    forall j | 0 <= j < n ensures s[j] != x {
      assert s[j] == s[..n][j];
    }
  }

  lemma FirstAtMost<T>(s: seq<T>, x: T, i: nat)
    requires i < |s| && s[i] == x
    ensures x in s && FirstIndex(s, x) <= i
  {
    NotBefore(s, x, FirstIndex(s, x));
  }

  lemma FirstOfDistinct<T>(s: seq<T>, i: nat)
    requires Distinct(s) && i < |s|
    ensures FirstIndex(s, s[i]) == i
  {
  }

  /** s without its later repetitions. */
  function Deduped<T(==)>(s: seq<T>): seq<T> {
    var n := |s| - 1;
    if s == [] then [] else if s[n] in s[..n] then Deduped(s[..n]) else Deduped(s[..n]) + [s[n]]
  }

  lemma {:induction false} DedupedHas<T>(s: seq<T>)
    ensures Distinct(Deduped(s)) && forall x :: x in Deduped(s) <==> x in s
  {
    if s != [] {
      var n := |s| - 1;
      DedupedHas(s[..n]);
      assert s == s[..n] + [s[n]];
    }
  }

  /** Dropping repetitions keeps the order of the first occurrences. */
  lemma {:induction false} DedupedOrder<T>(s: seq<T>, x: T, y: T)
    requires x in s && y in s && FirstIndex(s, x) < FirstIndex(s, y)
    ensures x in Deduped(s) && y in Deduped(s) && FirstIndex(Deduped(s), x) < FirstIndex(Deduped(s), y)
  {
    DedupedHas(s);
    var n := |s| - 1;
    var s' := s[..n];
    assert s == s' + [s[n]];
    DedupedHas(s');
    if s[n] in s' {
      FirstOfPart(s, x, n);
      FirstOfPart(s, y, n);
      DedupedOrder(s', x, y);
    } else if y == s[n] {
      FirstOfPart(s, x, n);
      FirstOfDistinct(Deduped(s), |Deduped(s')|);
      FirstOfPart(Deduped(s), x, |Deduped(s')|);
    } else {
      FirstOfPart(s, x, n);
      FirstOfPart(s, y, n);
      DedupedOrder(s', x, y);
      assert Deduped(s)[..|Deduped(s')|] == Deduped(s');
      FirstOfPart(Deduped(s), x, |Deduped(s')|);
      FirstOfPart(Deduped(s), y, |Deduped(s')|);
    }
  }

  lemma FirstOfPart<T>(s: seq<T>, x: T, n: nat)
    requires n <= |s| && x in s[..n]
    ensures x in s && FirstIndex(s, x) == FirstIndex(s[..n], x)
  {
    var i := FirstIndex(s[..n], x);
    assert s[..n][..i] == s[..i];
    FirstIs(s, x, i);
  }
}
