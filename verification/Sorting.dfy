/** Sorting strings in place. */
module Sorting {
  import Text

  /** In order up to `n`, except that the element at `j` may still be too far right. */
  ghost predicate SortedBut(s: seq<string>, n: nat, j: nat)
    requires n <= |s|
  {
    forall p, q :: 0 <= p < q < n && q != j ==> !Text.Less(s[q], s[p])
  }

  lemma SwapDown(s: seq<string>, n: nat, j: nat)
    requires 0 < j < n <= |s| && SortedBut(s, n, j) && Text.Less(s[j], s[j - 1])
    requires forall q :: j < q < n ==> !Text.Less(s[q], s[j])
    ensures var t := s[j := s[j - 1]][j - 1 := s[j]];
      && SortedBut(t, n, j - 1) && (forall q :: j - 1 < q < n ==> !Text.Less(t[q], t[j - 1]))
      && multiset(t) == multiset(s)
  {
    var t := s[j := s[j - 1]][j - 1 := s[j]];
    Text.LessTotal(s[j], s[j - 1]);
  }

  method InsertionSort(a: array<string>)
    modifies a
    ensures SortedBut(a[..], a.Length, a.Length) && multiset(a[..]) == multiset(old(a[..]))
  {
    var i := 1;
    while i < a.Length
      invariant 1 <= i && SortedBut(a[..], if i <= a.Length then i else a.Length, a.Length)
      invariant multiset(a[..]) == multiset(old(a[..]))
    {
      var j := i;
      while j > 0 && Text.Less(a[j], a[j - 1])
        invariant 0 <= j <= i
        invariant SortedBut(a[..], i + 1, j)
        invariant forall q :: j < q < i + 1 ==> !Text.Less(a[..][q], a[..][j])
        invariant multiset(a[..]) == multiset(old(a[..]))
      {
        ghost var s := a[..];
        SwapDown(s, i + 1, j);
        a[j], a[j - 1] := a[j - 1], a[j];
        assert a[..] == s[j := s[j - 1]][j - 1 := s[j]];
        j := j - 1;
      }
      Inserted(a[..], i + 1, j);
      i := i + 1;
    }
  }

  /** Not less than its neighbour, hence not less than any before it. */
  lemma Inserted(s: seq<string>, n: nat, j: nat)
    requires j < n <= |s| && SortedBut(s, n, j) && (j > 0 ==> !Text.Less(s[j], s[j - 1]))
    ensures SortedBut(s, n, |s|)
  {
    forall p | 0 <= p < j ensures !Text.Less(s[j], s[p]) {
      if p < j - 1 && Text.Less(s[j], s[p]) {
        Text.LessTotal(s[j], s[j - 1]);
        Text.LessTotal(s[p], s[j - 1]);
        if s[j] != s[j - 1] { Text.LessTransitive(s[j - 1], s[j], s[p]); }
      }
    }
  }

  ghost predicate Ascending(s: seq<string>) {
    forall i, j :: 0 <= i < j < |s| ==> s[i] == s[j] || Text.Less(s[i], s[j])
  }

  lemma SortedAscends(s: seq<string>)
    requires SortedBut(s, |s|, |s|)
    ensures Ascending(s)
  {
    forall i, j | 0 <= i < j < |s| ensures s[i] == s[j] || Text.Less(s[i], s[j]) { Text.LessTotal(s[i], s[j]); }
  }
}
