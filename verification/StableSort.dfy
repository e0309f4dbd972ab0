/** Insertion sort on key-value arrays: what it computes, that it is stable, and
    that a stable sorted form is unique. */
module StableSort {
  type Order<!K> = (K, K) -> bool

  ghost predicate StrictOrder<K(!new)>(less: Order<K>) {
    && (forall a :: !less(a, a))
    && (forall a, b, c | less(a, b) && less(b, c) :: less(a, c))
    && (forall a, b | a != b :: less(a, b) || less(b, a))
  }

  ghost predicate Sorted<K, V>(s: seq<(K, V)>, less: Order<K>) {
    forall i, j | 0 <= i < j < |s| :: !less(s[j].0, s[i].0)
  }

  /** The entries with one key, in order. */
  function Group<K(==), V>(s: seq<(K, V)>, k: K): (g: seq<(K, V)>)
    ensures |g| <= |s|
  {
    if s == [] then []
    else Group(s[..|s| - 1], k) + if s[|s| - 1].0 == k then [s[|s| - 1]] else []
  }

  /** The entry goes after the last one that is not greater. */
  function InsertLast<K, V>(s: seq<(K, V)>, e: (K, V), less: Order<K>): (r: seq<(K, V)>)
    ensures |r| == |s| + 1
  {
    if s == [] || !less(e.0, s[|s| - 1].0) then s + [e]
    else InsertLast(s[..|s| - 1], e, less) + [s[|s| - 1]]
  }

  function Sort<K, V>(s: seq<(K, V)>, less: Order<K>): (r: seq<(K, V)>)
    ensures |r| == |s|
  {
    if s == [] then [] else InsertLast(Sort(s[..|s| - 1], less), s[|s| - 1], less)
  }

  /** Entries from j on are greater, so they stay behind the new entry. */
  lemma InsertBefore<K, V>(s: seq<(K, V)>, j: nat, e: (K, V), less: Order<K>)
    requires 0 < j <= |s| && less(e.0, s[j - 1].0)
    requires InsertLast(s, e, less) == InsertLast(s[..j], e, less) + s[j..]
    ensures InsertLast(s, e, less) == InsertLast(s[..j - 1], e, less) + s[j - 1..]
  {
    assert s[..j][..j - 1] == s[..j - 1];
    assert [s[j - 1]] + s[j..] == s[j - 1..];
  }

  /** insertion_sort: shift greater entries up, then drop the value in the gap. */
  method InsertionSort<K, V>(a: array<(K, V)>, less: Order<K>)
    modifies a
    ensures a[..] == Sort(old(a[..]), less)
  {
    ghost var input := a[..];
    if a.Length == 0 {
      return;
    }
    assert input[..1] == [input[0]] && input[..1][..0] == [];
    var i := 1;
    while i < a.Length
      invariant 1 <= i <= a.Length
      invariant a[..i] == Sort(input[..i], less)
      invariant a[i..] == input[i..]
    {
      InsertAt(a, i, less, input);
      i := i + 1;
    }
    assert a[..] == a[..i] && input[..i] == input;
  }

  /** Where the inner loop stops, the value fits exactly. */
  lemma InsertHere<K, V>(s: seq<(K, V)>, j: nat, e: (K, V), less: Order<K>)
    requires j <= |s| && (j == 0 || !less(e.0, s[j - 1].0))
    requires InsertLast(s, e, less) == InsertLast(s[..j], e, less) + s[j..]
    ensures InsertLast(s, e, less) == s[..j] + [e] + s[j..]
  {
  }

  method InsertAt<K, V>(a: array<(K, V)>, i: nat, less: Order<K>, ghost input: seq<(K, V)>)
    requires 1 <= i < a.Length == |input|
    requires a[..i] == Sort(input[..i], less)
    requires a[i..] == input[i..]
    modifies a
    ensures a[..i + 1] == Sort(input[..i + 1], less)
    ensures a[i + 1..] == input[i + 1..]
  {
    ghost var s := a[..i];
    Shift(a, i, less);
    assert input[..i + 1][..i] == input[..i] && input[..i + 1][i] == old(a[i..])[0];
    assert a[i + 1..] == old(a[i..])[1..] == input[i + 1..];
  }

  /** The inner loop of insertion_sort on the sorted prefix a[..i]. */
  method Shift<K, V>(a: array<(K, V)>, i: nat, less: Order<K>)
    requires 1 <= i < a.Length
    modifies a
    ensures a[..i + 1] == InsertLast(old(a[..i]), old(a[i]), less)
    ensures forall k | i < k < a.Length :: a[k] == old(a[k])
  {
    var value := a[i];
    ghost var s := a[..i];
    var j := i;
    assert s[..i] == s && s[i..] == [];
    while j > 0 && less(value.0, a[j - 1].0)
      invariant 0 <= j <= i
      invariant forall k | 0 <= k < j :: a[k] == s[k]
      invariant forall k | j < k <= i :: a[k] == s[k - 1]
      invariant forall k | i < k < a.Length :: a[k] == old(a[k])
      invariant InsertLast(s, value, less) == InsertLast(s[..j], value, less) + s[j..]
    {
      InsertBefore(s, j, value, less);
      a[j] := a[j - 1];
      j := j - 1;
    }
    InsertHere(s, j, value, less);
    a[j] := value;
    assert a[..i + 1] == s[..j] + [value] + s[j..];
  }

  // ----- Sorted, a permutation, stable -----

  lemma {:induction false} InsertLastSorted<K(!new), V>(s: seq<(K, V)>, e: (K, V), less: Order<K>)
    requires StrictOrder(less) && Sorted(s, less)
    ensures Sorted(InsertLast(s, e, less), less)
    ensures forall x | x in InsertLast(s, e, less) :: x == e || x in s
  {
    if s != [] && less(e.0, s[|s| - 1].0) {
      var front, last := s[..|s| - 1], s[|s| - 1];
      InsertLastSorted(front, e, less);
      var r := InsertLast(front, e, less);
      forall i | 0 <= i < |r| ensures !less(last.0, r[i].0) {
        assert r[i] in r;
        if r[i] != e {
          var j :| 0 <= j < |front| && front[j] == r[i];
          assert !less(s[|s| - 1].0, s[j].0);
        }
      }
    } else {
      forall i | 0 <= i < |s| ensures !less(e.0, s[i].0) {
        if i < |s| - 1 {
          assert !less(s[|s| - 1].0, s[i].0);
        }
      }
    }
  }

  lemma {:induction false} SortSorted<K(!new), V>(s: seq<(K, V)>, less: Order<K>)
    requires StrictOrder(less)
    ensures Sorted(Sort(s, less), less)
  {
    if s != [] {
      SortSorted(s[..|s| - 1], less);
      InsertLastSorted(Sort(s[..|s| - 1], less), s[|s| - 1], less);
    }
  }

  lemma GroupAppend<K, V>(s: seq<(K, V)>, e: (K, V), k: K)
    ensures Group(s + [e], k) == Group(s, k) + if e.0 == k then [e] else []
  {
    assert (s + [e])[..|s|] == s;
  }

  lemma {:induction false} InsertLastGroups<K(!new), V>(s: seq<(K, V)>, e: (K, V), less: Order<K>, k: K)
    requires StrictOrder(less)
    ensures Group(InsertLast(s, e, less), k) == Group(s, k) + if e.0 == k then [e] else []
  {
    if s != [] && less(e.0, s[|s| - 1].0) {
      var front, last := s[..|s| - 1], s[|s| - 1];
      InsertLastGroups(front, e, less, k);
      GroupAppend(InsertLast(front, e, less), last, k);
    } else {
      GroupAppend(s, e, k);
    }
  }

  lemma {:induction false} InsertLastKeeps<K, V>(s: seq<(K, V)>, e: (K, V), less: Order<K>)
    ensures multiset(InsertLast(s, e, less)) == multiset(s) + multiset{e}
  {
    if s != [] && less(e.0, s[|s| - 1].0) {
      InsertLastKeeps(s[..|s| - 1], e, less);
      assert s == s[..|s| - 1] + [s[|s| - 1]];
    }
  }

  /** Sorting keeps the order of entries with equal keys. */
  lemma {:induction false} SortStable<K(!new), V>(s: seq<(K, V)>, less: Order<K>, k: K)
    requires StrictOrder(less)
    ensures Group(Sort(s, less), k) == Group(s, k)
  {
    if s != [] {
      SortStable(s[..|s| - 1], less, k);
      InsertLastGroups(Sort(s[..|s| - 1], less), s[|s| - 1], less, k);
    }
  }

  /** Sorting keeps every entry. */
  lemma {:induction false} SortKeeps<K, V>(s: seq<(K, V)>, less: Order<K>)
    ensures multiset(Sort(s, less)) == multiset(s)
  {
    if s != [] {
      SortKeeps(s[..|s| - 1], less);
      InsertLastKeeps(Sort(s[..|s| - 1], less), s[|s| - 1], less);
      assert s == s[..|s| - 1] + [s[|s| - 1]];
    }
  }

  // ----- Uniqueness -----

  lemma {:induction false} GroupMembers<K, V>(s: seq<(K, V)>, k: K)
    ensures forall x | x in Group(s, k) :: x in s && x.0 == k
    ensures forall x | x in s && x.0 == k :: x in Group(s, k)
  {
    if s != [] {
      GroupMembers(s[..|s| - 1], k);
      assert s == s[..|s| - 1] + [s[|s| - 1]];
    }
  }

  /** The same entries with the same keys in the same order, key by key. */
  ghost predicate SameGroups<K(!new), V>(s: seq<(K, V)>, t: seq<(K, V)>) {
    forall k :: Group(s, k) == Group(t, k)
  }

  lemma SameGroupsFront<K(!new), V>(s: seq<(K, V)>, t: seq<(K, V)>)
    requires SameGroups(s, t) && s != [] && t != [] && s[|s| - 1] == t[|t| - 1]
    ensures SameGroups(s[..|s| - 1], t[..|t| - 1])
  {
    var x, a, b := s[|s| - 1], s[..|s| - 1], t[..|t| - 1];
    forall k: K ensures Group(a, k) == Group(b, k) {
      var tail := if x.0 == k then [x] else [];
      assert Group(s, k) == Group(a, k) + tail;
      assert Group(t, k) == Group(b, k) + tail;
      assert Group(s, k) == Group(t, k);
      assert Group(a, k) == Group(s, k)[..|Group(s, k)| - |tail|];
    }
  }

  lemma HeadGroup<K, V>(s: seq<(K, V)>)
    requires s != []
    ensures Group(s, s[0].0) != []
  {
    GroupMembers(s, s[0].0);
  }

  /** Sorted sequences that agree group by group are equal. */
  lemma {:induction false} SortedUnique<K(!new), V>(s: seq<(K, V)>, t: seq<(K, V)>, less: Order<K>)
    requires StrictOrder(less) && Sorted(s, less) && Sorted(t, less) && SameGroups(s, t)
    ensures s == t
  {
    if s != [] && t != [] {
      var x, y := s[|s| - 1], t[|t| - 1];
      LastIsGreatest(s, t, less);
      LastIsGreatest(t, s, less);
      assert Group(s, x.0)[|Group(s, x.0)| - 1] == x;
      assert Group(t, x.0)[|Group(t, x.0)| - 1] == y;
      SameGroupsFront(s, t);
      SortedUnique(s[..|s| - 1], t[..|t| - 1], less);
      assert s == s[..|s| - 1] + [x] && t == t[..|t| - 1] + [y];
    } else if s != [] {
      HeadGroup(s);
    } else if t != [] {
      HeadGroup(t);
    }
  }

  lemma LastIsGreatest<K(!new), V>(s: seq<(K, V)>, t: seq<(K, V)>, less: Order<K>)
    requires StrictOrder(less) && Sorted(s, less) && s != [] && t != [] && SameGroups(s, t)
    ensures !less(s[|s| - 1].0, t[|t| - 1].0)
  {
    var y := t[|t| - 1];
    GroupMembers(t, y.0);
    GroupMembers(s, y.0);
    assert y in Group(s, y.0);
    var i :| 0 <= i < |s| && s[i] == y;
    assert i < |s| - 1 ==> !less(s[|s| - 1].0, s[i].0);
  }

  /** Any stable sorted rearrangement is the one insertion sort finds. */
  lemma SortIsUnique<K(!new), V>(s: seq<(K, V)>, t: seq<(K, V)>, less: Order<K>)
    requires StrictOrder(less) && Sorted(t, less) && SameGroups(t, s)
    ensures t == Sort(s, less)
  {
    SortSorted(s, less);
    forall k: K ensures Group(t, k) == Group(Sort(s, less), k) {
      SortStable(s, less, k);
      assert Group(t, k) == Group(s, k);
    }
    SortedUnique(t, Sort(s, less), less);
  }

  // ----- Keys without repeats -----

  ghost predicate DistinctKeys<K, V>(s: seq<(K, V)>) {
    forall i, j | 0 <= i < j < |s| :: s[i].0 != s[j].0
  }

  lemma {:induction false} GroupJoins<K, V>(s: seq<(K, V)>, t: seq<(K, V)>, k: K)
    ensures Group(s + t, k) == Group(s, k) + Group(t, k)
  {
    if t == [] {
      assert s + t == s;
    } else {
      var front, last := t[..|t| - 1], t[|t| - 1];
      GroupJoins(s, front, k);
      assert s + t == s + front + [last];
      GroupAppend(s + front, last, k);
    }
  }

  /** Taking one entry out of a sequence takes it out of its group. */
  lemma GroupWithout<K, V>(before: seq<(K, V)>, e: (K, V), after: seq<(K, V)>, k: K)
    ensures multiset(Group(before + [e] + after, k))
            == multiset(Group(before + after, k)) + if e.0 == k then multiset{e} else multiset{}
  {
    GroupJoins(before, after, k);
    GroupJoins(before + [e], after, k);
    GroupAppend(before, e, k);
  }

  lemma FindOccurrence<K, V>(t: seq<(K, V)>, e: (K, V)) returns (before: seq<(K, V)>, after: seq<(K, V)>)
    requires e in multiset(t)
    ensures t == before + [e] + after
    ensures multiset(before + after) == multiset(t) - multiset{e}
  {
    var i :| 0 <= i < |t| && t[i] == e;
    before, after := t[..i], t[i + 1..];
    assert t == before + [e] + after;
    assert multiset(t) == multiset(before) + multiset{e} + multiset(after);
  }

  /** Rearranging a sequence rearranges each of its groups. */
  lemma {:induction false} SameGroupMultisets<K, V>(s: seq<(K, V)>, t: seq<(K, V)>, k: K)
    requires multiset(s) == multiset(t)
    ensures multiset(Group(s, k)) == multiset(Group(t, k))
    decreases |s|
  {
    assert |s| == |multiset(s)| && |t| == |multiset(t)|;
    if s != [] {
      var front, last := s[..|s| - 1], s[|s| - 1];
      assert s == front + [last] + [];
      var before, after := FindOccurrence(t, last);
      assert multiset(front) == multiset(s) - multiset{last};
      SameGroupMultisets(front, before + after, k);
      GroupWithout(before, last, after, k);
      GroupWithout(front, last, [], k);
      assert front + [] == front;
    }
  }

  lemma GroupSizes<K, V>(s: seq<(K, V)>, t: seq<(K, V)>, k: K)
    requires multiset(s) == multiset(t)
    ensures |Group(s, k)| == |Group(t, k)|
  {
    SameGroupMultisets(s, t, k);
    assert |Group(s, k)| == |multiset(Group(s, k))| && |Group(t, k)| == |multiset(Group(t, k))|;
  }

  lemma {:induction false} DistinctGroups<K, V>(s: seq<(K, V)>, k: K)
    requires DistinctKeys(s)
    ensures |Group(s, k)| <= 1
  {
    if s != [] {
      var front := s[..|s| - 1];
      DistinctGroups(front, k);
      if s[|s| - 1].0 == k {
        GroupAbove(s, k, |s| - 1);
      }
    }
  }

  /** At most one rearrangement of a short group. */
  lemma ShortGroups<K, V>(g: seq<(K, V)>, h: seq<(K, V)>)
    requires multiset(g) == multiset(h) && |g| <= 1 && |g| == |h|
    ensures g == h
  {
    if g != [] {
      assert g[0] in multiset(g);
      assert h[0] in multiset(h);
    }
  }

  /** Every permutation of an array without repeated keys sorts to the same array. */
  lemma SortCanonical<K(!new), V>(s: seq<(K, V)>, t: seq<(K, V)>, less: Order<K>)
    requires StrictOrder(less) && DistinctKeys(s) && multiset(s) == multiset(t)
    ensures Sort(s, less) == Sort(t, less)
  {
    SortSorted(s, less);
    forall k: K ensures Group(Sort(s, less), k) == Group(t, k) {
      SortStable(s, less, k);
      SameGroupMultisets(s, t, k);
      GroupSizes(s, t, k);
      DistinctGroups(s, k);
      ShortGroups(Group(s, k), Group(t, k));
    }
    SortIsUnique(t, Sort(s, less), less);
  }

  // ----- Binary search -----

  /** The halving loop of find_entity and get_id_by_name. */
  method LowerBound<K(!new), V>(s: seq<(K, V)>, key: K, less: Order<K>) returns (first: nat)
    requires StrictOrder(less) && Sorted(s, less)
    ensures first <= |s|
    ensures forall i | 0 <= i < first :: less(s[i].0, key)
    ensures forall i | first <= i < |s| :: !less(s[i].0, key)
  {
    first := 0;
    var count := |s|;
    while count != 0
      invariant 0 <= count && first + count <= |s|
      invariant forall i | 0 <= i < first :: less(s[i].0, key)
      invariant forall i | first + count <= i < |s| :: !less(s[i].0, key)
    {
      var step := count / 2;
      var index := first + step;
      if less(s[index].0, key) {
        forall i | 0 <= i < index ensures less(s[i].0, key) {
          assert !less(s[index].0, s[i].0);
        }
        first := index + 1;
        count := count - (step + 1);
      } else {
        forall i | index < i < |s| ensures !less(s[i].0, key) {
          assert !less(s[i].0, s[index].0);
        }
        count := step;
      }
    }
  }

  lemma {:induction false} GroupAbove<K, V>(s: seq<(K, V)>, k: K, m: nat)
    requires m <= |s| && forall i | 0 <= i < m :: s[i].0 != k
    ensures Group(s[..m], k) == []
  {
    if m > 0 {
      assert s[..m][..m - 1] == s[..m - 1];
      GroupAbove(s, k, m - 1);
    }
  }

  lemma {:induction false} GroupStarts<K, V>(s: seq<(K, V)>, k: K, f: nat, n: nat)
    requires f < n <= |s| && s[f].0 == k && forall i | 0 <= i < f :: s[i].0 != k
    ensures Group(s[..n], k) != [] && Group(s[..n], k)[0] == s[f]
  {
    assert s[..n][..n - 1] == s[..n - 1];
    if n == f + 1 {
      GroupAbove(s, k, f);
    } else {
      GroupStarts(s, k, f, n - 1);
    }
  }

  /** What the search finds is the first entry of that key, or none. */
  lemma LowerBoundFinds<K(!new), V>(s: seq<(K, V)>, key: K, less: Order<K>, first: nat)
    requires StrictOrder(less) && Sorted(s, less) && first <= |s|
    requires forall i | 0 <= i < first :: less(s[i].0, key)
    requires forall i | first <= i < |s| :: !less(s[i].0, key)
    ensures (first < |s| && s[first].0 == key) <==> Group(s, key) != []
    ensures first < |s| && s[first].0 == key ==> Group(s, key)[0] == s[first]
  {
    assert s[..|s|] == s;
    assert forall i | 0 <= i < first :: s[i].0 != key;
    if first < |s| && s[first].0 == key {
      GroupStarts(s, key, first, |s|);
    } else {
      forall i | first <= i < |s| ensures s[i].0 != key {
        assert i > first ==> !less(s[i].0, s[first].0);
      }
      GroupAbove(s, key, |s|);
    }
  }
}
