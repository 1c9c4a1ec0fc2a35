/** Sorting by a three-way comparison.

    Python's `list.sort` is modelled by its result: the sorted permutation
    of the list. `Sort` is the reference definition (an insertion sort);
    `SortInPlace` sorts an array the way the report generators sort their
    shared list in place, and is proved to leave exactly `Sort` of the old
    contents behind. Under a lawful comparison the sorted permutation is
    unique, which is what makes every report independent of the order in
    which the records were collected. */
module Sorting {
  import opened Ordering

  /** Every element is at most its successor. */
  predicate Sorted<T>(s: seq<T>, cmp: (T, T) -> Cmp) {
    forall k :: 0 < k < |s| ==> cmp(s[k - 1], s[k]) != Greater
  }

  /** `x` inserted into `s` before the first element it is not greater than. */
  function Insert<T(!new)>(x: T, s: seq<T>, cmp: (T, T) -> Cmp): seq<T>
    decreases |s|
  {
    if s == [] || cmp(x, s[0]) != Greater then [x] + s
    else [s[0]] + Insert(x, s[1..], cmp)
  }

  /** Inserting adds `x` and nothing else, and the result starts with `x` or
      with the old first element. */
  lemma {:induction false} InsertPermutes<T(!new)>(x: T, s: seq<T>, cmp: (T, T) -> Cmp)
    ensures |Insert(x, s, cmp)| == |s| + 1
    ensures multiset(Insert(x, s, cmp)) == multiset(s) + multiset{x}
    ensures Insert(x, s, cmp)[0] == x || (s != [] && Insert(x, s, cmp)[0] == s[0])
    decreases |s|
  {
    if s != [] && cmp(x, s[0]) == Greater {
      InsertPermutes(x, s[1..], cmp);
      assert s == [s[0]] + s[1..];
    }
  }

  /** The sorted permutation of `s`. */
  function Sort<T(!new)>(s: seq<T>, cmp: (T, T) -> Cmp): seq<T>
    decreases |s|
  {
    if s == [] then []
    else Insert(s[0], Sort(s[1..], cmp), cmp)
  }

  /** `Sort` neither gains nor loses an element. */
  lemma {:induction false} SortPermutes<T(!new)>(s: seq<T>, cmp: (T, T) -> Cmp)
    ensures multiset(Sort(s, cmp)) == multiset(s)
    decreases |s|
  {
    if s != [] {
      SortPermutes(s[1..], cmp);
      InsertPermutes(s[0], Sort(s[1..], cmp), cmp);
      assert s == [s[0]] + s[1..];
    }
  }

  lemma {:induction false} InsertSorted<T(!new)>(x: T, s: seq<T>, cmp: (T, T) -> Cmp)
    requires Lawful(cmp) && Sorted(s, cmp)
    ensures Sorted(Insert(x, s, cmp), cmp)
    decreases |s|
  {
    if s != [] && cmp(x, s[0]) == Greater {
      InsertSorted(x, s[1..], cmp);
      InsertPermutes(x, s[1..], cmp);
      assert cmp(s[0], x) == Less;
    }
  }

  /** `Sort` returns a sorted permutation of its input. */
  lemma {:induction false} SortIsSorted<T(!new)>(s: seq<T>, cmp: (T, T) -> Cmp)
    requires Lawful(cmp)
    ensures Sorted(Sort(s, cmp), cmp) && multiset(Sort(s, cmp)) == multiset(s)
    decreases |s|
  {
    SortPermutes(s, cmp);
    if s != [] {
      SortIsSorted(s[1..], cmp);
      InsertSorted(s[0], Sort(s[1..], cmp), cmp);
    }
  }

  /** In a sorted sequence every element is at most every later one. */
  lemma {:induction false} SortedPair<T(!new)>(s: seq<T>, cmp: (T, T) -> Cmp, i: nat, j: nat)
    requires Lawful(cmp) && Sorted(s, cmp)
    requires i <= j < |s|
    ensures cmp(s[i], s[j]) != Greater
    decreases j - i
  {
    if i < j {
      SortedPair(s, cmp, i + 1, j);
      if cmp(s[i], s[i + 1]) == Equal {
        assert s[i] == s[i + 1];
      } else if cmp(s[i + 1], s[j]) == Equal {
        assert s[i + 1] == s[j];
      }
    }
  }

  /** Two sorted permutations of the same nonempty multiset start alike, and
      their tails are sorted permutations of the same multiset. */
  lemma SortedHeads<T(!new)>(s: seq<T>, t: seq<T>, cmp: (T, T) -> Cmp)
    requires Lawful(cmp) && Sorted(s, cmp) && Sorted(t, cmp)
    requires s != [] && multiset(s) == multiset(t)
    ensures t != [] && s[0] == t[0]
    ensures Sorted(s[1..], cmp) && Sorted(t[1..], cmp)
    ensures multiset(s[1..]) == multiset(t[1..])
  {
    assert s[0] in multiset(t) && t != [];
    assert t[0] in multiset(s);
    var i :| 0 <= i < |t| && t[i] == s[0];
    var j :| 0 <= j < |s| && s[j] == t[0];
    SortedPair(t, cmp, 0, i);
    SortedPair(s, cmp, 0, j);
    assert cmp(s[0], t[0]) == Equal;
    SortedTail(s, cmp);
    SortedTail(t, cmp);
    DropHead(s);
    DropHead(t);
  }

  lemma SortedTail<T>(s: seq<T>, cmp: (T, T) -> Cmp)
    requires s != [] && Sorted(s, cmp)
    ensures Sorted(s[1..], cmp)
  {
    forall k | 0 < k < |s| - 1
      ensures cmp(s[1..][k - 1], s[1..][k]) != Greater
    {
      assert s[1..][k - 1] == s[k] && s[1..][k] == s[k + 1];
    }
  }

  lemma DropHead<T>(s: seq<T>)
    requires s != []
    ensures multiset(s[1..]) == multiset(s) - multiset{s[0]}
  {
    assert s == [s[0]] + s[1..];
  }

  lemma ConsEqual<T>(s: seq<T>, t: seq<T>)
    requires s != [] && t != [] && s[0] == t[0] && s[1..] == t[1..]
    ensures s == t
  {
    assert s == [s[0]] + s[1..];
    assert t == [t[0]] + t[1..];
  }

  /** Two sorted permutations of the same multiset are the same sequence. */
  lemma {:induction false} SortedUnique<T(!new)>(s: seq<T>, t: seq<T>, cmp: (T, T) -> Cmp)
    requires Lawful(cmp) && Sorted(s, cmp) && Sorted(t, cmp)
    requires multiset(s) == multiset(t)
    ensures s == t
    decreases |s|
  {
    if s == [] {
      assert |multiset(t)| == 0;
    } else {
      SortedHeads(s, t, cmp);
      SortedUnique(s[1..], t[1..], cmp);
      ConsEqual(s, t);
    }
  }

  /** A sorted permutation of `xs` is `Sort(xs)`. */
  lemma {:induction false} SortCanonical<T(!new)>(s: seq<T>, xs: seq<T>, cmp: (T, T) -> Cmp)
    requires Lawful(cmp) && Sorted(s, cmp) && multiset(s) == multiset(xs)
    ensures s == Sort(xs, cmp)
  {
    SortIsSorted(xs, cmp);
    SortedUnique(s, Sort(xs, cmp), cmp);
  }

  /** Sorting forgets the order of its input: permutations sort alike. */
  lemma {:induction false} SortForgetsOrder<T(!new)>(xs: seq<T>, ys: seq<T>, cmp: (T, T) -> Cmp)
    requires Lawful(cmp) && multiset(xs) == multiset(ys)
    ensures Sort(xs, cmp) == Sort(ys, cmp)
  {
    SortIsSorted(xs, cmp);
    SortCanonical(Sort(xs, cmp), ys, cmp);
  }

  /** Sorting a sorted sequence changes nothing. */
  lemma {:induction false} SortSorted<T(!new)>(s: seq<T>, cmp: (T, T) -> Cmp)
    requires Lawful(cmp) && Sorted(s, cmp)
    ensures Sort(s, cmp) == s
  {
    SortCanonical(s, s, cmp);
  }

  /** The state of one insertion pass over `s[..n]`: every adjacent pair is
      in order except possibly the one ending at `j`, and `s[j - 1]` is at most
      `s[j + 1]`, so that swapping `s[j - 1]` and `s[j]` keeps the rest in order. */
  ghost predicate Inserting<T(!new)>(s: seq<T>, cmp: (T, T) -> Cmp, n: nat, j: nat) {
    j < n <= |s| &&
    (forall k :: 0 < k < n && k != j ==> cmp(s[k - 1], s[k]) != Greater) &&
    (0 < j < n - 1 ==> cmp(s[j - 1], s[j + 1]) != Greater)
  }

  lemma InsertingStart<T(!new)>(s: seq<T>, cmp: (T, T) -> Cmp, i: nat)
    requires i < |s| && Sorted(s[..i], cmp)
    ensures Inserting(s, cmp, i + 1, i)
  {
    forall k | 0 < k < i + 1 && k != i
      ensures cmp(s[k - 1], s[k]) != Greater
    {
      assert s[..i][k - 1] == s[k - 1] && s[..i][k] == s[k];
    }
  }

  lemma InsertingStep<T(!new)>(s: seq<T>, cmp: (T, T) -> Cmp, n: nat, j: nat)
    requires Lawful(cmp) && Inserting(s, cmp, n, j)
    requires 0 < j && cmp(s[j - 1], s[j]) == Greater
    ensures Inserting(s[j - 1 := s[j]][j := s[j - 1]], cmp, n, j - 1)
  {
    var t := s[j - 1 := s[j]][j := s[j - 1]];
    assert cmp(s[j], s[j - 1]) == Less;
    forall k | 0 < k < n && k != j - 1
      ensures cmp(t[k - 1], t[k]) != Greater
    {
      if k == j + 1 {
        assert t[k - 1] == s[j - 1] && t[k] == s[j + 1];
      } else if k != j {
        assert t[k - 1] == s[k - 1] && t[k] == s[k];
      }
    }
    if 0 < j - 1 {
      assert t[j - 2] == s[j - 2] && t[j] == s[j - 1];
    }
  }

  /** Swapping two neighbours permutes the sequence. */
  lemma SwapPermutes<T>(s: seq<T>, j: nat)
    requires 0 < j < |s|
    ensures multiset(s[j - 1 := s[j]][j := s[j - 1]]) == multiset(s)
  {
    assert s[j - 1 := s[j]][j := s[j - 1]] == s[..j - 1] + [s[j], s[j - 1]] + s[j + 1..];
    assert s == s[..j - 1] + [s[j - 1], s[j]] + s[j + 1..];
  }

  lemma InsertingDone<T(!new)>(s: seq<T>, cmp: (T, T) -> Cmp, n: nat, j: nat)
    requires Inserting(s, cmp, n, j)
    requires j == 0 || cmp(s[j - 1], s[j]) != Greater
    ensures Sorted(s[..n], cmp)
  {
    forall k | 0 < k < n
      ensures cmp(s[..n][k - 1], s[..n][k]) != Greater
    {
      assert s[..n][k - 1] == s[k - 1] && s[..n][k] == s[k];
    }
  }

  /** Moves `a[i]` left past every greater neighbour, so that `a[..i + 1]`
      is sorted when `a[..i]` was. */
  method InsertAt<T(!new)>(a: array<T>, cmp: (T, T) -> Cmp, i: nat)
    requires Lawful(cmp)
    requires i < a.Length && Sorted(a[..i], cmp)
    modifies a
    ensures Sorted(a[..i + 1], cmp)
    ensures multiset(a[..]) == multiset(old(a[..]))
    ensures a[i + 1..] == old(a[i + 1..])
  {
    InsertingStart(a[..], cmp, i);
    var j := i;
    while 0 < j && cmp(a[j - 1], a[j]) == Greater
      invariant 0 <= j <= i
      invariant Inserting(a[..], cmp, i + 1, j)
      invariant multiset(a[..]) == multiset(old(a[..]))
      invariant a[i + 1..] == old(a[i + 1..])
    {
      ghost var s := a[..];
      InsertingStep(s, cmp, i + 1, j);
      SwapPermutes(s, j);
      a[j - 1], a[j] := a[j], a[j - 1];
      assert a[..] == s[j - 1 := s[j]][j := s[j - 1]];
      j := j - 1;
    }
    InsertingDone(a[..], cmp, i + 1, j);
  }

  /** `list.sort()` on an array: insertion sort by adjacent swaps. */
  method SortInPlace<T(!new)>(a: array<T>, cmp: (T, T) -> Cmp)
    requires Lawful(cmp)
    modifies a
    ensures a[..] == Sort(old(a[..]), cmp)
  {
    var i := 0;
    while i < a.Length
      invariant 0 <= i <= a.Length
      invariant Sorted(a[..i], cmp)
      invariant multiset(a[..]) == multiset(old(a[..]))
    {
      InsertAt(a, cmp, i);
      i := i + 1;
    }
    assert a[..a.Length] == a[..];
    SortCanonical(a[..], old(a[..]), cmp);
  }
}
