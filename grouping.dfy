/** Grouping consecutive records, as `itertools.groupby` does.

    `groupby` does not collect all records with equal keys: it cuts the
    sequence into maximal runs of ADJACENT records whose keys are equal.
    `Runs` is that partition. When the sequence is sorted by an order in
    which the grouping key comes first, the records with one key are
    contiguous (`Contiguous`), and only then does each run hold every record
    with its key (`RunsExact`). */
module Grouping {
  import opened Ordering
  import opened Sorting

  /** One `(k, list(g))` pair of a report: a group key and its records. */
  datatype Group<K, V> = Group(key: K, members: seq<V>)

  /** The records of the groups, in order. */
  function Flatten<K, V>(gs: seq<Group<K, V>>): seq<V> {
    if gs == [] then [] else gs[0].members + Flatten(gs[1..])
  }

  /** `itertools.groupby(xs, key)`: the maximal runs of adjacent equal keys. */
  function Runs<K(==), V>(xs: seq<V>, key: V -> K): seq<Group<K, V>>
    decreases |xs|
  {
    if xs == [] then []
    else
      var rest := Runs(xs[1..], key);
      if rest != [] && rest[0].key == key(xs[0]) then
        [Group(key(xs[0]), [xs[0]] + rest[0].members)] + rest[1..]
      else
        [Group(key(xs[0]), [xs[0]])] + rest
  }

  /** `gs` cuts `xs` into maximal runs: read in order the groups give back
      `xs`, no group is empty, every record carries its group's key, two
      neighbouring groups have different keys, and the first group has the
      key of the first record. */
  ghost predicate IsRuns<K, V>(gs: seq<Group<K, V>>, xs: seq<V>, key: V -> K) {
    && Flatten(gs) == xs
    && (forall i :: 0 <= i < |gs| ==> gs[i].members != [])
    && (forall i, v :: 0 <= i < |gs| && v in gs[i].members ==> key(v) == gs[i].key)
    && (forall i :: 0 < i < |gs| ==> gs[i - 1].key != gs[i].key)
    && (xs != [] ==> gs != [] && gs[0].key == key(xs[0]))
  }

  lemma {:induction false} RunsFlatten<K, V>(xs: seq<V>, key: V -> K)
    ensures Flatten(Runs(xs, key)) == xs
    decreases |xs|
  {
    if xs != [] {
      var runs, rest := Runs(xs, key), Runs(xs[1..], key);
      RunsFlatten(xs[1..], key);
      assert xs == [xs[0]] + xs[1..];
      if rest != [] && rest[0].key == key(xs[0]) {
        assert Flatten(rest) == rest[0].members + Flatten(rest[1..]);
        assert runs[1..] == rest[1..];
        assert Flatten(runs) == ([xs[0]] + rest[0].members) + Flatten(rest[1..]);
      } else {
        assert runs[1..] == rest;
      }
    }
  }

  lemma {:induction false} RunsKeys<K, V>(xs: seq<V>, key: V -> K)
    ensures forall i :: 0 <= i < |Runs(xs, key)| ==> Runs(xs, key)[i].members != []
    ensures forall i, v :: 0 <= i < |Runs(xs, key)| && v in Runs(xs, key)[i].members ==> key(v) == Runs(xs, key)[i].key
    decreases |xs|
  {
    if xs != [] {
      var runs, rest := Runs(xs, key), Runs(xs[1..], key);
      RunsKeys(xs[1..], key);
      if rest != [] && rest[0].key == key(xs[0]) {
        assert runs == [Group(key(xs[0]), [xs[0]] + rest[0].members)] + rest[1..];
        forall i, v | 0 <= i < |runs| && v in runs[i].members
          ensures key(v) == runs[i].key
        {
          if i > 0 {
            assert runs[i] == rest[i];
          } else if v != xs[0] {
            assert v in rest[0].members;
          }
        }
      } else {
        assert runs == [Group(key(xs[0]), [xs[0]])] + rest;
        forall i, v | 0 <= i < |runs| && v in runs[i].members
          ensures key(v) == runs[i].key
        {
          if i > 0 {
            assert runs[i] == rest[i - 1];
          }
        }
      }
    }
  }

  lemma {:induction false} RunsAdjacent<K, V>(xs: seq<V>, key: V -> K)
    ensures forall i :: 0 < i < |Runs(xs, key)| ==> Runs(xs, key)[i - 1].key != Runs(xs, key)[i].key
    ensures xs != [] ==> Runs(xs, key) != [] && Runs(xs, key)[0].key == key(xs[0])
    decreases |xs|
  {
    if xs != [] {
      var runs, rest := Runs(xs, key), Runs(xs[1..], key);
      RunsAdjacent(xs[1..], key);
      forall i | 0 < i < |runs|
        ensures runs[i - 1].key != runs[i].key
      {
        if rest != [] && rest[0].key == key(xs[0]) {
          assert runs[i] == rest[i];
          if i > 1 {
            assert runs[i - 1] == rest[i - 1];
          }
        } else {
          assert runs[i] == rest[i - 1];
          if i > 1 {
            assert runs[i - 1] == rest[i - 2];
          }
        }
      }
    }
  }

  /** `Runs` is the partition of `xs` into maximal runs. */
  lemma RunsAreRuns<K, V>(xs: seq<V>, key: V -> K)
    ensures IsRuns(Runs(xs, key), xs, key)
  {
    RunsFlatten(xs, key);
    RunsKeys(xs, key);
    RunsAdjacent(xs, key);
  }

  /** Records with equal keys stand next to each other: between two of them
      there is no record with another key. */
  ghost predicate Contiguous<K, V>(xs: seq<V>, key: V -> K) {
    forall i, j :: 0 <= i < j < |xs| && key(xs[i]) == key(xs[j]) ==> key(xs[i + 1]) == key(xs[i])
  }

  /** Sorting by `cmp` orders the keys too: `cmp` compares the key first. */
  ghost predicate KeyFirst<K(!new), V(!new)>(cmp: (V, V) -> Cmp, key: V -> K, kcmp: (K, K) -> Cmp) {
    forall x, y :: cmp(x, y) != Greater ==> kcmp(key(x), key(y)) != Greater
  }

  lemma MemberInFlatten<K, V>(gs: seq<Group<K, V>>, i: nat, v: V)
    requires i < |gs| && v in gs[i].members
    ensures v in Flatten(gs)
    decreases i
  {
    if i > 0 {
      MemberInFlatten(gs[1..], i - 1, v);
    }
  }

  /** Every record of the groups lies in one of them. */
  lemma {:induction false} FlattenMember<K, V>(gs: seq<Group<K, V>>, v: V)
    requires v in Flatten(gs)
    ensures exists i :: 0 <= i < |gs| && v in gs[i].members
    decreases |gs|
  {
    if v !in gs[0].members {
      FlattenMember(gs[1..], v);
      var i :| 0 <= i < |gs[1..]| && v in gs[1..][i].members;
      assert gs[i + 1] == gs[1..][i];
    }
  }

  /** A sequence sorted by an order that compares the key first keeps equal
      keys together. */
  lemma SortedContiguous<K(!new), V(!new)>(xs: seq<V>, cmp: (V, V) -> Cmp, key: V -> K, kcmp: (K, K) -> Cmp)
    requires Lawful(cmp) && Lawful(kcmp) && KeyFirst(cmp, key, kcmp)
    requires Sorted(xs, cmp)
    ensures Contiguous(xs, key)
  {
    forall i, j | 0 <= i < j < |xs| && key(xs[i]) == key(xs[j])
      ensures key(xs[i + 1]) == key(xs[i])
    {
      SortedPair(xs, cmp, i, i + 1);
      SortedPair(xs, cmp, i + 1, j);
      assert kcmp(key(xs[i]), key(xs[i + 1])) != Greater;
      assert kcmp(key(xs[i + 1]), key(xs[j])) != Greater;
    }
  }

  lemma ContiguousTail<K, V>(xs: seq<V>, key: V -> K)
    requires xs != [] && Contiguous(xs, key)
    ensures Contiguous(xs[1..], key)
  {
    forall i, j | 0 <= i < j < |xs| - 1 && key(xs[1..][i]) == key(xs[1..][j])
      ensures key(xs[1..][i + 1]) == key(xs[1..][i])
    {
      assert xs[1..][i] == xs[i + 1] && xs[1..][j] == xs[j + 1];
    }
  }

  /** When the first record does not join the next run, its key occurs
      nowhere else. */
  lemma HeadKeyAlone<K, V>(xs: seq<V>, key: V -> K)
    requires xs != [] && Contiguous(xs, key)
    requires var rest := Runs(xs[1..], key); !(rest != [] && rest[0].key == key(xs[0]))
    ensures forall v :: v in xs[1..] ==> key(v) != key(xs[0])
  {
    RunsAreRuns(xs[1..], key);
    forall v | v in xs[1..]
      ensures key(v) != key(xs[0])
    {
      var m :| 0 <= m < |xs| - 1 && xs[1..][m] == v;
      assert xs[m + 1] == v;
    }
  }

  ghost predicate DistinctKeys<K, V>(gs: seq<Group<K, V>>) {
    forall i, j :: 0 <= i < j < |gs| ==> gs[i].key != gs[j].key
  }

  /** On contiguous keys, the runs have pairwise different keys. */
  lemma {:induction false} RunsDistinct<K, V>(xs: seq<V>, key: V -> K)
    requires Contiguous(xs, key)
    ensures DistinctKeys(Runs(xs, key))
    decreases |xs|
  {
    if xs != [] {
      var runs, rest := Runs(xs, key), Runs(xs[1..], key);
      ContiguousTail(xs, key);
      RunsDistinct(xs[1..], key);
      RunsAreRuns(xs[1..], key);
      if rest != [] && rest[0].key == key(xs[0]) {
        assert runs[1..] == rest[1..];
        forall i, j | 0 <= i < j < |runs|
          ensures runs[i].key != runs[j].key
        {
          assert runs[j] == rest[j];
          assert runs[i].key == rest[i].key;
        }
      } else {
        HeadKeyAlone(xs, key);
        forall j | 0 <= j < |rest|
          ensures rest[j].key != key(xs[0])
        {
          var v := rest[j].members[0];
          MemberInFlatten(rest, j, v);
        }
        forall i, j | 0 <= i < j < |runs|
          ensures runs[i].key != runs[j].key
        {
          assert runs[j] == rest[j - 1];
          if i > 0 {
            assert runs[i] == rest[i - 1];
          }
        }
      }
    }
  }

  /** The records of `xs` whose key is `k`, in order. */
  function Having<K(==), V>(xs: seq<V>, k: K, key: V -> K): seq<V>
    decreases |xs|
  {
    if xs == [] then []
    else (if key(xs[0]) == k then [xs[0]] else []) + Having(xs[1..], k, key)
  }

  /** `Having` keeps every record with key `k` as often as `xs` holds it,
      and nothing else. */
  lemma {:induction false} HavingCount<K, V>(xs: seq<V>, k: K, key: V -> K, v: V)
    ensures multiset(Having(xs, k, key))[v] == if key(v) == k then multiset(xs)[v] else 0
    decreases |xs|
  {
    if xs != [] {
      HavingCount(xs[1..], k, key, v);
      assert xs == [xs[0]] + xs[1..];
      assert multiset(xs)[v] == multiset([xs[0]])[v] + multiset(xs[1..])[v];
      var head := if key(xs[0]) == k then [xs[0]] else [];
      assert multiset(Having(xs, k, key))[v] == multiset(head)[v] + multiset(Having(xs[1..], k, key))[v];
    }
  }

  /** A record is kept by `Having` exactly when it is in `xs` with key `k`. */
  lemma HavingMember<K, V>(xs: seq<V>, k: K, key: V -> K, v: V)
    ensures v in Having(xs, k, key) <==> v in xs && key(v) == k
  {
    HavingCount(xs, k, key, v);
    assert v in Having(xs, k, key) <==> v in multiset(Having(xs, k, key));
    assert v in xs <==> v in multiset(xs);
  }

  /** Permutations have the same records with each key. */
  lemma HavingPermutes<K, V(!new)>(xs: seq<V>, ys: seq<V>, k: K, key: V -> K)
    requires multiset(xs) == multiset(ys)
    ensures multiset(Having(xs, k, key)) == multiset(Having(ys, k, key))
  {
    forall v
      ensures multiset(Having(xs, k, key))[v] == multiset(Having(ys, k, key))[v]
    {
      HavingCount(xs, k, key, v);
      HavingCount(ys, k, key, v);
    }
  }

  /** The members of one run all have the run's key. */
  lemma RunMembers<K, V>(xs: seq<V>, key: V -> K, p: nat)
    requires p < |Runs(xs, key)|
    ensures Runs(xs, key)[p].members != []
    ensures forall v :: v in Runs(xs, key)[p].members ==> key(v) == Runs(xs, key)[p].key
  {
    RunsKeys(xs, key);
  }

  /** After sorting by an order that compares keys first, the run that holds
      `v` holds exactly the records with `v`'s key, in sorted order. */
  lemma RunOf<K(!new), V(!new)>(xs: seq<V>, cmp: (V, V) -> Cmp, key: V -> K, kcmp: (K, K) -> Cmp, v: V)
      returns (p: nat)
    requires Lawful(cmp) && Lawful(kcmp) && KeyFirst(cmp, key, kcmp)
    requires v in xs
    ensures p < |Runs(Sort(xs, cmp), key)|
    ensures Runs(Sort(xs, cmp), key)[p].key == key(v)
    ensures Runs(Sort(xs, cmp), key)[p].members == Having(Sort(xs, cmp), key(v), key)
  {
    var ys := Sort(xs, cmp);
    SortIsSorted(xs, cmp);
    SortedContiguous(ys, cmp, key, kcmp);
    RunsExact(ys, key);
    RunsFlatten(ys, key);
    assert v in multiset(ys);
    FlattenMember(Runs(ys, key), v);
    p :| 0 <= p < |Runs(ys, key)| && v in Runs(ys, key)[p].members;
    RunMembers(ys, key, p);
  }

  /** Two records with one key share a run after sorting, and the run
      starts with its least record. */
  lemma RunOfBoth<K(!new), V(!new)>(xs: seq<V>, cmp: (V, V) -> Cmp, key: V -> K, kcmp: (K, K) -> Cmp, v: V, w: V)
      returns (p: nat)
    requires Lawful(cmp) && Lawful(kcmp) && KeyFirst(cmp, key, kcmp)
    requires v in xs && w in xs && key(w) == key(v)
    ensures p < |Runs(Sort(xs, cmp), key)|
    ensures Runs(Sort(xs, cmp), key)[p].key == key(v)
    ensures Runs(Sort(xs, cmp), key)[p].members == Having(Sort(xs, cmp), key(v), key)
    ensures v in Runs(Sort(xs, cmp), key)[p].members && w in Runs(Sort(xs, cmp), key)[p].members
    ensures key(Runs(Sort(xs, cmp), key)[p].members[0]) == key(v)
    ensures cmp(Runs(Sort(xs, cmp), key)[p].members[0], v) != Greater
  {
    p := RunOf(xs, cmp, key, kcmp, v);
    var ys := Sort(xs, cmp);
    SortIsSorted(xs, cmp);
    assert v in multiset(ys) && w in multiset(ys);
    HavingMember(ys, key(v), key, v);
    HavingMember(ys, key(v), key, w);
    HavingLeast(ys, key(v), key, cmp, v);
    RunMembers(ys, key, p);
  }

  /** Two positions with key `k` give at least two records with key `k`. */
  lemma {:induction false} HavingTwo<K, V>(xs: seq<V>, k: K, key: V -> K, i: nat, j: nat)
    requires i < j < |xs| && key(xs[i]) == k && key(xs[j]) == k
    ensures |Having(xs, k, key)| >= 2
    decreases i
  {
    if i == 0 {
      assert xs[j] == xs[1..][j - 1];
      HavingMember(xs[1..], k, key, xs[j]);
    } else {
      HavingTwo(xs[1..], k, key, i - 1, j - 1);
    }
  }

  /** In a sorted sequence the first record with key `k` is at most every
      other record with key `k`. */
  lemma {:induction false} HavingLeast<K, V(!new)>(ys: seq<V>, k: K, key: V -> K, cmp: (V, V) -> Cmp, v: V)
    requires Lawful(cmp) && Sorted(ys, cmp)
    requires v in Having(ys, k, key)
    ensures cmp(Having(ys, k, key)[0], v) != Greater
    decreases |ys|
  {
    HavingMember(ys, k, key, v);
    if key(ys[0]) == k {
      var p :| 0 <= p < |ys| && ys[p] == v;
      SortedPair(ys, cmp, 0, p);
    } else {
      SortedTail(ys, cmp);
      HavingLeast(ys[1..], k, key, cmp, v);
    }
  }

  /** No record of `xs` has key `k`. */
  lemma {:induction false} HavingNone<K, V>(xs: seq<V>, k: K, key: V -> K)
    requires forall v :: v in xs ==> key(v) != k
    ensures Having(xs, k, key) == []
    decreases |xs|
  {
    if xs != [] {
      assert xs[0] in xs;
      HavingNone(xs[1..], k, key);
    }
  }

  /** Each group is exactly the records of `xs` with its key, in their order
      in `xs`. */
  ghost predicate Exact<K, V>(gs: seq<Group<K, V>>, xs: seq<V>, key: V -> K) {
    forall i :: 0 <= i < |gs| ==> gs[i].members == Having(xs, gs[i].key, key)
  }

  /** On contiguous keys, each run is exactly the records with its key. */
  lemma {:induction false} RunsExact<K, V>(xs: seq<V>, key: V -> K)
    requires Contiguous(xs, key)
    ensures DistinctKeys(Runs(xs, key))
    ensures Exact(Runs(xs, key), xs, key)
    decreases |xs|
  {
    RunsDistinct(xs, key);
    if xs != [] {
      var runs, rest := Runs(xs, key), Runs(xs[1..], key);
      var k := key(xs[0]);
      ContiguousTail(xs, key);
      RunsExact(xs[1..], key);
      assert Having(xs, k, key) == [xs[0]] + Having(xs[1..], k, key);
      if rest != [] && rest[0].key == k {
        assert runs == [Group(k, [xs[0]] + rest[0].members)] + rest[1..];
        forall i | 0 < i < |runs|
          ensures runs[i].members == Having(xs, runs[i].key, key)
        {
          assert runs[i] == rest[i] && runs[0].key != runs[i].key;
          assert Having(xs, runs[i].key, key) == Having(xs[1..], runs[i].key, key);
        }
      } else {
        HeadKeyAlone(xs, key);
        HavingNone(xs[1..], k, key);
        assert runs == [Group(k, [xs[0]])] + rest;
        forall i | 0 < i < |runs|
          ensures runs[i].members == Having(xs, runs[i].key, key)
        {
          assert runs[i] == rest[i - 1] && runs[0].key != runs[i].key;
          assert Having(xs, runs[i].key, key) == Having(xs[1..], runs[i].key, key);
        }
      }
    }
  }
}
