/** The three `generate_report` class methods of keymaps.py: All Keymaps,
    Keymaps redeclared and the combined report that adds multi-chord
    bindings shadowed by a single-chord binding. Each sorts the binding list
    in place, walks `itertools.groupby` over it and returns a list of
    `(title, [(key, bindings)])` sections. */
module Reports {
  import opened Ordering
  import opened Sorting
  import opened Grouping
  import opened Keybinding

  const AllKeymapsTitle := "All Keymaps"
  const ConflictTitle := "Keymaps redeclared"
  const ShadowTitle := "Multi part Keymaps that start with an existing single part Keymap"

  /** One `(k, list(g))` entry of a report: a chord sequence and bindings. */
  type Listing = Group<seq<string>, Record>

  /** One `groupby` run of a pass that groups by a `(chords, context)` pair. */
  type Run = Group<(seq<string>, Option<seq<string>>), Record>

  /** One `(title, entries)` section of a report. */
  datatype Section = Section(title: string, entries: seq<Listing>)

  /** The entries of All Keymaps: the bindings sorted by
      `(keys, package, command, context)`, in runs of equal `keys`. */
  function AllKeymapsGroups(xs: seq<Record>): seq<Listing> {
    Runs(Sort(xs, CompareAll), KeysOf)
  }

  /** `len(l) > 1`: the run holds a redeclaration. */
  predicate IsDuplicate(l: seq<Record>) {
    |l| > 1
  }

  /** `singlekeys and multikeys`: a run of at least two bindings whose first
      binding has one chord and some later binding has more. */
  predicate Shadows(l: seq<Record>) {
    |l| > 1 && |l[0].keys| == 1 && exists i :: 1 <= i < |l| && |l[i].keys| > 1
  }

  /** The runs that `keep` accepts, each as `(k[0], l)`, in run order. */
  function Select(runs: seq<Run>, keep: seq<Record> -> bool): seq<Listing> {
    if runs == [] then []
    else
      var g := runs[|runs| - 1];
      Select(runs[..|runs| - 1], keep) + (if keep(g.members) then [Group(g.key.0, g.members)] else [])
  }

  /** The entries of Keymaps redeclared: the bindings sorted by
      `(keys, context, package, command)`, runs of equal `(keys, context)`
      that hold more than one binding. */
  function ConflictGroups(xs: seq<Record>): seq<Listing> {
    Select(Runs(Sort(xs, CompareConflict), KeysAndContext), IsDuplicate)
  }

  /** The shadowing pass over the bindings sorted by `cmp`: runs of equal
      `([keys[0]], context)` that `Shadows` accepts. */
  function ShadowPass(xs: seq<Record>, cmp: (Record, Record) -> Cmp): seq<Listing> {
    Select(Runs(Sort(xs, cmp), FirstChordAndContext), Shadows)
  }

  /** The shadowing pass as keymaps.py writes it: sorted by the whole chord
      sequence first, so that bindings sharing a first chord need not be
      adjacent. */
  function ShadowGroupsAsWritten(xs: seq<Record>): seq<Listing> {
    ShadowPass(xs, CompareConflict)
  }

  /** The shadowing pass sorted by `([keys[0]], context)` first, so that
      `groupby` sees every binding of a first chord and context at once. */
  function ShadowGroups(xs: seq<Record>): seq<Listing> {
    ShadowPass(xs, CompareShadow)
  }

  /** An entry is selected exactly when it comes from a run that `keep`
      accepts. */
  lemma {:induction false} SelectMember(runs: seq<Run>, keep: seq<Record> -> bool, g: Listing)
    ensures g in Select(runs, keep) <==>
      exists i :: 0 <= i < |runs| && keep(runs[i].members) && g == Group(runs[i].key.0, runs[i].members)
    decreases |runs|
  {
    if runs != [] {
      var n := |runs| - 1;
      var init, last := runs[..n], runs[n];
      SelectMember(init, keep, g);
      assert Select(runs, keep) == Select(init, keep) + (if keep(last.members) then [Group(last.key.0, last.members)] else []);
      if g in Select(init, keep) {
        var i :| 0 <= i < |init| && keep(init[i].members) && g == Group(init[i].key.0, init[i].members);
        assert runs[i] == init[i];
      }
      if exists i :: 0 <= i < |runs| && keep(runs[i].members) && g == Group(runs[i].key.0, runs[i].members) {
        var i :| 0 <= i < |runs| && keep(runs[i].members) && g == Group(runs[i].key.0, runs[i].members);
        if i < n {
          assert runs[i] == init[i];
        }
      }
    }
  }

  /** All Keymaps lists every binding once, in sort order, split into
      maximal runs: each entry is nonempty, its bindings all have the
      entry's chord sequence, neighbouring entries differ, no chord sequence
      appears twice, and an entry holds every binding with its chords. */
  lemma AllKeymapsPartition(xs: seq<Record>)
    ensures IsRuns(AllKeymapsGroups(xs), Sort(xs, CompareAll), KeysOf)
    ensures multiset(Flatten(AllKeymapsGroups(xs))) == multiset(xs)
    ensures Sorted(Flatten(AllKeymapsGroups(xs)), CompareAll)
    ensures DistinctKeys(AllKeymapsGroups(xs))
    ensures Exact(AllKeymapsGroups(xs), Sort(xs, CompareAll), KeysOf)
  {
    var ys := Sort(xs, CompareAll);
    CompareAllLawful();
    CompareStrListsLawful();
    GroupKeysFirst();
    SortIsSorted(xs, CompareAll);
    RunsAreRuns(ys, KeysOf);
    SortedContiguous(ys, CompareAll, KeysOf, CompareStrLists);
    RunsExact(ys, KeysOf);
  }

  /** The reports depend on which bindings were found, not on the order in
      which the keymap files were read. */
  lemma ReportsIgnoreOrder(xs: seq<Record>, ys: seq<Record>)
    requires multiset(xs) == multiset(ys)
    ensures AllKeymapsGroups(xs) == AllKeymapsGroups(ys)
    ensures ConflictGroups(xs) == ConflictGroups(ys)
    ensures ShadowGroups(xs) == ShadowGroups(ys)
    ensures ShadowGroupsAsWritten(xs) == ShadowGroupsAsWritten(ys)
  {
    CompareAllLawful();
    CompareConflictLawful();
    CompareShadowLawful();
    SortForgetsOrder(xs, ys, CompareAll);
    SortForgetsOrder(xs, ys, CompareConflict);
    SortForgetsOrder(xs, ys, CompareShadow);
  }

  /** Every entry of Keymaps redeclared holds at least two bindings, all
      with the entry's chord sequence and one context; no bindings, no
      entries. */
  lemma ConflictSound(xs: seq<Record>)
    ensures forall g :: g in ConflictGroups(xs) ==>
      |g.members| >= 2 && forall m :: m in g.members ==> m.keys == g.key && m.context == g.members[0].context
    ensures xs == [] ==> ConflictGroups(xs) == []
  {
    var runs := Runs(Sort(xs, CompareConflict), KeysAndContext);
    forall g | g in ConflictGroups(xs)
      ensures |g.members| >= 2
      ensures forall m :: m in g.members ==> m.keys == g.key && m.context == g.members[0].context
    {
      SelectMember(runs, IsDuplicate, g);
      var i :| 0 <= i < |runs| && IsDuplicate(runs[i].members) && g == Group(runs[i].key.0, runs[i].members);
      RunMembers(Sort(xs, CompareConflict), KeysAndContext, i);
      assert g.members[0] in runs[i].members;
    }
    if xs == [] {
      assert Sort(xs, CompareConflict) == [];
    }
  }

  /** Two bindings at different positions with the same chord sequence and
      context are both reported under that chord sequence. */
  lemma ConflictComplete(xs: seq<Record>, i: nat, j: nat)
    requires i < j < |xs|
    requires xs[i].keys == xs[j].keys && xs[i].context == xs[j].context
    ensures exists g :: g in ConflictGroups(xs) && g.key == xs[i].keys && xs[i] in g.members && xs[j] in g.members
  {
    var ys := Sort(xs, CompareConflict);
    var runs := Runs(ys, KeysAndContext);
    var k := KeysAndContext(xs[i]);
    CompareConflictLawful();
    CompareKeysContextLawful();
    GroupKeysFirst();
    var p := RunOfBoth(xs, CompareConflict, KeysAndContext, CompareKeysContext, xs[i], xs[j]);
    var l := runs[p].members;
    SortPermutes(xs, CompareConflict);
    HavingPermutes(ys, xs, k, KeysAndContext);
    HavingTwo(xs, k, KeysAndContext, i, j);
    assert |l| == |multiset(Having(xs, k, KeysAndContext))|;
    SelectMember(runs, IsDuplicate, Group(xs[i].keys, l));
  }

  /** Every entry of a shadowing pass, whatever the sort order before it,
      holds at least two bindings with one first chord and one context; the
      first binding has that single chord, which is the entry's key, and a
      later binding has more chords. */
  lemma ShadowSound(xs: seq<Record>, cmp: (Record, Record) -> Cmp)
    ensures forall g :: g in ShadowPass(xs, cmp) ==>
      |g.members| >= 2 && g.members[0].keys == g.key && |g.key| == 1 &&
      (exists i :: 1 <= i < |g.members| && |g.members[i].keys| > 1) &&
      forall m :: m in g.members ==> m.keys != [] && m.keys[0] == g.key[0] && m.context == g.members[0].context
  {
    var runs := Runs(Sort(xs, cmp), FirstChordAndContext);
    forall g | g in ShadowPass(xs, cmp)
      ensures |g.members| >= 2 && g.members[0].keys == g.key && |g.key| == 1
      ensures exists i :: 1 <= i < |g.members| && |g.members[i].keys| > 1
      ensures forall m :: m in g.members ==> m.keys != [] && m.keys[0] == g.key[0] && m.context == g.members[0].context
    {
      SelectMember(runs, Shadows, g);
      var p :| 0 <= p < |runs| && Shadows(runs[p].members) && g == Group(runs[p].key.0, runs[p].members);
      RunMembers(Sort(xs, cmp), FirstChordAndContext, p);
      assert FirstChordAndContext(g.members[0]) == runs[p].key;
    }
  }

  /** A binding that starts with the single chord of `r`, in `r`'s context,
      sorts after `r` when it has more chords: a chord sequence sorts after
      each of its proper prefixes. */
  lemma LongerSortsAfter(m: Record, r: Record)
    requires FirstChordAndContext(m) == FirstChordAndContext(r) && |r.keys| == 1
    ensures CompareShadow(m, r) != Greater ==> |m.keys| == 1
  {
    if |m.keys| > 1 {
      CompareStrLawful();
      assert m.keys == r.keys + m.keys[1..];
      LexPrefix(r.keys, m.keys[1..], CompareStr);
      LexFlip(r.keys, m.keys, CompareStr);
      assert CompareStrLists(m.keys, r.keys) == Greater;
      LexEqual(FirstChord(m.keys), FirstChord(r.keys), CompareStr);
      if m.context.Some? {
        LexEqual(m.context.value, r.context.value, CompareStr);
      }
      assert CompareKeysContext(FirstChordAndContext(m), FirstChordAndContext(r)) == Equal;
    }
  }

  /** With the corrected sort, the run of a one-chord binding holds every
      binding with its first chord and context, and starts with a one-chord
      binding. */
  lemma ShadowRunOf(xs: seq<Record>, r1: Record, r2: Record) returns (p: nat)
    requires r1 in xs && r2 in xs && |r1.keys| == 1
    requires FirstChordAndContext(r2) == FirstChordAndContext(r1)
    ensures p < |Runs(Sort(xs, CompareShadow), FirstChordAndContext)|
    ensures Runs(Sort(xs, CompareShadow), FirstChordAndContext)[p].key == FirstChordAndContext(r1)
    ensures r1 in Runs(Sort(xs, CompareShadow), FirstChordAndContext)[p].members
    ensures r2 in Runs(Sort(xs, CompareShadow), FirstChordAndContext)[p].members
    ensures |Runs(Sort(xs, CompareShadow), FirstChordAndContext)[p].members[0].keys| == 1
  {
    CompareShadowLawful();
    CompareKeysContextLawful();
    GroupKeysFirst();
    p := RunOfBoth(xs, CompareShadow, FirstChordAndContext, CompareKeysContext, r1, r2);
    LongerSortsAfter(Runs(Sort(xs, CompareShadow), FirstChordAndContext)[p].members[0], r1);
  }

  /** With the corrected sort, a one-chord binding and a longer binding that
      starts with the same chord, in the same context, are reported together
      under that chord. */
  lemma ShadowComplete(xs: seq<Record>, r1: Record, r2: Record)
    requires r1 in xs && r2 in xs
    requires |r1.keys| == 1 && |r2.keys| > 1 && r2.keys[0] == r1.keys[0] && r2.context == r1.context
    ensures exists g :: g in ShadowGroups(xs) && g.key == r1.keys && r1 in g.members && r2 in g.members
  {
    var runs := Runs(Sort(xs, CompareShadow), FirstChordAndContext);
    assert FirstChordAndContext(r2) == FirstChordAndContext(r1);
    var p := ShadowRunOf(xs, r1, r2);
    var l := runs[p].members;
    var q :| 0 <= q < |l| && l[q] == r2;
    assert q != 0;
    assert Shadows(l);
    assert runs[p].key.0 == r1.keys;
    SelectMember(runs, Shadows, Group(r1.keys, l));
  }

  /** Three bindings of one package: `A` on chord `f1` in context `c`, `B`
      on `f1, f2` with no context and `C` on `f1, f3` in context `c`. */
  function BindingA(): Record { Record(["f1"], "a", Some(["c"]), "P") }
  function BindingB(): Record { Record(["f1", "f2"], "b", None, "P") }
  function BindingC(): Record { Record(["f1", "f3"], "c", Some(["c"]), "P") }

  /** Sorted by `(keys, context, …)`, `B` lies between `A` and `C`. */
  lemma ExampleSortedAsWritten()
    ensures Sort([BindingA(), BindingB(), BindingC()], CompareConflict) == [BindingA(), BindingB(), BindingC()]
  {
    var a, b, c := BindingA(), BindingB(), BindingC();
    CompareConflictLawful();
    assert CompareStrLists(a.keys, b.keys) == Less;
    assert CompareStr("f2", "f3") == Less;
    assert CompareStrLists(b.keys, c.keys) == Less;
    assert Sorted([a, b, c], CompareConflict);
    SortSorted([a, b, c], CompareConflict);
  }

  /** Sorted by `([keys[0]], context, …)`, `B` comes first, since it has no
      context, and `A` precedes `C`. */
  lemma ExampleSortedCorrected()
    ensures Sort([BindingA(), BindingB(), BindingC()], CompareShadow) == [BindingB(), BindingA(), BindingC()]
  {
    var a, b, c := BindingA(), BindingB(), BindingC();
    CompareShadowLawful();
    assert CompareContext(None, Some(["c"])) == Less;
    assert CompareShadow(b, a) == Less;
    assert CompareStrLists(a.keys, c.keys) == Less;
    assert CompareShadow(a, c) == Less;
    assert Sorted([b, a, c], CompareShadow);
    assert multiset([b, a, c]) == multiset([a, b, c]);
    SortCanonical([b, a, c], [a, b, c], CompareShadow);
  }

  /** Three records whose neighbours' keys differ form three runs. */
  lemma RunsOfThreeApart<K, V>(x: V, y: V, z: V, key: V -> K)
    requires key(x) != key(y) && key(y) != key(z)
    ensures Runs([x, y, z], key) == [Group(key(x), [x]), Group(key(y), [y]), Group(key(z), [z])]
  {
    assert [x, y, z][1..] == [y, z] && [y, z][1..] == [z];
    assert Runs([z], key) == [Group(key(z), [z])];
  }

  /** A record followed by two records of another, common key forms two
      runs. */
  lemma RunsOfThreeMerged<K, V>(x: V, y: V, z: V, key: V -> K)
    requires key(x) != key(y) && key(y) == key(z)
    ensures Runs([x, y, z], key) == [Group(key(x), [x]), Group(key(y), [y, z])]
  {
    assert [x, y, z][1..] == [y, z] && [y, z][1..] == [z];
    assert Runs([z], key) == [Group(key(z), [z])];
    assert [y] + [z] == [y, z];
    assert Runs([y, z], key) == [Group(key(y), [y, z])];
  }

  /** Selection from three runs that `keep` rejects. */
  lemma SelectNoneOfThree(r0: Run, r1: Run, r2: Run, keep: seq<Record> -> bool)
    requires !keep(r0.members) && !keep(r1.members) && !keep(r2.members)
    ensures Select([r0, r1, r2], keep) == []
  {
    assert [r0, r1, r2][..2] == [r0, r1] && [r0, r1][..1] == [r0] && [r0][..0] == [];
    assert Select([r0], keep) == [];
    assert Select([r0, r1], keep) == [];
  }

  /** Selection from two runs of which `keep` accepts the second. */
  lemma SelectSecondOfTwo(r0: Run, r1: Run, keep: seq<Record> -> bool)
    requires !keep(r0.members) && keep(r1.members)
    ensures Select([r0, r1], keep) == [Group(r1.key.0, r1.members)]
  {
    assert [r0, r1][..1] == [r0] && [r0][..0] == [];
    assert Select([r0], keep) == [];
  }

  /** As written, the pass sees `A`, `B` and `C` in three one-binding runs
      and reports nothing, although `C` starts with `A`'s only chord in
      `A`'s context. */
  lemma ShadowMissedAsWritten()
    ensures ShadowGroupsAsWritten([BindingA(), BindingB(), BindingC()]) == []
  {
    var a, b, c := BindingA(), BindingB(), BindingC();
    ExampleSortedAsWritten();
    RunsOfThreeApart(a, b, c, FirstChordAndContext);
    assert !Shadows([a]) && !Shadows([b]) && !Shadows([c]);
    SelectNoneOfThree(Group(FirstChordAndContext(a), [a]), Group(FirstChordAndContext(b), [b]), Group(FirstChordAndContext(c), [c]), Shadows);
  }

  /** The corrected pass reports `A` and `C` together under `A`'s chord. */
  lemma ShadowFoundCorrected()
    ensures ShadowGroups([BindingA(), BindingB(), BindingC()]) == [Group(["f1"], [BindingA(), BindingC()])]
  {
    var a, b, c := BindingA(), BindingB(), BindingC();
    ExampleSortedCorrected();
    RunsOfThreeMerged(b, a, c, FirstChordAndContext);
    assert !Shadows([b]) && Shadows([a, c]);
    SelectSecondOfTwo(Group(FirstChordAndContext(b), [b]), Group(FirstChordAndContext(a), [a, c]), Shadows);
  }

  /** `AllKeymapsCommand.generate_report`: sorts the bindings in place and
      returns one section listing every run of equal chord sequences. */
  method AllKeymapsReport(keybindings: array<Record>) returns (report: seq<Section>)
    modifies keybindings
    ensures keybindings[..] == Sort(old(keybindings[..]), CompareAll)
    ensures report == [Section(AllKeymapsTitle, AllKeymapsGroups(old(keybindings[..])))]
  {
    CompareAllLawful();
    SortInPlace(keybindings, CompareAll);
    var runs := Runs(keybindings[..], KeysOf);
    var result := [];
    var j := 0;
    while j < |runs|
      invariant 0 <= j <= |runs|
      invariant result == runs[..j]
    {
      result := result + [runs[j]];
      j := j + 1;
    }
    assert runs[..j] == runs;
    report := [Section(AllKeymapsTitle, result)];
  }

  /** `ConflictKeymapsCommand.generate_report`: sorts the bindings in place
      and returns one section listing every run of equal chord sequence and
      context that holds more than one binding. */
  method ConflictReport(keybindings: array<Record>) returns (report: seq<Section>)
    modifies keybindings
    ensures keybindings[..] == Sort(old(keybindings[..]), CompareConflict)
    ensures report == [Section(ConflictTitle, ConflictGroups(old(keybindings[..])))]
  {
    CompareConflictLawful();
    SortInPlace(keybindings, CompareConflict);
    var runs := Runs(keybindings[..], KeysAndContext);
    var result := [];
    var j := 0;
    while j < |runs|
      invariant 0 <= j <= |runs|
      invariant result == Select(runs[..j], IsDuplicate)
    {
      var l := runs[j].members;
      assert runs[..j + 1][..j] == runs[..j];
      if |l| > 1 {
        result := result + [Group(runs[j].key.0, l)];
      }
      j := j + 1;
    }
    assert runs[..j] == runs;
    report := [Section(ConflictTitle, result)];
  }

  /** The two passes of the shadowing pass's inner loop over one run:
      whether the run's first binding has one chord and a later one more. */
  method ShadowsRun(l: seq<Record>) returns (shadows: bool)
    ensures shadows == Shadows(l)
  {
    if |l| <= 1 {
      return false;
    }
    var singlekeys := |l[0].keys| == 1;
    var multikeys := false;
    var i := 1;
    while i < |l|
      invariant 1 <= i <= |l|
      invariant multikeys <==> exists m :: 1 <= m < i && |l[m].keys| > 1
    {
      if |l[i].keys| > 1 {
        multikeys := true;
      }
      i := i + 1;
    }
    shadows := singlekeys && multikeys;
  }

  /** Sorting by the shadow order after sorting by the conflict order gives
      the shadow order of the original bindings, which are kept. */
  lemma ResortedForShadows(xs: seq<Record>)
    ensures Sort(Sort(xs, CompareConflict), CompareShadow) == Sort(xs, CompareShadow)
    ensures forall r :: r in Sort(xs, CompareShadow) <==> r in xs
  {
    CompareShadowLawful();
    SortPermutes(xs, CompareConflict);
    SortForgetsOrder(Sort(xs, CompareConflict), xs, CompareShadow);
    SortPermutes(xs, CompareShadow);
    assert forall r :: r in Sort(xs, CompareShadow) <==> r in multiset(xs);
  }

  /** The shadowing loop of `AllConflictKeymapsCommand.generate_report` over
      bindings already sorted. */
  method ShadowEntries(sorted: seq<Record>) returns (conflict: seq<Listing>)
    ensures conflict == Select(Runs(sorted, FirstChordAndContext), Shadows)
  {
    var runs := Runs(sorted, FirstChordAndContext);
    conflict := [];
    var j := 0;
    while j < |runs|
      invariant 0 <= j <= |runs|
      invariant conflict == Select(runs[..j], Shadows)
    {
      var l := runs[j].members;
      assert runs[..j + 1][..j] == runs[..j];
      var shadows := ShadowsRun(l);
      if shadows {
        conflict := conflict + [Group(runs[j].key.0, l)];
      }
      j := j + 1;
    }
    assert runs[..j] == runs;
  }

  /** `AllConflictKeymapsCommand.generate_report`: the Keymaps redeclared
      section followed by the shadowing section. The shadowing pass is
      sorted by `([keys[0]], context)` first; `None` stands for the
      `IndexError` that `x['keys'][0]` raises on a binding without chords. */
  method AllConflictReport(keybindings: array<Record>) returns (report: Option<seq<Section>>)
    modifies keybindings
    ensures keybindings[..] == Sort(old(keybindings[..]), CompareShadow)
    ensures report.Some? <==> forall r :: r in old(keybindings[..]) ==> HasChord(r)
    ensures report.Some? ==>
      report.value == [Section(ConflictTitle, ConflictGroups(old(keybindings[..]))),
                       Section(ShadowTitle, ShadowGroups(old(keybindings[..])))]
  {
    ghost var input := keybindings[..];
    var result := ConflictReport(keybindings);
    CompareShadowLawful();
    SortInPlace(keybindings, CompareShadow);
    ResortedForShadows(input);
    if exists i :: 0 <= i < keybindings.Length && !HasChord(keybindings[i]) {
      return None;
    }
    var conflict := ShadowEntries(keybindings[..]);
    report := Some(result + [Section(ShadowTitle, conflict)]);
  }
}
