# KeymapTools keymap reports, modelled in Dafny

KeymapTools is an editor plugin that collects every keybinding declared by the
installed packages and reports on them. The plugin walks every directory
under the packages path and reads each file named `Default.sublime-keymap` or
`Default (<platform>).sublime-keymap`, matching the names without regard to
case. It tags every binding with the name of the directory holding its file. It puts
each binding in a normal form:

- every chord of its `keys` is rewritten as its modifiers (`shift`, `ctrl`,
  `alt`, `super`) in sorted order, followed by its other tokens;
- a present context list is sorted, and a missing one becomes `None`.

It then drops the bindings of packages that the settings list as ignored,
ignoring case. From what remains it builds one of three reports:

- **All Keymaps**: every binding, grouped by chord sequence.
- **Keymaps redeclared**: chord sequences declared more than once in one
  context.
- **All conflicts**: the redeclarations, followed by the multi-chord bindings
  that start with the chord of a single-chord binding in the same context.
  These are shadowed, because the single-chord binding fires first.

The project models this core:

- `ordering.dfy`: Python 2's comparison of strings, string lists and
  optional context lists, as a lawful total order. `None` sorts first.
- `sorting.dfy`: `list.sort` as the unique sorted permutation (`Sort`). An
  in-place array sort (`SortInPlace`) is proved to compute it.
- `grouping.dfy`: `itertools.groupby` as maximal runs of adjacent equal keys
  (`Runs`). Over a list sorted by its key first, every run holds exactly the
  records with its key.
- `keybinding.dfy`: the binding record, the group keys and the sort keys.
  The source has two: `(keys, package, command, context)` for All Keymaps
  (keymaps.py:134) and `(keys, context, package, command)` for both other
  passes (keymaps.py:148, 166). A third, `CompareShadow`, is the corrected
  key of the shadowing pass described under Findings.
- `normalizer.dfy`: chord and context normalisation. There is a pure
  specification (`Canonical`, `CanonicalContext`), the token loop
  (`NormalizeChord`) and the entry updated in place (`Entry.Normalize`).
- `ignored.dfy`: the ignored-package filter.
- `reports.dfy`: the three `generate_report` methods over an array of
  bindings, with the lemmas that say what each report contains.

## Model

| member | source | states |
|---|---|---|
| Ordering.LexPrefix | keymaps.py:166-168 | a chord sequence sorts strictly before every longer sequence that extends it |
| Ordering.CompareStrListsLawful | keymaps.py:134 | comparison of string lists (chord sequences, context lists) is a total order whose ties are exactly equal lists |
| Ordering.CompareContextLawful | keymaps.py:148 | comparison of optional context lists is a total order; `None` sorts before every list |
| Keybinding.CompareAllLawful | keymaps.py:134 | the All Keymaps sort key `(keys, package, command, context)` orders bindings totally |
| Keybinding.CompareConflictLawful | keymaps.py:148 | the sort key `(keys, context, package, command)` orders bindings totally |
| Keybinding.GroupKeysFirst | keymaps.py:148-151 | the sort keys of keymaps.py:134 and 148 compare their group key first, so records that differ in the group key are ordered by it; so does the corrected shadowing key `CompareShadow`. The source's own shadowing sort (keymaps.py:166) does not compare its group key `([keys[0]], context)` first; see Findings |
| Sorting.Sort | keymaps.py:136 | the specification of `list.sort` by a key; it carries no contract of its own, and what it means is stated by `SortIsSorted` (ordered permutation) and `SortCanonical` (the only one) |
| Sorting.SortIsSorted | keymaps.py:136 | the sorted list is ordered by the sort key and is a permutation of the input |
| Sorting.SortCanonical | keymaps.py:136 | any ordered permutation of the input is the sorted list: sorting is determined by the multiset of records |
| Sorting.SortForgetsOrder | keymaps.py:150 | inputs with the same records, in any order, sort to the same list |
| Sorting.SortSorted | keymaps.py:168 | sorting an already sorted list changes nothing |
| Sorting.InsertAt | keymaps.py:136 | one insertion step extends the sorted prefix by one element, leaves the elements after it unchanged and keeps the array's multiset, so the prefix gained exactly the old `a[i]` |
| Sorting.SortInPlace | keymaps.py:136 | sorting the array in place leaves it equal to the sorted list of its old contents |
| Grouping.Runs | keymaps.py:139 | the specification of `itertools.groupby`; its meaning is stated by `RunsAreRuns` (maximal runs that flatten back to the list) and `RunsExact` |
| Grouping.RunsAreRuns | keymaps.py:139-140 | `groupby` cuts the list into nonempty runs that concatenate back to it; every member carries its run's key; neighbouring runs have different keys |
| Grouping.SortedContiguous | keymaps.py:148-151 | after sorting by a key that compares the group key first, the records with one group key are contiguous |
| Grouping.RunsExact | keymaps.py:151-155 | over a contiguous list, no key has two runs, and each run holds exactly the records with its key, in list order |
| Grouping.HavingPermutes | keymaps.py:150-151 | the records with one key are the same multiset before and after reordering the list |
| Normalizer.Split | keymaps.py:70 | splitting on `+` gives at least one piece, no piece contains `+`, and joining the pieces with `+` gives the chord back |
| Normalizer.SplitJoin | keymaps.py:70-77 | splitting a join of `+`-free pieces gives the pieces back |
| Normalizer.TokensSplit | keymaps.py:71-75 | the modifier tokens and the other tokens partition the chord's tokens: each holds only its kind, and together they hold every token |
| Normalizer.TokensAppend | keymaps.py:71-75 | collecting modifier and other tokens works token by token, so each list keeps the input order |
| Normalizer.Canonical | keymaps.py:68-77 | the specification of one chord's normal form; its meaning is stated by `CanonicalShape`, `CanonicalIdempotent` and `CanonicalIgnoresModifierOrder`, and `NormalizeChord` proves the token loop computes it |
| Normalizer.CanonicalShape | keymaps.py:68-77 | in a normalised chord every modifier precedes every other token, the modifiers are sorted, the other tokens are the input's in input order, and no token is gained or lost |
| Normalizer.CanonicalIdempotent | keymaps.py:68-77 | normalising a normalised chord changes nothing |
| Normalizer.CanonicalIgnoresModifierOrder | keymaps.py:71-77 | chords with the same modifiers, in any order, and the same other tokens, in the same order, normalise alike |
| Normalizer.CanonicalInOrder | keymaps.py:68-77 | a chord whose two modifiers are in sort order and precede its key is already normalised |
| Normalizer.CanonicalSortsModifiers | keymaps.py:72-76 | two modifiers out of order are swapped |
| Normalizer.CanonicalModifiersFirst | keymaps.py:77 | modifiers written after the key move in front of it |
| Normalizer.ExampleCtrlShift | keymaps.py:68-77 | `shift+ctrl+k`, `ctrl+shift+k` and `k+ctrl+shift` all normalise to `ctrl+shift+k`, for any key `k` that is not a modifier |
| Normalizer.ChordStep | keymaps.py:71-76 | sorting `cmod` after every token ends where one sort of the collected modifiers would |
| Normalizer.NormalizeChord | keymaps.py:69-77 | the token loop returns the canonical form of the chord |
| Normalizer.CanonicalContext | keymaps.py:63-66 | the specification of context normalisation; its meaning is stated by `CanonicalContextShape` and `CanonicalContextIgnoresOrder` |
| Normalizer.CanonicalContextShape | keymaps.py:63-66 | a present context list comes out sorted with the same elements; an absent one stays `None`; an empty list stays an empty list, which is not `None` |
| Normalizer.CanonicalContextIgnoresOrder | keymaps.py:63-64 | context lists that are permutations of each other normalise alike |
| Normalizer.Normalized | keymaps.py:59-77 | the record a parsed binding becomes: its meaning is stated by `NormalizedIdempotent`, and `Entry.Normalize` proves the in-place update yields it |
| Normalizer.NormalizedIdempotent | keymaps.py:59-77 | normalising an already normalised binding changes nothing: its chords are canonical and its context sorted |
| Normalizer.Entry.constructor | keymaps.py:58-59 | a parsed entry holds its chords, command and context, and no package yet |
| Normalizer.Entry.Normalize | keymaps.py:59-77 | the entry gets its package, its context normalised and every chord replaced by its canonical form; the command and the number of chords are unchanged; as a record (`AsRecord`, the form the filter and reports take) it is `Normalized` of the old record |
| IgnoredPackages.LowerIdempotent | keymaps.py:91-92 | lower-casing twice is lower-casing once, and leaves no capital letter |
| IgnoredPackages.IgnoredUpToCase | keymaps.py:91-92 | a package is ignored exactly when some ignored name equals it up to case |
| IgnoredPackages.WithoutIgnored | keymaps.py:92 | the specification of the filter comprehension; its meaning is stated by `WithoutIgnoredCount`, `WithoutIgnoredMember` and `WithoutIgnoredAppend` |
| IgnoredPackages.WithoutIgnoredCount | keymaps.py:92 | the filter keeps each binding of a package that is not ignored as often as the input holds it, and no binding of an ignored package |
| IgnoredPackages.WithoutIgnoredMember | keymaps.py:92 | a binding survives exactly when it is in the input and its package is not ignored |
| IgnoredPackages.WithoutIgnoredAppend | keymaps.py:92 | the filter distributes over concatenation, so it keeps the input order |
| IgnoredPackages.IgnoredExample | keymaps.py:91-92 | with `vim` ignored, a binding of package `Vim` is dropped and one of package `Go` is kept |
| Reports.AllKeymapsGroups | keymaps.py:132-141 | the specification of the All Keymaps entries; their meaning is stated by `AllKeymapsPartition` and `ReportsIgnoreOrder`, and `AllKeymapsReport` proves the method returns them |
| Reports.AllKeymapsPartition | keymaps.py:132-141 | All Keymaps lists every binding once, in sort order, in maximal runs; each entry holds exactly the bindings with its chord sequence, and no chord sequence appears twice |
| Reports.AllKeymapsReport | keymaps.py:132-141 | the method sorts the array in place and returns one `All Keymaps` section whose entries are the runs |
| Reports.ReportsIgnoreOrder | keymaps.py:136-168 | all three reports, and the shadowing pass as written, depend only on the multiset of bindings, not on the order in which files were read |
| Reports.SelectMember | keymaps.py:151-155 | an entry is reported exactly when it comes from a run that passes the report's test |
| Reports.ConflictGroups | keymaps.py:146-157 | the specification of the Keymaps redeclared entries; their meaning is stated by `ConflictSound` and `ConflictComplete`, and `ConflictReport` proves the method returns them |
| Reports.ConflictSound | keymaps.py:146-157 | every redeclared entry has at least two bindings, all with the entry's chord sequence and one context; no bindings give no entries |
| Reports.ConflictComplete | keymaps.py:146-157 | two bindings with the same chord sequence and context are both reported, under that chord sequence |
| Reports.ConflictReport | keymaps.py:146-157 | the method sorts the array in place and returns one `Keymaps redeclared` section with the runs of more than one binding |
| Reports.ShadowGroupsAsWritten | keymaps.py:166-182 | the shadowing pass as written, on bindings that each have at least one chord, sorted by `(keys, context, package, command)`; `ShadowSound` holds of it, `ShadowMissedAsWritten` shows it can miss a shadowed binding, and `ReportsIgnoreOrder` shows it does not depend on input order |
| Reports.ShadowSound | keymaps.py:169-181 | whatever the sort before it, every shadowing entry has at least two bindings with one first chord and one context; the first binding has exactly that chord, which is the entry's key, and a later binding has more chords |
| Reports.LongerSortsAfter | keymaps.py:166-168 | among bindings with one first chord and context, a binding with more chords sorts after the one-chord binding |
| Reports.ShadowGroups | keymaps.py:162-184 | the corrected shadowing pass, sorted by `([keys[0]], context)` first; its meaning is stated by `ShadowSound` and `ShadowComplete`, and `AllConflictReport` returns it |
| Reports.ShadowComplete | keymaps.py:162-184 | with the corrected sort, a one-chord binding and a longer binding that starts with its chord, in its context, are reported together under that chord |
| Reports.ShadowsRun | keymaps.py:172-177 | the `singlekeys`/`multikeys` loop over a run answers whether the run is a shadowing group |
| Reports.ShadowEntries | keymaps.py:169-181 | the shadowing loop returns the runs that are shadowing groups, each keyed by its first chord |
| Reports.ResortedForShadows | keymaps.py:164-168 | sorting the conflict-sorted list again gives the sort of the original list, with the same bindings |
| Reports.AllConflictReport | keymaps.py:162-184 | the result is the Keymaps redeclared section of the same input followed by the shadowing section; a binding without chords makes it fail |
| Reports.ShadowMissedAsWritten | keymaps.py:166-169 | with the sort as written, three bindings where one shadows another give no shadowing entry |
| Reports.ShadowFoundCorrected | keymaps.py:166-169 | with the corrected sort, the same three bindings give the shadowing entry |

## Left out

- `ThreadProgress` (keymaps.py:17-43) is not modelled. It animates the status bar on editor timers.
- The file search is not modelled: the walk over the packages directory, reading the keymap files, `json_minify` and `json.loads` (keymaps.py:52-58, 78-79). These are I/O. The model starts from parsed entries (`Entry.constructor`).
- The package name is taken from the keymap file's directory (keymaps.py:61). `Entry.Normalize` receives it as a parameter.
- The worker thread and the hand-off to the UI thread are not modelled (keymaps.py:46-49, 79, 83-87). They are concurrency and timers.
- The ignored list is read from the view's settings (keymaps.py:91). `WithoutIgnored` takes the list as a parameter.
- Rendering is not modelled: `report_to_buffer`, `report_to_quickpanel` and the output choice (keymaps.py:95-127). These are UI.
- The ELEMENTS of a context list are modelled as strings, each standing for its context dictionary in some canonical encoding. In the source each element is a dictionary, and Python 2 orders dictionaries by an interpreter-specific rule that the model does not reproduce. Sorting, grouping and equality are therefore modelled for the total order that such an encoding induces on the elements; the model says nothing about dictionaries that no string encoding orders the same way.
- Fields of a binding other than `keys`, `command`, `context` and `package` (such as `args`) are not modelled. Python's sort is stable, so bindings equal in all four fields keep their input order. In the model such bindings are equal, so their order cannot be observed.
- IgnoredPackages.LowerChar: lower-cases ASCII letters only. Python 2's `str.lower` also depends on the locale, and `unicode.lower` covers all of Unicode.
- Sorting.SortInPlace: is an insertion sort, not CPython's Timsort. Both produce the unique sorted permutation (`SortCanonical`), so the result is the same. The number of comparisons and the memory used are not modelled.
- Reports.ShadowGroupsAsWritten: on a binding with an empty `keys` list the source raises `IndexError` at keymaps.py:171; the function instead groups that binding under an empty first chord and returns a list. It models the source only on bindings that each have at least one chord.
- Reports.AllConflictReport: returns `None` where the source raises `IndexError` on a binding with an empty `keys` list. It sorts the shadowing pass by the corrected order described under Findings; the order as written is `ShadowGroupsAsWritten`.

## Findings

| source | as written | input that shows it | evidently intended | confidence | as-written member | corrected member |
|---|---|---|---|---|---|---|
| keymaps.py:166-169 | the shadowing pass sorts by `(keys, context, package, command)` and then groups adjacent bindings by `([keys[0]], context)`. A binding with the same first chord but another context can sort between two bindings of one group and split it | `A` = `f1` in context `c`; `B` = `f1, f2` with no context; `C` = `f1, f3` in context `c`; all in one package. Sorted, they are `A, B, C`. That gives three one-binding runs, so no entry, although `C` starts with `A`'s only chord in `A`'s context | sort by `([keys[0]], context)` first, so each first chord and context forms one run. `A` and `C` are then reported under `f1` | not executed | Reports.ShadowMissedAsWritten | Reports.ShadowComplete |
