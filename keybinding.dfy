/** A normalised keybinding record and the sort keys of the three reports. */
module Keybinding {
  import opened Ordering
  import opened Grouping

  /** One binding: its chord sequence (`keys`), the command it runs, its
      context list (`None` when the binding has none) and the package whose
      keymap file declared it. */
  datatype Record = Record(keys: seq<string>, command: string, context: Option<seq<string>>, package: string)

  /** `x['keys'][0]` is defined: the binding has at least one chord. */
  predicate HasChord(r: Record) {
    |r.keys| > 0
  }

  /** The group key of the All Keymaps report. */
  function KeysOf(r: Record): seq<string> {
    r.keys
  }

  /** The group key `(keys, context)` of the Keymaps redeclared report. */
  function KeysAndContext(r: Record): (seq<string>, Option<seq<string>>) {
    (r.keys, r.context)
  }

  /** `[keys[0]]`, the first chord as a one-element chord sequence. */
  function FirstChord(keys: seq<string>): seq<string> {
    if keys == [] then [] else [keys[0]]
  }

  /** The group key `([keys[0]], context)` of the shadowing pass. */
  function FirstChordAndContext(r: Record): (seq<string>, Option<seq<string>>) {
    (FirstChord(r.keys), r.context)
  }

  /** Comparison of `(chords, context)` pairs, chords first. */
  function CompareKeysContext(a: (seq<string>, Option<seq<string>>), b: (seq<string>, Option<seq<string>>)): Cmp {
    Then(CompareStrLists(a.0, b.0), CompareContext(a.1, b.1))
  }

  /** The sort key `(keys, package, command, context)` of All Keymaps. */
  function CompareAll(x: Record, y: Record): Cmp {
    Then(CompareStrLists(x.keys, y.keys),
      Then(CompareStr(x.package, y.package),
        Then(CompareStr(x.command, y.command), CompareContext(x.context, y.context))))
  }

  /** The sort key `(keys, context, package, command)` of Keymaps redeclared
      and of the shadowing pass as written. */
  function CompareConflict(x: Record, y: Record): Cmp {
    Then(CompareKeysContext(KeysAndContext(x), KeysAndContext(y)),
      Then(CompareStr(x.package, y.package), CompareStr(x.command, y.command)))
  }

  /** The sort key `([keys[0]], context, keys, context, package, command)`
      that the shadowing pass needs so that its groups are contiguous. */
  function CompareShadow(x: Record, y: Record): Cmp {
    Then(CompareKeysContext(FirstChordAndContext(x), FirstChordAndContext(y)), CompareConflict(x, y))
  }

  lemma CompareKeysContextLawful()
    ensures Lawful(CompareKeysContext)
  {
    CompareStrListsLawful();
    CompareContextLawful();
  }

  lemma CompareAllLawful()
    ensures Lawful(CompareAll)
  {
    CompareStrLawful();
    CompareStrListsLawful();
    CompareContextLawful();
  }

  lemma CompareConflictLawful()
    ensures Lawful(CompareConflict)
  {
    CompareStrLawful();
    CompareKeysContextLawful();
  }

  lemma CompareShadowLawful()
    ensures Lawful(CompareShadow)
  {
    CompareKeysContextLawful();
    CompareConflictLawful();
  }

  /** Each report's sort key starts with its group key. */
  lemma GroupKeysFirst()
    ensures KeyFirst(CompareAll, KeysOf, CompareStrLists)
    ensures KeyFirst(CompareConflict, KeysAndContext, CompareKeysContext)
    ensures KeyFirst(CompareShadow, FirstChordAndContext, CompareKeysContext)
  {
  }
}
