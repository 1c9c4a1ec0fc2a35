/** Normalisation of one parsed keymap entry (keymaps.py, lines 59-77).

    A chord such as `"shift+ctrl+k"` is split on `+`; the modifier tokens
    (`shift`, `ctrl`, `alt`, `super`) are collected and sorted, the other
    tokens keep their relative order, and the chord is rejoined as the
    sorted modifiers followed by the other tokens, so `"ctrl+shift+k"`.
    A present context list is sorted; an absent one becomes `None`, which is
    not the empty list. */
module Normalizer {
  import opened Ordering
  import opened Sorting
  import opened Keybinding

  /** `MODIFIERS` of keymaps.py. */
  const Modifiers: seq<string> := ["shift", "ctrl", "alt", "super"]

  predicate IsModifier(token: string) {
    token in Modifiers
  }

  /** `'+'.join(parts)`. */
  function Join(parts: seq<string>): string {
    if parts == [] then ""
    else if |parts| == 1 then parts[0]
    else parts[0] + "+" + Join(parts[1..])
  }

  /** `s.split('+')`: the pieces between the `+` signs, empty pieces included. */
  function Split(s: string): (parts: seq<string>)
    ensures |parts| >= 1
    ensures forall p :: p in parts ==> '+' !in p
    ensures Join(parts) == s
    decreases |s|
  {
    if s == [] then [""]
    else
      var rest := Split(s[1..]);
      assert s == [s[0]] + s[1..];
      if s[0] == '+' then [""] + rest
      else
        assert |rest| > 1 ==> Join(rest) == rest[0] + "+" + Join(rest[1..]);
        [[s[0]] + rest[0]] + rest[1..]
  }

  lemma {:induction false} SplitPlain(p: string)
    requires '+' !in p
    ensures Split(p) == [p]
    decreases |p|
  {
    if p != [] {
      SplitPlain(p[1..]);
      assert p == [p[0]] + p[1..];
    }
  }

  lemma {:induction false} SplitAfter(p: string, rest: string)
    requires '+' !in p
    ensures Split(p + "+" + rest) == [p] + Split(rest)
    decreases |p|
  {
    if p == [] {
      assert p + "+" + rest == ['+'] + rest;
      assert (['+'] + rest)[1..] == rest;
    } else {
      assert (p + "+" + rest)[1..] == p[1..] + "+" + rest;
      SplitAfter(p[1..], rest);
      assert p == [p[0]] + p[1..];
    }
  }

  /** Splitting undoes joining pieces that contain no `+`. */
  lemma {:induction false} SplitJoin(parts: seq<string>)
    requires parts != []
    requires forall p :: p in parts ==> '+' !in p
    ensures Split(Join(parts)) == parts
    decreases |parts|
  {
    if |parts| == 1 {
      SplitPlain(parts[0]);
    } else {
      SplitJoin(parts[1..]);
      SplitAfter(parts[0], Join(parts[1..]));
      assert parts == [parts[0]] + parts[1..];
    }
  }

  /** The modifier tokens, in order (`cmod` before sorting). */
  function ModifierTokens(tokens: seq<string>): seq<string> {
    if tokens == [] then []
    else
      var last := tokens[|tokens| - 1];
      ModifierTokens(tokens[..|tokens| - 1]) + (if IsModifier(last) then [last] else [])
  }

  /** The other tokens, in order (`ckey`). */
  function KeyTokens(tokens: seq<string>): seq<string> {
    if tokens == [] then []
    else
      var last := tokens[|tokens| - 1];
      KeyTokens(tokens[..|tokens| - 1]) + (if IsModifier(last) then [] else [last])
  }

  lemma {:induction false} TokensSplit(tokens: seq<string>)
    ensures forall t :: t in ModifierTokens(tokens) ==> t in tokens && IsModifier(t)
    ensures forall t :: t in KeyTokens(tokens) ==> t in tokens && !IsModifier(t)
    ensures multiset(ModifierTokens(tokens)) + multiset(KeyTokens(tokens)) == multiset(tokens)
  {
    TokensMod(tokens);
    TokensKey(tokens);
    TokensMultiset(tokens);
  }

  lemma {:induction false} TokensMod(tokens: seq<string>)
    ensures forall t :: t in ModifierTokens(tokens) ==> t in tokens && IsModifier(t)
    decreases |tokens|
  {
    if tokens != [] {
      var init, last := tokens[..|tokens| - 1], tokens[|tokens| - 1];
      TokensMod(init);
      assert tokens == init + [last];
    }
  }

  lemma {:induction false} TokensKey(tokens: seq<string>)
    ensures forall t :: t in KeyTokens(tokens) ==> t in tokens && !IsModifier(t)
    decreases |tokens|
  {
    if tokens != [] {
      var init, last := tokens[..|tokens| - 1], tokens[|tokens| - 1];
      TokensKey(init);
      assert tokens == init + [last];
    }
  }

  lemma {:induction false} TokensMultiset(tokens: seq<string>)
    ensures multiset(ModifierTokens(tokens)) + multiset(KeyTokens(tokens)) == multiset(tokens)
    decreases |tokens|
  {
    if tokens != [] {
      var init, last := tokens[..|tokens| - 1], tokens[|tokens| - 1];
      TokensMultiset(init);
      assert tokens == init + [last];
      assert multiset(tokens) == multiset(init) + multiset{last};
      if IsModifier(last) {
        assert ModifierTokens(tokens) == ModifierTokens(init) + [last];
        assert KeyTokens(tokens) == KeyTokens(init) + [];
      } else {
        assert ModifierTokens(tokens) == ModifierTokens(init) + [];
        assert KeyTokens(tokens) == KeyTokens(init) + [last];
      }
    }
  }

  lemma {:induction false} TokensAppend(a: seq<string>, b: seq<string>)
    ensures ModifierTokens(a + b) == ModifierTokens(a) + ModifierTokens(b)
    ensures KeyTokens(a + b) == KeyTokens(a) + KeyTokens(b)
    decreases |b|
  {
    if b == [] {
      assert a + b == a;
    } else {
      var init, last := b[..|b| - 1], b[|b| - 1];
      assert (a + b)[..|a + b| - 1] == a + init;
      assert (a + b)[|a + b| - 1] == last;
      TokensAppend(a, init);
      var m := if IsModifier(last) then [last] else [];
      var k := if IsModifier(last) then [] else [last];
      assert ModifierTokens(a + b) == ModifierTokens(a) + ModifierTokens(init) + m;
      assert KeyTokens(a + b) == KeyTokens(a) + KeyTokens(init) + k;
    }
  }

  lemma {:induction false} TokensOfModifiers(tokens: seq<string>)
    requires forall t :: t in tokens ==> IsModifier(t)
    ensures ModifierTokens(tokens) == tokens && KeyTokens(tokens) == []
    decreases |tokens|
  {
    if tokens != [] {
      var init, last := tokens[..|tokens| - 1], tokens[|tokens| - 1];
      assert tokens == init + [last];
      assert IsModifier(last);
      TokensOfModifiers(init);
    }
  }

  lemma {:induction false} TokensOfKeys(tokens: seq<string>)
    requires forall t :: t in tokens ==> !IsModifier(t)
    ensures ModifierTokens(tokens) == [] && KeyTokens(tokens) == tokens
    decreases |tokens|
  {
    if tokens != [] {
      var init, last := tokens[..|tokens| - 1], tokens[|tokens| - 1];
      assert tokens == init + [last];
      assert !IsModifier(last);
      TokensOfKeys(init);
    }
  }

  /** The canonical form of one chord: sorted modifiers, then the other
      tokens in their original order. */
  function Canonical(chord: string): string {
    var tokens := Split(chord);
    Join(Sort(ModifierTokens(tokens), CompareStr) + KeyTokens(tokens))
  }

  /** Sorted modifiers followed by other tokens split back into the two. */
  lemma TokensOfCanonical(tokens: seq<string>)
    ensures var mods := Sort(ModifierTokens(tokens), CompareStr);
      && ModifierTokens(mods + KeyTokens(tokens)) == mods
      && KeyTokens(mods + KeyTokens(tokens)) == KeyTokens(tokens)
      && multiset(mods + KeyTokens(tokens)) == multiset(tokens)
  {
    var mods := Sort(ModifierTokens(tokens), CompareStr);
    var keys := KeyTokens(tokens);
    TokensSplit(tokens);
    SortPermutes(ModifierTokens(tokens), CompareStr);
    forall t | t in mods
      ensures IsModifier(t)
    {
      assert t in multiset(ModifierTokens(tokens));
    }
    TokensOfModifiers(mods);
    TokensOfKeys(keys);
    TokensAppend(mods, keys);
  }

  /** The tokens of a canonical chord are the sorted modifiers followed by
      the other tokens. */
  lemma CanonicalTokens(chord: string)
    ensures var tokens := Split(chord);
      Split(Canonical(chord)) == Sort(ModifierTokens(tokens), CompareStr) + KeyTokens(tokens)
  {
    var tokens := Split(chord);
    var parts := Sort(ModifierTokens(tokens), CompareStr) + KeyTokens(tokens);
    TokensOfCanonical(tokens);
    assert |multiset(parts)| == |parts| && |multiset(tokens)| == |tokens|;
    forall p | p in parts
      ensures '+' !in p
    {
      assert p in multiset(parts);
      assert p in tokens;
    }
    SplitJoin(parts);
  }

  /** Every modifier precedes every other token in modifiers + keys. */
  lemma ModifiersFirst(mods: seq<string>, keys: seq<string>)
    requires forall t :: t in mods ==> IsModifier(t)
    requires forall t :: t in keys ==> !IsModifier(t)
    ensures var parts := mods + keys;
      forall i, j :: 0 <= i < j < |parts| && IsModifier(parts[j]) ==> IsModifier(parts[i])
  {
    var parts := mods + keys;
    forall i, j | 0 <= i < j < |parts| && IsModifier(parts[j])
      ensures IsModifier(parts[i])
    {
      if j < |mods| {
        assert parts[i] == mods[i];
      }
    }
  }

  /** The shape of a canonical chord: every modifier precedes every other
      token, the modifiers are sorted, the other tokens are those of the
      input in their input order, and no token is gained or lost. */
  lemma CanonicalShape(chord: string)
    ensures var tokens, result := Split(chord), Split(Canonical(chord));
      && (forall i, j :: 0 <= i < j < |result| && IsModifier(result[j]) ==> IsModifier(result[i]))
      && ModifierTokens(result) == Sort(ModifierTokens(tokens), CompareStr)
      && Sorted(ModifierTokens(result), CompareStr)
      && KeyTokens(result) == KeyTokens(tokens)
      && multiset(result) == multiset(tokens)
  {
    var tokens := Split(chord);
    var mods := Sort(ModifierTokens(tokens), CompareStr);
    var keys := KeyTokens(tokens);
    CanonicalTokens(chord);
    TokensOfCanonical(tokens);
    TokensSplit(mods + keys);
    ModifiersFirst(ModifierTokens(mods + keys), KeyTokens(mods + keys));
    CompareStrLawful();
    SortIsSorted(ModifierTokens(tokens), CompareStr);
  }

  /** Normalising a normalised chord changes nothing. */
  lemma CanonicalIdempotent(chord: string)
    ensures Canonical(Canonical(chord)) == Canonical(chord)
  {
    var tokens := Split(chord);
    CanonicalShape(chord);
    CompareStrLawful();
    SortSorted(Sort(ModifierTokens(tokens), CompareStr), CompareStr);
  }

  /** Two chords with the same modifiers, in whatever order, and the same
      other tokens in the same order normalise to the same chord. */
  lemma CanonicalIgnoresModifierOrder(chord1: string, chord2: string)
    requires multiset(ModifierTokens(Split(chord1))) == multiset(ModifierTokens(Split(chord2)))
    requires KeyTokens(Split(chord1)) == KeyTokens(Split(chord2))
    ensures Canonical(chord1) == Canonical(chord2)
  {
    CompareStrLawful();
    SortForgetsOrder(ModifierTokens(Split(chord1)), ModifierTokens(Split(chord2)), CompareStr);
  }

  /** A chord of three `+`-free tokens splits into those tokens. */
  lemma SplitThree(x: string, y: string, z: string)
    requires '+' !in x && '+' !in y && '+' !in z
    ensures Split(x + "+" + y + "+" + z) == [x, y, z]
  {
    SplitPlain(z);
    SplitAfter(y, z);
    assert Split(y + "+" + z) == [y, z];
    SplitAfter(x, y + "+" + z);
    assert x + "+" + y + "+" + z == x + "+" + (y + "+" + z);
  }

  /** The canonical form of a chord of three `+`-free tokens. */
  lemma CanonicalThree(x: string, y: string, z: string)
    requires '+' !in x && '+' !in y && '+' !in z
    ensures Canonical(x + "+" + y + "+" + z) ==
      Join(Sort(ModifierTokens([x, y, z]), CompareStr) + KeyTokens([x, y, z]))
  {
    SplitThree(x, y, z);
  }

  /** The modifier and other tokens of three tokens. */
  lemma TokensThree(x: string, y: string, z: string)
    ensures ModifierTokens([x, y, z]) ==
      (if IsModifier(x) then [x] else []) + (if IsModifier(y) then [y] else []) + (if IsModifier(z) then [z] else [])
    ensures KeyTokens([x, y, z]) ==
      (if IsModifier(x) then [] else [x]) + (if IsModifier(y) then [] else [y]) + (if IsModifier(z) then [] else [z])
  {
    assert [x, y, z][..2] == [x, y] && [x, y][..1] == [x] && [x][..0] == [];
    assert ModifierTokens([x]) == (if IsModifier(x) then [x] else []);
    assert KeyTokens([x]) == (if IsModifier(x) then [] else [x]);
    assert ModifierTokens([x, y]) == ModifierTokens([x]) + (if IsModifier(y) then [y] else []);
    assert KeyTokens([x, y]) == KeyTokens([x]) + (if IsModifier(y) then [] else [y]);
  }

  /** Joining three tokens. */
  lemma JoinThree(x: string, y: string, z: string)
    ensures Join([x, y, z]) == x + "+" + y + "+" + z
  {
    assert [x, y, z][1..] == [y, z] && [y, z][1..] == [z];
    assert Join([y, z]) == y + "+" + z;
    assert x + "+" + (y + "+" + z) == x + "+" + y + "+" + z;
  }

  lemma ModifierHasNoPlus(m: string)
    requires IsModifier(m)
    ensures '+' !in m
  {
  }

  /** The tokens of two modifiers followed by a key. */
  lemma TokensModifiersThenKey(m1: string, m2: string, k: string)
    requires IsModifier(m1) && IsModifier(m2) && '+' !in k && !IsModifier(k)
    ensures Split(m1 + "+" + m2 + "+" + k) == [m1, m2, k]
    ensures ModifierTokens([m1, m2, k]) == [m1, m2] && KeyTokens([m1, m2, k]) == [k]
  {
    ModifierHasNoPlus(m1);
    ModifierHasNoPlus(m2);
    SplitThree(m1, m2, k);
    TokensThree(m1, m2, k);
  }

  /** The tokens of a key followed by two modifiers. */
  lemma TokensKeyThenModifiers(m1: string, m2: string, k: string)
    requires IsModifier(m1) && IsModifier(m2) && '+' !in k && !IsModifier(k)
    ensures Split(k + "+" + m1 + "+" + m2) == [k, m1, m2]
    ensures ModifierTokens([k, m1, m2]) == [m1, m2] && KeyTokens([k, m1, m2]) == [k]
  {
    ModifierHasNoPlus(m1);
    ModifierHasNoPlus(m2);
    SplitThree(k, m1, m2);
    TokensThree(k, m1, m2);
  }

  /** A chord whose modifiers are already in sort order and precede its one
      key is canonical. */
  lemma CanonicalInOrder(m1: string, m2: string, k: string)
    requires Split(m1 + "+" + m2 + "+" + k) == [m1, m2, k]
    requires ModifierTokens([m1, m2, k]) == [m1, m2] && KeyTokens([m1, m2, k]) == [k]
    requires CompareStr(m1, m2) == Less
    ensures Canonical(m1 + "+" + m2 + "+" + k) == m1 + "+" + m2 + "+" + k
  {
    CompareStrLawful();
    assert Sorted([m1, m2], CompareStr);
    SortSorted([m1, m2], CompareStr);
    assert Sort(ModifierTokens([m1, m2, k]), CompareStr) + KeyTokens([m1, m2, k]) == [m1, m2, k];
    JoinThree(m1, m2, k);
  }

  /** Two modifiers out of order, then a key: the modifiers are sorted. */
  lemma CanonicalSortsModifiers(m1: string, m2: string, k: string)
    requires IsModifier(m1) && IsModifier(m2) && CompareStr(m1, m2) == Less
    requires '+' !in k && !IsModifier(k)
    ensures Canonical(m2 + "+" + m1 + "+" + k) == m1 + "+" + m2 + "+" + k
  {
    TokensModifiersThenKey(m1, m2, k);
    TokensModifiersThenKey(m2, m1, k);
    CanonicalInOrder(m1, m2, k);
    assert multiset([m2, m1]) == multiset([m1, m2]);
    CanonicalIgnoresModifierOrder(m2 + "+" + m1 + "+" + k, m1 + "+" + m2 + "+" + k);
  }

  /** A key, then two modifiers: the modifiers move in front of the key. */
  lemma CanonicalModifiersFirst(m1: string, m2: string, k: string)
    requires IsModifier(m1) && IsModifier(m2) && CompareStr(m1, m2) == Less
    requires '+' !in k && !IsModifier(k)
    ensures Canonical(k + "+" + m1 + "+" + m2) == m1 + "+" + m2 + "+" + k
  {
    TokensModifiersThenKey(m1, m2, k);
    TokensKeyThenModifiers(m1, m2, k);
    CanonicalInOrder(m1, m2, k);
    CanonicalIgnoresModifierOrder(k + "+" + m1 + "+" + m2, m1 + "+" + m2 + "+" + k);
  }

  /** `shift+ctrl+k`, `ctrl+shift+k` and `k+ctrl+shift` all normalise to
      `ctrl+shift+k`, for any key `k` that is not a modifier. */
  lemma ExampleCtrlShift(k: string)
    requires '+' !in k && !IsModifier(k)
    ensures Canonical("shift" + "+" + "ctrl" + "+" + k) == "ctrl" + "+" + "shift" + "+" + k
    ensures Canonical("ctrl" + "+" + "shift" + "+" + k) == "ctrl" + "+" + "shift" + "+" + k
    ensures Canonical(k + "+" + "ctrl" + "+" + "shift") == "ctrl" + "+" + "shift" + "+" + k
  {
    assert IsModifier("ctrl") && IsModifier("shift");
    assert CompareStr("ctrl", "shift") == Less;
    TokensModifiersThenKey("ctrl", "shift", k);
    CanonicalInOrder("ctrl", "shift", k);
    CanonicalSortsModifiers("ctrl", "shift", k);
    CanonicalModifiersFirst("ctrl", "shift", k);
  }

  /** One step of the loop of keymaps.py over the tokens of a chord: sorting
      after every append ends where one final sort would. */
  lemma ChordStep(comp: seq<string>, i: nat, cmod: seq<string>, ckey: seq<string>)
    requires i < |comp|
    requires cmod == Sort(ModifierTokens(comp[..i]), CompareStr)
    requires ckey == KeyTokens(comp[..i])
    ensures IsModifier(comp[i]) ==>
      Sort(cmod + [comp[i]], CompareStr) == Sort(ModifierTokens(comp[..i + 1]), CompareStr)
      && ckey == KeyTokens(comp[..i + 1])
    ensures !IsModifier(comp[i]) ==>
      Sort(cmod, CompareStr) == Sort(ModifierTokens(comp[..i + 1]), CompareStr)
      && ckey + [comp[i]] == KeyTokens(comp[..i + 1])
  {
    var extra := if IsModifier(comp[i]) then [comp[i]] else [];
    var done := ModifierTokens(comp[..i]);
    assert comp[..i + 1][..i] == comp[..i];
    assert ModifierTokens(comp[..i + 1]) == done + extra;
    assert cmod + extra == if IsModifier(comp[i]) then cmod + [comp[i]] else cmod;
    CompareStrLawful();
    SortPermutes(done, CompareStr);
    SortForgetsOrder(cmod + extra, done + extra, CompareStr);
  }

  /** The loop of keymaps.py over the tokens of one chord. */
  method NormalizeChord(chord: string) returns (normalized: string)
    ensures normalized == Canonical(chord)
  {
    var comp := Split(chord);
    var cmod: seq<string>, ckey: seq<string> := [], [];
    var i := 0;
    while i < |comp|
      invariant 0 <= i <= |comp|
      invariant cmod == Sort(ModifierTokens(comp[..i]), CompareStr)
      invariant ckey == KeyTokens(comp[..i])
    {
      var c := comp[i];
      ChordStep(comp, i, cmod, ckey);
      if IsModifier(c) {
        cmod := cmod + [c];
      } else {
        ckey := ckey + [c];
      }
      cmod := Sort(cmod, CompareStr);
      i := i + 1;
    }
    assert comp[..i] == comp;
    normalized := Join(cmod + ckey);
  }

  /** The context list after normalisation. */
  function CanonicalContext(context: Option<seq<string>>): Option<seq<string>> {
    match context
    case None => None
    case Some(list) => Some(Sort(list, CompareStr))
  }

  /** A present context list comes out sorted with the same elements; an
      absent one comes out absent, and a present empty list stays present. */
  lemma CanonicalContextShape(context: Option<seq<string>>)
    ensures CanonicalContext(context).None? <==> context.None?
    ensures context.Some? ==>
      && Sorted(CanonicalContext(context).value, CompareStr)
      && multiset(CanonicalContext(context).value) == multiset(context.value)
    ensures context == Some([]) ==> CanonicalContext(context) == Some([]) != None
  {
    CompareStrLawful();
    if context.Some? {
      SortIsSorted(context.value, CompareStr);
    }
  }

  /** Context lists that are permutations of each other normalise alike. */
  lemma CanonicalContextIgnoresOrder(a: seq<string>, b: seq<string>)
    requires multiset(a) == multiset(b)
    ensures CanonicalContext(Some(a)) == CanonicalContext(Some(b))
  {
    CompareStrLawful();
    SortForgetsOrder(a, b, CompareStr);
  }

  /** The record a parsed binding becomes once it is tagged with package
      `pkg`: every chord in canonical form and the context normalised. */
  function Normalized(r: Record, pkg: string): Record {
    Record(seq(|r.keys|, i requires 0 <= i < |r.keys| => Canonical(r.keys[i])), r.command, CanonicalContext(r.context), pkg)
  }

  /** Normalising a normalised binding changes nothing, so bindings compared
      by the reports are already in normal form. */
  lemma NormalizedIdempotent(r: Record, pkg: string)
    ensures Normalized(Normalized(r, pkg), pkg) == Normalized(r, pkg)
  {
    var n := Normalized(r, pkg);
    forall i | 0 <= i < |n.keys|
      ensures Canonical(n.keys[i]) == n.keys[i]
    {
      CanonicalIdempotent(r.keys[i]);
    }
    if r.context.Some? {
      CompareStrLawful();
      CanonicalContextShape(r.context);
      SortSorted(n.context.value, CompareStr);
    }
  }

  /** One parsed keymap entry, which keymaps.py updates in place. */
  class Entry {
    var keys: seq<string>
    var command: string
    var context: Option<seq<string>>
    var package: string

    /** An entry as parsed from a keymap file, before it is tagged with its
        package. An entry without a `context` key has `context == None`. */
    constructor (keys: seq<string>, command: string, context: Option<seq<string>>)
      ensures this.keys == keys && this.command == command && this.context == context
      ensures package == ""
    {
      this.keys := keys;
      this.command := command;
      this.context := context;
      package := "";
    }

    /** Tags the entry with its package, sorts its context and normalises
        every chord in place. */
    method Normalize(pkg: string)
      modifies this
      ensures package == pkg && command == old(command)
      ensures context == CanonicalContext(old(context))
      ensures |keys| == |old(keys)|
      ensures forall i :: 0 <= i < |keys| ==> keys[i] == Canonical(old(keys)[i])
      ensures AsRecord() == Normalized(old(AsRecord()), pkg)
    {
      package := pkg;
      if context.Some? {
        context := Some(Sort(context.value, CompareStr));
      } else {
        context := None;
      }
      ghost var chords := keys;
      var i := 0;
      while i < |keys|
        invariant |keys| == |chords| && i <= |keys|
        invariant package == pkg && command == old(command)
        invariant context == CanonicalContext(old(context))
        invariant forall k :: 0 <= k < |keys| ==> keys[k] == if k < i then Canonical(chords[k]) else chords[k]
      {
        var chord := NormalizeChord(keys[i]);
        keys := keys[i := chord];
        i := i + 1;
      }
    }

    /** The record the reports work on. */
    function AsRecord(): Record
      reads this
    {
      Record(keys, command, context, package)
    }
  }
}
