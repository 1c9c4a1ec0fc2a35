/** The ignored-package filter of the report commands (keymaps.py, lines
    91-92): bindings declared by a package that the editor settings list as
    ignored are dropped before any report is built. Package names compare
    case-insensitively: both sides are lower-cased. */
module IgnoredPackages {
  import opened Ordering
  import opened Keybinding

  /** `c.lower()` for one character: ASCII capitals become small letters. */
  function LowerChar(c: char): char {
    if 'A' <= c <= 'Z' then (c as int - 'A' as int + 'a' as int) as char else c
  }

  /** `s.lower()`. */
  function Lower(s: string): string {
    if s == [] then [] else [LowerChar(s[0])] + Lower(s[1..])
  }

  /** `[i.lower() for i in ignored]`. */
  function LowerAll(names: seq<string>): seq<string> {
    if names == [] then [] else [Lower(names[0])] + LowerAll(names[1..])
  }

  /** `package.lower() in ignoredpackages`. */
  predicate IsIgnored(package: string, ignored: seq<string>) {
    Lower(package) in LowerAll(ignored)
  }

  /** `[kb for kb in result if kb['package'].lower() not in ignoredpackages]`. */
  function WithoutIgnored(records: seq<Record>, ignored: seq<string>): seq<Record> {
    if records == [] then []
    else
      (if IsIgnored(records[0].package, ignored) then [] else [records[0]])
        + WithoutIgnored(records[1..], ignored)
  }

  lemma {:induction false} LowerLength(s: string)
    ensures |Lower(s)| == |s|
    decreases |s|
  {
    if s != [] {
      LowerLength(s[1..]);
    }
  }

  lemma {:induction false} LowerAt(s: string, i: nat)
    requires i < |s|
    ensures |Lower(s)| == |s| && Lower(s)[i] == LowerChar(s[i])
    decreases i
  {
    LowerLength(s);
    if i > 0 {
      LowerAt(s[1..], i - 1);
    }
  }

  /** Lower-casing is idempotent and leaves no capital letter. */
  lemma LowerIdempotent(s: string)
    ensures Lower(Lower(s)) == Lower(s)
    ensures forall c :: c in Lower(s) ==> !('A' <= c <= 'Z')
  {
    LowerLength(s);
    LowerLength(Lower(s));
    forall i | 0 <= i < |s|
      ensures Lower(Lower(s))[i] == Lower(s)[i] && !('A' <= Lower(s)[i] <= 'Z')
    {
      LowerAt(s, i);
      LowerAt(Lower(s), i);
    }
  }

  lemma {:induction false} LowerAllMember(names: seq<string>, p: string)
    ensures p in LowerAll(names) <==> exists q :: q in names && Lower(q) == p
    decreases |names|
  {
    if names != [] {
      LowerAllMember(names[1..], p);
      assert LowerAll(names) == [Lower(names[0])] + LowerAll(names[1..]);
      if p in LowerAll(names) && p != Lower(names[0]) {
        var q :| q in names[1..] && Lower(q) == p;
        assert q in names;
      }
      if exists q :: q in names && Lower(q) == p {
        var q :| q in names && Lower(q) == p;
        if q != names[0] {
          assert q in names[1..];
        }
      }
    }
  }

  /** A package is ignored exactly when some ignored name equals it up to
      case. */
  lemma IgnoredUpToCase(package: string, ignored: seq<string>)
    ensures IsIgnored(package, ignored) <==> exists q :: q in ignored && Lower(q) == Lower(package)
  {
    LowerAllMember(ignored, Lower(package));
  }

  /** The filter keeps a record exactly when it is in the input and its
      package is not ignored, and keeps it as often as the input holds it. */
  lemma {:induction false} WithoutIgnoredCount(records: seq<Record>, ignored: seq<string>, r: Record)
    ensures multiset(WithoutIgnored(records, ignored))[r] ==
      if IsIgnored(r.package, ignored) then 0 else multiset(records)[r]
    decreases |records|
  {
    if records != [] {
      var head, tail := records[0], records[1..];
      WithoutIgnoredCount(tail, ignored, r);
      assert records == [head] + tail;
      assert multiset(records)[r] == multiset([head])[r] + multiset(tail)[r];
      if IsIgnored(head.package, ignored) {
        assert WithoutIgnored(records, ignored) == WithoutIgnored(tail, ignored);
      } else {
        assert WithoutIgnored(records, ignored) == [head] + WithoutIgnored(tail, ignored);
        assert multiset(WithoutIgnored(records, ignored))[r] ==
          multiset([head])[r] + multiset(WithoutIgnored(tail, ignored))[r];
      }
    }
  }

  lemma WithoutIgnoredMember(records: seq<Record>, ignored: seq<string>, r: Record)
    ensures r in WithoutIgnored(records, ignored) <==> r in records && !IsIgnored(r.package, ignored)
  {
    WithoutIgnoredCount(records, ignored, r);
    assert r in WithoutIgnored(records, ignored) <==> r in multiset(WithoutIgnored(records, ignored));
    assert r in records <==> r in multiset(records);
  }

  /** The filter works record by record, so it keeps the input order: it
      distributes over concatenation. */
  lemma {:induction false} WithoutIgnoredAppend(a: seq<Record>, b: seq<Record>, ignored: seq<string>)
    ensures WithoutIgnored(a + b, ignored) == WithoutIgnored(a, ignored) + WithoutIgnored(b, ignored)
    decreases |a|
  {
    if a != [] {
      WithoutIgnoredAppend(a[1..], b, ignored);
      assert (a + b)[1..] == a[1..] + b;
    } else {
      assert a + b == b;
    }
  }

  /** A binding of package `Vim` is dropped when `vim` is ignored; a binding
      of another package is kept. */
  lemma IgnoredExample()
    ensures var r1 := Record(["ctrl+k"], "noop", None, "Vim");
      var r2 := Record(["ctrl+k"], "noop", None, "Go");
      WithoutIgnored([r1, r2], ["vim"]) == [r2]
  {
    var r1 := Record(["ctrl+k"], "noop", None, "Vim");
    var r2 := Record(["ctrl+k"], "noop", None, "Go");
    assert Lower("vim") == "vim";
    assert Lower("Vim") == "vim";
    assert Lower("Go") == "go";
    assert LowerAll(["vim"]) == ["vim"];
    assert IsIgnored(r1.package, ["vim"]);
    assert !IsIgnored(r2.package, ["vim"]);
    assert [r1, r2][1..] == [r2];
    assert WithoutIgnored([r2], ["vim"]) == [r2];
  }
}
