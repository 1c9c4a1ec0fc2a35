/** Three-way comparison and the orders in which keybinding fields compare.

    The sort keys of the reports are tuples of strings, lists of strings and
    an optional context list. They compare the way Python 2 compares them:
    element by element, a proper prefix before any longer sequence, and
    `None` before any list. */
module Ordering {

  datatype Option<T> = None | Some(value: T)

  /** The outcome of comparing two values. */
  datatype Cmp = Less | Equal | Greater

  function Flip(c: Cmp): Cmp {
    match c
    case Less => Greater
    case Equal => Equal
    case Greater => Less
  }

  /** Lexicographic combination: `second` only decides a tie in `first`. */
  function Then(first: Cmp, second: Cmp): Cmp {
    if first == Equal then second else first
  }

  /** `cmp` is a strict total order whose ties are exactly the equal values. */
  ghost predicate Lawful<T(!new)>(cmp: (T, T) -> Cmp) {
    (forall x, y :: cmp(x, y) == Equal <==> x == y) &&
    (forall x, y {:trigger cmp(x, y), cmp(y, x)} :: cmp(y, x) == Flip(cmp(x, y))) &&
    (forall x, y, z {:trigger cmp(x, y), cmp(y, z), cmp(x, z)} ::
      cmp(x, y) == Less && cmp(y, z) == Less ==> cmp(x, z) == Less)
  }

  /** Lexicographic order of sequences, as Python compares lists and strings. */
  function Lex<T>(a: seq<T>, b: seq<T>, cmp: (T, T) -> Cmp): Cmp
    decreases |a|
  {
    if a == [] then (if b == [] then Equal else Less)
    else if b == [] then Greater
    else Then(cmp(a[0], b[0]), Lex(a[1..], b[1..], cmp))
  }

  lemma {:induction false} LexEqual<T(!new)>(a: seq<T>, b: seq<T>, cmp: (T, T) -> Cmp)
    requires Lawful(cmp)
    ensures Lex(a, b, cmp) == Equal <==> a == b
    decreases |a|
  {
    if a != [] && b != [] {
      LexEqual(a[1..], b[1..], cmp);
      assert a == [a[0]] + a[1..];
      assert b == [b[0]] + b[1..];
    }
  }

  lemma {:induction false} LexFlip<T(!new)>(a: seq<T>, b: seq<T>, cmp: (T, T) -> Cmp)
    requires Lawful(cmp)
    ensures Lex(b, a, cmp) == Flip(Lex(a, b, cmp))
    decreases |a|
  {
    if a != [] && b != [] {
      LexFlip(a[1..], b[1..], cmp);
    }
  }

  lemma {:induction false} LexTrans<T(!new)>(a: seq<T>, b: seq<T>, c: seq<T>, cmp: (T, T) -> Cmp)
    requires Lawful(cmp)
    requires Lex(a, b, cmp) == Less && Lex(b, c, cmp) == Less
    ensures Lex(a, c, cmp) == Less
    decreases |a|
  {
    if a != [] {
      assert b != [] && c != [];
      if cmp(a[0], b[0]) == Equal && cmp(b[0], c[0]) == Equal {
        LexTrans(a[1..], b[1..], c[1..], cmp);
      }
    }
  }

  /** A sequence sorts before every longer sequence that extends it. */
  lemma {:induction false} LexPrefix<T(!new)>(a: seq<T>, rest: seq<T>, cmp: (T, T) -> Cmp)
    requires Lawful(cmp)
    requires rest != []
    ensures Lex(a, a + rest, cmp) == Less
    decreases |a|
  {
    if a != [] {
      assert (a + rest)[1..] == a[1..] + rest;
      LexPrefix(a[1..], rest, cmp);
    }
  }

  function CompareChar(x: char, y: char): Cmp {
    if x < y then Less else if x == y then Equal else Greater
  }

  /** Python's string comparison: code point by code point. */
  function CompareStr(a: string, b: string): Cmp {
    Lex(a, b, CompareChar)
  }

  /** Python's comparison of a list of strings (a chord sequence, a context list). */
  function CompareStrLists(a: seq<string>, b: seq<string>): Cmp {
    Lex(a, b, CompareStr)
  }

  /** A missing context (`None`) sorts before every present context list. */
  function CompareContext(a: Option<seq<string>>, b: Option<seq<string>>): Cmp {
    match (a, b)
    case (None, None) => Equal
    case (None, Some(_)) => Less
    case (Some(_), None) => Greater
    case (Some(x), Some(y)) => CompareStrLists(x, y)
  }

  lemma CompareCharLawful()
    ensures Lawful(CompareChar)
  {
  }

  lemma CompareStrLawful()
    ensures Lawful(CompareStr)
  {
    CompareCharLawful();
    forall x: string, y: string
      ensures CompareStr(x, y) == Equal <==> x == y
    {
      LexEqual(x, y, CompareChar);
    }
    forall x: string, y: string
      ensures CompareStr(y, x) == Flip(CompareStr(x, y))
    {
      LexFlip(x, y, CompareChar);
    }
    forall x: string, y: string, z: string | CompareStr(x, y) == Less && CompareStr(y, z) == Less
      ensures CompareStr(x, z) == Less
    {
      LexTrans(x, y, z, CompareChar);
    }
  }

  lemma CompareStrListsLawful()
    ensures Lawful(CompareStrLists)
  {
    CompareStrLawful();
    forall x: seq<string>, y: seq<string>
      ensures CompareStrLists(x, y) == Equal <==> x == y
    {
      LexEqual(x, y, CompareStr);
    }
    forall x: seq<string>, y: seq<string>
      ensures CompareStrLists(y, x) == Flip(CompareStrLists(x, y))
    {
      LexFlip(x, y, CompareStr);
    }
    forall x: seq<string>, y: seq<string>, z: seq<string> | CompareStrLists(x, y) == Less && CompareStrLists(y, z) == Less
      ensures CompareStrLists(x, z) == Less
    {
      LexTrans(x, y, z, CompareStr);
    }
  }

  lemma CompareContextLawful()
    ensures Lawful(CompareContext)
  {
    CompareStrListsLawful();
  }
}
