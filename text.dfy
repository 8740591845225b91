/**
 * Text helpers shared by the catalog and the bill store: the order in which
 * SQLite's default BINARY collation sorts product names, and the substring
 * test that a `LIKE '%q%'` pattern performs.
 *
 * Characters are Unicode scalar values; comparing them by code point gives
 * the same order as comparing their UTF-8 encodings byte by byte, which is
 * what the BINARY collation does.
 */
module Text {

  /** Strict lexicographic order on strings: `a` sorts before `b`. */
  predicate NameLess(a: string, b: string)
    decreases |a|
  {
    if a == [] then b != []
    else if b == [] then false
    else if a[0] != b[0] then a[0] < b[0]
    else NameLess(a[1..], b[1..])
  }

  lemma {:induction false} NameLessIrreflexive(a: string)
    ensures !NameLess(a, a)
    decreases |a|
  {
    if a != [] {
      NameLessIrreflexive(a[1..]);
    }
  }

  lemma {:induction false} NameLessTransitive(a: string, b: string, c: string)
    requires NameLess(a, b) && NameLess(b, c)
    ensures NameLess(a, c)
    decreases |a|
  {
    if a != [] && b != [] && c != [] && a[0] == b[0] && b[0] == c[0] {
      NameLessTransitive(a[1..], b[1..], c[1..]);
    }
  }

  /** Two different names are always ordered one way or the other. */
  lemma {:induction false} NameLessTotal(a: string, b: string)
    requires a != b
    ensures NameLess(a, b) || NameLess(b, a)
    decreases |a|
  {
    if a != [] && b != [] && a[0] == b[0] {
      assert a == [a[0]] + a[1..] && b == [b[0]] + b[1..];
      NameLessTotal(a[1..], b[1..]);
    }
  }

  /** `q` occurs in `s` as a contiguous substring (the empty query occurs everywhere). */
  predicate Contains(s: string, q: string)
  {
    exists i | 0 <= i <= |s| - |q| :: OccursAt(s, q, i)
  }

  /** `q` occurs in `s` starting at position `i`. */
  predicate OccursAt(s: string, q: string, i: int)
  {
    0 <= i && i + |q| <= |s| && s[i..i + |q|] == q
  }

  /** A string placed between any prefix and suffix is found by the substring test. */
  lemma ContainsInfix(pre: string, q: string, post: string)
    ensures Contains(pre + q + post, q)
  {
    var s := pre + q + post;
    assert s[|pre|..|pre| + |q|] == q;
    assert OccursAt(s, q, |pre|);
  }
}
