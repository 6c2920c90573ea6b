/**
 * Python's string order and `sorted(..., key=...)`, for the orderings of
 * techsubs/subreddits.py: the category table sorted by key, and the catalog
 * sorted by lower-cased name.
 */
module Sorting {

  /** `a < b` on Python strings: code point by code point, a proper prefix first. */
  predicate StrLess(a: string, b: string)
    decreases |a|
  {
    if a == [] then b != []
    else if b == [] then false
    else if a[0] != b[0] then a[0] < b[0]
    else StrLess(a[1..], b[1..])
  }

  lemma {:induction false} StrLessIrreflexive(a: string)
    ensures !StrLess(a, a)
    decreases |a|
  {
    if a != [] {
      StrLessIrreflexive(a[1..]);
    }
  }

  lemma {:induction false} StrLessTransitive(a: string, b: string, c: string)
    requires StrLess(a, b) && StrLess(b, c)
    ensures StrLess(a, c)
    decreases |a|
  {
    if a != [] && b != [] && c != [] && a[0] == b[0] && b[0] == c[0] {
      StrLessTransitive(a[1..], b[1..], c[1..]);
    }
  }

  lemma {:induction false} StrLessTotal(a: string, b: string)
    ensures StrLess(a, b) || StrLess(b, a) || a == b
    decreases |a|
  {
    if a != [] && b != [] && a[0] == b[0] {
      StrLessTotal(a[1..], b[1..]);
      if a[1..] == b[1..] {
        assert a == [a[0]] + a[1..] && b == [b[0]] + b[1..];
      }
    }
  }

  /** "Not greater" is transitive, by totality. */
  lemma StrNotLessTransitive(a: string, b: string, c: string)
    requires !StrLess(b, a) && !StrLess(c, b)
    ensures !StrLess(c, a)
  {
    StrLessTotal(a, b);
    if StrLess(c, a) && StrLess(a, b) {
      StrLessTransitive(c, a, b);
    }
  }

  /** ASCII `str.lower()`. */
  function LowerChar(c: char): char {
    if 'A' <= c <= 'Z' then (c as int + 32) as char else c
  }

  function Lower(s: string): (r: string)
    ensures |r| == |s|
    ensures forall i :: 0 <= i < |s| ==> r[i] == LowerChar(s[i])
  {
    seq(|s|, i requires 0 <= i < |s| => LowerChar(s[i]))
  }

  /** Ordered by `key`: no element's key is below an earlier one's. */
  predicate SortedBy<T>(xs: seq<T>, key: T -> string) {
    forall i, j :: 0 <= i < j < |xs| ==> !StrLess(key(xs[j]), key(xs[i]))
  }

  /** Insertion of `x` after every element whose key is not above `x`'s (stable). */
  function InsertBy<T>(s: seq<T>, x: T, key: T -> string): (r: seq<T>)
    ensures multiset(r) == multiset(s) + multiset{x}
    decreases |s|
  {
    if s == [] || !StrLess(key(x), key(s[|s| - 1])) then s + [x]
    else
      assert s == s[..|s| - 1] + [s[|s| - 1]];
      InsertBy(s[..|s| - 1], x, key) + [s[|s| - 1]]
  }

  /** `sorted(xs, key=key)`: insertion sort, keeping equal keys in their original order. */
  function SortBy<T>(xs: seq<T>, key: T -> string): (r: seq<T>)
    ensures multiset(r) == multiset(xs)
    decreases |xs|
  {
    if xs == [] then []
    else
      assert xs == xs[..|xs| - 1] + [xs[|xs| - 1]];
      InsertBy(SortBy(xs[..|xs| - 1], key), xs[|xs| - 1], key)
  }

  lemma {:induction false} InsertBySorted<T>(s: seq<T>, x: T, key: T -> string)
    requires SortedBy(s, key)
    ensures SortedBy(InsertBy(s, x, key), key)
    decreases |s|
  {
    var r := InsertBy(s, x, key);
    if s == [] {
    } else if !StrLess(key(x), key(s[|s| - 1])) {
      var last := s[|s| - 1];
      forall i, j | 0 <= i < j < |r|
        ensures !StrLess(key(r[j]), key(r[i]))
      {
        if j == |s| {
          if i < |s| - 1 {
            StrNotLessTransitive(key(s[i]), key(last), key(x));
          }
        }
      }
    } else {
      var init := s[..|s| - 1];
      var last := s[|s| - 1];
      assert SortedBy(init, key);
      InsertBySorted(init, x, key);
      var r0 := InsertBy(init, x, key);
      assert r == r0 + [last];
      forall i, j | 0 <= i < j < |r|
        ensures !StrLess(key(r[j]), key(r[i]))
      {
        if j == |r0| {
          assert r[i] in multiset(r0);
          assert r[i] in multiset(init) + multiset{x};
          if r[i] == x {
            StrLessTotal(key(x), key(last));
            if StrLess(key(last), key(x)) {
              StrLessTransitive(key(x), key(last), key(x));
              StrLessIrreflexive(key(x));
            }
          } else {
            assert r[i] in init;
          }
        }
      }
    }
  }

  lemma {:induction false} SortBySorted<T>(xs: seq<T>, key: T -> string)
    ensures SortedBy(SortBy(xs, key), key)
    decreases |xs|
  {
    if xs != [] {
      SortBySorted(xs[..|xs| - 1], key);
      InsertBySorted(SortBy(xs[..|xs| - 1], key), xs[|xs| - 1], key);
    }
  }

  /** Sorting keeps exactly the elements it was given. */
  lemma SortByMembers<T>(xs: seq<T>, key: T -> string, x: T)
    ensures x in SortBy(xs, key) <==> x in xs
  {
    assert x in SortBy(xs, key) <==> x in multiset(SortBy(xs, key));
    assert x in xs <==> x in multiset(xs);
  }
}
