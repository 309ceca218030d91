/**
 * Python's `list.sort()` and `sorted()`: a stable sort, written as insertion sort over a
 * relation `le` ("at or below") that relates every pair one way or the other.
 */
module Sorting {

  /** `le` relates every pair of values one way or the other. */
  ghost predicate Total<T(!new)>(le: (T, T) -> bool) {
    forall a, b :: le(a, b) || le(b, a)
  }

  /** Each element is at or below its successor. */
  predicate SortedBy<T>(le: (T, T) -> bool, s: seq<T>) {
    forall i :: 0 < i < |s| ==> le(s[i - 1], s[i])
  }

  /** Puts `x` after every trailing element of `t` that is at or below it, so equal elements keep their order. */
  function Insert<T(!new)>(le: (T, T) -> bool, t: seq<T>, x: T): (r: seq<T>)
    requires Total(le) && SortedBy(le, t)
    ensures |r| == |t| + 1
    ensures SortedBy(le, r)
    ensures multiset(r) == multiset(t) + multiset{x}
    ensures r[|r| - 1] == x || (|t| > 0 && r[|r| - 1] == t[|t| - 1])
    decreases |t|
  {
    if t == [] || le(t[|t| - 1], x) then t + [x]
    else
      var init := t[..|t| - 1];
      assert t == init + [t[|t| - 1]];
      Insert(le, init, x) + [t[|t| - 1]]
  }

  /** The stable sort: each element is inserted, left to right, after the equal ones before it. */
  function Sort<T(!new)>(le: (T, T) -> bool, s: seq<T>): (r: seq<T>)
    requires Total(le)
    ensures SortedBy(le, r)
    ensures multiset(r) == multiset(s)
    decreases |s|
  {
    if s == [] then []
    else
      assert s == s[..|s| - 1] + [s[|s| - 1]];
      Insert(le, Sort(le, s[..|s| - 1]), s[|s| - 1])
  }

  /** Integers in ascending order. */
  predicate IntLe(a: int, b: int) {
    a <= b
  }

  lemma IntLeTotal()
    ensures Total(IntLe)
  {
  }

  /** For integers, sorted neighbours make the whole sequence ascending. */
  lemma {:induction false} IntSortedAscending(s: seq<int>)
    requires SortedBy(IntLe, s)
    ensures forall i, j :: 0 <= i < j < |s| ==> s[i] <= s[j]
    decreases |s|
  {
    if |s| > 1 {
      var init := s[..|s| - 1];
      assert SortedBy(IntLe, init);
      IntSortedAscending(init);
      forall i, j | 0 <= i < j < |s| ensures s[i] <= s[j] {
        if j < |s| - 1 {
          assert s[i] == init[i] && s[j] == init[j];
        } else if i < |s| - 2 {
          assert s[i] == init[i] && s[|s| - 2] == init[|s| - 2];
          assert IntLe(s[|s| - 2], s[|s| - 1]);
        } else {
          assert IntLe(s[i], s[j]);
        }
      }
    }
  }

  /** Python's string order: lexicographic by code point, a proper prefix first. */
  predicate LexLe(a: string, b: string)
    decreases |a|
  {
    a == [] || (b != [] && (a[0] < b[0] || (a[0] == b[0] && LexLe(a[1..], b[1..]))))
  }

  lemma {:induction false} LexLeConnected(a: string, b: string)
    ensures LexLe(a, b) || LexLe(b, a)
    decreases |a|
  {
    if a != [] && b != [] && a[0] == b[0] {
      LexLeConnected(a[1..], b[1..]);
    }
  }

  lemma LexLeTotal()
    ensures Total(LexLe)
  {
    forall a: string, b: string ensures LexLe(a, b) || LexLe(b, a) {
      LexLeConnected(a, b);
    }
  }
}
