/**
 * Sorting with a caller-supplied ordering, for the places where the source
 * calls `Array.prototype.sort`. The ordering is abstract (a `localeCompare`
 * collation, a numeric key); all the sort needs is that it is total on the
 * elements being sorted.
 */
module Ordering {

  /** `le` relates every two elements of `s` one way or the other. */
  ghost predicate TotalAmong<T(!new)>(s: seq<T>, le: (T, T) -> bool) {
    forall a, b :: a in s && b in s ==> le(a, b) || le(b, a)
  }

  /** Each element is `le` its successor. */
  predicate Sorted<T>(s: seq<T>, le: (T, T) -> bool) {
    forall i :: 0 < i < |s| ==> le(s[i - 1], s[i])
  }

  /** Puts `x` before the first element it is `le`. */
  function Insert<T>(x: T, s: seq<T>, le: (T, T) -> bool): (r: seq<T>)
    ensures multiset(r) == multiset(s) + multiset{x}
    ensures |r| == |s| + 1
  {
    if s == [] || le(x, s[0]) then [x] + s
    else
      assert s == [s[0]] + s[1..];
      [s[0]] + Insert(x, s[1..], le)
  }

  lemma {:induction false} InsertSorted<T(!new)>(x: T, s: seq<T>, le: (T, T) -> bool)
    requires Sorted(s, le) && TotalAmong([x] + s, le)
    ensures Sorted(Insert(x, s, le), le)
  {
    if s != [] && !le(x, s[0]) {
      assert s[0] in [x] + s;
      assert le(s[0], x);
      assert TotalAmong([x] + s[1..], le) by {
        forall a, b | a in [x] + s[1..] && b in [x] + s[1..] ensures le(a, b) || le(b, a) {
          assert a in [x] + s && b in [x] + s;
        }
      }
      InsertSorted(x, s[1..], le);
      var t := Insert(x, s[1..], le);
      assert t[0] == x || (|s| > 1 && t[0] == s[1]);
    }
  }

  /** Insertion sort: a permutation of `s`. */
  function SortBy<T>(s: seq<T>, le: (T, T) -> bool): (r: seq<T>)
    ensures multiset(r) == multiset(s) && |r| == |s|
  {
    if s == [] then []
    else
      assert s == [s[0]] + s[1..];
      Insert(s[0], SortBy(s[1..], le), le)
  }

  lemma TotalAmongTail<T(!new)>(s: seq<T>, le: (T, T) -> bool)
    requires s != [] && TotalAmong(s, le)
    ensures TotalAmong(s[1..], le)
  {
    forall a, b | a in s[1..] && b in s[1..] ensures le(a, b) || le(b, a) {
      assert a in s && b in s;
    }
  }

  lemma TotalAmongPermutation<T(!new)>(s: seq<T>, t: seq<T>, le: (T, T) -> bool)
    requires multiset(s) == multiset(t) && TotalAmong(s, le)
    ensures TotalAmong(t, le)
  {
    forall a, b | a in t && b in t ensures le(a, b) || le(b, a) {
      assert a in multiset(t) && b in multiset(t);
      assert a in s && b in s;
    }
  }

  /** The sort orders the elements whenever `le` is total on them. */
  lemma {:induction false} SortBySorted<T(!new)>(s: seq<T>, le: (T, T) -> bool)
    requires TotalAmong(s, le)
    ensures Sorted(SortBy(s, le), le)
  {
    if s != [] {
      var rest := SortBy(s[1..], le);
      TotalAmongTail(s, le);
      SortBySorted(s[1..], le);
      assert s == [s[0]] + s[1..];
      assert multiset([s[0]] + rest) == multiset(s);
      TotalAmongPermutation(s, [s[0]] + rest, le);
      InsertSorted(s[0], rest, le);
    }
  }
}
