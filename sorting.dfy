/**
 * `Array.prototype.sort` with a comparator, which the ECMAScript standard
 * requires to be stable. A comparator `cmp` is given here as the relation
 * `le(a, b)`, "a may stay in front of b", i.e. `cmp(a, b) <= 0`. The
 * sort is an insertion sort that keeps equal elements in their input order.
 */
module Sorting {
  import opened Common

  ghost predicate TotalPreorder<T(!new)>(le: (T, T) -> bool) {
    && (forall a, b :: le(a, b) || le(b, a))
    && (forall a, b, c :: le(a, b) && le(b, c) ==> le(a, c))
  }

  ghost predicate SortedBy<T>(s: seq<T>, le: (T, T) -> bool) {
    forall i, j | 0 <= i < j < |s| :: le(s[i], s[j])
  }

  /** Puts `x` in front of the first element of `s` it may stay in front of. */
  function Insert<T>(x: T, s: seq<T>, le: (T, T) -> bool): (r: seq<T>)
    ensures multiset(r) == multiset(s) + multiset{x}
    ensures |r| == |s| + 1
    ensures r[0] == x || (s != [] && r[0] == s[0])
  {
    if s == [] then [x]
    else if le(x, s[0]) then [x] + s
    else
      assert s == [s[0]] + s[1..];
      [s[0]] + Insert(x, s[1..], le)
  }

  /** Inserting into a sorted sequence keeps it sorted. */
  lemma {:induction false} InsertSorted<T(!new)>(x: T, s: seq<T>, le: (T, T) -> bool)
    requires TotalPreorder(le)
    requires SortedBy(s, le)
    ensures SortedBy(Insert(x, s, le), le)
  {
    if s != [] && !le(x, s[0]) {
      var rest := Insert(x, s[1..], le);
      InsertSorted(x, s[1..], le);
      assert le(s[0], x);
      assert le(s[0], rest[0]) by {
        if rest[0] != x {
          assert rest[0] == s[1];
        }
      }
      var r := [s[0]] + rest;
      forall i, j | 0 <= i < j < |r| ensures le(r[i], r[j]) {
        if i == 0 && j > 1 {
          assert le(rest[0], rest[j - 1]);
        }
      }
    }
  }

  /** Insertion sort of `s`; equal elements keep their relative order. */
  function Sort<T>(s: seq<T>, le: (T, T) -> bool): (r: seq<T>)
    ensures multiset(r) == multiset(s)
    ensures |r| == |s|
  {
    if s == [] then []
    else
      assert s == [s[0]] + s[1..];
      Insert(s[0], Sort(s[1..], le), le)
  }

  /** Under a total preorder the result of `Sort` is sorted. */
  lemma {:induction false} SortSorted<T(!new)>(s: seq<T>, le: (T, T) -> bool)
    requires TotalPreorder(le)
    ensures SortedBy(Sort(s, le), le)
  {
    if s != [] {
      SortSorted(s[1..], le);
      InsertSorted(s[0], Sort(s[1..], le), le);
    }
  }

  /**
   * The elements of `s` in class `f`, in order: `Filter(s, f)` unfolded
   * one element at a time, which keeps the stability proof below cheap.
   */
  function ClassOf<T>(s: seq<T>, f: T -> bool): seq<T> {
    if s == [] then [] else (if f(s[0]) then [s[0]] else []) + ClassOf(s[1..], f)
  }

  lemma {:induction false} ClassOfIsFilter<T>(s: seq<T>, f: T -> bool)
    ensures ClassOf(s, f) == Filter(s, f)
  {
    if s != [] {
      ClassOfIsFilter(s[1..], f);
    }
  }

  /**
   * Inserting `y` adds it to the front of any class `f` of mutually
   * equivalent elements it belongs to: it is never put after an element of
   * its own class.
   */
  lemma {:induction false} InsertClass<T(!new)>(y: T, t: seq<T>, le: (T, T) -> bool, f: T -> bool)
    requires forall a, b :: f(a) && f(b) ==> le(a, b)
    ensures ClassOf(Insert(y, t, le), f) == (if f(y) then [y] else []) + ClassOf(t, f)
  {
    if t == [] || le(y, t[0]) {
      var r := [y] + t;
      assert Insert(y, t, le) == r;
      assert r[0] == y && r[1..] == t;
    } else {
      var rest := Insert(y, t[1..], le);
      var r := [t[0]] + rest;
      InsertClass(y, t[1..], le, f);
      assert Insert(y, t, le) == r;
      assert r[0] == t[0] && r[1..] == rest;
      assert !(f(y) && f(t[0]));
    }
  }

  /** `Sort` keeps the members of a class of mutually equivalent elements in their input order. */
  lemma {:induction false} SortClass<T(!new)>(s: seq<T>, le: (T, T) -> bool, f: T -> bool)
    requires forall a, b :: f(a) && f(b) ==> le(a, b)
    ensures ClassOf(Sort(s, le), f) == ClassOf(s, f)
  {
    if s != [] {
      SortClass(s[1..], le, f);
      InsertClass(s[0], Sort(s[1..], le), le, f);
    }
  }

  /**
   * Stability: under a total preorder, the elements ranking equal to any `x`
   * come out of `Sort` in the order they went in.
   */
  lemma SortStable<T(!new)>(s: seq<T>, le: (T, T) -> bool, x: T)
    requires TotalPreorder(le)
    ensures Filter(Sort(s, le), e => le(e, x) && le(x, e)) == Filter(s, e => le(e, x) && le(x, e))
  {
    var same := e => le(e, x) && le(x, e);
    SortClass(s, le, same);
    ClassOfIsFilter(s, same);
    ClassOfIsFilter(Sort(s, le), same);
  }

  /**
   * The first `k` elements of a sorted permutation are the best `k`: they come
   * from `s`, and every element of `s` left out ranks no higher than each of them.
   */
  lemma {:induction false} TopK<T(!new)>(s: seq<T>, le: (T, T) -> bool, top: seq<T>)
    requires TotalPreorder(le)
    requires |top| <= |s| && top == Sort(s, le)[..|top|]
    ensures SortedBy(top, le)
    ensures multiset(top) <= multiset(s)
    ensures forall x | x in multiset(s) - multiset(top) :: forall i | 0 <= i < |top| :: le(top[i], x)
  {
    var r := Sort(s, le);
    SortSorted(s, le);
    SortedPrefix(r, le, top);
  }

  /** A prefix of a sorted sequence is sorted, and ranks before the rest of it. */
  lemma SortedPrefix<T>(r: seq<T>, le: (T, T) -> bool, top: seq<T>)
    requires SortedBy(r, le) && |top| <= |r| && top == r[..|top|]
    ensures SortedBy(top, le)
    ensures multiset(top) <= multiset(r)
    ensures forall x | x in multiset(r) - multiset(top) :: forall i | 0 <= i < |top| :: le(top[i], x)
  {
    var k := |top|;
    assert r == top + r[k..];
    assert multiset(r) - multiset(top) == multiset(r[k..]);
    PrefixBeatsRest(r, le, k);
  }

  /** In a sorted sequence each of the first `k` elements may stay in front of every later one. */
  lemma PrefixBeatsRest<T>(r: seq<T>, le: (T, T) -> bool, k: nat)
    requires SortedBy(r, le) && k <= |r|
    ensures forall x | x in multiset(r[k..]) :: forall i | 0 <= i < k :: le(r[i], x)
  {
    forall x | x in multiset(r[k..])
      ensures forall i | 0 <= i < k :: le(r[i], x)
    {
      var j :| 0 <= j < |r| - k && r[k..][j] == x;
      assert r[k + j] == x;
    }
  }

  /** Filtering a sorted sequence keeps it sorted. */
  lemma {:induction false} FilterSorted<T>(s: seq<T>, f: T -> bool, le: (T, T) -> bool)
    requires SortedBy(s, le)
    ensures SortedBy(Filter(s, f), le)
  {
    if s != [] {
      var rest := Filter(s[1..], f);
      FilterSorted(s[1..], f, le);
      if f(s[0]) {
        var r := [s[0]] + rest;
        forall i, j | 0 <= i < j < |r| ensures le(r[i], r[j]) {
          if i == 0 {
            assert r[j] in rest;
            var k :| 0 <= k < |s[1..]| && s[1..][k] == r[j];
            assert s[k + 1] == r[j];
          } else {
            assert r[i] == rest[i - 1] && r[j] == rest[j - 1];
          }
        }
      }
    }
  }
}
