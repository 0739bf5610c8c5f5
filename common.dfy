/** Small value types and sequence helpers shared by the whole model. */
module Common {

  /** JavaScript's `undefined`/`null` versus a present value. */
  datatype Option<+T> = None | Some(value: T) {
    function GetOr(default: T): T {
      match this
      case Some(v) => v
      case None => default
    }
  }

  /** No element occurs twice. */
  predicate Distinct<T(==)>(s: seq<T>) {
    forall i, j | 0 <= i < j < |s| :: s[i] != s[j]
  }

  /** An element not in a distinct sequence can be put in front of it. */
  lemma DistinctCons<T>(x: T, s: seq<T>)
    requires Distinct(s) && x !in s
    ensures Distinct([x] + s)
  {
    var r := [x] + s;
    forall i, j | 0 <= i < j < |r| ensures r[i] != r[j] {
      assert r[j] == s[j - 1];
      if i > 0 {
        assert r[i] == s[i - 1];
      }
    }
  }

  /** The elements of `s` as a set (what `new Set(s)` holds). */
  function Elems<T>(s: seq<T>): set<T> {
    set x | x in s
  }

  lemma {:induction false} ElemsCardinality<T>(s: seq<T>)
    ensures |Elems(s)| <= |s|
  {
    if s != [] {
      ElemsCardinality(s[1..]);
      assert Elems(s) == Elems(s[1..]) + {s[0]};
    }
  }

  /** The position of the first occurrence of `x` in `s` (`s.indexOf(x)`). */
  function IndexOf<T(==)>(s: seq<T>, x: T): (i: nat)
    requires x in s
    ensures i < |s| && s[i] == x
    ensures forall j | 0 <= j < i :: s[j] != x
    ensures x !in s[..i]
  {
    if s[0] == x then 0 else 1 + IndexOf(s[1..], x)
  }

  /**
   * Every element of `r` occurs in `s`, and `r` lists them in the order of
   * their first occurrences in `s`.
   */
  predicate FirstOccurrenceOrder<T(==)>(r: seq<T>, s: seq<T>) {
    && (forall i | 0 <= i < |r| :: r[i] in s)
    && (forall i, j | 0 <= i < j < |r| :: r[i] in s && r[j] in s && IndexOf(s, r[i]) < IndexOf(s, r[j]))
  }

  /** Dropping the head of `s`, which `r` does not contain, keeps the order. */
  lemma OrderSkipHead<T>(r: seq<T>, s: seq<T>)
    requires s != [] && FirstOccurrenceOrder(r, s[1..])
    requires forall i | 0 <= i < |r| :: r[i] != s[0]
    ensures FirstOccurrenceOrder(r, s)
  {
    forall i | 0 <= i < |r| ensures r[i] in s && IndexOf(s, r[i]) == 1 + IndexOf(s[1..], r[i]) {
      assert r[i] in s[1..];
    }
  }

  /** The head of `s` can be listed before the rest. */
  lemma OrderConsHead<T>(r: seq<T>, s: seq<T>)
    requires s != [] && FirstOccurrenceOrder(r, s[1..])
    requires forall i | 0 <= i < |r| :: r[i] != s[0]
    ensures FirstOccurrenceOrder([s[0]] + r, s)
  {
    OrderSkipHead(r, s);
    var t := [s[0]] + r;
    forall i, j | 0 <= i < j < |t| ensures t[i] in s && t[j] in s && IndexOf(s, t[i]) < IndexOf(s, t[j]) {
      assert t[j] == r[j - 1];
      if i > 0 {
        assert t[i] == r[i - 1];
      }
    }
  }

  /** Order by first occurrence composes: a sequence ordered along an ordered sequence. */
  lemma OrderTransitive<T>(a: seq<T>, b: seq<T>, c: seq<T>)
    requires FirstOccurrenceOrder(a, b) && FirstOccurrenceOrder(b, c)
    ensures FirstOccurrenceOrder(a, c)
  {
    forall i | 0 <= i < |a| ensures a[i] in c {
      var p := IndexOf(b, a[i]);
      assert b[p] in c;
    }
    forall i, j | 0 <= i < j < |a| ensures a[i] in c && a[j] in c && IndexOf(c, a[i]) < IndexOf(c, a[j]) {
      var p, q := IndexOf(b, a[i]), IndexOf(b, a[j]);
      assert b[p] == a[i] && b[q] == a[j] && p < q;
    }
  }

  /**
   * `Array.from(new Set(s))`: the distinct elements of `s`, each at the place of
   * its first occurrence.
   */
  function Dedup<T(==)>(s: seq<T>): (r: seq<T>)
    ensures Distinct(r)
    ensures forall i | 0 <= i < |r| :: r[i] in s
    ensures forall i | 0 <= i < |s| :: s[i] in r
    ensures |r| <= |s|
    ensures FirstOccurrenceOrder(r, s)
  {
    var r := DedupFrom(s, []);
    assert [] + r == r;
    DedupFromOrder(s, []);
    r
  }

  function DedupFrom<T(==)>(s: seq<T>, seen: seq<T>): (r: seq<T>)
    requires Distinct(seen)
    ensures Distinct(seen + r)
    ensures forall i | 0 <= i < |r| :: r[i] in s && r[i] !in seen
    ensures forall i | 0 <= i < |s| :: s[i] in seen + r
    ensures |r| <= |s|
    decreases |s|
  {
    if s == [] then []
    else if s[0] in seen then DedupFrom(s[1..], seen)
    else
      var rest := DedupFrom(s[1..], seen + [s[0]]);
      assert seen + ([s[0]] + rest) == (seen + [s[0]]) + rest;
      [s[0]] + rest
  }

  lemma {:induction false} DedupFromOrder<T>(s: seq<T>, seen: seq<T>)
    requires Distinct(seen)
    ensures FirstOccurrenceOrder(DedupFrom(s, seen), s)
    decreases |s|
  {
    if s != [] {
      if s[0] in seen {
        var rest := DedupFrom(s[1..], seen);
        DedupFromOrder(s[1..], seen);
        assert forall i | 0 <= i < |rest| :: rest[i] != s[0];
        OrderSkipHead(rest, s);
      } else {
        var seen' := seen + [s[0]];
        var rest := DedupFrom(s[1..], seen');
        DedupFromOrder(s[1..], seen');
        assert forall i | 0 <= i < |rest| :: rest[i] != s[0] by {
          assert s[0] in seen';
        }
        OrderConsHead(rest, s);
      }
    }
  }

  lemma DedupSize<T>(s: seq<T>)
    ensures |Dedup(s)| == |Elems(s)|
  {
    var r := Dedup(s);
    DistinctElems(r);
    assert Elems(r) == Elems(s);
  }

  lemma {:induction false} DistinctElems<T>(s: seq<T>)
    requires Distinct(s)
    ensures |Elems(s)| == |s|
  {
    if s != [] {
      DistinctElems(s[1..]);
      assert Elems(s) == Elems(s[1..]) + {s[0]};
      assert s[0] !in Elems(s[1..]);
    }
  }

  /** `s.slice(0, n)` for a non-negative `n`. */
  function Take<T>(s: seq<T>, n: nat): (r: seq<T>)
    ensures |r| == if n < |s| then n else |s|
    ensures r == s[..|r|]
  {
    if n < |s| then s[..n] else s
  }

  /** A sub-multiset of `s`: every element of `r` occurs in `s` at least as often. */
  ghost predicate SubMultiset<T>(r: seq<T>, s: seq<T>) {
    multiset(r) <= multiset(s)
  }

  /** `s.map(f)` */
  function MapSeq<T, U>(s: seq<T>, f: T -> U): (r: seq<U>)
    ensures |r| == |s|
    ensures forall i | 0 <= i < |s| :: r[i] == f(s[i])
  {
    seq(|s|, i requires 0 <= i < |s| => f(s[i]))
  }

  /** `s.filter(f)`: the elements of `s` that satisfy `f`, in order. */
  function Filter<T>(s: seq<T>, f: T -> bool): (r: seq<T>)
    ensures |r| <= |s|
    ensures forall i | 0 <= i < |r| :: r[i] in s && f(r[i])
    ensures forall i | 0 <= i < |s| && f(s[i]) :: s[i] in r
    ensures multiset(r) <= multiset(s)
  {
    if s == [] then []
    else
      assert s == [s[0]] + s[1..];
      (if f(s[0]) then [s[0]] else []) + Filter(s[1..], f)
  }

  /** An element is kept by a filter exactly when it occurs and satisfies the test. */
  lemma FilterMember<T>(s: seq<T>, f: T -> bool, x: T)
    ensures x in Filter(s, f) <==> x in s && f(x)
  {
    if x in Filter(s, f) {
      var i :| 0 <= i < |Filter(s, f)| && Filter(s, f)[i] == x;
    }
    if x in s && f(x) {
      var i :| 0 <= i < |s| && s[i] == x;
    }
  }

  lemma MapSeqAppend<T, U>(a: seq<T>, b: seq<T>, f: T -> U)
    ensures MapSeq(a + b, f) == MapSeq(a, f) + MapSeq(b, f)
  {
  }

  /** Finds the first element of `a` in its permutation `b` and removes it. */
  lemma RemoveFirst<T>(a: seq<T>, b: seq<T>) returns (k: nat, rest: seq<T>)
    requires a != [] && multiset(a) == multiset(b)
    ensures k < |b| && b[k] == a[0]
    ensures b == b[..k] + [b[k]] + b[k + 1..]
    ensures rest == b[..k] + b[k + 1..]
    ensures multiset(a[1..]) == multiset(rest)
  {
    assert a[0] in multiset(b);
    k :| 0 <= k < |b| && b[k] == a[0];
    assert b == b[..k] + [b[k]] + b[k + 1..];
    rest := b[..k] + b[k + 1..];
    assert a == [a[0]] + a[1..];
    assert multiset(b) == multiset(b[..k]) + multiset{b[k]} + multiset(b[k + 1..]);
    assert multiset(rest) == multiset(b[..k]) + multiset(b[k + 1..]);
    assert multiset(a) == multiset{a[0]} + multiset(a[1..]);
    assert multiset(a[1..]) == multiset(a) - multiset{a[0]};
    assert multiset(rest) == multiset(b) - multiset{b[k]};
  }

  /** Mapping a permutation gives a permutation. */
  lemma {:induction false} MapPermutation<T, U>(a: seq<T>, b: seq<T>, f: T -> U)
    requires multiset(a) == multiset(b)
    ensures multiset(MapSeq(a, f)) == multiset(MapSeq(b, f))
    decreases |a|
  {
    if a == [] {
      assert |b| == |multiset(b)| == 0;
    } else {
      var k, rest := RemoveFirst(a, b);
      MapPermutation(a[1..], rest, f);
      MapSeqAppend([a[0]], a[1..], f);
      assert [a[0]] + a[1..] == a;
      MapSeqAppend(b[..k] + [b[k]], b[k + 1..], f);
      MapSeqAppend(b[..k], [b[k]], f);
      MapSeqAppend(b[..k], b[k + 1..], f);
    }
  }

  /** In a sequence without repeats every element occurs at most once. */
  lemma {:induction false} DistinctMultiplicity<T>(s: seq<T>)
    requires Distinct(s)
    ensures forall x :: multiset(s)[x] <= 1
  {
    if s != [] {
      DistinctMultiplicity(s[1..]);
      assert s == [s[0]] + s[1..];
      assert s[0] !in s[1..];
    }
  }

  /** A sequence in which every element occurs at most once has no repeats. */
  lemma {:induction false} MultiplicityDistinct<T>(s: seq<T>)
    requires forall x :: multiset(s)[x] <= 1
    ensures Distinct(s)
  {
    if s != [] {
      assert s == [s[0]] + s[1..];
      assert forall x :: multiset(s[1..])[x] <= multiset(s)[x];
      MultiplicityDistinct(s[1..]);
      assert multiset(s)[s[0]] == 1 + multiset(s[1..])[s[0]];
      assert s[0] !in s[1..];
    }
  }

  /** A permutation of distinct elements has distinct elements. */
  lemma PermutationDistinct<T>(a: seq<T>, b: seq<T>)
    requires multiset(a) == multiset(b) && Distinct(a)
    ensures Distinct(b)
  {
    DistinctMultiplicity(a);
    MultiplicityDistinct(b);
  }
}
