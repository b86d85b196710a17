/**
 * The Array.prototype operations the showcase and the globe call: `filter`
 * and `sort`. `sort` is modelled by what ECMAScript requires of it for a
 * consistent comparator: a stable reordering (section 23.1.3.30 of ECMA-262).
 * A comparator result of NaN counts as 0; the comparators here already
 * return that 0.
 */
module JsArray {
  import opened Wrappers

  /** The elements of a whose flag in keep is set, in order. */
  function Pick<T>(a: seq<T>, keep: seq<bool>): seq<T>
    requires |keep| == |a|
  {
    if a == [] then []
    else Pick(a[..|a| - 1], keep[..|a| - 1]) + if keep[|a| - 1] then [a[|a| - 1]] else []
  }

  /** r can be obtained from a by deleting elements: what is kept stays in order. */
  ghost predicate IsSubsequence<T>(r: seq<T>, a: seq<T>)
  {
    exists keep: seq<bool> :: |keep| == |a| && Pick(a, keep) == r
  }

  /** `a.filter(p)`. */
  function Filter<T(!new)>(a: seq<T>, p: T -> bool): (r: seq<T>)
    ensures |r| <= |a|
    ensures forall i :: 0 <= i < |r| ==> p(r[i])
  {
    if a == [] then []
    else
      var front := a[..|a| - 1];
      assert a == front + [a[|a| - 1]];
      Filter(front, p) + if p(a[|a| - 1]) then [a[|a| - 1]] else []
  }

  lemma {:induction false} FilterPick<T(!new)>(a: seq<T>, p: T -> bool)
    ensures Filter(a, p) == Pick(a, seq(|a|, i requires 0 <= i < |a| => p(a[i])))
  {
    if a != [] {
      var front := a[..|a| - 1];
      FilterPick(front, p);
      assert seq(|a|, i requires 0 <= i < |a| => p(a[i]))[..|a| - 1]
          == seq(|front|, i requires 0 <= i < |front| => p(front[i]));
    }
  }

  /** An element survives the filter exactly when it is in the array and passes. */
  lemma {:induction false} FilterMembers<T(!new)>(a: seq<T>, p: T -> bool, x: T)
    ensures x in Filter(a, p) <==> x in a && p(x)
  {
    if a != [] {
      var front := a[..|a| - 1];
      assert a == front + [a[|a| - 1]];
      FilterMembers(front, p, x);
    }
  }

  /** What filter keeps stays in its original order. */
  lemma FilterIsSubsequence<T(!new)>(a: seq<T>, p: T -> bool)
    ensures IsSubsequence(Filter(a, p), a)
  {
    FilterPick(a, p);
  }

  lemma {:induction false} FilterAppend<T(!new)>(a: seq<T>, b: seq<T>, p: T -> bool)
    ensures Filter(a + b, p) == Filter(a, p) + Filter(b, p)
    decreases |b|
  {
    if b == [] {
      assert a + b == a;
    } else {
      var front := b[..|b| - 1];
      assert a + b == (a + front) + [b[|b| - 1]];
      assert (a + b)[..|a + b| - 1] == a + front;
      FilterAppend(a, front, p);
    }
  }

  /** Filtering twice is filtering once by both predicates. */
  lemma {:induction false} FilterFilter<T(!new)>(a: seq<T>, p: T -> bool, q: T -> bool, pq: T -> bool)
    requires forall x :: pq(x) == (p(x) && q(x))
    ensures Filter(Filter(a, p), q) == Filter(a, pq)
  {
    if a != [] {
      var front, last := a[..|a| - 1], a[|a| - 1];
      FilterFilter(front, p, q, pq);
      FilterAppend(Filter(front, p), if p(last) then [last] else [], q);
    }
  }

  /** A filter whose predicate holds everywhere keeps the whole array. */
  lemma {:induction false} FilterAll<T(!new)>(a: seq<T>, p: T -> bool)
    requires forall i :: 0 <= i < |a| ==> p(a[i])
    ensures Filter(a, p) == a
  {
    if a != [] {
      FilterAll(a[..|a| - 1], p);
      assert a[..|a| - 1] + [a[|a| - 1]] == a;
    }
  }

  /** Puts x in front of the first element it does not compare after. */
  function Insert<T>(x: T, s: seq<T>, cmp: (T, T) -> int): (r: seq<T>)
    ensures multiset(r) == multiset(s) + multiset{x}
  {
    if s == [] then [x]
    else if cmp(x, s[0]) <= 0 then [x] + s
    else
      assert s == [s[0]] + s[1..];
      [s[0]] + Insert(x, s[1..], cmp)
  }

  /** `a.sort(cmp)`: insertion sort, which is stable. */
  function SortWith<T>(s: seq<T>, cmp: (T, T) -> int): (r: seq<T>)
    ensures multiset(r) == multiset(s)
    ensures |r| == |s|
  {
    if s == [] then []
    else
      assert s == [s[0]] + s[1..];
      var r := Insert(s[0], SortWith(s[1..], cmp), cmp);
      assert |r| == |multiset(r)|;
      r
  }

  /** A comparator that calls every pair of elements equal leaves the array unchanged. */
  lemma {:induction false} SortAllEqual<T>(s: seq<T>, cmp: (T, T) -> int)
    requires forall i, j :: 0 <= i < |s| && 0 <= j < |s| ==> cmp(s[i], s[j]) == 0
    ensures SortWith(s, cmp) == s
  {
    if s != [] {
      var tail := s[1..];
      assert forall i, j :: 0 <= i < |tail| && 0 <= j < |tail| ==> cmp(tail[i], tail[j]) == 0 by {
        forall i, j | 0 <= i < |tail| && 0 <= j < |tail| ensures cmp(tail[i], tail[j]) == 0 {
          assert tail[i] == s[i + 1] && tail[j] == s[j + 1];
        }
      }
      SortAllEqual(tail, cmp);
      if tail != [] {
        assert cmp(s[0], s[1]) == 0;
        assert [s[0]] + tail == s;
      }
    }
  }

  /** Ascending by an integer key. */
  predicate SortedBy<T>(s: seq<T>, key: T -> int)
  {
    forall i, j :: 0 <= i < j < |s| ==> key(s[i]) <= key(s[j])
  }

  /** On the values ok admits, cmp subtracts integer keys. */
  ghost predicate KeyComparator<T(!new)>(cmp: (T, T) -> int, key: T -> int, ok: T -> bool)
  {
    forall a, b :: ok(a) && ok(b) ==> cmp(a, b) == key(a) - key(b)
  }

  lemma InsertHead<T>(x: T, s: seq<T>, cmp: (T, T) -> int)
    ensures Insert(x, s, cmp)[0] == x || (s != [] && Insert(x, s, cmp)[0] == s[0])
  {
  }

  lemma {:induction false} InsertSorted<T(!new)>(x: T, s: seq<T>, cmp: (T, T) -> int, key: T -> int, ok: T -> bool)
    requires SortedBy(s, key) && KeyComparator(cmp, key, ok)
    requires ok(x) && forall i :: 0 <= i < |s| ==> ok(s[i])
    ensures SortedBy(Insert(x, s, cmp), key)
  {
    if s != [] {
      var r := Insert(x, s, cmp);
      assert cmp(x, s[0]) == key(x) - key(s[0]);
      if cmp(x, s[0]) > 0 {
        var tail := s[1..];
        InsertSorted(x, tail, cmp, key, ok);
        var t := Insert(x, tail, cmp);
        assert r == [s[0]] + t;
        InsertHead(x, tail, cmp);
        assert key(s[0]) <= key(t[0]) by {
          if t[0] != x {
            assert t[0] == tail[0] == s[1];
          }
        }
        forall i, j | 0 <= i < j < |r| ensures key(r[i]) <= key(r[j]) {
          if i == 0 && j > 1 {
            assert key(t[0]) <= key(t[j - 1]);
          }
        }
      } else {
        forall i, j | 0 <= i < j < |r| ensures key(r[i]) <= key(r[j]) {
          if i == 0 {
            assert r[j] == s[j - 1];
            assert key(s[0]) <= key(s[j - 1]);
          } else {
            assert r[i] == s[i - 1] && r[j] == s[j - 1];
          }
        }
      }
    }
  }

  /** Sorting only rearranges: every element of the result comes from the input. */
  lemma SortElements<T>(s: seq<T>, cmp: (T, T) -> int, i: int)
    requires 0 <= i < |SortWith(s, cmp)|
    ensures exists k :: 0 <= k < |s| && s[k] == SortWith(s, cmp)[i]
  {
    var r := SortWith(s, cmp);
    assert r[i] in multiset(r);
    assert r[i] in multiset(s);
  }

  /** A comparator that subtracts integer keys sorts by that key, ascending. */
  lemma {:induction false} SortSorted<T(!new)>(s: seq<T>, cmp: (T, T) -> int, key: T -> int, ok: T -> bool)
    requires KeyComparator(cmp, key, ok) && forall i :: 0 <= i < |s| ==> ok(s[i])
    ensures SortedBy(SortWith(s, cmp), key)
  {
    if s != [] {
      var tail := s[1..];
      SortSorted(tail, cmp, key, ok);
      var t := SortWith(tail, cmp);
      forall i | 0 <= i < |t| ensures ok(t[i]) {
        SortElements(tail, cmp, i);
      }
      InsertSorted(s[0], t, cmp, key, ok);
    }
  }

  /** `a.filter(x => x !== null)` on an array of optional values. */
  function Present<T>(a: seq<Option<T>>): (r: seq<T>)
    ensures |r| <= |a|
  {
    if a == [] then []
    else
      var front := a[..|a| - 1];
      assert a == front + [a[|a| - 1]];
      Present(front) + match a[|a| - 1] case Some(x) => [x] case None => []
  }

  /** Exactly the values that are present survive. */
  lemma {:induction false} PresentMembers<T(!new)>(a: seq<Option<T>>, x: T)
    ensures x in Present(a) <==> Some(x) in a
  {
    if a != [] {
      var front := a[..|a| - 1];
      assert a == front + [a[|a| - 1]];
      PresentMembers(front, x);
    }
  }

  lemma {:induction false} PresentAppend<T(!new)>(a: seq<Option<T>>, b: seq<Option<T>>)
    ensures Present(a + b) == Present(a) + Present(b)
    decreases |b|
  {
    if b == [] {
      assert a + b == a;
    } else {
      var front := b[..|b| - 1];
      assert a + b == (a + front) + [b[|b| - 1]];
      assert (a + b)[..|a + b| - 1] == a + front;
      PresentAppend(a, front);
    }
  }

  /** With nothing missing, the values come through in order. */
  lemma {:induction false} PresentAll<T(!new)>(a: seq<Option<T>>)
    requires forall i :: 0 <= i < |a| ==> a[i].Some?
    ensures Present(a) == seq(|a|, i requires 0 <= i < |a| => a[i].value)
  {
    if a != [] {
      PresentAll(a[..|a| - 1]);
    }
  }

  /** `a.map((x, i) => f(x, i))`. */
  function MapWithIndex<A, B>(a: seq<A>, f: (A, nat) -> B): (r: seq<B>)
    ensures |r| == |a|
    ensures forall k :: 0 <= k < |a| ==> r[k] == f(a[k], k)
  {
    seq(|a|, k requires 0 <= k < |a| => f(a[k], k))
  }

  /** Mapping one more element appends its image, numbered by the old length. */
  lemma MapWithIndexPush<A, B>(a: seq<A>, x: A, f: (A, nat) -> B)
    ensures MapWithIndex(a + [x], f) == MapWithIndex(a, f) + [f(x, |a|)]
  {
    var l, r := MapWithIndex(a + [x], f), MapWithIndex(a, f) + [f(x, |a|)];
    forall k | 0 <= k < |l| ensures l[k] == r[k] {
      if k < |a| {
        assert (a + [x])[k] == a[k];
      }
    }
  }

  /** The concatenation of f's results over a, in order. */
  function FlatMap<A, B>(a: seq<A>, f: A -> seq<B>): seq<B>
  {
    if a == [] then [] else FlatMap(a[..|a| - 1], f) + f(a[|a| - 1])
  }

  lemma {:induction false} FlatMapAppend<A, B>(a: seq<A>, b: seq<A>, f: A -> seq<B>)
    ensures FlatMap(a + b, f) == FlatMap(a, f) + FlatMap(b, f)
    decreases |b|
  {
    if b == [] {
      assert a + b == a;
    } else {
      var front, last := b[..|b| - 1], b[|b| - 1];
      var ab := a + b;
      assert ab[..|ab| - 1] == a + front && ab[|ab| - 1] == last;
      FlatMapAppend(a, front, f);
    }
  }

  lemma FlatMapPrefix<A, B>(a: seq<A>, i: nat, f: A -> seq<B>)
    requires i < |a|
    ensures FlatMap(a[..i + 1], f) == FlatMap(a[..i], f) + f(a[i])
  {
    assert a[..i + 1][..i] == a[..i];
  }

  lemma FlatMapOne<A, B>(x: A, f: A -> seq<B>)
    ensures FlatMap([x], f) == f(x)
  {
    assert [x][..0] == [];
  }
}
