/** LINQ's `Enumerable.OrderBy` with an `int` key selector: a stable sort. */
module Ordering {

  /** Ascending by `key`. */
  predicate SortedBy<T>(s: seq<T>, key: T -> int) {
    forall i, j :: 0 <= i < j < |s| ==> key(s[i]) <= key(s[j])
  }

  /** The elements of `s` whose key is `k`, in their order in `s`. */
  function WithKey<T>(s: seq<T>, key: T -> int, k: int): (r: seq<T>)
    ensures |r| <= |s|
  {
    if s == [] then [] else (if key(s[0]) == k then [s[0]] else []) + WithKey(s[1..], key, k)
  }

  /** `s` keeps, for every key, the relative order that `original` had:
      together with `SortedBy` this is what "stable" means. */
  ghost predicate KeepsOrderWithinKeys<T>(original: seq<T>, s: seq<T>, key: T -> int) {
    forall k :: WithKey(s, key, k) == WithKey(original, key, k)
  }

  /** The number of leading elements of `s` whose key is not greater than `key(x)`:
      where `x` goes so that it follows every element it ties with. */
  function InsertionPoint<T>(s: seq<T>, x: T, key: T -> int): (p: nat)
    ensures p <= |s|
    ensures forall i :: 0 <= i < p ==> key(s[i]) <= key(x)
    ensures p < |s| ==> key(x) < key(s[p])
  {
    if s == [] || key(x) < key(s[0]) then 0 else 1 + InsertionPoint(s[1..], x, key)
  }

  /** `s` with `x` inserted after every element whose key is not greater than its own. */
  function Insert<T>(s: seq<T>, x: T, key: T -> int): (r: seq<T>)
    ensures multiset(r) == multiset(s) + multiset{x}
    ensures SortedBy(s, key) ==> SortedBy(r, key)
  {
    var p := InsertionPoint(s, x, key);
    var r := s[..p] + [x] + s[p..];
    assert multiset(r) == multiset(s) + multiset{x} by {
      SpliceMultiset(s, p, x);
    }
    assert SortedBy(s, key) ==> SortedBy(r, key) by {
      if SortedBy(s, key) {
        SortedSplice(s, p, x, key);
      }
    }
    r
  }

  /** Placing `x` anywhere in `s` adds exactly `x`. */
  lemma SpliceMultiset<T>(s: seq<T>, p: nat, x: T)
    requires p <= |s|
    ensures multiset(s[..p] + [x] + s[p..]) == multiset(s) + multiset{x}
  {
    assert s == s[..p] + s[p..];
  }

  /** Two sorted sequences, every key of the first no greater than every key
      of the second, make a sorted sequence. */
  lemma SortedConcat<T>(u: seq<T>, v: seq<T>, key: T -> int)
    requires SortedBy(u, key) && SortedBy(v, key)
    requires forall i, j :: 0 <= i < |u| && 0 <= j < |v| ==> key(u[i]) <= key(v[j])
    ensures SortedBy(u + v, key)
  {
    var w := u + v;
    forall i, j | 0 <= i < j < |w| ensures key(w[i]) <= key(w[j]) {
      if j < |u| {
        assert w[i] == u[i] && w[j] == u[j];
      } else if i >= |u| {
        assert w[i] == v[i - |u|] && w[j] == v[j - |u|];
      } else {
        assert w[i] == u[i] && w[j] == v[j - |u|];
      }
    }
  }

  /** Placing `x` at its insertion point keeps a sorted sequence sorted. */
  lemma SortedSplice<T>(s: seq<T>, p: nat, x: T, key: T -> int)
    requires SortedBy(s, key) && p == InsertionPoint(s, x, key)
    ensures SortedBy(s[..p] + [x] + s[p..], key)
  {
    var before, after := s[..p], s[p..];
    assert SortedBy(before, key) by {
      forall i, j | 0 <= i < j < |before| ensures key(before[i]) <= key(before[j]) {
        assert before[i] == s[i] && before[j] == s[j];
      }
    }
    SortedSuffix(s, p, key);
    assert SortedBy([x], key);
    forall i, j | 0 <= i < |before| && 0 <= j < 1 ensures key(before[i]) <= key([x][j]) {
      assert before[i] == s[i];
    }
    SortedConcat(before, [x], key);
    var head := before + [x];
    forall i, j | 0 <= i < |head| && 0 <= j < |after| ensures key(head[i]) <= key(after[j]) {
      assert after[j] == s[p + j];
      assert key(x) < key(s[p]) <= key(s[p + j]);
      if i < p {
        assert head[i] == s[i];
      }
    }
    SortedConcat(head, after, key);
  }

  /** `source.OrderBy(key)`. */
  function OrderBy<T>(s: seq<T>, key: T -> int): (r: seq<T>)
    ensures multiset(r) == multiset(s)
    ensures SortedBy(r, key)
    ensures KeepsOrderWithinKeys(s, r, key)
  {
    if s == [] then []
    else
      var init := s[..|s| - 1];
      var last := s[|s| - 1];
      assert s == init + [last];
      var r := Insert(OrderBy(init, key), last, key);
      forall k ensures WithKey(r, key, k) == WithKey(s, key, k) {
        InsertWithKey(OrderBy(init, key), last, key, k);
        WithKeyAppend(init, [last], key, k);
      }
      r
  }

  lemma {:induction false} WithKeyAppend<T>(a: seq<T>, b: seq<T>, key: T -> int, k: int)
    ensures WithKey(a + b, key, k) == WithKey(a, key, k) + WithKey(b, key, k)
  {
    if a == [] {
      assert a + b == b;
    } else {
      var head := if key(a[0]) == k then [a[0]] else [];
      assert (a + b)[0] == a[0];
      assert (a + b)[1..] == a[1..] + b;
      calc {
        WithKey(a + b, key, k);
        head + WithKey(a[1..] + b, key, k);
        { WithKeyAppend(a[1..], b, key, k); }
        head + (WithKey(a[1..], key, k) + WithKey(b, key, k));
        (head + WithKey(a[1..], key, k)) + WithKey(b, key, k);
      }
    }
  }

  /** In a sorted sequence whose first key exceeds `k`, nothing has key `k`. */
  lemma {:induction false} NoneBelowFirst<T>(s: seq<T>, key: T -> int, k: int)
    requires SortedBy(s, key)
    requires s != [] ==> k < key(s[0])
    ensures WithKey(s, key, k) == []
  {
    if s != [] {
      if |s| > 1 {
        assert key(s[0]) <= key(s[1]);
      }
      NoneBelowFirst(s[1..], key, k);
    }
  }

  lemma WithKeyAround<T>(before: seq<T>, x: T, after: seq<T>, key: T -> int, k: int)
    ensures WithKey(before + [x] + after, key, k) ==
      WithKey(before, key, k) + (if key(x) == k then [x] else []) + WithKey(after, key, k)
  {
    assert WithKey([x], key, k) == (if key(x) == k then [x] else []) by {
      assert [x][1..] == [];
    }
    WithKeyAppend(before + [x], after, key, k);
    WithKeyAppend(before, [x], key, k);
  }

  /** A suffix of a sorted sequence is sorted. */
  lemma SortedSuffix<T>(s: seq<T>, p: nat, key: T -> int)
    requires SortedBy(s, key) && p <= |s|
    ensures SortedBy(s[p..], key)
  {
    forall i, j | 0 <= i < j < |s[p..]| ensures key(s[p..][i]) <= key(s[p..][j]) {
      assert s[p..][i] == s[p + i] && s[p..][j] == s[p + j];
    }
  }

  /** Placing `x` just before the elements with greater keys adds it at the end
      of the elements that share its key. */
  lemma WithKeySplice<T>(before: seq<T>, x: T, after: seq<T>, key: T -> int, k: int)
    requires SortedBy(after, key)
    requires after != [] ==> key(x) < key(after[0])
    ensures WithKey(before + [x] + after, key, k) ==
      WithKey(before + after, key, k) + (if key(x) == k then [x] else [])
  {
    WithKeyAround(before, x, after, key, k);
    WithKeyAppend(before, after, key, k);
    if key(x) == k {
      NoneBelowFirst(after, key, k);
    }
  }

  lemma InsertWithKey<T>(s: seq<T>, x: T, key: T -> int, k: int)
    requires SortedBy(s, key)
    ensures WithKey(Insert(s, x, key), key, k) == WithKey(s, key, k) + (if key(x) == k then [x] else [])
  {
    var p := InsertionPoint(s, x, key);
    SortedSuffix(s, p, key);
    WithKeySplice(s[..p], x, s[p..], key, k);
    assert s[..p] + s[p..] == s;
  }

  /** The first element of a non-empty sequence with key `k`, when one exists. */
  lemma {:induction false} WithKeyFindsElement<T>(s: seq<T>, key: T -> int, k: int)
    requires WithKey(s, key, k) != []
    ensures exists i :: 0 <= i < |s| && key(s[i]) == k
  {
    if key(s[0]) != k {
      WithKeyFindsElement(s[1..], key, k);
      var i :| 0 <= i < |s[1..]| && key(s[1..][i]) == k;
      assert key(s[i + 1]) == k;
    }
  }

  lemma WithKeyOfSingleton<T>(x: T, key: T -> int, k: int)
    ensures WithKey([x], key, k) == if key(x) == k then [x] else []
  {
    assert [x][1..] == [];
  }

  lemma TwoSwapped<T>(a: T, b: T, key: T -> int, k: int)
    requires key(b) < key(a)
    ensures WithKey([a, b], key, k) == WithKey([b, a], key, k)
  {
    assert [a, b] == [a] + [b] && [b, a] == [b] + [a];
    WithKeyAppend([a], [b], key, k);
    WithKeyAppend([b], [a], key, k);
    WithKeyOfSingleton(a, key, k);
    WithKeyOfSingleton(b, key, k);
  }

  /** Two elements given with the larger key first are swapped. */
  lemma OrderByOfTwo<T>(a: T, b: T, key: T -> int)
    requires key(b) < key(a)
    ensures OrderBy([a, b], key) == [b, a]
  {
    forall k ensures WithKey([a, b], key, k) == WithKey([b, a], key, k) {
      TwoSwapped(a, b, key, k);
    }
    SortedWithSameKeyOrderIsUnique([b, a], OrderBy([a, b], key), key);
  }

  /** Four elements with increasing keys, given in the order 4, 1, 3, 2, come out sorted. */
  lemma OrderByOfFour<T>(a: T, b: T, c: T, d: T, key: T -> int)
    requires key(a) < key(b) < key(c) < key(d)
    ensures OrderBy([d, a, c, b], key) == [a, b, c, d]
  {
    var expected := [a, b, c, d];
    assert StrictlySortedBy(expected, key) by {
      forall i, j | 0 <= i < j < 4 ensures key(expected[i]) < key(expected[j]) {
      }
    }
    assert multiset([d, a, c, b]) == multiset(expected);
    OrderByOfDistinctKeys([d, a, c, b], expected, key);
  }

  /** Ascending by `key` with no two keys equal. */
  predicate StrictlySortedBy<T>(s: seq<T>, key: T -> int) {
    forall i, j :: 0 <= i < j < |s| ==> key(s[i]) < key(s[j])
  }

  /** Without repeated keys, at most one element has key `k`. */
  lemma {:induction false} StrictlySortedWithKey<T>(s: seq<T>, key: T -> int, k: int)
    requires StrictlySortedBy(s, key)
    ensures |WithKey(s, key, k)| <= 1
  {
    if s != [] {
      var tail := s[1..];
      assert StrictlySortedBy(tail, key) by {
        forall i, j | 0 <= i < j < |tail| ensures key(tail[i]) < key(tail[j]) {
          assert tail[i] == s[i + 1] && tail[j] == s[j + 1];
        }
      }
      if key(s[0]) == k {
        assert SortedBy(tail, key) by {
          forall i, j | 0 <= i < j < |tail| ensures key(tail[i]) <= key(tail[j]) {
            assert key(tail[i]) < key(tail[j]);
          }
        }
        if tail != [] {
          assert tail[0] == s[1];
        }
        NoneBelowFirst(tail, key, k);
      } else {
        StrictlySortedWithKey(tail, key, k);
      }
    }
  }

  /** An element of `b` splits it into the part before one of its occurrences
      and the part after. */
  lemma SplitAtOccurrence<T>(x: T, b: seq<T>) returns (before: seq<T>, after: seq<T>)
    requires x in multiset(b)
    ensures b == before + [x] + after
  {
    var i :| 0 <= i < |b| && b[i] == x;
    before, after := b[..i], b[i + 1..];
  }

  /** The step of `WithKeyOfSameElements`: the same element added in front of
      one sequence and anywhere in the other keeps the claim. */
  lemma WithKeySameElementsStep<T>(x: T, tail: seq<T>, before: seq<T>, after: seq<T>, key: T -> int, k: int)
    requires multiset(WithKey(tail, key, k)) == multiset(WithKey(before + after, key, k))
    ensures multiset(WithKey([x] + tail, key, k)) == multiset(WithKey(before + [x] + after, key, k))
  {
    var wb, wx, wa := WithKey(before, key, k), WithKey([x], key, k), WithKey(after, key, k);
    WithKeyAround(before, x, after, key, k);
    WithKeyOfSingleton(x, key, k);
    WithKeyAppend(before, after, key, k);
    WithKeyAppend([x], tail, key, k);
    MultisetRegroup(wb, wx, wa);
  }

  /** Sequences with the same elements have the same elements with key `k`. */
  lemma {:induction false} WithKeyOfSameElements<T>(a: seq<T>, b: seq<T>, key: T -> int, k: int)
    requires multiset(a) == multiset(b)
    ensures multiset(WithKey(a, key, k)) == multiset(WithKey(b, key, k))
    decreases |a|
  {
    if a == [] {
      assert |b| == |multiset(b)| == 0;
    } else {
      var x, tail := a[0], a[1..];
      assert a == [x] + tail;
      var before, after := SplitAtOccurrence(x, b);
      assert multiset(tail) == multiset(before + after) by {
        assert multiset(b) == multiset(before + after) + multiset{x};
        assert multiset(a) == multiset(tail) + multiset{x};
        assert multiset(tail) == multiset(a) - multiset{x};
        assert multiset(before + after) == multiset(b) - multiset{x};
      }
      WithKeyOfSameElements(tail, before + after, key, k);
      WithKeySameElementsStep(x, tail, before, after, key, k);
    }
  }

  /** Two sequences of at most one element with the same multiset are equal. */
  lemma ShortWithSameElements<T>(a: seq<T>, b: seq<T>)
    requires |a| <= 1 && multiset(a) == multiset(b)
    ensures a == b
  {
    assert |b| == |multiset(b)| == |multiset(a)| == |a|;
    if |a| == 1 {
      assert a[0] in multiset(b);
      assert a == [a[0]] && b == [b[0]];
    }
  }

  /** Moving the middle part of a concatenation to the front keeps its elements. */
  lemma MultisetRegroup<T>(p: seq<T>, q: seq<T>, r: seq<T>)
    ensures multiset(p + q + r) == multiset(q) + multiset(p + r)
  {
  }

  /** When no two keys are equal, `OrderBy` puts any arrangement of the
      elements into the one ascending order. */
  lemma OrderByOfDistinctKeys<T>(s: seq<T>, expected: seq<T>, key: T -> int)
    requires StrictlySortedBy(expected, key) && multiset(s) == multiset(expected)
    ensures OrderBy(s, key) == expected
  {
    var sorted := OrderBy(s, key);
    forall k ensures WithKey(sorted, key, k) == WithKey(expected, key, k) {
      WithKeyOfSameElements(sorted, expected, key, k);
      StrictlySortedWithKey(expected, key, k);
      ShortWithSameElements(WithKey(expected, key, k), WithKey(sorted, key, k));
    }
    assert SortedBy(expected, key);
    SortedWithSameKeyOrderIsUnique(expected, sorted, key);
  }

  /** If `b` keeps the order within keys of a non-empty `a`, then `a`'s first
      key also occurs in `b`, so a sorted `b` starts no higher. */
  lemma FirstKeyBound<T>(a: seq<T>, b: seq<T>, key: T -> int)
    requires SortedBy(b, key) && KeepsOrderWithinKeys(a, b, key)
    requires a != []
    ensures b != [] && key(b[0]) <= key(a[0])
  {
    assert WithKey(a, key, key(a[0])) != [];
    WithKeyFindsElement(b, key, key(a[0]));
  }

  /** There is only one sorted sequence that keeps the order within keys of a
      given one: `OrderBy` is fully determined by its contract. */
  lemma {:induction false} SortedWithSameKeyOrderIsUnique<T>(a: seq<T>, b: seq<T>, key: T -> int)
    requires SortedBy(a, key) && SortedBy(b, key)
    requires KeepsOrderWithinKeys(a, b, key)
    ensures a == b
  {
    if a == [] {
      if b != [] {
        FirstKeyBound(b, a, key);
        assert false;
      }
    } else if b == [] {
      FirstKeyBound(a, b, key);
      assert false;
    } else {
      FirstKeyBound(a, b, key);
      FirstKeyBound(b, a, key);
      var ka := key(a[0]);
      assert a[0] == WithKey(a, key, ka)[0] == WithKey(b, key, ka)[0] == b[0];
      forall k ensures WithKey(b[1..], key, k) == WithKey(a[1..], key, k) {
        var wa, wb := WithKey(a, key, k), WithKey(b, key, k);
        assert wa == wb;
        if k == ka {
          assert wa == [a[0]] + WithKey(a[1..], key, k);
          assert wb == [b[0]] + WithKey(b[1..], key, k);
          assert WithKey(a[1..], key, k) == wa[1..] && WithKey(b[1..], key, k) == wb[1..];
        } else {
          assert wa == WithKey(a[1..], key, k);
          assert wb == WithKey(b[1..], key, k);
        }
      }
      SortedWithSameKeyOrderIsUnique(a[1..], b[1..], key);
      assert a == [a[0]] + a[1..] && b == [b[0]] + b[1..];
    }
  }

  /** `OrderBy` leaves an already sorted sequence as it is. */
  lemma OrderByOfSorted<T>(s: seq<T>, key: T -> int)
    requires SortedBy(s, key)
    ensures OrderBy(s, key) == s
  {
    SortedWithSameKeyOrderIsUnique(s, OrderBy(s, key), key);
  }

  /** When every element has the same key, `OrderBy` keeps the input order. */
  lemma OrderByOfEqualKeys<T>(s: seq<T>, key: T -> int, k: int)
    requires forall i :: 0 <= i < |s| ==> key(s[i]) == k
    ensures OrderBy(s, key) == s
  {
    OrderByOfSorted(s, key);
  }
}
