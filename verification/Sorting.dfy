/**
 * The stable sort by key behind the `sorted(…, key=…)` calls of the modelled Python scripts and the `[…].sort(…)` calls
 * of the TypeScript ones. It permutes, it sorts, it leaves a sorted list alone, and it keeps equal keys in their
 * order, which is what decides between two rows of one key and between two equally good candidates.
 */
module Sorting {

  ghost predicate Sorted<T>(s: seq<T>, key: T -> real) {
    forall i, j :: 0 <= i < j < |s| ==> key(s[i]) <= key(s[j])
  }

  /** Equal keys keep their order: `x` goes in front of every element with its key. */
  function Insert<T>(x: T, s: seq<T>, key: T -> real): seq<T> {
    if s == [] || key(x) <= key(s[0]) then [x] + s else [s[0]] + Insert(x, s[1..], key)
  }

  function SortBy<T>(s: seq<T>, key: T -> real): seq<T> {
    if s == [] then [] else Insert(s[0], SortBy(s[1..], key), key)
  }

  lemma {:induction false} InsertPermutes<T>(x: T, s: seq<T>, key: T -> real)
    ensures multiset(Insert(x, s, key)) == multiset([x]) + multiset(s)
  {
    if s != [] && key(x) > key(s[0]) {
      InsertPermutes(x, s[1..], key);
      assert s == [s[0]] + s[1..];
    }
  }

  lemma {:induction false} SortPermutes<T>(s: seq<T>, key: T -> real)
    ensures multiset(SortBy(s, key)) == multiset(s)
  {
    if s != [] {
      SortPermutes(s[1..], key);
      InsertPermutes(s[0], SortBy(s[1..], key), key);
      assert s == [s[0]] + s[1..];
    }
  }

  lemma {:induction false} InsertKeepsSorted<T>(x: T, s: seq<T>, key: T -> real)
    requires Sorted(s, key)
    ensures Sorted(Insert(x, s, key), key)
  {
    if s != [] && key(x) > key(s[0]) {
      var rest := Insert(x, s[1..], key);
      InsertKeepsSorted(x, s[1..], key);
      InsertPermutes(x, s[1..], key);
      forall i | 0 <= i < |rest| ensures key(s[0]) <= key(rest[i]) {
        assert rest[i] in multiset(rest);
        assert rest[i] == x || rest[i] in multiset(s[1..]);
      }
    }
  }

  lemma {:induction false} SortSorts<T>(s: seq<T>, key: T -> real)
    ensures Sorted(SortBy(s, key), key)
  {
    if s != [] {
      SortSorts(s[1..], key);
      InsertKeepsSorted(s[0], SortBy(s[1..], key), key);
    }
  }

  /** The elements with the key `v`, in order. */
  ghost function WithKey<T>(s: seq<T>, key: T -> real, v: real): seq<T> {
    if s == [] then [] else (if key(s[0]) == v then [s[0]] else []) + WithKey(s[1..], key, v)
  }

  lemma {:induction false} InsertIsStable<T>(x: T, s: seq<T>, key: T -> real, v: real)
    requires Sorted(s, key)
    ensures WithKey(Insert(x, s, key), key, v) == (if key(x) == v then [x] else []) + WithKey(s, key, v)
  {
    if s != [] && key(x) > key(s[0]) {
      InsertIsStable(x, s[1..], key, v);
    } else {
      assert ([x] + s)[1..] == s;
    }
  }

  /** Elements with equal keys keep their order. */
  lemma {:induction false} SortIsStable<T>(s: seq<T>, key: T -> real, v: real)
    ensures WithKey(SortBy(s, key), key, v) == WithKey(s, key, v)
  {
    if s != [] {
      SortIsStable(s[1..], key, v);
      SortSorts(s[1..], key);
      InsertIsStable(s[0], SortBy(s[1..], key), key, v);
    }
  }

  lemma {:induction false} SortedIsFixed<T>(s: seq<T>, key: T -> real)
    requires Sorted(s, key)
    ensures SortBy(s, key) == s
  {
    if s != [] {
      SortedIsFixed(s[1..], key);
    }
  }

  lemma {:induction false} SameElements<T>(s: seq<T>, key: T -> real)
    ensures |SortBy(s, key)| == |s|
    ensures forall x :: x in SortBy(s, key) <==> x in s
  {
    SortPermutes(s, key);
    var r := SortBy(s, key);
    assert |multiset(r)| == |multiset(s)|;
    assert forall x :: (x in r <==> x in multiset(r)) && (x in s <==> x in multiset(s));
  }

  /** `x` stands before `y` somewhere in `s`. */
  ghost predicate Precedes<T>(s: seq<T>, x: T, y: T) {
    exists p, q :: 0 <= p < q < |s| && s[p] == x && s[q] == y
  }

  lemma {:induction false} PrecedesInLonger<T>(s: seq<T>, x: T, y: T)
    requires s != [] && (Precedes(s[1..], x, y) || (s[0] == x && y in s[1..]))
    ensures Precedes(s, x, y)
  {
    var rest := s[1..];
    if Precedes(rest, x, y) {
      var p, q :| 0 <= p < q < |rest| && rest[p] == x && rest[q] == y;
      assert s[p + 1] == x && s[q + 1] == y;
    } else {
      var q :| 0 <= q < |rest| && rest[q] == y;
      assert s[0] == x && s[q + 1] == y;
    }
  }

  lemma {:induction false} PrecedesInTail<T>(head: T, rest: seq<T>, x: T, y: T)
    requires Precedes([head] + rest, x, y)
    ensures Precedes(rest, x, y) || (x == head && y in rest)
  {
    var s := [head] + rest;
    var p, q :| 0 <= p < q < |s| && s[p] == x && s[q] == y;
    assert rest[q - 1] == y && (p > 0 ==> rest[p - 1] == x);
  }

  lemma {:induction false} InsertKeepsOrder<T>(x: T, s: seq<T>, key: T -> real, i: nat, j: nat)
    requires Sorted(s, key) && i < j < |Insert(x, s, key)|
    ensures var r := Insert(x, s, key);
      || Precedes(s, r[i], r[j])
      || (r[i] == x && r[j] in s)
      || (r[i] in s && r[j] == x && key(r[i]) < key(x))
  {
    var r := Insert(x, s, key);
    if s == [] || key(x) <= key(s[0]) {
      if i > 0 { assert s[i - 1] == r[i] && s[j - 1] == r[j]; }
    } else {
      InsertPermutes(x, s[1..], key);
      var rest := Insert(x, s[1..], key);
      if i > 0 {
        InsertKeepsOrder(x, s[1..], key, i - 1, j - 1);
        if Precedes(s[1..], r[i], r[j]) { PrecedesInLonger(s, r[i], r[j]); }
      } else {
        assert r[j] == rest[j - 1] && rest[j - 1] in multiset(rest);
        assert r[j] == x || r[j] in multiset(s[1..]);
        if r[j] in s[1..] { PrecedesInLonger(s, r[0], r[j]); }
      }
    }
  }

  /** Of two elements with one key, the one that stood first comes first. */
  lemma {:induction false} SortKeepsOrder<T>(s: seq<T>, key: T -> real, i: nat, j: nat)
    requires i < j < |SortBy(s, key)| && key(SortBy(s, key)[i]) == key(SortBy(s, key)[j])
    ensures Precedes(s, SortBy(s, key)[i], SortBy(s, key)[j])
  {
    var r, rest := SortBy(s, key), SortBy(s[1..], key);
    SortSorts(s[1..], key);
    SameElements(s[1..], key);
    InsertKeepsOrder(s[0], rest, key, i, j);
    if Precedes(rest, r[i], r[j]) {
      var p, q :| 0 <= p < q < |rest| && rest[p] == r[i] && rest[q] == r[j];
      SortKeepsOrder(s[1..], key, p, q);
    }
    PrecedesInLonger(s, r[i], r[j]);
  }

  ghost predicate Distinct<T>(s: seq<T>) {
    forall i, j :: 0 <= i < j < |s| ==> s[i] != s[j]
  }

  lemma {:induction false} DistinctIffSingle<T>(s: seq<T>)
    ensures Distinct(s) <==> forall x :: x in s ==> multiset(s)[x] == 1
  {
    if s != [] {
      var rest := s[1..];
      assert s == [s[0]] + rest;
      DistinctIffSingle(rest);
      if Distinct(s) {
        assert forall i :: 0 <= i < |rest| ==> rest[i] == s[i + 1];
        assert Distinct(rest);
        assert s[0] !in rest;
        forall x | x in s ensures multiset(s)[x] == 1 {
          assert x == s[0] || x in rest;
        }
      } else if forall x :: x in s ==> multiset(s)[x] == 1 {
        assert multiset(s)[s[0]] == 1 + multiset(rest)[s[0]];
        assert s[0] !in multiset(rest);
        forall x | x in rest ensures multiset(rest)[x] == 1 {
          assert x in s;
        }
        forall i, j | 0 <= i < j < |s| ensures s[i] != s[j] {
          if i == 0 { assert s[j] == rest[j - 1]; assert rest[j - 1] in multiset(rest); }
          else { assert s[i] == rest[i - 1] && s[j] == rest[j - 1]; }
        }
      }
    }
  }

  lemma {:induction false} SortKeepsDistinct<T>(s: seq<T>, key: T -> real)
    requires Distinct(s)
    ensures Distinct(SortBy(s, key))
  {
    DistinctIffSingle(s);
    DistinctIffSingle(SortBy(s, key));
    SortPermutes(s, key);
    SameElements(s, key);
  }
}
