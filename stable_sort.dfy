/** `list.sort((a, b) => a.order - b.order)` on records whose `order` may be
    missing. `Array.prototype.sort` is stable; the comparator's result for
    a missing `order` is `NaN`, which no comparison finds below zero, so the
    model compares such a pair as equal. The sort is modelled as the stable
    insertion sort that places each element after every earlier element that
    does not compare above it. */
module StableSort {
  import opened Maybe
  import opened Seqs

  /** `a.order - b.order`, with `NaN` read as 0. */
  function Compare(a: Option<int>, b: Option<int>): int {
    if a.Some? && b.Some? then a.value - b.value else 0
  }

  /** Insert `x` before the first element that compares above it. */
  function Insert<T>(x: T, s: seq<T>, key: T -> Option<int>): (r: seq<T>)
    ensures |r| == |s| + 1
  {
    if s == [] then [x]
    else if Compare(key(x), key(s[0])) < 0 then [x] + s
    else [s[0]] + Insert(x, s[1..], key)
  }

  /** The sorted list: each element in turn, in input order, inserted into
      the sorted prefix. */
  function SortBy<T>(s: seq<T>, key: T -> Option<int>): (r: seq<T>)
    ensures |r| == |s|
  {
    if s == [] then [] else Insert(s[|s| - 1], SortBy(s[..|s| - 1], key), key)
  }

  /** The elements whose key is `k`. */
  function WithKey<T>(s: seq<T>, key: T -> Option<int>, k: int): seq<T> {
    Filter(s, (y: T) => key(y) == Some(k))
  }

  predicate AllKeyed<T>(s: seq<T>, key: T -> Option<int>) {
    forall i :: 0 <= i < |s| ==> key(s[i]).Some?
  }

  /** Non-decreasing by key. */
  predicate SortedBy<T>(s: seq<T>, key: T -> Option<int>)
    requires AllKeyed(s, key)
  {
    forall i, j :: 0 <= i < j < |s| ==> key(s[i]).value <= key(s[j]).value
  }

  /** Inserting adds exactly the one element. */
  lemma {:induction false} InsertPermutes<T>(x: T, s: seq<T>, key: T -> Option<int>)
    ensures multiset(Insert(x, s, key)) == multiset(s) + multiset{x}
  {
    if s != [] && Compare(key(x), key(s[0])) >= 0 {
      InsertPermutes(x, s[1..], key);
      assert s == [s[0]] + s[1..];
    }
  }

  /** The sort only rearranges: the result is a permutation of the input. */
  lemma {:induction false} SortPermutes<T>(s: seq<T>, key: T -> Option<int>)
    ensures multiset(SortBy(s, key)) == multiset(s)
  {
    if s != [] {
      var init := s[..|s| - 1];
      SortPermutes(init, key);
      InsertPermutes(s[|s| - 1], SortBy(init, key), key);
      assert s == init + [s[|s| - 1]];
    }
  }

  /** Inserting into a sorted list keeps it sorted, when every key is there. */
  lemma {:induction false} InsertSorted<T>(x: T, s: seq<T>, key: T -> Option<int>)
    requires key(x).Some? && AllKeyed(s, key) && SortedBy(s, key)
    ensures AllKeyed(Insert(x, s, key), key) && SortedBy(Insert(x, s, key), key)
  {
    if s != [] && Compare(key(x), key(s[0])) >= 0 {
      InsertSorted(x, s[1..], key);
      InsertPermutes(x, s[1..], key);
      var r := Insert(x, s[1..], key);
      forall i | 0 <= i < |r| ensures key(s[0]).value <= key(r[i]).value {
        assert r[i] in multiset(s[1..]) + multiset{x};
        if r[i] != x {
          assert r[i] in s[1..];
        }
      }
    }
  }

  /** When every element has an `order`, the result is in non-decreasing
      order. */
  lemma {:induction false} SortSorted<T>(s: seq<T>, key: T -> Option<int>)
    requires AllKeyed(s, key)
    ensures AllKeyed(SortBy(s, key), key) && SortedBy(SortBy(s, key), key)
  {
    if s != [] {
      var init := s[..|s| - 1];
      SortSorted(init, key);
      InsertSorted(s[|s| - 1], SortBy(init, key), key);
    }
  }

  /** In a sorted list that starts above `k`, nothing has key `k`. */
  lemma SortedAbove<T>(s: seq<T>, key: T -> Option<int>, k: int)
    requires AllKeyed(s, key) && SortedBy(s, key) && (s == [] || key(s[0]).value > k)
    ensures Filter(s, (y: T) => key(y) == Some(k)) == []
  {
    FilterDropsAll(s, (y: T) => key(y) == Some(k));
  }

  /** Inserting `x` into a sorted list adds it after every element with the
      same key. */
  lemma {:induction false} InsertStable<T>(x: T, s: seq<T>, key: T -> Option<int>, k: int)
    requires key(x).Some? && AllKeyed(s, key) && SortedBy(s, key)
    ensures Filter(Insert(x, s, key), (y: T) => key(y) == Some(k))
            == Filter(s, (y: T) => key(y) == Some(k)) + (if key(x) == Some(k) then [x] else [])
  {
    var p := (y: T) => key(y) == Some(k);
    if s == [] {
    } else if Compare(key(x), key(s[0])) < 0 {
      assert Insert(x, s, key) == [x] + s;
      FilterConcat([x], s, p);
      if key(x) == Some(k) {
        SortedAbove(s, key, k);
      } else {
        assert Filter([x], p) == [];
      }
    } else {
      var r := Insert(x, s[1..], key);
      assert Insert(x, s, key) == [s[0]] + r;
      InsertStable(x, s[1..], key, k);
      FilterConcat([s[0]], r, p);
      FilterConcat([s[0]], s[1..], p);
      assert s == [s[0]] + s[1..];
    }
  }

  /** The sort is stable: when every element has an `order`, the elements
      with any one `order` come out in their input order. */
  lemma {:induction false} SortStable<T>(s: seq<T>, key: T -> Option<int>, k: int)
    requires AllKeyed(s, key)
    ensures WithKey(SortBy(s, key), key, k) == WithKey(s, key, k)
  {
    var p := (y: T) => key(y) == Some(k);
    if s != [] {
      var init, last := s[..|s| - 1], s[|s| - 1];
      SortStable(init, key, k);
      SortSorted(init, key);
      InsertStable(last, SortBy(init, key), key, k);
      assert s == init + [last];
      FilterConcat(init, [last], p);
      assert Filter([last], p) == (if p(last) then [last] else []);
    }
  }
}
