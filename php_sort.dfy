/** `ksort`: sorting a PHP array by its keys.

    Keys are compared with a fixed total order: integer keys by value and
    before every string key, string keys by code point, shorter prefix
    first. The sort is an insertion sort; it is stable. */
module PhpSort {
  import opened PhpArrays

  predicate StrLeq(a: string, b: string) {
    a == [] || (b != [] && (a[0] < b[0] || (a[0] == b[0] && StrLeq(a[1..], b[1..]))))
  }

  predicate KeyLeq(a: Key, b: Key) {
    match (a, b)
    case (IntKey(x), IntKey(y)) => x <= y
    case (IntKey(_), StrKey(_)) => true
    case (StrKey(_), IntKey(_)) => false
    case (StrKey(x), StrKey(y)) => StrLeq(x, y)
  }

  predicate KeyLess(a: Key, b: Key) {
    KeyLeq(a, b) && a != b
  }

  lemma {:induction false} StrLeqTotal(a: string, b: string)
    ensures StrLeq(a, b) || StrLeq(b, a)
  {
    if a != [] && b != [] && a[0] == b[0] {
      StrLeqTotal(a[1..], b[1..]);
    }
  }

  lemma {:induction false} StrLeqTransitive(a: string, b: string, c: string)
    requires StrLeq(a, b) && StrLeq(b, c)
    ensures StrLeq(a, c)
  {
    if a != [] && a[0] == b[0] && b[0] == c[0] {
      StrLeqTransitive(a[1..], b[1..], c[1..]);
    }
  }

  lemma {:induction false} StrLeqAntisymmetric(a: string, b: string)
    requires StrLeq(a, b) && StrLeq(b, a)
    ensures a == b
  {
    if a != [] {
      StrLeqAntisymmetric(a[1..], b[1..]);
      assert a == [a[0]] + a[1..] && b == [b[0]] + b[1..];
    }
  }

  /** The key order is a total order. */
  lemma KeyLeqTotalOrder(a: Key, b: Key, c: Key)
    ensures KeyLeq(a, a)
    ensures KeyLeq(a, b) || KeyLeq(b, a)
    ensures KeyLeq(a, b) && KeyLeq(b, a) ==> a == b
    ensures KeyLeq(a, b) && KeyLeq(b, c) ==> KeyLeq(a, c)
  {
    if a.StrKey? {
      StrLeqTotal(a.s, a.s);
      if b.StrKey? {
        StrLeqTotal(a.s, b.s);
        if StrLeq(a.s, b.s) && StrLeq(b.s, a.s) {
          StrLeqAntisymmetric(a.s, b.s);
        }
        if c.StrKey? && StrLeq(a.s, b.s) && StrLeq(b.s, c.s) {
          StrLeqTransitive(a.s, b.s, c.s);
        }
      }
    }
  }

  ghost predicate SortedByKey(a: seq<Entry>) {
    forall i, j | 0 <= i < j < |a| :: KeyLeq(a[i].key, a[j].key)
  }

  /** Inserts an entry in front of the first entry whose key is larger. */
  function InsertByKey(e: Entry, a: seq<Entry>): (r: seq<Entry>)
    requires SortedByKey(a)
    ensures SortedByKey(r)
    ensures multiset(r) == multiset(a) + multiset{e}
  {
    if a == [] then [e]
    else if KeyLeq(e.key, a[0].key) then
      var r := [e] + a;
      InsertFrontSorted(e, a);
      r
    else
      var rest := InsertByKey(e, a[1..]);
      assert a == [a[0]] + a[1..];
      InsertBehindSorted(e, a, rest);
      [a[0]] + rest
  }

  lemma InsertFrontSorted(e: Entry, a: seq<Entry>)
    requires SortedByKey(a) && a != [] && KeyLeq(e.key, a[0].key)
    ensures SortedByKey([e] + a)
  {
    var r := [e] + a;
    forall i, j | 0 <= i < j < |r| ensures KeyLeq(r[i].key, r[j].key) {
      if i == 0 {
        KeyLeqTotalOrder(e.key, a[0].key, r[j].key);
      } else {
        assert r[i] == a[i - 1] && r[j] == a[j - 1];
      }
    }
  }

  lemma InsertBehindSorted(e: Entry, a: seq<Entry>, rest: seq<Entry>)
    requires SortedByKey(a) && a != [] && !KeyLeq(e.key, a[0].key)
    requires SortedByKey(rest) && multiset(rest) == multiset(a[1..]) + multiset{e}
    ensures SortedByKey([a[0]] + rest)
  {
    var r := [a[0]] + rest;
    KeyLeqTotalOrder(e.key, a[0].key, e.key);
    forall j | 1 <= j < |r| ensures KeyLeq(a[0].key, r[j].key) {
      assert r[j] == rest[j - 1];
      assert r[j] in multiset(rest);
      if r[j] != e {
        assert r[j] in multiset(a[1..]);
        var m :| 0 <= m < |a[1..]| && a[1..][m] == r[j];
        assert a[m + 1] == r[j];
      }
    }
    forall i, j | 0 <= i < j < |r| ensures KeyLeq(r[i].key, r[j].key) {
      if i > 0 {
        assert r[i] == rest[i - 1] && r[j] == rest[j - 1];
      }
    }
  }

  lemma {:induction false} InsertKeys(e: Entry, a: seq<Entry>)
    requires SortedByKey(a)
    ensures KeySet(InsertByKey(e, a)) == KeySet(a) + {e.key}
  {
    if a != [] && !KeyLeq(e.key, a[0].key) {
      InsertKeys(e, a[1..]);
      assert InsertByKey(e, a)[1..] == InsertByKey(e, a[1..]);
    } else if a != [] {
      assert InsertByKey(e, a)[1..] == a;
    }
  }

  /** `ksort($a)` */
  function KSort(a: seq<Entry>): (r: seq<Entry>)
    ensures SortedByKey(r)
    ensures multiset(r) == multiset(a)
  {
    if a == [] then []
    else
      assert a == [a[0]] + a[1..];
      InsertByKey(a[0], KSort(a[1..]))
  }

  lemma {:induction false} KSortKeys(a: seq<Entry>)
    ensures KeySet(KSort(a)) == KeySet(a)
  {
    if a != [] {
      KSortKeys(a[1..]);
      InsertKeys(a[0], KSort(a[1..]));
    }
  }

  /** An array whose keys are distinct keeps them distinct when sorted. */
  lemma {:induction false} KSortDistinct(a: seq<Entry>)
    requires DistinctKeys(a)
    ensures DistinctKeys(KSort(a))
  {
    if a != [] {
      KSortDistinct(a[1..]);
      KSortKeys(a[1..]);
      InsertDistinct(a[0], KSort(a[1..]));
    }
  }

  lemma {:induction false} InsertDistinct(e: Entry, a: seq<Entry>)
    requires SortedByKey(a) && DistinctKeys(a) && e.key !in KeySet(a)
    ensures DistinctKeys(InsertByKey(e, a))
  {
    if a != [] && !KeyLeq(e.key, a[0].key) {
      InsertDistinct(e, a[1..]);
      InsertKeys(e, a[1..]);
      assert InsertByKey(e, a)[1..] == InsertByKey(e, a[1..]);
    } else if a != [] {
      assert InsertByKey(e, a)[1..] == a;
    }
  }

  /** In a sorted array whose keys are distinct, keys strictly increase. */
  lemma {:induction false} SortedDistinctStrict(a: seq<Entry>, i: nat, j: nat)
    requires SortedByKey(a) && DistinctKeys(a)
    requires i < j < |a|
    ensures KeyLess(a[i].key, a[j].key)
  {
    if i == 0 {
      KeySetHolds(a[1..], j - 1);
    } else {
      SortedDistinctStrict(a[1..], i - 1, j - 1);
    }
  }

  lemma {:induction false} KeySetHolds(a: seq<Entry>, i: nat)
    requires i < |a|
    ensures a[i].key in KeySet(a)
  {
    if i > 0 {
      KeySetHolds(a[1..], i - 1);
    }
  }

  /** Maps every entry to a sequence and concatenates the results. */
  function FlatMap<T>(a: seq<Entry>, f: Entry -> seq<T>): (r: seq<T>)
  {
    if a == [] then [] else f(a[0]) + FlatMap(a[1..], f)
  }

  lemma {:induction false} FlatMapInsert<T>(e: Entry, a: seq<Entry>, f: Entry -> seq<T>)
    requires SortedByKey(a)
    ensures multiset(FlatMap(InsertByKey(e, a), f)) == multiset(FlatMap(a, f)) + multiset(f(e))
  {
    if a != [] && !KeyLeq(e.key, a[0].key) {
      FlatMapInsert(e, a[1..], f);
      assert InsertByKey(e, a) == [a[0]] + InsertByKey(e, a[1..]);
    }
  }

  /** Sorting only reorders: whatever each entry contributes to a
      concatenation is still there, as often as before. */
  lemma {:induction false} FlatMapKSort<T>(a: seq<Entry>, f: Entry -> seq<T>)
    ensures multiset(FlatMap(KSort(a), f)) == multiset(FlatMap(a, f))
  {
    if a != [] {
      FlatMapKSort(a[1..], f);
      FlatMapInsert(a[0], KSort(a[1..]), f);
    }
  }
}
