/** PHP values and PHP's ordered arrays.

    A PHP array is an ordered map: reading a key finds its entry, writing an
    existing key replaces the value in place, and writing a new key appends an
    entry at the end, so iteration follows insertion order. It is modelled as
    an association list. Arrays built by PHP never hold a key twice
    (DistinctKeys); the operations below keep that, and their results do not
    depend on it. */
module PhpArrays {
  import opened Common

  /** PHP array keys are integers or strings. */
  datatype Key = IntKey(i: int) | StrKey(s: string)

  datatype Value = Null | Bool(b: bool) | Int(n: int) | Str(s: string) | Arr(entries: seq<Entry>)

  datatype Entry = Entry(key: Key, value: Value)

  function KeySet(a: seq<Entry>): set<Key> {
    if a == [] then {} else {a[0].key} + KeySet(a[1..])
  }

  ghost predicate DistinctKeys(a: seq<Entry>) {
    a == [] || (a[0].key !in KeySet(a[1..]) && DistinctKeys(a[1..]))
  }

  /** `array_key_exists($k, $a) ? $a[$k] : <absent>` */
  function Get(a: seq<Entry>, k: Key): (r: Option<Value>)
    ensures r.Some? <==> k in KeySet(a)
    ensures r.Some? ==> Entry(k, r.value) in a
  {
    if a == [] then None
    else if a[0].key == k then Some(a[0].value)
    else Get(a[1..], k)
  }

  /** In an array without repeated keys, reading the key of an entry finds
      that entry's value. */
  lemma {:induction false} GetDistinct(a: seq<Entry>, e: Entry)
    requires DistinctKeys(a) && e in a
    ensures Get(a, e.key) == Some(e.value)
  {
    if a[0] != e {
      assert e in a[1..];
      KeySetHolds(a[1..], e);
      GetDistinct(a[1..], e);
    }
  }

  lemma {:induction false} KeySetHolds(a: seq<Entry>, e: Entry)
    requires e in a
    ensures e.key in KeySet(a)
  {
    if a[0] != e {
      assert e in a[1..];
      KeySetHolds(a[1..], e);
    }
  }

  /** `$a[$k] = $v`: replaces the value of an existing key in place, or
      appends a new entry. */
  function Set(a: seq<Entry>, k: Key, v: Value): (r: seq<Entry>)
    ensures Get(r, k) == Some(v)
    ensures forall k' | k' != k :: Get(r, k') == Get(a, k')
    ensures k !in KeySet(a) ==> r == a + [Entry(k, v)]
    ensures Get(a, k) == Some(v) ==> r == a
  {
    if a == [] then [Entry(k, v)]
    else if a[0].key == k then [Entry(k, v)] + a[1..]
    else
      var rest := Set(a[1..], k, v);
      var r := [a[0]] + rest;
      assert r[1..] == rest;
      r
  }

  /** Writing a key adds it to the keys and otherwise keeps every entry,
      each key at its position. */
  lemma SetShape(a: seq<Entry>, k: Key, v: Value)
    ensures KeySet(Set(a, k, v)) == KeySet(a) + {k}
    ensures forall e | e in Set(a, k, v) :: e in a || e == Entry(k, v)
    ensures k in KeySet(a) ==> |Set(a, k, v)| == |a|
    ensures k in KeySet(a) ==> forall i | 0 <= i < |a| :: Set(a, k, v)[i].key == a[i].key
  {
    SetKeys(a, k, v);
    if k in KeySet(a) {
      SetInPlace(a, k, v);
    }
  }

  lemma {:induction false} SetKeys(a: seq<Entry>, k: Key, v: Value)
    ensures KeySet(Set(a, k, v)) == KeySet(a) + {k}
    ensures forall e | e in Set(a, k, v) :: e in a || e == Entry(k, v)
  {
    if a != [] {
      var r := Set(a, k, v);
      if a[0].key == k {
        assert r == [Entry(k, v)] + a[1..] && r[1..] == a[1..];
      } else {
        SetKeys(a[1..], k, v);
        var rest := Set(a[1..], k, v);
        assert r == [a[0]] + rest && r[1..] == rest;
        assert KeySet(r) == {a[0].key} + KeySet(rest);
      }
    }
  }

  lemma {:induction false} SetInPlace(a: seq<Entry>, k: Key, v: Value)
    requires k in KeySet(a)
    ensures |Set(a, k, v)| == |a|
    ensures forall i | 0 <= i < |a| :: Set(a, k, v)[i].key == a[i].key
  {
    var r := Set(a, k, v);
    if a[0].key == k {
      assert r == [Entry(k, v)] + a[1..];
    } else {
      SetInPlace(a[1..], k, v);
      var rest := Set(a[1..], k, v);
      assert r == [a[0]] + rest;
      forall i | 0 <= i < |a| ensures r[i].key == a[i].key {
        if i > 0 {
          assert r[i] == rest[i - 1] && a[i] == a[1..][i - 1];
        }
      }
    }
  }

  /** Writing keeps the keys of an array distinct. */
  lemma {:induction false} SetDistinct(a: seq<Entry>, k: Key, v: Value)
    requires DistinctKeys(a)
    ensures DistinctKeys(Set(a, k, v))
  {
    if a != [] {
      var r := Set(a, k, v);
      if a[0].key == k {
        assert r[1..] == a[1..];
      } else {
        SetDistinct(a[1..], k, v);
        SetShape(a[1..], k, v);
        assert r[1..] == Set(a[1..], k, v);
      }
    }
  }

  /** The entries of an array value; anything else counts as the empty
      array (PHP creates an array when a missing or null element is written
      into as one). */
  function EntriesOf(v: Value): seq<Entry> {
    if v.Arr? then v.entries else []
  }

  /** The value at a path of keys, when every key along it exists:
      `array_key_exists` applied level by level. */
  function Find(v: Value, path: seq<Key>): Option<Value>
    decreases |path|
  {
    if path == [] then Some(v)
    else if !v.Arr? then None
    else
      match Get(v.entries, path[0])
      case None => None
      case Some(x) => Find(x, path[1..])
  }

  /** `$v[$k1][$k2]... ?? null` */
  function Lookup(v: Value, path: seq<Key>): (r: Value)
    ensures Find(v, path).Some? ==> r == Find(v, path).value
    ensures Find(v, path).None? ==> r == Null
  {
    Find(v, path).GetOr(Null)
  }

  /** `$a[$k1][$k2]... = $v`, creating the intermediate arrays that do not
      exist yet. */
  function SetPath(a: seq<Entry>, path: seq<Key>, v: Value): (r: seq<Entry>)
    requires path != []
    decreases |path|
  {
    if |path| == 1 then Set(a, path[0], v)
    else
      var inner := EntriesOf(Get(a, path[0]).GetOr(Null));
      Set(a, path[0], Arr(SetPath(inner, path[1..], v)))
  }

  lemma FindThroughEntriesOf(a: seq<Entry>, k: Key, path: seq<Key>)
    requires path != []
    ensures Find(Arr(EntriesOf(Get(a, k).GetOr(Null))), path)
         == (match Get(a, k) case Some(x) => Find(x, path) case None => None)
  {
  }

  /** A write at one path changes what is found at that path and nowhere
      else. */
  lemma {:induction false} FindAfterSetPath(a: seq<Entry>, p: seq<Key>, q: seq<Key>, v: Value)
    requires |p| == |q| >= 1
    ensures Find(Arr(SetPath(a, p, v)), q) == if p == q then Some(v) else Find(Arr(a), q)
    decreases |p|
  {
    if |p| > 1 {
      var inner := EntriesOf(Get(a, p[0]).GetOr(Null));
      var inner' := SetPath(inner, p[1..], v);
      var r := Set(a, p[0], Arr(inner'));
      assert SetPath(a, p, v) == r;
      if q[0] == p[0] {
        FindAfterSetPath(inner, p[1..], q[1..], v);
        FindThroughEntriesOf(a, p[0], q[1..]);
        assert p == q <==> p[1..] == q[1..] by {
          if p[1..] == q[1..] {
            assert p == [p[0]] + p[1..] && q == [q[0]] + q[1..];
          }
        }
      }
    }
  }

  /** What a nested write puts at its path is read back there. */
  lemma LookupAfterSetPath(a: seq<Entry>, p: seq<Key>, v: Value)
    requires p != []
    ensures Lookup(Arr(SetPath(a, p, v)), p) == v
  {
    FindAfterSetPath(a, p, p, v);
  }

  /** Writing the value that is already there changes nothing, including
      the order of the entries. */
  lemma {:induction false} SetPathUnchanged(a: seq<Entry>, p: seq<Key>, v: Value)
    requires p != []
    requires Find(Arr(a), p) == Some(v)
    ensures SetPath(a, p, v) == a
    decreases |p|
  {
    if |p| > 1 {
      var x := Get(a, p[0]).value;
      assert x.Arr?;
      SetPathUnchanged(x.entries, p[1..], v);
    }
  }

  /** A second write to the same key overrides the first, wherever the
      first put the entry. */
  lemma {:induction false} SetTwice(a: seq<Entry>, k: Key, v1: Value, v2: Value)
    ensures Set(Set(a, k, v1), k, v2) == Set(a, k, v2)
  {
    if a != [] && a[0].key != k {
      SetTwice(a[1..], k, v1, v2);
      assert Set(a, k, v1)[1..] == Set(a[1..], k, v1);
    }
  }

  lemma {:induction false} SetPathTwice(a: seq<Entry>, p: seq<Key>, v1: Value, v2: Value)
    requires p != []
    ensures SetPath(SetPath(a, p, v1), p, v2) == SetPath(a, p, v2)
    decreases |p|
  {
    if |p| == 1 {
      SetTwice(a, p[0], v1, v2);
    } else {
      var inner := EntriesOf(Get(a, p[0]).GetOr(Null));
      var once := SetPath(a, p, v1);
      assert EntriesOf(Get(once, p[0]).GetOr(Null)) == SetPath(inner, p[1..], v1);
      SetPathTwice(inner, p[1..], v1, v2);
      SetTwice(a, p[0], Arr(SetPath(inner, p[1..], v1)), Arr(SetPath(inner, p[1..], v2)));
    }
  }

  /** `array_values($a)` */
  function Values(a: seq<Entry>): (r: seq<Value>)
    ensures |r| == |a|
    ensures forall i | 0 <= i < |a| :: r[i] == a[i].value
  {
    if a == [] then [] else [a[0].value] + Values(a[1..])
  }

  /** The key `$a[] = $v` uses: one more than the largest integer key, and
      0 when there is none that is not negative. */
  function NextIndex(a: seq<Entry>): (n: nat)
    ensures forall j | j >= n :: IntKey(j) !in KeySet(a)
    ensures n == 0 || IntKey(n - 1) in KeySet(a)
  {
    if a == [] then 0
    else
      var n := NextIndex(a[1..]);
      if a[0].key.IntKey? && a[0].key.i >= n then a[0].key.i + 1 else n
  }

  /** `$a[] = $v` */
  function Append(a: seq<Entry>, v: Value): (r: seq<Entry>)
    ensures r == a + [Entry(IntKey(NextIndex(a)), v)]
  {
    Set(a, IntKey(NextIndex(a)), v)
  }

  /** A PHP list: keys 0, 1, ... in order. */
  function ListOf(vs: seq<Value>): (r: seq<Entry>)
    ensures |r| == |vs|
    ensures forall i | 0 <= i < |vs| :: r[i] == Entry(IntKey(i), vs[i])
  {
    if vs == [] then [] else ListOf(vs[..|vs| - 1]) + [Entry(IntKey(|vs| - 1), vs[|vs| - 1])]
  }

  /** Appending to an empty array twice builds the two-element list. */
  lemma TwoAppends(x: Value, y: Value)
    ensures Append(Append([], x), y) == ListOf([x, y])
  {
    var first := Append([], x);
    assert first == [Entry(IntKey(0), x)];
    assert NextIndex(first) == 1;
  }
}
