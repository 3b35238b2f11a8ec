/**
 * Python's `list.sort(key=f)`: the key of each item is computed once, the
 * items are ordered by key, and items with equal keys keep their order (the
 * sort is stable). Here the items arrive already paired with their keys.
 */
module KeySort {

  type Keyed<T> = (int, T)

  predicate Sorted<T>(s: seq<Keyed<T>>)
  {
    forall i, j :: 0 <= i < j < |s| ==> s[i].0 <= s[j].0
  }

  /** Puts `x` in front of the first item whose key is not smaller. */
  function Insert<T>(x: Keyed<T>, s: seq<Keyed<T>>): seq<Keyed<T>>
  {
    if s == [] || x.0 <= s[0].0 then [x] + s
    else [s[0]] + Insert(x, s[1..])
  }

  /** The sort, written as an insertion sort. */
  function SortByKey<T>(s: seq<Keyed<T>>): seq<Keyed<T>>
  {
    if s == [] then [] else Insert(s[0], SortByKey(s[1..]))
  }

  /** The items of `s` whose key is `k`, in order. */
  function WithKey<T>(s: seq<Keyed<T>>, k: int): seq<Keyed<T>>
  {
    if s == [] then []
    else (if s[0].0 == k then [s[0]] else []) + WithKey(s[1..], k)
  }

  lemma {:induction false} InsertMember<T>(x: Keyed<T>, s: seq<Keyed<T>>, e: Keyed<T>)
    ensures e in Insert(x, s) <==> e == x || e in s
  {
    if s != [] && x.0 > s[0].0 {
      InsertMember(x, s[1..], e);
      assert s == [s[0]] + s[1..];
    }
  }

  lemma {:induction false} InsertSorted<T>(x: Keyed<T>, s: seq<Keyed<T>>)
    requires Sorted(s)
    ensures Sorted(Insert(x, s))
  {
    if s != [] && x.0 > s[0].0 {
      InsertSorted(x, s[1..]);
      var r := Insert(x, s[1..]);
      forall e | e in r ensures s[0].0 <= e.0 {
        InsertMember(x, s[1..], e);
        if e != x {
          var i :| 0 <= i < |s[1..]| && s[1..][i] == e;
          assert s[i + 1] == e;
        }
      }
    }
  }

  lemma {:induction false} InsertMultiset<T>(x: Keyed<T>, s: seq<Keyed<T>>)
    ensures multiset(Insert(x, s)) == multiset(s) + multiset{x}
  {
    if s != [] && x.0 > s[0].0 {
      InsertMultiset(x, s[1..]);
      assert s == [s[0]] + s[1..];
    }
  }

  lemma {:induction false} InsertWithKey<T>(x: Keyed<T>, s: seq<Keyed<T>>, k: int)
    requires Sorted(s)
    ensures WithKey(Insert(x, s), k) == (if x.0 == k then [x] else []) + WithKey(s, k)
  {
    var mine := if x.0 == k then [x] else [];
    if s != [] && x.0 > s[0].0 {
      var r := Insert(x, s[1..]);
      var head := if s[0].0 == k then [s[0]] else [];
      InsertWithKey(x, s[1..], k);
      WithKeyCons(s[0], r, k);
      WithKeyCons(s[0], s[1..], k);
      assert s == [s[0]] + s[1..];
      assert head == [] || mine == [];
    } else {
      WithKeyCons(x, s, k);
    }
  }

  lemma WithKeyCons<T>(x: Keyed<T>, s: seq<Keyed<T>>, k: int)
    ensures WithKey([x] + s, k) == (if x.0 == k then [x] else []) + WithKey(s, k)
  {
    assert ([x] + s)[1..] == s;
  }

  /** The sort orders by key and keeps every item. */
  lemma {:induction false} SortByKeySorted<T>(s: seq<Keyed<T>>)
    ensures Sorted(SortByKey(s))
    ensures multiset(SortByKey(s)) == multiset(s)
  {
    if s != [] {
      SortByKeySorted(s[1..]);
      InsertSorted(s[0], SortByKey(s[1..]));
      InsertMultiset(s[0], SortByKey(s[1..]));
      assert s == [s[0]] + s[1..];
    }
  }

  /** The sort is stable: items with equal keys keep their relative order. */
  lemma {:induction false} SortByKeyStable<T>(s: seq<Keyed<T>>, k: int)
    ensures WithKey(SortByKey(s), k) == WithKey(s, k)
  {
    if s != [] {
      SortByKeyStable(s[1..], k);
      SortByKeySorted(s[1..]);
      InsertWithKey(s[0], SortByKey(s[1..]), k);
    }
  }

  /**
   * Sorted and stable pin the result down: any sorted list whose items of
   * each key come in the input's order is the sort's result.
   */
  lemma {:induction false} SortedStableUnique<T>(s: seq<Keyed<T>>, r: seq<Keyed<T>>)
    requires Sorted(r)
    requires forall k :: WithKey(r, k) == WithKey(s, k)
    ensures r == SortByKey(s)
  {
    var q := SortByKey(s);
    SortByKeySorted(s);
    forall k ensures WithKey(r, k) == WithKey(q, k) {
      SortByKeyStable(s, k);
    }
    SortedWithKeyUnique(r, q);
  }

  lemma {:induction false} SortedWithKeyUnique<T>(a: seq<Keyed<T>>, b: seq<Keyed<T>>)
    requires Sorted(a) && Sorted(b)
    requires forall k :: WithKey(a, k) == WithKey(b, k)
    ensures a == b
    decreases |a| + |b|
  {
    if a == [] && b == [] {
    } else if a == [] {
      WithKeyHead(b);
      assert false;
    } else if b == [] {
      WithKeyHead(a);
      assert false;
    } else {
      WithKeyHead(a);
      WithKeyHead(b);
      if a[0].0 < b[0].0 {
        WithKeyAbsent(b, a[0].0);
        assert false;
      } else if b[0].0 < a[0].0 {
        WithKeyAbsent(a, b[0].0);
        assert false;
      } else {
        assert a[0] == WithKey(a, a[0].0)[0] == WithKey(b, a[0].0)[0] == b[0];
        forall k ensures WithKey(a[1..], k) == WithKey(b[1..], k) {
          assert WithKey(a, k) == WithKey(b, k);
          if a[0].0 == k {
            assert WithKey(a, k) == [a[0]] + WithKey(a[1..], k);
            assert WithKey(b, k) == [a[0]] + WithKey(b[1..], k);
            assert WithKey(a[1..], k) == WithKey(a, k)[1..];
            assert WithKey(b[1..], k) == WithKey(b, k)[1..];
          } else {
            assert WithKey(a, k) == [] + WithKey(a[1..], k) == WithKey(a[1..], k);
            assert WithKey(b, k) == [] + WithKey(b[1..], k) == WithKey(b[1..], k);
          }
        }
        SortedWithKeyUnique(a[1..], b[1..]);
        assert a == [a[0]] + a[1..];
        assert b == [b[0]] + b[1..];
      }
    }
  }

  lemma WithKeyHead<T>(s: seq<Keyed<T>>)
    requires s != []
    ensures WithKey(s, s[0].0) == [s[0]] + WithKey(s[1..], s[0].0)
  {
  }

  /** A sorted list has no item with a key below its first. */
  lemma {:induction false} WithKeyAbsent<T>(s: seq<Keyed<T>>, k: int)
    requires Sorted(s) && s != [] && k < s[0].0
    ensures WithKey(s, k) == []
  {
    if |s| > 1 {
      WithKeyAbsent(s[1..], k);
    }
  }

  /** In a sorted list, an item before position `b` has a key no larger than any item from `b` on. */
  lemma SortedBeforeRest<T>(s: seq<Keyed<T>>, b: nat, j: nat, q: Keyed<T>)
    requires Sorted(s) && j < b <= |s|
    requires q in multiset(s) - multiset(s[..b])
    ensures s[j].0 <= q.0
  {
    assert s == s[..b] + s[b..];
    assert q in multiset(s[b..]);
    var k :| 0 <= k < |s[b..]| && s[b..][k] == q;
    assert s[b + k] == q;
  }
}
