/**
  Python's ordering of strings (code point by code point, a proper prefix
  first) and `sorted` on the items of a dict with distinct keys, which the
  reader uses to fingerprint the fetched files.
 */
module Ordering {
  import opened Dicts

  /** `a < b` on Python strings. */
  predicate Below(a: string, b: string)
    decreases |a|
  {
    if a == [] then b != []
    else if b == [] then false
    else a[0] < b[0] || (a[0] == b[0] && Below(a[1..], b[1..]))
  }

  lemma {:induction false} BelowIrreflexive(a: string)
    ensures !Below(a, a)
    decreases |a|
  {
    if a != [] {
      BelowIrreflexive(a[1..]);
    }
  }

  lemma {:induction false} BelowTransitive(a: string, b: string, c: string)
    requires Below(a, b) && Below(b, c)
    ensures Below(a, c)
    decreases |a|
  {
    if a != [] && b != [] && c != [] && a[0] == b[0] && b[0] == c[0] {
      BelowTransitive(a[1..], b[1..], c[1..]);
    }
  }

  lemma {:induction false} BelowTotal(a: string, b: string)
    requires a != b
    ensures Below(a, b) || Below(b, a)
    decreases |a|
  {
    if a != [] && b != [] && a[0] == b[0] {
      assert a == [a[0]] + a[1..] && b == [b[0]] + b[1..];
      BelowTotal(a[1..], b[1..]);
    }
  }

  lemma {:induction false} BelowAsymmetric(a: string, b: string)
    requires Below(a, b)
    ensures !Below(b, a)
  {
    if Below(b, a) {
      BelowTransitive(a, b, a);
      BelowIrreflexive(a);
    }
  }

  /** Items in strictly increasing order of their keys. */
  ghost predicate SortedByKey<V>(s: Dict<V>) {
    forall i, j :: 0 <= i < j < |s| ==> Below(s[i].0, s[j].0)
  }

  /** Inserts `item` before the first item whose key is above its own. */
  function Insert<V>(item: (string, V), s: Dict<V>): (r: Dict<V>)
    ensures multiset(r) == multiset(s) + multiset{item}
  {
    if s == [] then [item]
    else if Below(item.0, s[0].0) then [item] + s
    else
      assert s == [s[0]] + s[1..];
      [s[0]] + Insert(item, s[1..])
  }

  /** `sorted(d.items())` for a dict `d`: its items ordered by key. */
  function SortByKey<V>(d: Dict<V>): (r: Dict<V>)
    ensures multiset(r) == multiset(d)
  {
    if d == [] then []
    else
      assert d == [d[0]] + d[1..];
      Insert(d[0], SortByKey(d[1..]))
  }

  lemma {:induction false} InsertSorted<V>(item: (string, V), s: Dict<V>)
    requires SortedByKey(s)
    requires forall i :: 0 <= i < |s| ==> s[i].0 != item.0
    ensures SortedByKey(Insert(item, s))
  {
    if s != [] && !Below(item.0, s[0].0) {
      BelowTotal(item.0, s[0].0);
      InsertSorted(item, s[1..]);
      InsertAbove(item, s[1..], s[0].0);
      ConsSorted(s[0], Insert(item, s[1..]));
    } else if s != [] {
      forall j | 1 <= j < |s| ensures Below(item.0, s[j].0) {
        BelowTransitive(item.0, s[0].0, s[j].0);
      }
    }
  }

  /** Inserting an item above `lo` into items above `lo` keeps every key above `lo`. */
  lemma {:induction false} InsertAbove<V>(item: (string, V), s: Dict<V>, lo: string)
    requires Below(lo, item.0)
    requires forall i :: 0 <= i < |s| ==> Below(lo, s[i].0)
    ensures forall j :: 0 <= j < |Insert(item, s)| ==> Below(lo, Insert(item, s)[j].0)
  {
    if s != [] && !Below(item.0, s[0].0) {
      InsertAbove(item, s[1..], lo);
    }
  }

  /** An item below every key of a sorted sequence can go in front of it. */
  lemma ConsSorted<V>(x: (string, V), s: Dict<V>)
    requires SortedByKey(s)
    requires forall j :: 0 <= j < |s| ==> Below(x.0, s[j].0)
    ensures SortedByKey([x] + s)
  {
  }

  /** The items of a dict with distinct keys come out of `sorted` in strictly increasing order. */
  lemma {:induction false} SortByKeySorted<V>(d: Dict<V>)
    requires DistinctKeys(d)
    ensures SortedByKey(SortByKey(d))
  {
    if d != [] {
      SortByKeySorted(d[1..]);
      var rest := SortByKey(d[1..]);
      forall i | 0 <= i < |rest| ensures rest[i].0 != d[0].0 {
        assert rest[i] in multiset(d[1..]);
        var k :| 0 <= k < |d[1..]| && d[1..][k] == rest[i];
        assert d[k + 1] == rest[i];
      }
      InsertSorted(d[0], rest);
    }
  }

  /** The least key of a strictly sorted sequence comes first. */
  lemma {:induction false} SortedHeadsAgree<V>(a: Dict<V>, b: Dict<V>)
    requires SortedByKey(a) && SortedByKey(b)
    requires a != [] && b != [] && multiset(a) == multiset(b)
    ensures a[0] == b[0]
  {
    assert a[0] in multiset(b);
    assert b[0] in multiset(a);
    var j :| 0 <= j < |b| && b[j] == a[0];
    var i :| 0 <= i < |a| && a[i] == b[0];
    if j != 0 && i != 0 {
      BelowAsymmetric(b[0].0, a[0].0);
    } else if j != 0 {
      BelowIrreflexive(a[0].0);
    }
  }

  lemma {:induction false} SortedTail<V>(a: Dict<V>)
    requires SortedByKey(a) && a != []
    ensures SortedByKey(a[1..])
    ensures multiset(a[1..]) == multiset(a) - multiset{a[0]}
  {
    assert a == [a[0]] + a[1..];
  }

  /** There is only one strictly sorted arrangement of the same items. */
  lemma {:induction false} SortedUnique<V>(a: Dict<V>, b: Dict<V>)
    requires SortedByKey(a) && SortedByKey(b)
    requires multiset(a) == multiset(b)
    ensures a == b
  {
    assert |a| == |multiset(a)| == |multiset(b)| == |b|;
    if a != [] {
      SortedHeadsAgree(a, b);
      SortedTail(a);
      SortedTail(b);
      SortedUnique(a[1..], b[1..]);
      assert a == [a[0]] + a[1..] && b == [b[0]] + b[1..];
    }
  }

  /**
    Sorting forgets the order of the items: two dicts with distinct keys and
    the same items sort to the same sequence.
   */
  lemma {:induction false} SortByKeyIgnoresOrder<V>(d1: Dict<V>, d2: Dict<V>)
    requires DistinctKeys(d1) && DistinctKeys(d2)
    requires multiset(d1) == multiset(d2)
    ensures SortByKey(d1) == SortByKey(d2)
  {
    SortByKeySorted(d1);
    SortByKeySorted(d2);
    SortedUnique(SortByKey(d1), SortByKey(d2));
  }
}
