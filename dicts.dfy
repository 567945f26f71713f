/**
  A Python dict with string keys, as the source uses it: the items in insertion
  order, a key stored at most once, and assignment to an existing key replacing
  its value in place.
 */
module Dicts {

  type Dict<V> = seq<(string, V)>

  function Keys<V>(d: Dict<V>): (ks: seq<string>)
    ensures |ks| == |d|
    ensures forall i :: 0 <= i < |d| ==> ks[i] == d[i].0
  {
    if d == [] then [] else [d[0].0] + Keys(d[1..])
  }

  function Values<V>(d: Dict<V>): (vs: seq<V>)
    ensures |vs| == |d|
    ensures forall i :: 0 <= i < |d| ==> vs[i] == d[i].1
  {
    if d == [] then [] else [d[0].1] + Values(d[1..])
  }

  ghost predicate DistinctKeys<V>(d: Dict<V>) {
    forall i, j :: 0 <= i < j < |d| ==> d[i].0 != d[j].0
  }

  /** The mapping the items denote; when a key occurs twice the later item wins, as in `dict(pairs)`. */
  function ToMap<V>(d: Dict<V>): (m: map<string, V>)
  {
    if d == [] then map[] else map[d[0].0 := d[0].1] + ToMap(d[1..])
  }

  lemma {:induction false} ToMapKeys<V>(d: Dict<V>)
    ensures forall k :: k in ToMap(d) <==> k in Keys(d)
  {
    if d != [] {
      ToMapKeys(d[1..]);
      assert Keys(d) == [d[0].0] + Keys(d[1..]);
    }
  }

  /** `d[k] = v`: replaces the value of an existing key in place, or appends a new item. */
  function Put<V>(d: Dict<V>, k: string, v: V): (r: Dict<V>)
  {
    if d == [] then [(k, v)]
    else if d[0].0 == k then [(k, v)] + d[1..]
    else [d[0]] + Put(d[1..], k, v)
  }

  /** An existing key keeps its position and the length stays; a new key is appended. */
  lemma {:induction false} PutShape<V>(d: Dict<V>, k: string, v: V)
    ensures k in Keys(d) ==> |Put(d, k, v)| == |d|
    ensures k !in Keys(d) ==> Put(d, k, v) == d + [(k, v)]
    ensures forall i :: 0 <= i < |d| ==> Put(d, k, v)[i].0 == d[i].0
  {
    if d != [] && d[0].0 != k {
      PutShape(d[1..], k, v);
      assert Keys(d) == [d[0].0] + Keys(d[1..]);
    }
  }

  lemma {:induction false} PutDistinct<V>(d: Dict<V>, k: string, v: V)
    requires DistinctKeys(d)
    ensures DistinctKeys(Put(d, k, v))
    ensures ToMap(Put(d, k, v)) == ToMap(d)[k := v]
  {
    PutKeepsDistinct(d, k, v);
    PutMap(d, k, v);
  }

  lemma {:induction false} PutKeepsDistinct<V>(d: Dict<V>, k: string, v: V)
    requires DistinctKeys(d)
    ensures DistinctKeys(Put(d, k, v))
  {
    var r := Put(d, k, v);
    PutShape(d, k, v);
    if k !in Keys(d) {
      forall i, j | 0 <= i < j < |r| ensures r[i].0 != r[j].0 {
        if j == |d| { assert Keys(d)[i] == d[i].0; }
      }
    }
  }

  lemma {:induction false} PutMap<V>(d: Dict<V>, k: string, v: V)
    requires DistinctKeys(d)
    ensures ToMap(Put(d, k, v)) == ToMap(d)[k := v]
  {
    if d == [] {
    } else if d[0].0 == k {
      assert Put(d, k, v)[1..] == d[1..];
      ToMapKeys(d[1..]);
      assert k !in Keys(d[1..]);
    } else {
      PutMap(d[1..], k, v);
      var r := Put(d, k, v);
      assert r[0] == d[0] && r[1..] == Put(d[1..], k, v);
      assert ToMap(r) == map[d[0].0 := d[0].1] + ToMap(r[1..]);
      UpdateAfterUnion(map[d[0].0 := d[0].1], ToMap(d[1..]), k, v);
    }
  }

  lemma UpdateAfterUnion<V>(m1: map<string, V>, m2: map<string, V>, k: string, v: V)
    ensures m1 + m2[k := v] == (m1 + m2)[k := v]
  {
  }

  /** The dict that inserting `ps` one by one into an empty dict builds. */
  function FromPairs<V>(ps: seq<(string, V)>): (d: Dict<V>)
    ensures DistinctKeys(d)
    ensures ToMap(d) == ToMap(ps)
  {
    if ps == [] then []
    else
      var last := ps[|ps| - 1];
      var front := FromPairs(ps[..|ps| - 1]);
      PutDistinct(front, last.0, last.1);
      ToMapSnoc(ps[..|ps| - 1], last);
      assert ps[..|ps| - 1] + [last] == ps;
      Put(front, last.0, last.1)
  }

  /** Every item of the built dict is one of the pairs it was built from. */
  lemma {:induction false} FromPairsItems<V>(ps: seq<(string, V)>)
    ensures forall i :: 0 <= i < |FromPairs(ps)| ==> FromPairs(ps)[i] in ps
  {
    if ps != [] {
      var front, last := ps[..|ps| - 1], ps[|ps| - 1];
      FromPairsItems(front);
      PutItems(FromPairs(front), last.0, last.1);
      assert front + [last] == ps;
    }
  }

  /** Every item of `Put(d, k, v)` is an item of `d` or the new one. */
  lemma {:induction false} PutItems<V>(d: Dict<V>, k: string, v: V)
    ensures forall i :: 0 <= i < |Put(d, k, v)| ==>
      Put(d, k, v)[i] == (k, v) || exists j :: 0 <= j < |d| && Put(d, k, v)[i] == d[j]
  {
    if d != [] && d[0].0 != k {
      PutItems(d[1..], k, v);
      var r := Put(d, k, v);
      forall i | 0 <= i < |r| ensures r[i] == (k, v) || exists j :: 0 <= j < |d| && r[i] == d[j] {
        if i > 0 {
          assert r[i] == Put(d[1..], k, v)[i - 1];
          if r[i] != (k, v) {
            var j :| 0 <= j < |d[1..]| && Put(d[1..], k, v)[i - 1] == d[1..][j];
            assert r[i] == d[j + 1];
          }
        } else {
          assert r[0] == d[0];
        }
      }
    }
  }

  lemma {:induction false} ToMapSnoc<V>(d: Dict<V>, item: (string, V))
    ensures ToMap(d + [item]) == ToMap(d)[item.0 := item.1]
  {
    if d != [] {
      assert (d + [item])[1..] == d[1..] + [item];
      ToMapSnoc(d[1..], item);
    }
  }

  lemma {:induction false} DistinctSize<V>(d: Dict<V>)
    requires DistinctKeys(d)
    ensures |ToMap(d)| == |d|
  {
    if d != [] {
      var rest := ToMap(d[1..]);
      DistinctSize(d[1..]);
      ToMapKeys(d[1..]);
      assert d[0].0 !in Keys(d[1..]);
      assert d[0].0 !in rest;
      assert ToMap(d).Keys == rest.Keys + {d[0].0};
    }
  }

  /** In a dict without repeated keys, the map gives back the value stored with each key. */
  lemma {:induction false} ToMapAt<V>(d: Dict<V>, i: nat)
    requires DistinctKeys(d) && i < |d|
    ensures d[i].0 in ToMap(d) && ToMap(d)[d[i].0] == d[i].1
  {
    ToMapKeys(d[1..]);
    if i > 0 {
      ToMapAt(d[1..], i - 1);
    } else {
      assert d[0].0 !in Keys(d[1..]);
    }
  }

  /** Building a dict from items whose keys are already distinct gives back those items. */
  lemma {:induction false} FromPairsOfDistinct<V>(d: Dict<V>)
    requires DistinctKeys(d)
    ensures FromPairs(d) == d
  {
    if d != [] {
      var front, last := d[..|d| - 1], d[|d| - 1];
      FromPairsOfDistinct(front);
      forall i | 0 <= i < |front| ensures Keys(front)[i] != last.0 { }
      assert last.0 !in Keys(front);
      PutShape(front, last.0, last.1);
      assert front + [last] == d;
    }
  }

  /** The mapping of a two-item dict. */
  lemma ToMapOfTwo<V>(k1: string, v1: V, k2: string, v2: V)
    ensures ToMap([(k1, v1), (k2, v2)]) == map[k1 := v1][k2 := v2]
  {
    var d := [(k1, v1), (k2, v2)];
    assert d[1..] == [(k2, v2)];
    assert d[1..][1..] == [];
    assert ToMap(d[1..]) == map[k2 := v2];
  }
}
