/**
 * Python's insertion-ordered `dict` with string keys, as an association
 * list. Lookup, `in`, `d[k] = v` (replaces in place or appends at the end),
 * `setdefault` and `get(k, default)` are the operations the core uses.
 */
module Dicts {
  import opened Wrappers

  type Dict<V> = seq<(string, V)>

  /** A genuine Python dict never holds a key twice. */
  predicate DistinctKeys<V>(d: Dict<V>) {
    forall i, j :: 0 <= i < j < |d| ==> d[i].0 != d[j].0
  }

  function Keys<V>(d: Dict<V>): set<string> {
    set i | 0 <= i < |d| :: d[i].0
  }

  /** `d[k]` when `k in d`, else `None`. */
  function Get<V>(d: Dict<V>, k: string): (r: Option<V>)
    ensures r.Some? <==> k in Keys(d)
    ensures r.Some? ==> exists i :: 0 <= i < |d| && d[i] == (k, r.value)
  {
    if d == [] then None
    else if d[0].0 == k then Some(d[0].1)
    else
      var r := Get(d[1..], k);
      KeysCons(d);
      assert r.Some? ==> exists i :: 0 <= i < |d| && d[i] == (k, r.value) by {
        if r.Some? {
          var i :| 0 <= i < |d[1..]| && d[1..][i] == (k, r.value);
          assert d[i + 1] == (k, r.value);
        }
      }
      r
  }

  /** `k in d`. */
  predicate HasKey<V>(d: Dict<V>, k: string) { Get(d, k).Some? }

  /** `d.get(k, default)`. */
  function GetOr<V>(d: Dict<V>, k: string, default: V): (r: V)
    ensures HasKey(d, k) ==> Some(r) == Get(d, k)
    ensures !HasKey(d, k) ==> r == default
  {
    match Get(d, k)
    case Some(v) => v
    case None => default
  }

  /** `d[k] = v`: an existing key keeps its position, a new key goes last. */
  function Put<V>(d: Dict<V>, k: string, v: V): (r: Dict<V>)
    ensures Get(r, k) == Some(v)
    ensures forall k' :: k' != k ==> Get(r, k') == Get(d, k')
  {
    if d == [] then [(k, v)]
    else if d[0].0 == k then [(k, v)] + d[1..]
    else
      var r := [d[0]] + Put(d[1..], k, v);
      assert r[1..] == Put(d[1..], k, v);
      r
  }

  /**
   * Assigning a key a genuine dict already holds replaces its value in its
   * own slot and leaves every other entry where it was.
   */
  lemma {:induction false} PutInPlace<V>(d: Dict<V>, k: string, v: V)
    requires DistinctKeys(d) && k in Keys(d)
    ensures |Put(d, k, v)| == |d|
    ensures forall i :: 0 <= i < |d| ==> Put(d, k, v)[i] == if d[i].0 == k then (k, v) else d[i]
  {
    var r := Put(d, k, v);
    KeysCons(d);
    if d[0].0 == k {
      assert forall i :: 0 < i < |d| ==> d[i].0 != d[0].0;
    } else {
      var t := Put(d[1..], k, v);
      assert r[1..] == t;
      DistinctTail(d);
      PutInPlace(d[1..], k, v);
      forall i | 0 < i < |d| ensures r[i] == if d[i].0 == k then (k, v) else d[i] {
        assert r[i] == t[i - 1] && d[i] == d[1..][i - 1];
      }
    }
  }

  /** Assigning a key adds exactly that key. */
  lemma {:induction false} PutKeys<V>(d: Dict<V>, k: string, v: V)
    ensures Keys(Put(d, k, v)) == Keys(d) + {k}
  {
    var r := Put(d, k, v);
    if d == [] {
      assert r == [(k, v)];
    } else {
      if d[0].0 != k {
        PutKeys(d[1..], k, v);
      }
      assert r[1..] == if d[0].0 == k then d[1..] else Put(d[1..], k, v);
      KeysCons(d);
      KeysCons(r);
    }
  }

  /** Assigning a key to a genuine dict gives a genuine dict. */
  lemma {:induction false} PutDistinct<V>(d: Dict<V>, k: string, v: V)
    requires DistinctKeys(d)
    ensures DistinctKeys(Put(d, k, v))
  {
    if d != [] && d[0].0 != k {
      var r, t := Put(d, k, v), Put(d[1..], k, v);
      assert r == [d[0]] + t;
      DistinctTail(d);
      PutDistinct(d[1..], k, v);
      PutKeys(d[1..], k, v);
      ConsDistinct(d[0], t);
    }
  }

  /** The tail of a genuine dict is one, and does not hold its head's key. */
  lemma DistinctTail<V>(d: Dict<V>)
    requires d != [] && DistinctKeys(d)
    ensures DistinctKeys(d[1..]) && d[0].0 !in Keys(d[1..])
  {
    var t := d[1..];
    forall i, j | 0 <= i < j < |t| ensures t[i].0 != t[j].0 {
      assert t[i] == d[i + 1] && t[j] == d[j + 1];
    }
    forall i | 0 <= i < |t| ensures t[i].0 != d[0].0 {
      assert t[i] == d[i + 1];
    }
  }

  lemma ConsDistinct<V>(x: (string, V), t: Dict<V>)
    requires DistinctKeys(t) && x.0 !in Keys(t)
    ensures DistinctKeys([x] + t)
  {
    var r := [x] + t;
    forall i, j | 0 <= i < j < |r| ensures r[i].0 != r[j].0 {
      assert r[j] == t[j - 1];
      if i > 0 { assert r[i] == t[i - 1]; }
    }
  }

  /** `d.setdefault(k, v)` as an update: adds `k` with `v` only when `k` is absent. */
  function SetDefault<V>(d: Dict<V>, k: string, v: V): (r: Dict<V>)
    ensures Get(r, k) == if HasKey(d, k) then Get(d, k) else Some(v)
    ensures forall k' :: k' != k ==> Get(r, k') == Get(d, k')
    ensures |d| <= |r| && r[..|d|] == d
    ensures DistinctKeys(d) ==> DistinctKeys(r)
  {
    if HasKey(d, k) then d
    else
      var r := d + [(k, v)];
      GetAppend(d, k, v);
      SnocDistinct(d, (k, v));
      r
  }

  /** Appending an entry whose key is not there yet keeps the keys distinct. */
  lemma SnocDistinct<V>(d: Dict<V>, x: (string, V))
    requires x.0 !in Keys(d)
    ensures DistinctKeys(d) ==> DistinctKeys(d + [x])
  {
    var r := d + [x];
    if DistinctKeys(d) {
      forall i, j | 0 <= i < j < |r| ensures r[i].0 != r[j].0 {
        assert r[i] == d[i];
        if j < |d| { assert r[j] == d[j]; } else { assert d[i].0 in Keys(d); }
      }
    }
  }

  lemma {:induction false} GetAppend<V>(d: Dict<V>, k: string, v: V)
    ensures forall k' :: Get(d + [(k, v)], k') ==
                        if HasKey(d, k') then Get(d, k') else if k' == k then Some(v) else None
  {
    if d != [] {
      GetAppend(d[1..], k, v);
      assert (d + [(k, v)])[1..] == d[1..] + [(k, v)];
    }
  }

  lemma KeysCons<V>(d: Dict<V>)
    requires d != []
    ensures Keys(d) == {d[0].0} + Keys(d[1..])
  {
    forall x | x in Keys(d) ensures x in {d[0].0} + Keys(d[1..]) {
      var i :| 0 <= i < |d| && d[i].0 == x;
      if i > 0 { assert d[1..][i - 1].0 == x; }
    }
    forall x | x in Keys(d[1..]) ensures x in Keys(d) {
      var i :| 0 <= i < |d[1..]| && d[1..][i].0 == x;
      assert d[i + 1].0 == x;
    }
  }

  /** Assigning a key that is not there yet appends it. */
  lemma {:induction false} PutFresh<V>(d: Dict<V>, k: string, v: V)
    requires k !in Keys(d)
    ensures Put(d, k, v) == d + [(k, v)]
  {
    if d != [] {
      KeysCons(d);
      assert d[0].0 != k && k !in Keys(d[1..]);
      PutFresh(d[1..], k, v);
      calc {
        Put(d, k, v);
        [d[0]] + Put(d[1..], k, v);
        [d[0]] + (d[1..] + [(k, v)]);
        { assert d == [d[0]] + d[1..]; }
        d + [(k, v)];
      }
    }
  }

  lemma KeysSnoc<V>(d: Dict<V>, x: (string, V))
    ensures Keys(d + [x]) == Keys(d) + {x.0}
  {
    var e := d + [x];
    forall y | y in Keys(e) ensures y in Keys(d) + {x.0} {
      var i :| 0 <= i < |e| && e[i].0 == y;
      if i < |d| { assert d[i].0 == y; }
    }
    forall y | y in Keys(d) ensures y in Keys(e) {
      var i :| 0 <= i < |d| && d[i].0 == y;
      assert e[i].0 == y;
    }
    assert e[|d|].0 == x.0;
  }
}
