/** Insertion-ordered maps: a JavaScript `Map`, or a Python `dict`, as the sequence of its entries. */
module OrderedMap {
  import opened Text

  datatype Entry<+K, +V> = Entry(key: K, value: V)

  function Get<K(==), V>(m: seq<Entry<K, V>>, k: K): Option<V> {
    if m == [] then None else if m[0].key == k then Some(m[0].value) else Get(m[1..], k)
  }

  /** `map.set(k, v)`: a known key keeps its place, a new one goes last. */
  function Put<K(==), V>(m: seq<Entry<K, V>>, k: K, v: V): seq<Entry<K, V>> {
    if m == [] then [Entry(k, v)]
    else if m[0].key == k then [Entry(k, v)] + m[1..]
    else [m[0]] + Put(m[1..], k, v)
  }

  /** `dict.pop(k, None)`. */
  function Remove<K(==), V>(m: seq<Entry<K, V>>, k: K): seq<Entry<K, V>> {
    if m == [] then []
    else if m[0].key == k then m[1..]
    else [m[0]] + Remove(m[1..], k)
  }

  function Values<K, V>(m: seq<Entry<K, V>>): (vs: seq<V>)
    ensures |vs| == |m| && forall i :: 0 <= i < |m| ==> vs[i] == m[i].value
  {
    seq(|m|, i requires 0 <= i < |m| => m[i].value)
  }

  predicate Distinct<K(==), V>(m: seq<Entry<K, V>>) {
    forall i, j :: 0 <= i < j < |m| ==> m[i].key != m[j].key
  }

  /** The entries whose key passes a test. */
  function Only<K, V>(m: seq<Entry<K, V>>, p: K -> bool): seq<Entry<K, V>> {
    if m == [] then [] else (if p(m[0].key) then [m[0]] else []) + Only(m[1..], p)
  }

  lemma {:induction false} PutGet<K, V>(m: seq<Entry<K, V>>, k: K, v: V, j: K)
    ensures Get(Put(m, k, v), j) == if j == k then Some(v) else Get(m, j)
  {
    if m != [] && m[0].key != k {
      PutGet(m[1..], k, v, j);
      assert Put(m, k, v)[1..] == Put(m[1..], k, v);
    }
  }

  lemma {:induction false} GetFinds<K, V>(m: seq<Entry<K, V>>, k: K)
    ensures Get(m, k).Some? <==> exists e :: e in m && e.key == k
    ensures Get(m, k).Some? ==> Entry(k, Get(m, k).value) in m
  {
    if m != [] {
      GetFinds(m[1..], k);
      assert m == [m[0]] + m[1..];
    }
  }

  lemma {:induction false} PutKeys<K, V>(m: seq<Entry<K, V>>, k: K, v: V, j: K)
    ensures (exists e :: e in Put(m, k, v) && e.key == j) <==> j == k || exists e :: e in m && e.key == j
  {
    PutGet(m, k, v, j);
    GetFinds(m, j);
    GetFinds(Put(m, k, v), j);
  }

  lemma {:induction false} PutMembers<K, V>(m: seq<Entry<K, V>>, k: K, v: V)
    ensures forall e :: e in Put(m, k, v) ==> e in m || e == Entry(k, v)
  {
    if m != [] && m[0].key != k {
      PutMembers(m[1..], k, v);
    }
  }

  lemma {:induction false} DistinctGet<K, V>(m: seq<Entry<K, V>>, e: Entry<K, V>)
    requires Distinct(m) && e in m
    ensures Get(m, e.key) == Some(e.value)
  {
    if m[0] != e {
      assert m == [m[0]] + m[1..];
      DistinctGet(m[1..], e);
    }
  }

  lemma {:induction false} PutDistinct<K, V>(m: seq<Entry<K, V>>, k: K, v: V)
    requires Distinct(m)
    ensures Distinct(Put(m, k, v))
  {
    if m != [] && m[0].key != k {
      var rest := Put(m[1..], k, v);
      PutDistinct(m[1..], k, v);
      forall j | 0 <= j < |rest|
        ensures rest[j].key != m[0].key
      {
        assert rest[j] in rest;
        PutKeys(m[1..], k, v, rest[j].key);
      }
    }
  }

  lemma {:induction false} RemoveGet<K, V>(m: seq<Entry<K, V>>, k: K, j: K)
    requires Distinct(m)
    ensures Get(Remove(m, k), j) == if j == k then None else Get(m, j)
    ensures forall e :: e in Remove(m, k) ==> e in m
  {
    if m != [] {
      if m[0].key == k {
        GetFinds(m[1..], k);
      } else {
        RemoveGet(m[1..], k, j);
        assert Remove(m, k)[1..] == Remove(m[1..], k);
      }
    }
  }

  lemma {:induction false} RemoveDistinct<K, V>(m: seq<Entry<K, V>>, k: K)
    requires Distinct(m)
    ensures Distinct(Remove(m, k))
  {
    if m != [] && m[0].key != k {
      var rest := Remove(m[1..], k);
      RemoveDistinct(m[1..], k);
      RemoveGet(m[1..], k, k);
      forall j | 0 <= j < |rest|
        ensures rest[j].key != m[0].key
      {
        assert rest[j] in m[1..];
      }
    }
  }

  /** Putting a key that the first part lacks only touches the second part. */
  lemma {:induction false} PutBehind<K, V>(a: seq<Entry<K, V>>, b: seq<Entry<K, V>>, k: K, v: V)
    requires forall e :: e in a ==> e.key != k
    ensures Put(a + b, k, v) == a + Put(b, k, v)
  {
    if a == [] {
      assert a + b == b;
    } else {
      PutBehind(a[1..], b, k, v);
      assert (a + b)[1..] == a[1..] + b;
      assert a == [a[0]] + a[1..];
    }
  }

  /** Putting back what is there changes nothing. */
  lemma {:induction false} PutSame<K, V>(m: seq<Entry<K, V>>, k: K, v: V)
    requires Get(m, k) == Some(v)
    ensures Put(m, k, v) == m
  {
    if m[0].key != k {
      PutSame(m[1..], k, v);
    }
  }

  /** Setting a key commutes with keeping only some keys. */
  lemma {:induction false} OnlyPut<K, V>(m: seq<Entry<K, V>>, p: K -> bool, k: K, v: V)
    ensures Only(Put(m, k, v), p) == if p(k) then Put(Only(m, p), k, v) else Only(m, p)
  {
    if m != [] {
      if m[0].key == k {
        assert Put(m, k, v)[1..] == m[1..];
        if p(k) {
          var rest := Only(m[1..], p);
          assert ([m[0]] + rest)[1..] == rest;
        }
      } else {
        OnlyPut(m[1..], p, k, v);
        assert Put(m, k, v)[1..] == Put(m[1..], k, v);
        var rest := Only(m[1..], p);
        if p(m[0].key) {
          assert ([m[0]] + rest)[1..] == rest;
          assert Put([m[0]] + rest, k, v) == [m[0]] + Put(rest, k, v);
        } else {
          assert Only(m, p) == rest;
        }
      }
    }
  }

  lemma {:induction false} OnlyGet<K, V>(m: seq<Entry<K, V>>, p: K -> bool, k: K)
    requires p(k)
    ensures Get(Only(m, p), k) == Get(m, k)
  {
    if m != [] {
      OnlyGet(m[1..], p, k);
      var rest := Only(m[1..], p);
      assert ([m[0]] + rest)[1..] == rest && [] + rest == rest;
    }
  }

  /** A figure summed over the values. */
  function SumBy<K, V>(m: seq<Entry<K, V>>, f: V -> int): int {
    if m == [] then 0 else f(m[0].value) + SumBy(m[1..], f)
  }

  function FigureAt<K(==), V>(m: seq<Entry<K, V>>, k: K, f: V -> int): int {
    match Get(m, k) case None => 0 case Some(v) => f(v)
  }

  lemma {:induction false} SumPut<K, V>(m: seq<Entry<K, V>>, f: V -> int, k: K, v: V)
    ensures SumBy(Put(m, k, v), f) == SumBy(m, f) - FigureAt(m, k, f) + f(v)
  {
    if m != [] {
      assert [Entry(k, v)] + m[1..] != [] && ([Entry(k, v)] + m[1..])[1..] == m[1..];
      if m[0].key != k {
        SumPut(m[1..], f, k, v);
        assert Put(m, k, v)[1..] == Put(m[1..], k, v);
      }
    }
  }
}
