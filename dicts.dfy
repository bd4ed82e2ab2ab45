/** Python dictionaries with string keys: an insertion-ordered sequence of entries.
    Assigning to a present key keeps its position; a new key goes last. */
module Dicts {
  import opened Base

  type Dict<V> = seq<(string, V)>

  function Keys<V>(d: Dict<V>): (ks: seq<string>)
    ensures |ks| == |d|
    ensures forall i :: 0 <= i < |d| ==> ks[i] == d[i].0
  {
    if d == [] then [] else [d[0].0] + Keys(d[1..])
  }

  /** No key occurs twice, as in every Python dictionary. */
  predicate DistinctKeys<V>(d: Dict<V>) {
    d == [] || (d[0].0 !in Keys(d[1..]) && DistinctKeys(d[1..]))
  }

  /** No key twice, stated pairwise. */
  lemma {:induction false} DistinctKeysPairwise<V>(d: Dict<V>)
    ensures DistinctKeys(d) <==> forall i, j :: 0 <= i < j < |d| ==> d[i].0 != d[j].0
  {
    if d != [] {
      DistinctKeysPairwise(d[1..]);
      assert forall j :: 0 < j < |d| ==> d[j] == d[1..][j - 1];
      if !DistinctKeys(d) && d[0].0 in Keys(d[1..]) {
        var j :| 0 <= j < |d[1..]| && Keys(d[1..])[j] == d[0].0;
        assert d[j + 1].0 == d[0].0;
      }
    }
  }

  /** Python `d.get(k)`: the value of the first entry with key `k`. */
  function Get<V>(d: Dict<V>, k: string): (r: Option<V>)
    ensures r.None? <==> k !in Keys(d)
    ensures r.Some? ==> (k, r.value) in d
  {
    if d == [] then None
    else if d[0].0 == k then Some(d[0].1)
    else Get(d[1..], k)
  }

  lemma GetCons<V>(e: (string, V), rest: Dict<V>, k: string)
    ensures Get([e] + rest, k) == if e.0 == k then Some(e.1) else Get(rest, k)
  {
    assert ([e] + rest)[1..] == rest;
  }

  /** Python `d[k] = v`. */
  function Put<V>(d: Dict<V>, k: string, v: V): (r: Dict<V>)
    ensures Get(r, k) == Some(v)
    ensures forall k' :: k' != k ==> Get(r, k') == Get(d, k')
    ensures Keys(r) == if k in Keys(d) then Keys(d) else Keys(d) + [k]
    ensures DistinctKeys(d) ==> DistinctKeys(r)
  {
    if d == [] then [(k, v)]
    else if d[0].0 == k then
      var r := [(k, v)] + d[1..];
      assert r[1..] == d[1..];
      assert Keys(r) == Keys(d);
      forall k' | k' != k ensures Get(r, k') == Get(d, k') {
        GetCons((k, v), d[1..], k');
        GetCons(d[0], d[1..], k');
      }
      r
    else
      var rest := Put(d[1..], k, v);
      var r := [d[0]] + rest;
      assert r[1..] == rest;
      assert Keys(r) == [d[0].0] + Keys(rest);
      assert Keys(d) == [d[0].0] + Keys(d[1..]);
      assert k in Keys(d) <==> k in Keys(d[1..]);
      assert k !in Keys(d) ==> Keys(r) == Keys(d) + [k] by {
        if k !in Keys(d) {
          assert Keys(r) == [d[0].0] + (Keys(d[1..]) + [k]);
        }
      }
      GetCons(d[0], rest, k);
      forall k' | k' != k ensures Get(r, k') == Get(d, k') {
        GetCons(d[0], rest, k');
        GetCons(d[0], d[1..], k');
      }
      r
  }

  /** Assigning keeps the existing keys first, in their order. */
  lemma PutKeysPrefix<V>(d: Dict<V>, k: string, v: V)
    ensures |Keys(d)| <= |Keys(Put(d, k, v))| && Keys(Put(d, k, v))[..|Keys(d)|] == Keys(d)
  {
  }

  /** Assigning a key the dictionary lacks appends one entry. */
  lemma {:induction false} PutNewAppends<V>(d: Dict<V>, k: string, v: V)
    requires k !in Keys(d)
    ensures Put(d, k, v) == d + [(k, v)]
  {
    if d != [] {
      assert d[0].0 != k && k !in Keys(d[1..]) by {
        assert Keys(d) == [d[0].0] + Keys(d[1..]);
      }
      PutNewAppends(d[1..], k, v);
      calc {
        Put(d, k, v);
        [d[0]] + Put(d[1..], k, v);
        [d[0]] + (d[1..] + [(k, v)]);
        ([d[0]] + d[1..]) + [(k, v)];
        { assert [d[0]] + d[1..] == d; }
        d + [(k, v)];
      }
    }
  }

  /** Python `{key: value for key, value in d.items() if p(key)}`. */
  function Restrict<V>(d: Dict<V>, p: string -> bool): (r: Dict<V>)
    ensures forall k :: Get(r, k) == if p(k) then Get(d, k) else None
    ensures forall i :: 0 <= i < |r| ==> p(r[i].0)
    ensures |r| <= |d|
  {
    if d == [] then []
    else
      var rest := Restrict(d[1..], p);
      if p(d[0].0) then
        var r := [d[0]] + rest;
        forall k ensures Get(r, k) == if p(k) then Get(d, k) else None {
          GetCons(d[0], rest, k);
          GetCons(d[0], d[1..], k);
        }
        r
      else
        forall k ensures Get(rest, k) == if p(k) then Get(d, k) else None {
          GetCons(d[0], d[1..], k);
        }
        rest
  }

  /** Filtering keeps the entries' order: it distributes over concatenation. */
  lemma {:induction false} RestrictAppend<V>(d1: Dict<V>, d2: Dict<V>, p: string -> bool)
    ensures Restrict(d1 + d2, p) == Restrict(d1, p) + Restrict(d2, p)
  {
    if d1 == [] {
      assert d1 + d2 == d2;
    } else {
      var d := d1 + d2;
      assert d[0] == d1[0];
      assert d[1..] == d1[1..] + d2;
      RestrictAppend(d1[1..], d2, p);
      if p(d1[0].0) {
        calc {
          Restrict(d, p);
          [d1[0]] + Restrict(d1[1..] + d2, p);
          [d1[0]] + (Restrict(d1[1..], p) + Restrict(d2, p));
          ([d1[0]] + Restrict(d1[1..], p)) + Restrict(d2, p);
        }
      }
    }
  }
}
