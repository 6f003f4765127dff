/**
 * A dictionary that remembers insertion order, as Python's `dict` does:
 * a sequence of key/value pairs. Overwriting an existing key keeps its
 * position; a new key goes to the end.
 */
module OrderedMap {
  import opened Wrappers
  import opened Seqs

  type OMap<K, V> = seq<(K, V)>

  /** The keys in iteration order. */
  function Keys<K, V>(m: OMap<K, V>): (ks: seq<K>)
    ensures |ks| == |m|
    ensures forall i :: 0 <= i < |m| ==> ks[i] == m[i].0
  {
    seq(|m|, i requires 0 <= i < |m| => m[i].0)
  }

  lemma KeysTail<K, V>(m: OMap<K, V>)
    requires |m| > 0
    ensures Keys(m) == [m[0].0] + Keys(m[1..])
  {
  }

  /** `d.get(k)`: the value stored under `k`, if any. */
  function Get<K(==), V>(m: OMap<K, V>, k: K): (r: Option<V>)
    ensures r.Some? <==> k in Keys(m)
    ensures r.Some? ==> (k, r.value) in m
    ensures NoDup(Keys(m)) ==> forall i :: 0 <= i < |m| && m[i].0 == k ==> r == Some(m[i].1)
  {
    if |m| == 0 then None
    else
      KeysTail(m);
      if m[0].0 == k then Some(m[0].1)
      else
        var r := Get(m[1..], k);
        assert forall i :: 1 <= i < |m| ==> m[i] == m[1..][i - 1];
        r
  }

  lemma KeysCons<K, V>(x: (K, V), m: OMap<K, V>)
    ensures Keys([x] + m) == [x.0] + Keys(m)
  {
  }

  lemma GetCons<K, V>(x: (K, V), m: OMap<K, V>, k: K)
    ensures Get([x] + m, k) == if x.0 == k then Some(x.1) else Get(m, k)
  {
    assert ([x] + m)[1..] == m;
  }

  /** `d[k] = v`. */
  function Put<K(==), V>(m: OMap<K, V>, k: K, v: V): (r: OMap<K, V>)
    ensures |r| == if k in Keys(m) then |m| else |m| + 1
  {
    if |m| == 0 then [(k, v)]
    else
      KeysTail(m);
      if m[0].0 == k then [(k, v)] + m[1..]
      else [m[0]] + Put(m[1..], k, v)
  }

  /** Assigning a present key keeps the key order; a new key goes to the end. */
  lemma {:induction false} PutKeys<K, V>(m: OMap<K, V>, k: K, v: V)
    ensures k in Keys(m) ==> Keys(Put(m, k, v)) == Keys(m)
    ensures k !in Keys(m) ==> Keys(Put(m, k, v)) == Keys(m) + [k]
  {
    if |m| > 0 {
      KeysTail(m);
      if m[0].0 == k {
        KeysCons((k, v), m[1..]);
      } else {
        var rest := Put(m[1..], k, v);
        PutKeys(m[1..], k, v);
        KeysCons(m[0], rest);
        ConcatAssoc([m[0].0], Keys(m[1..]), [k]);
      }
    }
  }

  /** After `d[k] = v`, `d.get(k)` is `v`. */
  lemma {:induction false} PutGet<K, V>(m: OMap<K, V>, k: K, v: V)
    ensures Get(Put(m, k, v), k) == Some(v)
  {
    if |m| > 0 {
      if m[0].0 == k {
        GetCons((k, v), m[1..], k);
      } else {
        PutGet(m[1..], k, v);
        GetCons(m[0], Put(m[1..], k, v), k);
      }
    }
  }

  /** `Put` changes no other key's value. */
  lemma {:induction false} PutLeavesOthers<K, V>(m: OMap<K, V>, k: K, v: V, k': K)
    requires k' != k
    ensures Get(Put(m, k, v), k') == Get(m, k')
  {
    if |m| > 0 {
      assert m == [m[0]] + m[1..];
      GetCons(m[0], m[1..], k');
      if m[0].0 == k {
        GetCons((k, v), m[1..], k');
      } else {
        PutLeavesOthers(m[1..], k, v, k');
        GetCons(m[0], Put(m[1..], k, v), k');
      }
    }
  }

  /** Keys stay distinct under `Put`. */
  lemma PutKeepsKeysDistinct<K(!new), V>(m: OMap<K, V>, k: K, v: V)
    ensures NoDup(Keys(m)) ==> NoDup(Keys(Put(m, k, v)))
  {
    PutKeys(m, k, v);
    if k !in Keys(m) && NoDup(Keys(m)) {
      AppendFreshKeepsNoDup(Keys(m), k);
    }
  }
}
