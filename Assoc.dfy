/** Insertion-ordered dictionaries: the model of a JavaScript object used as a
    dictionary (`obj[key] = value`, `{ ...obj, [key]: value }`,
    `Object.keys`, `Object.entries`) and of a JavaScript `Map`. Writing an
    existing key keeps its position; writing a new key appends it. (JavaScript
    lists integer-like object keys first; that ordering is not modelled.) */
module Assoc {
  import opened Seqs

  type Assoc<K, V> = seq<(K, V)>

  function Keys<K, V>(a: Assoc<K, V>): (ks: seq<K>)
    ensures |ks| == |a|
    ensures forall i :: 0 <= i < |a| ==> ks[i] == a[i].0
  {
    seq(|a|, i requires 0 <= i < |a| => a[i].0)
  }

  /** The value stored under `k`, if any (the first entry with that key). */
  function Lookup<K(==), V>(a: Assoc<K, V>, k: K): (r: Option<V>)
    ensures r.Some? <==> k in Keys(a)
  {
    if |a| == 0 then None
    else if a[0].0 == k then Some(a[0].1)
    else
      assert Keys(a) == [a[0].0] + Keys(a[1..]);
      Lookup(a[1..], k)
  }

  /** `a[k] = v`: overwrite in place when `k` is present, append otherwise. */
  function Put<K(==), V>(a: Assoc<K, V>, k: K, v: V): Assoc<K, V>
  {
    if |a| == 0 then [(k, v)]
    else if a[0].0 == k then [(k, v)] + a[1..]
    else [a[0]] + Put(a[1..], k, v)
  }

  /** After a write, `k` reads back `v` and every other key reads what it
      read before. */
  lemma {:induction false} LookupPut<K, V>(a: Assoc<K, V>, k: K, v: V, j: K)
    ensures Lookup(Put(a, k, v), j) == if j == k then Some(v) else Lookup(a, j)
  {
    if |a| > 0 && a[0].0 != k {
      LookupPut(a[1..], k, v, j);
      assert Put(a, k, v)[1..] == Put(a[1..], k, v);
    }
  }

  /** A write never reorders keys: an existing key stays where it was, a new
      key goes last. */
  lemma {:induction false} KeysPut<K, V>(a: Assoc<K, V>, k: K, v: V)
    ensures Keys(Put(a, k, v)) == if k in Keys(a) then Keys(a) else Keys(a) + [k]
  {
    if |a| > 0 {
      KeysCons(a[0], a[1..]);
      assert [a[0]] + a[1..] == a;
      if a[0].0 == k {
        KeysCons((k, v), a[1..]);
      } else {
        var t := a[1..];
        KeysPut(t, k, v);
        KeysCons(a[0], Put(t, k, v));
        if k !in Keys(a) {
          assert [a[0].0] + (Keys(t) + [k]) == Keys(a) + [k];
        }
      }
    }
  }

  lemma KeysCons<K, V>(e: (K, V), t: Assoc<K, V>)
    ensures Keys([e] + t) == [e.0] + Keys(t)
  {
  }

  /** Writing the key that is already at index `i` changes just that entry. */
  lemma {:induction false} PutAt<K, V>(a: Assoc<K, V>, i: nat, v: V)
    requires i < |a| && Distinct(Keys(a))
    ensures Put(a, a[i].0, v) == a[i := (a[i].0, v)]
  {
    if i > 0 {
      var t := a[1..];
      KeysTail(a);
      assert a[0].0 != a[i].0 by {
        assert Keys(a)[0] == a[0].0 && Keys(a)[i] == a[i].0;
      }
      var k, x := a[i].0, (a[i].0, v);
      assert t[i - 1].0 == k;
      PutAt(t, i - 1, v);
      var u := t[i - 1 := x];
      assert Put(a, k, v) == [a[0]] + u;
      forall j | 0 <= j < |a|
        ensures ([a[0]] + u)[j] == a[i := x][j]
      {
        if j > 0 {
          assert ([a[0]] + u)[j] == u[j - 1];
        }
      }
      assert [a[0]] + u == a[i := x];
    }
  }

  /** The tail of a dictionary with distinct keys has distinct keys. */
  lemma KeysTail<K, V>(a: Assoc<K, V>)
    requires |a| > 0 && Distinct(Keys(a))
    ensures Keys(a[1..]) == Keys(a)[1..] && Distinct(Keys(a[1..]))
  {
    assert Keys(a[1..]) == Keys(a)[1..];
  }

  /** When keys are distinct, the entry at index `i` is what `Lookup` finds. */
  lemma {:induction false} LookupAt<K, V>(a: Assoc<K, V>, i: nat)
    requires i < |a| && Distinct(Keys(a))
    ensures Lookup(a, a[i].0) == Some(a[i].1)
  {
    if i > 0 {
      KeysTail(a);
      assert a[0].0 != a[i].0 by {
        assert Keys(a)[0] == a[0].0 && Keys(a)[i] == a[i].0;
      }
      LookupAt(a[1..], i - 1);
      assert a[1..][i - 1] == a[i];
    }
  }

  /** Writes every pair of `kvs` into `a`, left to right: the model of a
      `forEach` loop that fills a dictionary, or of `new Map(...)`. */
  function PutAll<K(==), V>(a: Assoc<K, V>, kvs: seq<(K, V)>): Assoc<K, V>
  {
    if |kvs| == 0 then a
    else
      var last := kvs[|kvs| - 1];
      Put(PutAll(a, kvs[..|kvs| - 1]), last.0, last.1)
  }

  /** The value that the last pair with key `k` carries, if any. */
  function LastValue<K(==), V>(kvs: seq<(K, V)>, k: K): Option<V>
  {
    if |kvs| == 0 then None
    else if kvs[|kvs| - 1].0 == k then Some(kvs[|kvs| - 1].1)
    else LastValue(kvs[..|kvs| - 1], k)
  }

  /** Filling an empty dictionary from `kvs` lists each key once, in order of
      first appearance. */
  lemma {:induction false} KeysPutAll<K, V>(kvs: seq<(K, V)>)
    ensures Keys(PutAll([], kvs)) == Dedup(Keys(kvs))
  {
    if |kvs| > 0 {
      var p := kvs[..|kvs| - 1];
      var last := kvs[|kvs| - 1];
      var before := PutAll([], p);
      KeysPutAll(p);
      KeysPut(before, last.0, last.1);
      KeysPrefix(kvs);
    }
  }

  lemma KeysPrefix<K, V>(a: Assoc<K, V>)
    requires |a| > 0
    ensures Keys(a[..|a| - 1]) == Keys(a)[..|a| - 1]
  {
  }

  /** ... and binds each key to the last value written for it. */
  lemma {:induction false} LookupPutAll<K, V>(kvs: seq<(K, V)>, k: K)
    ensures Lookup(PutAll([], kvs), k) == LastValue(kvs, k)
  {
    if |kvs| > 0 {
      var p := kvs[..|kvs| - 1];
      var last := kvs[|kvs| - 1];
      LookupPutAll(p, k);
      assert PutAll([], kvs) == Put(PutAll([], p), last.0, last.1);
      LookupPut(PutAll([], p), last.0, last.1, k);
    }
  }
}
