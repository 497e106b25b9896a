/**
 * Insertion-ordered string-keyed association lists: the model of a
 * JavaScript object used as a dictionary (`map[key] = value`), and of the
 * native XPC dictionary the lookup request is built in.
 */
module Assoc {
  import opened Wrappers

  datatype Pair<V> = Pair(key: string, value: V)

  /** The keys, in insertion order. */
  function Keys<V>(es: seq<Pair<V>>): (ks: seq<string>)
    ensures |ks| == |es|
    ensures forall j :: 0 <= j < |es| ==> ks[j] == es[j].key
  {
    seq(|es|, j requires 0 <= j < |es| => es[j].key)
  }

  ghost predicate UniqueKeys<V>(es: seq<Pair<V>>) {
    forall i, j :: 0 <= i < j < |es| ==> es[i].key != es[j].key
  }

  /** Reading `map[k]`: the value of the first pair with key `k`. */
  function Lookup<V>(es: seq<Pair<V>>, k: string): Option<V> {
    if es == [] then None
    else if es[0].key == k then Some(es[0].value)
    else Lookup(es[1..], k)
  }

  /**
   * Writing `map[k] = v`: an existing key keeps its place and gets the new
   * value, a new key goes at the end. Its properties are the lemmas below.
   */
  function Put<V>(es: seq<Pair<V>>, k: string, v: V): seq<Pair<V>> {
    if es == [] then [Pair(k, v)]
    else if es[0].key == k then [Pair(k, v)] + es[1..]
    else [es[0]] + Put(es[1..], k, v)
  }

  lemma KeysTail<V>(es: seq<Pair<V>>)
    requires es != []
    ensures Keys(es) == [es[0].key] + Keys(es[1..])
  {
  }

  /** A key reads a value exactly when it is present. */
  lemma {:induction false} LookupPresent<V>(es: seq<Pair<V>>, k: string)
    ensures Lookup(es, k).Some? <==> k in Keys(es)
  {
    if es != [] {
      KeysTail(es);
      LookupPresent(es[1..], k);
    }
  }

  /** A new key is appended. */
  lemma {:induction false} PutAppends<V>(es: seq<Pair<V>>, k: string, v: V)
    requires k !in Keys(es)
    ensures Put(es, k, v) == es + [Pair(k, v)]
  {
    if es != [] {
      KeysTail(es);
      PutAppends(es[1..], k, v);
      assert es == [es[0]] + es[1..];
    }
  }

  /**
   * The key order after a write: unchanged when the key was there, so the
   * size is unchanged too, and the new key at the end otherwise.
   */
  lemma {:induction false} PutKeys<V>(es: seq<Pair<V>>, k: string, v: V)
    ensures Keys(Put(es, k, v)) == if k in Keys(es) then Keys(es) else Keys(es) + [k]
    ensures |Put(es, k, v)| == if k in Keys(es) then |es| else |es| + 1
  {
    if es != [] {
      KeysTail(es);
      if es[0].key == k {
        KeysTail(Put(es, k, v));
        assert Put(es, k, v)[1..] == es[1..];
      } else {
        PutKeys(es[1..], k, v);
        KeysTail(Put(es, k, v));
        assert Put(es, k, v)[1..] == Put(es[1..], k, v);
      }
    }
  }

  /** After a write the key reads the new value and every other key reads as before. */
  lemma {:induction false} PutLookup<V>(es: seq<Pair<V>>, k: string, v: V)
    ensures Lookup(Put(es, k, v), k) == Some(v)
    ensures forall k' :: k' != k ==> Lookup(Put(es, k, v), k') == Lookup(es, k')
  {
    if es != [] {
      if es[0].key == k {
        assert Put(es, k, v)[1..] == es[1..];
      } else {
        PutLookup(es[1..], k, v);
        assert Put(es, k, v)[1..] == Put(es[1..], k, v);
      }
    }
  }

  /** Writes keep the keys unique. */
  lemma PutUnique<V>(es: seq<Pair<V>>, k: string, v: V)
    requires UniqueKeys(es)
    ensures UniqueKeys(Put(es, k, v))
  {
    var r := Put(es, k, v);
    PutKeys(es, k, v);
    forall i, j | 0 <= i < j < |r| ensures r[i].key != r[j].key {
      assert r[i].key == Keys(r)[i] && r[j].key == Keys(r)[j];
      if j < |es| {
        assert Keys(es)[i] == es[i].key && Keys(es)[j] == es[j].key;
      } else {
        assert Keys(es)[i] == es[i].key;
      }
    }
  }

  /** Every pair after a write is the written one or was there before. */
  lemma {:induction false} PutFrom<V>(es: seq<Pair<V>>, k: string, v: V)
    ensures forall p :: p in Put(es, k, v) ==> p == Pair(k, v) || p in es
  {
    if es != [] && es[0].key != k {
      PutFrom(es[1..], k, v);
    }
  }

  /** Without repeated keys, each pair is what its key reads. */
  lemma {:induction false} LookupAt<V>(es: seq<Pair<V>>, i: nat)
    requires i < |es| && UniqueKeys(es)
    ensures Lookup(es, es[i].key) == Some(es[i].value)
  {
    if i > 0 {
      assert es[0].key != es[i].key;
      LookupAt(es[1..], i - 1);
    }
  }

  /** A key that reads a value has a pair holding it. */
  lemma {:induction false} LookupIndex<V>(es: seq<Pair<V>>, k: string) returns (i: nat)
    requires Lookup(es, k).Some?
    ensures i < |es| && es[i] == Pair(k, Lookup(es, k).value)
  {
    if es[0].key == k {
      i := 0;
    } else {
      var i' := LookupIndex(es[1..], k);
      i := i' + 1;
    }
  }

  /** Assigning a key no pair carries appends its pair. */
  lemma PutFresh<V>(es: seq<Pair<V>>, k: string, v: V)
    requires forall i :: 0 <= i < |es| ==> es[i].key != k
    ensures Put(es, k, v) == es + [Pair(k, v)]
  {
    assert k !in Keys(es);
    PutAppends(es, k, v);
  }

  /** The keys of a table with one more pair. */
  lemma KeysAppend<V>(es: seq<Pair<V>>, p: Pair<V>)
    ensures Keys(es + [p]) == Keys(es) + [p.key]
  {
  }

  /** Three assignments of distinct new keys append their pairs in order. */
  lemma PutThreeFresh<V>(es: seq<Pair<V>>, k1: string, v1: V, k2: string, v2: V, k3: string, v3: V)
    requires k1 !in Keys(es) && k2 !in Keys(es) && k3 !in Keys(es)
    requires k1 != k2 && k1 != k3 && k2 != k3
    ensures Put(Put(Put(es, k1, v1), k2, v2), k3, v3) == es + [Pair(k1, v1), Pair(k2, v2), Pair(k3, v3)]
  {
    PutAppends(es, k1, v1);
    var s1 := es + [Pair(k1, v1)];
    KeysAppend(es, Pair(k1, v1));
    PutAppends(s1, k2, v2);
    var s2 := s1 + [Pair(k2, v2)];
    KeysAppend(s1, Pair(k2, v2));
    PutAppends(s2, k3, v3);
    assert s2 + [Pair(k3, v3)] == es + [Pair(k1, v1), Pair(k2, v2), Pair(k3, v3)];
  }
}
