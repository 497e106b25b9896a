/**
 * The container traversals as folds over the callbacks the host makes. The
 * dictionary block stores each callback's value object under its key without
 * reading it; the values a table finally holds are read afterwards, in table
 * order. Everything here is generic in the value type, so what is proved is
 * about the traversal alone.
 */
module Traversal {
  import opened Wrappers
  import opened Assoc
  import opened Values

  /** One dictionary callback: the key read as a C string, and the value object. */
  datatype Member<V> = Member(key: Option<string>, value: V)

  /**
   * The dictionary block after the first `n` callbacks: each checks its key
   * (a null key raises) and stores the value object under the key.
   */
  function FillDictionary<V>(ms: seq<Member<V>>, n: nat): Result<seq<Pair<V>>, Failure>
    requires n <= |ms|
  {
    if n == 0 then Ok([])
    else
      match FillDictionary(ms, n - 1)
      case Err(e) => Err(e)
      case Ok(acc) =>
        match ms[n - 1].key
        case None => Err(NullKey)
        case Some(k) => Ok(Put(acc, k, ms[n - 1].value))
  }

  /** The traversal fails exactly when some key is null, and then with NullKey. */
  lemma {:induction false} FillDictionaryOk<V>(ms: seq<Member<V>>, n: nat)
    requires n <= |ms|
    ensures FillDictionary(ms, n).Ok? <==> forall j :: 0 <= j < n ==> ms[j].key.Some?
    ensures FillDictionary(ms, n).Err? ==> FillDictionary(ms, n).error == NullKey
  {
    if n > 0 {
      FillDictionaryOk(ms, n - 1);
    }
  }

  /** The table never holds a key twice. */
  lemma {:induction false} FillDictionaryUnique<V>(ms: seq<Member<V>>, n: nat)
    requires n <= |ms|
    requires FillDictionary(ms, n).Ok?
    ensures UniqueKeys(FillDictionary(ms, n).value)
  {
    if n > 0 {
      FillDictionaryUnique(ms, n - 1);
      PutUnique(FillDictionary(ms, n - 1).value, ms[n - 1].key.value, ms[n - 1].value);
    }
  }

  /** One more dictionary callback: a null key stops the traversal. */
  lemma FillDictionaryStep<V>(ms: seq<Member<V>>, k: nat, acc: seq<Pair<V>>)
    requires k < |ms| && FillDictionary(ms, k) == Ok(acc)
    ensures FillDictionary(ms, k + 1) ==
      if ms[k].key.None? then Err(NullKey) else Ok(Put(acc, ms[k].key.value, ms[k].value))
  {
  }

  /** A failure after `k` callbacks is the failure of the whole traversal. */
  lemma {:induction false} FillDictionaryErrStays<V>(ms: seq<Member<V>>, k: nat, n: nat)
    requires k <= n <= |ms|
    requires FillDictionary(ms, k).Err?
    ensures FillDictionary(ms, n) == FillDictionary(ms, k)
  {
    if k < n {
      FillDictionaryErrStays(ms, k, n - 1);
    }
  }

  /** The keys of the first `n` callbacks, all known to be non-null. */
  function KeyTexts<V>(ms: seq<Member<V>>, n: nat): (ks: seq<string>)
    requires n <= |ms|
    requires forall j :: 0 <= j < n ==> ms[j].key.Some?
    ensures |ks| == n
  {
    seq(n, j requires 0 <= j < n => ms[j].key.value)
  }

  /** The keys in order of their first occurrence. */
  function Dedup(ks: seq<string>): seq<string> {
    if ks == [] then []
    else
      var d := Dedup(ks[..|ks| - 1]);
      if ks[|ks| - 1] in d then d else d + [ks[|ks| - 1]]
  }

  /** Dedup keeps every key, adds none, and lists each once. */
  lemma {:induction false} DedupSpec(ks: seq<string>)
    ensures forall k :: k in Dedup(ks) <==> k in ks
    ensures forall i, j :: 0 <= i < j < |Dedup(ks)| ==> Dedup(ks)[i] != Dedup(ks)[j]
  {
    if ks != [] {
      var init := ks[..|ks| - 1];
      DedupSpec(init);
      assert ks == init + [ks[|ks| - 1]];
    }
  }

  /** No later one of the first `n` callbacks repeats the key of callback `j`. */
  ghost predicate LastOfKey<V>(ms: seq<Member<V>>, n: nat, j: nat)
    requires j < n <= |ms|
  {
    forall i :: j < i < n ==> ms[i].key != ms[j].key
  }

  /** The keys come out in the order of their first callback. */
  lemma {:induction false} FillDictionaryOrder<V>(ms: seq<Member<V>>, n: nat)
    requires n <= |ms|
    requires FillDictionary(ms, n).Ok?
    ensures forall j :: 0 <= j < n ==> ms[j].key.Some?
    ensures Keys(FillDictionary(ms, n).value) == Dedup(KeyTexts(ms, n))
  {
    FillDictionaryOk(ms, n);
    if n > 0 {
      FillDictionaryOk(ms, n - 1);
      FillDictionaryOrder(ms, n - 1);
      var acc := FillDictionary(ms, n - 1).value;
      PutKeys(acc, ms[n - 1].key.value, ms[n - 1].value);
      assert KeyTexts(ms, n)[..n - 1] == KeyTexts(ms, n - 1);
    }
  }

  /** Each key holds the value object of the last callback carrying it. */
  lemma {:induction false} FillDictionaryLastWins<V>(ms: seq<Member<V>>, n: nat)
    requires n <= |ms|
    requires FillDictionary(ms, n).Ok?
    ensures forall j :: 0 <= j < n && LastOfKey(ms, n, j) ==>
      ms[j].key.Some? && Lookup(FillDictionary(ms, n).value, ms[j].key.value) == Some(ms[j].value)
  {
    FillDictionaryOk(ms, n);
    if n > 0 {
      FillDictionaryOk(ms, n - 1);
      FillDictionaryLastWins(ms, n - 1);
      var acc := FillDictionary(ms, n - 1).value;
      PutLookup(acc, ms[n - 1].key.value, ms[n - 1].value);
      forall j | 0 <= j < n - 1 && LastOfKey(ms, n, j)
        ensures LastOfKey(ms, n - 1, j)
      {
      }
    }
  }

  /** Every stored value is the value object of some callback. */
  lemma {:induction false} FillDictionaryValues<V>(ms: seq<Member<V>>, n: nat, p: V -> bool)
    requires n <= |ms|
    requires forall j :: 0 <= j < n ==> p(ms[j].value)
    requires FillDictionary(ms, n).Ok?
    ensures forall j :: 0 <= j < |FillDictionary(ms, n).value| ==> p(FillDictionary(ms, n).value[j].value)
  {
    if n > 0 {
      FillDictionaryValues(ms, n - 1, p);
      var acc := FillDictionary(ms, n - 1).value;
      var r := Put(acc, ms[n - 1].key.value, ms[n - 1].value);
      PutFrom(acc, ms[n - 1].key.value, ms[n - 1].value);
      forall j | 0 <= j < |r| ensures p(r[j].value) {
        assert r[j] in r;
        if r[j] != Pair(ms[n - 1].key.value, ms[n - 1].value) {
          var i :| 0 <= i < |acc| && acc[i] == r[j];
        }
      }
    }
  }

  /**
   * Every stored pair comes from the last callback carrying its key: an
   * overwritten value object is no longer in the table.
   */
  lemma {:induction false} FillDictionaryStored<V>(ms: seq<Member<V>>, n: nat)
    requires n <= |ms|
    requires FillDictionary(ms, n).Ok?
    ensures forall i :: 0 <= i < |FillDictionary(ms, n).value| ==>
      exists j :: 0 <= j < n && LastOfKey(ms, n, j) && ms[j].key.Some? &&
        FillDictionary(ms, n).value[i] == Pair(ms[j].key.value, ms[j].value)
  {
    if n > 0 {
      FillDictionaryStored(ms, n - 1);
      FillDictionaryUnique(ms, n - 1);
      var acc := FillDictionary(ms, n - 1).value;
      var k, v := ms[n - 1].key.value, ms[n - 1].value;
      var r := Put(acc, k, v);
      PutFrom(acc, k, v);
      PutUnique(acc, k, v);
      PutLookup(acc, k, v);
      forall i | 0 <= i < |r|
        ensures exists j :: 0 <= j < n && LastOfKey(ms, n, j) && ms[j].key.Some? && r[i] == Pair(ms[j].key.value, ms[j].value)
      {
        assert r[i] in r;
        if r[i] == Pair(k, v) {
          assert LastOfKey(ms, n, n - 1);
        } else {
          var i' :| 0 <= i' < |acc| && acc[i'] == r[i];
          var j :| 0 <= j < n - 1 && LastOfKey(ms, n - 1, j) && ms[j].key.Some? && acc[i'] == Pair(ms[j].key.value, ms[j].value);
          LookupAt(r, i);
          assert r[i].key != k;
          assert LastOfKey(ms, n, j);
        }
      }
    }
  }

  /**
   * Callbacks with distinct non-null keys give exactly their pairs, in
   * callback order.
   */
  lemma {:induction false} FillDictionaryDistinct<V>(ms: seq<Member<V>>, n: nat)
    requires n <= |ms|
    requires forall j :: 0 <= j < n ==> ms[j].key.Some?
    requires forall i, j :: 0 <= i < j < n ==> ms[i].key != ms[j].key
    ensures FillDictionary(ms, n).Ok? && |FillDictionary(ms, n).value| == n
    ensures forall j :: 0 <= j < n ==> FillDictionary(ms, n).value[j] == Pair(ms[j].key.value, ms[j].value)
  {
    if n > 0 {
      FillDictionaryDistinct(ms, n - 1);
      var prev := FillDictionary(ms, n - 1).value;
      forall i | 0 <= i < n - 1 ensures prev[i].key != ms[n - 1].key.value {
        assert prev[i] == Pair(ms[i].key.value, ms[i].value);
        assert ms[i].key != ms[n - 1].key;
      }
      DistinctStep(ms, n - 1, prev);
      var now := prev + [Pair(ms[n - 1].key.value, ms[n - 1].value)];
      forall j | 0 <= j < n ensures now[j] == Pair(ms[j].key.value, ms[j].value) {
        if j < n - 1 { assert now[j] == prev[j]; }
      }
    }
  }

  /** The step of FillDictionaryDistinct: a key not seen before appends its pair. */
  lemma DistinctStep<V>(ms: seq<Member<V>>, k: nat, prev: seq<Pair<V>>)
    requires k < |ms| && FillDictionary(ms, k) == Ok(prev) && |prev| == k
    requires ms[k].key.Some?
    requires forall i :: 0 <= i < k ==> prev[i].key != ms[k].key.value
    ensures FillDictionary(ms, k + 1) == Ok(prev + [Pair(ms[k].key.value, ms[k].value)])
  {
    forall i | 0 <= i < k ensures Keys(prev)[i] != ms[k].key.value { }
    PutAppends(prev, ms[k].key.value, ms[k].value);
  }

  /**
   * The stored values read in table order: each pair keeps its key and takes
   * the read result; the first failure fails the whole table.
   */
  function Resolve<V, W>(es: seq<Pair<V>>, rs: seq<Result<W, Failure>>, n: nat): Result<seq<Pair<W>>, Failure>
    requires n <= |es| && n <= |rs|
  {
    if n == 0 then Ok([])
    else
      match Resolve(es, rs, n - 1)
      case Err(e) => Err(e)
      case Ok(acc) =>
        match rs[n - 1]
        case Err(e) => Err(e)
        case Ok(w) => Ok(acc + [Pair(es[n - 1].key, w)])
  }

  /** Resolving succeeds exactly when every read does, and keeps keys and order. */
  lemma {:induction false} ResolveSpec<V, W>(es: seq<Pair<V>>, rs: seq<Result<W, Failure>>, n: nat)
    requires n <= |es| && n <= |rs|
    ensures Resolve(es, rs, n).Ok? <==> forall j :: 0 <= j < n ==> rs[j].Ok?
    ensures Resolve(es, rs, n).Ok? ==> |Resolve(es, rs, n).value| == n
    ensures Resolve(es, rs, n).Ok? ==> forall j :: 0 <= j < n ==>
      Resolve(es, rs, n).value[j] == Pair(es[j].key, rs[j].value)
  {
    if n > 0 {
      ResolveSpec(es, rs, n - 1);
    }
  }

  /** The array block after the first `n` callbacks: it pushes each value read. */
  function FillArray<V>(rs: seq<Result<V, Failure>>, n: nat): (r: Result<seq<V>, Failure>)
    requires n <= |rs|
    ensures r.Ok? ==> |r.value| == n
  {
    if n == 0 then Ok([])
    else
      var acc :- FillArray(rs, n - 1);
      var value :- rs[n - 1];
      Ok(acc + [value])
  }

  /**
   * The array reads exactly when every value does, and then holds one
   * element per callback, in callback order.
   */
  lemma {:induction false} FillArraySpec<V>(rs: seq<Result<V, Failure>>, n: nat)
    requires n <= |rs|
    ensures FillArray(rs, n).Ok? <==> forall j :: 0 <= j < n ==> rs[j].Ok?
    ensures FillArray(rs, n).Ok? ==> forall j :: 0 <= j < n ==> FillArray(rs, n).value[j] == rs[j].value
  {
    if n > 0 {
      FillArraySpec(rs, n - 1);
    }
  }

  /** One more array callback: a failed value stops the traversal. */
  lemma FillArrayStep<V>(rs: seq<Result<V, Failure>>, k: nat, acc: seq<V>)
    requires k < |rs| && FillArray(rs, k) == Ok(acc)
    ensures FillArray(rs, k + 1) ==
      if rs[k].Err? then Err(rs[k].error) else Ok(acc + [rs[k].value])
  {
  }

  /** A failure after `k` callbacks is the failure of the whole traversal. */
  lemma {:induction false} FillArrayErrStays<V>(rs: seq<Result<V, Failure>>, k: nat, n: nat)
    requires k <= n <= |rs|
    requires FillArray(rs, k).Err?
    ensures FillArray(rs, n) == FillArray(rs, k)
  {
    if k < n {
      FillArrayErrStays(rs, k, n - 1);
    }
  }
}
