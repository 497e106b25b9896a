/**
 * Decoding host objects into XpcValue trees: the `getRawData` readers of the
 * scalar wrapper classes, and the `iterate` traversals of the two container
 * classes, which run the class-name switch on every member.
 */
module Decoder {
  import opened Wrappers
  import opened Host
  import opened Assoc
  import opened Values
  import opened Traversal

  /** xpcString.getRawData: a null string pointer raises instead of giving "". */
  function ReadString(h: HostObject): (r: Result<string, Failure>)
    ensures r.Err? <==> h.stringPtr.None?
    ensures r.Err? ==> r.error == NullString
    ensures r.Ok? ==> r.value == h.stringPtr.value
  {
    match h.stringPtr
    case None => Err(NullString)
    case Some(s) => Ok(s)
  }

  /** xpcData.parse: the payload read as a C string, or "" when it cannot be read. */
  function ParseBody(h: HostObject): (body: string)
    ensures h.dataBody.None? ==> body == ""
    ensures h.dataBody.Some? ==> body == h.dataBody.value
  {
    match h.dataBody
    case None => ""
    case Some(s) => s
  }

  /** xpcData.getRawData: a null format tag raises; an unreadable body does not. */
  function ReadData(h: HostObject): (r: Result<XpcValue, Failure>)
    ensures r.Err? <==> h.dataFormat.None?
    ensures r.Err? ==> r.error == NullDataFormat
    ensures r.Ok? ==> r.value.Data? && r.value.format == h.dataFormat.value
    ensures r.Ok? && h.dataBody.None? ==> r.value.body == ""
    ensures r.Ok? && h.dataBody.Some? ==> r.value.body == h.dataBody.value
  {
    match h.dataFormat
    case None => Err(NullDataFormat)
    case Some(format) => Ok(Data(format, ParseBody(h)))
  }

  /** xpcBool.getRawData: true exactly when the native call returned 1. */
  function ReadBool(h: HostObject): (b: bool)
    ensures b <==> h.boolValue == 1
  {
    h.boolValue == 1
  }

  /**
   * The class-name switch followed by the chosen class's getRawData. The
   * variant is the one Dispatch picks for the host's class name, the type
   * text the formatter prints is that class name again, and only strings,
   * data and the two containers can fail.
   */
  function Decode(h: HostObject): (r: Result<XpcValue, Failure>)
    ensures r.Ok? ==> WellFormed(r.value)
    ensures r.Ok? ==> KindOf(r.value) == Dispatch(h.className) && TypeName(r.value) == h.className
    ensures Dispatch(h.className) !in {KString, KData, KDictionary, KArray} ==> r.Ok?
    decreases h, 2
  {
    match Dispatch(h.className)
    case KString => var s :- ReadString(h); Ok(Str(s))
    case KInt64 => Ok(Int64(h.int64Value))
    case KUint64 => Ok(Uint64(h.uint64Value))
    case KDouble => Ok(Double(h.doubleText))
    case KBool => Ok(Bool(ReadBool(h)))
    case KNull => Ok(Null)
    case KDate => Ok(Date(h.dateValue))
    case KFd => Ok(Fd(h.dupFd))
    case KArray =>
      var rs := ArrayMembers(h);
      var xs :- FillArray(rs, |rs|);
      FillArraySpec(rs, |rs|);
      Ok(Array(xs))
    case KDictionary => DictionaryOf(h)
    case KData => ReadData(h)
    case KMachSend => Ok(MachSend(h.description))
    case KEndpoint => Ok(Endpoint(h.description))
    case KUnknown => DispatchUnknown(h.className); Ok(Unknown(h.className))
  }

  /**
   * What an xpcDictionary wrapper reads from `h`, whatever `h`'s class: the
   * traversal's table of value objects, then each stored value object run
   * through the switch, in table order.
   */
  function DictionaryOf(h: HostObject): (r: Result<XpcValue, Failure>)
    ensures r.Ok? ==> r.value.Dictionary? && WellFormed(r.value)
    decreases h, 1
  {
    var ms := DictMembers(h);
    match FillDictionary(ms, |ms|)
    case Err(e) => Err(e)
    case Ok(table) =>
      FillDictionaryValues(ms, |ms|, x => x < h);
      FillDictionaryUnique(ms, |ms|);
      match ReadTable(h, table)
      case Err(e) => Err(e)
      case Ok(es) => Ok(Dictionary(es))
  }

  /** The dictionary callbacks of `h`: each key with its value object, unread. */
  function DictMembers(h: HostObject): (ms: seq<Member<HostObject>>)
    ensures |ms| == |h.dictVisits|
    ensures forall j :: 0 <= j < |ms| ==> ms[j] == Member(h.dictVisits[j].key, h.dictVisits[j].value)
    ensures forall j :: 0 <= j < |ms| ==> ms[j].value < h
  {
    seq(|h.dictVisits|, j requires 0 <= j < |h.dictVisits| => Member(h.dictVisits[j].key, h.dictVisits[j].value))
  }

  /** Each stored value object run through the switch, in table order; the first failure fails all. */
  function ReadTable(h: HostObject, table: seq<Pair<HostObject>>): (r: Result<seq<Pair<XpcValue>>, Failure>)
    requires forall j :: 0 <= j < |table| ==> table[j].value < h
    ensures r.Ok? ==> Keys(r.value) == Keys(table)
    ensures r.Ok? ==> forall j :: 0 <= j < |r.value| ==> WellFormed(r.value[j].value)
    decreases h, 0
  {
    var rs := seq(|table|, j requires 0 <= j < |table| => Decode(table[j].value));
    ResolveSpec(table, rs, |table|);
    Resolve(table, rs, |table|)
  }

  /** The array callbacks of `h`, each value run through the switch. */
  function ArrayMembers(h: HostObject): (rs: seq<Result<XpcValue, Failure>>)
    ensures |rs| == |h.arrayVisits|
    ensures forall j :: 0 <= j < |rs| ==> rs[j] == Decode(h.arrayVisits[j].value)
    ensures forall j :: 0 <= j < |rs| && rs[j].Ok? ==> WellFormed(rs[j].value)
    decreases h, 0
  {
    seq(|h.arrayVisits|, j requires 0 <= j < |h.arrayVisits| =>
      assert h.arrayVisits[j] in h.arrayVisits;
      Decode(h.arrayVisits[j].value))
  }

  // ----- The traversals as the script runs them -----

  /**
   * xpcDictionary.iterate: the block runs once per member, checks the key
   * and stores the member's wrapper object under it, in a growing key/value
   * table; a null key raises at once.
   */
  method IterateDictionary(h: HostObject) returns (r: Result<seq<Pair<HostObject>>, Failure>)
    ensures r == FillDictionary(DictMembers(h), |h.dictVisits|)
  {
    ghost var ms := DictMembers(h);
    var map_: seq<Pair<HostObject>> := [];
    var k := 0;
    while k < |h.dictVisits|
      invariant 0 <= k <= |h.dictVisits|
      invariant FillDictionary(ms, k) == Ok(map_)
    {
      var visit := h.dictVisits[k];
      assert ms[k] == Member(visit.key, visit.value);
      FillDictionaryStep(ms, k, map_);
      if visit.key.None? {
        FillDictionaryErrStays(ms, k + 1, |ms|);
        return Err(NullKey);
      }
      map_ := Put(map_, visit.key.value, visit.value);
      k := k + 1;
    }
    return Ok(map_);
  }

  /** xpcDictionary.getRawData followed by the reads of the stored wrappers, as formatting does them. */
  method ReadDictionary(h: HostObject) returns (r: Result<XpcValue, Failure>)
    ensures r == DictionaryOf(h)
  {
    var table := IterateDictionary(h);
    if table.Err? {
      return Err(table.error);
    }
    FillDictionaryValues(DictMembers(h), |h.dictVisits|, x => x < h);
    FillDictionaryUnique(DictMembers(h), |h.dictVisits|);
    var es := ReadTable(h, table.value);
    if es.Err? {
      return Err(es.error);
    }
    return Ok(Dictionary(es.value));
  }

  /** xpcArray.iterate: the block pushes one element per member and ignores the index. */
  method IterateArray(h: HostObject) returns (r: Result<seq<XpcValue>, Failure>)
    ensures r == FillArray(ArrayMembers(h), |h.arrayVisits|)
  {
    var elements: seq<XpcValue> := [];
    var k := 0;
    while k < |h.arrayVisits|
      invariant 0 <= k <= |h.arrayVisits|
      invariant FillArray(ArrayMembers(h), k) == Ok(elements)
    {
      var value := Decode(h.arrayVisits[k].value);
      ArrayStep(h, k, elements);
      if value.Err? {
        return Err(value.error);
      }
      elements := elements + [value.value];
      k := k + 1;
    }
    return Ok(elements);
  }

  /** One array callback: a failed value is the outcome of the whole traversal. */
  lemma ArrayStep(h: HostObject, k: nat, acc: seq<XpcValue>)
    requires k < |h.arrayVisits| && FillArray(ArrayMembers(h), k) == Ok(acc)
    ensures var value := Decode(h.arrayVisits[k].value);
      var whole := FillArray(ArrayMembers(h), |h.arrayVisits|);
      (value.Err? ==> whole == Err(value.error)) &&
      (value.Ok? ==> FillArray(ArrayMembers(h), k + 1) == Ok(acc + [value.value]))
  {
    var rs := ArrayMembers(h);
    assert rs[k] == Decode(h.arrayVisits[k].value);
    FillArrayStep(rs, k, acc);
    if FillArray(rs, k + 1).Err? {
      FillArrayErrStays(rs, k + 1, |rs|);
    }
  }

  // ----- What the container decoders compute -----

  /** Reading a table succeeds exactly when every stored value object decodes, keeping keys and order. */
  lemma ReadTableSpec(h: HostObject, table: seq<Pair<HostObject>>)
    requires forall j :: 0 <= j < |table| ==> table[j].value < h
    ensures ReadTable(h, table).Ok? <==> forall j :: 0 <= j < |table| ==> Decode(table[j].value).Ok?
    ensures ReadTable(h, table).Ok? ==> |ReadTable(h, table).value| == |table|
    ensures ReadTable(h, table).Ok? ==> forall j :: 0 <= j < |table| ==>
      ReadTable(h, table).value[j] == Pair(table[j].key, Decode(table[j].value).value)
  {
    var rs := seq(|table|, j requires 0 <= j < |table| => Decode(table[j].value));
    ResolveSpec(table, rs, |table|);
  }

  /** The keys the dictionary callbacks received, in callback order. */
  function VisitedKeys(h: HostObject): (ks: seq<string>)
    requires forall j :: 0 <= j < |h.dictVisits| ==> h.dictVisits[j].key.Some?
    ensures |ks| == |h.dictVisits|
  {
    seq(|h.dictVisits|, j requires 0 <= j < |h.dictVisits| => h.dictVisits[j].key.value)
  }

  /** No later dictionary visit carries the key of visit `j`. */
  ghost predicate LastVisitOfKey(h: HostObject, j: nat)
    requires j < |h.dictVisits|
  {
    forall i :: j < i < |h.dictVisits| ==> h.dictVisits[i].key != h.dictVisits[j].key
  }

  /** The last visit of a key in `h` is the last callback of that key in the traversal. */
  lemma LastVisitIsLast(h: HostObject, j: nat)
    requires j < |h.dictVisits|
    ensures LastVisitOfKey(h, j) <==> LastOfKey(DictMembers(h), |h.dictVisits|, j)
  {
    var ms := DictMembers(h);
    assert ms[j].key == h.dictVisits[j].key;
    if LastVisitOfKey(h, j) {
      forall i | j < i < |ms| ensures ms[i].key != ms[j].key {
        assert ms[i].key == h.dictVisits[i].key;
      }
    }
    if LastOfKey(ms, |ms|, j) {
      forall i | j < i < |ms| ensures h.dictVisits[i].key != h.dictVisits[j].key {
        assert ms[i].key == h.dictVisits[i].key;
      }
    }
  }

  /**
   * A dictionary reads exactly when every key is non-null and the value of
   * the last visit of each key decodes; a value overwritten by a later visit
   * of its key is never read. A null key raises before any value is read.
   */
  lemma DictionaryReads(h: HostObject)
    ensures !(forall j :: 0 <= j < |h.dictVisits| ==> h.dictVisits[j].key.Some?) ==>
      DictionaryOf(h) == Err(NullKey)
    ensures DictionaryOf(h).Ok? <==>
      (forall j :: 0 <= j < |h.dictVisits| ==> h.dictVisits[j].key.Some?) &&
      (forall j :: 0 <= j < |h.dictVisits| && LastVisitOfKey(h, j) ==> Decode(h.dictVisits[j].value).Ok?)
  {
    var ms := DictMembers(h);
    FillDictionaryOk(ms, |ms|);
    if FillDictionary(ms, |ms|).Ok? {
      if DictionaryOf(h).Ok? {
        LastVisitsDecode(h);
      } else {
        SomeLastVisitFails(h);
      }
    }
  }

  /** When the wrapper reads, the value of every last visit of a key decoded. */
  lemma LastVisitsDecode(h: HostObject)
    requires DictionaryOf(h).Ok?
    ensures forall j :: 0 <= j < |h.dictVisits| && LastVisitOfKey(h, j) ==> Decode(h.dictVisits[j].value).Ok?
  {
    var ms := DictMembers(h);
    var table := FillDictionary(ms, |ms|).value;
    FillDictionaryValues(ms, |ms|, x => x < h);
    ReadTableSpec(h, table);
    forall j | 0 <= j < |ms| && LastVisitOfKey(h, j) ensures Decode(h.dictVisits[j].value).Ok? {
      var i := StoredLastVisit(h, j);
    }
  }

  /** When the keys are fine but the wrapper does not read, the value of some last visit fails. */
  lemma SomeLastVisitFails(h: HostObject)
    requires FillDictionary(DictMembers(h), |h.dictVisits|).Ok? && DictionaryOf(h).Err?
    ensures exists j :: 0 <= j < |h.dictVisits| && LastVisitOfKey(h, j) && Decode(h.dictVisits[j].value).Err?
  {
    var ms := DictMembers(h);
    var table := FillDictionary(ms, |ms|).value;
    FillDictionaryValues(ms, |ms|, x => x < h);
    ReadTableSpec(h, table);
    var i :| 0 <= i < |table| && Decode(table[i].value).Err?;
    FillDictionaryStored(ms, |ms|);
    var j :| 0 <= j < |ms| && LastOfKey(ms, |ms|, j) && ms[j].key.Some? && table[i] == Pair(ms[j].key.value, ms[j].value);
    LastVisitIsLast(h, j);
  }

  /** The value object of the last visit of a key is the one stored under it. */
  lemma StoredLastVisit(h: HostObject, j: nat) returns (i: nat)
    requires j < |h.dictVisits| && LastVisitOfKey(h, j)
    requires FillDictionary(DictMembers(h), |h.dictVisits|).Ok?
    ensures var table := FillDictionary(DictMembers(h), |h.dictVisits|).value;
      h.dictVisits[j].key.Some? && i < |table| && table[i] == Pair(h.dictVisits[j].key.value, h.dictVisits[j].value)
  {
    var ms := DictMembers(h);
    var table := FillDictionary(ms, |ms|).value;
    LastVisitIsLast(h, j);
    FillDictionaryLastWins(ms, |ms|);
    i := LookupIndex(table, ms[j].key.value);
  }

  /**
   * The decoded keys are the visited keys in order of first visit, each
   * once: a repeated key does not add an entry.
   */
  lemma DictionaryKeyOrder(h: HostObject)
    requires DictionaryOf(h).Ok?
    ensures forall j :: 0 <= j < |h.dictVisits| ==> h.dictVisits[j].key.Some?
    ensures Keys(DictionaryOf(h).value.entries) == Dedup(VisitedKeys(h))
  {
    var ms := DictMembers(h);
    FillDictionaryOrder(ms, |ms|);
    assert KeyTexts(ms, |ms|) == VisitedKeys(h);
  }

  /** Each key holds the decoded value of the last visit carrying it: a later visit overwrites. */
  lemma DictionaryLastWins(h: HostObject)
    requires DictionaryOf(h).Ok?
    ensures forall j :: 0 <= j < |h.dictVisits| && LastVisitOfKey(h, j) ==>
      h.dictVisits[j].key.Some? && Decode(h.dictVisits[j].value).Ok? &&
      Lookup(DictionaryOf(h).value.entries, h.dictVisits[j].key.value) == Some(Decode(h.dictVisits[j].value).value)
  {
    var ms := DictMembers(h);
    var table := FillDictionary(ms, |ms|).value;
    var es := DictionaryOf(h).value.entries;
    FillDictionaryValues(ms, |ms|, x => x < h);
    ReadTableSpec(h, table);
    forall j | 0 <= j < |h.dictVisits| && LastVisitOfKey(h, j)
      ensures h.dictVisits[j].key.Some? && Decode(h.dictVisits[j].value).Ok? &&
        Lookup(es, h.dictVisits[j].key.value) == Some(Decode(h.dictVisits[j].value).value)
    {
      var i := StoredLastVisit(h, j);
      LookupAt(es, i);
    }
  }

  /** An array object decodes to the list its traversal fills. */
  lemma DecodeArray(h: HostObject)
    requires Dispatch(h.className) == KArray
    ensures var r := FillArray(ArrayMembers(h), |h.arrayVisits|);
      Decode(h) == if r.Err? then Err(r.error) else Ok(Array(r.value))
  {
  }

  /**
   * An array decodes exactly when every member decodes, and then has one
   * element per visit, in visit order; the index argument plays no part.
   */
  lemma ArrayDecodes(h: HostObject)
    requires Dispatch(h.className) == KArray
    ensures Decode(h).Ok? <==> forall j :: 0 <= j < |h.arrayVisits| ==> Decode(h.arrayVisits[j].value).Ok?
    ensures Decode(h).Ok? ==> |Decode(h).value.elements| == |h.arrayVisits|
    ensures Decode(h).Ok? ==> forall j :: 0 <= j < |h.arrayVisits| ==>
      Decode(h).value.elements[j] == Decode(h.arrayVisits[j].value).value
  {
    DecodeArray(h);
    FillArraySpec(ArrayMembers(h), |h.arrayVisits|);
  }

  // ----- Round trip -----

  function Blank(className: string): HostObject {
    HostObject(className, None, 0, 0, "", 0, 0, 0, None, None, None, [], [])
  }

  /** A host object whose reads give back `v`. */
  function Canonical(v: XpcValue): HostObject
    decreases v
  {
    var h := Blank(TypeName(v));
    match v
    case Str(s) => h.(stringPtr := Some(s))
    case Int64(i) => h.(int64Value := i)
    case Uint64(u) => h.(uint64Value := u)
    case Double(t) => h.(doubleText := t)
    case Bool(b) => h.(boolValue := if b then 1 else 0)
    case Null => h
    case Date(t) => h.(dateValue := t)
    case Fd(fd) => h.(dupFd := fd)
    case Array(xs) =>
      h.(arrayVisits := seq(|xs|, j requires 0 <= j < |xs| => ArrayVisit(j, Canonical(xs[j]))))
    case Dictionary(es) =>
      h.(dictVisits := seq(|es|, j requires 0 <= j < |es| => DictVisit(Some(es[j].key), Canonical(es[j].value))))
    case Data(f, b) => h.(dataFormat := Some(f), dataBody := Some(b))
    case MachSend(d) => h.(description := d)
    case Endpoint(d) => h.(description := d)
    case Unknown(_) => h
  }

  /** Every tree the decoder can produce is decoded back from its canonical host object. */
  lemma {:induction false} DecodeCanonical(v: XpcValue)
    requires WellFormed(v)
    ensures Decode(Canonical(v)) == Ok(v)
    decreases v
  {
    var h := Canonical(v);
    TypeNameDispatch(v);
    match v
    case Array(xs) =>
      forall j | 0 <= j < |xs| ensures ArrayMembers(h)[j] == Ok(xs[j]) {
        DecodeCanonical(xs[j]);
      }
      CanonicalElements(h, xs);
    case Dictionary(es) =>
      forall j | 0 <= j < |es| ensures Decode(h.dictVisits[j].value) == Ok(es[j].value) {
        DecodeCanonical(es[j].value);
      }
      CanonicalEntries(h, es);
    case _ =>
  }

  /** Array members that each decode back to their element rebuild the element list. */
  lemma CanonicalElements(h: HostObject, xs: seq<XpcValue>)
    requires |h.arrayVisits| == |xs|
    requires forall j :: 0 <= j < |xs| ==> ArrayMembers(h)[j] == Ok(xs[j])
    ensures FillArray(ArrayMembers(h), |xs|) == Ok(xs)
  {
    var rs := ArrayMembers(h);
    FillArraySpec(rs, |rs|);
    assert FillArray(rs, |rs|).value == xs;
  }

  /** Dictionary visits with the distinct keys of `es`, each decoding to its value, rebuild `es`. */
  lemma CanonicalEntries(h: HostObject, es: seq<Pair<XpcValue>>)
    requires |h.dictVisits| == |es| && UniqueKeys(es)
    requires forall j :: 0 <= j < |es| ==> h.dictVisits[j].key == Some(es[j].key)
    requires forall j :: 0 <= j < |es| ==> Decode(h.dictVisits[j].value) == Ok(es[j].value)
    ensures DictionaryOf(h) == Ok(Dictionary(es))
  {
    var ms := DictMembers(h);
    FillDictionaryDistinct(ms, |ms|);
    var table := FillDictionary(ms, |ms|).value;
    FillDictionaryValues(ms, |ms|, x => x < h);
    ReadTableSpec(h, table);
    assert ReadTable(h, table).value == es;
  }
}
