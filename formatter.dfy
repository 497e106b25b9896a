/**
 * The pretty-printer: formatDictionary, formatArray and formatData, the
 * `toString()` of the scalar classes, and printError for an "error" entry.
 * Each text is first given as a function of the decoded tree, and then the
 * script's loops are methods proved to build exactly that text.
 */
module Formatter {
  import opened Wrappers
  import opened Host
  import opened Assoc
  import opened Values
  import Decimal

  /**
   * `xpc_strerror(code)` followed by `readCString()`; a code the map does
   * not hold stands for a null result.
   */
  type StrError = map<int64, string>

  /** `indent.repeat(n)` with the indent "\t". */
  function Tabs(n: nat): (s: string)
    ensures |s| == n
    ensures forall i :: 0 <= i < |s| ==> s[i] == '\t'
  {
    if n == 0 then "" else Tabs(n - 1) + "\t"
  }

  /** A C string placed in a template literal: a null pointer prints "null". */
  function CText(s: Option<string>): string {
    match s
    case None => "null"
    case Some(t) => t
  }

  /** The integer a value carries, for the variants whose toString prints one. */
  function IntegerOf(v: XpcValue): Option<int> {
    match v
    case Int64(i) => Some(i)
    case Uint64(u) => Some(u)
    case Date(t) => Some(t)
    case Fd(fd) => Some(fd)
    case _ => None
  }

  /**
   * `toString()` of every class without a format method. An integer prints
   * as the decimal text that denotes it, which Decimal.IntToStringUnique
   * shows is the only one.
   */
  function ScalarText(v: XpcValue): (s: string)
    requires !v.Dictionary? && !v.Array? && !v.Data?
    ensures IntegerOf(v).Some? ==> Decimal.IsDecimal(s) && Decimal.SignedValue(s) == IntegerOf(v).value
  {
    match v
    case Str(t) => t
    case Int64(i) => Decimal.IntToStringValue(i); Decimal.IntToString(i)
    case Uint64(u) => Decimal.IntToStringValue(u); Decimal.IntToString(u)
    case Double(t) => t
    case Bool(b) => if b then "true" else "false"
    case Null => "null"
    case Date(t) => Decimal.IntToStringValue(t); Decimal.IntToString(t)
    case Fd(fd) => Decimal.IntToStringValue(fd); Decimal.IntToString(fd)
    case MachSend(d) => CText(d)
    case Endpoint(d) => CText(d)
    case Unknown(_) => "unknown"
  }

  /**
   * The argument printError passes to xpc_strerror: the value's getRawData,
   * which is an integer only for int64, date and fd objects.
   */
  function ErrorCode(v: XpcValue): (c: Option<int64>)
    ensures c.Some? <==> v.Int64? || v.Date? || v.Fd?
    ensures v.Int64? ==> c == Some(v.i)
    ensures v.Date? ==> c == Some(v.ticks)
    ensures v.Fd? ==> c == Some(v.fd as int64)
  {
    match v
    case Int64(i) => Some(i)
    case Date(t) => Some(t)
    case Fd(fd) => Some(fd)
    case _ => None
  }

  /** printError: the strerror text of the code, "null" when that reads null. */
  function ErrorText(v: XpcValue, strerror: StrError): (r: Result<string, Failure>)
    ensures r.Err? <==> ErrorCode(v).None?
    ensures r.Err? ==> r.error == NotAnErrorCode
    ensures r.Ok? ==> r.value == CText(if ErrorCode(v).value in strerror then Some(strerror[ErrorCode(v).value]) else None)
  {
    match ErrorCode(v)
    case None => Err(NotAnErrorCode)
    case Some(c) => Ok(CText(if c in strerror then Some(strerror[c]) else None))
  }

  /** How many of the first `j` entries have a key other than "error". */
  function NonErrorBefore(es: seq<Pair<XpcValue>>, j: nat): (n: nat)
    requires j <= |es|
    ensures n <= j
  {
    if j == 0 then 0
    else NonErrorBefore(es, j - 1) + (if es[j - 1].key == "error" then 0 else 1)
  }

  /**
   * Whether entry `j` gets a trailing comma. The counter `i` starts at 1 and
   * is compared with the entry count and bumped only for entries other than
   * "error", which never get a comma.
   */
  function HasComma(es: seq<Pair<XpcValue>>, j: nat): (comma: bool)
    requires j < |es|
    ensures es[j].key == "error" ==> !comma
    ensures es[j].key != "error" && j < |es| - 1 ==> comma
  {
    es[j].key != "error" && 1 + NonErrorBefore(es, j) < |es|
  }

  /** The text the instanceof chain produces for a value at `depth`. */
  function ValueText(v: XpcValue, depth: nat, strerror: StrError): Result<string, Failure>
    requires depth >= 1
    decreases v, 2
  {
    match v
    case Dictionary(_) => DictText(v, depth, strerror)
    case Array(_) => ArrayText(v, depth, strerror)
    case Data(f, b) => Ok(DataText(f, b, depth))
    case _ => Ok(ScalarText(v))
  }

  /** Lines joined in order; the first line that fails decides the failure. */
  function Joined(lines: seq<Result<string, Failure>>, k: nat): Result<string, Failure>
    requires k <= |lines|
    decreases |lines| - k
  {
    if k == |lines| then Ok("")
    else
      match lines[k]
      case Err(e) => Err(e)
      case Ok(line) => Prefixed(line, Joined(lines, k + 1))
  }

  /** formatDictionary(depth): the entry lines between "{" and the closing brace. */
  function DictText(v: XpcValue, depth: nat, strerror: StrError): Result<string, Failure>
    requires v.Dictionary? && depth >= 1
    decreases v, 1
  {
    match Joined(EntryLines(v, depth, strerror), 0)
    case Err(e) => Err(e)
    case Ok(lines) => Ok("{\n" + lines + Tabs(depth - 1) + "}")
  }

  /** The line of every entry, in the order of the entries. */
  function EntryLines(v: XpcValue, depth: nat, strerror: StrError): (ls: seq<Result<string, Failure>>)
    requires v.Dictionary? && depth >= 1
    ensures |ls| == |v.entries|
    ensures forall j :: 0 <= j < |ls| ==> ls[j] == EntryLine(v, j, depth, strerror)
    decreases v, 0, 1
  {
    seq(|v.entries|, j requires 0 <= j < |v.entries| => EntryLine(v, j, depth, strerror))
  }

  /**
   * One entry line: indent, key, type and " = ", then the strerror text for
   * the key "error" and the value's text otherwise, a comma where HasComma
   * says, and a newline.
   */
  function EntryLine(v: XpcValue, j: nat, depth: nat, strerror: StrError): Result<string, Failure>
    requires v.Dictionary? && j < |v.entries| && depth >= 1
    decreases v, 0, 0
  {
    var e := v.entries[j];
    assert e in v.entries;
    var head := Tabs(depth) + e.key + ": " + TypeName(e.value) + " = ";
    if e.key == "error" then
      match ErrorText(e.value, strerror)
      case Err(f) => Err(f)
      case Ok(t) => Ok(head + t + "\n")
    else
      match ValueText(e.value, depth + 1, strerror)
      case Err(f) => Err(f)
      case Ok(body) => Ok(head + body + (if HasComma(v.entries, j) then "," else "") + "\n")
  }

  /** formatArray(depth): the element lines between "[" and the closing bracket. */
  function ArrayText(v: XpcValue, depth: nat, strerror: StrError): Result<string, Failure>
    requires v.Array? && depth >= 1
    decreases v, 1
  {
    match Joined(ElementLines(v, depth, strerror), 0)
    case Err(e) => Err(e)
    case Ok(lines) => Ok("[\n" + lines + Tabs(depth - 1) + "]")
  }

  /** The line of every element, in the order of the elements. */
  function ElementLines(v: XpcValue, depth: nat, strerror: StrError): (ls: seq<Result<string, Failure>>)
    requires v.Array? && depth >= 1
    ensures |ls| == |v.elements|
    ensures forall j :: 0 <= j < |ls| ==> ls[j] == ElementLine(v, j, depth, strerror)
    decreases v, 0, 1
  {
    seq(|v.elements|, j requires 0 <= j < |v.elements| => ElementLine(v, j, depth, strerror))
  }

  /** One element line: no key before the colon, and a comma if the index is below the length. */
  function ElementLine(v: XpcValue, j: nat, depth: nat, strerror: StrError): Result<string, Failure>
    requires v.Array? && j < |v.elements| && depth >= 1
    decreases v, 0, 0
  {
    var x := v.elements[j];
    assert x in v.elements;
    match ValueText(x, depth + 1, strerror)
    case Err(e) => Err(e)
    case Ok(body) => Ok(Tabs(depth) + ": " + TypeName(x) + " = " + body + (if j < |v.elements| then "," else "") + "\n")
  }

  /** formatData(depth): no newline is put between the body and its closing brace. */
  function DataText(format: string, body: string, depth: nat): string
    requires depth >= 1
  {
    "{\n" + Tabs(depth) + "format = " + format + ",\n" +
    Tabs(depth) + "body = {\n" + body + Tabs(depth) + "}" +
    "\n" + Tabs(depth - 1) + "}"
  }

  /** `p` put before the text, or the failure unchanged. */
  function Prefixed(p: string, r: Result<string, Failure>): Result<string, Failure> {
    match r
    case Ok(s) => Ok(p + s)
    case Err(e) => Err(e)
  }

  // ----- Joining lines -----

  /** The lines from `k` on join exactly when each of them renders. */
  lemma {:induction false} JoinedOk(lines: seq<Result<string, Failure>>, k: nat)
    requires k <= |lines|
    ensures Joined(lines, k).Ok? <==> forall j :: k <= j < |lines| ==> lines[j].Ok?
    decreases |lines| - k
  {
    if k < |lines| {
      JoinedOk(lines, k + 1);
    }
  }

  /** Appending the rendered line `k` to the text so far. */
  lemma JoinedAppend(str: string, lines: seq<Result<string, Failure>>, k: nat, line: string)
    requires k < |lines| && lines[k] == Ok(line)
    ensures Prefixed(str, Joined(lines, k)) == Prefixed(str + line, Joined(lines, k + 1))
  {
    var rest := Joined(lines, k + 1);
    if rest.Ok? {
      assert str + (line + rest.value) == str + line + rest.value;
    }
  }

  /** A line that fails fails the whole text. */
  lemma JoinedFails(str: string, opening: string, lines: seq<Result<string, Failure>>, k: nat)
    requires k < |lines| && lines[k].Err?
    requires Prefixed(str, Joined(lines, k)) == Prefixed(opening, Joined(lines, 0))
    ensures Joined(lines, 0) == Err(lines[k].error)
  {
  }

  /** Once no lines are left, the text so far is the opening followed by all lines. */
  lemma JoinedDone(str: string, opening: string, lines: seq<Result<string, Failure>>)
    requires Prefixed(str, Joined(lines, |lines|)) == Prefixed(opening, Joined(lines, 0))
    ensures Joined(lines, 0).Ok? && str == opening + Joined(lines, 0).value
  {
    assert str + "" == str;
  }

  // ----- The script's format methods -----

  /** The instanceof chain: a format method for the three composite classes, toString otherwise. */
  method FormatValue(v: XpcValue, depth: nat, strerror: StrError) returns (r: Result<string, Failure>)
    requires depth >= 1
    ensures r == ValueText(v, depth, strerror)
    decreases v, 2
  {
    if v.Dictionary? {
      r := FormatDictionary(v, depth, strerror);
    } else if v.Data? {
      var text := FormatData(v.format, v.body, depth);
      r := Ok(text);
    } else if v.Array? {
      r := FormatArray(v, depth, strerror);
    } else {
      r := Ok(ScalarText(v));
    }
  }

  /** xpcDictionary.formatDictionary; each entry's line is built and then appended. */
  method FormatDictionary(v: XpcValue, depth: nat, strerror: StrError) returns (r: Result<string, Failure>)
    requires v.Dictionary? && depth >= 1
    ensures r == DictText(v, depth, strerror)
    decreases v, 1, 0
  {
    ghost var lines := EntryLines(v, depth, strerror);
    var str := "{\n";
    var map_ := v.entries;
    var length := |map_|;
    var i := 1;
    var k := 0;
    while k < |map_|
      invariant 0 <= k <= |map_|
      invariant i == 1 + NonErrorBefore(map_, k)
      invariant Prefixed(str, Joined(lines, k)) == Prefixed("{\n", Joined(lines, 0))
    {
      var line := FormatEntry(v, k, depth, strerror, i, length);
      if line.Err? {
        JoinedFails(str, "{\n", lines, k);
        return Err(line.error);
      }
      if map_[k].key != "error" {
        i := i + 1;
      }
      JoinedAppend(str, lines, k, line.value);
      str := str + line.value;
      k := k + 1;
    }
    JoinedDone(str, "{\n", lines);
    str := str + Tabs(depth - 1) + "}";
    return Ok(str);
  }

  /**
   * The body of formatDictionary's loop for entry `k`, with the counter `i`
   * as it stands before the entry; the loop bumps it after an entry other
   * than "error".
   */
  method FormatEntry(v: XpcValue, k: nat, depth: nat, strerror: StrError, i: int, length: int)
    returns (r: Result<string, Failure>)
    requires v.Dictionary? && k < |v.entries| && depth >= 1
    requires i == 1 + NonErrorBefore(v.entries, k) && length == |v.entries|
    ensures r == EntryLine(v, k, depth, strerror)
    decreases v, 0, 1
  {
    if v.entries[k].key == "error" {
      r := FormatErrorEntry(v, k, depth, strerror);
    } else {
      r := FormatValueEntry(v, k, depth, strerror, i, length);
    }
  }

  /** The "error" branch: the strerror text and no comma. */
  method FormatErrorEntry(v: XpcValue, k: nat, depth: nat, strerror: StrError) returns (r: Result<string, Failure>)
    requires v.Dictionary? && k < |v.entries| && depth >= 1 && v.entries[k].key == "error"
    ensures r == EntryLine(v, k, depth, strerror)
  {
    var key := v.entries[k].key;
    var obj := v.entries[k].value;
    var line := Tabs(depth) + key + ": " + TypeName(obj) + " = ";
    ErrorEntryLine(v, k, depth, strerror);
    var t := ErrorText(obj, strerror);
    if t.Err? {
      return Err(t.error);
    }
    line := line + t.value;
    line := line + "\n";
    return Ok(line);
  }

  /** Any other entry: the value's text, then a comma while the counter is below the length. */
  method FormatValueEntry(v: XpcValue, k: nat, depth: nat, strerror: StrError, i: int, length: int)
    returns (r: Result<string, Failure>)
    requires v.Dictionary? && k < |v.entries| && depth >= 1 && v.entries[k].key != "error"
    requires i == 1 + NonErrorBefore(v.entries, k) && length == |v.entries|
    ensures r == EntryLine(v, k, depth, strerror)
    decreases v, 0, 0
  {
    var key := v.entries[k].key;
    var obj := v.entries[k].value;
    var line := Tabs(depth) + key + ": " + TypeName(obj) + " = ";
    ValueEntryLine(v, k, depth, strerror);
    assert v.entries[k] in v.entries;
    var body := FormatValue(obj, depth + 1, strerror);
    if body.Err? {
      return Err(body.error);
    }
    line := line + body.value;
    if i < length {
      line := line + ",";
    } else {
      assert line + "" == line;
    }
    line := line + "\n";
    return Ok(line);
  }

  /** xpcArray.formatArray; each element's line is built and then appended. */
  method FormatArray(v: XpcValue, depth: nat, strerror: StrError) returns (r: Result<string, Failure>)
    requires v.Array? && depth >= 1
    ensures r == ArrayText(v, depth, strerror)
    decreases v, 1
  {
    ghost var lines := ElementLines(v, depth, strerror);
    var str := "[\n";
    var elements := v.elements;
    var index := 0;
    while index < |elements|
      invariant 0 <= index <= |elements|
      invariant Prefixed(str, Joined(lines, index)) == Prefixed("[\n", Joined(lines, 0))
    {
      var obj := elements[index];
      assert obj in elements;
      var line := Tabs(depth) + ": " + TypeName(obj) + " = ";
      var body := FormatValue(obj, depth + 1, strerror);
      if body.Err? {
        JoinedFails(str, "[\n", lines, index);
        return Err(body.error);
      }
      line := line + body.value;
      if index < |elements| {
        line := line + ",";
      }
      line := line + "\n";
      JoinedAppend(str, lines, index, line);
      str := str + line;
      index := index + 1;
    }
    JoinedDone(str, "[\n", lines);
    str := str + Tabs(depth - 1) + "]";
    return Ok(str);
  }

  /** xpcData.formatData. */
  method FormatData(format: string, body: string, depth: nat) returns (str: string)
    requires depth >= 1
    ensures str == DataText(format, body, depth)
  {
    str := "{\n";
    str := str + Tabs(depth) + "format = " + format + ",\n";
    str := str + Tabs(depth) + "body = {\n";
    str := str + body;
    str := str + Tabs(depth) + "}";
    str := str + "\n" + Tabs(depth - 1) + "}";
  }

  /** The line of an "error" entry: its strerror text and no comma. */
  lemma ErrorEntryLine(v: XpcValue, k: nat, depth: nat, strerror: StrError)
    requires v.Dictionary? && k < |v.entries| && depth >= 1
    requires v.entries[k].key == "error"
    ensures var t := ErrorText(v.entries[k].value, strerror);
      EntryLine(v, k, depth, strerror) ==
        if t.Err? then Err(t.error)
        else Ok(Tabs(depth) + v.entries[k].key + ": " + TypeName(v.entries[k].value) + " = " + t.value + "\n")
  {
  }

  /** The line of any other entry: its value's text and the comma HasComma decides. */
  lemma ValueEntryLine(v: XpcValue, k: nat, depth: nat, strerror: StrError)
    requires v.Dictionary? && k < |v.entries| && depth >= 1
    requires v.entries[k].key != "error"
    ensures var b := ValueText(v.entries[k].value, depth + 1, strerror);
      EntryLine(v, k, depth, strerror) ==
        if b.Err? then Err(b.error)
        else Ok(Tabs(depth) + v.entries[k].key + ": " + TypeName(v.entries[k].value) + " = " + b.value +
          (if HasComma(v.entries, k) then "," else "") + "\n")
  {
  }

  // ----- What the formatter promises -----

  /** With no entry keyed "error", the first k entries are all counted. */
  lemma {:induction false} NonErrorBeforeAll(es: seq<Pair<XpcValue>>, j: nat)
    requires j <= |es|
    requires forall i :: 0 <= i < |es| ==> es[i].key != "error"
    ensures NonErrorBefore(es, j) == j
  {
    if j > 0 {
      NonErrorBeforeAll(es, j - 1);
    }
  }

  /** An "error" entry before position j is not counted. */
  lemma {:induction false} NonErrorBeforeSkips(es: seq<Pair<XpcValue>>, j: nat, e: nat)
    requires e < j <= |es| && es[e].key == "error"
    ensures NonErrorBefore(es, j) < j
  {
    if j - 1 > e {
      NonErrorBeforeSkips(es, j - 1, e);
    }
  }

  /** Without an "error" key, every entry but the last gets a comma. */
  lemma CommaWithoutErrorKey(es: seq<Pair<XpcValue>>)
    requires forall i :: 0 <= i < |es| ==> es[i].key != "error"
    ensures forall j :: 0 <= j < |es| ==> (HasComma(es, j) <==> j < |es| - 1)
  {
    forall j | 0 <= j < |es| ensures HasComma(es, j) <==> j < |es| - 1 {
      NonErrorBeforeAll(es, j);
    }
  }

  /**
   * With an "error" key present, every other entry gets a comma, the last
   * of them included: the counter is compared with a length that counts the
   * "error" entry.
   */
  lemma CommaWithErrorKey(es: seq<Pair<XpcValue>>, e: nat)
    requires e < |es| && es[e].key == "error"
    ensures forall j :: 0 <= j < |es| && es[j].key != "error" ==> HasComma(es, j)
  {
    forall j | 0 <= j < |es| && es[j].key != "error" ensures HasComma(es, j) {
      if e < j {
        NonErrorBeforeSkips(es, j, e);
      }
    }
  }

  /** An empty array prints its brackets on two lines, the closing one indented a level out. */
  lemma EmptyArrayText(depth: nat, strerror: StrError)
    requires depth >= 1
    ensures ArrayText(Array([]), depth, strerror) == Ok("[\n" + Tabs(depth - 1) + "]")
  {
    var lines := ElementLines(Array([]), depth, strerror);
    assert lines == [];
    assert Joined(lines, 0) == Ok("");
    assert "[\n" + "" == "[\n";
  }

  /** Every array element line that renders ends with a comma, the last one included. */
  lemma ElementLineComma(v: XpcValue, j: nat, depth: nat, strerror: StrError)
    requires v.Array? && j < |v.elements| && depth >= 1
    ensures ElementLine(v, j, depth, strerror).Ok? ==>
      var line := ElementLine(v, j, depth, strerror).value;
      |line| >= 2 && line[|line| - 2..] == ",\n"
  {
  }

  /**
   * A tree the formatter can render: every "error" entry holds an integer
   * code, and every other value is itself renderable.
   */
  ghost predicate Renderable(v: XpcValue)
    decreases v
  {
    match v
    case Dictionary(es) =>
      forall j :: 0 <= j < |es| ==>
        (es[j].key == "error" ==> ErrorCode(es[j].value).Some?) &&
        (es[j].key != "error" ==> (assert es[j] in es; Renderable(es[j].value)))
    case Array(xs) => forall j :: 0 <= j < |xs| ==> Renderable(xs[j])
    case _ => true
  }

  /**
   * Formatting fails only on an "error" entry whose value is not an integer,
   * at any depth and whatever strerror answers.
   */
  lemma {:induction false} ValueTextOk(v: XpcValue, depth: nat, strerror: StrError)
    requires depth >= 1
    ensures ValueText(v, depth, strerror).Ok? <==> Renderable(v)
    decreases v, 1
  {
    match v
    case Dictionary(es) =>
      var lines := EntryLines(v, depth, strerror);
      JoinedOk(lines, 0);
      forall j | 0 <= j < |es|
        ensures lines[j].Ok? <==>
          (es[j].key == "error" ==> ErrorCode(es[j].value).Some?) &&
          (es[j].key != "error" ==> Renderable(es[j].value))
      {
        EntryLineOk(v, j, depth, strerror);
      }
    case Array(xs) =>
      var lines := ElementLines(v, depth, strerror);
      JoinedOk(lines, 0);
      forall j | 0 <= j < |xs| ensures lines[j].Ok? <==> Renderable(xs[j]) {
        assert xs[j] in xs;
        ValueTextOk(xs[j], depth + 1, strerror);
      }
    case _ =>
  }

  lemma {:induction false} EntryLineOk(v: XpcValue, k: nat, depth: nat, strerror: StrError)
    requires v.Dictionary? && k < |v.entries| && depth >= 1
    ensures var e := v.entries[k];
      EntryLine(v, k, depth, strerror).Ok? <==>
        (e.key == "error" ==> ErrorCode(e.value).Some?) &&
        (e.key != "error" ==> Renderable(e.value))
    decreases v, 0
  {
    var e := v.entries[k];
    if e.key != "error" {
      assert e in v.entries;
      ValueTextOk(e.value, depth + 1, strerror);
      ValueEntryLine(v, k, depth, strerror);
    } else {
      ErrorEntryLine(v, k, depth, strerror);
    }
  }
}
