/**
 * The interceptor's onEnter: the null-connection guard, the launchd lookup
 * request sent for the connection's service, and the log text built from
 * the reply and the message.
 */
module Hook {
  import opened Wrappers
  import opened Host
  import opened Assoc
  import opened Values
  import opened Traversal
  import opened Decoder
  import opened Formatter

  /** A value the hook stores into the lookup request. */
  datatype RequestValue =
    | RUint64(u: uint64)
    | RString(s: string)
    | RMachSend(port: uint32)
    | RBool(b: bool)

  /** The routine number of a service lookup. */
  const RoutineLookup: uint64 := 0x324

  /** The pairs of the first three set calls, in call order. */
  function HeadPairs(): seq<Pair<RequestValue>> {
    [Pair("subsystem", RUint64(3)), Pair("handle", RUint64(0)), Pair("routine", RUint64(RoutineLookup))]
  }

  /** The name pair, present only for a non-null name pointer. */
  function NamePairs(name: Option<string>): seq<Pair<RequestValue>> {
    if name.Some? then [Pair("name", RString(name.value))] else []
  }

  /** The pairs of the last three set calls, in call order. */
  function TailPairs(port: uint32): seq<Pair<RequestValue>> {
    [Pair("type", RUint64(7)), Pair("domain-port", RMachSend(port)), Pair("legacy", RBool(true))]
  }

  /** The request after its first three set calls: subsystem, handle and routine, in that order. */
  function HeadRequest(): (r: seq<Pair<RequestValue>>)
    ensures r == HeadPairs()
  {
    var s0: seq<Pair<RequestValue>> := [];
    PutFresh(s0, "subsystem", RUint64(3));
    var s1 := Put(s0, "subsystem", RUint64(3));
    PutFresh(s1, "handle", RUint64(0));
    var s2 := Put(s1, "handle", RUint64(0));
    PutFresh(s2, "routine", RUint64(RoutineLookup));
    Put(s2, "routine", RUint64(RoutineLookup))
  }

  /** Then the name, set only when `xpc_connection_get_name` gave a non-null pointer; it goes after the head. */
  function NamedRequest(name: Option<string>): (r: seq<Pair<RequestValue>>)
    ensures r == HeadPairs() + NamePairs(name)
  {
    if name.Some? then
      PutFresh(HeadRequest(), "name", RString(name.value));
      Put(HeadRequest(), "name", RString(name.value))
    else
      assert HeadRequest() + [] == HeadRequest();
      HeadRequest()
  }

  /** The whole request: then type, domain-port and legacy, each appended in the order of the set calls. */
  function LookupRequest(name: Option<string>, port: uint32): (r: seq<Pair<RequestValue>>)
    ensures r == HeadPairs() + NamePairs(name) + TailPairs(port)
  {
    var named := NamedRequest(name);
    assert Keys(named) == ["subsystem", "handle", "routine"] + (if name.Some? then ["name"] else []);
    TailAppends(named, port);
    Put(Put(Put(named, "type", RUint64(7)), "domain-port", RMachSend(port)), "legacy", RBool(true))
  }

  /** The last three set calls append their pairs to a request holding none of their keys. */
  lemma TailAppends(es: seq<Pair<RequestValue>>, port: uint32)
    requires "type" !in Keys(es) && "domain-port" !in Keys(es) && "legacy" !in Keys(es)
    ensures Put(Put(Put(es, "type", RUint64(7)), "domain-port", RMachSend(port)), "legacy", RBool(true)) ==
      es + TailPairs(port)
  {
    PutThreeFresh(es, "type", RUint64(7), "domain-port", RMachSend(port), "legacy", RBool(true));
  }

  /**
   * The request never repeats a key, holds each fixed field with its value,
   * and carries a name exactly when the connection has one.
   */
  lemma LookupRequestFields(name: Option<string>, port: uint32)
    ensures UniqueKeys(LookupRequest(name, port))
    ensures Lookup(LookupRequest(name, port), "subsystem") == Some(RUint64(3))
    ensures Lookup(LookupRequest(name, port), "handle") == Some(RUint64(0))
    ensures Lookup(LookupRequest(name, port), "routine") == Some(RUint64(RoutineLookup))
    ensures Lookup(LookupRequest(name, port), "type") == Some(RUint64(7))
    ensures Lookup(LookupRequest(name, port), "domain-port") == Some(RMachSend(port))
    ensures Lookup(LookupRequest(name, port), "legacy") == Some(RBool(true))
    ensures Lookup(LookupRequest(name, port), "name").Some? <==> name.Some?
    ensures name.Some? ==> Lookup(LookupRequest(name, port), "name") == Some(RString(name.value))
    ensures forall k :: Lookup(LookupRequest(name, port), k).Some? ==>
      k in {"subsystem", "handle", "routine", "name", "type", "domain-port", "legacy"}
  {
    NamedRequestFields(name);
    var named := NamedRequest(name);
    var s4 := Put(named, "type", RUint64(7));
    var s5 := Put(s4, "domain-port", RMachSend(port));
    PutUnique(named, "type", RUint64(7));
    PutUnique(s4, "domain-port", RMachSend(port));
    PutUnique(s5, "legacy", RBool(true));
    PutLookup(named, "type", RUint64(7));
    PutLookup(s4, "domain-port", RMachSend(port));
    PutLookup(s5, "legacy", RBool(true));
  }

  /** The same for the request as it stands after the name. */
  lemma NamedRequestFields(name: Option<string>)
    ensures UniqueKeys(NamedRequest(name))
    ensures Lookup(NamedRequest(name), "subsystem") == Some(RUint64(3))
    ensures Lookup(NamedRequest(name), "handle") == Some(RUint64(0))
    ensures Lookup(NamedRequest(name), "routine") == Some(RUint64(RoutineLookup))
    ensures Lookup(NamedRequest(name), "name") == if name.Some? then Some(RString(name.value)) else None
    ensures forall k :: k != "subsystem" && k != "handle" && k != "routine" && k != "name" ==>
      Lookup(NamedRequest(name), k) == None
  {
    var s0: seq<Pair<RequestValue>> := [];
    var s1 := Put(s0, "subsystem", RUint64(3));
    var s2 := Put(s1, "handle", RUint64(0));
    var s3 := Put(s2, "routine", RUint64(RoutineLookup));
    PutUnique(s0, "subsystem", RUint64(3));
    PutUnique(s1, "handle", RUint64(0));
    PutUnique(s2, "routine", RUint64(RoutineLookup));
    PutLookup(s0, "subsystem", RUint64(3));
    PutLookup(s1, "handle", RUint64(0));
    PutLookup(s2, "routine", RUint64(RoutineLookup));
    if name.Some? {
      PutUnique(s3, "name", RString(name.value));
      PutLookup(s3, "name", RString(name.value));
    }
  }

  /** The dictionary `xpc_dictionary_create` returns, filled by the `xpc_dictionary_set_*` calls. */
  class RequestDictionary {
    var entries: seq<Pair<RequestValue>>

    constructor ()
      ensures entries == []
    {
      entries := [];
    }

    /** A set call: the key now holds the value, in its old place if it was there. */
    method Set(key: string, value: RequestValue)
      modifies this
      ensures entries == Put(old(entries), key, value)
    {
      entries := Put(entries, key, value);
    }
  }

  /** The request onEnter builds for the connection's service name. */
  method BuildLookupRequest(name: Option<string>, port: uint32) returns (dict: RequestDictionary)
    ensures fresh(dict)
    ensures dict.entries == LookupRequest(name, port)
  {
    dict := new RequestDictionary();
    dict.Set("subsystem", RUint64(3));
    dict.Set("handle", RUint64(0));
    dict.Set("routine", RUint64(RoutineLookup));
    if name.Some? {
      dict.Set("name", RString(name.value));
    }
    dict.Set("type", RUint64(7));
    dict.Set("domain-port", RMachSend(port));
    dict.Set("legacy", RBool(true));
  }

  /** The connection argument: null, or a connection with a name pointer, itself possibly null. */
  datatype Connection = Connection(name: Option<string>)

  /** `xpc_pipe_routine` on the bootstrap pipe: the reply object for a request. */
  type PipeRoutine = seq<Pair<RequestValue>> -> HostObject

  /** The reply object the routine gives for the connection's lookup request. */
  function Reply(name: Option<string>, bootstrapPort: uint32, routine: PipeRoutine): HostObject {
    routine(LookupRequest(name, bootstrapPort))
  }

  /** The text before the reply's own text. */
  function Opening(functionName: string, name: Option<string>): string {
    functionName + "(\n" + "\tconnection = {\n" + "\t\t" + CText(name) + " = "
  }

  /** The text between the reply's text and the message's text. */
  function MessageHeader(className: string): string {
    "\n" + "\t},\n" + "\tmessage: " + className + " = "
  }

  /** The printed text, in the order the script appends its pieces. */
  function LogText(functionName: string, name: Option<string>, replyText: string,
                   className: string, messageText: string): string {
    functionName + "(\n" + "\tconnection = {\n" + "\t\t" + CText(name) + " = " +
    replyText + "\n" + "\t},\n" + "\tmessage: " + className + " = " + messageText + "\n);"
  }

  /** The printed text in its three parts around the reply and the message. */
  lemma LogTextParts(functionName: string, name: Option<string>, replyText: string,
                     className: string, messageText: string)
    ensures LogText(functionName, name, replyText, className, messageText) ==
      Opening(functionName, name) + replyText + MessageHeader(className) + messageText + "\n);"
  {
    Regroup(Opening(functionName, name) + replyText, "\n", "\t},\n", "\tmessage: ", className, " = ");
  }

  /** Appending five pieces one by one appends their concatenation. */
  lemma Regroup(x: string, a: string, b: string, c: string, d: string, e: string)
    ensures x + a + b + c + d + e == x + (a + b + c + d + e)
  {
  }

  /**
   * `formatDictionary(3)` on the reply: the reply is read as a dictionary
   * whatever its class, so its members are traversed and then rendered.
   */
  function ReplyText(reply: HostObject, strerror: StrError): Result<string, Failure> {
    match DictionaryOf(reply)
    case Err(e) => Err(e)
    case Ok(d) => DictText(d, 3, strerror)
  }

  /** The switch on the message's class name: its decoded value rendered at depth 2. */
  function MessageText(message: HostObject, strerror: StrError): Result<string, Failure> {
    match Decode(message)
    case Err(e) => Err(e)
    case Ok(v) => ValueText(v, 2, strerror)
  }

  /**
   * What onEnter prints: None when the connection is null and nothing is
   * printed, a failure when a decoder or printError raises, and the log text
   * otherwise.
   */
  function HookLog(functionName: string, connection: Option<Connection>, message: HostObject,
                   bootstrapPort: uint32, routine: PipeRoutine, strerror: StrError): (r: Option<Result<string, Failure>>)
    ensures r.None? <==> connection.None?
  {
    match connection
    case None => None
    case Some(c) =>
      Some(
        match ReplyText(Reply(c.name, bootstrapPort, routine), strerror)
        case Err(e) => Err(e)
        case Ok(replyText) =>
          match MessageText(message, strerror)
          case Err(e) => Err(e)
          case Ok(messageText) =>
            Ok(LogText(functionName, c.name, replyText, message.className, messageText)))
  }

  /** The reply renders exactly when the dictionary wrapper reads it and the result is renderable. */
  lemma ReplyTextOk(reply: HostObject, strerror: StrError)
    ensures ReplyText(reply, strerror).Ok? <==> DictionaryOf(reply).Ok? && Renderable(DictionaryOf(reply).value)
  {
    if DictionaryOf(reply).Ok? {
      ValueTextOk(DictionaryOf(reply).value, 3, strerror);
    }
  }

  /** The message renders exactly when it decodes to a renderable value. */
  lemma MessageTextOk(message: HostObject, strerror: StrError)
    ensures MessageText(message, strerror).Ok? <==> Decode(message).Ok? && Renderable(Decode(message).value)
  {
    if Decode(message).Ok? {
      ValueTextOk(Decode(message).value, 2, strerror);
    }
  }

  /**
   * For a non-null connection the hook prints exactly when both the reply
   * and the message render; the reply's failure is the one reported first.
   */
  lemma HookLogOk(functionName: string, connection: Option<Connection>, message: HostObject,
                  bootstrapPort: uint32, routine: PipeRoutine, strerror: StrError)
    requires connection.Some?
    ensures var reply := Reply(connection.value.name, bootstrapPort, routine);
      var log := HookLog(functionName, connection, message, bootstrapPort, routine, strerror).value;
      (log.Ok? <==> ReplyText(reply, strerror).Ok? && MessageText(message, strerror).Ok?) &&
      (ReplyText(reply, strerror).Err? ==> log == Err(ReplyText(reply, strerror).error))
  {
  }

  /**
   * A printed log opens with the hooked function and the service name, shows
   * the formatted reply, then the message under the type name of its decoded
   * value and its formatted text, and closes with ");".
   */
  lemma HookLogText(functionName: string, connection: Option<Connection>, message: HostObject,
                    bootstrapPort: uint32, routine: PipeRoutine, strerror: StrError)
    requires connection.Some?
    requires HookLog(functionName, connection, message, bootstrapPort, routine, strerror).value.Ok?
    ensures var reply := Reply(connection.value.name, bootstrapPort, routine);
      var v := Decode(message);
      v.Ok? && ReplyText(reply, strerror).Ok? && ValueText(v.value, 2, strerror).Ok? &&
      HookLog(functionName, connection, message, bootstrapPort, routine, strerror).value.value ==
        Opening(functionName, connection.value.name) + ReplyText(reply, strerror).value +
        MessageHeader(TypeName(v.value)) + ValueText(v.value, 2, strerror).value + "\n);"
  {
    var v := Decode(message).value;
    var log := HookLog(functionName, connection, message, bootstrapPort, routine, strerror).value.value;
    LogTextParts(functionName, connection.value.name, ReplyText(Reply(connection.value.name, bootstrapPort, routine), strerror).value,
      message.className, ValueText(v, 2, strerror).value);
  }

  /** formatDictionary(3) on the reply, traversal first. */
  method FormatReply(reply: HostObject, strerror: StrError) returns (r: Result<string, Failure>)
    ensures r == ReplyText(reply, strerror)
  {
    var d := ReadDictionary(reply);
    if d.Err? {
      return Err(d.error);
    }
    r := FormatDictionary(d.value, 3, strerror);
  }

  /** The message switch: decode by class name, then format at depth 2. */
  method FormatMessage(message: HostObject, strerror: StrError) returns (r: Result<string, Failure>)
    ensures r == MessageText(message, strerror)
  {
    var decoded := Decode(message);
    if decoded.Err? {
      return Err(decoded.error);
    }
    r := FormatValue(decoded.value, 2, strerror);
  }

  /**
   * onEnter as the script runs it: the text grows by appends, the request is
   * built in a fresh dictionary and sent, and any raise ends the call.
   */
  method OnEnter(functionName: string, connection: Option<Connection>, message: HostObject,
                 bootstrapPort: uint32, routine: PipeRoutine, strerror: StrError)
    returns (r: Option<Result<string, Failure>>)
    ensures r == HookLog(functionName, connection, message, bootstrapPort, routine, strerror)
  {
    var text := functionName + "(\n";
    text := text + "\tconnection = {\n";
    if connection.None? {
      return None;
    }
    var name := connection.value.name;
    text := text + "\t\t" + CText(name) + " = ";
    var dict := BuildLookupRequest(name, bootstrapPort);
    var replyText := FormatReply(routine(dict.entries), strerror);
    if replyText.Err? {
      return Some(Err(replyText.error));
    }
    text := text + replyText.value;
    text := text + "\n";
    text := text + "\t},\n";
    text := text + "\tmessage: " + message.className + " = ";
    var messageText := FormatMessage(message, strerror);
    if messageText.Err? {
      return Some(Err(messageText.error));
    }
    text := text + messageText.value;
    text := text + "\n);";
    return Some(Ok(text));
  }
}
