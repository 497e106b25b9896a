/**
 * The decoded XPC value tree and the class-name dispatch that picks a
 * variant for a runtime class name.
 */
module Values {
  import opened Wrappers
  import opened Host
  import opened Assoc

  /** The kinds the dispatch switch knows, plus the catch-all. */
  datatype Kind =
    | KString | KInt64 | KUint64 | KDouble | KBool | KNull | KDate | KFd
    | KArray | KDictionary | KData | KMachSend | KEndpoint
    | KUnknown

  /** The thirteen class names the switch has a case for. */
  const KnownNames: seq<string> := [
    "OS_xpc_string", "OS_xpc_int64", "OS_xpc_uint64", "OS_xpc_double",
    "OS_xpc_bool", "OS_xpc_null", "OS_xpc_date", "OS_xpc_fd",
    "OS_xpc_array", "OS_xpc_dictionary", "OS_xpc_data",
    "OS_xpc_mach_send", "OS_xpc_endpoint"
  ]

  /** The runtime class name of a known kind. */
  function ClassName(k: Kind): string
    requires k != KUnknown
  {
    match k
    case KString => "OS_xpc_string"
    case KInt64 => "OS_xpc_int64"
    case KUint64 => "OS_xpc_uint64"
    case KDouble => "OS_xpc_double"
    case KBool => "OS_xpc_bool"
    case KNull => "OS_xpc_null"
    case KDate => "OS_xpc_date"
    case KFd => "OS_xpc_fd"
    case KArray => "OS_xpc_array"
    case KDictionary => "OS_xpc_dictionary"
    case KData => "OS_xpc_data"
    case KMachSend => "OS_xpc_mach_send"
    case KEndpoint => "OS_xpc_endpoint"
  }

  /**
   * The switch on `$className`: exact match against the known names, and
   * every other string, the empty one included, selects the unknown kind.
   * It is total, so no class name makes it raise.
   */
  function Dispatch(className: string): (k: Kind)
    ensures k != KUnknown ==> ClassName(k) == className
  {
    match className
    case "OS_xpc_string" => KString
    case "OS_xpc_int64" => KInt64
    case "OS_xpc_uint64" => KUint64
    case "OS_xpc_double" => KDouble
    case "OS_xpc_bool" => KBool
    case "OS_xpc_null" => KNull
    case "OS_xpc_date" => KDate
    case "OS_xpc_fd" => KFd
    case "OS_xpc_array" => KArray
    case "OS_xpc_dictionary" => KDictionary
    case "OS_xpc_data" => KData
    case "OS_xpc_mach_send" => KMachSend
    case "OS_xpc_endpoint" => KEndpoint
    case _ => KUnknown
  }

  /** The catch-all is chosen exactly for the names the switch has no case for. */
  lemma DispatchUnknown(className: string)
    ensures Dispatch(className) == KUnknown <==> className !in KnownNames
  {
  }

  /** Dispatch recovers the kind from its class name. */
  lemma DispatchClassName(k: Kind)
    requires k != KUnknown
    ensures Dispatch(ClassName(k)) == k
  {
  }

  /** A decoded XPC object. */
  datatype XpcValue =
    | Str(text: string)
    | Int64(i: int64)
    | Uint64(u: uint64)
    | Double(rendering: string)
    | Bool(b: bool)
    | Null
    | Date(ticks: int64)
    | Fd(fd: int32)
    | Array(elements: seq<XpcValue>)
    | Dictionary(entries: seq<Pair<XpcValue>>)
    | Data(format: string, body: string)
    | MachSend(description: Option<string>)
    | Endpoint(description: Option<string>)
    | Unknown(className: string)

  /** The errors the decoders and the formatter raise. */
  datatype Failure =
    | NullString       // a string object whose string pointer reads null
    | NullDataFormat   // a data object whose format tag reads null
    | NullKey          // a dictionary key pointer that reads null
    | NotAnErrorCode   // an "error" entry whose value is not an integer

  function KindOf(v: XpcValue): Kind {
    match v
    case Str(_) => KString
    case Int64(_) => KInt64
    case Uint64(_) => KUint64
    case Double(_) => KDouble
    case Bool(_) => KBool
    case Null => KNull
    case Date(_) => KDate
    case Fd(_) => KFd
    case Array(_) => KArray
    case Dictionary(_) => KDictionary
    case Data(_, _) => KData
    case MachSend(_) => KMachSend
    case Endpoint(_) => KEndpoint
    case Unknown(_) => KUnknown
  }

  /**
   * A tree the decoder can produce: unknown objects carry a class name the
   * switch does not know, dictionary keys are unique, and so on below.
   */
  ghost predicate WellFormed(v: XpcValue)
    decreases v
  {
    match v
    case Unknown(c) => c !in KnownNames
    case Array(xs) => forall j :: 0 <= j < |xs| ==> WellFormed(xs[j])
    case Dictionary(es) => UniqueKeys(es) && forall j :: 0 <= j < |es| ==> WellFormed(es[j].value)
    case _ => true
  }

  /** The type text the formatter prints, `getType()`: the runtime class name. */
  function TypeName(v: XpcValue): string {
    match v
    case Unknown(c) => c
    case _ => ClassName(KindOf(v))
  }

  /** The switch maps the type text of a well-formed tree back to its variant. */
  lemma TypeNameDispatch(v: XpcValue)
    requires WellFormed(v)
    ensures Dispatch(TypeName(v)) == KindOf(v)
  {
    if v.Unknown? {
      DispatchUnknown(v.className);
    } else {
      DispatchClassName(KindOf(v));
    }
  }
}
