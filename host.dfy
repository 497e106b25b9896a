/**
 * What the instrumented process exposes about one XPC object. Every native
 * accessor the script calls (xpc_string_get_string_ptr, xpc_int64_get_value,
 * xpc_dictionary_apply, ...) becomes a field holding the value that accessor
 * would return for this object; reads of a C string that come back null are
 * `None`. The script only calls the accessor that matches the object's class
 * name, so the other fields of a record are never looked at.
 */
module Host {
  import opened Wrappers

  type int64 = x: int | -0x8000_0000_0000_0000 <= x < 0x8000_0000_0000_0000
  type uint64 = x: int | 0 <= x < 0x1_0000_0000_0000_0000
  type int32 = x: int | -0x8000_0000 <= x < 0x8000_0000
  type uint32 = x: int | 0 <= x < 0x1_0000_0000

  datatype HostObject = HostObject(
    /** the Objective-C runtime class name, `$className` */
    className: string,
    /** xpc_string_get_string_ptr(p).readCString() */
    stringPtr: Option<string>,
    /** xpc_int64_get_value(p) */
    int64Value: int64,
    /** xpc_uint64_get_value(p) */
    uint64Value: uint64,
    /** xpc_double_get_value(p).toString(); floating point is not modelled */
    doubleText: string,
    /** xpc_bool_get_value(p) as the number the native binding returns */
    boolValue: int,
    /** xpc_date_get_value(p) */
    dateValue: int64,
    /** xpc_fd_dup(p), the descriptor number the duplicate got */
    dupFd: int32,
    /** xpc_data_get_bytes_ptr(p).readCString(8), the format tag */
    dataFormat: Option<string>,
    /** xpc_data_get_bytes_ptr(p).readCString(xpc_data_get_length(p)) */
    dataBody: Option<string>,
    /** xpc_copy_description(p).readCString() */
    description: Option<string>,
    /** the (key, value) pairs xpc_dictionary_apply passes to its block, in order */
    dictVisits: seq<DictVisit>,
    /** the (index, value) pairs xpc_array_apply passes to its block, in order */
    arrayVisits: seq<ArrayVisit>
  )

  /** One callback of xpc_dictionary_apply: the key pointer read as a C string, and the value. */
  datatype DictVisit = DictVisit(key: Option<string>, value: HostObject)

  /** One callback of xpc_array_apply: the index and the value. */
  datatype ArrayVisit = ArrayVisit(index: int, value: HostObject)
}
