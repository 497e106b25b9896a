# XPC message logger: decoding and formatting model

This project models the core of a Frida script that hooks the
`xpc_connection_send_message*` functions of libxpc and logs each outgoing
message as indented text. The model covers:

- the class-name switch, which maps the runtime class name of an XPC object
  (`OS_xpc_string`, `OS_xpc_dictionary`, …) to one of thirteen wrapper
  classes and maps every other name to the "unknown" wrapper;
- the `getRawData` readers of the scalar wrappers;
- the `iterate` traversals of dictionaries and arrays;
- the pretty-printer: `formatDictionary`, `formatArray`, `formatData`,
  `toString` and `printError`;
- the `onEnter` handler, which:
  - skips a null connection;
  - builds a launchd lookup request for the connection's service name;
  - formats the reply at depth 3;
  - formats the message at depth 2;
  - assembles the log text.

Host memory is modelled by `Host.HostObject`. This record holds a class name,
the result of every native read the wrappers make (`None` stands for a null C
string), and the callbacks `xpc_dictionary_apply` and `xpc_array_apply` make
for it.

- `Decoder.Decode` is the switch followed by the chosen wrapper's
  `getRawData`. It produces an immutable `Values.XpcValue` tree.
- `Formatter.ValueText` is the printed text of a tree.
- The script builds its texts and tables step by step: loops in
  `formatDictionary`, `formatArray` and the two `iterate` blocks, and
  sequences of appends in `formatData` and `onEnter`. Each of these is a
  method (`FormatDictionary`, `FormatArray`, `IterateDictionary`,
  `IterateArray`, `FormatData`, `OnEnter`), and each method is proved to
  compute exactly the corresponding function.

The script raises an exception in three places:

- a null string pointer;
- a null data format tag;
- a null dictionary key.

These raises are modelled as `Err` results of the `Values.Failure` type.
Passing `printError` a value that is not an integer is modelled as the
failure `NotAnErrorCode`.

The dictionary traversal is lazy, as it is in the script. It stores each
value object under its key without reading it, so a later callback for the
same key replaces the object in place. In the script, each stored object is
read when its entry is formatted. In the model, `Decoder.DictionaryOf` reads
all the stored objects in table order once the traversal is complete, and
formatting then works on the decoded tree.

The code's behaviour in these cases:

- the type text before `=` is the runtime class name (`OS_xpc_int64`), not a
  short name such as `int64`;
- every array element gets a trailing comma, the last one included
  (`index < array.length` always holds);
- an empty array at depth `d` renders as `"[\n"` followed by `d - 1` tabs
  and `"]"`;
- inside a dictionary that has an `"error"` key, every other entry gets a
  comma, the last one included. This is because the counter skips the
  `"error"` entry but is compared with a length that counts it;
- no newline is printed between a data body and its closing brace;
- the switch knows thirteen class names.

## Model

| member | source | states |
|---|---|---|
| Values.Dispatch | xpc.ts:356-399 | a known wrapper kind is chosen only for the class name of that kind; every other name, the empty one included, gives the unknown kind, and no name fails |
| Values.DispatchUnknown | xpc.ts:356-399 | the unknown wrapper is chosen exactly for the names outside the thirteen known ones |
| Values.DispatchClassName | xpc.ts:357-395 | each known kind's class name selects that kind again |
| Values.TypeNameDispatch | xpc.ts:18-20 | the type text (`getType`, the class name) of a decodable tree switches back to the tree's own variant |
| Decoder.ReadString | xpc.ts:50-55 | a string object fails with NullString exactly when its string pointer reads null, and otherwise gives the text read |
| Decoder.ParseBody | xpc.ts:244-262 | the body is the C string read from the payload, or "" when that read gives null |
| Decoder.ReadBool | xpc.ts:293-295 | a bool object is true exactly when `xpc_bool_get_value` returns 1 |
| Decoder.ReadData | xpc.ts:223-262 | a data object fails exactly when its format tag reads null; otherwise it gives that format, and its body is the text read, or "" when the body is unreadable |
| Decoder.Decode | xpc.ts:356-399 | the decoded variant is the one the switch picks for the object's class name; the type text equals that class name; the tree holds unique dictionary keys; only string, data, dictionary and array objects can fail |
| Decoder.DictionaryOf | xpc.ts:409-427 | what a dictionary wrapper reads is a dictionary value with unique keys whose stored values are all decodable trees |
| Decoder.ReadTable | xpc.ts:419-427 | reading the stored value objects keeps the table's keys in order, and every value read is a decodable tree |
| Decoder.IterateDictionary | xpc.ts:344-407 | the block's loop over the callbacks builds exactly the traversal table: it stops with NullKey at the first null key, and otherwise stores each value object under its key |
| Decoder.ReadDictionary | xpc.ts:409-427 | the traversal followed by reading every stored value in table order gives exactly what the dictionary wrapper reads |
| Decoder.IterateArray | xpc.ts:444-503 | the block's loop pushes one decoded element per callback, and the first failing element is the result |
| Decoder.ArrayStep | xpc.ts:450-498 | one array callback: a failing element is the result of the whole traversal, and a decoded one is appended |
| Decoder.ReadTableSpec | xpc.ts:419-427 | reading a table succeeds exactly when every stored object decodes, and then gives each key with its decoded value, in table order |
| Decoder.LastVisitIsLast | xpc.ts:344-407 | a visit is the last one of its key in the host's callbacks exactly when it is the last one of its key in the traversal |
| Decoder.DictionaryReads | xpc.ts:350-427 | a null key fails with NullKey before any value is read; the dictionary reads exactly when every key is non-null and the value of each key's last visit decodes, so a value object that a later visit overwrote is never read |
| Decoder.LastVisitsDecode | xpc.ts:350-427 | when the dictionary reads, the value of every key's last visit decoded |
| Decoder.SomeLastVisitFails | xpc.ts:350-427 | when the keys are all non-null but the dictionary does not read, the value of some key's last visit fails to decode |
| Decoder.StoredLastVisit | xpc.ts:358-398 | the key and value object of a key's last visit are stored in the traversal table |
| Decoder.DictionaryKeyOrder | xpc.ts:344-418 | the keys of a decoded dictionary are the visited keys in order of first visit, each once: a repeated key adds no entry |
| Decoder.DictionaryLastWins | xpc.ts:358-398 | each key of a decoded dictionary holds the decoded value of the last visit carrying that key |
| Decoder.DecodeArray | xpc.ts:381-383 | (proof step, unfolds Decode) an array object decodes to the list its traversal fills |
| Decoder.ArrayDecodes | xpc.ts:444-507 | an array decodes exactly when every member decodes, and then has one element per callback, in callback order, whatever index is passed |
| Decoder.DecodeCanonical | xpc.ts:356-399 | every tree the decoder can produce is decoded back from a host object built for it, so no decodable value is lost to the switch or the traversals |
| Decoder.CanonicalElements | xpc.ts:444-503 | array callbacks whose values each decode to the matching element rebuild the element list |
| Decoder.CanonicalEntries | xpc.ts:344-411 | dictionary callbacks that carry the distinct keys of a table, each with a value that decodes to that key's value, rebuild the table |
| Traversal.FillDictionaryOk | xpc.ts:350-353 | the dictionary traversal fails exactly when some key is null, and then with NullKey |
| Traversal.FillDictionaryUnique | xpc.ts:344-407 | the traversal table never holds a key twice |
| Traversal.FillDictionaryStep | xpc.ts:350-398 | (proof step, unfolds FillDictionary) one more callback: a null key stops the traversal, and any other key stores its value object |
| Traversal.FillDictionaryErrStays | xpc.ts:350-353 | a failure after some callbacks is the failure of the whole traversal |
| Traversal.DedupSpec | xpc.ts:417-418 | the first-occurrence key list holds every key, no other, and each once |
| Traversal.FillDictionaryOrder | xpc.ts:344-418 | the table's keys are the callback keys in order of first occurrence |
| Traversal.FillDictionaryLastWins | xpc.ts:358-398 | each key holds the value object of the last callback that carries it |
| Traversal.FillDictionaryValues | xpc.ts:358-398 | every stored value object is the value object of some callback |
| Traversal.FillDictionaryStored | xpc.ts:358-398 | every stored pair comes from the last callback carrying its key, so an overwritten value object is no longer in the table |
| Traversal.FillDictionaryDistinct | xpc.ts:344-407 | callbacks with distinct non-null keys give exactly their own pairs, in callback order |
| Traversal.DistinctStep | xpc.ts:358-398 | a callback whose key is new appends its pair at the end |
| Traversal.ResolveSpec | xpc.ts:419-427 | reading the stored values succeeds exactly when each read succeeds, keeps the length and each key, and pairs each key with its read value |
| Traversal.FillArray | xpc.ts:444-503 | the array traversal after n callbacks holds n elements |
| Traversal.FillArraySpec | xpc.ts:444-503 | the array traversal succeeds exactly when every member decodes, and then lists the decoded members in callback order |
| Traversal.FillArrayStep | xpc.ts:450-497 | (proof step, unfolds FillArray) one more array callback: its failure is the traversal's failure, and otherwise its value is pushed |
| Traversal.FillArrayErrStays | xpc.ts:450-497 | a failure after some array callbacks is the failure of the whole traversal |
| Assoc.LookupPresent | xpc.ts:358-359 | a key reads a value exactly when it is among the table's keys |
| Assoc.PutAppends | xpc.ts:358-359 | assigning a new key appends it with its value at the end |
| Assoc.PutKeys | xpc.ts:358-359 | assigning keeps the key order and adds the key at the end only when it is new |
| Assoc.PutLookup | xpc.ts:358-359 | after assigning, the key reads the new value and every other key reads what it read before |
| Assoc.PutUnique | xpc.ts:358-359 | assigning into a table without repeated keys leaves it without repeated keys |
| Assoc.PutFrom | xpc.ts:358-359 | every pair after an assignment is the assigned pair or was there before |
| Assoc.PutFresh | xpc.ts:358-359 | assigning a key that no pair carries appends its pair at the end |
| Assoc.KeysAppend | xpc.ts:417 | the keys of a table with one more pair are the old keys and that pair's key |
| Assoc.PutThreeFresh | xpc.ts:573-575 | three assignments of distinct new keys append their pairs in assignment order |
| Assoc.LookupAt | xpc.ts:419-420 | in a table without repeated keys, each position's key reads that position's value |
| Assoc.LookupIndex | xpc.ts:419-420 | a key that reads a value sits at some position of the table with that value |
| Decimal.NatToString | xpc.ts:77-79 | the rendering of a natural number is nonempty, all digits, and has no leading zero |
| Decimal.IntToString | xpc.ts:77-79 | the rendering is a decimal text (an optional '-', then digits with no leading zero, and never "-0"), and it starts with '-' exactly for a negative number |
| Decimal.NatToStringValue | xpc.ts:77-79 | reading back the digits of a natural number gives the number |
| Decimal.IntToStringValue | xpc.ts:77-79 | reading back the rendering of an integer gives the integer, so distinct integers render differently |
| Decimal.IntToStringUnique | xpc.ts:77-79 | the rendering of an integer is the only decimal text that denotes it |
| Decimal.DecimalUnique | xpc.ts:77-79 | two decimal texts that denote the same integer are the same text |
| Decimal.DigitsUnique | xpc.ts:77-79 | two digit strings without a leading zero that denote the same number are equal |
| Formatter.Tabs | xpc.ts:416-421 | `indent.repeat(n)` is exactly n tab characters |
| Formatter.ScalarText | xpc.ts:35-181 | int64, uint64, date and fd values print as a decimal text (no leading zero, no "-0") that denotes their integer, which by Decimal.IntToStringUnique is the one text `toString()` and `String(n)` give |
| Formatter.ErrorCode | xpc.ts:22-24 | printError has an integer code exactly for int64, date and fd values, and the code is the value's own integer |
| Formatter.ErrorText | xpc.ts:22-24 | printError fails exactly for a value without an integer code; otherwise it gives the strerror text of the code, and "null" when strerror gives a null pointer |
| Formatter.HasComma | xpc.ts:428 | an "error" entry never gets a comma, and any other entry before the last one always does |
| Formatter.NonErrorBefore | xpc.ts:428 | the counter has been bumped at most once per entry before the current one |
| Formatter.FormatValue | xpc.ts:424-427 | the instanceof chain renders a value exactly as its printed text |
| Formatter.FormatDictionary | xpc.ts:413-434 | the loop with its counter builds exactly the dictionary text: "{\n", each entry's line in order, then the closing brace one level out; the first line that fails is the result |
| Formatter.FormatEntry | xpc.ts:420-430 | the loop body for one entry builds exactly that entry's line |
| Formatter.FormatErrorEntry | xpc.ts:421-422 | an "error" entry's line is built from its strerror text, with no comma |
| Formatter.FormatValueEntry | xpc.ts:423-429 | any other entry's line holds its value's text and a comma while the counter is below the entry count |
| Formatter.FormatArray | xpc.ts:509-524 | the forEach builds exactly the array text: "[\n", each element's line in order, then the closing bracket one level out |
| Formatter.FormatData | xpc.ts:232-242 | formatData builds exactly the data text: the format line, the body line, the body, the indented brace, with no newline after the body |
| Formatter.JoinedOk | xpc.ts:419-430 | the lines join exactly when each of them renders |
| Formatter.ErrorEntryLine | xpc.ts:421-422 | (proof step, unfolds EntryLine) an "error" entry's line is its head, its strerror text and a newline, with no comma |
| Formatter.ValueEntryLine | xpc.ts:421-429 | (proof step, unfolds EntryLine) any other entry's line is its head, its value's text at one level deeper, the comma the counter decides, and a newline |
| Formatter.NonErrorBeforeAll | xpc.ts:428 | without an "error" key, the counter is bumped for every entry |
| Formatter.NonErrorBeforeSkips | xpc.ts:422-428 | an "error" entry before the current one is not counted |
| Formatter.CommaWithoutErrorKey | xpc.ts:417-428 | without an "error" key, exactly the entries other than the last get a comma |
| Formatter.CommaWithErrorKey | xpc.ts:417-428 | with an "error" key present, every entry other than "error" gets a comma, the last one included |
| Formatter.EmptyArrayText | xpc.ts:509-524 | an empty array at depth d prints "[\n", then d - 1 tabs, then "]" |
| Formatter.ElementLineComma | xpc.ts:519-520 | every array element line that renders ends with ",\n", the last element's line included |
| Formatter.ValueTextOk | xpc.ts:413-524 | formatting fails exactly when some "error" entry, at any depth, holds a value without an integer code, whatever strerror answers |
| Formatter.EntryLineOk | xpc.ts:420-429 | an entry's line renders exactly when an "error" entry holds an integer code, or when any other entry's value itself renders |
| Hook.HeadRequest | xpc.ts:564-566 | the first three set calls give exactly the subsystem, handle and routine pairs, in that order |
| Hook.NamedRequest | xpc.ts:564-572 | the name pair follows the head exactly when the name pointer is non-null |
| Hook.LookupRequest | xpc.ts:562-575 | the request is exactly the pairs subsystem 3, handle 0, routine 0x324, then name when the pointer is non-null, then type 7, domain-port the bootstrap port and legacy true, in the order of the set calls |
| Hook.TailAppends | xpc.ts:573-575 | the last three set calls append their pairs to a request that holds none of their keys |
| Hook.NamedRequestFields | xpc.ts:562-572 | after the first set calls, the request holds subsystem 3, handle 0, routine 0x324, and the name exactly when the name pointer is non-null, and no other key |
| Hook.LookupRequestFields | xpc.ts:562-575 | the lookup request holds no key twice; it has subsystem 3, handle 0, routine 0x324, type 7, domain-port the bootstrap port, legacy true, and the service name exactly when the name pointer is non-null; it has no other key |
| Hook.RequestDictionary.constructor | xpc.ts:562 | `xpc_dictionary_create` gives an empty dictionary |
| Hook.RequestDictionary.Set | xpc.ts:564-575 | a set call makes the key hold the value, replacing an old value in its place |
| Hook.BuildLookupRequest | xpc.ts:562-575 | the set calls, with the name set only for a non-null name pointer, build exactly the lookup request in a fresh dictionary |
| Hook.LogTextParts | xpc.ts:551-628 | (proof step, regroups LogText) the log text is the opening, the reply text, the message header, the message text and ");" |
| Hook.HookLog | xpc.ts:559-629 | nothing is printed exactly when the connection is null |
| Hook.ReplyTextOk | xpc.ts:576-578 | the reply renders exactly when the dictionary wrapper reads it and the dictionary it reads is renderable |
| Hook.MessageTextOk | xpc.ts:584-627 | the message renders exactly when it decodes to a renderable value |
| Hook.HookLogOk | xpc.ts:559-629 | for a non-null connection a log is printed exactly when the reply and the message both render; a reply failure is the one reported |
| Hook.HookLogText | xpc.ts:551-628 | a printed log is the function name and the service name, the reply at depth 3, "message:", the type text of the decoded message, its text at depth 2, and ");" |
| Hook.FormatReply | xpc.ts:576-578 | formatting the reply (the traversal first, then formatDictionary(3)) gives exactly the reply text |
| Hook.FormatMessage | xpc.ts:584-627 | the message switch gives exactly the message text |
| Hook.OnEnter | xpc.ts:551-629 | the handler, with its appends, the request built in a fresh dictionary, and its early exits, produces exactly the hook's log |

## Left out

- Frida's native bindings are represented by the fields of `Host.HostObject`. This covers `NativeFunction`, `ObjC.Object`, `readCString` and every `xpc_*_get_*` accessor. No pointer, address or memory read is modelled.
- The address in the text of a raised error is not modelled. Only the kind of failure is kept.
- The text JavaScript gives for a double is taken as given, because floating point is not modelled.
- The `dup` that `xpc_fd_dup` performs on every read is not modelled. That read is a side effect on the process's descriptor table.
- `parse` makes two calls whose effects are not modelled: `uuid()` builds a path from `Math.random`, and nothing uses that path; `umask(0)` changes the process's file-creation mask.
- The commented-out plist path of `parse` plays no part: `creat`, `write`, `system` and `readFileSync`.
- The model assumes that a `throw` inside the `xpc_dictionary_apply` block propagates out of the native apply call and ends `onEnter`. This applies to the null key. The block runs as a native callback, and whether Frida propagates its exception or only reports it is not part of this model.
- `Interceptor.attach` and the registration calls at the end of the script are not modelled. The same goes for exporting symbols and reading `bootstrap_port` from memory: the port is a parameter.
- `Hook.OnEnter` returns the log text instead of calling `console.log`.
- `xpc_pipe_routine` is a function from the request to the reply object (`Hook.PipeRoutine`). The model does not capture its return code, blocking, or `xpc_pipe_create_from_port`.
- `xpc_strerror` is a table from codes to texts (`Formatter.StrError`); a missing code means that a null pointer came back.
- JavaScript's for-in order puts integer-like keys first. The model keeps insertion order for every key.
- The special key `__proto__` of a plain object is not modelled.
- Decoder.Decode: arrays are decoded eagerly, when the traversal runs, instead of when they are formatted. Success and the final text are the same. When several failures are possible, which one is reported can differ from the script.
- Hook.HookLog: when several failures are possible, the one reported can differ from the script. The script reads each stored dictionary value just before rendering it. The model reads all of a dictionary's stored values first and renders them afterwards. For example, an "error" entry without an integer code followed by a string entry with a null pointer fails with `NotAnErrorCode` in the script and with `NullString` in the model. Whether a failure occurs is the same in both, and so is the text when there is none. A reply failure is reported before any message failure in both.
- Formatter.ErrorCode: a double, uint64 or bool stored under an "error" key is modelled as the failure `NotAnErrorCode`. The script passes the raw value to an `int64` native parameter, and Frida may convert it instead of raising.
- Hook.OnEnter: `xpc_connection_get_name` is called before the null check in the script. The model does not show calling it on a null connection.
- Formatter.ValueText: requires a depth of at least 1. The script only calls it with depths 2 and 3 and one level deeper for nested values.
