# EPC connection engine (ts-elrpc) in Dafny

This project models the core of ts-elrpc, a TypeScript implementation of
EPC. EPC is the RPC protocol Emacs uses to talk to external processes.
One `RPCServer` serves one socket. It works as follows:

- **Framing.** It cuts the incoming byte stream into frames: six
  hexadecimal digits of length, then that many bytes of S-expression body.
- **Dispatch.** It dispatches each decoded message by its tag (`call`,
  `return`, `return-error`, `epc_error`, `methods`, `quit`).
- **Sessions.** It keeps a table of the requests this side sent that are
  still waiting for a reply.
- **Registry.** It runs locally registered methods on behalf of the peer.
- **Outbound queue.** It sends replies and requests through a queue that
  writes one frame at a time and pauses when the socket refuses a write.
  It resumes on `drain`.
- **Teardown.** On `stop()`, it resolves every pending request and runs
  the close hooks.

The helpers of `utils.ts` are modelled too. They are the uid counter, the
zero padding of headers, `range`, and the two plist coercions between
keyword-tagged flat lists and plain objects. So are `Method` and the five
outbound message classes.

Modules:

| file | module | contents |
|---|---|---|
| values.dfy | `Values` | The dynamically typed values crossing the engine: null, integers, strings, symbols, arrays, and plain objects with ordered fields. Also `String(v)`. |
| utils.dfy | `Utils` | The `genuid` counter as a class. `padRight`. `range` as a method with its loop. `tryPListToObj`/`tryObjToPList` as functions, with the properties of both. |
| messages.dfy | `Messages` | The message kinds and `toJSON()`. |
| method.dfy | `MethodDefs` | `new Method(...)` with its defaults, and `invoke`. |
| framing.dfy | `Framing` | Writing a header with `padRight(len.toString(16), "0", 6)`. Reading it with `parseInt(…, 16)`. The header round trip. |
| engine.dfy | `Engine` | The connection state `Conn`, and every entry point of `RPCServer` as a function from the old state to the new one. Also the invariant `Inv`. |
| engine_props.dfy | `EngineProps` | `Inv` is kept by every entry point. The frame loop. Dispatch. |
| queue_props.dfy | `QueueProps` | The outbound queue: FIFO order, backpressure and `ondrain`, recovery from encoding failures. |
| session_props.dfy | `SessionProps` | Teardown: ascending order, removal, hooks run once. The method directory. |
| server.dfy | `Server` | `class RPCServer`. Its fields are the state the server updates in place. Each method performs the source's steps on them and is proved to reach `Engine`'s function of the old state. The public methods keep `Valid()`: the invariant holds and every pending or settled uid is below the shared counter, so each uid drawn is fresh. |

The world outside the engine is the `Env` parameter:

- the S-expression codec (`encode`, and `parse1(...).toJS()`);
- what each registered JavaScript function does when applied;
- what each `socket.write` returns;
- whether the logger has debug enabled.

Effects on the outside world are recorded in the state:

- `written`: the frames handed to `socket.write`;
- `ended`: whether `socket.end()` was called;
- `settled`: how the promises of pending requests were resolved or rejected;
- `hooksRun`: which close hooks ran.

Where the code differs from the library's documented behaviour, the
model follows the code:

- **A body that throws null or undefined gets no reply.** The catch clause
  of `handlerCall` calls `toString()` on what was thrown
  (src/RPCServer.ts:221), which throws again for null and undefined. The
  handler then throws, nothing is queued, and the frame loop ends this
  round (src/RPCServer.ts:165-167).
- **`stop()` sends no quit message.** `stop()` queues a null message, and
  `onqueue` ignores null (src/RPCServer.ts:122, 367).
- **Writes depend on debug logging.** A frame is written only when the
  logger has debug enabled (src/RPCServer.ts:319). With debug off,
  `send()` takes one message off the queue, writes nothing, and does not
  continue.
- **A Return that cannot be encoded is replaced at the tail.** The
  replacement protocol error message goes behind what was already waiting,
  not to the head (src/RPCServer.ts:286).
- **Protocol error messages never reach the wire.** `toJSON()` of such a
  message throws (src/message/EPCErrorMessage.ts:11-13), so `send()`
  drops it. That covers the "method not found" reply and the replacement
  for a Return that cannot be encoded. The peer gets no reply in either
  case (`QueueProps.EpcErrorDropped`, `QueueProps.LoneReturnFailureWritesNothing`).
- **The error tag has an underscore.** The inbound stack-error tag is
  `epc_error`; `epc-error` is an unknown tag and is ignored.
- **The frame loop needs more than six bytes to continue.** After a frame
  it goes on only when more than six bytes remain (src/RPCServer.ts:170).
- **Arrays that are not plists are returned as is.** A list that is not a
  plist comes back unchanged, with no recursion into its elements
  (src/utils.ts:19-30).
- **Rejected promises are not turned into replies.** Only a method body
  that throws synchronously becomes a `return-error` reply. A promise the
  body returns that later rejects is not caught (src/RPCServer.ts:214-222).

## Model

| member | source | states |
|---|---|---|
| Utils.UidCounter.constructor | src/utils.ts:3 | The counter starts at 1. |
| Utils.UidCounter.Gen | src/utils.ts:4-6 | Returns the current count and advances it by exactly one (post-increment). |
| Utils.PadRight | src/utils.ts:11-13 | `padStart`: the result has length max(\|s\|, n) for a non-empty pad. It ends with `s` and is preceded by the pad repeated cyclically. An empty pad leaves `s` unchanged. |
| Utils.Range | src/utils.ts:40-60 | The k-th element is start + k·step, every element lies strictly before `end` in the step's direction, and the list stops at the first value that reaches `end`. Omitted `end` and `step` take the JavaScript defaults. |
| Utils.ScanKeys | src/utils.ts:22-31 | The key scan reports a keyed list only when every even position from `i` on is a keyword. |
| Utils.Put | src/utils.ts:35 | `ret[key] = v`: the key then maps to `v` and every other key is unchanged. A new key goes last. An existing key keeps its place. |
| Utils.PListToObj | src/utils.ts:18-38 | The only error is the TypeError from a null key. A result that is not an object is the input itself. |
| Utils.BuildObj | src/utils.ts:32-37 | The second loop yields an object or the null-key error. |
| Utils.PListToObjKeepsNonPlist | src/utils.ts:19-31 | A non-array comes back unchanged. So does an array whose first non-keyword even position precedes any null. |
| Utils.PListToObjKeepsOddLists | src/utils.ts:19-21 | An odd-length array comes back unchanged. |
| Utils.PListToObjNullKeyThrows | src/utils.ts:22-31 | A null key reached before any non-keyword makes the conversion throw. |
| Utils.PListToObjEmpty | src/utils.ts:32-37 | The empty array becomes the empty object. |
| Utils.BuildObjLastKey | src/utils.ts:33-36 | When a key repeats, the value after its last occurrence wins. |
| Utils.PListToObjKeyValue | src/utils.ts:32-37 | A plist becomes an object. Each key, with its ':' stripped, maps to the converted value after its last occurrence. |
| Utils.PListToObjOnlyKeys | src/utils.ts:32-37 | No name other than the plist's keys is a key of the object. |
| Utils.ObjToPListShape | src/utils.ts:63-77 | An object becomes a list twice as long: `:key` symbols alternate with converted values, in field order. An array is converted element-wise. Anything else is unchanged. |
| Utils.PListRoundTrip | src/utils.ts:18-77 | An object tree with distinct keys comes back equal through `tryObjToPList`, the peer's reading of symbols as strings, and `tryPListToObj`. |
| Utils.ListRoundTripFails | src/utils.ts:72-73 | The round trip does not hold for arrays: `[":a", 1]` comes back as the object `{a: 1}`. |
| Messages.ToJSON | src/message/CallMessage.ts:18-20 | The term starts with the kind's tag symbol and the uid. A call has 4 elements, a methods query 2, the others 3. The payload follows the uid: a call's method name as a symbol and its arguments as they are, a return's value, a return-error's message as a string. A protocol error message throws "Method not implemented." (src/message/EPCErrorMessage.ts:11-13). The tags are those of src/message/MethodsMessage.ts:13-15, src/message/ReturnMessage.ts:12-14 and src/message/ErrorMessage.ts:12-14. |
| MethodDefs.NewMethod | src/Method.ts:9-14 | Keeps name and body. An omitted argdoc or docstring becomes "". |
| MethodDefs.ArgList | src/Method.ts:17 | An array is used as is. Anything else becomes a one-element array. |
| MethodDefs.ConvertAll | src/Method.ts:19 | `map(tryPListToObj)` succeeds iff every element converts, giving the elementwise conversions. Otherwise it fails with the null-key error. |
| MethodDefs.Invoke | src/Method.ts:16-21 | The body is applied to the converted argument list. A failing conversion throws that error and the body is not applied. |
| MethodDefs.InvokePassesPlainArgs | src/Method.ts:16-21 | Arguments with no arrays among them reach the body unchanged. |
| MethodDefs.InvokeWrapsScalar | src/Method.ts:17 | A single scalar argument is passed as a one-element list. |
| MethodDefs.InvokeConvertsPlistArg | src/Method.ts:19-20 | Argument j reaches the body as its plist conversion. |
| MethodDefs.InvokeNullKeyThrows | src/Method.ts:19 | An argument with a null key makes the invocation throw. |
| Framing.HexText | src/RPCServer.ts:324 | `len.toString(16)` is non-empty and all lower-case hex digits. |
| Framing.HeaderText | src/RPCServer.ts:324 | The padded header is at least six hex digits. |
| Framing.Frame | src/RPCServer.ts:321-325 | A frame is the header of the body's byte length followed by the body. |
| Framing.ParseHeader | src/RPCServer.ts:138-140 | `parseInt(str, 16)` is NaN exactly when no hex digit follows the optional white space, sign and "0x". Otherwise it is the value of the longest run of hex digits there, negated after a minus sign. |
| Framing.HeaderWidth | src/RPCServer.ts:324 | The header is exactly six characters iff the length is below 0x1000000. Longer bodies get a wider header. |
| Framing.HeaderRoundTrip | src/RPCServer.ts:138-140 | A header written for a length below 0x1000000 is six bytes and reads back as that length. |
| Engine.InitialInv | src/RPCServer.ts:41-53 | A fresh server satisfies the invariant. |
| Engine.Register | src/RPCServer.ts:84-87 | `methods[name] = m`: the name then finds `m` and every other name is unchanged. A new name goes last. A known name keeps its place. |
| Engine.RegisterAll | src/RPCServer.ts:72-76 | Registering the constructor's methods changes only the registry. |
| Engine.AddCloseHook | src/RPCServer.ts:79-82 | The hook is present afterwards. A hook already there leaves the state unchanged. Otherwise it is appended. |
| Engine.HandlerReturn | src/RPCServer.ts:233-243 | An unknown uid changes nothing. A pending uid's entry is deleted before the value is converted. The promise is resolved with the converted value, or the handler throws when conversion throws. Nothing else changes. |
| Engine.HandlerErrorReturn | src/RPCServer.ts:244-250 | An unknown uid changes nothing. A pending uid's entry is deleted and its promise rejected with the given exception. |
| Engine.RejectKeepsInv | src/RPCServer.ts:244-250 | Rejecting a pending request keeps the invariant. |
| Engine.Encode | src/RPCServer.ts:282 | Encoding a protocol error message always fails with "Method not implemented.". |
| Engine.Send | src/RPCServer.ts:273-335 | Sending never touches the socket state, the receive buffer, the registry, the close hooks, whether the socket was ended, or the hooks run. It may change the queue, its state, the written frames, and the session and settlements: a Call that cannot be encoded rejects its pending promise. The queue's weight never grows. |
| Engine.Recover | src/RPCServer.ts:283-316 | Recovery from an encoding failure keeps the same untouched parts as `send`. A message other than a Return or a Call is dropped and nothing changes. A Call changes only the session and the settlements. A Return's replacement goes through `onqueue`, whose `send` may write frames and reject Calls. The queue gets lighter. |
| Engine.Deliver | src/RPCServer.ts:319-334 | Writing an encoded message keeps the same untouched parts as `send`. With debug off nothing changes. Otherwise the frame is written and, when the write is accepted, the `send` that follows may change the queue, its state, the written frames, the session and the settlements. The queue's weight never grows. |
| Engine.OnQueue | src/RPCServer.ts:366-376 | `onqueue` keeps the same untouched parts as `send`. The `send` it may start can change the queue, its state, the written frames, and the session and settlements (a Call that cannot be encoded rejects its pending promise). The queue's weight grows by at most the new message's. |
| Engine.OnDrain | src/RPCServer.ts:354-364 | `ondrain` on a running queue does nothing. On a stopped queue it sets the queue running and sends, which keeps the same untouched parts as `send` and may change the queue, the written frames, and the session and settlements. |
| Engine.CallReply | src/RPCServer.ts:210-230 | The reply carries the caller's uid. An unknown method gives "Not found the method: " + name. A method that returns gives a Return of its value. A method that throws gives a return-error with the thrown text. A method that throws null or undefined gives no reply at all, and only then. |
| Engine.HandlerCall | src/RPCServer.ts:210-230 | The handler throws exactly when there is no reply, and then nothing changes. |
| Engine.Directory | src/RPCServer.ts:252-261 | One `[symbol(name), argdoc, docstring]` triple per registered method, in key order. |
| Engine.MinKey | src/RPCServer.ts:264 | The smallest pending uid. |
| Engine.SortedKeys | src/RPCServer.ts:264 | `Object.keys(session).map(Number)`: pending uids, strictly ascending. |
| Engine.SortedKeysComplete | src/RPCServer.ts:264 | Every pending uid is among them. |
| Engine.SortedKeysCons | src/RPCServer.ts:264-267 | The smallest uid is resolved first. |
| Engine.ResolveAllShape | src/RPCServer.ts:263-268 | Clearing the waiting sessions changes only the session and the settlements. |
| Engine.StopKeepsBuffer | src/RPCServer.ts:116-130 | `stop()` leaves the receive buffer alone. |
| Engine.NextFrame | src/RPCServer.ts:137-154 | With fewer than six bytes there is no frame. A header that is NaN or not positive is bad. A frame is complete exactly when the header is positive and no larger than what follows it; it then splits the buffer into header, body and rest. The frame is partial exactly when the header is larger. The body's length is the header's value and the rest is a proper suffix of the buffer. |
| Engine.DispatchKeepsBuffer | src/RPCServer.ts:180-207 | Dispatching never touches the receive buffer. |
| EngineProps.QueueChangeKeepsInv | src/RPCServer.ts:52 | The invariant does not depend on the queue. |
| EngineProps.SendKeepsInv | src/RPCServer.ts:273-335 | `send` keeps the invariant. |
| EngineProps.RecoverKeepsInv | src/RPCServer.ts:283-316 | Encoding-failure recovery keeps the invariant. |
| EngineProps.DeliverKeepsInv | src/RPCServer.ts:319-334 | Writing keeps the invariant. |
| EngineProps.OnQueueKeepsInv | src/RPCServer.ts:366-376 | `onqueue` keeps the invariant. |
| EngineProps.OnDrainKeepsInv | src/RPCServer.ts:354-364 | `ondrain` keeps the invariant. |
| EngineProps.CallMethodKeepsInv | src/RPCServer.ts:95-105 | A call under a fresh uid keeps the invariant: one pending entry per uid, and never one already settled. |
| EngineProps.QueryMethodKeepsInv | src/RPCServer.ts:107-114 | Likewise for a methods query. |
| EngineProps.RegisterAllKeepsInv | src/RPCServer.ts:72-76 | The constructor's registrations keep the invariant. |
| EngineProps.UidsBelowMono | src/utils.ts:3-6 | The counter is shared by every server: advancing it, as another server's `genuid()` does, keeps every pending and settled uid of this connection below it. |
| EngineProps.NextUidFresh | src/utils.ts:3-6 | When every pending and settled uid is below the counter, the uid `genuid()` hands out is neither pending nor settled. |
| EngineProps.CallMethodFresh | src/RPCServer.ts:95-105 | A call under the counter's uid keeps the invariant, and every pending and settled uid stays below the advanced counter. |
| EngineProps.QueryMethodFresh | src/RPCServer.ts:107-114 | Likewise for a methods query. |
| EngineProps.RejectKeepsBelow | src/RPCServer.ts:244-250 | Rejecting settles only a pending uid, so every uid stays below the counter. |
| EngineProps.HandlerReturnKeepsBelow | src/RPCServer.ts:233-243 | Likewise for resolving. |
| EngineProps.SendKeepsBelow | src/RPCServer.ts:273-335 | `send` keeps every uid below the counter. |
| EngineProps.RecoverKeepsBelow | src/RPCServer.ts:283-316 | Likewise for recovery. |
| EngineProps.DeliverKeepsBelow | src/RPCServer.ts:319-334 | Likewise for writing. |
| EngineProps.OnQueueKeepsBelow | src/RPCServer.ts:366-376 | Likewise for `onqueue`. |
| EngineProps.OnDrainKeepsBelow | src/RPCServer.ts:354-364 | Likewise for `ondrain`. |
| EngineProps.ResolveAllKeepsBelow | src/RPCServer.ts:263-268 | Likewise for clearing the waiting sessions. |
| EngineProps.StopKeepsBelow | src/RPCServer.ts:116-130 | Likewise for `stop()`. |
| EngineProps.DispatchKeepsBelow | src/RPCServer.ts:180-207 | Likewise for dispatching any term. |
| EngineProps.ProcessBufferKeepsBelow | src/RPCServer.ts:132-177 | Likewise for the frame loop. |
| EngineProps.ContinueKeepsBelow | src/RPCServer.ts:170-175 | Likewise when going on to the next frame. |
| EngineProps.OnReceiveDataKeepsBelow | src/RPCServer.ts:132-177 | Likewise for receiving data. |
| EngineProps.FindMissing | src/RPCServer.ts:85 | A name the registry does not find is the name of no registered method. |
| EngineProps.RegisterKeepsNames | src/RPCServer.ts:84-87 | Registration keeps method names distinct. |
| EngineProps.RegisterMethodKeepsInv | src/RPCServer.ts:84-87 | `registerMethod` keeps the invariant. |
| EngineProps.AddCloseHookKeepsInv | src/RPCServer.ts:79-82 | `addCloseHook` never stores a hook twice. |
| EngineProps.HandlerReturnKeepsInv | src/RPCServer.ts:233-243 | Resolving keeps the invariant, so no promise is settled twice. |
| EngineProps.ResolveAllKeepsInv | src/RPCServer.ts:263-268 | Clearing the waiting sessions keeps the invariant. |
| EngineProps.StopKeepsInv | src/RPCServer.ts:116-130 | `stop()` keeps the invariant. |
| EngineProps.DispatchKeepsInv | src/RPCServer.ts:180-207 | Dispatching any term keeps the invariant. |
| EngineProps.ProcessBufferKeepsInv | src/RPCServer.ts:132-177 | The frame loop keeps the invariant. |
| EngineProps.ContinueKeepsInv | src/RPCServer.ts:170-175 | Going on to the next frame keeps the invariant. |
| EngineProps.OnReceiveDataKeepsInv | src/RPCServer.ts:132-177 | Receiving data keeps the invariant. |
| EngineProps.IncompleteFrameWaits | src/RPCServer.ts:137-149 | With fewer than six bytes, or a header announcing more than has arrived, nothing changes. |
| EngineProps.PartialFrameWaits | src/RPCServer.ts:146-149 | Every proper prefix of a frame the writer produces waits unchanged. |
| EngineProps.BadHeaderStops | src/RPCServer.ts:141-145 | A header that is NaN or not positive stops the connection. |
| EngineProps.FrameConsumed | src/RPCServer.ts:150-175 | For a complete frame the parser gets exactly its body and the buffer keeps exactly the bytes after it. A parse error ends the round. Otherwise dispatch follows and the loop continues only if more than six bytes remain. |
| EngineProps.ProcessBufferKeepsSuffix | src/RPCServer.ts:132-177 | What stays buffered is a suffix of what was there. |
| EngineProps.ContinueKeepsSuffix | src/RPCServer.ts:170-175 | Likewise after a dispatch. |
| EngineProps.ErrorTagSpelling | src/RPCServer.ts:34 | `epc_error` rejects with a stack exception. `epc-error` is ignored. |
| EngineProps.NullishThrowEndsRound | src/RPCServer.ts:163-167 | A call whose body throws null or undefined (whose `toString()` fails in the catch clause at src/RPCServer.ts:221) makes dispatch throw with the state unchanged, so the frame loop stops there and later frames stay buffered. |
| EngineProps.DuplicateReplyIgnored | src/RPCServer.ts:233-250 | A second reply for the same uid changes nothing. |
| EngineProps.WireRoundTrip | src/RPCServer.ts:180-207 | Each term this side writes, read back by a peer running the same dispatcher, reaches the handler of its kind with the same uid and payload. |
| QueueProps.Frames | src/RPCServer.ts:321-325 | One frame per encodable message, in order. |
| QueueProps.SendWritesInOrder | src/RPCServer.ts:273-335 | With writes on and every write accepted, `send` empties the queue and writes one frame per message, in queue order. |
| QueueProps.FramesCons | src/RPCServer.ts:321-325 | The frames of a queue are the head's frame followed by the tail's frames. |
| QueueProps.RefusedWriteStops | src/RPCServer.ts:329-333 | A refused write still writes the frame, takes the message off the queue, and stops the queue with the rest waiting. |
| QueueProps.SilentWhenDebugOff | src/RPCServer.ts:319 | With debug off, `send` takes one encodable message off the queue and writes nothing. |
| QueueProps.EpcErrorDropped | src/RPCServer.ts:280-316 | A protocol error message at the head is dropped and sending continues. |
| QueueProps.OtherFailureDropped | src/RPCServer.ts:280-316 | A directory query or an application error reply that cannot be encoded is dropped too, and sending continues. A dropped query stays pending. |
| QueueProps.ReturnFailureRequeued | src/RPCServer.ts:284-292 | A Return that cannot be encoded is replaced at the tail by a protocol error message with the same uid. |
| QueueProps.LoneReturnFailureWritesNothing | src/RPCServer.ts:284-292 | A lone Return that cannot be encoded leaves the queue empty with nothing written. |
| QueueProps.CallFailureRejects | src/RPCServer.ts:295-307 | A Call that cannot be encoded rejects its own pending promise with a stack exception carrying the codec's message. |
| QueueProps.OnQueueAppends | src/RPCServer.ts:366-376 | `onqueue` appends at the tail, and only a running queue sends. |
| QueueProps.OnDrainResumes | src/RPCServer.ts:354-364 | `ondrain` on a stopped queue sets it running and sends. |
| QueueProps.DrainAfterRefusal | src/RPCServer.ts:329-364 | After a refused write the queue is stopped with the later messages waiting. `ondrain` then writes them, in order, after the refused one. |
| QueueProps.CallMethodWhileStopped | src/RPCServer.ts:95-105 | A request made while the queue is stopped is pending and waits at the tail. Nothing is written. |
| QueueProps.CallMethodWritten | src/RPCServer.ts:95-105 | A request on an idle running queue whose write is accepted is pending and written at once as one frame. |
| QueueProps.SendOnly | src/RPCServer.ts:319-330 | A lone encodable message whose write is accepted is written and the queue empties. |
| SessionProps.Closures | src/RPCServer.ts:265-267 | One resolution with "EPC Connection closed" per uid, in order. |
| SessionProps.ResolveAllEffect | src/RPCServer.ts:263-268 | Resolving distinct pending uids removes exactly their entries and appends one closing resolution per uid, in order. |
| SessionProps.ResolveOne | src/RPCServer.ts:233-243 | One pending uid resolved with the closing text. |
| SessionProps.StopTearsDown | src/RPCServer.ts:116-130 | On an open connection, `stop()` does the following and changes nothing else: the socket is ended, every pending request is resolved with "EPC Connection closed" in ascending uid order, the session is emptied, the close hooks run once each in order, and the state becomes NOT_CONNECTED. Otherwise it does nothing. |
| SessionProps.TeardownOrder | src/RPCServer.ts:264 | The uids resolved at teardown are exactly the pending ones, ascending. |
| SessionProps.StopOnce | src/RPCServer.ts:118 | A second `stop()` does nothing, so hooks never run twice. |
| SessionProps.RegisterInPlace | src/RPCServer.ts:84-87 | Re-registering a name replaces that method where it stands. |
| SessionProps.NamesTailNoDup | src/RPCServer.ts:85 | Distinct names stay distinct in the registry's tail. |
| SessionProps.DirectoryAfterRegister | src/RPCServer.ts:252-261 | After a registration, a new name adds its triple at the end and a known name has its triple replaced in place. |
| SessionProps.LastNamed | src/RPCServer.ts:72-76 | The last method of a list with a given name. |
| SessionProps.RegisterAllFinds | src/RPCServer.ts:72-76 | After the constructor, each name finds the last given method under it. |
| SessionProps.ExampleMethods | src/RPCServer.ts:89-91 | Defining method1, test2 and test3 stores them in that order, with omitted documentation as "". |
| SessionProps.DirectoryExample | src/RPCServer.ts:252-261 | That server's directory is the three triples in definition order. |
| SessionProps.ExampleNoDup | src/RPCServer.ts:85 | Its method names are distinct. |
| SessionProps.RedefineInList | src/RPCServer.ts:84-87 | Redefining test2 replaces it in second place. |
| SessionProps.RedefineExample | src/RPCServer.ts:84-91 | Redefining test2 on that server replaces its triple where it stands. |
| Server.RPCServer.constructor | src/RPCServer.ts:55-77 | An open connection with a running queue, the given methods registered in order. `Valid()` holds: the invariant, and every pending or settled uid below the shared counter. |
| Server.RPCServer.AddCloseHook | src/RPCServer.ts:79-82 | Reaches `Engine.AddCloseHook` of the old state. It keeps `Valid()`. |
| Server.RPCServer.RegisterMethod | src/RPCServer.ts:84-87 | Returns the method and reaches `Engine.RegisterMethod` of the old state. Started in a `Valid()` state, it keeps it. |
| Server.RPCServer.DefineMethod | src/RPCServer.ts:89-91 | Returns the new method and reaches `Engine.DefineMethod` of the old state. Started in a `Valid()` state, it keeps it. |
| Server.RPCServer.CallMethod | src/RPCServer.ts:95-105 | Takes the next uid from the shared counter and reaches `Engine.CallMethod`. It keeps `Valid()`: the uid it draws was neither pending nor settled. |
| Server.RPCServer.QueryMethod | src/RPCServer.ts:107-114 | Takes the next uid from the shared counter and reaches `Engine.QueryMethod`. It keeps `Valid()`, likewise. |
| Server.RPCServer.Stop | src/RPCServer.ts:116-130 | Reaches `Engine.StopConnection` of the old state. Started in a `Valid()` state, it keeps it. |
| Server.RPCServer.RunCloseHooks | src/RPCServer.ts:125-127 | Each hook runs once, in the order added. Nothing else changes. |
| Server.RPCServer.ClearWaitingSessions | src/RPCServer.ts:263-268 | Its loop over the pending uids, smallest first, reaches `Engine.ClearWaitingSessions`. |
| Server.RPCServer.OnReceiveData | src/RPCServer.ts:132-136 | Appends the chunk, then runs the frame loop. It keeps `Valid()`. |
| Server.RPCServer.ProcessBuffer | src/RPCServer.ts:136-176 | Reaches `Engine.ProcessBuffer` of the old state. |
| Server.RPCServer.DispatchHandler | src/RPCServer.ts:180-207 | Reaches `Engine.Dispatch`, including whether it threw. |
| Server.RPCServer.HandlerCall | src/RPCServer.ts:210-230 | Reaches `Engine.HandlerCall`, including whether it threw. |
| Server.RPCServer.HandlerReturn | src/RPCServer.ts:233-243 | Reaches `Engine.HandlerReturn`, including whether it threw. |
| Server.RPCServer.HandlerErrorReturn | src/RPCServer.ts:244-250 | Reaches `Engine.HandlerErrorReturn`. |
| Server.RPCServer.HandlerMethods | src/RPCServer.ts:252-261 | Reaches `Engine.HandlerMethods`. |
| Server.RPCServer.Send | src/RPCServer.ts:273-335 | Reaches `Engine.Send` of the old state. |
| Server.RPCServer.OnDrain | src/RPCServer.ts:354-364 | Reaches `Engine.OnDrain`. It keeps `Valid()`. |
| Server.RPCServer.OnQueue | src/RPCServer.ts:366-376 | Reaches `Engine.OnQueue`. Started in a `Valid()` state, it keeps it. |

## Left out

- **Asynchrony.** `handlerCall` queues a method's Return one microtask
  later, through `Promise.resolve(ret).then(...)`. The model queues it at
  once. A returned promise that rejects is not modelled; the source does
  not catch it either.
- **Promises.** The promises returned by `callMethod` and `queryMethod`
  are represented by their uid. Their settlement is represented by an
  entry in `settled`.
- **JavaScript property semantics.** Inherited names such as `toString`
  in `methods[name]` and in `session[uid]`, the `__proto__` key, and the
  reordering of integer-like keys by `Object.keys` are not modelled.
  Registry and object keys keep insertion order.
- **Uids sent as strings.** A uid that arrives as a string is not pending
  in the model. In JavaScript, `session["3"]` would find entry 3.
- **Numbers.** Only integers are modelled. The header's `parseInt` skips
  only ASCII white space. Header and body bytes are not decoded as UTF-8;
  the body goes to the codec as bytes.
- **Undefined.** A missing element of an inbound message is read as
  `null` rather than `undefined`.
- **`wait()`.** Its 100 ms polling timer is not modelled.
- **Outside the engine.** The logger (apart from whether debug is
  enabled), `name`, the socket object, and the wiring of its `data`,
  `end` and `drain` events are not modelled. `OnReceiveData`, `Stop` and
  `OnDrain` are those handlers.
- **Other files.** PeerProcess.ts, elrpc.ts and the codec itself are not
  part of this model.
- **Close hooks.** A close hook is known only by its identity, and running
  it is recorded in `hooksRun`. Its effects, a hook that throws, and a
  falsy hook are not modelled. Neither is a method body or hook that calls
  back into the server.
- **The null message.** `queueMessage(null)` does nothing, and no null is
  ever queued, so it is left out. So is the `!msg` test in `send()`.
- Utils.ObjToPList: a value the term codec builds with `symbol(name)` is a class instance, so `Object.prototype.toString` calls it '[object Object]' and `tryObjToPList` flattens its own fields. The model keeps a symbol as an atom, because the symbol class belongs to the codec, which is not part of this model.
- Utils.KeyOf: likewise, a symbol at a key position is read as a non-keyword. What the codec's symbol object turns into as text is not part of this model.
- Utils.Range: a zero step whose start lies beyond its end loops forever in the source; that case is excluded by its precondition.
- Engine.Send: its contract states only what it leaves untouched and that the queue gets lighter. How the queue turns into written frames is proved separately, in `QueueProps`, for encodable queues and accepted writes.
- Engine.OnQueue: likewise, its effect is stated in `QueueProps.OnQueueAppends`.
- Engine.Recover: its contract states the dropped case and that a Call touches only the session and settlements. The Return case is stated in `QueueProps.ReturnFailureRequeued`.
- Engine.Deliver: its contract states only the debug-off case and the untouched parts. Writing is stated in `QueueProps.SendWritesInOrder`, `QueueProps.RefusedWriteStops` and `QueueProps.SendOnly`.
