/**
 * The five outbound message kinds of the EPC protocol and their projection
 * to the term the codec encodes.
 */
module Messages {
  import opened Values

  datatype Message =
    | Call(uid: Value, name: string, args: seq<Value>)  // a request to the peer
    | Methods(uid: Value)                               // a directory query to the peer
    | Return(uid: Value, value: Value)                  // a reply to a peer's call
    | ReturnError(uid: Value, errorMessage: string)     // an application error reply
    | EpcError(uid: Value, errorMessage: string)        // a protocol error reply

  /** The message a uid-keyed pending session is waiting on. */
  predicate IsRequest(m: Message) {
    m.Call? || m.Methods?
  }

  /** The symbol that opens the term of each kind. */
  function Tag(m: Message): string
  {
    match m
    case Call(_, _, _) => "call"
    case Methods(_) => "methods"
    case Return(_, _) => "return"
    case ReturnError(_, _) => "return-error"
    case EpcError(_, _) => "epc_error"   // the tag the dispatcher expects
  }

  /** What `toJSON()` throws for a protocol error message. */
  const NotImplemented := "Method not implemented."

  /** `toJSON()`: the list the codec encodes. A protocol error message has
      no projection and throws. */
  function ToJSON(m: Message): (r: Result<Value>)
    ensures r.Err? <==> m.EpcError?
    ensures r.Err? ==> r.error == NotImplemented
    ensures r.Ok? ==>
      && r.value.List? && |r.value.items| >= 2
      && r.value.items[0] == Sym(Tag(m)) && r.value.items[1] == m.uid
    ensures r.Ok? ==> |r.value.items| == if m.Methods? then 2 else if m.Call? then 4 else 3
    ensures r.Ok? && m.Call? ==> r.value.items[2] == Sym(m.name) && r.value.items[3] == List(m.args)
    ensures r.Ok? && m.Return? ==> r.value.items[2] == m.value
    ensures r.Ok? && m.ReturnError? ==> r.value.items[2] == Str(m.errorMessage)
  {
    match m
    case Call(uid, name, args) => Ok(List([Sym("call"), uid, Sym(name), List(args)]))
    case Methods(uid) => Ok(List([Sym("methods"), uid]))
    case Return(uid, value) => Ok(List([Sym("return"), uid, value]))
    case ReturnError(uid, msg) => Ok(List([Sym("return-error"), uid, Str(msg)]))
    case EpcError(_, _) => Err(NotImplemented)
  }
}
