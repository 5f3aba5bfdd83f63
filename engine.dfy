/**
 * The connection engine of an EPC peer as a state machine: the state of a
 * connection is a `Conn` value and every entry point of the server is a
 * function from the old state to the new one. The socket, the codec and
 * the registered method bodies are supplied as an `Env`.
 */
module Engine {
  import opened Values
  import opened Utils
  import opened Messages
  import opened MethodDefs
  import opened Framing

  datatype SocketState = Opened | Closing | NotConnected

  datatype QueueState = Go | Stop

  /** The two exception classes a pending request can be rejected with. */
  datatype Failure = RuntimeError(message: Value) | StackError(message: Value)

  /** How the promise of a pending request was settled. */
  datatype Settlement = Resolved(uid: int, value: Value) | Rejected(uid: int, failure: Failure)

  /** An opaque close hook, compared by identity. */
  type HookId = nat

  /** What lies outside the engine.
      - `encode`: the codec's `encode(term, true)`, as UTF-8 bytes, or the
        message of the error it throws;
      - `parse`: the codec's `parse1(text).toJS()` of a frame body;
      - `run`: what applying a registered body does;
      - `accepts(k)`: what `socket.write` returns for the k-th write;
      - `debugEnabled`: what `logger.isDebugEnabled()` answers. */
  datatype Env = Env(
    encode: Value -> Result<seq<byte>>,
    parse: seq<byte> -> Result<Value>,
    run: (BodyId, seq<Value>) -> Completion,
    accepts: nat -> bool,
    debugEnabled: bool)

  /** The state of one connection. `written`, `ended`, `settled` and
      `hooksRun` record what the engine did to the outside world: the
      frames handed to the socket, whether the socket was ended, how pending
      promises were settled, and which close hooks ran. */
  datatype Conn = Conn(
    socketState: SocketState,
    receiveBuffer: seq<byte>,
    methods: seq<Method>,
    session: map<int, Message>,
    queue: seq<Message>,
    queueState: QueueState,
    closeHooks: seq<HookId>,
    written: seq<seq<byte>>,
    ended: bool,
    settled: seq<Settlement>,
    hooksRun: seq<HookId>)

  /** A fresh connection on an open socket. */
  function Initial(): Conn
  {
    Conn(Opened, [], [], map[], [], Go, [], [], false, [], [])
  }

  /* ---------------------------------------------------------------------
   * Invariant
   * ------------------------------------------------------------------- */

  function Names(ms: seq<Method>): (ns: seq<string>)
    ensures |ns| == |ms| && forall i :: 0 <= i < |ms| ==> ns[i] == ms[i].name
  {
    if ms == [] then [] else [ms[0].name] + Names(ms[1..])
  }

  function SettledUids(ss: seq<Settlement>): (us: seq<int>)
    ensures |us| == |ss| && forall i :: 0 <= i < |ss| ==> us[i] == ss[i].uid
  {
    if ss == [] then [] else [ss[0].uid] + SettledUids(ss[1..])
  }

  /** Every pending entry is the request sent under its uid; method names
      and close hooks are distinct; no promise is settled twice, and none
      still pending has been settled. */
  ghost predicate Inv(c: Conn)
  {
    && (forall k :: k in c.session ==> IsRequest(c.session[k]) && c.session[k].uid == Num(k))
    && NoDup(Names(c.methods))
    && NoDup(c.closeHooks)
    && NoDup(SettledUids(c.settled))
    && (forall k :: k in c.session ==> k !in SettledUids(c.settled))
  }

  /** Every uid pending or settled is below `next`, the next uid `genuid()`
      hands out; so that uid is neither pending nor settled. */
  ghost predicate UidsBelow(c: Conn, next: int)
  {
    && (forall k :: k in c.session ==> k < next)
    && (forall u :: u in SettledUids(c.settled) ==> u < next)
  }

  lemma InitialInv()
    ensures Inv(Initial())
  {
  }

  /* ---------------------------------------------------------------------
   * Method registry: `methods[name] = method`
   * ------------------------------------------------------------------- */

  /** `this.methods[name]`. */
  function FindMethod(ms: seq<Method>, name: string): Option<Method>
  {
    if ms == [] then None
    else if ms[0].name == name then Some(ms[0])
    else FindMethod(ms[1..], name)
  }

  /** Stores `m` under its name: an existing name keeps its place in the
      key order, a new name goes last. */
  function Register(ms: seq<Method>, m: Method): (r: seq<Method>)
    ensures FindMethod(r, m.name) == Some(m)
    ensures forall n :: n != m.name ==> FindMethod(r, n) == FindMethod(ms, n)
    ensures FindMethod(ms, m.name).None? ==> r == ms + [m]
    ensures FindMethod(ms, m.name).Some? ==> Names(r) == Names(ms)
  {
    if ms == [] then [m]
    else if ms[0].name == m.name then [m] + ms[1..]
    else [ms[0]] + Register(ms[1..], m)
  }

  function RegisterMethod(c: Conn, m: Method): Conn
  {
    c.(methods := Register(c.methods, m))
  }

  function DefineMethod(c: Conn, name: string, body: BodyId, argdoc: Option<string>, docstring: Option<string>): Conn
  {
    RegisterMethod(c, NewMethod(name, body, argdoc, docstring))
  }

  /** The constructor's `methods.forEach(registerMethod)`: the methods are
      registered in the order given. */
  function RegisterAll(c: Conn, ms: seq<Method>): (r: Conn)
    ensures r == c.(methods := r.methods)
  {
    if ms == [] then c else RegisterMethod(RegisterAll(c, ms[..|ms| - 1]), ms[|ms| - 1])
  }

  /** `addCloseHook`: a hook already registered is not added again. */
  function AddCloseHook(c: Conn, h: HookId): (r: Conn)
    ensures h in r.closeHooks
    ensures h in c.closeHooks ==> r == c
    ensures h !in c.closeHooks ==> r == c.(closeHooks := c.closeHooks + [h])
  {
    if h in c.closeHooks then c else c.(closeHooks := c.closeHooks + [h])
  }

  /* ---------------------------------------------------------------------
   * Sessions
   * ------------------------------------------------------------------- */

  /** The session entry a uid from the peer names. */
  function SessionKey(uid: Value): Option<int>
  {
    if uid.Num? then Some(uid.n) else None
  }

  /** The outcome of a handler that may throw: the state it reached, and
      whether it threw. */
  datatype Outcome = Outcome(conn: Conn, threw: bool)

  /** `handlerReturn`: the entry is deleted before the value goes through
      `tryPListToObj`, which may throw; only then is the promise resolved. */
  function HandlerReturn(c: Conn, uid: Value, value: Value): (r: Outcome)
    ensures SessionKey(uid).None? || SessionKey(uid).value !in c.session ==> r == Outcome(c, false)
    ensures SessionKey(uid).Some? && SessionKey(uid).value in c.session ==>
      && r.conn.session == c.session - {SessionKey(uid).value}
      && r.threw == PListToObj(value).Err?
      && r.conn.settled == c.settled +
           (if r.threw then [] else [Resolved(SessionKey(uid).value, PListToObj(value).value)])
      && r.conn == c.(session := r.conn.session, settled := r.conn.settled)
  {
    match SessionKey(uid)
    case None => Outcome(c, false)
    case Some(k) =>
      if k !in c.session then Outcome(c, false)
      else
        var c1 := c.(session := c.session - {k});
        match PListToObj(value)
        case Err(_) => Outcome(c1, true)
        case Ok(v) => Outcome(c1.(settled := c1.settled + [Resolved(k, v)]), false)
  }

  /** `handlerErrorReturn`: the entry is deleted and its promise rejected. */
  function HandlerErrorReturn(c: Conn, uid: Value, f: Failure): (r: Conn)
    ensures SessionKey(uid).None? || SessionKey(uid).value !in c.session ==> r == c
    ensures SessionKey(uid).Some? && SessionKey(uid).value in c.session ==>
      r == c.(session := c.session - {SessionKey(uid).value},
               settled := c.settled + [Rejected(SessionKey(uid).value, f)])
  {
    match SessionKey(uid)
    case None => c
    case Some(k) =>
      if k !in c.session then c
      else c.(session := c.session - {k}, settled := c.settled + [Rejected(k, f)])
  }

  /* ---------------------------------------------------------------------
   * The outbound queue: onqueue / send / ondrain
   * ------------------------------------------------------------------- */

  /** A Return counts twice so that replacing it by a protocol error
      message makes the queue lighter. */
  function MsgWeight(m: Message): nat
  {
    if m.Return? then 2 else 1
  }

  function Weight(q: seq<Message>): nat
  {
    if q == [] then 0 else MsgWeight(q[0]) + Weight(q[1..])
  }

  lemma {:induction false} WeightAppend(q: seq<Message>, m: Message)
    ensures Weight(q + [m]) == Weight(q) + MsgWeight(m)
  {
    if q != [] {
      assert (q + [m])[1..] == q[1..] + [m];
      WeightAppend(q[1..], m);
    }
  }

  /** `encode(msg.toJSON(), true)`. */
  function Encode(env: Env, m: Message): (r: Result<seq<byte>>)
    ensures m.EpcError? ==> r == Err(NotImplemented)
  {
    match ToJSON(m)
    case Err(e) => Err(e)
    case Ok(term) => env.encode(term)
  }

  /** The parts of the state the queue machinery never touches. */
  predicate SameShell(c: Conn, r: Conn)
  {
    && r.socketState == c.socketState
    && r.receiveBuffer == c.receiveBuffer
    && r.methods == c.methods
    && r.closeHooks == c.closeHooks
    && r.ended == c.ended
    && r.hooksRun == c.hooksRun
  }

  /** `send()`: takes the head of the queue and either recovers from its
      encoding failure or delivers it; in every case but a refused write,
      sending then continues. */
  function Send(env: Env, c: Conn): (r: Conn)
    ensures SameShell(c, r)
    ensures Weight(r.queue) <= Weight(c.queue)
    decreases Weight(c.queue), 0
  {
    if c.queue == [] then c
    else
      var m := c.queue[0];
      var c1 := c.(queue := c.queue[1..]);
      match Encode(env, m)
      case Err(e) => Send(env, Recover(env, c1, m, e))
      case Ok(body) => Deliver(env, c1, body)
  }

  /** A message that cannot be encoded is recovered by kind: a Return is
      replaced by a protocol error message queued at the tail, a Call
      rejects its own pending promise, and anything else is dropped. */
  function Recover(env: Env, c: Conn, m: Message, e: string): (r: Conn)
    ensures SameShell(c, r)
    ensures !m.Return? && !m.Call? ==> r == c
    ensures m.Call? ==> r == c.(session := r.session, settled := r.settled)
    ensures Weight(r.queue) < Weight(c.queue) + MsgWeight(m)
    decreases Weight(c.queue) + MsgWeight(m) - 1, 3
  {
    if m.Return? then OnQueue(env, c, EpcError(m.uid, e))
    else if m.Call? then HandlerErrorReturn(c, m.uid, StackError(Str(e)))
    else c
  }

  /** An encoded message is written, with its header, only when debug
      logging is enabled; a write the socket refuses stops the queue. */
  function Deliver(env: Env, c: Conn, body: seq<byte>): (r: Conn)
    ensures SameShell(c, r)
    ensures !env.debugEnabled ==> r == c
    ensures Weight(r.queue) <= Weight(c.queue)
    decreases Weight(c.queue), 1
  {
    if !env.debugEnabled then c
    else
      var c2 := c.(written := c.written + [Frame(body)]);
      if env.accepts(|c.written|) then Send(env, c2) else c2.(queueState := Stop)
  }

  /** `onqueue(msg)`: appends at the tail, and sends only in GO. */
  function OnQueue(env: Env, c: Conn, m: Message): (r: Conn)
    ensures SameShell(c, r)
    ensures Weight(r.queue) <= Weight(c.queue) + MsgWeight(m)
    decreases Weight(c.queue) + MsgWeight(m), 2
  {
    var c1 := c.(queue := c.queue + [m]);
    WeightAppend(c.queue, m);
    if c.queueState == Go then Send(env, c1) else c1
  }

  /** `ondrain()`: the socket has room again; a stopped queue resumes. */
  function OnDrain(env: Env, c: Conn): (r: Conn)
    ensures c.queueState == Go ==> r == c
    ensures c.queueState == Stop ==> r == Send(env, c.(queueState := Go))
    ensures SameShell(c, r)
  {
    if c.queueState == Go then c else Send(env, c.(queueState := Go))
  }

  lemma RejectKeepsInv(c: Conn, uid: Value, f: Failure)
    ensures Inv(c) ==> Inv(HandlerErrorReturn(c, uid, f))
  {
    if Inv(c) && SessionKey(uid).Some? && SessionKey(uid).value in c.session {
      var k := SessionKey(uid).value;
      SettleFresh(c.settled, Rejected(k, f));
    }
  }

  /** Settling a uid that was never settled keeps the settled uids distinct. */
  lemma SettleFresh(ss: seq<Settlement>, s: Settlement)
    requires NoDup(SettledUids(ss)) && s.uid !in SettledUids(ss)
    ensures NoDup(SettledUids(ss + [s]))
    ensures SettledUids(ss + [s]) == SettledUids(ss) + [s.uid]
  {
    assert SettledUids(ss + [s]) == SettledUids(ss) + [s.uid];
  }

  /* ---------------------------------------------------------------------
   * Requests to the peer: callMethod / queryMethod
   * ------------------------------------------------------------------- */

  /** `callMethod(name, ...args)` with the uid `genuid()` returned: the
      request is recorded as pending, then queued. */
  function CallMethod(env: Env, c: Conn, uid: int, name: string, args: seq<Value>): Conn
  {
    var m := Call(Num(uid), name, args);
    OnQueue(env, c.(session := c.session[uid := m]), m)
  }

  /** `queryMethod()` with the uid `genuid()` returned. */
  function QueryMethod(env: Env, c: Conn, uid: int): Conn
  {
    var m := Methods(Num(uid));
    OnQueue(env, c.(session := c.session[uid := m]), m)
  }

  /* ---------------------------------------------------------------------
   * Requests from the peer
   * ------------------------------------------------------------------- */

  function NotFound(name: Value): string
  {
    "Not found the method: " + ToText(name)
  }

  /** The reply `handlerCall` produces for a call of `name` with `args`.
      There is none when the body threw null or undefined: the catch
      clause's `e.toString()` then throws a TypeError out of the handler. */
  function CallReply(env: Env, methods: seq<Method>, uid: Value, name: Value, args: Value): (r: Option<Message>)
    ensures r.Some? ==> r.value.uid == uid
    ensures r.None? <==>
      FindMethod(methods, ToText(name)).Some? && Invoke(env.run, FindMethod(methods, ToText(name)).value, args).ThrewNullish?
    ensures FindMethod(methods, ToText(name)).None? ==> r == Some(EpcError(uid, NotFound(name)))
    ensures FindMethod(methods, ToText(name)).Some? ==>
      match Invoke(env.run, FindMethod(methods, ToText(name)).value, args)
      case Returned(v) => r == Some(Return(uid, v))
      case Threw(t) => r == Some(ReturnError(uid, t))
      case ThrewNullish => r == None
  {
    match FindMethod(methods, ToText(name))
    case None => Some(EpcError(uid, NotFound(name)))
    case Some(found) =>
      match Invoke(env.run, found, args)
      case Returned(v) => Some(Return(uid, v))
      case Threw(t) => Some(ReturnError(uid, t))
      case ThrewNullish => None
  }

  /** `handlerCall(uid, name, args)`: the reply is queued; when there is
      none, the handler throws and nothing changes. */
  function HandlerCall(env: Env, c: Conn, uid: Value, name: Value, args: Value): (r: Outcome)
    ensures r.threw <==> CallReply(env, c.methods, uid, name, args).None?
    ensures r.threw ==> r.conn == c
  {
    match CallReply(env, c.methods, uid, name, args)
    case None => Outcome(c, true)
    case Some(m) => Outcome(OnQueue(env, c, m), false)
  }

  /** The `[symbol(name), argdoc, docstring]` triple of a method. */
  function Triple(m: Method): Value
  {
    List([Sym(m.name), Str(m.argdoc), Str(m.docstring)])
  }

  /** The directory `handlerMethods` replies with: one triple per
      registered method, in key order. */
  function Directory(ms: seq<Method>): (d: seq<Value>)
    ensures |d| == |ms| && forall i :: 0 <= i < |ms| ==> d[i] == Triple(ms[i])
  {
    if ms == [] then [] else [Triple(ms[0])] + Directory(ms[1..])
  }

  function HandlerMethods(env: Env, c: Conn, uid: Value): Conn
  {
    OnQueue(env, c, Return(uid, List(Directory(c.methods))))
  }

  /* ---------------------------------------------------------------------
   * Teardown: stop / clearWaitingSessions
   * ------------------------------------------------------------------- */

  const ConnectionClosed := "EPC Connection closed"

  lemma EmptyOrElement(keys: set<int>)
    ensures keys == {} || exists x :: x in keys
  {
    if !exists x :: x in keys {
      assert keys == {};
    }
  }

  /** The smallest key of a non-empty session. */
  ghost function MinKey(keys: set<int>): (k: int)
    requires keys != {}
    ensures k in keys && forall j :: j in keys ==> k <= j
    decreases |keys|
  {
    EmptyOrElement(keys);
    var x :| x in keys;
    var others := keys - {x};
    if others == {} then
      assert forall j :: j in keys ==> j == x by {
        forall j | j in keys ensures j == x {
          assert j !in others;
        }
      }
      x
    else
      var rest := MinKey(others);
      assert forall j :: j in keys ==> j == x || j in others;
      var m := if x < rest then x else rest;
      assert forall j :: j in keys ==> m <= j;
      m
  }

  /** `Object.keys(session).map(Number)`: the pending uids, ascending. */
  ghost function SortedKeys(keys: set<int>): (ks: seq<int>)
    ensures forall i :: 0 <= i < |ks| ==> ks[i] in keys
    ensures forall i, j :: 0 <= i < j < |ks| ==> ks[i] < ks[j]
    decreases |keys|
  {
    if keys == {} then []
    else
      var k := MinKey(keys);
      var others := keys - {k};
      assert |others| < |keys|;
      var rest := SortedKeys(others);
      assert forall i :: 0 <= i < |rest| ==> rest[i] in others;
      [k] + rest
  }

  /** Every pending uid is among them. */
  lemma {:induction false} SortedKeysComplete(keys: set<int>)
    ensures forall k :: k in keys ==> k in SortedKeys(keys)
    decreases |keys|
  {
    if keys != {} {
      var k := MinKey(keys);
      var others := keys - {k};
      SortedKeysComplete(others);
      assert SortedKeys(keys) == [k] + SortedKeys(others);
    }
  }

  /** The smallest key comes first. */
  lemma SortedKeysCons(keys: set<int>, k: int)
    requires k in keys && forall j :: j in keys ==> k <= j
    ensures SortedKeys(keys) == [k] + SortedKeys(keys - {k})
  {
    var m := MinKey(keys);
    assert m <= k && k <= m;
  }

  /** `handlerReturn(uid, "EPC Connection closed")` for each uid in turn. */
  function ResolveAll(c: Conn, uids: seq<int>): Conn
    decreases |uids|
  {
    if uids == [] then c
    else ResolveAll(HandlerReturn(c, Num(uids[0]), Str(ConnectionClosed)).conn, uids[1..])
  }

  ghost function ClearWaitingSessions(c: Conn): Conn
  {
    ResolveAll(c, SortedKeys(c.session.Keys))
  }

  /** `stop()`: only an open connection is torn down. */
  ghost function StopConnection(c: Conn): Conn
  {
    if c.socketState != Opened then c
    else
      var c1 := c.(socketState := Closing, ended := true);
      var c2 := ClearWaitingSessions(c1);
      c2.(socketState := NotConnected, hooksRun := c2.hooksRun + c2.closeHooks)
  }

  /** The steps of `stop()` on an open connection. */
  lemma StopSteps(c: Conn, c2: Conn)
    requires c.socketState == Opened
    requires c2 == ClearWaitingSessions(c.(socketState := Closing, ended := true))
    ensures StopConnection(c) == c2.(socketState := NotConnected, hooksRun := c2.hooksRun + c2.closeHooks)
  {
  }

  /* ---------------------------------------------------------------------
   * Inbound: dispatchHandler and the frame loop of onReceiveData
   * ------------------------------------------------------------------- */

  /** The element at `k` of the list after the tag, undefined (here
      `Nil`) past its end. */
  function Arg(rest: seq<Value>, k: nat): Value
  {
    if k < |rest| then rest[k] else Nil
  }

  /** `dispatchHandler(msg)`: the tag selects the handler; an unknown tag
      is ignored; a term that is not a list makes `shift` throw. */
  ghost function Dispatch(env: Env, c: Conn, msg: Value): Outcome
  {
    if !msg.List? then Outcome(c, true)
    else if msg.items == [] then Outcome(c, false)
    else
      var tag, rest := msg.items[0], msg.items[1..];
      if tag == Str("quit") then Outcome(StopConnection(c), false)
      else if tag == Str("call") then HandlerCall(env, c, Arg(rest, 0), Arg(rest, 1), Arg(rest, 2))
      else if tag == Str("return") then HandlerReturn(c, Arg(rest, 0), Arg(rest, 1))
      else if tag == Str("return-error") then Outcome(HandlerErrorReturn(c, Arg(rest, 0), RuntimeError(Arg(rest, 1))), false)
      else if tag == Str("epc_error") then Outcome(HandlerErrorReturn(c, Arg(rest, 0), StackError(Arg(rest, 1))), false)
      else if tag == Str("methods") then Outcome(HandlerMethods(env, c, Arg(rest, 0)), false)
      else Outcome(c, false)
  }

  /** How the head of the receive buffer reads as a frame. */
  datatype FrameCut =
    | Short                                // fewer than six bytes
    | BadHeader                            // the length is not a positive number
    | Partial                              // the body has not fully arrived
    | Cut(body: seq<byte>, rest: seq<byte>)

  function NextFrame(buf: seq<byte>): (r: FrameCut)
    ensures r.Short? <==> |buf| < HeaderSize
    ensures r.BadHeader? <==>
      (|buf| >= HeaderSize && (ParseHeader(buf[..HeaderSize]).None? || ParseHeader(buf[..HeaderSize]).value <= 0))
    ensures r.Cut? ==>
      && ParseHeader(buf[..HeaderSize]) == Some(|r.body|) && 0 < |r.body|
      && buf == buf[..HeaderSize] + r.body + r.rest
    ensures r.Cut? ==> |r.rest| < |buf| && r.rest == buf[|buf| - |r.rest|..]
    ensures r.Cut? <==>
      && |buf| >= HeaderSize && ParseHeader(buf[..HeaderSize]).Some?
      && 0 < ParseHeader(buf[..HeaderSize]).value <= |buf| - HeaderSize
    ensures r.Partial? <==>
      && |buf| >= HeaderSize && ParseHeader(buf[..HeaderSize]).Some?
      && ParseHeader(buf[..HeaderSize]).value > |buf| - HeaderSize
  {
    if |buf| < HeaderSize then Short
    else
      var len := ParseHeader(buf[..HeaderSize]);
      if len.None? || len.value <= 0 then BadHeader
      else if len.value > |buf| - HeaderSize then Partial
      else
        var body, rest := buf[HeaderSize..HeaderSize + len.value], buf[HeaderSize + len.value..];
        assert buf == buf[..HeaderSize] + body + rest;
        Cut(body, rest)
  }

  /** The frame loop: one complete frame at a time is cut from the buffer,
      parsed and dispatched. A bad header stops the connection; an
      incomplete frame waits for more data; a parse or dispatch error ends
      this round; the next frame is tried only when more than six bytes
      remain. */
  ghost function ProcessBuffer(env: Env, c: Conn): Conn
    decreases |c.receiveBuffer|, 0
  {
    match NextFrame(c.receiveBuffer)
    case Short => c
    case BadHeader => StopConnection(c)
    case Partial => c
    case Cut(body, rest) =>
      var c1 := c.(receiveBuffer := rest);
      match env.parse(body)
      case Err(_) => c1
      case Ok(msg) =>
        DispatchKeepsBuffer(env, c1, msg);
        Continue(env, Dispatch(env, c1, msg))
  }

  /** After a dispatch: a throwing handler ends the round; otherwise the
      loop goes on only when more than six bytes remain. */
  ghost function Continue(env: Env, out: Outcome): Conn
    decreases |out.conn.receiveBuffer|, 1
  {
    if out.threw || |out.conn.receiveBuffer| <= HeaderSize then out.conn
    else ProcessBuffer(env, out.conn)
  }

  /** `onReceiveData(chunk)`: the chunk is appended, then the loop runs. */
  ghost function OnReceiveData(env: Env, c: Conn, chunk: seq<byte>): Conn
  {
    ProcessBuffer(env, c.(receiveBuffer := c.receiveBuffer + chunk))
  }

  lemma DispatchKeepsBuffer(env: Env, c: Conn, msg: Value)
    ensures Dispatch(env, c, msg).conn.receiveBuffer == c.receiveBuffer
  {
    if msg.List? && msg.items != [] {
      var tag, rest := msg.items[0], msg.items[1..];
      if tag == Str("quit") {
        StopKeepsBuffer(c);
      } else if tag == Str("call") {
        var r := HandlerCall(env, c, Arg(rest, 0), Arg(rest, 1), Arg(rest, 2));
        assert SameShell(c, r.conn);
      } else if tag == Str("methods") {
        var r := HandlerMethods(env, c, Arg(rest, 0));
        assert SameShell(c, r);
      }
    }
  }

  lemma StopKeepsBuffer(c: Conn)
    ensures StopConnection(c).receiveBuffer == c.receiveBuffer
  {
    if c.socketState == Opened {
      ResolveAllShape(c.(socketState := Closing, ended := true), SortedKeys(c.session.Keys));
    }
  }

  /** Resolving the pending uids one by one changes only the session and
      the settlements. */
  lemma {:induction false} ResolveAllShape(c: Conn, uids: seq<int>)
    ensures var r := ResolveAll(c, uids);
      r == c.(session := r.session, settled := r.settled)
    decreases |uids|
  {
    if uids != [] {
      ResolveAllShape(HandlerReturn(c, Num(uids[0]), Str(ConnectionClosed)).conn, uids[1..]);
    }
  }
}
