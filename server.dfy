/**
 * The server object of one EPC connection. Its fields are the connection
 * state that `RPCServer` updates in place; every method updates them step
 * by step as the server does, and is proved to reach the state that the
 * corresponding function of `Engine` computes from the old one.
 */
module Server {
  import opened Values
  import opened Utils
  import opened Messages
  import opened MethodDefs
  import opened Framing
  import opened Engine
  import opened EngineProps

  class RPCServer {
    /** The socket, the codec, the method bodies and the logger. */
    const env: Env
    /** The uid counter behind `genuid()`, shared by every server. */
    const uids: UidCounter

    var socketState: SocketState
    var receiveBuffer: seq<byte>
    /** `methods`, in key order. */
    var methods: seq<Method>
    /** `session`: the pending requests by uid. */
    var session: map<int, Message>
    /** `queueStream`. */
    var queue: seq<Message>
    var queueState: QueueState
    var closeHooks: seq<HookId>
    /** What was done to the outside world: frames written, whether the
        socket was ended, promises settled, hooks run. */
    var written: seq<seq<byte>>
    var ended: bool
    var settled: seq<Settlement>
    var hooksRun: seq<HookId>

    /** The state of the connection as a value. */
    function View(): Conn
      reads this
    {
      Conn(socketState, receiveBuffer, methods, session, queue, queueState,
           closeHooks, written, ended, settled, hooksRun)
    }

    /** The invariant of the connection holds, and every uid pending or
        settled was drawn from the counter, so the next one is fresh. */
    ghost predicate Valid()
      reads this, uids
    {
      Inv(View()) && UidsBelow(View(), uids.next)
    }

    /** `new RPCServer(name, socket, methods)`: an open connection with a
        running queue and the given methods registered in order. */
    constructor (env: Env, uids: UidCounter, ms: seq<Method>)
      ensures this.env == env && this.uids == uids
      ensures View() == RegisterAll(Initial(), ms)
      ensures Valid()
    {
      this.env := env;
      this.uids := uids;
      socketState, receiveBuffer, methods, session := Opened, [], [], map[];
      queue, queueState, closeHooks := [], Go, [];
      written, ended, settled, hooksRun := [], false, [], [];
      new;
      for i := 0 to |ms|
        invariant View() == RegisterAll(Initial(), ms[..i])
      {
        assert ms[..i + 1][..i] == ms[..i];
        var _ := RegisterMethod(ms[i]);
      }
      assert ms[..|ms|] == ms;
      InitialInv();
      RegisterAllKeepsInv(Initial(), ms);
    }

    method AddCloseHook(h: HookId)
      requires Valid()
      modifies this
      ensures View() == Engine.AddCloseHook(old(View()), h)
      ensures Valid()
    {
      AddCloseHookKeepsInv(View(), h);
      if h in closeHooks {
        return;
      }
      closeHooks := closeHooks + [h];
    }

    method RegisterMethod(m: Method) returns (r: Method)
      modifies this
      ensures r == m
      ensures View() == Engine.RegisterMethod(old(View()), m)
      ensures old(Valid()) ==> Valid()
    {
      if Valid() {
        RegisterMethodKeepsInv(View(), m);
      }
      methods := Register(methods, m);
      r := m;
    }

    method DefineMethod(name: string, body: BodyId, argdoc: Option<string>, docstring: Option<string>)
      returns (r: Method)
      modifies this
      ensures r == NewMethod(name, body, argdoc, docstring)
      ensures View() == Engine.DefineMethod(old(View()), name, body, argdoc, docstring)
      ensures old(Valid()) ==> Valid()
    {
      r := RegisterMethod(NewMethod(name, body, argdoc, docstring));
    }

    /** `callMethod(name, ...args)`: the uid stands for the promise returned. */
    method CallMethod(name: string, args: seq<Value>) returns (uid: int)
      requires Valid()
      modifies this, uids
      ensures uid == old(uids.next) && uids.next == old(uids.next) + 1
      ensures View() == Engine.CallMethod(env, old(View()), uid, name, args)
      ensures Valid()
    {
      CallMethodFresh(env, View(), uids.next, name, args);
      uid := uids.Gen();
      var msg := Call(Num(uid), name, args);
      session := session[uid := msg];
      OnQueue(msg);
    }

    method QueryMethod() returns (uid: int)
      requires Valid()
      modifies this, uids
      ensures uid == old(uids.next) && uids.next == old(uids.next) + 1
      ensures View() == Engine.QueryMethod(env, old(View()), uid)
      ensures Valid()
    {
      QueryMethodFresh(env, View(), uids.next);
      uid := uids.Gen();
      var msg := Methods(Num(uid));
      session := session[uid := msg];
      OnQueue(msg);
    }

    /** `stop()`. Queueing the null finish signal does nothing and is not
        modelled. */
    method Stop()
      modifies this
      ensures View() == StopConnection(old(View()))
      ensures old(Valid()) ==> Valid()
    {
      if Valid() {
        StopKeepsInv(View());
        StopKeepsBelow(View(), uids.next);
      }
      if socketState == Opened {
        socketState := Closing;
        ended := true;
        ClearWaitingSessions();
        ghost var c2 := View();
        StopSteps(old(View()), c2);
        socketState := NotConnected;
        RunCloseHooks();
      }
    }

    /** `closeHooks.forEach(hook => hook.call(this))`: each hook runs once,
        in the order added. */
    method RunCloseHooks()
      modifies this
      ensures View() == old(View()).(hooksRun := old(hooksRun) + closeHooks)
    {
      var hooks := closeHooks;
      for i := 0 to |hooks|
        invariant View() == old(View()).(hooksRun := old(hooksRun) + hooks[..i])
      {
        hooksRun := hooksRun + [hooks[i]];
        assert hooks[..i + 1] == hooks[..i] + [hooks[i]];
      }
      assert hooks[..|hooks|] == hooks;
    }

    /** `clearWaitingSessions()`: the uids pending when it starts are
        resolved one by one, smallest first. */
    method ClearWaitingSessions()
      modifies this
      ensures View() == Engine.ClearWaitingSessions(old(View()))
    {
      var todo := session.Keys;
      while todo != {}
        invariant ResolveAll(View(), SortedKeys(todo)) == Engine.ClearWaitingSessions(old(View()))
        decreases |todo|
      {
        ghost var least := MinKey(todo);
        var k :| k in todo && forall j :: j in todo ==> k <= j;
        SortedKeysCons(todo, k);
        var _ := HandlerReturn(Num(k), Str(ConnectionClosed));
        todo := todo - {k};
      }
    }

    /** `onReceiveData(chunk)`. */
    method OnReceiveData(chunk: seq<byte>)
      requires Valid()
      modifies this
      ensures View() == Engine.OnReceiveData(env, old(View()), chunk)
      ensures Valid()
    {
      OnReceiveDataKeepsInv(env, View(), chunk);
      OnReceiveDataKeepsBelow(env, View(), chunk, uids.next);
      receiveBuffer := receiveBuffer + chunk;
      ProcessBuffer();
    }

    /** `onReceiveData(null)`: the frame loop over what is buffered. */
    method ProcessBuffer()
      modifies this
      ensures View() == Engine.ProcessBuffer(env, old(View()))
      decreases |receiveBuffer|
    {
      var buf := receiveBuffer;
      if |buf| >= HeaderSize {
        var len := ParseHeader(buf[..HeaderSize]);
        if len.None? || len.value <= 0 {
          Stop();
          return;
        }
        if len.value > |buf| - HeaderSize {
          return;
        }
        var content := buf[HeaderSize..HeaderSize + len.value];
        receiveBuffer := buf[HeaderSize + len.value..];
        assert NextFrame(buf) == Cut(content, receiveBuffer);
        ghost var c1 := View();
        match env.parse(content)
        case Err(_) =>
          return;
        case Ok(obj) =>
          var threw := DispatchHandler(obj);
          DispatchKeepsBuffer(env, c1, obj);
          if threw {
            return;
          }
          if |receiveBuffer| > HeaderSize {
            ProcessBuffer();
          }
      }
    }

    /** `dispatchHandler(msg)`: `threw` says whether it threw. */
    method DispatchHandler(msg: Value) returns (threw: bool)
      modifies this
      ensures Outcome(View(), threw) == Dispatch(env, old(View()), msg)
    {
      threw := false;
      if !msg.List? {
        threw := true;
        return;
      }
      if msg.items == [] {
        return;
      }
      var tag, rest := msg.items[0], msg.items[1..];
      if tag == Str("quit") {
        Stop();
      } else if tag == Str("call") {
        threw := HandlerCall(Arg(rest, 0), Arg(rest, 1), Arg(rest, 2));
      } else if tag == Str("return") {
        threw := HandlerReturn(Arg(rest, 0), Arg(rest, 1));
      } else if tag == Str("return-error") {
        HandlerErrorReturn(Arg(rest, 0), RuntimeError(Arg(rest, 1)));
      } else if tag == Str("epc_error") {
        HandlerErrorReturn(Arg(rest, 0), StackError(Arg(rest, 1)));
      } else if tag == Str("methods") {
        HandlerMethods(Arg(rest, 0));
      }
    }

    /** `handlerCall(uid, name, args)`: `threw` says whether it threw. */
    method HandlerCall(uid: Value, name: Value, args: Value) returns (threw: bool)
      modifies this
      ensures Outcome(View(), threw) == Engine.HandlerCall(env, old(View()), uid, name, args)
    {
      match CallReply(env, methods, uid, name, args)
      case None =>
        threw := true;
      case Some(reply) =>
        threw := false;
        OnQueue(reply);
    }

    /** `handlerReturn(uid, value)`: `threw` says whether converting the
        value threw, after the entry was deleted. */
    method HandlerReturn(uid: Value, value: Value) returns (threw: bool)
      modifies this
      ensures Outcome(View(), threw) == Engine.HandlerReturn(old(View()), uid, value)
    {
      threw := false;
      if !uid.Num? || uid.n !in session {
        return;
      }
      var k := uid.n;
      session := session - {k};
      match PListToObj(value)
      case Err(_) =>
        threw := true;
      case Ok(v) =>
        settled := settled + [Resolved(k, v)];
    }

    method HandlerErrorReturn(uid: Value, f: Failure)
      modifies this
      ensures View() == Engine.HandlerErrorReturn(old(View()), uid, f)
    {
      if !uid.Num? || uid.n !in session {
        return;
      }
      session := session - {uid.n};
      settled := settled + [Rejected(uid.n, f)];
    }

    method HandlerMethods(uid: Value)
      modifies this
      ensures View() == Engine.HandlerMethods(env, old(View()), uid)
    {
      var msg := Return(uid, List(Directory(methods)));
      OnQueue(msg);
    }

    /** `send()`. */
    method Send()
      modifies this
      ensures View() == Engine.Send(env, old(View()))
      decreases Weight(queue), 0
    {
      if |queue| == 0 {
        return;
      }
      var msg := queue[0];
      queue := queue[1..];
      match Encode(env, msg)
      case Err(e) =>
        if msg.Return? {
          OnQueue(EpcError(msg.uid, e));
          Send();
          return;
        }
        if msg.Call? {
          HandlerErrorReturn(msg.uid, StackError(Str(e)));
          Send();
          return;
        }
        Send();
      case Ok(body) =>
        if env.debugEnabled {
          var bufok := env.accepts(|written|);
          written := written + [Frame(body)];
          if bufok {
            Send();
          } else {
            queueState := QueueState.Stop;
          }
        }
    }

    method OnDrain()
      requires Valid()
      modifies this
      ensures View() == Engine.OnDrain(env, old(View()))
      ensures Valid()
    {
      OnDrainKeepsInv(env, View());
      OnDrainKeepsBelow(env, View(), uids.next);
      if queueState == Go {
        return;
      }
      queueState := Go;
      Send();
    }

    /** `onqueue(msg)` for a message that is not the null finish signal. */
    method OnQueue(m: Message)
      modifies this
      ensures View() == Engine.OnQueue(env, old(View()), m)
      ensures old(Valid()) ==> Valid()
      decreases Weight(queue) + MsgWeight(m), 2
    {
      if Valid() {
        OnQueueKeepsInv(env, View(), m);
        OnQueueKeepsBelow(env, View(), m, uids.next);
      }
      WeightAppend(queue, m);
      if queueState == Go {
        queue := queue + [m];
        Send();
      } else {
        queue := queue + [m];
      }
    }
  }
}
