/**
 * What the connection engine guarantees: its invariant, the frame loop,
 * the order and recovery of the outbound queue, the session table, and
 * teardown.
 */
module EngineProps {
  import opened Values
  import opened Utils
  import opened Messages
  import opened MethodDefs
  import opened Framing
  import opened Engine

  /* ---------------------------------------------------------------------
   * The invariant is kept by every entry point
   * ------------------------------------------------------------------- */

  lemma QueueChangeKeepsInv(c: Conn, q: seq<Message>)
    requires Inv(c)
    ensures Inv(c.(queue := q))
  {
  }

  lemma {:induction false} SendKeepsInv(env: Env, c: Conn)
    requires Inv(c)
    ensures Inv(Send(env, c))
    decreases Weight(c.queue), 0
  {
    if c.queue != [] {
      var m := c.queue[0];
      var c1 := c.(queue := c.queue[1..]);
      QueueChangeKeepsInv(c, c.queue[1..]);
      match Encode(env, m)
      case Err(e) =>
        RecoverKeepsInv(env, c1, m, e);
        SendKeepsInv(env, Recover(env, c1, m, e));
      case Ok(body) =>
        DeliverKeepsInv(env, c1, body);
    }
  }

  lemma {:induction false} RecoverKeepsInv(env: Env, c: Conn, m: Message, e: string)
    requires Inv(c)
    ensures Inv(Recover(env, c, m, e))
    decreases Weight(c.queue) + MsgWeight(m) - 1, 3
  {
    if m.Return? {
      OnQueueKeepsInv(env, c, EpcError(m.uid, e));
    } else if m.Call? {
      RejectKeepsInv(c, m.uid, StackError(Str(e)));
    }
  }

  lemma {:induction false} DeliverKeepsInv(env: Env, c: Conn, body: seq<byte>)
    requires Inv(c)
    ensures Inv(Deliver(env, c, body))
    decreases Weight(c.queue), 1
  {
    if env.debugEnabled && env.accepts(|c.written|) {
      SendKeepsInv(env, c.(written := c.written + [Frame(body)]));
    }
  }

  lemma {:induction false} OnQueueKeepsInv(env: Env, c: Conn, m: Message)
    requires Inv(c)
    ensures Inv(OnQueue(env, c, m))
    decreases Weight(c.queue) + MsgWeight(m), 2
  {
    WeightAppend(c.queue, m);
    QueueChangeKeepsInv(c, c.queue + [m]);
    if c.queueState == Go {
      SendKeepsInv(env, c.(queue := c.queue + [m]));
    }
  }

  lemma OnDrainKeepsInv(env: Env, c: Conn)
    requires Inv(c)
    ensures Inv(OnDrain(env, c))
  {
    if c.queueState == Stop {
      SendKeepsInv(env, c.(queueState := Go));
    }
  }

  /** A request made under a fresh uid (one `genuid` never returned before)
      keeps the invariant. */
  lemma CallMethodKeepsInv(env: Env, c: Conn, uid: int, name: string, args: seq<Value>)
    requires Inv(c) && uid !in c.session && uid !in SettledUids(c.settled)
    ensures Inv(CallMethod(env, c, uid, name, args))
  {
    var m := Call(Num(uid), name, args);
    OnQueueKeepsInv(env, c.(session := c.session[uid := m]), m);
  }

  lemma QueryMethodKeepsInv(env: Env, c: Conn, uid: int)
    requires Inv(c) && uid !in c.session && uid !in SettledUids(c.settled)
    ensures Inv(QueryMethod(env, c, uid))
  {
    var m := Methods(Num(uid));
    OnQueueKeepsInv(env, c.(session := c.session[uid := m]), m);
  }

  lemma {:induction false} RegisterKeepsNames(ms: seq<Method>, m: Method)
    requires NoDup(Names(ms))
    ensures NoDup(Names(Register(ms, m)))
  {
    if FindMethod(ms, m.name).None? {
      FindMissing(ms, m.name);
      var old_ns, ns := Names(ms), Names(ms + [m]);
      forall i, j | 0 <= i < j < |ns| ensures ns[i] != ns[j] {
        assert ns[i] == old_ns[i];
        if j < |ms| {
          assert ns[j] == old_ns[j];
        } else {
          assert ns[j] == m.name;
        }
      }
    }
  }

  lemma {:induction false} FindMissing(ms: seq<Method>, name: string)
    requires FindMethod(ms, name).None?
    ensures forall i :: 0 <= i < |ms| ==> ms[i].name != name
  {
    if ms != [] {
      FindMissing(ms[1..], name);
    }
  }

  lemma RegisterMethodKeepsInv(c: Conn, m: Method)
    requires Inv(c)
    ensures Inv(RegisterMethod(c, m))
  {
    RegisterKeepsNames(c.methods, m);
  }

  /** `addCloseHook` never stores a hook twice. */
  lemma AddCloseHookKeepsInv(c: Conn, h: HookId)
    requires Inv(c)
    ensures Inv(AddCloseHook(c, h))
  {
  }

  lemma HandlerReturnKeepsInv(c: Conn, uid: Value, value: Value)
    requires Inv(c)
    ensures Inv(HandlerReturn(c, uid, value).conn)
  {
    var r := HandlerReturn(c, uid, value);
    if SessionKey(uid).Some? && SessionKey(uid).value in c.session && !r.threw {
      SettleFresh(c.settled, Resolved(SessionKey(uid).value, PListToObj(value).value));
    }
  }

  lemma {:induction false} ResolveAllKeepsInv(c: Conn, uids: seq<int>)
    requires Inv(c)
    ensures Inv(ResolveAll(c, uids))
    decreases |uids|
  {
    if uids != [] {
      HandlerReturnKeepsInv(c, Num(uids[0]), Str(ConnectionClosed));
      ResolveAllKeepsInv(HandlerReturn(c, Num(uids[0]), Str(ConnectionClosed)).conn, uids[1..]);
    }
  }

  lemma StopKeepsInv(c: Conn)
    requires Inv(c)
    ensures Inv(StopConnection(c))
  {
    if c.socketState == Opened {
      var c1 := c.(socketState := Closing, ended := true);
      ResolveAllKeepsInv(c1, SortedKeys(c1.session.Keys));
      ResolveAllShape(c1, SortedKeys(c1.session.Keys));
    }
  }

  lemma DispatchKeepsInv(env: Env, c: Conn, msg: Value)
    requires Inv(c)
    ensures Inv(Dispatch(env, c, msg).conn)
  {
    if msg.List? && msg.items != [] {
      var tag, rest := msg.items[0], msg.items[1..];
      if tag == Str("quit") {
        StopKeepsInv(c);
      } else if tag == Str("call") {
        var reply := CallReply(env, c.methods, Arg(rest, 0), Arg(rest, 1), Arg(rest, 2));
        if reply.Some? {
          OnQueueKeepsInv(env, c, reply.value);
        }
      } else if tag == Str("return") {
        HandlerReturnKeepsInv(c, Arg(rest, 0), Arg(rest, 1));
      } else if tag == Str("return-error") {
        RejectKeepsInv(c, Arg(rest, 0), RuntimeError(Arg(rest, 1)));
      } else if tag == Str("epc_error") {
        RejectKeepsInv(c, Arg(rest, 0), StackError(Arg(rest, 1)));
      } else if tag == Str("methods") {
        OnQueueKeepsInv(env, c, Return(Arg(rest, 0), List(Directory(c.methods))));
      }
    }
  }

  lemma {:induction false} ProcessBufferKeepsInv(env: Env, c: Conn)
    requires Inv(c)
    ensures Inv(ProcessBuffer(env, c))
    decreases |c.receiveBuffer|, 0
  {
    match NextFrame(c.receiveBuffer)
    case Short =>
    case BadHeader => StopKeepsInv(c);
    case Partial =>
    case Cut(body, rest) =>
      var c1 := c.(receiveBuffer := rest);
      match env.parse(body)
      case Err(_) =>
      case Ok(msg) =>
        DispatchKeepsInv(env, c1, msg);
        DispatchKeepsBuffer(env, c1, msg);
        ContinueKeepsInv(env, Dispatch(env, c1, msg));
  }

  lemma {:induction false} ContinueKeepsInv(env: Env, out: Outcome)
    requires Inv(out.conn)
    ensures Inv(Continue(env, out))
    decreases |out.conn.receiveBuffer|, 1
  {
    if !out.threw && |out.conn.receiveBuffer| > HeaderSize {
      ProcessBufferKeepsInv(env, out.conn);
    }
  }

  lemma OnReceiveDataKeepsInv(env: Env, c: Conn, chunk: seq<byte>)
    requires Inv(c)
    ensures Inv(OnReceiveData(env, c, chunk))
  {
    ProcessBufferKeepsInv(env, c.(receiveBuffer := c.receiveBuffer + chunk));
  }

  /** The constructor's registrations keep the invariant. */
  lemma {:induction false} RegisterAllKeepsInv(c: Conn, ms: seq<Method>)
    requires Inv(c)
    ensures Inv(RegisterAll(c, ms))
    decreases |ms|
  {
    if ms != [] {
      RegisterAllKeepsInv(c, ms[..|ms| - 1]);
      RegisterMethodKeepsInv(RegisterAll(c, ms[..|ms| - 1]), ms[|ms| - 1]);
    }
  }

  /* ---------------------------------------------------------------------
   * Uids drawn from the counter are fresh: every entry point keeps the
   * pending and settled uids below the counter
   * ------------------------------------------------------------------- */

  lemma SettledSnoc(ss: seq<Settlement>, s: Settlement)
    ensures SettledUids(ss + [s]) == SettledUids(ss) + [s.uid]
  {
    assert SettledUids(ss + [s])[..|ss|] == SettledUids(ss);
  }

  /** The counter is shared by every server: when another server draws a
      uid, the bound of this one still holds for the advanced counter. */
  lemma UidsBelowMono(c: Conn, n: int, n': int)
    requires UidsBelow(c, n) && n <= n'
    ensures UidsBelow(c, n')
  {
  }

  /** The counter's next uid is neither pending nor settled. */
  lemma NextUidFresh(c: Conn, next: int)
    requires UidsBelow(c, next)
    ensures next !in c.session && next !in SettledUids(c.settled)
    ensures UidsBelow(c, next + 1)
  {
  }

  lemma RejectKeepsBelow(c: Conn, uid: Value, f: Failure, next: int)
    requires UidsBelow(c, next)
    ensures UidsBelow(HandlerErrorReturn(c, uid, f), next)
  {
    if SessionKey(uid).Some? && SessionKey(uid).value in c.session {
      SettledSnoc(c.settled, Rejected(SessionKey(uid).value, f));
    }
  }

  lemma HandlerReturnKeepsBelow(c: Conn, uid: Value, value: Value, next: int)
    requires UidsBelow(c, next)
    ensures UidsBelow(HandlerReturn(c, uid, value).conn, next)
  {
    var r := HandlerReturn(c, uid, value);
    if SessionKey(uid).Some? && SessionKey(uid).value in c.session && !r.threw {
      SettledSnoc(c.settled, Resolved(SessionKey(uid).value, PListToObj(value).value));
    }
  }

  lemma {:induction false} SendKeepsBelow(env: Env, c: Conn, next: int)
    requires UidsBelow(c, next)
    ensures UidsBelow(Send(env, c), next)
    decreases Weight(c.queue), 0
  {
    if c.queue != [] {
      var m := c.queue[0];
      var c1 := c.(queue := c.queue[1..]);
      match Encode(env, m)
      case Err(e) =>
        RecoverKeepsBelow(env, c1, m, e, next);
        SendKeepsBelow(env, Recover(env, c1, m, e), next);
      case Ok(body) =>
        DeliverKeepsBelow(env, c1, body, next);
    }
  }

  lemma {:induction false} RecoverKeepsBelow(env: Env, c: Conn, m: Message, e: string, next: int)
    requires UidsBelow(c, next)
    ensures UidsBelow(Recover(env, c, m, e), next)
    decreases Weight(c.queue) + MsgWeight(m) - 1, 3
  {
    if m.Return? {
      OnQueueKeepsBelow(env, c, EpcError(m.uid, e), next);
    } else if m.Call? {
      RejectKeepsBelow(c, m.uid, StackError(Str(e)), next);
    }
  }

  lemma {:induction false} DeliverKeepsBelow(env: Env, c: Conn, body: seq<byte>, next: int)
    requires UidsBelow(c, next)
    ensures UidsBelow(Deliver(env, c, body), next)
    decreases Weight(c.queue), 1
  {
    if env.debugEnabled && env.accepts(|c.written|) {
      SendKeepsBelow(env, c.(written := c.written + [Frame(body)]), next);
    }
  }

  lemma {:induction false} OnQueueKeepsBelow(env: Env, c: Conn, m: Message, next: int)
    requires UidsBelow(c, next)
    ensures UidsBelow(OnQueue(env, c, m), next)
    decreases Weight(c.queue) + MsgWeight(m), 2
  {
    WeightAppend(c.queue, m);
    if c.queueState == Go {
      SendKeepsBelow(env, c.(queue := c.queue + [m]), next);
    }
  }

  lemma OnDrainKeepsBelow(env: Env, c: Conn, next: int)
    requires UidsBelow(c, next)
    ensures UidsBelow(OnDrain(env, c), next)
  {
    if c.queueState == Stop {
      SendKeepsBelow(env, c.(queueState := Go), next);
    }
  }

  /** `callMethod` under the uid the counter hands out keeps the invariant,
      and the pending and settled uids stay below the advanced counter. */
  lemma CallMethodFresh(env: Env, c: Conn, next: int, name: string, args: seq<Value>)
    requires Inv(c) && UidsBelow(c, next)
    ensures Inv(CallMethod(env, c, next, name, args))
    ensures UidsBelow(CallMethod(env, c, next, name, args), next + 1)
  {
    NextUidFresh(c, next);
    CallMethodKeepsInv(env, c, next, name, args);
    var m := Call(Num(next), name, args);
    OnQueueKeepsBelow(env, c.(session := c.session[next := m]), m, next + 1);
  }

  lemma QueryMethodFresh(env: Env, c: Conn, next: int)
    requires Inv(c) && UidsBelow(c, next)
    ensures Inv(QueryMethod(env, c, next))
    ensures UidsBelow(QueryMethod(env, c, next), next + 1)
  {
    NextUidFresh(c, next);
    QueryMethodKeepsInv(env, c, next);
    var m := Methods(Num(next));
    OnQueueKeepsBelow(env, c.(session := c.session[next := m]), m, next + 1);
  }

  lemma {:induction false} ResolveAllKeepsBelow(c: Conn, uids: seq<int>, next: int)
    requires UidsBelow(c, next)
    ensures UidsBelow(ResolveAll(c, uids), next)
    decreases |uids|
  {
    if uids != [] {
      HandlerReturnKeepsBelow(c, Num(uids[0]), Str(ConnectionClosed), next);
      ResolveAllKeepsBelow(HandlerReturn(c, Num(uids[0]), Str(ConnectionClosed)).conn, uids[1..], next);
    }
  }

  lemma StopKeepsBelow(c: Conn, next: int)
    requires UidsBelow(c, next)
    ensures UidsBelow(StopConnection(c), next)
  {
    if c.socketState == Opened {
      var c1 := c.(socketState := Closing, ended := true);
      ResolveAllKeepsBelow(c1, SortedKeys(c1.session.Keys), next);
    }
  }

  lemma DispatchKeepsBelow(env: Env, c: Conn, msg: Value, next: int)
    requires UidsBelow(c, next)
    ensures UidsBelow(Dispatch(env, c, msg).conn, next)
  {
    if msg.List? && msg.items != [] {
      var tag, rest := msg.items[0], msg.items[1..];
      if tag == Str("quit") {
        StopKeepsBelow(c, next);
      } else if tag == Str("call") {
        var reply := CallReply(env, c.methods, Arg(rest, 0), Arg(rest, 1), Arg(rest, 2));
        if reply.Some? {
          OnQueueKeepsBelow(env, c, reply.value, next);
        }
      } else if tag == Str("return") {
        HandlerReturnKeepsBelow(c, Arg(rest, 0), Arg(rest, 1), next);
      } else if tag == Str("return-error") {
        RejectKeepsBelow(c, Arg(rest, 0), RuntimeError(Arg(rest, 1)), next);
      } else if tag == Str("epc_error") {
        RejectKeepsBelow(c, Arg(rest, 0), StackError(Arg(rest, 1)), next);
      } else if tag == Str("methods") {
        OnQueueKeepsBelow(env, c, Return(Arg(rest, 0), List(Directory(c.methods))), next);
      }
    }
  }

  lemma {:induction false} ProcessBufferKeepsBelow(env: Env, c: Conn, next: int)
    requires UidsBelow(c, next)
    ensures UidsBelow(ProcessBuffer(env, c), next)
    decreases |c.receiveBuffer|, 0
  {
    match NextFrame(c.receiveBuffer)
    case Short =>
    case BadHeader => StopKeepsBelow(c, next);
    case Partial =>
    case Cut(body, rest) =>
      var c1 := c.(receiveBuffer := rest);
      match env.parse(body)
      case Err(_) =>
      case Ok(msg) =>
        DispatchKeepsBelow(env, c1, msg, next);
        DispatchKeepsBuffer(env, c1, msg);
        ContinueKeepsBelow(env, Dispatch(env, c1, msg), next);
  }

  lemma {:induction false} ContinueKeepsBelow(env: Env, out: Outcome, next: int)
    requires UidsBelow(out.conn, next)
    ensures UidsBelow(Continue(env, out), next)
    decreases |out.conn.receiveBuffer|, 1
  {
    if !out.threw && |out.conn.receiveBuffer| > HeaderSize {
      ProcessBufferKeepsBelow(env, out.conn, next);
    }
  }

  lemma OnReceiveDataKeepsBelow(env: Env, c: Conn, chunk: seq<byte>, next: int)
    requires UidsBelow(c, next)
    ensures UidsBelow(OnReceiveData(env, c, chunk), next)
  {
    ProcessBufferKeepsBelow(env, c.(receiveBuffer := c.receiveBuffer + chunk), next);
  }

  /* ---------------------------------------------------------------------
   * The frame loop
   * ------------------------------------------------------------------- */

  /** With fewer than six bytes, or a header announcing more bytes than
      have arrived, nothing happens and every byte is kept. */
  lemma IncompleteFrameWaits(env: Env, c: Conn)
    requires var buf := c.receiveBuffer;
      || |buf| < HeaderSize
      || (ParseHeader(buf[..HeaderSize]).Some?
          && 0 < ParseHeader(buf[..HeaderSize]).value
          && ParseHeader(buf[..HeaderSize]).value > |buf| - HeaderSize)
    ensures ProcessBuffer(env, c) == c
  {
  }

  /** Every proper prefix of a frame the writer produces waits. */
  lemma PartialFrameWaits(env: Env, c: Conn, body: seq<byte>, k: nat)
    requires 0 < |body| < 0x100_0000 && k < |Frame(body)|
    requires c.receiveBuffer == Frame(body)[..k]
    ensures ProcessBuffer(env, c) == c
  {
    HeaderRoundTrip(|body|);
    if k >= HeaderSize {
      assert c.receiveBuffer[..HeaderSize] == Header(|body|);
    }
  }

  /** A header that is not a number, or announces no bytes, stops the
      connection and nothing more is read. */
  lemma BadHeaderStops(env: Env, c: Conn)
    requires |c.receiveBuffer| >= HeaderSize
    requires var len := ParseHeader(c.receiveBuffer[..HeaderSize]); len.None? || len.value <= 0
    ensures ProcessBuffer(env, c) == StopConnection(c)
  {
  }

  /** After a complete frame: the body handed to the parser is exactly the
      frame's body, and the buffer keeps exactly the bytes after it. A parse
      error or a throwing handler ends the round; otherwise the next frame is
      tried only when more than six bytes remain. */
  lemma FrameConsumed(env: Env, c: Conn, body: seq<byte>, rest: seq<byte>)
    requires 0 < |body| < 0x100_0000
    requires c.receiveBuffer == Frame(body) + rest
    ensures env.parse(body).Err? ==> ProcessBuffer(env, c) == c.(receiveBuffer := rest)
    ensures env.parse(body).Ok? ==>
      ProcessBuffer(env, c) == Continue(env, Dispatch(env, c.(receiveBuffer := rest), env.parse(body).value))
  {
    HeaderRoundTrip(|body|);
    var buf := c.receiveBuffer;
    assert buf[..HeaderSize] == Header(|body|);
    assert buf[HeaderSize..HeaderSize + |body|] == body;
    assert buf[HeaderSize + |body|..] == rest;
    var c1 := c.(receiveBuffer := rest);
    match env.parse(body)
    case Err(_) =>
    case Ok(msg) =>
      DispatchKeepsBuffer(env, c1, msg);
  }

  /** The frame loop never invents bytes: what stays buffered is a suffix of
      what was there. */
  lemma {:induction false} ProcessBufferKeepsSuffix(env: Env, c: Conn)
    ensures var r := ProcessBuffer(env, c).receiveBuffer;
      |r| <= |c.receiveBuffer| && r == c.receiveBuffer[|c.receiveBuffer| - |r|..]
    decreases |c.receiveBuffer|, 0
  {
    match NextFrame(c.receiveBuffer)
    case Short =>
    case BadHeader => StopKeepsBuffer(c);
    case Partial =>
    case Cut(body, rest) =>
      var c1 := c.(receiveBuffer := rest);
      match env.parse(body)
      case Err(_) =>
      case Ok(msg) =>
        DispatchKeepsBuffer(env, c1, msg);
        ContinueKeepsSuffix(env, Dispatch(env, c1, msg));
  }

  lemma {:induction false} ContinueKeepsSuffix(env: Env, out: Outcome)
    ensures var r := Continue(env, out).receiveBuffer;
      var b := out.conn.receiveBuffer;
      |r| <= |b| && r == b[|b| - |r|..]
    decreases |out.conn.receiveBuffer|, 1
  {
    if !out.threw && |out.conn.receiveBuffer| > HeaderSize {
      ProcessBufferKeepsSuffix(env, out.conn);
    }
  }

  /* ---------------------------------------------------------------------
   * Dispatch
   * ------------------------------------------------------------------- */

  /** The stack-error tag is spelt with an underscore; the hyphenated
      spelling is an unknown tag and is ignored. */
  lemma ErrorTagSpelling(env: Env, c: Conn, uid: Value, text: Value)
    ensures Dispatch(env, c, List([Str("epc_error"), uid, text]))
         == Outcome(HandlerErrorReturn(c, uid, StackError(text)), false)
    ensures Dispatch(env, c, List([Str("epc-error"), uid, text])) == Outcome(c, false)
  {
    assert List([Str("epc_error"), uid, text]).items[1..] == [uid, text];
  }

  /** A method body that throws null or undefined leaves the handler
      throwing: no reply is queued, nothing changes, and the frame loop ends
      this round with the remaining frames left buffered. */
  lemma NullishThrowEndsRound(env: Env, c: Conn, uid: Value, name: Value, args: Value)
    requires FindMethod(c.methods, ToText(name)).Some?
    requires Invoke(env.run, FindMethod(c.methods, ToText(name)).value, args).ThrewNullish?
    ensures Dispatch(env, c, List([Str("call"), uid, name, args])) == Outcome(c, true)
    ensures Continue(env, Dispatch(env, c, List([Str("call"), uid, name, args]))) == c
  {
    assert List([Str("call"), uid, name, args]).items[1..] == [uid, name, args];
  }

  /** A reply for a uid that is not pending, such as a second reply for the
      same uid, changes nothing. */
  lemma DuplicateReplyIgnored(c: Conn, uid: Value, v1: Value, v2: Value, f: Failure)
    requires SessionKey(uid).Some? && SessionKey(uid).value in c.session
    ensures var c1 := HandlerReturn(c, uid, v1).conn;
      HandlerReturn(c1, uid, v2) == Outcome(c1, false) && HandlerErrorReturn(c1, uid, f) == c1
    ensures var c2 := HandlerErrorReturn(c, uid, f);
      HandlerReturn(c2, uid, v2) == Outcome(c2, false) && HandlerErrorReturn(c2, uid, f) == c2
  {
  }

  /** What the peer's dispatcher does with each term this side writes, once
      its codec has read the symbols back as strings. */
  lemma WireRoundTrip(env: Env, c: Conn, m: Message)
    requires !m.EpcError?
    ensures m.Call? ==>
      Dispatch(env, c, ReadBack(ToJSON(m).value)) == HandlerCall(env, c, ReadBack(m.uid), Str(m.name), ReadBack(List(m.args)))
    ensures m.Methods? ==>
      Dispatch(env, c, ReadBack(ToJSON(m).value)) == Outcome(HandlerMethods(env, c, ReadBack(m.uid)), false)
    ensures m.Return? ==>
      Dispatch(env, c, ReadBack(ToJSON(m).value)) == HandlerReturn(c, ReadBack(m.uid), ReadBack(m.value))
    ensures m.ReturnError? ==>
      Dispatch(env, c, ReadBack(ToJSON(m).value)) == Outcome(HandlerErrorReturn(c, ReadBack(m.uid), RuntimeError(Str(m.errorMessage))), false)
  {
    var items := ToJSON(m).value.items;
    ReadBackItems(items);
    var back := ReadBack(List(items));
    var rest := back.items[1..];
    assert back.items[0] == Str(Tag(m));
    assert Arg(rest, 0) == ReadBack(m.uid);
    if m.Call? {
      assert Arg(rest, 1) == Str(m.name) && Arg(rest, 2) == ReadBack(List(m.args));
    } else if m.Return? {
      assert Arg(rest, 1) == ReadBack(m.value);
    } else if m.ReturnError? {
      assert Arg(rest, 1) == Str(m.errorMessage);
    }
  }
}
