/**
 * The outbound queue: first in, first out; backpressure through the write
 * result and `ondrain`; recovery from messages the codec cannot encode.
 */
module QueueProps {
  import opened Values
  import opened Messages
  import opened Framing
  import opened Engine

  /** Every message of `q` can be encoded. */
  predicate Encodable(env: Env, q: seq<Message>)
  {
    forall i :: 0 <= i < |q| ==> Encode(env, q[i]).Ok?
  }

  /** The socket accepts the writes numbered `from` to `from + n - 1`. */
  predicate Accepting(env: Env, from: nat, n: nat)
  {
    forall k :: from <= k < from + n ==> env.accepts(k)
  }

  /** The frames a run of encodable messages turns into, in order. */
  function Frames(env: Env, q: seq<Message>): (fs: seq<seq<byte>>)
    requires Encodable(env, q)
    ensures |fs| == |q|
    ensures forall i :: 0 <= i < |q| ==> fs[i] == Frame(Encode(env, q[i]).value)
  {
    if q == [] then [] else [Frame(Encode(env, q[0]).value)] + Frames(env, q[1..])
  }

  /** With writes enabled and every write accepted, `send` empties the queue
      and writes one frame per message, in queue order. */
  lemma {:induction false} SendWritesInOrder(env: Env, c: Conn)
    requires env.debugEnabled && Encodable(env, c.queue) && Accepting(env, |c.written|, |c.queue|)
    ensures Send(env, c) == c.(queue := [], written := c.written + Frames(env, c.queue))
    decreases |c.queue|
  {
    if c.queue != [] {
      var body := Encode(env, c.queue[0]).value;
      var c2 := c.(queue := c.queue[1..], written := c.written + [Frame(body)]);
      FramesCons(env, c.queue);
      var rest := Frames(env, c2.queue);
      SendWriteStep(env, c, body);
      SendWritesInOrder(env, c2);
      AppendAssoc(c.written, [Frame(body)], rest);
    }
  }

  lemma AppendAssoc<T>(a: seq<T>, b: seq<T>, c: seq<T>)
    ensures (a + b) + c == a + (b + c)
  {
  }

  /** One accepted write: the head is written and sending goes on. */
  lemma SendWriteStep(env: Env, c: Conn, body: seq<byte>)
    requires env.debugEnabled && c.queue != [] && Encode(env, c.queue[0]) == Ok(body)
    requires env.accepts(|c.written|)
    ensures Send(env, c) == Send(env, c.(queue := c.queue[1..], written := c.written + [Frame(body)]))
  {
  }

  lemma FramesCons(env: Env, q: seq<Message>)
    requires q != [] && Encodable(env, q)
    ensures Encodable(env, q[1..])
    ensures Frames(env, q) == [Frame(Encode(env, q[0]).value)] + Frames(env, q[1..])
  {
  }

  /** A refused write still hands the frame to the socket, takes the message
      off the queue and stops the queue; the rest waits for `ondrain`. */
  lemma RefusedWriteStops(env: Env, c: Conn)
    requires env.debugEnabled && c.queue != [] && Encode(env, c.queue[0]).Ok?
    requires !env.accepts(|c.written|)
    ensures Send(env, c) == c.(queue := c.queue[1..],
                               written := c.written + [Frame(Encode(env, c.queue[0]).value)],
                               queueState := Stop)
  {
  }

  /** With writes disabled, `send` takes one encodable message off the queue
      and writes nothing. */
  lemma SilentWhenDebugOff(env: Env, c: Conn)
    requires !env.debugEnabled && c.queue != [] && Encode(env, c.queue[0]).Ok?
    ensures Send(env, c) == c.(queue := c.queue[1..])
  {
  }

  /** A protocol error message is never written: at the head of the queue
      it is dropped and sending goes on. */
  lemma EpcErrorDropped(env: Env, c: Conn)
    requires c.queue != [] && c.queue[0].EpcError?
    ensures Send(env, c) == Send(env, c.(queue := c.queue[1..]))
  {
  }

  /** Any other message the codec refuses, a directory query or an
      application error reply, is dropped too and sending goes on; a dropped
      query stays pending. */
  lemma OtherFailureDropped(env: Env, c: Conn, e: string)
    requires c.queue != [] && !c.queue[0].Return? && !c.queue[0].Call?
    requires Encode(env, c.queue[0]) == Err(e)
    ensures Send(env, c) == Send(env, c.(queue := c.queue[1..]))
  {
  }

  /** A Return the codec refuses is replaced by a protocol error message with
      the same uid, queued at the tail behind what was already waiting. */
  lemma ReturnFailureRequeued(env: Env, c: Conn, e: string)
    requires c.queue != [] && c.queue[0].Return? && Encode(env, c.queue[0]) == Err(e)
    ensures Send(env, c) == Send(env, OnQueue(env, c.(queue := c.queue[1..]), EpcError(c.queue[0].uid, e)))
    ensures c.queueState == Go ==>
      Send(env, c) == Send(env, Send(env, c.(queue := c.queue[1..] + [EpcError(c.queue[0].uid, e)])))
    ensures c.queueState == Stop ==>
      Send(env, c) == Send(env, c.(queue := c.queue[1..] + [EpcError(c.queue[0].uid, e)]))
  {
  }

  /** So a lone Return that cannot be encoded ends with nothing written, an
      empty queue, and no promise settled. */
  lemma LoneReturnFailureWritesNothing(env: Env, c: Conn, uid: Value, v: Value, e: string)
    requires c.queue == [Return(uid, v)] && Encode(env, Return(uid, v)) == Err(e)
    ensures Send(env, c) == c.(queue := [])
  {
    var c1 := c.(queue := []);
    var c2 := c1.(queue := [EpcError(uid, e)]);
    assert Send(env, c2) == Send(env, c1);
    assert OnQueue(env, c1, EpcError(uid, e)) == (if c.queueState == Go then c1 else c2);
    assert Send(env, c) == Send(env, OnQueue(env, c1, EpcError(uid, e)));
  }

  /** A Call the codec refuses rejects its own pending promise with a stack
      exception carrying the codec's message; sending goes on. */
  lemma CallFailureRejects(env: Env, c: Conn, k: int, name: string, args: seq<Value>, e: string)
    requires c.queue != [] && c.queue[0] == Call(Num(k), name, args) && k in c.session
    requires Encode(env, c.queue[0]) == Err(e)
    ensures Send(env, c) == Send(env, c.(queue := c.queue[1..],
                                         session := c.session - {k},
                                         settled := c.settled + [Rejected(k, StackError(Str(e)))]))
  {
  }

  /** `onqueue` appends at the tail; only a running queue sends. */
  lemma OnQueueAppends(env: Env, c: Conn, m: Message)
    ensures c.queueState == Stop ==> OnQueue(env, c, m) == c.(queue := c.queue + [m])
    ensures c.queueState == Go ==> OnQueue(env, c, m) == Send(env, c.(queue := c.queue + [m]))
  {
  }

  /** `ondrain` on a stopped queue sets it running and sends what waits. */
  lemma OnDrainResumes(env: Env, c: Conn)
    requires c.queueState == Stop
    ensures OnDrain(env, c) == Send(env, c.(queueState := Go))
  {
  }

  /** Backpressure end to end: a refused write stops the queue with the
      later messages still waiting, and `ondrain` then writes them, in
      order, after the refused one. */
  lemma DrainAfterRefusal(env: Env, c: Conn)
    requires env.debugEnabled && c.queue != [] && Encodable(env, c.queue)
    requires !env.accepts(|c.written|) && Accepting(env, |c.written| + 1, |c.queue| - 1)
    ensures var stopped := Send(env, c);
      && stopped.queueState == Stop && stopped.queue == c.queue[1..]
      && OnDrain(env, stopped) == c.(queue := [], queueState := Go, written := c.written + Frames(env, c.queue))
  {
    var body := Encode(env, c.queue[0]).value;
    var stopped := c.(queue := c.queue[1..], written := c.written + [Frame(body)], queueState := Stop);
    RefusedWriteStops(env, c);
    var resumed := stopped.(queueState := Go);
    FramesCons(env, c.queue);
    SendWritesInOrder(env, resumed);
    AppendAssoc(c.written, [Frame(body)], Frames(env, c.queue[1..]));
  }

  /** A request made while the queue is stopped is pending and waits at the
      tail; nothing is written. */
  lemma CallMethodWhileStopped(env: Env, c: Conn, uid: int, name: string, args: seq<Value>)
    requires c.queueState == Stop
    ensures var m := Call(Num(uid), name, args);
      CallMethod(env, c, uid, name, args) == c.(session := c.session[uid := m], queue := c.queue + [m])
  {
  }

  /** A request made on an idle, running queue whose write is accepted is
      pending and written at once as one frame. */
  lemma CallMethodWritten(env: Env, c: Conn, uid: int, name: string, args: seq<Value>)
    requires env.debugEnabled && c.queueState == Go && c.queue == []
    requires Encode(env, Call(Num(uid), name, args)).Ok? && env.accepts(|c.written|)
    ensures var m := Call(Num(uid), name, args);
      CallMethod(env, c, uid, name, args)
        == c.(session := c.session[uid := m], written := c.written + [Frame(Encode(env, m).value)])
  {
    var m := Call(Num(uid), name, args);
    var c0 := c.(session := c.session[uid := m]);
    OnQueueAppends(env, c0, m);
    assert c0.queue + [m] == [m];
    SendOnly(env, c0.(queue := [m]));
  }

  /** A lone encodable message whose write is accepted is written. */
  lemma SendOnly(env: Env, c: Conn)
    requires env.debugEnabled && |c.queue| == 1 && Encode(env, c.queue[0]).Ok?
    requires env.accepts(|c.written|)
    ensures Send(env, c) == c.(queue := [], written := c.written + [Frame(Encode(env, c.queue[0]).value)])
  {
    SendWriteStep(env, c, Encode(env, c.queue[0]).value);
    assert c.queue[1..] == [];
  }
}
