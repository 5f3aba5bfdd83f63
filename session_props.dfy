/**
 * Teardown and the method directory: what `stop()` does to the pending
 * sessions and the close hooks, and how registration shapes the directory
 * a `methods` request is answered with.
 */
module SessionProps {
  import opened Values
  import opened Utils
  import opened Messages
  import opened MethodDefs
  import opened Engine

  /* ---------------------------------------------------------------------
   * Teardown
   * ------------------------------------------------------------------- */

  /** The settlements of closing the connection under the pending `uids`:
      each resolved, in turn, with the text "EPC Connection closed". */
  function Closures(uids: seq<int>): (ss: seq<Settlement>)
    ensures |ss| == |uids|
    ensures forall i :: 0 <= i < |uids| ==> ss[i] == Resolved(uids[i], Str(ConnectionClosed))
  {
    if uids == [] then [] else [Resolved(uids[0], Str(ConnectionClosed))] + Closures(uids[1..])
  }

  /** The session table without the entries under `uids`. */
  ghost function Without(s: map<int, Message>, uids: seq<int>): map<int, Message>
  {
    map k | k in s && k !in uids :: s[k]
  }

  /** Resolving distinct pending uids one by one removes exactly their
      entries and resolves each with the closing text, in order. */
  lemma {:induction false} ResolveAllEffect(c: Conn, uids: seq<int>)
    requires forall i :: 0 <= i < |uids| ==> uids[i] in c.session
    requires forall i, j :: 0 <= i < j < |uids| ==> uids[i] != uids[j]
    ensures ResolveAll(c, uids)
         == c.(session := Without(c.session, uids), settled := c.settled + Closures(uids))
    decreases |uids|
  {
    if uids == [] {
      assert Without(c.session, uids) == c.session;
    } else {
      var k := uids[0];
      var c1 := c.(session := c.session - {k}, settled := c.settled + [Resolved(k, Str(ConnectionClosed))]);
      ResolveOne(c, k);
      assert ResolveAll(c, uids) == ResolveAll(c1, uids[1..]);
      forall i | 0 <= i < |uids[1..]| ensures uids[1..][i] in c1.session {
        assert uids[1..][i] == uids[i + 1] != k;
      }
      ResolveAllEffect(c1, uids[1..]);
      WithoutStep(c.session, uids);
      ClosuresStep(c.settled, uids);
    }
  }

  /** One pending uid resolved with the closing text. */
  lemma ResolveOne(c: Conn, k: int)
    requires k in c.session
    ensures HandlerReturn(c, Num(k), Str(ConnectionClosed)).conn
         == c.(session := c.session - {k}, settled := c.settled + [Resolved(k, Str(ConnectionClosed))])
  {
    assert PListToObj(Str(ConnectionClosed)) == Ok(Str(ConnectionClosed));
  }

  lemma WithoutStep(s: map<int, Message>, uids: seq<int>)
    requires uids != []
    ensures Without(s - {uids[0]}, uids[1..]) == Without(s, uids)
  {
    forall k ensures k in uids <==> k == uids[0] || k in uids[1..] {
      assert uids == [uids[0]] + uids[1..];
    }
  }

  lemma ClosuresStep(settled: seq<Settlement>, uids: seq<int>)
    requires uids != []
    ensures settled + [Resolved(uids[0], Str(ConnectionClosed))] + Closures(uids[1..])
         == settled + Closures(uids)
  {
    var a, b, rest := settled, [Resolved(uids[0], Str(ConnectionClosed))], Closures(uids[1..]);
    assert Closures(uids) == b + rest;
    assert (a + b) + rest == a + (b + rest);
  }

  /** `stop()` on an open connection: the socket is ended, every pending
      request is resolved with "EPC Connection closed" in ascending uid
      order and removed, the close hooks run once each in the order they
      were added, and the connection ends NOT_CONNECTED. Nothing else
      changes. On a connection that is not open, `stop()` does nothing. */
  lemma StopTearsDown(c: Conn)
    ensures c.socketState != Opened ==> StopConnection(c) == c
    ensures c.socketState == Opened ==>
      StopConnection(c) == c.(socketState := NotConnected, session := map[], ended := true,
                              settled := c.settled + Closures(SortedKeys(c.session.Keys)),
                              hooksRun := c.hooksRun + c.closeHooks)
  {
    if c.socketState == Opened {
      var c1 := c.(socketState := Closing, ended := true);
      var uids := SortedKeys(c.session.Keys);
      SortedKeysComplete(c.session.Keys);
      ResolveAllEffect(c1, uids);
      assert Without(c.session, uids) == map[];
    }
  }

  /** The closing order: the uids resolved at teardown are exactly the
      pending ones, each once, in ascending order. */
  lemma TeardownOrder(c: Conn)
    ensures var uids := SortedKeys(c.session.Keys);
      && (forall k :: k in c.session <==> k in uids)
      && (forall i, j :: 0 <= i < j < |uids| ==> uids[i] < uids[j])
  {
    SortedKeysComplete(c.session.Keys);
  }

  /** A second `stop()` does nothing: the hooks never run twice. */
  lemma StopOnce(c: Conn)
    ensures StopConnection(StopConnection(c)) == StopConnection(c)
  {
    StopTearsDown(c);
    StopTearsDown(StopConnection(c));
  }

  /* ---------------------------------------------------------------------
   * The method directory
   * ------------------------------------------------------------------- */

  /** Registering a name that is already there replaces that method where
      it stands. */
  lemma {:induction false} RegisterInPlace(ms: seq<Method>, m: Method, i: nat)
    requires i < |ms| && ms[i].name == m.name && NoDup(Names(ms))
    ensures Register(ms, m) == ms[i := m]
  {
    var head, tail := ms[0], ms[1..];
    assert ms == [head] + tail;
    if i == 0 {
      assert Register(ms, m) == [m] + tail;
      ConsUpdate(head, tail, m, 0);
    } else {
      assert head.name != m.name by {
        assert Names(ms)[0] != Names(ms)[i];
      }
      assert Register(ms, m) == [head] + Register(tail, m);
      NamesTailNoDup(ms);
      RegisterInPlace(tail, m, i - 1);
      ConsUpdate(head, tail, m, i);
    }
  }

  lemma ConsUpdate<T>(x: T, s: seq<T>, v: T, i: nat)
    requires i <= |s|
    ensures i == 0 ==> [v] + s == ([x] + s)[0 := v]
    ensures 0 < i ==> [x] + s[i - 1 := v] == ([x] + s)[i := v]
  {
  }

  lemma NamesTailNoDup(ms: seq<Method>)
    requires ms != [] && NoDup(Names(ms))
    ensures NoDup(Names(ms[1..]))
  {
    var ns, ts := Names(ms), Names(ms[1..]);
    forall i, j | 0 <= i < j < |ts| ensures ts[i] != ts[j] {
      assert ts[i] == ns[i + 1] && ts[j] == ns[j + 1];
    }
  }

  /** The directory after a registration: a new name adds its triple at the
      end; a known name has its triple replaced in place. */
  lemma DirectoryAfterRegister(ms: seq<Method>, m: Method)
    requires NoDup(Names(ms))
    ensures FindMethod(ms, m.name).None? ==> Directory(Register(ms, m)) == Directory(ms) + [Triple(m)]
    ensures forall i :: 0 <= i < |ms| && ms[i].name == m.name ==>
      Directory(Register(ms, m)) == Directory(ms)[i := Triple(m)]
  {
    if FindMethod(ms, m.name).None? {
      DirectorySnoc(ms, m);
    }
    forall i | 0 <= i < |ms| && ms[i].name == m.name
      ensures Directory(Register(ms, m)) == Directory(ms)[i := Triple(m)]
    {
      RegisterInPlace(ms, m, i);
      DirectoryUpdate(ms, m, i);
    }
  }

  lemma DirectorySnoc(ms: seq<Method>, m: Method)
    ensures Directory(ms + [m]) == Directory(ms) + [Triple(m)]
  {
  }

  lemma DirectoryUpdate(ms: seq<Method>, m: Method, i: nat)
    requires i < |ms|
    ensures Directory(ms[i := m]) == Directory(ms)[i := Triple(m)]
  {
  }

  /** The last of `ms` named `n`. */
  function LastNamed(ms: seq<Method>, n: string): (r: Option<Method>)
    ensures r.Some? ==> r.value in ms && r.value.name == n
    ensures r.None? ==> forall i :: 0 <= i < |ms| ==> ms[i].name != n
  {
    if ms == [] then None
    else if ms[|ms| - 1].name == n then Some(ms[|ms| - 1])
    else LastNamed(ms[..|ms| - 1], n)
  }

  /** After the constructor registers `ms`, a name finds the last method
      of `ms` under it; a name `ms` does not use finds what it found
      before. */
  lemma {:induction false} RegisterAllFinds(c: Conn, ms: seq<Method>, n: string)
    ensures FindMethod(RegisterAll(c, ms).methods, n)
         == if LastNamed(ms, n).Some? then LastNamed(ms, n) else FindMethod(c.methods, n)
  {
    if ms != [] {
      RegisterAllFinds(c, ms[..|ms| - 1], n);
    }
  }

  /** Three names, pairwise distinct. */
  lemma ExampleNamesDistinct()
    ensures "test2" != "method1" && "test3" != "method1" && "test3" != "test2"
  {
    assert |"test2"| != |"method1"|;
    assert "test3"[4] != "test2"[4];
  }

  /** A server that defined `method1` with documentation "args" and "",
      `test2` with "a,b,c" and "docstring here...", and `test3` with none. */
  function ExampleServer(b1: BodyId, b2: BodyId, b3: BodyId): Conn
  {
    var c1 := DefineMethod(Initial(), "method1", b1, Some("args"), Some(""));
    var c2 := DefineMethod(c1, "test2", b2, Some("a,b,c"), Some("docstring here..."));
    DefineMethod(c2, "test3", b3, None, None)
  }

  /** Its methods, in definition order, absent documentation as "". */
  function ExampleList(b1: BodyId, b2: BodyId, b3: BodyId): seq<Method>
  {
    [Method("method1", b1, "args", ""), Method("test2", b2, "a,b,c", "docstring here..."), Method("test3", b3, "", "")]
  }

  lemma ExampleMethods(b1: BodyId, b2: BodyId, b3: BodyId)
    ensures ExampleServer(b1, b2, b3).methods == ExampleList(b1, b2, b3)
  {
    var m1 := Method("method1", b1, "args", "");
    var m2 := Method("test2", b2, "a,b,c", "docstring here...");
    var m3 := Method("test3", b3, "", "");
    ExampleNamesDistinct();
    assert Register([], m1) == [m1];
    assert Register([m1], m2) == [m1, m2];
    assert Register([m1, m2], m3) == [m1, m2, m3];
  }

  /** The directory it answers `methods` with. */
  lemma DirectoryExample(b1: BodyId, b2: BodyId, b3: BodyId)
    ensures Directory(ExampleServer(b1, b2, b3).methods) == [
              List([Sym("method1"), Str("args"), Str("")]),
              List([Sym("test2"), Str("a,b,c"), Str("docstring here...")]),
              List([Sym("test3"), Str(""), Str("")])]
  {
    ExampleMethods(b1, b2, b3);
  }

  lemma ExampleNoDup(b1: BodyId, b2: BodyId, b3: BodyId)
    ensures NoDup(Names(ExampleList(b1, b2, b3)))
  {
    ExampleNamesDistinct();
    assert Names(ExampleList(b1, b2, b3)) == ["method1", "test2", "test3"];
  }

  lemma RedefineInList(b1: BodyId, b2: BodyId, b3: BodyId, b4: BodyId)
    ensures Register(ExampleList(b1, b2, b3), Method("test2", b4, "", ""))
         == [Method("method1", b1, "args", ""), Method("test2", b4, "", ""), Method("test3", b3, "", "")]
  {
    var ms := ExampleList(b1, b2, b3);
    ExampleNoDup(b1, b2, b3);
    RegisterInPlace(ms, Method("test2", b4, "", ""), 1);
  }

  /** Redefining `test2` on that server replaces its triple where it
      stands. */
  lemma RedefineExample(b1: BodyId, b2: BodyId, b3: BodyId, b4: BodyId)
    ensures Directory(DefineMethod(ExampleServer(b1, b2, b3), "test2", b4, None, None).methods) == [
              List([Sym("method1"), Str("args"), Str("")]),
              List([Sym("test2"), Str(""), Str("")]),
              List([Sym("test3"), Str(""), Str("")])]
  {
    ExampleMethods(b1, b2, b3);
    RedefineInList(b1, b2, b3, b4);
  }
}
