/**
 * A registered method: its name, the function that implements it, and the
 * two documentation strings the directory reports.
 */
module MethodDefs {
  import opened Values
  import opened Utils

  /** The identity of the JavaScript function behind a method. What it does
      when applied is supplied from outside (see `Invoke`). */
  datatype BodyId = BodyId(id: nat)

  /** How applying a body ends: with a value, by throwing something whose
      `toString()` is `text`, or by throwing null or undefined, which have
      no `toString()` at all. */
  datatype Completion = Returned(value: Value) | Threw(text: string) | ThrewNullish

  datatype Method = Method(name: string, body: BodyId, argdoc: string, docstring: string)

  /** `new Method(name, body, argdoc, docstring)`: omitted documentation
      strings default to the empty string. */
  function NewMethod(name: string, body: BodyId, argdoc: Option<string>, docstring: Option<string>): (m: Method)
    ensures m.name == name && m.body == body
    ensures argdoc.Some? ==> m.argdoc == argdoc.value
    ensures docstring.Some? ==> m.docstring == docstring.value
    ensures argdoc.None? ==> m.argdoc == ""
    ensures docstring.None? ==> m.docstring == ""
  {
    Method(name, body,
      if argdoc.Some? then argdoc.value else "",
      if docstring.Some? then docstring.value else "")
  }

  /** The argument list of an invocation: an array as it is, anything else
      as a one-element array. */
  function ArgList(args: Value): (xs: seq<Value>)
    ensures args.List? ==> xs == args.items
    ensures !args.List? ==> xs == [args]
  {
    if args.List? then args.items else [args]
  }

  /** `args.map(tryPListToObj)`: the first conversion that throws makes the
      whole map throw. */
  function ConvertAll(xs: seq<Value>): (r: Result<seq<Value>>)
    ensures r.Ok? <==> forall i :: 0 <= i < |xs| ==> PListToObj(xs[i]).Ok?
    ensures r.Ok? ==> |r.value| == |xs| && forall i :: 0 <= i < |xs| ==> r.value[i] == PListToObj(xs[i]).value
    ensures r.Err? ==> r.error == NullKeyError
  {
    if xs == [] then Ok([])
    else match PListToObj(xs[0])
      case Err(e) => Err(e)
      case Ok(x) =>
        match ConvertAll(xs[1..])
        case Err(e) => Err(e)
        case Ok(rest) => Ok([x] + rest)
  }

  /** `method.invoke(args)`: the body applied to the converted arguments,
      where `run` says what each body does. A conversion that throws makes
      the invocation throw the same error. */
  function Invoke(run: (BodyId, seq<Value>) -> Completion, m: Method, args: Value): (c: Completion)
    ensures ConvertAll(ArgList(args)).Err? ==> c == Threw(NullKeyError)
    ensures ConvertAll(ArgList(args)).Ok? ==> c == run(m.body, ConvertAll(ArgList(args)).value)
  {
    match ConvertAll(ArgList(args))
    case Err(e) => Threw(e)
    case Ok(converted) => run(m.body, converted)
  }

  /** Arguments that need no conversion (no element is a plist) reach the
      body exactly as they came. */
  lemma InvokePassesPlainArgs(run: (BodyId, seq<Value>) -> Completion, m: Method, args: Value)
    requires forall i :: 0 <= i < |ArgList(args)| ==> !ArgList(args)[i].List?
    ensures Invoke(run, m, args) == run(m.body, ArgList(args))
  {
    var xs := ArgList(args);
    var r := ConvertAll(xs);
    forall i | 0 <= i < |xs| ensures PListToObj(xs[i]) == Ok(xs[i]) {
      PListToObjKeepsNonPlist(xs[i], 0);
    }
    assert r.value == xs;
  }

  /** A single scalar argument is passed as a one-element argument list. */
  lemma InvokeWrapsScalar(run: (BodyId, seq<Value>) -> Completion, m: Method, x: Value)
    requires !x.List? && !x.Obj?
    ensures Invoke(run, m, x) == run(m.body, [x])
  {
    InvokePassesPlainArgs(run, m, x);
  }

  /** A keyword list among the arguments reaches the body as an object. */
  lemma InvokeConvertsPlistArg(run: (BodyId, seq<Value>) -> Completion, m: Method, args: seq<Value>, j: nat)
    requires j < |args| && forall i :: 0 <= i < |args| ==> PListToObj(args[i]).Ok?
    ensures exists converted ::
      && Invoke(run, m, List(args)) == run(m.body, converted)
      && |converted| == |args|
      && converted[j] == PListToObj(args[j]).value
  {
    var converted := ConvertAll(args).value;
    assert Invoke(run, m, List(args)) == run(m.body, converted);
  }

  /** An argument with a null where a key is expected makes the invocation
      throw the TypeError, and the body is never applied. */
  lemma InvokeNullKeyThrows(run: (BodyId, seq<Value>) -> Completion, m: Method, args: Value, i: nat, j: nat)
    requires i < |ArgList(args)|
    requires var a := ArgList(args)[i];
      && a.List? && |a.items| % 2 == 0 && j < |a.items| && j % 2 == 0 && a.items[j] == Nil
      && forall k :: 0 <= k < j && k % 2 == 0 ==> KeyOf(a.items[k]).Keyword?
    ensures Invoke(run, m, args) == Threw(NullKeyError)
  {
    PListToObjNullKeyThrows(ArgList(args)[i], j);
  }
}
