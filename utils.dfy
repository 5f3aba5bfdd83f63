/**
 * The helpers of the engine: the uid counter, the zero padding of frame
 * headers, and the two plist coercions between keyword-tagged flat lists
 * and plain objects.
 */
module Utils {
  import opened Values

  /* ---------------------------------------------------------------------
   * genuid: a process-wide counter that starts at 1.
   * ------------------------------------------------------------------- */

  class UidCounter {
    var next: int

    constructor ()
      ensures next == 1
    {
      next := 1;
    }

    /** Returns the current count and advances it (post-increment). */
    method Gen() returns (uid: int)
      modifies this
      ensures uid == old(next) && next == old(next) + 1
    {
      uid := next;
      next := next + 1;
    }
  }

  /* ---------------------------------------------------------------------
   * padRight: despite its name, `String.prototype.padStart`.
   * ------------------------------------------------------------------- */

  /** `pad` repeated and cut to exactly `k` characters. */
  function Fill(pad: string, k: nat): (r: string)
    requires pad != []
    ensures |r| == k
    ensures forall i :: 0 <= i < k ==> r[i] == pad[i % |pad|]
  {
    if k == 0 then [] else Fill(pad, k - 1) + [pad[(k - 1) % |pad|]]
  }

  /** Left-pads `s` with `pad` to at least `n` characters. */
  function PadRight(s: string, pad: string, n: int): (r: string)
    ensures pad != [] ==> |r| == if |s| >= n then |s| else n
    ensures pad == [] ==> r == s
    ensures |r| >= |s| && r[|r| - |s|..] == s
    ensures forall i :: 0 <= i < |r| - |s| ==> r[i] == pad[i % |pad|]
  {
    if |s| >= n || pad == [] then s else Fill(pad, n - |s|) + s
  }

  /* ---------------------------------------------------------------------
   * range(start, end, step)
   * ------------------------------------------------------------------- */

  /** The numbers start, start + step, ... strictly before `end`, with the
      JavaScript defaults for omitted arguments. A zero step with `start`
      beyond `end` loops forever in the source and is excluded. */
  method Range(start: int, end: Option<int>, step: Option<int>) returns (r: seq<int>)
    requires var s0 := if end.None? then 0 else start;
             var e0 := if end.None? then start else end.value;
             var st := if step.None? then 1 else step.value;
             st == 0 ==> s0 <= e0
    ensures var s0 := if end.None? then 0 else start;
            var e0 := if end.None? then start else end.value;
            var st := if step.None? then 1 else step.value;
            && (forall k :: 0 <= k < |r| ==> r[k] == s0 + k * st)
            && (forall k :: 0 <= k < |r| ==> if st > 0 then r[k] < e0 else r[k] > e0)
            && (st > 0 ==> s0 + |r| * st >= e0)
            && (st < 0 ==> s0 + |r| * st <= e0)
            && (st == 0 ==> r == [])
  {
    var s0, e0 := start, 0;
    if end.None? {
      e0 := start;
      s0 := 0;
    } else {
      e0 := end.value;
    }
    var st := if step.None? then 1 else step.value;
    if (st > 0 && s0 >= e0) || (st < 0 && s0 <= e0) {
      return [];
    }
    r := [];
    var i := s0;
    while if st > 0 then i < e0 else i > e0
      invariant i == s0 + |r| * st
      invariant forall k :: 0 <= k < |r| ==> r[k] == s0 + k * st
      invariant forall k :: 0 <= k < |r| ==> if st > 0 then r[k] < e0 else r[k] > e0
      invariant st > 0 ==> i < e0 + st
      invariant st < 0 ==> i > e0 + st
      invariant st == 0 ==> i <= e0 && r == []
      decreases if st > 0 then e0 - i else if st < 0 then i - e0 else 0
    {
      r := r + [i];
      i := i + st;
    }
  }

  /* ---------------------------------------------------------------------
   * tryPListToObj
   * ------------------------------------------------------------------- */

  /** What `e.toString()` reads for the TypeError that
      `String.prototype.startsWith` throws when called on null. */
  const NullKeyError := "TypeError: String.prototype.startsWith called on null or undefined"

  /** What the key test of `tryPListToObj` makes of an even-index element:
      it throws on null, otherwise the element is a keyword when its text
      starts with ':', and its key is `element.slice(1)` read as a
      property name. */
  datatype KeyTest = Throws | NotKeyword | Keyword(name: string)

  function KeyOf(v: Value): KeyTest
  {
    match v
    case Nil => Throws
    case Str(s) => if |s| > 0 && s[0] == ':' then Keyword(s[1..]) else NotKeyword
    case List(items) =>
      // the text of an empty array is empty, so a keyword array is never empty
      var t := ToText(v);
      if |items| > 0 && |t| > 0 && t[0] == ':' then Keyword(ToText(List(items[1..])))
      else NotKeyword
    case _ => NotKeyword
  }

  /** The outcome of the first loop over the even positions. */
  datatype Scan = ScanThrows | ScanPlain | ScanKeyed

  function ScanKeys(items: seq<Value>, i: nat): (r: Scan)
    requires i % 2 == 0 && i <= |items| && |items| % 2 == 0
    ensures r == ScanKeyed ==>
      forall j :: i <= j < |items| && j % 2 == 0 ==> KeyOf(items[j]).Keyword?
    decreases |items| - i
  {
    if i == |items| then ScanKeyed
    else match KeyOf(items[i])
      case Throws => ScanThrows
      case NotKeyword => ScanPlain
      case Keyword(_) => ScanKeys(items, i + 2)
  }

  /** The first field named `key`, if any. */
  function Lookup(fields: seq<Field>, key: string): Option<Value>
  {
    if fields == [] then None
    else if fields[0].key == key then Some(fields[0].val)
    else Lookup(fields[1..], key)
  }

  /** `obj[key] = val`: an existing property keeps its place, a new one goes last. */
  function Put(fields: seq<Field>, key: string, val: Value): (r: seq<Field>)
    ensures Lookup(r, key) == Some(val)
    ensures forall k :: k != key ==> Lookup(r, k) == Lookup(fields, k)
    ensures Lookup(fields, key).None? ==> r == fields + [Field(key, val)]
    ensures Lookup(fields, key).Some? ==> Keys(r) == Keys(fields)
  {
    if fields == [] then [Field(key, val)]
    else if fields[0].key == key then [Field(key, val)] + fields[1..]
    else [fields[0]] + Put(fields[1..], key, val)
  }

  /** Turns a keyword-tagged flat list into a plain object. Anything that is
      not an array, an odd-length array, and an array with a non-keyword at
      an even position come back unchanged; a null at an even position
      (reached before any non-keyword) throws. */
  function PListToObj(v: Value): (r: Result<Value>)
    ensures r.Err? ==> r.error == NullKeyError
    ensures r.Ok? && !r.value.Obj? ==> r.value == v
    decreases v, 1
  {
    if !v.List? || |v.items| % 2 != 0 then Ok(v)
    else match ScanKeys(v.items, 0)
      case ScanThrows => Err(NullKeyError)
      case ScanPlain => Ok(v)
      case ScanKeyed => BuildObj(v, 0, [])
  }

  /** The second loop: `ret[key] = tryPListToObj(value)` for each pair from `i` on. */
  function BuildObj(parent: Value, i: nat, acc: seq<Field>): (r: Result<Value>)
    requires parent.List? && |parent.items| % 2 == 0 && i % 2 == 0 && i <= |parent.items|
    requires forall j :: i <= j < |parent.items| && j % 2 == 0 ==> KeyOf(parent.items[j]).Keyword?
    ensures r.Err? ==> r.error == NullKeyError
    ensures r.Ok? ==> r.value.Obj?
    decreases parent, 0, |parent.items| - i
  {
    if i == |parent.items| then Ok(Obj(acc))
    else
      var key := KeyOf(parent.items[i]).name;
      match PListToObj(parent.items[i + 1])
      case Err(e) => Err(e)
      case Ok(val) => BuildObj(parent, i + 2, Put(acc, key, val))
  }

  /* ---------------------------------------------------------------------
   * tryObjToPList
   * ------------------------------------------------------------------- */

  /** `Object.prototype.toString.call(v) === '[object Object]'`. */
  predicate IsPlainObject(v: Value) {
    v.Obj?
  }

  function Flatten(parts: seq<seq<Value>>): seq<Value>
  {
    if parts == [] then [] else parts[0] + Flatten(parts[1..])
  }

  /** Turns plain objects into keyword-tagged flat lists, arrays element by
      element, and leaves everything else as it is. */
  function ObjToPList(v: Value): Value
  {
    if IsPlainObject(v) then
      var fields := v.fields;
      List(Flatten(seq(|fields|, i requires 0 <= i < |fields| =>
        [Sym(":" + fields[i].key), ObjToPList(fields[i].val)])))
    else if v.List? then
      List(seq(|v.items|, i requires 0 <= i < |v.items| => ObjToPList(v.items[i])))
    else v
  }

  /* ---------------------------------------------------------------------
   * Lemmas
   * ------------------------------------------------------------------- */

  lemma {:induction false} ScanFindsNonKeyword(items: seq<Value>, i: nat, j: nat)
    requires i % 2 == 0 && i <= |items| && |items| % 2 == 0
    requires i <= j < |items| && j % 2 == 0 && !KeyOf(items[j]).Keyword?
    requires forall k :: i <= k < j && k % 2 == 0 ==> KeyOf(items[k]).Keyword?
    ensures ScanKeys(items, i) == if KeyOf(items[j]).Throws? then ScanThrows else ScanPlain
    decreases j - i
  {
    if i < j {
      ScanFindsNonKeyword(items, i + 2, j);
    }
  }

  /** Values that are not plists come back unchanged, without any recursion
      into their elements. */
  lemma PListToObjKeepsNonPlist(v: Value, j: nat)
    requires v.List? ==> |v.items| % 2 == 0 && j < |v.items| && j % 2 == 0
    requires v.List? ==> KeyOf(v.items[j]) == NotKeyword
    requires v.List? ==> forall k :: 0 <= k < j && k % 2 == 0 ==> KeyOf(v.items[k]).Keyword?
    ensures PListToObj(v) == Ok(v)
  {
    if v.List? {
      ScanFindsNonKeyword(v.items, 0, j);
    }
  }

  /** An odd-length array is never converted. */
  lemma PListToObjKeepsOddLists(v: Value)
    requires v.List? && |v.items| % 2 == 1
    ensures PListToObj(v) == Ok(v)
  {
  }

  /** A null key reached before any non-keyword makes the conversion throw. */
  lemma PListToObjNullKeyThrows(v: Value, j: nat)
    requires v.List? && |v.items| % 2 == 0 && j < |v.items| && j % 2 == 0
    requires v.items[j] == Nil
    requires forall k :: 0 <= k < j && k % 2 == 0 ==> KeyOf(v.items[k]).Keyword?
    ensures PListToObj(v) == Err(NullKeyError)
  {
    ScanFindsNonKeyword(v.items, 0, j);
  }

  /** The empty array is a plist with no keys. */
  lemma PListToObjEmpty()
    ensures PListToObj(List([])) == Ok(Obj([]))
  {
  }

  /** The key an even position contributes. */
  function KeyName(v: Value): string
    requires KeyOf(v).Keyword?
  {
    KeyOf(v).name
  }

  /** No later even position than `j` carries the same key. */
  ghost predicate LastKeyAt(items: seq<Value>, j: nat)
    requires j < |items| && j % 2 == 0
    requires forall k :: 0 <= k < |items| && k % 2 == 0 ==> KeyOf(items[k]).Keyword?
  {
    forall k :: j < k < |items| && k % 2 == 0 ==> KeyName(items[k]) != KeyName(items[j])
  }

  /** The hypotheses of the second loop from position `i` on: every even
      position is a keyword and every value converts. */
  ghost predicate Convertible(parent: Value, i: nat)
  {
    && parent.List? && |parent.items| % 2 == 0 && i % 2 == 0 && i <= |parent.items|
    && (forall j :: 0 <= j < |parent.items| && j % 2 == 0 ==> KeyOf(parent.items[j]).Keyword?)
    && (forall j :: i <= j < |parent.items| && j % 2 == 1 ==> PListToObj(parent.items[j]).Ok?)
  }

  /** One turn of the second loop. */
  lemma BuildObjStep(parent: Value, i: nat, acc: seq<Field>, val: Value)
    requires parent.List? && |parent.items| % 2 == 0 && i % 2 == 0 && i < |parent.items|
    requires forall j :: i <= j < |parent.items| && j % 2 == 0 ==> KeyOf(parent.items[j]).Keyword?
    requires PListToObj(parent.items[i + 1]) == Ok(val)
    ensures BuildObj(parent, i, acc) == BuildObj(parent, i + 2, Put(acc, KeyName(parent.items[i]), val))
  {
  }

  lemma {:induction false} BuildObjOk(parent: Value, i: nat, acc: seq<Field>)
    requires Convertible(parent, i)
    ensures BuildObj(parent, i, acc).Ok? && BuildObj(parent, i, acc).value.Obj?
    decreases |parent.items| - i
  {
    if i < |parent.items| {
      var acc' := Put(acc, KeyName(parent.items[i]), PListToObj(parent.items[i + 1]).value);
      BuildObjStep(parent, i, acc, PListToObj(parent.items[i + 1]).value);
      assert Convertible(parent, i + 2);
      BuildObjOk(parent, i + 2, acc');
    }
  }

  lemma {:induction false} BuildObjKeepsOthers(parent: Value, i: nat, acc: seq<Field>, k: string)
    requires Convertible(parent, i)
    requires forall j :: i <= j < |parent.items| && j % 2 == 0 ==> KeyName(parent.items[j]) != k
    ensures BuildObj(parent, i, acc).Ok? && BuildObj(parent, i, acc).value.Obj?
    ensures Lookup(BuildObj(parent, i, acc).value.fields, k) == Lookup(acc, k)
    decreases |parent.items| - i
  {
    if i < |parent.items| {
      var acc' := Put(acc, KeyName(parent.items[i]), PListToObj(parent.items[i + 1]).value);
      BuildObjStep(parent, i, acc, PListToObj(parent.items[i + 1]).value);
      assert Convertible(parent, i + 2);
      BuildObjKeepsOthers(parent, i + 2, acc', k);
    }
  }

  lemma {:induction false} BuildObjLastKey(parent: Value, i: nat, acc: seq<Field>, j: nat)
    requires Convertible(parent, i)
    requires i <= j < |parent.items| && j % 2 == 0 && LastKeyAt(parent.items, j)
    ensures BuildObj(parent, i, acc).Ok? && BuildObj(parent, i, acc).value.Obj?
    ensures Lookup(BuildObj(parent, i, acc).value.fields, KeyName(parent.items[j]))
         == Some(PListToObj(parent.items[j + 1]).value)
    decreases |parent.items| - i
  {
    var items := parent.items;
    var acc' := Put(acc, KeyName(items[i]), PListToObj(items[i + 1]).value);
    BuildObjStep(parent, i, acc, PListToObj(items[i + 1]).value);
    assert Convertible(parent, i + 2);
    if i == j {
      BuildObjKeepsOthers(parent, i + 2, acc', KeyName(items[j]));
    } else {
      BuildObjLastKey(parent, i + 2, acc', j);
    }
  }

  /** A plist becomes an object: the key of each even position, with its
      ':' stripped, maps to the converted value that follows its last
      occurrence. */
  lemma PListToObjKeyValue(v: Value, j: nat)
    requires v.List? && |v.items| % 2 == 0
    requires forall i :: 0 <= i < |v.items| && i % 2 == 0 ==> KeyOf(v.items[i]).Keyword?
    requires forall i :: 0 <= i < |v.items| && i % 2 == 1 ==> PListToObj(v.items[i]).Ok?
    requires j < |v.items| && j % 2 == 0 && LastKeyAt(v.items, j)
    ensures PListToObj(v).Ok? && PListToObj(v).value.Obj?
    ensures Lookup(PListToObj(v).value.fields, KeyName(v.items[j])) == Some(PListToObj(v.items[j + 1]).value)
  {
    ScanAllKeywords(v.items, 0);
    assert Convertible(v, 0);
    assert PListToObj(v) == BuildObj(v, 0, []);
    BuildObjLastKey(v, 0, [], j);
  }

  /** ... and no name other than those keys is a key of the object. */
  lemma PListToObjOnlyKeys(v: Value, k: string)
    requires v.List? && |v.items| % 2 == 0
    requires forall i :: 0 <= i < |v.items| && i % 2 == 0 ==> KeyOf(v.items[i]).Keyword?
    requires forall i :: 0 <= i < |v.items| && i % 2 == 1 ==> PListToObj(v.items[i]).Ok?
    requires forall i :: 0 <= i < |v.items| && i % 2 == 0 ==> KeyName(v.items[i]) != k
    ensures PListToObj(v).Ok? && PListToObj(v).value.Obj?
    ensures Lookup(PListToObj(v).value.fields, k) == None
  {
    ScanAllKeywords(v.items, 0);
    assert Convertible(v, 0);
    assert PListToObj(v) == BuildObj(v, 0, []);
    BuildObjKeepsOthers(v, 0, [], k);
  }

  lemma {:induction false} ScanAllKeywords(items: seq<Value>, i: nat)
    requires i % 2 == 0 && i <= |items| && |items| % 2 == 0
    requires forall j :: i <= j < |items| && j % 2 == 0 ==> KeyOf(items[j]).Keyword?
    ensures ScanKeys(items, i) == ScanKeyed
    decreases |items| - i
  {
    if i < |items| {
      ScanAllKeywords(items, i + 2);
    }
  }

  lemma {:induction false} FlattenPairs(parts: seq<seq<Value>>)
    requires forall i :: 0 <= i < |parts| ==> |parts[i]| == 2
    ensures |Flatten(parts)| == 2 * |parts|
    ensures forall i :: 0 <= i < |parts| ==>
      Flatten(parts)[2 * i] == parts[i][0] && Flatten(parts)[2 * i + 1] == parts[i][1]
  {
    if parts != [] {
      FlattenPairs(parts[1..]);
      forall i | 1 <= i < |parts|
        ensures Flatten(parts)[2 * i] == parts[i][0] && Flatten(parts)[2 * i + 1] == parts[i][1]
      {
        assert parts[1..][i - 1] == parts[i];
      }
    }
  }

  /** A plain object becomes a list twice as long alternating the keyword
      symbol ":key" and the converted value; an array is converted element by
      element; anything else is unchanged. */
  lemma ObjToPListShape(v: Value)
    ensures v.Obj? ==>
      && ObjToPList(v).List?
      && |ObjToPList(v).items| == 2 * |v.fields|
      && forall i :: 0 <= i < |v.fields| ==>
           && ObjToPList(v).items[2 * i] == Sym(":" + v.fields[i].key)
           && ObjToPList(v).items[2 * i + 1] == ObjToPList(v.fields[i].val)
    ensures v.List? ==>
      && ObjToPList(v).List?
      && |ObjToPList(v).items| == |v.items|
      && forall i :: 0 <= i < |v.items| ==> ObjToPList(v).items[i] == ObjToPList(v.items[i])
    ensures !v.Obj? && !v.List? ==> ObjToPList(v) == v
  {
    if v.Obj? {
      var fields := v.fields;
      FlattenPairs(seq(|fields|, i requires 0 <= i < |fields| =>
        [Sym(":" + fields[i].key), ObjToPList(fields[i].val)]));
    }
  }

  /* ---------------------------------------------------------------------
   * The round trip through the wire
   * ------------------------------------------------------------------- */

  /** What the peer's codec hands back for a term this side encoded: symbols
      come back as strings. */
  function ReadBack(v: Value): Value
  {
    match v
    case Sym(name) => Str(name)
    case List(items) => List(seq(|items|, i requires 0 <= i < |items| => ReadBack(items[i])))
    case _ => v
  }

  lemma ReadBackItems(items: seq<Value>)
    ensures ReadBack(List(items)).List?
    ensures |ReadBack(List(items)).items| == |items|
    ensures forall i :: 0 <= i < |items| ==> ReadBack(List(items)).items[i] == ReadBack(items[i])
  {
  }

  /** Plain objects with distinct keys whose values are such objects or
      scalars (null, numbers, strings). */
  ghost predicate IsTree(v: Value)
  {
    match v
    case Nil => true
    case Num(_) => true
    case Str(_) => true
    case Sym(_) => false
    case List(_) => false
    case Obj(fields) =>
      NoDup(Keys(fields)) && forall i :: 0 <= i < |fields| ==> IsTree(fields[i].val)
  }

  lemma ReadBackPlist(v: Value)
    requires v.Obj?
    ensures var u := ReadBack(ObjToPList(v));
      && u.List? && |u.items| == 2 * |v.fields|
      && forall i :: 0 <= i < |v.fields| ==>
           && u.items[2 * i] == Str(":" + v.fields[i].key)
           && u.items[2 * i + 1] == ReadBack(ObjToPList(v.fields[i].val))
  {
    ObjToPListShape(v);
  }

  /** The list a tree object turns into reads back as a plist whose keys
      are the object's keys. */
  lemma ReadBackKeys(v: Value)
    requires v.Obj?
    ensures var u := ReadBack(ObjToPList(v));
      && u.List? && |u.items| == 2 * |v.fields|
      && forall j :: 0 <= j < |u.items| && j % 2 == 0 ==> KeyOf(u.items[j]) == Keyword(v.fields[j / 2].key)
  {
    var u := ReadBack(ObjToPList(v));
    ReadBackPlist(v);
    forall j | 0 <= j < |u.items| && j % 2 == 0
      ensures KeyOf(u.items[j]) == Keyword(v.fields[j / 2].key)
    {
      var key := v.fields[j / 2].key;
      assert u.items[2 * (j / 2)] == Str(":" + key);
      assert (":" + key)[1..] == key;
    }
  }

  lemma {:induction false} BuildRoundTrip(v: Value, i: nat)
    requires v.Obj? && IsTree(v) && i <= |v.fields|
    requires var u := ReadBack(ObjToPList(v));
      && u.List? && |u.items| == 2 * |v.fields|
      && forall j :: 0 <= j < |u.items| && j % 2 == 0 ==> KeyOf(u.items[j]) == Keyword(v.fields[j / 2].key)
    ensures BuildObj(ReadBack(ObjToPList(v)), 2 * i, v.fields[..i]) == Ok(v)
    decreases v, 0, |v.fields| - i
  {
    var u := ReadBack(ObjToPList(v));
    var fields := v.fields;
    if i == |fields| {
      assert fields[..i] == fields;
    } else {
      var key, val := fields[i].key, fields[i].val;
      assert val < v;
      PListRoundTrip(val);
      ReadBackPlist(v);
      assert u.items[2 * i + 1] == ReadBack(ObjToPList(val));
      assert KeyName(u.items[2 * i]) == key;
      KeysPrefixMiss(fields, i);
      BuildObjAppends(u, fields, i);
      BuildRoundTrip(v, i + 1);
    }
  }

  lemma {:induction false} LookupMissesAbsentKey(fields: seq<Field>, key: string)
    requires forall j :: 0 <= j < |fields| ==> fields[j].key != key
    ensures Lookup(fields, key).None?
  {
    if fields != [] {
      LookupMissesAbsentKey(fields[1..], key);
    }
  }

  /** One turn of the second loop when the next key is new: the field is appended. */
  lemma BuildObjAppends(u: Value, fields: seq<Field>, i: nat)
    requires u.List? && |u.items| == 2 * |fields| && i < |fields|
    requires forall j :: 0 <= j < |u.items| && j % 2 == 0 ==> KeyOf(u.items[j]).Keyword?
    requires KeyName(u.items[2 * i]) == fields[i].key
    requires PListToObj(u.items[2 * i + 1]) == Ok(fields[i].val)
    requires Lookup(fields[..i], fields[i].key).None?
    ensures BuildObj(u, 2 * i, fields[..i]) == BuildObj(u, 2 * (i + 1), fields[..i + 1])
  {
    assert 2 * (i + 1) == 2 * i + 2;
    BuildObjStep(u, 2 * i, fields[..i], fields[i].val);
    PutAppends(fields[..i], fields[i]);
    assert fields[..i + 1] == fields[..i] + [fields[i]];
  }

  /** A field whose key is new goes last. */
  lemma PutAppends(prefix: seq<Field>, f: Field)
    requires Lookup(prefix, f.key).None?
    ensures Put(prefix, f.key, f.val) == prefix + [f]
  {
  }

  lemma KeysPrefixMiss(fields: seq<Field>, i: nat)
    requires i < |fields| && NoDup(Keys(fields))
    ensures Lookup(fields[..i], fields[i].key).None?
  {
    var ks := Keys(fields);
    var key := fields[i].key;
    var pre := fields[..i];
    forall j | 0 <= j < |pre| ensures pre[j].key != key {
      assert pre[j] == fields[j];
      assert ks[j] != ks[i];
    }
    LookupMissesAbsentKey(pre, key);
  }

  /** Objects with distinct keys whose values are objects or scalars survive
      a trip out through `tryObjToPList` and back through `tryPListToObj`. */
  lemma {:induction false} PListRoundTrip(v: Value)
    requires IsTree(v)
    ensures PListToObj(ReadBack(ObjToPList(v))) == Ok(v)
    decreases v, 1
  {
    if v.Obj? {
      var u := ReadBack(ObjToPList(v));
      ReadBackKeys(v);
      ScanAllKeywords(u.items, 0);
      assert PListToObj(u) == BuildObj(u, 0, []);
      BuildRoundTrip(v, 0);
      assert v.fields[..0] == [];
    }
  }

  /** The round trip does not extend to arrays: a list that happens to look
      like a plist comes back as an object. */
  lemma ListRoundTripFails()
    ensures PListToObj(ReadBack(ObjToPList(List([Str(":a"), Num(1)]))))
         == Ok(Obj([Field("a", Num(1))]))
  {
    var v := List([Str(":a"), Num(1)]);
    ObjToPListShape(v);
    assert ObjToPList(v) == v;
    assert ReadBack(v) == v;
    assert KeyOf(Str(":a")) == Keyword("a");
    assert ScanKeys(v.items, 2) == ScanKeyed;
  }
}
