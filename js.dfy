/** JavaScript values as the server and the admin front end see them: JSON
    values plus `undefined` and MongoDB's ObjectId, JavaScript truthiness, and
    plain objects as ordered association lists with the insertion order that
    `Object.keys` and `Object.entries` report. */
module Js {
  import opened Strings

  datatype Option<+T> = None | Some(value: T)

  datatype Json =
    | JUndefined
    | JNull
    | JBool(b: bool)
    | JNum(n: int)
    | JStr(s: string)
    | JArr(items: seq<Json>)
    | JObj(fields: seq<(string, Json)>)
      /** A MongoDB ObjectId, held as its lower-case hexadecimal text. */
    | JObjectId(hex: string)

  /** JavaScript's `Boolean(v)`: false exactly for undefined, null, false, 0 and "". */
  predicate Truthy(v: Json) {
    match v
    case JUndefined => false
    case JNull => false
    case JBool(b) => b
    case JNum(n) => n != 0
    case JStr(s) => s != ""
    case _ => true
  }

  /** A plain object: its own enumerable properties in insertion order. */
  type Assoc = seq<(string, Json)>

  function Keys(a: Assoc): (ks: seq<string>)
    ensures |ks| == |a|
    ensures forall i :: 0 <= i < |a| ==> ks[i] == a[i].0
  {
    if a == [] then [] else [a[0].0] + Keys(a[1..])
  }

  /** An object never holds one key twice. */
  predicate UniqueKeys(a: Assoc) {
    forall i, j :: 0 <= i < j < |a| ==> a[i].0 != a[j].0
  }

  /** The value stored under `k`, if any (the first entry, which for an
      object is the only one). */
  function Get(a: Assoc, k: string): (r: Option<Json>)
    ensures r.None? <==> k !in Keys(a)
    ensures r.Some? ==> (k, r.value) in a
  {
    if a == [] then None
    else if a[0].0 == k then Some(a[0].1)
    else Get(a[1..], k)
  }

  lemma GetCons(x: (string, Json), a: Assoc, k: string)
    ensures Get([x] + a, k) == if x.0 == k then Some(x.1) else Get(a, k)
  {
    assert ([x] + a)[1..] == a;
  }

  lemma {:induction false} GetAppend(a: Assoc, x: (string, Json), k: string)
    ensures Get(a + [x], k) == if k in Keys(a) then Get(a, k) else if x.0 == k then Some(x.1) else None
  {
    if a != [] {
      assert (a + [x])[1..] == a[1..] + [x];
      GetAppend(a[1..], x, k);
      assert Keys(a) == [a[0].0] + Keys(a[1..]);
    }
  }

  lemma {:induction false} GetConcat(a: Assoc, b: Assoc, k: string)
    ensures Get(a + b, k) == if k in Keys(a) then Get(a, k) else Get(b, k)
  {
    if a != [] {
      assert (a + b)[1..] == a[1..] + b;
      GetConcat(a[1..], b, k);
      assert Keys(a) == [a[0].0] + Keys(a[1..]);
    } else {
      assert a + b == b;
    }
  }

  /** In an object the lookup finds the one entry with that key. */
  lemma {:induction false} GetUnique(a: Assoc, i: int)
    requires UniqueKeys(a) && 0 <= i < |a|
    ensures Get(a, a[i].0) == Some(a[i].1)
  {
    if i > 0 {
      GetUnique(a[1..], i - 1);
    }
  }

  /** Property access `a[k]`: undefined when the key is missing. */
  function Prop(a: Assoc, k: string): Json {
    match Get(a, k)
    case Some(v) => v
    case None => JUndefined
  }

  /** `a[k] = v`: an existing key keeps its position, a new key goes last. */
  function Assign(a: Assoc, k: string, v: Json): (r: Assoc)
    ensures Get(r, k) == Some(v)
    ensures forall k' :: k' != k ==> Get(r, k') == Get(a, k')
  {
    if a == [] then [(k, v)]
    else if a[0].0 == k then [(k, v)] + a[1..]
    else [a[0]] + Assign(a[1..], k, v)
  }

  /** Assigning keeps the key order: an existing key stays where it is. */
  lemma {:induction false} AssignKeys(a: Assoc, k: string, v: Json)
    ensures Keys(Assign(a, k, v)) == if k in Keys(a) then Keys(a) else Keys(a) + [k]
  {
    if a != [] {
      AssignKeys(a[1..], k, v);
      assert Keys(a) == [a[0].0] + Keys(a[1..]);
      if a[0].0 != k {
        assert Keys(Assign(a, k, v)) == [a[0].0] + Keys(Assign(a[1..], k, v));
      } else {
        assert Keys(Assign(a, k, v)) == [k] + Keys(a[1..]);
      }
    }
  }

  lemma UniqueCons(x: (string, Json), t: Assoc)
    requires UniqueKeys(t) && x.0 !in Keys(t)
    ensures UniqueKeys([x] + t)
  {
    var r := [x] + t;
    forall i, j | 0 <= i < j < |r| ensures r[i].0 != r[j].0 {
      assert r[j] == t[j - 1];
      if i > 0 {
        assert r[i] == t[i - 1];
      } else {
        assert Keys(t)[j - 1] == t[j - 1].0;
      }
    }
  }

  lemma UniqueTail(a: Assoc)
    requires UniqueKeys(a) && a != []
    ensures UniqueKeys(a[1..]) && a[0].0 !in Keys(a[1..])
  {
    var t := a[1..];
    forall i | 0 <= i < |t| ensures Keys(t)[i] != a[0].0 {
      assert t[i] == a[i + 1];
    }
  }

  lemma {:induction false} AssignUnique(a: Assoc, k: string, v: Json)
    requires UniqueKeys(a)
    ensures UniqueKeys(Assign(a, k, v))
  {
    if a != [] {
      UniqueTail(a);
      if a[0].0 == k {
        UniqueCons((k, v), a[1..]);
      } else {
        var t := Assign(a[1..], k, v);
        AssignUnique(a[1..], k, v);
        AssignKeys(a[1..], k, v);
        UniqueCons(a[0], t);
      }
    }
  }

  /** `{ ...a, ...b }`: the entries of `b` assigned one by one over `a`. */
  function Spread(a: Assoc, b: Assoc): Assoc
    decreases |b|
  {
    if b == [] then a else Spread(Assign(a, b[0].0, b[0].1), b[1..])
  }

  /** After a spread a key reads from `b` when `b` has it, and from `a` otherwise. */
  lemma {:induction false} SpreadGet(a: Assoc, b: Assoc, k: string)
    requires UniqueKeys(b)
    ensures Get(Spread(a, b), k) == if k in Keys(b) then Get(b, k) else Get(a, k)
    decreases |b|
  {
    if b != [] {
      SpreadGet(Assign(a, b[0].0, b[0].1), b[1..], k);
      assert Keys(b) == [b[0].0] + Keys(b[1..]);
    }
  }

  lemma {:induction false} SpreadUnique(a: Assoc, b: Assoc)
    requires UniqueKeys(a)
    ensures UniqueKeys(Spread(a, b))
    decreases |b|
  {
    if b != [] {
      AssignUnique(a, b[0].0, b[0].1);
      SpreadUnique(Assign(a, b[0].0, b[0].1), b[1..]);
    }
  }

  /** JavaScript's `String(v)`. Arrays join their elements with commas,
      writing null and undefined elements as the empty string. */
  function ToJsString(v: Json): string {
    match v
    case JUndefined => "undefined"
    case JNull => "null"
    case JBool(b) => if b then "true" else "false"
    case JNum(n) => IntToString(n)
    case JStr(s) => s
    case JArr(items) => JoinItems(items)
    case JObj(_) => "[object Object]"
    case JObjectId(hex) => hex
  }

  function JoinItems(items: seq<Json>): string
    decreases items
  {
    if items == [] then ""
    else
      var first := if items[0].JNull? || items[0].JUndefined? then "" else ToJsString(items[0]);
      if |items| == 1 then first else first + "," + JoinItems(items[1..])
  }

  /** `v ?? d`: the default only for null and undefined. */
  function Coalesce(v: Json, d: Json): (r: Json)
    ensures (v.JNull? || v.JUndefined?) ==> r == d
    ensures !(v.JNull? || v.JUndefined?) ==> r == v
  {
    if v.JNull? || v.JUndefined? then d else v
  }

  /** `v || d`. */
  function Or(v: Json, d: Json): (r: Json)
    ensures Truthy(v) ==> r == v
    ensures !Truthy(v) ==> r == d
  {
    if Truthy(v) then v else d
  }

  /** `delete a[k]`. */
  function Remove(a: Assoc, k: string): (r: Assoc)
    ensures Get(r, k) == None
    ensures forall k' :: k' != k ==> Get(r, k') == Get(a, k')
  {
    if a == [] then []
    else if a[0].0 == k then Remove(a[1..], k)
    else [a[0]] + Remove(a[1..], k)
  }

  /** `v.k` on a value that is not null or undefined. Only objects are given
      named properties here; the `length` of arrays and strings is `Length`. */
  function Member(v: Json, k: string): (r: Json)
    ensures !v.JObj? ==> r == JUndefined
    ensures v.JObj? ==> r == Prop(v.fields, k)
  {
    if v.JObj? then Prop(v.fields, k) else JUndefined
  }

  /** `v.length`. */
  function Length(v: Json): (r: Json)
    ensures v.JArr? ==> r == JNum(|v.items|)
    ensures v.JStr? ==> r == JNum(|v.s|)
    ensures !(v.JArr? || v.JStr? || v.JObj?) ==> r == JUndefined
  {
    match v
    case JArr(items) => JNum(|items|)
    case JStr(s) => JNum(|s|)
    case JObj(fields) => Prop(fields, "length")
    case _ => JUndefined
  }

  /** `v && v.length`, as a condition. */
  predicate NonEmpty(v: Json) {
    Truthy(v) && Truthy(Length(v))
  }

  lemma NonEmptyArray(items: seq<Json>)
    ensures NonEmpty(JArr(items)) <==> items != []
  {
  }

  /** `delete v.k`: objects lose the property; on other values it does nothing. */
  function DeleteMember(v: Json, k: string): Json {
    if v.JObj? then JObj(Remove(v.fields, k)) else v
  }

  lemma DeleteMemberGet(v: Json, k: string, k': string)
    ensures Truthy(DeleteMember(v, k)) == Truthy(v)
    ensures !v.JObj? ==> DeleteMember(v, k) == v
    ensures v.JObj? ==> DeleteMember(v, k).JObj? && Get(DeleteMember(v, k).fields, k) == None
    ensures k' != k ==> Member(DeleteMember(v, k), k') == Member(v, k')
  {
  }

  /** `v.k = x` on an object; other values are left as they are. */
  function SetMember(v: Json, k: string, x: Json): Json {
    if v.JObj? then JObj(Assign(v.fields, k, x)) else v
  }

  lemma SetMemberGet(v: Json, k: string, x: Json, k': string)
    ensures Truthy(SetMember(v, k, x)) == Truthy(v)
    ensures !v.JObj? ==> SetMember(v, k, x) == v
    ensures v.JObj? ==> Member(SetMember(v, k, x), k) == x
    ensures k' != k ==> Member(SetMember(v, k, x), k') == Member(v, k')
  {
  }

  /** The entries `{ ...v }` copies: an object's own properties, an array's or
      a string's elements under their indices, and nothing for other values. */
  function OwnEntries(v: Json): (r: Assoc)
    ensures v.JObj? ==> r == v.fields
    ensures !(v.JObj? || v.JArr? || v.JStr?) ==> r == []
  {
    match v
    case JObj(fields) => fields
    case JArr(items) => IndexedEntries(items, 0)
    case JStr(s) => IndexedEntries(seq(|s|, i requires 0 <= i < |s| => JStr([s[i]])), 0)
    case _ => []
  }

  function IndexedEntries(items: seq<Json>, from: nat): (r: Assoc)
    ensures |r| == |items|
    ensures forall i :: 0 <= i < |items| ==> r[i] == (NatToString(from + i), items[i])
    decreases |items|
  {
    if items == [] then [] else [(NatToString(from), items[0])] + IndexedEntries(items[1..], from + 1)
  }
}
