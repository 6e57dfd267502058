/** Parsed JSON documents, and the JavaScript property reads the core makes
    on them (`a.b`, `a?.b`, `a?.[0]`) and the truthiness tests it applies
    to what it reads. An absent property (`undefined`) is `None`. */
module Json {
  import opened Types
  import opened Text

  datatype Json =
    | JNull
    | JBool(b: bool)
    | JNum(n: int)
    | JStr(s: string)
    | JArr(items: seq<Json>)
    | JObj(fields: map<string, Json>)

  /** The body of an HTTP response as `response.json()` sees it: a parsed
      document, or text that is not JSON, which makes `json()` throw with
      the runtime's own message. */
  datatype Body = Parsed(doc: Json) | Unparsable(error: string)

  /** `v?.key`: undefined when `v` is undefined or null, or has no such own
      property (strings, numbers, booleans and arrays have none of the
      names the core reads). */
  function Prop(v: Option<Json>, key: string): (r: Option<Json>)
    ensures r.Some? <==> v.Some? && v.value.JObj? && key in v.value.fields
  {
    if v.Some? && v.value.JObj? && key in v.value.fields then Some(v.value.fields[key]) else None
  }

  /** `v?.[0]`: the first element of an array, the first character of a
      string, or an object's property "0". */
  function First(v: Option<Json>): (r: Option<Json>)
    ensures v.Some? && v.value.JArr? && v.value.items != [] ==> r == Some(v.value.items[0])
    ensures v.None? || v.value.JNull? || v.value.JNum? || v.value.JBool? ==> r.None?
  {
    if v.None? then None
    else
      match v.value
      case JArr(items) => if items != [] then Some(items[0]) else None
      case JStr(s) => if s != "" then Some(JStr([s[0]])) else None
      case JObj(fields) => if "0" in fields then Some(fields["0"]) else None
      case _ => None
  }

  /** JavaScript truthiness of a value read from a document. */
  predicate IsTruthy(v: Option<Json>)
  {
    match v
    case None => false
    case Some(j) =>
      match j
      case JNull => false
      case JBool(b) => b
      case JNum(n) => n != 0
      case JStr(s) => s != ""
      case JArr(_) => true
      case JObj(_) => true
  }

  /** The value of `x || fallback` for a string fallback, when the value
      read may be any document. */
  datatype Read = StringValue(s: string) | OtherValue(j: Json)

  function OrElse(v: Option<Json>, fallback: string): (r: Read)
    ensures !IsTruthy(v) ==> r == StringValue(fallback)
    ensures IsTruthy(v) && v.value.JStr? ==> r == StringValue(v.value.s) && r.s != ""
    ensures r.OtherValue? <==> IsTruthy(v) && !v.value.JStr?
  {
    if !IsTruthy(v) then StringValue(fallback)
    else if v.value.JStr? then StringValue(v.value.s)
    else OtherValue(v.value)
  }

  /** `String(v)` for a parsed value, as `new Error(v)` and template
      literals apply it: arrays join their elements with commas (a null
      element as the empty string), objects give "[object Object]". */
  function JsString(v: Json): string
    decreases v, 1
  {
    match v
    case JNull => "null"
    case JBool(b) => if b then "true" else "false"
    case JNum(n) => if n < 0 then "-" + NatToString(-n) else NatToString(n)
    case JStr(s) => s
    case JArr(_) => JoinFrom(v, 0)
    case JObj(_) => "[object Object]"
  }

  /** `join(',')` of the elements of an array from position `i` on. */
  function JoinFrom(arr: Json, i: nat): string
    requires arr.JArr? && i <= |arr.items|
    decreases arr, 0, |arr.items| - i
  {
    if i == |arr.items| then ""
    else
      var e := arr.items[i];
      assert e in arr.items;
      (if i > 0 then "," else "") + (if e.JNull? then "" else JsString(e)) + JoinFrom(arr, i + 1)
  }

  /** A positive number reads back as itself, in decimal without a
      leading zero. */
  lemma JsStringOfPositive(n: int)
    requires n > 0
    ensures var t := JsString(JNum(n));
            && (forall k | 0 <= k < |t| :: '0' <= t[k] <= '9')
            && DigitsValue(t) == n && t[0] != '0'
  {
    NatToStringValue(n);
    assert JsString(JNum(n)) == NatToString(n);
  }

  /** A negative number reads back as a minus sign and its magnitude. */
  lemma JsStringOfNegative(n: int)
    requires n < 0
    ensures var t := JsString(JNum(n));
            && |t| >= 2 && t[0] == '-'
            && (forall k | 1 <= k < |t| :: '0' <= t[k] <= '9')
            && DigitsValue(t[1..]) == -n
  {
    var u := NatToString(-n);
    NatToStringValue(-n);
    assert JsString(JNum(n)) == "-" + u;
    assert ("-" + u)[1..] == u;
  }

  /** The outcome of a `fetch`: it threw (network failure), or a response
      arrived with its `ok` flag, status, status text and body. */
  datatype Fetch = Unreachable(error: string) | Answered(ok: bool, status: nat, statusText: string, body: Body)

  /** V8's message for a property read on null or undefined. */
  function ReadError(onNull: bool, key: string): string
  {
    "Cannot read properties of " + (if onNull then "null" else "undefined") + " (reading '" + key + "')"
  }

  /** The result of a plain member chain `v.k1.k2...`: it throws as soon as
      it reads a property of undefined or null, and otherwise yields the
      last value read, which may be undefined. */
  datatype Access = Crash | Got(value: Option<Json>)

  function Member(v: Option<Json>, keys: seq<string>): (r: Access)
    ensures keys == [] ==> r == Got(v)
    ensures keys != [] && (v.None? || v.value.JNull?) ==> r == Crash
    decreases |keys|
  {
    if keys == [] then Got(v)
    else if v.None? || v.value.JNull? then Crash
    else Member(Prop(v, keys[0]), keys[1..])
  }

  /** The string a member chain yields, as a record field that the model
      keeps as a string: anything but a string is kept as the empty
      string. */
  function StringOf(v: Option<Json>): string
  {
    if v.Some? && v.value.JStr? then v.value.s else ""
  }

  /** The document in which `keys` lead, object by object, to `leaf`. */
  function Nest(keys: seq<string>, leaf: Json): Json
  {
    if keys == [] then leaf else JObj(map[keys[0] := Nest(keys[1..], leaf)])
  }

  /** A member chain along a path that is present reads its leaf. */
  lemma {:induction false} MemberOfNest(keys: seq<string>, leaf: Json)
    ensures Member(Some(Nest(keys, leaf)), keys) == Got(Some(leaf))
  {
    if keys != [] {
      MemberOfNest(keys[1..], leaf);
    }
  }

  /** Reading one level further than a present path stops at undefined;
      reading two levels further throws. */
  lemma MemberPastLeaf(keys: seq<string>, k1: string, k2: string)
    ensures Member(Some(Nest(keys, JNull)), keys + [k1]) == Crash
    ensures Member(Some(Nest(keys, JObj(map[]))), keys + [k1]) == Got(None)
    ensures Member(Some(Nest(keys, JObj(map[]))), keys + [k1, k2]) == Crash
  {
    MemberAppend(Some(Nest(keys, JNull)), keys, [k1]);
    MemberAppend(Some(Nest(keys, JObj(map[]))), keys, [k1]);
    MemberAppend(Some(Nest(keys, JObj(map[]))), keys, [k1, k2]);
    MemberOfNest(keys, JNull);
    MemberOfNest(keys, JObj(map[]));
  }

  /** A chain of two parts reads the second from what the first yields. */
  lemma {:induction false} MemberAppend(v: Option<Json>, a: seq<string>, b: seq<string>)
    ensures Member(v, a + b) == (match Member(v, a) case Crash => Crash case Got(w) => Member(w, b))
    decreases |a|
  {
    if a != [] {
      assert (a + b)[0] == a[0] && (a + b)[1..] == a[1..] + b;
      MemberAppend(Prop(v, a[0]), a[1..], b);
    } else {
      assert a + b == b;
    }
  }
}
