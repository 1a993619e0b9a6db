/**
 * The pre-parsed view of a JSON text that the relay works on: what
 * `serde_json::from_str::<Value>` yields, together with the accessors the
 * relay uses on it (`Value::get` with a string key, `as_str`) and the two
 * derived `Deserialize` shapes of src/ws.rs, `Hello` and `ForwardMsg`.
 */
module Json {
  import opened Wrappers

  /** A JSON value. An object is a map, so a text with a repeated key has
      already been collapsed by the parser. Numbers are kept as their text:
      the relay never reads one. */
  datatype Json =
    | Null
    | Bool(b: bool)
    | Number(text: string)
    | Str(s: string)
    | Array(items: seq<Json>)
    | Object(fields: map<string, Json>)

  /** `v.get(key)`: a member of an object; `None` for a missing key and for
      every value that is not an object. */
  function Get(v: Json, key: string): (r: Option<Json>)
    ensures r.Some? <==> v.Object? && key in v.fields
    ensures r.Some? ==> r.value == v.fields[key]
  {
    match v
    case Object(fields) => if key in fields then Some(fields[key]) else None
    case _ => None
  }

  /** `v.get(key).and_then(|x| x.as_str())`: the member as a string, if it
      is present and is a string. */
  function StrField(v: Json, key: string): (r: Option<string>)
    ensures r.Some? <==> Get(v, key).Some? && Get(v, key).value.Str?
    ensures r.Some? ==> v.fields[key] == Str(r.value)
  {
    match Get(v, key)
    case Some(Str(s)) => Some(s)
    case _ => None
  }

  /** `v.get("type").and_then(|t| t.as_str())`, the discriminator of an
      envelope. */
  function Kind(v: Json): (r: Option<string>)
    ensures r.Some? <==> v.Object? && "type" in v.fields && v.fields["type"].Str?
    ensures r.Some? ==> v.fields["type"] == Str(r.value)
  {
    StrField(v, "type")
  }

  /** The `Hello` struct of src/ws.rs; `kind` is the Rust field `r#type`. */
  datatype Hello = Hello(kind: string, username: string, token: string)

  /** `serde_json::from_str::<Hello>` on an already parsed text. A derived
      struct deserialiser accepts an object with the three members as
      strings (other members are ignored), and also an array of exactly
      three strings, taken in field order. Anything else fails. */
  function DecodeHello(v: Json): (r: Option<Hello>)
    ensures r.Some? && v.Object? ==>
      && StrField(v, "type") == Some(r.value.kind)
      && StrField(v, "username") == Some(r.value.username)
      && StrField(v, "token") == Some(r.value.token)
    ensures r.Some? ==> v.Object? || v.Array?
    ensures v.Object? ==>
      (r.Some? <==> StrField(v, "type").Some? && StrField(v, "username").Some? && StrField(v, "token").Some?)
    ensures v.Array? ==>
      (r.Some? <==> |v.items| == 3 && v.items[0].Str? && v.items[1].Str? && v.items[2].Str?)
    ensures r.Some? && v.Array? ==> r.value == Hello(v.items[0].s, v.items[1].s, v.items[2].s)
  {
    match v
    case Object(_) =>
      (match (StrField(v, "type"), StrField(v, "username"), StrField(v, "token"))
       case (Some(k), Some(u), Some(t)) => Some(Hello(k, u, t))
       case _ => None)
    case Array(items) =>
      if |items| == 3 && items[0].Str? && items[1].Str? && items[2].Str?
      then Some(Hello(items[0].s, items[1].s, items[2].s))
      else None
    case _ => None
  }

  /** The `ForwardMsg` struct of src/ws.rs; `kind` is the Rust field `r#type`. */
  datatype ForwardMsg = ForwardMsg(
    kind: string,
    from: string,
    to: Option<string>,
    data: Option<string>,
    iv: Option<string>,
    cid: Option<string>)

  /** Decoding of an `Option<String>` field: `Some(None)` when the member is
      absent or null, `Some(Some(s))` for a string, `None` (a decode error)
      for any other value. */
  function OptionalStr(fields: map<string, Json>, key: string): (r: Option<Option<string>>)
    ensures r.None? <==> key in fields && !fields[key].Null? && !fields[key].Str?
    ensures r == Some(None) <==> key !in fields || fields[key].Null?
    ensures key in fields && fields[key].Str? ==> r == Some(Some(fields[key].s))
  {
    if key !in fields then Some(None)
    else match fields[key]
      case Null => Some(None)
      case Str(s) => Some(Some(s))
      case _ => None
  }

  /** `serde_json::from_value::<ForwardMsg>` on an object: `type` and `from`
      must be strings, the four optional members absent, null or strings.
      The relay applies it only to objects, so the array form of the derived
      deserialiser is not needed here. */
  function DecodeForwardMsg(fields: map<string, Json>): (r: Option<ForwardMsg>)
    ensures r.Some? <==>
      && StrField(Object(fields), "type").Some?
      && StrField(Object(fields), "from").Some?
      && OptionalStr(fields, "to").Some?
      && OptionalStr(fields, "data").Some?
      && OptionalStr(fields, "iv").Some?
      && OptionalStr(fields, "cid").Some?
    ensures r.Some? ==>
      && fields["from"] == Str(r.value.from)
      && Some(r.value.to) == OptionalStr(fields, "to")
  {
    var v := Object(fields);
    match (StrField(v, "type"), StrField(v, "from"),
           OptionalStr(fields, "to"), OptionalStr(fields, "data"),
           OptionalStr(fields, "iv"), OptionalStr(fields, "cid"))
    case (Some(k), Some(f), Some(t), Some(d), Some(i), Some(c)) => Some(ForwardMsg(k, f, t, d, i, c))
    case _ => None
  }
}
