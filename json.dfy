/**
 * The vert.x JSON objects that carry requests, replies and events, with the
 * reading rules of their typed getters: a missing key or a JSON null reads
 * as `null`, and a value of the wrong type raises an exception.
 */
module Json {
  import opened Optional

  datatype JsonValue =
    | JNull
    | JBool(b: bool)
    | JNumber(n: int)
    | JString(s: string)
    | JArray(items: seq<JsonValue>)
    | JObject(fields: map<string, JsonValue>)

  /** The fields of one JSON object. */
  type Fields = map<string, JsonValue>

  /** What a typed getter does: return a value, or throw (a cast or a null unboxing). */
  datatype Read<+T> = Value(v: T) | Thrown

  /** `getString(key)`: `null` for a missing key or JSON null, a throw for a non-string. */
  function GetString(o: Fields, key: string): (r: Read<Option<string>>)
    ensures r == Value(None) <==> key !in o || o[key] == JNull
    ensures forall s :: r == Value(Some(s)) <==> key in o && o[key] == JString(s)
  {
    if key !in o then Value(None)
    else match o[key]
      case JNull => Value(None)
      case JString(s) => Value(Some(s))
      case _ => Thrown
  }

  /** `getString(key, def)`: like `getString(key)` with `def` in place of `null`. */
  function GetStringOr(o: Fields, key: string, def: string): (r: Read<string>)
    ensures r.Thrown? <==> GetString(o, key).Thrown?
    ensures GetString(o, key) == Value(None) ==> r == Value(def)
  {
    match GetString(o, key)
    case Thrown => Thrown
    case Value(None) => Value(def)
    case Value(Some(s)) => Value(s)
  }

  /** `getArray(key)` used as a collection: `null` cannot be iterated, so both a missing key and a non-array throw. */
  function GetArray(o: Fields, key: string): (r: Read<seq<JsonValue>>)
    ensures r.Value? <==> key in o && o[key].JArray?
  {
    if key in o && o[key].JArray? then Value(o[key].items) else Thrown
  }

  /** `containsField(key) && getBoolean(key)`: a present JSON null or non-boolean throws. */
  function FlagSet(o: Fields, key: string): (r: Read<bool>)
    ensures r == Value(true) <==> key in o && o[key] == JBool(true)
    ensures r == Value(false) <==> key !in o || o[key] == JBool(false)
  {
    if key !in o then Value(false)
    else match o[key]
      case JBool(b) => Value(b)
      case _ => Thrown
  }

  /** A vert.x `JsonObject` filled in place. */
  class JsonObject {
    var fields: Fields

    constructor ()
      ensures fields == map[]
    {
      fields := map[];
    }

    method PutString(key: string, value: string)
      modifies this
      ensures fields == old(fields)[key := JString(value)]
    {
      fields := fields[key := JString(value)];
    }

    method PutBoolean(key: string, value: bool)
      modifies this
      ensures fields == old(fields)[key := JBool(value)]
    {
      fields := fields[key := JBool(value)];
    }
  }
}
