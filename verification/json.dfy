/** A JSON document as an algebraic value, and the strict typed lookups the
    activity performs on it (the `getJSONArray`, `getJSONObject`, `getString`,
    `getLong` and `getInt` accessors of org.json). Every lookup either yields a
    value of the requested type or fails with the reason org.json would put in
    its `JSONException`. */
module Json {
  import opened Wrappers
  import opened JavaTypes

  datatype Json =
    | JNull
    | JBool(b: bool)
    | JInt(i: int)          // a number written without fraction or exponent
    | JReal(r: real)        // any other number
    | JString(s: string)
    | JArray(elems: seq<Json>)
    | JObject(members: map<string, Json>)

  /** Why a lookup (or the parse feeding it) raised a `JSONException`. */
  datatype JsonError =
    | Unparsable                    // the text is not JSON at all
    | NotAnObject                   // the text is JSON, but not an object
    | Missing(key: string)          // no member of that name
    | WrongType(key: string)        // a member of that name, of another type
    | NoElement(index: int)         // array index out of range
    | WrongElementType(index: int)  // array element of another type

  /** The failure of a member lookup whose value has the wrong type. */
  function Mismatch<T>(o: map<string, Json>, key: string): Result<T, JsonError> {
    if key in o then Failure(WrongType(key)) else Failure(Missing(key))
  }

  function GetArray(o: map<string, Json>, key: string): (r: Result<seq<Json>, JsonError>)
    ensures r.Success? <==> key in o && o[key].JArray?
    ensures r.Success? ==> o[key] == JArray(r.value)
  {
    if key in o && o[key].JArray? then Success(o[key].elems) else Mismatch(o, key)
  }

  function GetObject(o: map<string, Json>, key: string): (r: Result<map<string, Json>, JsonError>)
    ensures r.Success? <==> key in o && o[key].JObject?
    ensures r.Success? ==> o[key] == JObject(r.value)
  {
    if key in o && o[key].JObject? then Success(o[key].members) else Mismatch(o, key)
  }

  function GetString(o: map<string, Json>, key: string): (r: Result<string, JsonError>)
    ensures r.Success? <==> key in o && o[key].JString?
    ensures r.Success? ==> o[key] == JString(r.value)
  {
    if key in o && o[key].JString? then Success(o[key].s) else Mismatch(o, key)
  }

  /** A member that is an integer fitting in a Java `long`. */
  function GetLong(o: map<string, Json>, key: string): (r: Result<Int64, JsonError>)
    ensures r.Success? <==> key in o && o[key].JInt? && FitsInt64(o[key].i)
    ensures r.Success? ==> o[key] == JInt(r.value)
  {
    if key in o && o[key].JInt? && FitsInt64(o[key].i) then Success(o[key].i as Int64) else Mismatch(o, key)
  }

  /** A member that is an integer fitting in a Java `int`. */
  function GetInt(o: map<string, Json>, key: string): (r: Result<Int32, JsonError>)
    ensures r.Success? <==> key in o && o[key].JInt? && FitsInt32(o[key].i)
    ensures r.Success? ==> o[key] == JInt(r.value)
  {
    if key in o && o[key].JInt? && FitsInt32(o[key].i) then Success(o[key].i as Int32) else Mismatch(o, key)
  }

  /** `JSONArray.getJSONObject(index)`. */
  function ElementObject(a: seq<Json>, index: int): (r: Result<map<string, Json>, JsonError>)
    ensures r.Success? <==> 0 <= index < |a| && a[index].JObject?
    ensures r.Success? ==> a[index] == JObject(r.value)
  {
    if !(0 <= index < |a|) then Failure(NoElement(index))
    else if a[index].JObject? then Success(a[index].members)
    else Failure(WrongElementType(index))
  }
}
