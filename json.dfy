/**
 * The JSON documents the Twitter client reads, and the typed lookups of
 * `org.json` (`getString`, `getLong`, `getInt`, `getJSONObject`,
 * `getJSONArray`, `has`). Here a lookup fails with a `JSONException` when
 * the key is absent or its value is not of the kind asked for. The library's
 * coercions are not modelled: it turns any present value into text for
 * `getString` and reads numeric strings for `getLong`/`getInt`. Numbers are
 * integers; a number outside the `long` range, which the library holds as a
 * `double` and narrows by saturation, is narrowed here by wrapping.
 */
module Json {
  import opened JavaInt

  datatype Json =
    | JObject(fields: map<string, Json>)
    | JArray(items: seq<Json>)
    | JString(str: string)
    | JNumber(num: int)
    | JBool(b: bool)
    | JNull

  type JsonObject = map<string, Json>

  /** Why a lookup threw `JSONException`. */
  datatype JsonError =
    | NotFound(key: string)       // the object has no value for `key`
    | WrongKind(key: string)      // the value at `key` is not of the kind asked for
    | NotAnObjectAt(index: nat)   // the array element at `index` is not an object

  /** The value of a call that can throw `JSONException`. */
  datatype Result<+T> = Ok(value: T) | Err(error: JsonError) {
    predicate IsFailure() { Err? }

    function PropagateFailure<U>(): Result<U>
      requires Err?
    {
      Err(error)
    }

    function Extract(): T
      requires Ok?
    {
      value
    }
  }

  /** The failure a lookup of `key` in `o` throws when the value is not of the kind wanted. */
  function Missing(o: JsonObject, key: string): JsonError
  {
    if key in o then WrongKind(key) else NotFound(key)
  }

  /** `JSONObject.has(key)`. */
  predicate Has(o: JsonObject, key: string)
  {
    key in o
  }

  /** `JSONObject.getString(key)`, restricted to string values. */
  function GetString(o: JsonObject, key: string): (r: Result<string>)
    ensures r.Ok? <==> key in o && o[key].JString?
    ensures r.Ok? ==> r.value == o[key].str
    ensures r.Err? ==> r.error == Missing(o, key)
  {
    if key in o && o[key].JString? then Ok(o[key].str) else Err(Missing(o, key))
  }

  /** `JSONObject.getLong(key)`: a number, narrowed to a `long` by wrapping. */
  function GetLong(o: JsonObject, key: string): (r: Result<Int64>)
    ensures r.Ok? <==> key in o && o[key].JNumber?
    ensures r.Ok? ==> r.value == Wrap64(o[key].num)
    ensures r.Ok? && InLong(o[key].num) ==> r.value == o[key].num
    ensures r.Err? ==> r.error == Missing(o, key)
  {
    if key in o && o[key].JNumber? then Ok(Wrap64(o[key].num)) else Err(Missing(o, key))
  }

  /** `JSONObject.getInt(key)`: a number, narrowed to an `int` by wrapping. */
  function GetInt(o: JsonObject, key: string): (r: Result<Int32>)
    ensures r.Ok? <==> key in o && o[key].JNumber?
    ensures r.Ok? ==> r.value == Wrap32(o[key].num)
    ensures r.Ok? && InInt(o[key].num) ==> r.value == o[key].num
    ensures r.Err? ==> r.error == Missing(o, key)
  {
    if key in o && o[key].JNumber? then Ok(Wrap32(o[key].num)) else Err(Missing(o, key))
  }

  /** `JSONObject.getJSONObject(key)`. */
  function GetObject(o: JsonObject, key: string): (r: Result<JsonObject>)
    ensures r.Ok? <==> key in o && o[key].JObject?
    ensures r.Ok? ==> r.value == o[key].fields
    ensures r.Err? ==> r.error == Missing(o, key)
  {
    if key in o && o[key].JObject? then Ok(o[key].fields) else Err(Missing(o, key))
  }

  /** `JSONObject.getJSONArray(key)`. */
  function GetArray(o: JsonObject, key: string): (r: Result<seq<Json>>)
    ensures r.Ok? <==> key in o && o[key].JArray?
    ensures r.Ok? ==> r.value == o[key].items
    ensures r.Err? ==> r.error == Missing(o, key)
  {
    if key in o && o[key].JArray? then Ok(o[key].items) else Err(Missing(o, key))
  }

  /** `JSONArray.getJSONObject(i)`, for an index inside the array. */
  function GetObjectAt(a: seq<Json>, i: nat): (r: Result<JsonObject>)
    requires i < |a|
    ensures r.Ok? <==> a[i].JObject?
    ensures r.Ok? ==> r.value == a[i].fields
    ensures r.Err? ==> r.error == NotAnObjectAt(i)
  {
    if a[i].JObject? then Ok(a[i].fields) else Err(NotAnObjectAt(i))
  }
}
