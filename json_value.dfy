/**
  The decoded JSON values that the packet stream delivers (Go's `interface{}`),
  and the "value, ok" type assertions the module applies to them.
 */
module JsonValue {
  import opened Wrappers

  /** A string, an object, or anything else (number, boolean, null, array). */
  datatype Json = JString(str: string) | JObject(fields: map<string, Json>) | JOther

  type Object = map<string, Json>

  /** `v.(map[string]interface{})`. */
  function AsObject(v: Json): Option<Object> {
    if v.JObject? then Some(v.fields) else None
  }

  /** `m[key].(string)`: fails when the key is missing or holds no string. */
  function StringAt(m: Object, key: string): Option<string> {
    if key in m && m[key].JString? then Some(m[key].str) else None
  }

  /** `m[key].(map[string]interface{})`: fails when the key is missing or holds no object. */
  function ObjectAt(m: Object, key: string): Option<Object> {
    if key in m then AsObject(m[key]) else None
  }
}
