/**
 * A decoded event as the forwarding policy sees it: the top-level JSON
 * object of one log line. Its keys are the object's own keys, which in this
 * log are dotted names such as "message.type"; nothing is flattened, so a
 * nested object is one Other value under its own key.
 */
module Payload {
  import opened Wrappers

  /** A field value: a JSON string, or any other JSON value (number, bool, object, ...). */
  datatype Value = Str(s: string) | Other

  type Payload = map<string, Value>

  /**
   * Go's `v, ok := payload[key].(string)`: the string stored under key, or
   * None when the key is absent or holds a non-string value.
   */
  function GetString(p: Payload, key: string): (r: Option<string>)
    ensures r.Some? <==> key in p && p[key].Str?
    ensures r.Some? ==> p[key] == Str(r.value)
  {
    if key in p && p[key].Str? then Some(p[key].s) else None
  }
}
