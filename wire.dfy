/** Request bodies as they arrive over HTTP, before validation: a JSON
    object, and the checks the validation decorators run on one field. */
module Wire {
  import opened Common

  datatype JsonValue =
    | JString(str: string)
    | JNumber(num: real)
    | JBool(flag: bool)
    | JArray(items: seq<JsonValue>)
    | JNull

  /** A JSON object: field name to value. A missing key is `undefined`. */
  type Body = map<string, JsonValue>

  /** `@IsOptional()` skips the other checks of a field whose value is
      `undefined` or `null`. */
  predicate Absent(body: Body, field: string) {
    field !in body || body[field] == JNull
  }

  /** `@IsString()` on the value of `field` (a missing field fails). */
  predicate StringAt(body: Body, field: string) {
    field in body && body[field].JString?
  }

  /** `@IsNumber()` on the value of `field`. JSON numbers are finite, so
      every number passes. */
  predicate NumberAt(body: Body, field: string) {
    field in body && body[field].JNumber?
  }

  predicate AllStrings(items: seq<JsonValue>) {
    forall k :: 0 <= k < |items| ==> items[k].JString?
  }

  function Strings(items: seq<JsonValue>): (r: seq<string>)
    requires AllStrings(items)
    ensures |r| == |items| && forall k :: 0 <= k < |items| ==> items[k] == JString(r[k])
  {
    seq(|items|, k requires 0 <= k < |items| && AllStrings(items) => items[k].str)
  }

  function StringValues(strs: seq<string>): (r: seq<JsonValue>)
    ensures AllStrings(r) && Strings(r) == strs
  {
    seq(|strs|, k requires 0 <= k < |strs| => JString(strs[k]))
  }

  /** A string field's value, `None` when the field is absent (or not a
      string). */
  function OptString(body: Body, field: string): Option<string> {
    if field in body && body[field].JString? then Some(body[field].str) else None
  }

  /** What an update document does to a nullable string field: a missing
      key leaves it, `null` clears it, a string sets it. */
  function StringUpdate(body: Body, field: string): FieldUpdate<string> {
    if field !in body then Keep
    else if body[field] == JNull then Clear
    else if body[field].JString? then SetTo(body[field].str)
    else Keep
  }

  /** On a field that passed `@IsOptional() @IsString()`, the update keeps,
      clears or sets exactly as the body says. */
  lemma StringUpdateCases(body: Body, field: string)
    requires Absent(body, field) || StringAt(body, field)
    ensures StringUpdate(body, field).Keep? <==> field !in body
    ensures StringUpdate(body, field).Clear? <==> field in body && body[field] == JNull
    ensures StringUpdate(body, field).SetTo? ==> field in body && body[field] == JString(StringUpdate(body, field).value)
  {
  }

  /** The body field for an optional string: omitted when absent. */
  function PutOptString(body: Body, field: string, v: Option<string>): Body {
    match v
    case Some(s) => body[field := JString(s)]
    case None => body - {field}
  }

  /** The message class-validator reports for a failed `@IsString()`. */
  function MustBeString(field: string): string {
    field + " must be a string"
  }

  /** The message for a failed `@IsDateString()`. */
  function MustBeIsoDate(field: string): string {
    field + " must be a valid ISO 8601 date string"
  }
}
