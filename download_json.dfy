/** `Network.DownloadJsonTask`: a text task whose completed text is parsed
    with `JSONTokener.nextValue()` and dispatched on the shape of the value. */
module DownloadJson {
  import opened Strings
  import DownloadText

  /** The values `nextValue()` can produce. Numbers keep their literal text. */
  datatype JsonValue =
    | JsonObject(members: seq<(string, JsonValue)>)
    | JsonArray(elements: seq<JsonValue>)
    | JsonString(s: string)
    | JsonNumber(literal: string)
    | JsonBool(b: bool)
    | JsonNull

  /** The parser's answer: a value, or a `JSONException` with its localized message. */
  datatype Parsed = Value(value: JsonValue) | ParseException(message: Option<string>)

  /** What the client's `onDownloadJsonComplete` does: return, or throw a `JSONException`. */
  datatype HandlerResult = Returns | ThrowsJsonException(message: Option<string>)

  /** The callbacks a JSON task invokes, in order. */
  datatype JsonCallback = OnDownloadJsonComplete(value: JsonValue) | OnError(message: string)

  const UnexpectedType := "JSON response is an unexpected data type"
  const JsonExceptionPrefix := "JSONException while parsing response: "

  predicate IsComposite(v: JsonValue)
  {
    v.JsonObject? || v.JsonArray?
  }

  /** `onDownloadComplete(str)` once `nextValue()` has given `parsed`. The one
      try block also covers the client's handler, so a `JSONException` thrown by
      the handler is reported through `onError` after the value was delivered. */
  function Dispatch(parsed: Parsed, handler: JsonValue -> HandlerResult): (calls: seq<JsonCallback>)
    ensures 1 <= |calls| <= 2
    ensures calls[0].OnDownloadJsonComplete? <==> parsed.Value? && IsComposite(parsed.value)
    ensures calls[0].OnDownloadJsonComplete? ==> calls[0].value == parsed.value
    ensures parsed.Value? && !IsComposite(parsed.value) ==> calls == [OnError("JSON response is an unexpected data type")]
    ensures parsed.ParseException? ==> calls == [OnError(Concat("JSONException while parsing response: ", parsed.message))]
    ensures |calls| == 2 <==> parsed.Value? && IsComposite(parsed.value) && handler(parsed.value).ThrowsJsonException?
    ensures |calls| == 2 ==> calls[1] == OnError(Concat(JsonExceptionPrefix, handler(parsed.value).message))
  {
    match parsed
    case ParseException(m) => [OnError(Concat(JsonExceptionPrefix, m))]
    case Value(v) =>
      if v.JsonObject? || v.JsonArray? then
        match handler(v)
        case Returns => [OnDownloadJsonComplete(v)]
        case ThrowsJsonException(m) => [OnDownloadJsonComplete(v), OnError(Concat(JsonExceptionPrefix, m))]
      else
        [OnError(UnexpectedType)]
  }

  /** The whole life of a fresh JSON task: the text task's outcome, and on
      completion the parse and dispatch of the text. A failure of the text
      download reaches `onError` unchanged. */
  function JsonOutcome(conn: DownloadText.TextConnection, parse: string -> Parsed, handler: JsonValue -> HandlerResult): (calls: seq<JsonCallback>)
    ensures 1 <= |calls| <= 2
    ensures DownloadText.TextOutcome(conn).OnError? ==> calls == [OnError(DownloadText.TextOutcome(conn).message)]
    ensures calls[0].OnDownloadJsonComplete? <==>
      DownloadText.TextOutcome(conn).OnDownloadComplete? && parse(DownloadText.TextOutcome(conn).text).Value?
      && IsComposite(parse(DownloadText.TextOutcome(conn).text).value)
    ensures |calls| == 1 <==>
      !(calls[0].OnDownloadJsonComplete? && handler(calls[0].value).ThrowsJsonException?)
    ensures DownloadText.TextOutcome(conn).OnDownloadComplete? ==>
      calls == Dispatch(parse(DownloadText.TextOutcome(conn).text), handler)
  {
    match DownloadText.TextOutcome(conn)
    case OnError(m) => [OnError(m)]
    case OnDownloadComplete(s) => Dispatch(parse(s), handler)
  }
}
