/**
 * The request `handleSend` hands to `fetch` (src/App.jsx lines 30-43): the
 * empty-URL guard, the flattened headers and the rule for attaching a body.
 * The call itself and the decoding of its response are not modelled; the
 * response arrives as a value of `Response`.
 */
module Outbound {
  import opened Wrappers
  import opened Headers

  /** The `options` object together with the URL it is sent to. */
  datatype Request = Request(url: string, verb: string, headers: map<string, string>, body: Option<string>)

  /** What ends up in the response slot: decoded JSON, plain text, or `{ error: message }`. */
  datatype Response = Json(text: string) | Text(text: string) | Error(message: string)

  /** The methods that may carry a body: `['POST', 'PUT', 'PATCH']`. */
  const BodyMethods: seq<string> := ["POST", "PUT", "PATCH"]

  /** `['POST', 'PUT', 'PATCH'].includes(method) && body`, the method written `verb` here. */
  predicate BodyAttached(verb: string, body: string) {
    verb in BodyMethods && body != ""
  }

  /**
   * The request `handleSend` builds, or `None` when the URL is empty and it
   * returns before building anything.
   */
  method PrepareRequest(url: string, verb: string, rows: seq<HeaderRow>, body: string)
    returns (request: Option<Request>)
    ensures request == None <==> url == ""
    ensures request.Some? ==> request.value.url == url && request.value.verb == verb
    ensures request.Some? ==> request.value.headers == Flattened(rows)
    ensures request.Some? ==>
      (request.value.body == Some(body) <==> verb in BodyMethods && body != "")
    ensures request.Some? && request.value.body != Some(body) ==> request.value.body == None
    ensures request.Some? && verb in {"GET", "DELETE"} ==> request.value.body == None
  {
    if url == "" {
      return None;
    }
    var headersObj := FlattenHeaders(rows);
    var options := Request(url, verb, headersObj, None);
    if BodyAttached(verb, body) {
      options := options.(body := Some(body));
    }
    request := Some(options);
  }
}
