/**
 * The state of the `App` component (src/App.jsx lines 7-12) and the handlers
 * that change it. Each `useState` slot is a field; each `set...` call is an
 * assignment to it. The light/dark flag is presentation only and is not kept.
 */
module App {
  import opened Wrappers
  import opened Text
  import opened Headers
  import opened Outbound
  import opened Transfer

  /** The two tabs under the URL bar. */
  datatype Tab = HeadersTab | BodyTab

  class Draft {
    var requestMethod: string
    var url: string
    var tab: Tab
    var headers: seq<HeaderRow>
    var body: string
    var response: Option<Response>

    /** The table always shows at least one row. */
    predicate HasRows()
      reads this
    {
      headers != []
    }

    /** The initial `useState` values. */
    constructor ()
      ensures requestMethod == "GET" && url == "" && tab == HeadersTab
      ensures headers == [EmptyRow] && body == "" && response == None
      ensures HasRows()
    {
      requestMethod := "GET";
      url := "";
      tab := HeadersTab;
      headers := [EmptyRow];
      body := "";
      response := None;
    }

    /** `handleHeaderChange(idx, field, value)`. */
    method HandleHeaderChange(idx: int, field: Field, value: string)
      modifies this`headers
      ensures headers == EditRow(old(headers), idx, field, value)
      ensures old(HasRows()) ==> HasRows()
    {
      headers := EditRow(headers, idx, field, value);
    }

    /** `addHeaderRow()`. */
    method AddHeaderRow()
      modifies this`headers
      ensures headers == AppendRow(old(headers))
      ensures HasRows()
    {
      headers := AppendRow(headers);
    }

    /**
     * `removeHeaderRow(idx)`. The table offers it only while there is more
     * than one row, and then the table keeps a row.
     */
    method RemoveHeaderRow(idx: int)
      modifies this`headers
      ensures headers == RemoveRow(old(headers), idx)
      ensures old(|headers|) > 1 ==> HasRows()
    {
      headers := RemoveRow(headers, idx);
      if |old(headers)| > 1 {
        RemoveOfferedKeepsARow(old(headers), idx);
      }
    }

    /**
     * `handleSend`: nothing happens while the URL is empty; otherwise the
     * request is built and the `outcome` of sending it (the decoded response
     * or the error) fills the response slot.
     */
    method Send(outcome: Response) returns (request: Option<Request>)
      modifies this`response
      ensures request == None <==> url == ""
      ensures url == "" ==> response == old(response)
      ensures url != "" ==> response == Some(outcome)
      ensures request.Some? ==> request.value == Request(url, requestMethod, Flattened(headers),
        if BodyAttached(requestMethod, body) then Some(body) else None)
    {
      if url == "" {
        return None;
      }
      request := PrepareRequest(url, requestMethod, headers, body);
      response := Some(outcome);
    }

    /** The text `handleSave` puts in `request.txt`. */
    method Save(codec: HeaderCodec) returns (text: string)
      ensures text == ExportText(codec, url, requestMethod, headers, body)
    {
      // the `data` object of `handleSave` (src/App.jsx:59-64) keeps only the rows with a key
      var named := NamedRows(headers);
      text := "URL: " + url + "\nMethod: " + requestMethod + "\nHeaders: " + codec.encode(named) + "\nBody: " + body;
    }

    /**
     * The `onload` of `handleImport`: the four matches, then one guarded
     * assignment per field. A field whose label is missing keeps its value;
     * the response and the tab are not touched.
     */
    method Import(codec: HeaderCodec, text: string)
      modifies this`url, this`requestMethod, this`headers, this`body
      ensures var f := ParseImport(codec, text);
        && url == (if f.url.Some? then f.url.value else old(url))
        && requestMethod == (if f.verb.Some? then f.verb.value else old(requestMethod))
        && headers == (if f.headers.Some? then f.headers.value else old(headers))
        && body == (if f.body.Some? then f.body.value else old(body))
      ensures old(HasRows()) ==> HasRows()
    {
      var urlMatch := LineCapture(text, UrlLabel);
      var methodMatch := LineCapture(text, MethodLabel);
      var headersMatch := HeadersCapture(text);
      var bodyMatch := BodyCapture(text);
      if urlMatch.Some? {
        url := Trim(urlMatch.value);
      }
      if methodMatch.Some? {
        requestMethod := ToUpper(Trim(methodMatch.value));
      }
      if headersMatch.Some? {
        headers := DecodeHeaders(codec, headersMatch.value);
      }
      if bodyMatch.Some? {
        body := Trim(bodyMatch.value);
      }
    }

    /** `handleClear`: every field back to its initial value. */
    method Clear()
      modifies this
      ensures requestMethod == "GET" && url == "" && tab == HeadersTab
      ensures headers == [EmptyRow] && body == "" && response == None
      ensures HasRows()
    {
      url := "";
      requestMethod := "GET";
      headers := [EmptyRow];
      body := "";
      response := None;
      tab := HeadersTab;
    }
  }

  /**
   * The headers branch of `handleImport`'s `onload`: trim, drop the leading
   * and trailing newlines, `JSON.parse`, and fall back to one empty row when
   * the result is not an array or is empty.
   */
  method DecodeHeaders(codec: HeaderCodec, block: string) returns (rows: seq<HeaderRow>)
    ensures rows == ImportedHeaders(codec, block)
    ensures rows != []
  {
    var headersStr := Trim(block);
    headersStr := StripNewlines(headersStr);
    var parsedHeaders := [EmptyRow];
    match codec.decode(headersStr) {
      case Array(decoded) => parsedHeaders := decoded;
      case _ => parsedHeaders := [EmptyRow];
    }
    rows := if |parsedHeaders| > 0 then parsedHeaders else [EmptyRow];
  }

  /** Saving a draft and importing the file restores it (up to keyless rows and the method's case). */
  method SaveThenImport(d: Draft, codec: HeaderCodec)
    requires d.url != "" && SingleLine(d.url) && Trimmed(d.url)
    requires d.requestMethod != "" && SingleLine(d.requestMethod) && Trimmed(d.requestMethod)
    requires Trimmed(d.body) && NamedRows(d.headers) != []
    requires codec.decode(codec.encode(NamedRows(d.headers))) == Array(NamedRows(d.headers))
    requires Framed(codec.encode(NamedRows(d.headers)))
    modifies d`url, d`requestMethod, d`headers, d`body
    ensures d.url == old(d.url) && d.requestMethod == ToUpper(old(d.requestMethod)) && d.body == old(d.body)
    ensures d.headers == NamedRows(old(d.headers))
    ensures d.tab == old(d.tab) && d.response == old(d.response)
  {
    var text := d.Save(codec);
    ExportImportRoundTrip(codec, d.url, d.requestMethod, d.headers, d.body);
    d.Import(codec, text);
  }
}
