/**
 * The save/import text format, src/App.jsx lines 58-102:
 *
 *   URL: <url>
 *   Method: <method>
 *   Headers: <JSON array of the rows with a key>
 *   Body: <body>
 *
 * The JSON library (`JSON.stringify`, `JSON.parse`) is a parameter, a
 * `HeaderCodec`. The four regular expressions of `handleImport` are modelled
 * by a search for a tag at the start of a line:
 *
 *   /^URL:\s*(.*)$/m and /^Method:\s*(.*)$/m: the first line that starts with
 *     the tag; `\s*` skips white space, newlines included, and the capture
 *     runs to the next line terminator (`LineCapture`);
 *   /^Headers:\s*([\s\S]*?)^Body:/m: the first line that starts with
 *     `Headers:`; after the skipped white space the lazy capture stops at the
 *     first line that starts with `Body:` (`HeadersCapture`); no later
 *     `Headers:` line can do better, since every later line start lies past
 *     the skipped white space;
 *   /^Body:\s*([\s\S]*)/m: everything after the first line that starts with
 *     `Body:` and the white space after it (`BodyCapture`).
 */
module Transfer {
  import opened Wrappers
  import opened Text
  import opened Headers

  /** What `JSON.parse` makes of the headers block: a throw, a non-array, or an array of rows. */
  datatype Decoded = Invalid | NotArray | Array(rows: seq<HeaderRow>)

  /** `JSON.stringify(rows, null, 2)` and `JSON.parse`, supplied from outside. */
  datatype HeaderCodec = HeaderCodec(encode: seq<HeaderRow> -> string, decode: string -> Decoded)

  const UrlLabel := "URL:"
  const MethodLabel := "Method:"
  const HeadersLabel := "Headers:"
  const BodyLabel := "Body:"

  /** The text `handleSave` writes for a draft. */
  function ExportText(codec: HeaderCodec, url: string, verb: string, rows: seq<HeaderRow>, body: string): string
  {
    "URL: " + url + "\nMethod: " + verb + "\nHeaders: " + codec.encode(NamedRows(rows)) + "\nBody: " + body
  }

  /** `^` of a multiline regex: the start of the text or just after a line terminator. */
  predicate LineStart(text: string, p: nat)
    requires p <= |text|
  {
    p == 0 || IsLineTerminator(text[p - 1])
  }

  /** `^tag` matches at `p`. */
  predicate LabelLineAt(text: string, tag: string, p: nat) {
    p + |tag| <= |text| && LineStart(text, p) && text[p..p + |tag|] == tag
  }

  /** The leftmost line at or after `from` that starts with `tag`. */
  function FindLabel(text: string, tag: string, from: nat): (r: Option<nat>)
    requires from <= |text|
    ensures r.Some? ==> from <= r.value && LabelLineAt(text, tag, r.value)
    ensures r.Some? ==> forall p :: from <= p < r.value ==> !LabelLineAt(text, tag, p)
    ensures r.None? ==> forall p :: from <= p <= |text| ==> !LabelLineAt(text, tag, p)
    decreases |text| - from
  {
    if LabelLineAt(text, tag, from) then Some(from)
    else if from == |text| then None
    else FindLabel(text, tag, from + 1)
  }

  /** Where a greedy `\s*` starting at `q` stops. */
  function SkipSpace(text: string, q: nat): (r: nat)
    requires q <= |text|
    ensures q <= r <= |text|
    ensures forall i :: q <= i < r ==> IsSpace(text[i])
    ensures r == |text| || !IsSpace(text[r])
    decreases |text| - q
  {
    if q < |text| && IsSpace(text[q]) then SkipSpace(text, q + 1) else q
  }

  /** Where a greedy `.*` starting at `q` stops: the next line terminator or the end. */
  function LineEnd(text: string, q: nat): (r: nat)
    requires q <= |text|
    ensures q <= r <= |text|
    ensures forall i :: q <= i < r ==> !IsLineTerminator(text[i])
    ensures r == |text| || IsLineTerminator(text[r])
    decreases |text| - q
  {
    if q < |text| && !IsLineTerminator(text[q]) then LineEnd(text, q + 1) else q
  }

  /** Group 1 of `/^tag\s*(.*)$/m`. */
  function LineCapture(text: string, tag: string): Option<string>
  {
    match FindLabel(text, tag, 0)
    case None => None
    case Some(p) =>
      var q := SkipSpace(text, p + |tag|);
      Some(text[q..LineEnd(text, q)])
  }

  /** Group 1 of `/^Headers:\s*([\s\S]*?)^Body:/m`. */
  function HeadersCapture(text: string): Option<string>
  {
    match FindLabel(text, HeadersLabel, 0)
    case None => None
    case Some(p) =>
      var q := SkipSpace(text, p + |HeadersLabel|);
      match FindLabel(text, BodyLabel, q)
      case None => None
      case Some(e) => Some(text[q..e])
  }

  /** Group 1 of `/^Body:\s*([\s\S]*)/m`. */
  function BodyCapture(text: string): Option<string>
  {
    match FindLabel(text, BodyLabel, 0)
    case None => None
    case Some(p) => Some(text[SkipSpace(text, p + |BodyLabel|)..])
  }

  /**
   * The headers an imported block sets: the decoded array, or a single empty
   * row when the block does not decode, is not an array, or is an empty array.
   */
  function ImportedHeaders(codec: HeaderCodec, block: string): (r: seq<HeaderRow>)
    ensures r != []
  {
    var parsed := match codec.decode(StripNewlines(Trim(block)))
      case Array(rows) => rows
      case _ => [EmptyRow];
    if |parsed| > 0 then parsed else [EmptyRow]
  }

  /** The new value of each field after an import; `None` leaves the field as it was. */
  datatype ImportFields = ImportFields(
    url: Option<string>, verb: Option<string>, headers: Option<seq<HeaderRow>>, body: Option<string>)

  /** What `handleImport` assigns, field by field, for a file's text. */
  function ParseImport(codec: HeaderCodec, text: string): ImportFields
  {
    ImportFields(ImportedUrl(text), ImportedVerb(text), ImportedRows(codec, text), ImportedBody(text))
  }

  /** `if (urlMatch) setUrl(urlMatch[1].trim())`. */
  function ImportedUrl(text: string): Option<string>
  {
    match LineCapture(text, UrlLabel)
    case None => None
    case Some(s) => Some(Trim(s))
  }

  /** `if (methodMatch) setMethod(methodMatch[1].trim().toUpperCase())`. */
  function ImportedVerb(text: string): Option<string>
  {
    match LineCapture(text, MethodLabel)
    case None => None
    case Some(s) => Some(ToUpper(Trim(s)))
  }

  /** `if (headersMatch) { ... setHeaders(...) }`. */
  function ImportedRows(codec: HeaderCodec, text: string): Option<seq<HeaderRow>>
  {
    match HeadersCapture(text)
    case None => None
    case Some(s) => Some(ImportedHeaders(codec, s))
  }

  /** `if (bodyMatch) setBody(bodyMatch[1].trim())`. */
  function ImportedBody(text: string): Option<string>
  {
    match BodyCapture(text)
    case None => None
    case Some(s) => Some(Trim(s))
  }

  /** A tag is present when some line starts with it. */
  ghost predicate HasLabelLine(text: string, tag: string) {
    exists p :: 0 <= p <= |text| && LabelLineAt(text, tag, p)
  }

  /** URL, method and body are set exactly when their tag starts a line of the file. */
  lemma ImportFieldPresence(codec: HeaderCodec, text: string)
    ensures ParseImport(codec, text).url.Some? <==> HasLabelLine(text, UrlLabel)
    ensures ParseImport(codec, text).verb.Some? <==> HasLabelLine(text, MethodLabel)
    ensures ParseImport(codec, text).body.Some? <==> HasLabelLine(text, BodyLabel)
  {
    var r := FindLabel(text, UrlLabel, 0);
    if r.Some? { assert LabelLineAt(text, UrlLabel, r.value); }
    r := FindLabel(text, MethodLabel, 0);
    if r.Some? { assert LabelLineAt(text, MethodLabel, r.value); }
    r := FindLabel(text, BodyLabel, 0);
    if r.Some? { assert LabelLineAt(text, BodyLabel, r.value); }
  }

  /**
   * What the import assigns to URL, method and body has no white space at
   * either end, and the method has no lower-case ASCII letter.
   */
  lemma ImportedValuesNormalised(codec: HeaderCodec, text: string)
    ensures var f := ParseImport(codec, text);
      && (f.url.Some? ==> Trimmed(f.url.value))
      && (f.verb.Some? ==> Trimmed(f.verb.value))
      && (f.verb.Some? ==> forall i :: 0 <= i < |f.verb.value| ==> !('a' <= f.verb.value[i] <= 'z'))
      && (f.body.Some? ==> Trimmed(f.body.value))
  {
    var u := LineCapture(text, UrlLabel);
    if u.Some? {
      TrimTrims(u.value);
    }
    var v := LineCapture(text, MethodLabel);
    if v.Some? {
      TrimTrims(v.value);
    }
    var b := BodyCapture(text);
    if b.Some? {
      TrimTrims(b.value);
    }
  }

  /**
   * Headers are set exactly when a line starts with `Headers:` and a later
   * line starts with `Body:`.
   */
  lemma ImportHeadersPresence(codec: HeaderCodec, text: string)
    ensures ParseImport(codec, text).headers.Some? <==>
      exists p, e :: 0 <= p < e <= |text| && LabelLineAt(text, HeadersLabel, p) && LabelLineAt(text, BodyLabel, e)
  {
    var h := FindLabel(text, HeadersLabel, 0);
    if h.Some? {
      var q := SkipSpace(text, h.value + |HeadersLabel|);
      var b := FindLabel(text, BodyLabel, q);
      if b.Some? {
        assert LabelLineAt(text, HeadersLabel, h.value) && LabelLineAt(text, BodyLabel, b.value);
      } else {
        forall p, e | 0 <= p < e <= |text| && LabelLineAt(text, HeadersLabel, p)
          ensures !LabelLineAt(text, BodyLabel, e)
        {
          if e < q {
            NoBodyLineInSkip(text, h.value, e);
          }
        }
      }
    }
  }

  /** No line can start with `Body:` between a `Headers:` label and the end of the white space after it. */
  lemma NoBodyLineInSkip(text: string, s: nat, e: nat)
    requires LabelLineAt(text, HeadersLabel, s)
    requires s < e < SkipSpace(text, s + |HeadersLabel|)
    ensures !LabelLineAt(text, BodyLabel, e)
  {
    if e <= s + |HeadersLabel| {
      assert text[e - 1] == text[s..s + |HeadersLabel|][e - 1 - s];
    } else if e + |BodyLabel| <= |text| {
      assert text[e] == text[e..e + |BodyLabel|][0];
    }
  }

  /**
   * A headers block that does not decode to a non-empty array leaves a single
   * empty row; URL, method and body from the same file do not depend on the block.
   */
  lemma ImportHeadersFallback(codec: HeaderCodec, other: HeaderCodec, text: string, block: string)
    requires HeadersCapture(text) == Some(block)
    requires !codec.decode(StripNewlines(Trim(block))).Array? || codec.decode(StripNewlines(Trim(block))).rows == []
    ensures ParseImport(codec, text).headers == Some([EmptyRow])
    ensures ParseImport(codec, text).url == ParseImport(other, text).url
    ensures ParseImport(codec, text).verb == ParseImport(other, text).verb
    ensures ParseImport(codec, text).body == ParseImport(other, text).body
  {
  }

  /**
   * What the round trip asks of the encoded header array: it is not empty,
   * starts and ends with a character `trim` keeps, and no line inside it
   * starts with `B`, so no line of it can be taken for the `Body:` line.
   * Two-space pretty-printed JSON arrays are like this unless a string in
   * them holds U+2028 or U+2029, which `JSON.stringify` does not escape.
   */
  predicate Framed(enc: string) {
    && enc != [] && Trimmed(enc)
    && forall j :: 0 < j < |enc| && IsLineTerminator(enc[j - 1]) ==> enc[j] != 'B'
  }

  /**
   * Save then import gives back the URL, the upper-cased method, the rows
   * that have a key (in their order) and the body, provided URL and method
   * are non-empty single lines without surrounding white space, the body has
   * none around it, at least one row has a key, the codec reads back what
   * it wrote for those rows, and what it wrote for them is `Framed`.
   */
  lemma ExportImportRoundTrip(codec: HeaderCodec, url: string, verb: string, rows: seq<HeaderRow>, body: string)
    requires url != "" && SingleLine(url) && Trimmed(url)
    requires verb != "" && SingleLine(verb) && Trimmed(verb)
    requires Trimmed(body)
    requires NamedRows(rows) != []
    requires codec.decode(codec.encode(NamedRows(rows))) == Array(NamedRows(rows))
    requires Framed(codec.encode(NamedRows(rows)))
    ensures ParseImport(codec, ExportText(codec, url, verb, rows, body))
         == ImportFields(Some(url), Some(ToUpper(verb)), Some(NamedRows(rows)), Some(body))
  {
    var text := ExportText(codec, url, verb, rows, body);
    var enc := codec.encode(NamedRows(rows));
    ExportTextLayout(codec, url, verb, rows, body);
    SavedUrl(text, url, verb, enc, body);
    SavedMethod(text, url, verb, enc, body);
    SavedHeaders(text, url, verb, enc, body);
    SavedBody(text, url, verb, enc, body);
    ImportOfCaptures(codec, text, url, verb, enc, NamedRows(rows), body);
  }

  /** What the import makes of captures that are already trimmed and a block that decodes to rows. */
  lemma ImportOfCaptures(codec: HeaderCodec, text: string, url: string, verb: string, enc: string,
                         named: seq<HeaderRow>, body: string)
    requires Trimmed(url) && Trimmed(verb) && Trimmed(body) && Trimmed(enc) && enc != []
    requires named != [] && codec.decode(enc) == Array(named)
    requires LineCapture(text, UrlLabel) == Some(url) && LineCapture(text, MethodLabel) == Some(verb)
    requires HeadersCapture(text) == Some(enc + ['\n']) && BodyCapture(text) == Some(body)
    ensures ParseImport(codec, text) == ImportFields(Some(url), Some(ToUpper(verb)), Some(named), Some(body))
  {
    ReadsUrl(codec, text, url);
    ReadsVerb(codec, text, verb);
    ReadsBody(codec, text, body);
    ReadsHeaders(codec, text, enc, named);
  }

  /** A captured URL without surrounding white space is assigned as it is. */
  lemma ReadsUrl(codec: HeaderCodec, text: string, url: string)
    requires Trimmed(url) && LineCapture(text, UrlLabel) == Some(url)
    ensures ParseImport(codec, text).url == Some(url)
  {
    TrimFixedPoint(url);
  }

  /** A captured method without surrounding white space is assigned upper-cased. */
  lemma ReadsVerb(codec: HeaderCodec, text: string, verb: string)
    requires Trimmed(verb) && LineCapture(text, MethodLabel) == Some(verb)
    ensures ParseImport(codec, text).verb == Some(ToUpper(verb))
  {
    TrimFixedPoint(verb);
  }

  /** A captured body without surrounding white space is assigned as it is. */
  lemma ReadsBody(codec: HeaderCodec, text: string, body: string)
    requires Trimmed(body) && BodyCapture(text) == Some(body)
    ensures ParseImport(codec, text).body == Some(body)
  {
    TrimFixedPoint(body);
  }

  /** A captured block that is a trimmed array and a newline is assigned the decoded rows. */
  lemma ReadsHeaders(codec: HeaderCodec, text: string, enc: string, named: seq<HeaderRow>)
    requires Trimmed(enc) && enc != []
    requires named != [] && codec.decode(enc) == Array(named)
    requires HeadersCapture(text) == Some(enc + ['\n'])
    ensures ParseImport(codec, text).headers == Some(named)
  {
    assert StripNewlines(Trim(enc + ['\n'])) == enc by {
      TrimDropsTrailingSpace(enc, '\n');
      StripNewlinesAfterTrim(enc + ['\n']);
    }
  }

  /**
   * A saved text, line by line: the method line starts at `m`, the headers
   * line at `h` and the body line at `b`.
   */
  predicate SavedLayout(text: string, url: string, verb: string, enc: string, body: string) {
    var m := 6 + |url|;
    var h := m + 9 + |verb|;
    var b := h + 10 + |enc|;
    && |text| == b + 6 + |body|
    && text[..5] == "URL: " && text[5..m - 1] == url && text[m - 1] == '\n'
    && text[m..m + 8] == "Method: " && text[m + 8..h - 1] == verb && text[h - 1] == '\n'
    && text[h..h + 9] == "Headers: " && text[h + 9..b - 1] == enc && text[b - 1] == '\n'
    && text[b..b + 6] == "Body: " && text[b + 6..] == body
  }

  /** The text `handleSave` writes is laid out line by line as the format says. */
  lemma ExportTextLayout(codec: HeaderCodec, url: string, verb: string, rows: seq<HeaderRow>, body: string)
    ensures SavedLayout(ExportText(codec, url, verb, rows, body), url, verb, codec.encode(NamedRows(rows)), body)
  {
    UrlLineLayout(codec, url, verb, rows, body);
    MethodLineLayout(codec, url, verb, rows, body);
    HeadersLineLayout(codec, url, verb, rows, body);
    BodyLineLayout(codec, url, verb, rows, body);
  }

  /** The URL pattern captures, from a saved text, the URL written into it. */
  lemma SavedUrl(text: string, url: string, verb: string, enc: string, body: string)
    requires SavedLayout(text, url, verb, enc, body)
    requires url != "" && SingleLine(url) && Trimmed(url)
    ensures LineCapture(text, UrlLabel) == Some(url)
  {
    RoundTripUrl(text, url, 6 + |url|);
  }

  /** The method pattern captures, from a saved text, the method written into it. */
  lemma SavedMethod(text: string, url: string, verb: string, enc: string, body: string)
    requires SavedLayout(text, url, verb, enc, body) && SingleLine(url)
    requires verb != "" && SingleLine(verb) && Trimmed(verb)
    ensures LineCapture(text, MethodLabel) == Some(verb)
  {
    SavedLineStarts(text, url, verb, enc, body);
    RoundTripMethod(text, verb, 6 + |url|, 6 + |url| + 9 + |verb|);
  }

  /** The headers pattern captures, from a saved text, the encoded array and the newline after it. */
  lemma SavedHeaders(text: string, url: string, verb: string, enc: string, body: string)
    requires SavedLayout(text, url, verb, enc, body) && SingleLine(url) && SingleLine(verb) && Framed(enc)
    ensures HeadersCapture(text) == Some(enc + ['\n'])
  {
    var m := 6 + |url|;
    var h := m + 9 + |verb|;
    SavedLineStarts(text, url, verb, enc, body);
    RoundTripHeaders(text, enc, m, h, h + 10 + |enc|);
  }

  /** The body pattern captures, from a saved text, the body written into it. */
  lemma SavedBody(text: string, url: string, verb: string, enc: string, body: string)
    requires SavedLayout(text, url, verb, enc, body) && SingleLine(url) && SingleLine(verb)
    requires Framed(enc) && Trimmed(body)
    ensures BodyCapture(text) == Some(body)
  {
    var m := 6 + |url|;
    var h := m + 9 + |verb|;
    var b := h + 10 + |enc|;
    SavedLineStarts(text, url, verb, enc, body);
    NoBodyLineBefore(text, enc, m, h, b);
    RoundTripBody(text, enc, body, m, h, b);
  }

  /** The first three lines of a saved text start only where the layout says. */
  lemma SavedLineStarts(text: string, url: string, verb: string, enc: string, body: string)
    requires SavedLayout(text, url, verb, enc, body) && SingleLine(url) && SingleLine(verb)
    ensures var m := 6 + |url|;
      var h := m + 9 + |verb|;
      && text[0] == 'U' && text[m] == 'M' && text[h] == 'H'
      && (forall p :: 0 < p < m ==> !LineStart(text, p))
      && (forall p :: m < p < h ==> !LineStart(text, p))
      && (forall p :: h < p <= h + 9 ==> !LineStart(text, p))
  {
    var m := 6 + |url|;
    var h := m + 9 + |verb|;
    assert text[0..m - 1] == text[..5] + text[5..m - 1];
    assert text[m..h - 1] == text[m..m + 8] + text[m + 8..h - 1];
    LabelsSingleLine();
    SingleLineConcat("URL: ", url);
    SingleLineConcat("Method: ", verb);
    NoLineStartWithin(text, 0, m - 1);
    NoLineStartWithin(text, m, h - 1);
    NoLineStartWithin(text, h, h + 9);
    assert text[0] == text[..5][0] && text[m] == text[m..m + 8][0] && text[h] == text[h..h + 9][0];
  }

  /** The label prefixes of the first three lines hold no line terminator. */
  lemma LabelsSingleLine()
    ensures SingleLine("URL: ") && SingleLine("Method: ") && SingleLine("Headers: ")
  {
  }

  /** In the saved text the URL line is found first and captured whole. */
  lemma RoundTripUrl(text: string, url: string, m: nat)
    requires url != "" && Trimmed(url) && SingleLine(url)
    requires m == |url| + 6 && m <= |text|
    requires text[..5] == "URL: " && text[5..m - 1] == url && text[m - 1] == '\n'
    ensures LineCapture(text, UrlLabel) == Some(url)
  {
    assert LabelLineAt(text, UrlLabel, 0);
    SkipTo(text, 4, 5);
    LineEndAt(text, 5, m - 1);
  }

  /** In the saved text the first line that starts with `Method:` is the second, captured whole. */
  lemma RoundTripMethod(text: string, verb: string, m: nat, h: nat)
    requires verb != "" && Trimmed(verb) && SingleLine(verb)
    requires 6 <= m && h == m + 9 + |verb| && h <= |text|
    requires text[0] == 'U' && forall p :: 0 < p <= m - 1 ==> !LineStart(text, p)
    requires text[m - 1] == '\n' && text[m..m + 8] == "Method: "
    requires text[m + 8..h - 1] == verb && text[h - 1] == '\n'
    ensures LineCapture(text, MethodLabel) == Some(verb)
  {
    forall p | 0 <= p < m ensures !LabelLineAt(text, MethodLabel, p) {
      assert MethodLabel[0] == 'M';
      if 0 < p { assert !LineStart(text, p); }
      NotLabelLine(text, MethodLabel, p);
    }
    assert text[m..m + |MethodLabel|] == text[m..m + 8][..7];
    assert LabelLineAt(text, MethodLabel, m);
    SkipTo(text, m + 7, m + 8);
    LineEndAt(text, m + 8, h - 1);
  }

  /** In the saved text the headers block runs from the encoded array to the newline before `Body:`. */
  lemma RoundTripHeaders(text: string, enc: string, m: nat, h: nat, b: nat)
    requires Framed(enc)
    requires 6 <= m < h && b == h + 10 + |enc| && b + 6 <= |text|
    requires text[0] == 'U' && text[m] == 'M' && text[h] == 'H' && text[h - 1] == '\n'
    requires forall p :: 0 < p < m ==> !LineStart(text, p)
    requires forall p :: m < p < h ==> !LineStart(text, p)
    requires forall p :: h < p <= h + 9 ==> !LineStart(text, p)
    requires text[h..h + 9] == "Headers: " && text[h + 9..b - 1] == enc && text[b - 1] == '\n'
    requires text[b..b + 6] == "Body: "
    ensures HeadersCapture(text) == Some(enc + ['\n'])
  {
    assert text[h + 8] == ' ' && text[h + 9] == enc[0] by {
      assert text[h + 8] == text[h..h + 9][8] && text[h + 9] == text[h + 9..b - 1][0];
    }
    HeadersLineFound(text, m, h);
    SkipTo(text, h + 8, h + 9);
    BodyLineFound(text, enc, m, h, b);
    LineWithBreak(text, h + 9, b, enc);
    HeadersCaptureOf(text, h, h + 9, b, enc + ['\n']);
  }

  /** A stretch of text that holds `s` and then a newline. */
  lemma LineWithBreak(text: string, lo: nat, hi: nat, s: string)
    requires lo < hi <= |text| && text[lo..hi - 1] == s && text[hi - 1] == '\n'
    ensures text[lo..hi] == s + ['\n']
  {
    assert text[lo..hi] == text[lo..hi - 1] + [text[hi - 1]];
  }

  /** The headers capture, given where its three searches stop. */
  lemma HeadersCaptureOf(text: string, h: nat, q: nat, e: nat, block: string)
    requires h + |HeadersLabel| <= |text|
    requires FindLabel(text, HeadersLabel, 0) == Some(h)
    requires SkipSpace(text, h + |HeadersLabel|) == q
    requires q <= e <= |text| && FindLabel(text, BodyLabel, q) == Some(e) && text[q..e] == block
    ensures HeadersCapture(text) == Some(block)
  {
  }

  /** In the saved text the search for `Headers:` finds the third line. */
  lemma HeadersLineFound(text: string, m: nat, h: nat)
    requires 0 < m < h && h + 9 <= |text| && text[0] == 'U' && text[m] == 'M' && text[h - 1] == '\n'
    requires forall p :: 0 < p < m ==> !LineStart(text, p)
    requires forall p :: m < p < h ==> !LineStart(text, p)
    requires text[h..h + 9] == "Headers: "
    ensures FindLabel(text, HeadersLabel, 0) == Some(h)
  {
    NoHeadersLineBefore(text, m, h);
    assert LabelLineAt(text, HeadersLabel, h) by {
      assert text[h..h + |HeadersLabel|] == text[h..h + 9][..8];
    }
    FindLabelAt(text, HeadersLabel, 0, h);
  }

  /** In the saved text the search for `Body:` after the headers label finds the last line. */
  lemma BodyLineFound(text: string, enc: string, m: nat, h: nat, b: nat)
    requires Framed(enc)
    requires 0 < m < h && b == h + 10 + |enc| && b + 6 <= |text|
    requires text[0] == 'U' && text[m] == 'M' && text[h] == 'H' && text[b - 1] == '\n'
    requires forall p :: 0 < p < m ==> !LineStart(text, p)
    requires forall p :: m < p < h ==> !LineStart(text, p)
    requires forall p :: h < p <= h + 9 ==> !LineStart(text, p)
    requires text[h + 9..b - 1] == enc && text[b..b + 6] == "Body: "
    ensures FindLabel(text, BodyLabel, h + 9) == Some(b)
  {
    NoBodyLineBefore(text, enc, m, h, b);
    assert LabelLineAt(text, BodyLabel, b) by {
      assert text[b..b + |BodyLabel|] == text[b..b + 6][..5];
    }
    FindLabelAt(text, BodyLabel, h + 9, b);
  }

  /** Only the third line of the saved text starts with `Headers:`. */
  lemma NoHeadersLineBefore(text: string, m: nat, h: nat)
    requires 0 < m < h <= |text| && text[0] == 'U' && text[m] == 'M'
    requires forall p :: 0 < p < m ==> !LineStart(text, p)
    requires forall p :: m < p < h ==> !LineStart(text, p)
    ensures forall p :: 0 <= p < h ==> !LabelLineAt(text, HeadersLabel, p)
  {
    forall p | 0 <= p < h ensures !LabelLineAt(text, HeadersLabel, p) {
      assert HeadersLabel[0] == 'H';
      if 0 < p { assert p == m || !LineStart(text, p); }
      NotLabelLine(text, HeadersLabel, p);
    }
  }

  /** No line of the saved text before the last one starts with `Body:`. */
  lemma NoBodyLineBefore(text: string, enc: string, m: nat, h: nat, b: nat)
    requires Framed(enc)
    requires 0 < m < h && b == h + 10 + |enc| && b <= |text|
    requires text[0] == 'U' && text[m] == 'M' && text[h] == 'H'
    requires forall p :: 0 < p < m ==> !LineStart(text, p)
    requires forall p :: m < p < h ==> !LineStart(text, p)
    requires forall p :: h < p <= h + 9 ==> !LineStart(text, p)
    requires text[h + 9..b - 1] == enc
    ensures forall p :: 0 <= p < b ==> !LabelLineAt(text, BodyLabel, p)
  {
    forall p | 0 <= p < b ensures !LabelLineAt(text, BodyLabel, p) {
      if 0 < p <= h + 9 {
        assert p == m || p == h || !LineStart(text, p);
      } else if h + 9 < p {
        var j := p - 1 - (h + 9);
        assert text[p - 1] == enc[j];
        if j + 1 < |enc| {
          assert text[p] == enc[j + 1];
        }
      }
      assert BodyLabel[0] == 'B';
      NotLabelLine(text, BodyLabel, p);
    }
  }

  /** The search finds a tag's line when no earlier line from `from` on starts with it. */
  lemma FindLabelAt(text: string, tag: string, from: nat, p: nat)
    requires from <= p <= |text| && LabelLineAt(text, tag, p)
    requires forall q :: from <= q < p ==> !LabelLineAt(text, tag, q)
    ensures FindLabel(text, tag, from) == Some(p)
  {
  }

  /** In the saved text the body is everything after `Body: `. */
  lemma RoundTripBody(text: string, enc: string, body: string, m: nat, h: nat, b: nat)
    requires Framed(enc) && Trimmed(body)
    requires 6 <= m < h && b == h + 10 + |enc| && |text| == b + 6 + |body|
    requires forall p :: 0 <= p < b ==> !LabelLineAt(text, BodyLabel, p)
    requires text[b - 1] == '\n' && text[b..b + 6] == "Body: " && text[b + 6..] == body
    ensures BodyCapture(text) == Some(body)
  {
    assert text[b..b + |BodyLabel|] == text[b..b + 6][..5];
    assert LabelLineAt(text, BodyLabel, b);
    SkipTo(text, b + 5, b + 6);
  }

  /** A greedy `\s*` from `q` stops at `r` when the characters between are white space and the one at `r` is not. */
  lemma SkipTo(text: string, q: nat, r: nat)
    requires q <= r <= |text|
    requires forall i :: q <= i < r ==> IsSpace(text[i])
    requires r == |text| || !IsSpace(text[r])
    ensures SkipSpace(text, q) == r
  {
  }

  /** A greedy `.*` from `q` stops at `r` when no line terminator comes before it and one, or the end, is at `r`. */
  lemma LineEndAt(text: string, q: nat, r: nat)
    requires q <= r <= |text|
    requires forall i :: q <= i < r ==> !IsLineTerminator(text[i])
    requires r == |text| || IsLineTerminator(text[r])
    ensures LineEnd(text, q) == r
  {
  }

  /** Two strings without a line terminator joined make one. */
  lemma SingleLineConcat(a: string, b: string)
    requires SingleLine(a) && SingleLine(b)
    ensures SingleLine(a + b)
  {
  }

  /** Inside a single-line stretch of the text no line starts. */
  lemma NoLineStartWithin(text: string, lo: nat, hi: nat)
    requires lo <= hi <= |text| && SingleLine(text[lo..hi])
    ensures forall p :: lo < p <= hi ==> !LineStart(text, p)
  {
    forall p | lo < p <= hi ensures !LineStart(text, p) {
      assert text[p - 1] == text[lo..hi][p - 1 - lo];
    }
  }

  /** A line starting with `tag` starts with its first character. */
  lemma NotLabelLine(text: string, tag: string, p: nat)
    requires |tag| > 0 && p < |text|
    requires text[p] != tag[0] || (0 < p && !IsLineTerminator(text[p - 1]))
    ensures !LabelLineAt(text, tag, p)
  {
  }

  /** The URL line of a saved text, piece by piece. */
  lemma UrlLineLayout(codec: HeaderCodec, url: string, verb: string, rows: seq<HeaderRow>, body: string)
    ensures var text := ExportText(codec, url, verb, rows, body);
      var m := 6 + |url|;
      && m < |text|
      && text[..5] == "URL: " && text[5..m - 1] == url && text[m - 1] == '\n'
  {
  }

  /** The method line of a saved text, piece by piece. */
  lemma MethodLineLayout(codec: HeaderCodec, url: string, verb: string, rows: seq<HeaderRow>, body: string)
    ensures var text := ExportText(codec, url, verb, rows, body);
      var m := 6 + |url|;
      var h := m + 9 + |verb|;
      && h < |text|
      && text[m..m + 8] == "Method: " && text[m + 8..h - 1] == verb && text[h - 1] == '\n'
  {
  }

  /** The headers line of a saved text, piece by piece. */
  lemma HeadersLineLayout(codec: HeaderCodec, url: string, verb: string, rows: seq<HeaderRow>, body: string)
    ensures var enc := codec.encode(NamedRows(rows));
      var text := ExportText(codec, url, verb, rows, body);
      var h := 6 + |url| + 9 + |verb|;
      var b := h + 10 + |enc|;
      && b < |text|
      && text[h..h + 9] == "Headers: " && text[h + 9..b - 1] == enc && text[b - 1] == '\n'
  {
  }

  /** The body line of a saved text, piece by piece. */
  lemma BodyLineLayout(codec: HeaderCodec, url: string, verb: string, rows: seq<HeaderRow>, body: string)
    ensures var enc := codec.encode(NamedRows(rows));
      var text := ExportText(codec, url, verb, rows, body);
      var b := 6 + |url| + 9 + |verb| + 10 + |enc|;
      && |text| == b + 6 + |body|
      && text[b..b + 6] == "Body: " && text[b + 6..] == body
  {
  }

  /**
   * `\s*` after `URL:` crosses the newline: a draft saved with an empty URL
   * imports the whole method line as its URL.
   */
  lemma EmptyUrlReadsMethodLine(codec: HeaderCodec, verb: string, rows: seq<HeaderRow>, body: string)
    requires verb != "" && SingleLine(verb) && Trimmed(verb)
    ensures ParseImport(codec, ExportText(codec, "", verb, rows, body)).url == Some("Method: " + verb)
  {
    ExportedEmptyUrl(codec, verb, rows, body);
    ReadsUrl(codec, ExportText(codec, "", verb, rows, body), "Method: " + verb);
  }

  /** The URL pattern on a text saved with no URL. */
  lemma ExportedEmptyUrl(codec: HeaderCodec, verb: string, rows: seq<HeaderRow>, body: string)
    requires verb != "" && SingleLine(verb) && Trimmed(verb)
    ensures LineCapture(ExportText(codec, "", verb, rows, body), UrlLabel) == Some("Method: " + verb)
  {
    ExportTextLayout(codec, "", verb, rows, body);
    SavedEmptyUrl(ExportText(codec, "", verb, rows, body), verb, codec.encode(NamedRows(rows)), body);
  }

  /** With no URL the URL pattern's `\s*` skips the newline and `.*` takes the method line. */
  lemma SavedEmptyUrl(text: string, verb: string, enc: string, body: string)
    requires SavedLayout(text, "", verb, enc, body) && SingleLine(verb) && Trimmed(verb) && verb != ""
    ensures LineCapture(text, UrlLabel) == Some("Method: " + verb)
  {
    assert LabelLineAt(text, UrlLabel, 0) by {
      assert text[..4] == text[..5][..4];
    }
    SkipTo(text, 4, 6);
    LabelsSingleLine();
    SingleLineConcat("Method: ", verb);
    assert text[6..14 + |verb|] == text[6..14] + text[14..14 + |verb|];
    LineEndAt(text, 6, 14 + |verb|);
  }

  /**
   * The lazy headers capture ends at the first line starting with `Body:`
   * after it begins: the block is followed by such a line and holds none.
   */
  lemma HeadersBlockStopsAtFirstBodyLine(text: string, block: string) returns (q: nat)
    requires HeadersCapture(text) == Some(block)
    ensures q + |block| <= |text| && text[q..q + |block|] == block
    ensures LabelLineAt(text, BodyLabel, q + |block|)
    ensures forall p :: q <= p < q + |block| ==> !LabelLineAt(text, BodyLabel, p)
  {
    var h := FindLabel(text, HeadersLabel, 0).value;
    q := SkipSpace(text, h + |HeadersLabel|);
    var e := FindLabel(text, BodyLabel, q).value;
    assert block == text[q..e];
  }
}
