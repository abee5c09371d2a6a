# Request draft of the API explorer

This project models the request draft that the single `App` component of the
API explorer keeps. The draft has:

- a method, a URL, a list of header rows and a body;
- the slot that receives the last response;
- the active tab.

It models the handlers that change the draft:

- edit, add and remove a header row;
- build the outbound request in `handleSend`;
- write the save file in `handleSave`;
- parse a save file in `handleImport`;
- reset everything in `handleClear`.

The model is split into modules:

- `Text` (text.dfy): the JavaScript string operations the import relies on. These are the line terminators of a multiline regex, the white space of `\s` and `trim`, `toUpperCase`, and the `replace(/^\n+|\n+$/g, '')` clean-up.
- `Headers` (headers.dfy): the header rows and their operations.
  - The `map`, spread and `filter` expressions are pure functions.
  - The filter that keeps rows with a key is `NamedRows`.
  - The `reduce` that builds the header object is a loop over an accumulator map (`FlattenHeaders`), proved equal to the fold `Flattened`.
- `Outbound` (outbound.dfy): the request `handleSend` gives to `fetch`. This covers the empty-URL guard, the flattened headers and the body rule.
- `Transfer` (transfer.dfy): the save text (`ExportText`) and the import parser.
  - The four regular expressions are modelled as a search for a label at the start of a line (`FindLabel`), a greedy `\s*` (`SkipSpace`) and a greedy `.*` up to the line end (`LineEnd`).
  - The lazy headers capture ends at the first line starting with `Body:`.
  - `ParseImport` gives, field by field, the value the import assigns, or `None` when the field is left alone.
- `App` (app.dfy): the class `Draft`.
  - Each `useState` slot except the dark-mode flag is a field, and each handler is a method that assigns those fields in the order the handler calls the setters.
  - `Draft.Import` performs the four matches and then the guarded assignments. `DecodeHeaders` is the headers branch, step by step.

`JSON.stringify` and `JSON.parse` are not re-implemented. They are supplied as a `HeaderCodec`, a pair of functions:

- `encode` yields the pretty-printed array;
- `decode` yields `Invalid` for a throw, `NotArray`, or `Array(rows)`.

The round trip takes "the codec reads back its own output" as a precondition, for the one array it needs, rather than as a general fact.

Properties proved:

- Save then import restores the URL, the upper-cased method, the rows with a key (in order) and the body (`ExportImportRoundTrip`, `SaveThenImport`). This holds when:
  - URL and method are non-empty single lines with no surrounding white space;
  - the body has no surrounding white space;
  - some row has a key;
  - the codec reads back what it wrote;
  - the encoded array is non-empty, has no white space at either end, and no line inside it starts with `B` (`Framed`).
- A draft saved with an empty URL is read back with the whole `Method: …` line as its URL, because `\s*` after `URL:` skips the newline (`EmptyUrlReadsMethodLine`).

Two consequences of the code shape the model:

- **The method.** The method selector offers five methods (src/App.jsx:4), but the import assigns any trimmed, upper-cased string (src/App.jsx:87), so the method is a `string`.
- **The round trip.** The import trims the URL and the body (src/App.jsx:86, 102), so the round trip requires that they have no surrounding white space.

## Model

| member | source | states |
|---|---|---|
| Headers.EditRow | src/App.jsx:15-20 | the list keeps its length; row `idx` gets the value in the chosen field and keeps the other field; every other row, and the whole list for an index out of range, is unchanged |
| Headers.AppendRow | src/App.jsx:22-24 | the old rows are a prefix of the result, followed by exactly one empty row |
| Headers.RemoveRow | src/App.jsx:26-28 | an index in range drops exactly that row: rows before it stay, rows after it move down one place, and the length drops by one; an index out of range changes nothing |
| Headers.RemoveOfferedKeepsARow | src/App.jsx:226-235 | when the remove button is shown (more than one row), removing any row leaves the list non-empty |
| Headers.RemoveUndoesAppend | src/App.jsx:22-28 | removing the row just added gives back the list from before the add |
| Headers.NamedRows | src/App.jsx:62 | the filtered list is no longer than the input and every row in it has a non-empty key |
| Headers.NamedRowsMembers | src/App.jsx:62 | a row survives the filter exactly when it is in the list and its key is non-empty |
| Headers.NamedRowsConcat | src/App.jsx:62 | the filter works piece by piece, so saved rows keep their relative order |
| Headers.NamedRowsOfNamed | src/App.jsx:62 | a list whose rows all have keys passes the filter unchanged |
| Headers.FlattenedKeys | src/App.jsx:33-36 | a key is in the header object exactly when it is non-empty and some row carries it |
| Headers.FlattenedLastWins | src/App.jsx:33-36 | a key maps to the value of the last row that carries it |
| Headers.FlattenHeaders | src/App.jsx:33-36 | the `reduce` loop, updating its accumulator row by row, yields the fold `Flattened` |
| Outbound.PrepareRequest | src/App.jsx:30-43 | no request exactly when the URL is empty; otherwise URL and method as given and headers flattened; a body exactly when the method is POST, PUT or PATCH and the body is non-empty, so GET and DELETE never carry one |
| Text.TrimStartSuffix | src/App.jsx:86 | the start of `trim` keeps a suffix, drops only white space and leaves none in front |
| Text.TrimEndPrefix | src/App.jsx:86 | the end of `trim` keeps a prefix, drops only white space and leaves none at the end |
| Text.TrimTrims | src/App.jsx:86-89 | the result of `trim` has no white space at either end and is no longer than its input |
| Text.TrimFixedPoint | src/App.jsx:86-89 | `trim` leaves a string unchanged exactly when it has no white space at either end |
| Text.TrimIdempotent | src/App.jsx:86-89 | trimming twice is trimming once |
| Text.TrimDropsTrailingSpace | src/App.jsx:89 | a white-space character after a trimmed string is removed by `trim` |
| Text.UpperChar | src/App.jsx:87 | upper-casing maps each letter a-z to the capital at the same place in the alphabet, yields no lower-case ASCII letter, leaves every other character alone and keeps white space and line terminators as they are |
| Text.ToUpper | src/App.jsx:87 | upper-casing keeps the length and maps each character by `UpperChar` |
| Text.DropLeadingNewlinesSuffix | src/App.jsx:91 | the leading-LF part of the clean-up keeps a suffix, drops only LF and leaves no LF in front |
| Text.DropTrailingNewlinesPrefix | src/App.jsx:91 | the trailing-LF part of the clean-up keeps a prefix, drops only LF and leaves no LF at the end |
| Text.StripNewlinesStrips | src/App.jsx:91 | after the clean-up the block neither starts nor ends with LF and is no longer |
| Text.StripNewlinesAfterTrim | src/App.jsx:89-91 | after `trim` the newline clean-up removes nothing |
| Transfer.FindLabel | src/App.jsx:82-85 | the result is the leftmost position, from the search start on, where a line starts with the label; none exactly when no such line exists |
| Transfer.SkipSpace | src/App.jsx:82-85 | greedy `\s*`: everything skipped is white space and the character where it stops is not |
| Transfer.LineEnd | src/App.jsx:82-83 | greedy `.*` before `$`: it stops at the first line terminator or at the end of the text |
| Transfer.ImportedHeaders | src/App.jsx:89-100 | the headers an import assigns are never an empty list |
| Transfer.ImportFieldPresence | src/App.jsx:82-87 | the import sets the URL, the method and the body exactly when some line of the file starts with their label |
| Transfer.ImportHeadersPresence | src/App.jsx:84 | the import sets the headers exactly when a line starting with `Headers:` is followed by a line starting with `Body:` |
| Transfer.ImportedValuesNormalised | src/App.jsx:86-87 | the imported URL, method and body have no surrounding white space, and the imported method has no lower-case ASCII letter |
| Transfer.ImportHeadersFallback | src/App.jsx:93-100 | a block that does not decode to a non-empty array leaves exactly one empty row; URL, method and body are assigned as for any other block |
| Transfer.HeadersBlockStopsAtFirstBodyLine | src/App.jsx:84 | the lazy headers capture is followed by a line starting with `Body:` and contains no such line |
| Transfer.ExportImportRoundTrip | src/App.jsx:58-102 | importing a saved draft gives back its URL, its upper-cased method, its rows with a key in order, and its body |
| Transfer.EmptyUrlReadsMethodLine | src/App.jsx:65-82 | a draft saved with an empty URL is imported with `Method: <method>` as its URL |
| Transfer.ExportText | src/App.jsx:65 | the template string of `handleSave`, as a definition; its line-by-line layout is `ExportTextLayout` and its meaning is given by `ExportImportRoundTrip` |
| Transfer.LineCapture | src/App.jsx:82-83 | group 1 of `/^tag\s*(.*)$/m`, as a definition built from `FindLabel`, `SkipSpace` and `LineEnd`; characterised by `ImportFieldPresence` |
| Transfer.HeadersCapture | src/App.jsx:84 | group 1 of the lazy headers pattern, as a definition; characterised by `ImportHeadersPresence` and `HeadersBlockStopsAtFirstBodyLine` |
| Transfer.BodyCapture | src/App.jsx:85 | group 1 of `/^Body:\s*([\s\S]*)/m`, as a definition; characterised by `ImportFieldPresence` |
| Transfer.ParseImport | src/App.jsx:86-102 | the four field values the import assigns, as a definition; characterised by `ImportFieldPresence`, `ImportHeadersPresence`, `ImportedValuesNormalised`, `ImportHeadersFallback` and `ExportImportRoundTrip` |
| Transfer.ImportedUrl | src/App.jsx:86 | the trimmed URL capture, as a definition; characterised by `ImportFieldPresence` and `ImportedValuesNormalised` |
| Transfer.ImportedVerb | src/App.jsx:87 | the trimmed, upper-cased method capture, as a definition; characterised by `ImportFieldPresence` and `ImportedValuesNormalised` |
| Transfer.ImportedRows | src/App.jsx:88-101 | the decoded headers block, as a definition; characterised by `ImportHeadersPresence` and `ImportHeadersFallback` |
| Transfer.ImportedBody | src/App.jsx:102 | the trimmed body capture, as a definition; characterised by `ImportFieldPresence` and `ImportedValuesNormalised` |
| Headers.Flattened | src/App.jsx:33-36 | the `reduce` as a fold, as a definition; characterised by `FlattenedKeys` and `FlattenedLastWins`, and computed by `FlattenHeaders` |
| Outbound.BodyAttached | src/App.jsx:41 | `['POST', 'PUT', 'PATCH'].includes(method) && body`, as a definition; used by `PrepareRequest`, whose contract states the rule both ways |
| Text.Trim | src/App.jsx:86 | `String.prototype.trim`, as a definition; characterised by `TrimStartSuffix`, `TrimEndPrefix`, `TrimTrims` and `TrimFixedPoint` |
| Text.StripNewlines | src/App.jsx:91 | `replace(/^\n+|\n+$/g, '')`, as a definition; characterised by `DropLeadingNewlinesSuffix`, `DropTrailingNewlinesPrefix` and `StripNewlinesStrips` |
| App.Draft.constructor | src/App.jsx:7-12 | the initial state: GET, empty URL, headers tab, one empty row, empty body, no response |
| App.Draft.HandleHeaderChange | src/App.jsx:15-20 | the rows become `EditRow` of the old rows, and a non-empty table stays non-empty |
| App.Draft.AddHeaderRow | src/App.jsx:22-24 | the rows become `AppendRow` of the old rows |
| App.Draft.RemoveHeaderRow | src/App.jsx:26-28 | the rows become `RemoveRow` of the old rows, and a removal offered by the table keeps a row |
| App.Draft.Send | src/App.jsx:30-56 | an empty URL builds nothing and leaves the response alone; otherwise the request is the prepared one and the outcome fills the response slot |
| App.Draft.Save | src/App.jsx:58-65 | the saved text is `ExportText` of the current draft |
| App.Draft.Import | src/App.jsx:78-102 | each of URL, method, headers and body takes the value `ParseImport` gives for it, or keeps its old value when its label is missing; a non-empty table stays non-empty |
| App.DecodeHeaders | src/App.jsx:88-100 | the step-by-step headers branch yields `ImportedHeaders`, which is never empty |
| App.Draft.Clear | src/App.jsx:110-117 | every field returns to its initial value |
| App.SaveThenImport | src/App.jsx:58-102 | saving a draft and importing the text restores URL and body, upper-cases the method and keeps the rows with a key |

## Left out

- The `fetch` call, the content-type check and the `res.json()`/`res.text()` decoding (src/App.jsx:44-54) are network I/O. The outcome of a send is a parameter of `Draft.Send`, a value of `Response`.
- Two overlapping sends racing to write the response slot are left out. They are asynchronous, and the model has no concurrency.
- The Blob, object URL and anchor click of `handleSave`, the FileReader and the file input of `handleImport` (including the early return when no file is chosen), and the `alert` in the import's `catch` are browser I/O and are left out. For string input nothing inside that `try` throws, so the model has no error path there and no partial update to roll back.
- `JSON.stringify(…, null, 2)` and `JSON.parse` are library calls, supplied as a `HeaderCodec` and not re-implemented.
- Transfer.Decoded: `JSON.parse` can return an array of things that are not rows (numbers, objects with other keys, missing fields). The model's `Array` case carries only well-formed rows.
- Transfer.ExportImportRoundTrip: the round trip holds only for a codec that reads back its own output and whose output is `Framed`. `JSON.stringify` does not escape U+2028 or U+2029, so a header holding one of them in a key or value can break the framing.
- Text.UpperChar: only the ASCII letters a-z are upper-cased; every other character, including é and other non-ASCII lower-case letters that `toUpperCase` maps, is left alone.
- Text.ToUpper: only the ASCII letters a-z are upper-cased. Full Unicode case mapping is left out, including mappings that change the length, such as ß to SS.
- Headers.Flattened: keys are entries of a map. On a plain JavaScript object, `acc['__proto__'] = value` with a string value adds no own entry, so such a row is dropped from the request, while the model keeps it.
- The full JavaScript regular-expression engine is left out. The model covers only the four patterns used, as searches for a label at a line start.
- Rendering, the dark-mode toggle, the tab buttons, the method selector, the CSS classes and the response pretty-printing are presentation only. The plain setters wired to the inputs (`setMethod`, `setUrl`, `setBody`, `setActiveTab`) are single field assignments and are not modelled as separate methods.
- React batches the setter calls of one handler. Each handler sets every field at most once, so applying them in order, as the model does, gives the same final state.
