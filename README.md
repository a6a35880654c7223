# sonar: a verified model of the test harness core

sonar is a test harness for Node.js request handlers. A `Sonar` wraps one
handler. For each verb call (`get`, `post`, `put`, `delete`) it builds a
synthetic request and response and copies the caller's headers onto the
request. It hands both to the handler and reports back to the caller's
callback. With body parsing on (the default), the response body is captured
and parsed by mime type:

- JSON text is decoded.
- HTML becomes a jQuery-ified window. The scripts listed in `.sonarignore` are
  excluded from it.
- Anything else is kept as raw text.

On the next turn of the event loop the registered plugins are applied to the
body's `$` accessor, then the callback fires. JSON mode (`sonar.json`) gives
each request a `send` that ends it with JSON text, and sets its content type
to JSON.

The model follows `lib/sonar.js` module by module:

| file | models |
|---|---|
| `wrappers.dfy` | `Option` and `Result` |
| `text.dfy` | the JavaScript string operations the code relies on: `trim` (ECMAScript white space and line terminators), `split("\n")`, `join("")` |
| `ignore.dfy` | `loadIgnore`, as a function on the file's contents and as the loop that fills the dictionary |
| `content.dfy` | `parse`, with the JSON decoder and the DOM engine as parameters that may fault |
| `exchange.dfy` | what the harness does to a request (header writes, `send`) and to a response (encoding, `body`) |
| `capture.dfy` | the chunk buffer of `body` |
| `harness.dfy` | the `Sonar` object: options, `plugin`, `json`, `createRequest`, `ping`, the verbs, and the `data`/`end`/next-tick phases of one call |

Each call records a ghost trace of what the caller's code sees: the handler
invoked, each plugin applied, and the callback fired. The proved ordering is
as follows.

- Without body parsing, the callback fires before the handler, with no error
  and no body.
- With body parsing, the handler runs first. Then each plugin runs exactly
  once, in registration order, and only when the body has a `$`. The callback
  fires last and exactly once, with the parse outcome.

Three behaviours of the code are easy to miss, and the model keeps them:

- Plugins run not only for an HTML window. They also run for a decoded JSON
  object whose `"$"` member is truthy, because the guard is
  `response.body && response.body.$`.
- `loadIgnore` is called inside `parse`'s `try`. A fault while reading the
  ignore file therefore reaches the callback as a parse error; it does not
  propagate.
- An ignore entry `__proto__` gives no key, because assigning to `__proto__` on
  a plain object creates no own property.

## Model

| member | source | states |
|---|---|---|
| Text.LeadingSpace | lib/sonar.js:21 | the white space `trim` removes at the front: a white-space prefix followed by a non-space character or the end |
| Text.TrailingSpace | lib/sonar.js:21 | the white space `trim` removes at the back: a white-space suffix preceded by a non-space character or the start |
| Text.TrimShape | lib/sonar.js:21 | `trim` returns a contiguous slice of the line, with only white space cut on either side, that neither starts nor ends with white space |
| Text.TrimmedIsFixed | lib/sonar.js:21 | a line already free of white space at both ends is unchanged by `trim` |
| Text.TrimIdempotent | lib/sonar.js:21 | trimming twice is trimming once |
| Text.TrimAllSpace | lib/sonar.js:21 | a line of white space trims to the empty string |
| Text.Trim | lib/sonar.js:21 | `trim` never lengthens a line, and what it returns neither starts nor ends with white space |
| Text.Split | lib/sonar.js:20 | `split` returns at least one piece, and no piece contains the separator |
| Text.JoinSplit | lib/sonar.js:20 | joining the pieces of `split` with the separator gives back the text |
| Text.SplitSeparatorFreePrefix | lib/sonar.js:20 | a separator-free prefix is glued onto the first piece of the rest |
| Text.SplitJoin | lib/sonar.js:20 | splitting a join of separator-free pieces gives back the pieces |
| Text.ConcatAppend | lib/sonar.js:86 | `join("")` of two runs of chunks is the join of each, concatenated |
| Text.ConcatKeepsChunk | lib/sonar.js:86 | every chunk appears unchanged in the joined body, at the offset of the chunks before it |
| Text.Concat | lib/sonar.js:86 | `join("")` is at least as long as each chunk it joins |
| Ignore.NormalizeStripsOneSlash | lib/sonar.js:21-25 | an entry is the trimmed line, minus its last character exactly when that is `/` |
| Ignore.Normalize | lib/sonar.js:21-25 | an entry is no longer than its trimmed line and does not start with white space |
| Ignore.NonEmpty | lib/sonar.js:26-28 | the filter keeps exactly the non-empty entries |
| Ignore.Entries | lib/sonar.js:20-27 | the file's entries are all non-empty, at most one per line |
| Ignore.Record | lib/sonar.js:28-30 | the `forEach` leaves exactly the recorded entries as keys, except `__proto__` |
| Ignore.LoadIgnore | lib/sonar.js:13-34 | an absent file ignores nothing; otherwise the keys are exactly the file's normalised, non-empty entries |
| Ignore.IgnoreSet | lib/sonar.js:13-34 | an absent file ignores nothing; neither the empty path nor `__proto__` is ever ignored |
| Ignore.IgnoreSetMembers | lib/sonar.js:17-33 | a path is ignored iff some line normalises to it, and it is neither empty nor `__proto__` |
| Ignore.DroppedLines | lib/sonar.js:20-28 | a line is dropped iff it trims to nothing or to a lone `/` |
| Ignore.OnlyDistinctLinesMatter | lib/sonar.js:20-30 | reordering or repeating lines of the file does not change the ignore set |
| Ignore.PlainEntryKept | lib/sonar.js:21-25 | an entry with no surrounding white space and no final `/` is kept verbatim |
| Ignore.DirectoryEntryStripped | lib/sonar.js:22-24 | one final `/` is stripped from a directory entry |
| Ignore.SlashBlankAndFinalBreak | lib/sonar.js:17-33 | a file "a/", a blank line, "b" and a final line break ignores exactly {a, b} |
| Content.ParseHtml | lib/sonar.js:56-68 | the document gets the ignore set and the harness before any content is written; the first of the five steps (create, read the ignore file, write, create the window, jQuery-ify) that faults ends the parse with that fault; the parse succeeds exactly when all five do, with the jQuery-ified window |
| Content.ContentWrittenOnlyIntoConfiguredDocument | lib/sonar.js:57-62 | content is written only into a document that already holds the ignore set and the harness |
| Content.Parse | lib/sonar.js:50-76 | the JSON mime decodes (its fault is the error); HTML yields the window of the HTML parse; any other mime passes the text through; the result's kind matches the mime |
| Exchange.Request.constructor | lib/sonar.js:98 | a new request has its method and url and no writes yet |
| Exchange.Response.constructor | lib/sonar.js:99 | a new response belongs to its request, with no encoding and no body yet |
| Exchange.Request.SetHeader | lib/sonar.js:102 | a header write is appended to the request's writes |
| Exchange.Request.AttachSend | lib/sonar.js:106 | the `send` capability is attached |
| Exchange.Request.Send | lib/sonar.js:36-38 | `send` ends the request with the JSON text of its argument, and only where it was attached |
| Exchange.Response.SetEncoding | lib/sonar.js:81 | the encoding is set and the body is left alone |
| Exchange.HeaderWrites | lib/sonar.js:101-103 | copying the caller headers makes one header write per header and no other kind of write |
| Exchange.RequestWrites | lib/sonar.js:101-108 | `createRequest` makes two writes beyond the caller headers in JSON mode and none outside it, and attaches `send` exactly in JSON mode |
| Exchange.HeaderWritesInOrder | lib/sonar.js:101-103 | one write per caller header, in key order, with the caller's name and value |
| Exchange.CallerHeaderValue | lib/sonar.js:101-103 | each header the caller names ends with the caller's value |
| Exchange.UnnamedHeaderAbsent | lib/sonar.js:101-103 | no header the caller does not name is written |
| Exchange.JsonModeHeaders | lib/sonar.js:101-108 | in JSON mode the content type ends as JSON, overriding the caller; every other header keeps the caller's value |
| Capture.BodyCapture.Push | lib/sonar.js:82-84 | the captured text grows by exactly the chunk, at its end |
| Capture.BodyCapture.constructor | lib/sonar.js:79 | the buffer starts empty |
| Harness.QueryOf | lib/sonar.js:120 | the accessor is the window when it is jQuery-ified, or a JSON object's truthy `"$"` member; there is none otherwise |
| Harness.PluginsInRegistrationOrder | lib/sonar.js:120-124 | with an accessor, every plugin is applied exactly once, in registration order; without one, none is applied |
| Harness.PluginRun | lib/sonar.js:120-124 | one plugin application per registered plugin when there is an accessor, none otherwise, and nothing else |
| Harness.ParsedCallTrace | lib/sonar.js:118-126 | the deferred step puts the plugins strictly between the handler and a single, final callback |
| Harness.Sonar.constructor | lib/sonar.js:41-48 | body parsing defaults to on; plugins default to none; JSON mode starts off |
| Harness.Sonar.Plugin | lib/sonar.js:156-159 | the plugin is appended, and the same harness is returned |
| Harness.Sonar.Json | lib/sonar.js:179-184 | JSON mode is turned on for good, and the same harness is returned |
| Harness.Sonar.Ping | lib/sonar.js:113-135 | with parsing: utf-8 encoding, an empty capture, and only the handler invoked so far; without parsing: the callback fired (no error, no body) and then the handler |
| Harness.Sonar.CreateRequest | lib/sonar.js:97-111 | a fresh request and response whose writes are the caller headers in order, then, in JSON mode, `send` and the JSON content type; then the state `ping` leaves |
| Harness.Sonar.Get | lib/sonar.js:147-154 | a GET request to the url; the two-argument form sends no headers |
| Harness.Sonar.Post | lib/sonar.js:161-168 | a POST request to the url; the two-argument form sends no headers |
| Harness.Sonar.Put | lib/sonar.js:170-177 | a PUT request to the url; the two-argument form sends no headers |
| Harness.Sonar.Delete | lib/sonar.js:138-145 | a DELETE request to the url; the two-argument form sends no headers |
| Harness.Sonar.OnData | lib/sonar.js:82-84 | each chunk goes to the end of the buffer; nothing listens without parsing |
| Harness.Sonar.OnEnd | lib/sonar.js:85-94 | the joined buffer is parsed under the response's mime; success sets the body, failure keeps the body and holds the fault for the callback; the encoding is untouched; nothing is invoked yet |
| Harness.Sonar.NextTick | lib/sonar.js:118-126 | the plugins run on the body's accessor, then the callback fires once with the error and the body |
| Harness.ParsedGet | lib/sonar.js:78-135 | a whole parsed call: the body parsed is the chunks joined in order; the trace is handler, plugins, callback with that parse's outcome |

## Left out

- File system: whether `.sonarignore` exists and what it holds is a parameter. A read fault is an `Err` value.
- `JSON.parse` and the DOM engine (`jsdom`, `document.write`, `createWindow`, `jQueryify`) are foreign code. They are function-valued parameters that may fail. Script execution inside the document is not modelled.
- Exchange.Request.Send: `JSON.stringify` is a total `encode` parameter on JSON values, and `send` is modelled for JSON payloads only. Its throws (a cyclic value, a BigInt) and its `undefined` result (for `undefined` or a function, which ends the request with `end(undefined)`) are not modelled.
- The mime lookup of `connect` is not modelled. `OnEnd` takes the mime string it returns.
- The `Request` and `Response` classes (`lib/Request.js`, `lib/Response.js`) are not part of this model. A request is reduced to its verb, url and the writes made to it; a response to its encoding and `body`.
- Exchange.Request.SetHeader: does not model how a header store merges repeated or differently-cased names. The final value is the last write (`LastValue`).
- The event loop is made explicit phases (`OnData`, `OnEnd`, `NextTick`) driven by the caller. The `end` event fires once, after all `data` events.
- Harness.Sonar.OnEnd: every fault is taken to be truthy. The code tests `if (error)` on whatever `parse`'s `catch` received. A thrown falsy value (`undefined`, `null`, `0`, `""`, `false`) therefore counts as success there: `response.body` becomes `undefined` and the callback gets a null error. The model instead keeps the old body and holds the fault.
- Content.ParseHtml: the asynchronous completion of `jQueryify` is collapsed into the `end` phase. A fault raised by it later, outside `parse`'s `try`, is modelled as a parse error.
- What the handler and the callback do is not modelled; only when they are invoked. A handler that itself writes `response.body` is not captured.
- Harness.Sonar.constructor: `parseBody` is taken as a boolean. A present but non-boolean option is assumed already reduced to its truthiness; a present `undefined` counts as off. Which plugin an id stands for is opaque.
- UTF-8 decoding of the streamed bytes is not modelled. Chunks arrive as text.
- The verbs' `arguments.length === 2` test is reduced to an `Option` of headers. Calls with other argument counts are not modelled.
- Plugins are identities. Their effect on the accessor is not modelled.
