/**
 * `parse`: the body text of a response, dispatched on its mime type to the
 * JSON decoder, to the DOM engine, or passed through. The decoder and the DOM
 * engine are foreign code; they appear here as function-valued parameters
 * that may fail, and every failure comes back as an `Err` value, never as an
 * exception.
 */
module Content {
  import opened Wrappers
  import Ignore

  const JsonMime := "application/json"
  const HtmlMime := "text/html"

  /** An exception raised by foreign code: the JSON decoder, the DOM engine,
      or the file system while the ignore file is read. */
  datatype Fault = Fault(message: string)

  /** A value as `JSON.parse` returns it. A number is `mantissa` times ten to
      the `exponent`; an object keeps the last of repeated keys. */
  datatype JsonValue =
    | Null
    | Bool(b: bool)
    | Number(mantissa: int, exponent: int)
    | Str(s: string)
    | Array(items: seq<JsonValue>)
    | Object(members: map<string, JsonValue>)

  /** JavaScript truthiness of a decoded value. */
  predicate Truthy(v: JsonValue) {
    match v
    case Null => false
    case Bool(b) => b
    case Number(m, _) => m != 0
    case Str(s) => s != []
    case Array(_) => true
    case Object(_) => true
  }

  /** The document the DOM engine builds. `ignoreScripts` and `sonar` are the
      two properties the harness sets on it; `markup` stands for the engine's
      own state. */
  datatype HtmlDocument = HtmlDocument(
    ignoreScripts: Option<set<string>>,
    sonar: Option<object>,
    markup: string)

  /** The window of a document; `hasQuery` says whether it carries the `$`
      accessor that jQuery-ification adds. */
  datatype Window = Window(document: HtmlDocument, hasQuery: bool)

  /** The DOM engine: `jsdom()`, `document.write`, `createWindow` and
      `jQueryify`. Each may raise a fault. */
  datatype DomEngine = DomEngine(
    create: Result<HtmlDocument, Fault>,
    write: (HtmlDocument, string) -> Result<HtmlDocument, Fault>,
    createWindow: HtmlDocument -> Result<Window, Fault>,
    jQueryify: Window -> Result<Window, Fault>)

  /** The foreign engines `parse` calls: `JSON.parse` and the DOM engine. */
  datatype Engines = Engines(
    decode: string -> Result<JsonValue, Fault>,
    dom: DomEngine)

  /** What `parse` hands back on success: exactly one of the three. */
  datatype ParsedBody =
    | Json(value: JsonValue)
    | Document(window: Window)
    | Raw(text: string)

  /** The document as it is before any content is written into it: the
      ignore list loaded for this parse and the back-reference to the
      harness are both set. */
  predicate Configured(d: HtmlDocument, ignore: set<string>, harness: object) {
    d.ignoreScripts == Some(ignore) && d.sonar == Some(harness)
  }

  /** The `text/html` branch: an empty document, the ignore list and the
      harness set on it, the content written, a window made from it and
      jQuery-ified. The first step that faults ends the parse with that fault.
      `ignoreFile` is the outcome of reading the ignore file: `Err` when the
      file system raised a fault, otherwise its contents if it exists. */
  function ParseHtml(dom: DomEngine, ignoreFile: Result<Option<string>, Fault>,
                     harness: object, content: string): (r: Result<Window, Fault>)
    ensures dom.create.Err? ==> r == Err(dom.create.error)
    ensures dom.create.Ok? && ignoreFile.Err? ==> r == Err(ignoreFile.error)
    ensures dom.create.Ok? && ignoreFile.Ok? ==>
      var d := dom.create.value.(ignoreScripts := Some(Ignore.IgnoreSet(ignoreFile.value)),
                                 sonar := Some(harness));
      && (dom.write(d, content).Err? ==> r == Err(dom.write(d, content).error))
      && (dom.write(d, content).Ok? ==>
            var w := dom.createWindow(dom.write(d, content).value);
            && (w.Err? ==> r == Err(w.error))
            && (w.Ok? ==> r == dom.jQueryify(w.value)))
    ensures r.Ok? <==>
      && dom.create.Ok? && ignoreFile.Ok?
      && var d := dom.create.value.(ignoreScripts := Some(Ignore.IgnoreSet(ignoreFile.value)),
                                    sonar := Some(harness));
         && dom.write(d, content).Ok?
         && dom.createWindow(dom.write(d, content).value).Ok?
         && dom.jQueryify(dom.createWindow(dom.write(d, content).value).value).Ok?
  {
    match dom.create
    case Err(f) => Err(f)
    case Ok(empty) =>
      match ignoreFile
      case Err(f) => Err(f)
      case Ok(file) =>
        var document := empty.(ignoreScripts := Some(Ignore.IgnoreSet(file)), sonar := Some(harness));
        match dom.write(document, content)
        case Err(f) => Err(f)
        case Ok(written) =>
          match dom.createWindow(written)
          case Err(f) => Err(f)
          case Ok(window) => dom.jQueryify(window)
  }

  /** The content only ever meets a configured document: two engines that
      differ only in what `write` does to documents that are not configured
      give the same outcome. */
  lemma ContentWrittenOnlyIntoConfiguredDocument(
    e1: DomEngine, e2: DomEngine, ignoreFile: Result<Option<string>, Fault>,
    harness: object, content: string)
    requires e1.create == e2.create && e1.createWindow == e2.createWindow
    requires e1.jQueryify == e2.jQueryify
    requires ignoreFile.Ok? ==>
      forall d :: Configured(d, Ignore.IgnoreSet(ignoreFile.value), harness) ==>
        e1.write(d, content) == e2.write(d, content)
    ensures ParseHtml(e1, ignoreFile, harness, content) == ParseHtml(e2, ignoreFile, harness, content)
  {
    if e1.create.Ok? && ignoreFile.Ok? {
      var d := e1.create.value.(ignoreScripts := Some(Ignore.IgnoreSet(ignoreFile.value)),
                                sonar := Some(harness));
      assert Configured(d, Ignore.IgnoreSet(ignoreFile.value), harness);
    }
  }

  /** `parse`: JSON text is decoded, HTML becomes a document, anything else is
      handed back as it is. A fault anywhere is the `Err` outcome. */
  function Parse(engines: Engines, ignoreFile: Result<Option<string>, Fault>,
                 harness: object, mime: string, content: string): (r: Result<ParsedBody, Fault>)
    ensures mime != JsonMime && mime != HtmlMime ==> r == Ok(Raw(content))
    ensures mime == JsonMime ==>
      && (r.Ok? <==> engines.decode(content).Ok?)
      && (r.Ok? ==> r.value == Json(engines.decode(content).value))
      && (r.Err? ==> r.error == engines.decode(content).error)
    ensures r.Ok? ==> (r.value.Json? <==> mime == JsonMime) && (r.value.Document? <==> mime == HtmlMime)
    ensures mime == HtmlMime ==>
      var w := ParseHtml(engines.dom, ignoreFile, harness, content);
      && (r.Ok? <==> w.Ok?)
      && (r.Ok? ==> r.value == Document(w.value))
      && (r.Err? ==> r.error == w.error)
  {
    if mime == JsonMime then
      match engines.decode(content)
      case Ok(v) => Ok(Json(v))
      case Err(f) => Err(f)
    else if mime == HtmlMime then
      match ParseHtml(engines.dom, ignoreFile, harness, content)
      case Ok(w) => Ok(Document(w))
      case Err(f) => Err(f)
    else
      Ok(Raw(content))
  }
}
