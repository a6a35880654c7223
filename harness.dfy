/**
 * `Sonar`: the harness. It builds a request and a response for each verb
 * call, hands them to the handler, and reports back to the caller's callback,
 * either at once (body parsing off) or once the body has been captured and
 * parsed and a later turn of the event loop has come (body parsing on).
 *
 * The handler and the callback are the caller's code; what they do is not
 * modelled, only when they are invoked. Each verb call gets a `Call` object
 * that records, as a ghost trace, the order in which the handler, the plugins
 * and the callback run. The event loop drives a call through explicit phases:
 * `OnData` and `OnEnd` are the response's `data` and `end` listeners, and
 * `NextTick` is the function deferred with `process.nextTick`.
 */
module Harness {
  import opened Wrappers
  import Content
  import Exchange
  import Capture
  import Text

  /** A registered plugin, by identity. */
  type PluginId = nat

  /** The recognised constructor options; `None` where the option is not
      given (for `plugins`, also where the value is not an array). */
  datatype Options = Options(parseBody: Option<bool>, plugins: Option<seq<PluginId>>)

  /** What a plugin receives: `response.body.$`. A window's `$` when the body
      is a jQuery-ified document; the `$` member of a decoded JSON object
      when that member is truthy. */
  datatype Accessor = Query(window: Content.Window) | Member(value: Content.JsonValue)

  /** `response.body && response.body.$`: the accessor the plugins are given,
      when there is one. An unassigned body and a raw string have none. */
  function QueryOf(body: Option<Content.ParsedBody>): (q: Option<Accessor>)
    ensures body.None? || body.value.Raw? ==> q.None?
    ensures body.Some? && body.value.Document? ==>
      (q.Some? <==> body.value.window.hasQuery) && (q.Some? ==> q.value == Query(body.value.window))
    ensures body.Some? && body.value.Json? ==>
      var v := body.value.value;
      && (q.Some? <==> v.Object? && "$" in v.members && Content.Truthy(v.members["$"]))
      && (q.Some? ==> q.value == Member(v.members["$"]))
  {
    match body
    case None => None
    case Some(Raw(_)) => None
    case Some(Document(w)) => if w.hasQuery then Some(Query(w)) else None
    case Some(Json(v)) =>
      if v.Object? && "$" in v.members && Content.Truthy(v.members["$"]) then
        Some(Member(v.members["$"]))
      else None
  }

  /** What one verb call shows to the caller's code, in order. `CallbackFired`
      records the error and the response body the callback is given. */
  datatype Event =
    | HandlerInvoked
    | PluginApplied(plugin: PluginId, accessor: Accessor)
    | CallbackFired(error: Option<Content.Fault>, body: Option<Content.ParsedBody>)

  /** Where a call with body parsing stands: the body is streaming, or it has
      been parsed and the callback waits for the next tick, or it is done. */
  datatype Stage = Streaming | Parsed | Done

  /** `plugins.forEach(implementation => implementation(response.body.$))`,
      run only when there is an accessor. */
  function PluginRun(plugins: seq<PluginId>, q: Option<Accessor>): (r: seq<Event>)
    ensures |r| == (if q.None? then 0 else |plugins|)
    ensures forall k :: 0 <= k < |r| ==> r[k].PluginApplied?
  {
    if q.None? || plugins == [] then []
    else PluginRun(plugins[..|plugins| - 1], q) + [PluginApplied(plugins[|plugins| - 1], q.value)]
  }

  /** Every registered plugin is applied exactly once, in registration order,
      to the same accessor, and only when there is an accessor. */
  lemma {:induction false} PluginsInRegistrationOrder(plugins: seq<PluginId>, q: Option<Accessor>)
    ensures q.None? ==> PluginRun(plugins, q) == []
    ensures q.Some? ==> |PluginRun(plugins, q)| == |plugins|
    ensures q.Some? ==> forall k :: 0 <= k < |plugins| ==>
      PluginRun(plugins, q)[k] == PluginApplied(plugins[k], q.value)
  {
    if q.Some? && plugins != [] {
      PluginsInRegistrationOrder(plugins[..|plugins| - 1], q);
    }
  }

  /** The order of a finished call with body parsing: the handler first, the
      callback last, and only plugin applications between them. */
  ghost predicate ParsingOrder(trace: seq<Event>) {
    && |trace| >= 2
    && trace[0] == HandlerInvoked
    && trace[|trace| - 1].CallbackFired?
    && forall k :: 0 < k < |trace| - 1 ==> trace[k].PluginApplied?
  }

  /** The trace of a call with body parsing, once its deferred callback has
      run, is in parsing order: handler, the plugins in registration order,
      then the callback, once. */
  lemma ParsedCallTrace(plugins: seq<PluginId>, q: Option<Accessor>,
                        error: Option<Content.Fault>, body: Option<Content.ParsedBody>)
    ensures var t := [HandlerInvoked] + PluginRun(plugins, q) + [CallbackFired(error, body)];
      && ParsingOrder(t)
      && t[1..|t| - 1] == PluginRun(plugins, q)
      && forall k :: 0 <= k < |t| - 1 ==> !t[k].CallbackFired?
  {
    PluginsInRegistrationOrder(plugins, q);
    var t := [HandlerInvoked] + PluginRun(plugins, q) + [CallbackFired(error, body)];
    assert forall k :: 0 < k < |t| - 1 ==> t[k] == PluginRun(plugins, q)[k - 1];
  }

  /** The state one verb call leaves behind: the request and response it
      built, the body capture (none when body parsing is off), the error the
      deferred callback will be given, and the trace. */
  class Call {
    const request: Exchange.Request
    const response: Exchange.Response
    const capture: Capture.BodyCapture?
    var stage: Stage
    var error: Option<Content.Fault>
    ghost var trace: seq<Event>

    constructor (request: Exchange.Request, response: Exchange.Response,
                 capture: Capture.BodyCapture?, stage: Stage, ghost trace: seq<Event>)
      ensures this.request == request && this.response == response && this.capture == capture
      ensures this.stage == stage && error == None && this.trace == trace
    {
      this.request := request;
      this.response := response;
      this.capture := capture;
      this.stage := stage;
      error := None;
      this.trace := trace;
    }

    /** The order guarantees at every stage. Without body parsing the
        callback has fired, with no error and no body, before the handler was
        invoked. With body parsing the handler runs first, and nothing else
        happens until the deferred callback. */
    ghost predicate Valid()
      reads this
    {
      if capture == null then
        stage == Done && trace == [CallbackFired(None, None), HandlerInvoked]
      else if stage == Done then
        ParsingOrder(trace)
      else
        trace == [HandlerInvoked]
    }
  }

  class Sonar {
    const parseBody: bool
    var jsonEnabled: bool
    var plugins: seq<PluginId>

    /** `Sonar(handler, options)`: body parsing unless the options turn it
        off, a copy of the option's plugins, JSON mode off. */
    constructor (options: Options)
      ensures parseBody == options.parseBody.GetOr(true)
      ensures plugins == options.plugins.GetOr([])
      ensures !jsonEnabled
    {
      parseBody := options.parseBody.GetOr(true);
      plugins := options.plugins.GetOr([]);
      jsonEnabled := false;
    }

    /** `plugin(implementation)`: appends and returns the same harness. */
    method Plugin(implementation: PluginId) returns (self: Sonar)
      modifies this
      ensures self == this
      ensures plugins == old(plugins) + [implementation]
      ensures jsonEnabled == old(jsonEnabled)
    {
      plugins := plugins + [implementation];
      self := this;
    }

    /** Reading `json`: turns JSON mode on for good and returns the same
        harness. Reading it again changes nothing. */
    method Json() returns (self: Sonar)
      modifies this
      ensures self == this && jsonEnabled
      ensures plugins == old(plugins)
      ensures old(jsonEnabled) ==> unchanged(this)
    {
      jsonEnabled := true;
      self := this;
    }

    /** `ping`: with body parsing, sets up the body capture and defers the
        callback; without it, fires the callback at once. Then invokes the
        handler and hands the request back. */
    method Ping(request: Exchange.Request, response: Exchange.Response) returns (call: Call)
      requires response.body == None
      modifies response
      ensures fresh(call) && call.request == request && call.response == response
      ensures call.Valid()
      ensures response.body == old(response.body)
      ensures parseBody ==> && call.capture != null && fresh(call.capture)
                            && call.capture.buffer == [] && call.stage == Streaming
                            && call.trace == [HandlerInvoked]
                            && response.encoding == Some("utf-8")
      ensures !parseBody ==> && call.capture == null && response.encoding == old(response.encoding)
                             && call.trace == [CallbackFired(None, old(response.body)), HandlerInvoked]
    {
      if parseBody {
        var capture := new Capture.BodyCapture();
        response.SetEncoding("utf-8");
        call := new Call(request, response, capture, Streaming, [HandlerInvoked]);
      } else {
        call := new Call(request, response, null, Done, [CallbackFired(None, response.body), HandlerInvoked]);
      }
    }

    /** What a verb call leaves: a request to `url` with method `verb` whose
        writes are the caller headers in order, then the JSON mode writes;
        a response to that request with no body yet; with body parsing an
        empty capture, the utf-8 encoding and only the handler invoked, and
        without it no encoding set and the callback already fired. */
    ghost predicate Built(verb: string, url: string, headers: Exchange.Headers,
                          request: Exchange.Request, call: Call)
      reads this, request, call, call.response, call.capture
    {
      && request.verb == verb && request.url == url
      && request.writes == Exchange.RequestWrites(headers, jsonEnabled)
      && call.request == request && call.response.request == request
      && call.Valid() && call.response.body == None
      && (parseBody <==> call.capture != null)
      && (parseBody ==> && call.capture.buffer == [] && call.stage == Streaming
                        && call.response.encoding == Some("utf-8"))
      && (!parseBody ==> call.response.encoding == None)
    }

    /** `createRequest`: a new request and response, the caller headers
        written one key at a time, then, in JSON mode, the `send` capability
        and the JSON content type; then `ping`. */
    method CreateRequest(verb: string, url: string, headers: Exchange.Headers)
      returns (request: Exchange.Request, call: Call)
      ensures fresh(request) && fresh(call) && fresh(call.response)
      ensures call.capture != null ==> fresh(call.capture)
      ensures Built(verb, url, headers, request, call)
    {
      request := new Exchange.Request(verb, url);
      var response := new Exchange.Response(request);
      for i := 0 to |headers|
        invariant request.writes == Exchange.HeaderWrites(headers[..i])
        invariant response.request == request && response.body == None && response.encoding == None
      {
        assert headers[..i + 1][..i] == headers[..i];
        request.SetHeader(headers[i].0, headers[i].1);
      }
      assert headers[..|headers|] == headers;
      if jsonEnabled {
        request.AttachSend();
        request.SetHeader(Exchange.ContentType, Content.JsonMime);
      }
      call := Ping(request, response);
    }

    /** The verbs: each its own method string; the two-argument form (no
        headers) sends none. */
    method Get(url: string, headers: Option<Exchange.Headers>) returns (request: Exchange.Request, call: Call)
      ensures fresh(request) && fresh(call) && fresh(call.response)
      ensures call.capture != null ==> fresh(call.capture)
      ensures Built("GET", url, headers.GetOr([]), request, call)
    {
      request, call := CreateRequest("GET", url, headers.GetOr([]));
    }

    method Post(url: string, headers: Option<Exchange.Headers>) returns (request: Exchange.Request, call: Call)
      ensures fresh(request) && fresh(call) && fresh(call.response)
      ensures call.capture != null ==> fresh(call.capture)
      ensures Built("POST", url, headers.GetOr([]), request, call)
    {
      request, call := CreateRequest("POST", url, headers.GetOr([]));
    }

    method Put(url: string, headers: Option<Exchange.Headers>) returns (request: Exchange.Request, call: Call)
      ensures fresh(request) && fresh(call) && fresh(call.response)
      ensures call.capture != null ==> fresh(call.capture)
      ensures Built("PUT", url, headers.GetOr([]), request, call)
    {
      request, call := CreateRequest("PUT", url, headers.GetOr([]));
    }

    method Delete(url: string, headers: Option<Exchange.Headers>) returns (request: Exchange.Request, call: Call)
      ensures fresh(request) && fresh(call) && fresh(call.response)
      ensures call.capture != null ==> fresh(call.capture)
      ensures Built("DELETE", url, headers.GetOr([]), request, call)
    {
      request, call := CreateRequest("DELETE", url, headers.GetOr([]));
    }

    /** The response's `data` listener: the chunk is pushed into the buffer.
        Without body parsing nobody listens. */
    method OnData(call: Call, chunk: string)
      modifies if call.capture == null then {} else {call.capture}
      ensures call.capture != null ==> call.capture.buffer == old(call.capture.buffer) + [chunk]
    {
      if call.capture != null {
        call.capture.Push(chunk);
      }
    }

    /** The response's `end` listener, which fires once: the captured text is
        parsed under the response's mime type; on success the result becomes
        `response.body`, on failure the body is left as it was and the fault
        is kept for the callback. Nothing is invoked yet: the callback waits
        for the next tick. Without body parsing nobody listens. */
    method OnEnd(call: Call, engines: Content.Engines,
                 ignoreFile: Result<Option<string>, Content.Fault>, mime: string)
      requires call.Valid()
      requires call.capture != null ==> call.stage == Streaming
      modifies call, call.response
      ensures call.Valid() && call.trace == old(call.trace)
      ensures call.response.encoding == old(call.response.encoding)
      ensures call.capture == null ==> unchanged(call, call.response)
      ensures call.capture != null ==>
        var r := Content.Parse(engines, ignoreFile, this, mime, call.capture.Joined());
        && call.stage == Parsed
        && (r.Ok? ==> call.response.body == Some(r.value) && call.error == None)
        && (r.Err? ==> call.response.body == old(call.response.body) && call.error == Some(r.error))
    {
      if call.capture != null {
        var r := Content.Parse(engines, ignoreFile, this, mime, call.capture.Joined());
        match r {
          case Ok(content) =>
            call.response.body := Some(content);
            call.error := None;
          case Err(fault) =>
            call.error := Some(fault);
        }
        call.stage := Parsed;
      }
    }

    /** The function deferred with `process.nextTick`: when the body has an
        accessor every plugin is applied to it in registration order, then
        the callback fires with the error, if any, and the response. */
    method NextTick(call: Call)
      requires call.Valid() && call.stage == Parsed
      modifies call
      ensures call.Valid() && call.stage == Done
      ensures call.trace == old(call.trace)
        + PluginRun(plugins, QueryOf(call.response.body))
        + [CallbackFired(call.error, call.response.body)]
      ensures call.error == old(call.error)
    {
      var q := QueryOf(call.response.body);
      if q.Some? {
        for i := 0 to |plugins|
          invariant call.trace == old(call.trace) + PluginRun(plugins[..i], q)
        {
          assert plugins[..i + 1][..i] == plugins[..i];
          call.trace := call.trace + [PluginApplied(plugins[i], q.value)];
        }
        assert plugins[..|plugins|] == plugins;
      }
      call.trace := call.trace + [CallbackFired(call.error, call.response.body)];
      call.stage := Done;
      ParsedCallTrace(plugins, q, call.error, call.response.body);
    }
  }

  /** One call with body parsing from start to finish: the verb call, the
      body arriving in chunks, the end of the stream, and the next tick. The
      text parsed is the chunks joined in arrival order; the handler runs
      first, then each plugin once, in registration order, then the callback,
      exactly once, with the outcome of that parse. */
  method ParsedGet(sonar: Sonar, url: string, chunks: seq<string>, engines: Content.Engines,
                   ignoreFile: Result<Option<string>, Content.Fault>, mime: string)
    returns (call: Call)
    requires sonar.parseBody
    ensures call.Valid() && call.stage == Done && call.capture != null
    ensures call.response.encoding == Some("utf-8")
    ensures call.capture.Joined() == Text.Concat(chunks)
    ensures var r := Content.Parse(engines, ignoreFile, sonar, mime, Text.Concat(chunks));
      && call.error == (if r.Err? then Some(r.error) else None)
      && call.response.body == (if r.Ok? then Some(r.value) else None)
      && call.trace == [HandlerInvoked]
                       + PluginRun(sonar.plugins, QueryOf(call.response.body))
                       + [CallbackFired(call.error, call.response.body)]
  {
    var request;
    request, call := sonar.Get(url, None);
    for i := 0 to |chunks|
      invariant call.Valid() && call.stage == Streaming && call.capture != null
      invariant call.capture.buffer == chunks[..i] && call.response.body == None
      invariant call.response.encoding == Some("utf-8")
    {
      assert chunks[..i + 1] == chunks[..i] + [chunks[i]];
      sonar.OnData(call, chunks[i]);
    }
    assert chunks[..|chunks|] == chunks;
    sonar.OnEnd(call, engines, ignoreFile, mime);
    sonar.NextTick(call);
  }
}
