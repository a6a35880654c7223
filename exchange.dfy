/**
 * The synthetic request and response one verb call builds. Their classes
 * live outside the harness; only what the harness does to them is modelled:
 * the header writes and the `send` capability on the request, the encoding
 * and the parsed `body` on the response.
 */
module Exchange {
  import opened Wrappers
  import Content

  const ContentType := "Content-Type"

  /** Caller headers in the order `Object.keys` lists them. */
  type Headers = seq<(string, string)>

  /** One change made to a request, in the order made. `SendAttached` is the
      assignment of the `send` capability; `Ended` is the request being ended
      with a payload. */
  datatype RequestWrite =
    | HeaderWrite(name: string, value: string)
    | SendAttached
    | Ended(payload: string)

  class Request {
    const verb: string
    const url: string
    var writes: seq<RequestWrite>

    constructor (verb: string, url: string)
      ensures this.verb == verb && this.url == url && writes == []
    {
      this.verb := verb;
      this.url := url;
      writes := [];
    }

    /** `request.setHeader(name, value)`. */
    method SetHeader(name: string, value: string)
      modifies this
      ensures writes == old(writes) + [HeaderWrite(name, value)]
    {
      writes := writes + [HeaderWrite(name, value)];
    }

    /** `request.send = send`. */
    method AttachSend()
      modifies this
      ensures writes == old(writes) + [SendAttached]
    {
      writes := writes + [SendAttached];
    }

    predicate CanSend()
      reads this
    {
      SendAttached in writes
    }

    /** `send(object)`: ends the request with the JSON text of `payload`. */
    method Send(payload: Content.JsonValue, encode: Content.JsonValue -> string)
      requires CanSend()
      modifies this
      ensures writes == old(writes) + [Ended(encode(payload))]
    {
      writes := writes + [Ended(encode(payload))];
    }
  }

  class Response {
    const request: Request
    var encoding: Option<string>
    var body: Option<Content.ParsedBody>

    constructor (request: Request)
      ensures this.request == request && encoding == None && body == None
    {
      this.request := request;
      encoding := None;
      body := None;
    }

    /** `response.setEncoding(encoding)`. */
    method SetEncoding(encoding: string)
      modifies this
      ensures this.encoding == Some(encoding) && body == old(body)
    {
      this.encoding := Some(encoding);
    }
  }

  /** The writes copying the caller headers, one key at a time. */
  function HeaderWrites(headers: Headers): (r: seq<RequestWrite>)
    ensures |r| == |headers|
    ensures forall k :: 0 <= k < |r| ==> r[k].HeaderWrite?
  {
    if headers == [] then []
    else
      var (name, value) := headers[|headers| - 1];
      HeaderWrites(headers[..|headers| - 1]) + [HeaderWrite(name, value)]
  }

  /** The writes JSON mode adds after the caller headers. */
  const JsonModeWrites := [SendAttached, HeaderWrite(ContentType, Content.JsonMime)]

  /** Every write `createRequest` makes to a new request. */
  function RequestWrites(headers: Headers, jsonEnabled: bool): (r: seq<RequestWrite>)
    ensures |r| == |headers| + (if jsonEnabled then 2 else 0)
    ensures SendAttached in r <==> jsonEnabled
  {
    HeaderWrites(headers) + (if jsonEnabled then JsonModeWrites else [])
  }

  /** The value of the last write of header `name`: the value the request
      ends up with for a header store where a later write replaces an
      earlier one. */
  function LastValue(writes: seq<RequestWrite>, name: string): Option<string> {
    if writes == [] then None
    else
      var w := writes[|writes| - 1];
      if w.HeaderWrite? && w.name == name then Some(w.value)
      else LastValue(writes[..|writes| - 1], name)
  }

  predicate DistinctNames(headers: Headers) {
    forall i, j :: 0 <= i < j < |headers| ==> headers[i].0 != headers[j].0
  }

  /** One write per caller header, in key order, name and value unchanged. */
  lemma {:induction false} HeaderWritesInOrder(headers: Headers)
    ensures |HeaderWrites(headers)| == |headers|
    ensures forall k :: 0 <= k < |headers| ==>
      HeaderWrites(headers)[k] == HeaderWrite(headers[k].0, headers[k].1)
  {
    if headers != [] {
      HeaderWritesInOrder(headers[..|headers| - 1]);
    }
  }

  /** A header the caller names keeps the caller's value: no other write to
      it follows. */
  lemma {:induction false} CallerHeaderValue(headers: Headers, k: nat)
    requires DistinctNames(headers) && k < |headers|
    ensures LastValue(HeaderWrites(headers), headers[k].0) == Some(headers[k].1)
  {
    var n := |headers| - 1;
    var w := HeaderWrites(headers);
    assert w[|w| - 1] == HeaderWrite(headers[n].0, headers[n].1);
    assert w[..|w| - 1] == HeaderWrites(headers[..n]);
    if k < n {
      CallerHeaderValue(headers[..n], k);
    }
  }

  /** A header the caller does not name is not written. */
  lemma {:induction false} UnnamedHeaderAbsent(headers: Headers, name: string)
    requires forall k :: 0 <= k < |headers| ==> headers[k].0 != name
    ensures LastValue(HeaderWrites(headers), name) == None
  {
    if headers != [] {
      var n := |headers| - 1;
      var w := HeaderWrites(headers);
      assert w[..|w| - 1] == HeaderWrites(headers[..n]);
      UnnamedHeaderAbsent(headers[..n], name);
    }
  }

  /** In JSON mode the content type written last is JSON, whatever the
      caller passed; every other header keeps what the caller's writes gave
      it. Outside JSON mode only the caller's writes count. */
  lemma JsonModeHeaders(headers: Headers, jsonEnabled: bool, name: string)
    ensures jsonEnabled && name == ContentType ==>
      LastValue(RequestWrites(headers, jsonEnabled), name) == Some(Content.JsonMime)
    ensures !(jsonEnabled && name == ContentType) ==>
      LastValue(RequestWrites(headers, jsonEnabled), name) == LastValue(HeaderWrites(headers), name)
  {
    var w := RequestWrites(headers, jsonEnabled);
    if jsonEnabled {
      assert w[..|w| - 1][..|w| - 2] == HeaderWrites(headers);
    } else {
      assert w == HeaderWrites(headers);
    }
  }
}
