/**
 * The middleware object and the state it changes: its lazily created HTTP client,
 * the outbound request message it fills in, and the response of the inbound
 * HTTP context. The upstream service and the client factory are objects whose
 * behaviour is given from outside.
 */
module Middleware {
  import opened Http
  import opened ReverseProxy

  /** An HttpClient handle: the named configuration it was made from and which creation it was. */
  datatype HttpClient = HttpClient(name: string, serial: nat)

  /** IHttpClientFactory: every CreateClient call makes a new client. */
  class HttpClientFactory {
    var created: nat

    constructor ()
      ensures created == 0
    {
      created := 0;
    }

    method CreateClient(name: string) returns (client: HttpClient)
      modifies this
      ensures client == HttpClient(name, old(created))
      ensures created == old(created) + 1
    {
      client := HttpClient(name, created);
      created := created + 1;
    }
  }

  /**
   * The upstream service reached through the clients: `answer` is what it replies
   * to a request, and `sent` records every request sent, with the client used.
   */
  class Upstream {
    const answer: OutboundRequest -> UpstreamResponse
    var sent: seq<(HttpClient, OutboundRequest)>

    constructor (answer: OutboundRequest -> UpstreamResponse)
      ensures this.answer == answer && sent == []
    {
      this.answer := answer;
      sent := [];
    }

    /** HttpClient.SendAsync: one request out, the upstream's reply back. */
    method SendAsync(client: HttpClient, requestMessage: HttpRequestMessage) returns (response: UpstreamResponse)
      modifies this
      ensures sent == old(sent) + [(client, requestMessage.Snapshot())]
      ensures response == answer(requestMessage.Snapshot())
    {
      sent := sent + [(client, requestMessage.Snapshot())];
      response := answer(requestMessage.Snapshot());
    }
  }

  /** HttpRequestMessage: verb and content are set after construction. */
  class HttpRequestMessage {
    var verb: HttpMethod
    const requestUri: string
    var content: Option<StreamContent>

    constructor (verb: HttpMethod, requestUri: string)
      ensures this.verb == verb && this.requestUri == requestUri && content == None
    {
      this.verb := verb;
      this.requestUri := requestUri;
      content := None;
    }

    /** The message as it stands. */
    function Snapshot(): OutboundRequest
      reads this
    {
      OutboundRequest(verb, requestUri, content)
    }
  }

  /** HttpContext: the inbound request, the response being written, and how often the next stage ran. */
  class HttpContext {
    const request: HttpRequest
    var statusCode: int
    var responseHeaders: seq<Header>
    var responseBody: seq<Byte>
    var nextCalls: nat

    constructor (request: HttpRequest)
      ensures this.request == request
      ensures statusCode == 200 && responseHeaders == [] && responseBody == [] && nextCalls == 0
    {
      this.request := request;
      statusCode := 200;
      responseHeaders := [];
      responseBody := [];
      nextCalls := 0;
    }
  }

  /** `content` with `added` put after its headers, or nothing when there is no content. */
  function WithHeaders(content: Option<StreamContent>, added: seq<Header>): Option<StreamContent> {
    match content
    case None => None
    case Some(c) => Some(c.(headers := c.headers + added))
  }

  lemma WithNoHeaders(content: Option<StreamContent>)
    ensures WithHeaders(content, []) == content
  {
    if content.Some? {
      assert content.value.headers + [] == content.value.headers;
    }
  }

  /** Copying one more inbound header adds it to the content iff there is content and the name is accepted. */
  lemma CopyHeaderStep(initial: Option<StreamContent>, done: seq<Header>, header: Header, keep: string -> bool)
    ensures WithHeaders(initial, FilterByName(done + [header], keep)) ==
              var current := WithHeaders(initial, FilterByName(done, keep));
              if current.Some? && keep(header.name)
              then Some(current.value.(headers := current.value.headers + [header]))
              else current
  {
    FilterByNameAppend(done, [header], keep);
    var f := FilterByName(done, keep);
    assert FilterByName([header], keep) == if keep(header.name) then [header] else [];
    if initial.Some? {
      if keep(header.name) {
        assert initial.value.headers + (f + [header]) == initial.value.headers + f + [header];
      } else {
        assert f + [] == f;
      }
    }
  }

  /**
   * CopyFromOriginalRequestContentAndHeaders: for a verb with a body the message gets
   * the inbound body as new content; then every inbound header that the content
   * header collection takes is added to the content, if there is content. It never fails.
   */
  method CopyFromOriginalRequestContentAndHeaders(
    request: HttpRequest, requestMessage: HttpRequestMessage, contentHeaderAccepts: string -> bool)
    modifies requestMessage
    ensures requestMessage.verb == old(requestMessage.verb)
    ensures requestMessage.content ==
              WithHeaders(if HasBody(request.verb) then Some(StreamContent(request.body, [])) else old(requestMessage.content),
                          FilterByName(request.headers, contentHeaderAccepts))
  {
    if HasBody(request.verb) {
      requestMessage.content := Some(StreamContent(request.body, []));
    }
    ghost var initial := requestMessage.content;
    WithNoHeaders(initial);
    assert request.headers[..0] == [];
    var i := 0;
    while i < |request.headers|
      invariant 0 <= i <= |request.headers|
      invariant requestMessage.verb == old(requestMessage.verb)
      invariant requestMessage.content == WithHeaders(initial, FilterByName(request.headers[..i], contentHeaderAccepts))
    {
      var header := request.headers[i];
      CopyHeaderStep(initial, request.headers[..i], header, contentHeaderAccepts);
      assert request.headers[..i + 1] == request.headers[..i] + [header];
      // TryAddWithoutValidation on Content?.Headers
      if requestMessage.content.Some? && contentHeaderAccepts(header.name) {
        var c := requestMessage.content.value;
        requestMessage.content := Some(c.(headers := c.headers + [header]));
      }
      i := i + 1;
    }
    assert request.headers[..i] == request.headers;
  }

  /**
   * CreateTargetMessage: a GET message for the target URI, filled with content and
   * headers, and then given the verb mapped from the inbound one.
   */
  method CreateTargetMessage(request: HttpRequest, targetUri: string, contentHeaderAccepts: string -> bool)
    returns (requestMessage: HttpRequestMessage)
    ensures fresh(requestMessage)
    ensures requestMessage.Snapshot() == TargetMessage(request, targetUri, contentHeaderAccepts)
  {
    requestMessage := new HttpRequestMessage(Get, targetUri);
    CopyFromOriginalRequestContentAndHeaders(request, requestMessage, contentHeaderAccepts);
    requestMessage.verb := GetMethod(request.verb);
    assert [] + FilterByName(request.headers, contentHeaderAccepts) == FilterByName(request.headers, contentHeaderAccepts);
  }

  /**
   * ProcessResponseContent: append each whitelisted upstream content header with all
   * its values, then write the upstream body once, unchanged.
   */
  method ProcessResponseContent(context: HttpContext, responseMessage: UpstreamResponse)
    modifies context
    ensures context.responseHeaders == old(context.responseHeaders) + RelayedHeaders(responseMessage.contentHeaders)
    ensures context.responseBody == old(context.responseBody) + responseMessage.body
    ensures context.statusCode == old(context.statusCode) && context.nextCalls == old(context.nextCalls)
  {
    var contentHeaders := responseMessage.contentHeaders;
    var i := 0;
    while i < |contentHeaders|
      invariant 0 <= i <= |contentHeaders|
      invariant context.responseHeaders == old(context.responseHeaders) + RelayedHeaders(contentHeaders[..i])
      invariant context.responseBody == old(context.responseBody)
      invariant context.statusCode == old(context.statusCode) && context.nextCalls == old(context.nextCalls)
    {
      var header := contentHeaders[i];
      RelayedHeadersAppend(contentHeaders[..i], [header]);
      assert contentHeaders[..i + 1] == contentHeaders[..i] + [header];
      if IsWhiteListed(header.name) {
        context.responseHeaders := context.responseHeaders + [header];
      }
      i := i + 1;
    }
    assert contentHeaders[..i] == contentHeaders;
    context.responseBody := context.responseBody + responseMessage.body;
  }

  /** The middleware instance: its options, its client factory and its lazily created client. */
  class ReverseProxyMiddleware {
    const httpClientFactory: HttpClientFactory
    const reverseProxyOptions: ReverseProxyOptions
    var httpClient: Option<HttpClient>

    /** A client, once there, was made by this factory for the configured client name. */
    ghost predicate Valid()
      reads this, httpClientFactory
    {
      httpClient.Some? ==>
        && httpClient.value.name == reverseProxyOptions.HttpClientName
        && httpClient.value.serial < httpClientFactory.created
    }

    constructor (httpClientFactory: HttpClientFactory, reverseProxyOptions: ReverseProxyOptions)
      ensures Valid()
      ensures this.httpClientFactory == httpClientFactory && this.reverseProxyOptions == reverseProxyOptions
      ensures httpClient == None
    {
      this.httpClientFactory := httpClientFactory;
      this.reverseProxyOptions := reverseProxyOptions;
      httpClient := None;
    }

    /**
     * Invoke: create the client if there is none yet; then either proxy the request
     * (one send, status copied, whitelisted headers and body relayed) or hand it
     * to the next stage, once, with nothing sent.
     */
    method Invoke(context: HttpContext, upstream: Upstream, contentHeaderAccepts: string -> bool)
      requires Valid()
      modifies this, httpClientFactory, context, upstream
      ensures Valid()
      // the client is created on first use only, and kept afterwards
      ensures old(httpClient).Some? ==>
                httpClient == old(httpClient) && httpClientFactory.created == old(httpClientFactory.created)
      ensures old(httpClient).None? ==>
                && httpClient == Some(HttpClient(reverseProxyOptions.HttpClientName, old(httpClientFactory.created)))
                && httpClientFactory.created == old(httpClientFactory.created) + 1
      // proxied: exactly one send through the client, the reply relayed, no next stage
      ensures ShouldProxy(reverseProxyOptions, context.request) ==>
                var outbound := TargetMessage(context.request, BuildTargetUri(reverseProxyOptions, context.request), contentHeaderAccepts);
                var reply := upstream.answer(outbound);
                && httpClient.Some?
                && upstream.sent == old(upstream.sent) + [(httpClient.value, outbound)]
                && context.statusCode == reply.statusCode
                && context.responseHeaders == old(context.responseHeaders) + RelayedHeaders(reply.contentHeaders)
                && context.responseBody == old(context.responseBody) + reply.body
                && context.nextCalls == old(context.nextCalls)
      // passed through: the next stage once, nothing sent, the response untouched
      ensures !ShouldProxy(reverseProxyOptions, context.request) ==>
                && upstream.sent == old(upstream.sent)
                && context.nextCalls == old(context.nextCalls) + 1
                && context.statusCode == old(context.statusCode)
                && context.responseHeaders == old(context.responseHeaders)
                && context.responseBody == old(context.responseBody)
    {
      if httpClient.None? {
        var client := httpClientFactory.CreateClient(reverseProxyOptions.HttpClientName);
        httpClient := Some(client);
      }

      var targetUri := BuildTargetUri(reverseProxyOptions, context.request);
      var allowedHttpMethods := Text.Split(reverseProxyOptions.AllowedHttpMethods, ';');

      if targetUri != "" && ContainsIgnoreCase(allowedHttpMethods, context.request.verb) {
        var targetRequestMessage := CreateTargetMessage(context.request, targetUri, contentHeaderAccepts);
        var responseMessage := upstream.SendAsync(httpClient.value, targetRequestMessage);
        context.statusCode := responseMessage.statusCode;
        ProcessResponseContent(context, responseMessage);
        return;
      }

      // nextMiddleware(context)
      context.nextCalls := context.nextCalls + 1;
    }
  }
}
