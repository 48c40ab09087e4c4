# Reverse-proxy middleware, modelled in Dafny

This project models the core of `Fhi.ReverseProxyMiddleware`, an ASP.NET Core
middleware. For each inbound request it does the following:

- it rewrites the path into a target URI;
- it decides whether to proxy the request, going by that target and a
  `;`-separated allow-list of HTTP verbs;
- if it proxies, it builds an outbound request: the verb is mapped, the body
  is attached only for verbs that carry one, and the inbound headers go onto
  that content;
- it sends the request once through a lazily created HTTP client, then
  relays the upstream status code, a whitelist of content headers and the
  body bytes;
- if it does not proxy, it hands the request to the next middleware.

Modules:

- `Text` (`text.dfy`): ordinal case-insensitive string equality, and
  `String.Split` on one character, with its inverse `Join`.
- `Http` (`http.dfy`): the framework behaviour the middleware relies on, given
  as definitions. This covers `PathString.StartsWithSegments` (a
  case-insensitive prefix that must end at a segment boundary), the
  `HttpMethods.IsX` tests (case-insensitive equality with the verb), the
  `HttpMethod` verbs, and filtering a header list by name.
- `ReverseProxy` (`reverse_proxy.dfy`): the middleware's decisions as
  functions, each with lemmas stating its behaviour. These are
  `BuildTargetUri`, the allow-list test, `ShouldProxy`, `GetMethod`, the
  body rule, the outbound request `TargetMessage` and the relayed header
  list.
- `Middleware` (`middleware.dfy`): the parts that change state, as classes
  and methods with loops:
  - `ReverseProxyMiddleware` holds the nullable client field and provides
    `Invoke`;
  - `HttpRequestMessage` has its content and headers filled in by
    `CopyFromOriginalRequestContentAndHeaders`;
  - `HttpContext` is the response that `ProcessResponseContent` appends to.

  The HTTP client factory and the upstream service are objects whose
  behaviour is a parameter. `Upstream.answer` is what the upstream replies to
  each request, and `Upstream.sent` records every request sent, together with
  the client that sent it.

The model follows the code as written, including where it behaves
differently from what one might expect of a path-based reverse proxy:

- **`IncludeTargetPath` is false.** One might expect the matched target
  segment to be stripped, and paths outside it not to be proxied. The code
  does neither. It only removes one leading `/` from the whole path. So
  `GET /api/items?x=1` with target `api` becomes `api/items?x=1`, not
  `items?x=1`. Every path other than `/` and the empty path gets a target
  (`ScenarioNotIncludedKeepsSegment`, `TargetUriNotIncludedIgnoresTargetPath`).
- **The target need not be relative.** A proxy meant to forward only to its
  configured upstream would keep every target relative to the client's base
  address. With `IncludeTargetPath` false, the path `/http://evil.example/x`
  gives the absolute target `http://evil.example/x`, and the request is
  proxied (`ScenarioAbsoluteTarget`). `HttpClient` does not resolve an
  absolute request URI against its base address, so such a request would
  go to that other host.
- **The allow-list is empty.** One might expect an empty allow-list to admit
  every verb. In the code, `""` splits to `[""]`, which admits only the
  empty verb (`EmptyAllowListAdmitsOnlyEmptyVerb`).
- **Relayed headers.** One might expect the five whitelisted headers to be
  relayed wherever the upstream puts them. The code reads them only from the
  upstream's *content* headers (ReverseProxyMiddleware.cs:70). The model
  therefore names that list `contentHeaders`.

## Model

| member | source | states |
|---|---|---|
| Text.Split | ReverseProxyMiddleware.cs:30 | `String.Split(';')` gives at least one part, and no part contains the separator |
| Text.SplitThenJoin | ReverseProxyMiddleware.cs:30 | splitting loses nothing: joining the parts with `;` gives back the allow-list string |
| Text.SplitJoin | ReverseProxyMiddleware.cs:30 | separator-free entries joined with `;` split back into exactly those entries, so empty entries are kept and entries are not trimmed |
| Text.SplitWithoutSeparator | ReverseProxyMiddleware.cs:30 | a string without `;` splits into itself alone |
| Text.EqualsIgnoreCaseIsEquivalence | ReverseProxyMiddleware.cs:33 | the OrdinalIgnoreCase comparison is reflexive, symmetric and transitive |
| Text.EqualsIgnoreCaseEmpty | ReverseProxyMiddleware.cs:33 | only the empty string equals `""` ignoring case |
| Http.StartsWithSegments | ReverseProxyMiddleware.cs:52 | on a match, the path is a case-insensitive copy of the prefix followed by the remainder, and the remainder is empty or begins with `/` |
| Http.StartsWithSegmentsComplete | ReverseProxyMiddleware.cs:52 | every path made of the prefix (in any case) and a segment-aligned rest matches, with that rest as the remainder |
| Http.StartsWithSegmentsRejectsNearMiss | ReverseProxyMiddleware.cs:52 | a path that continues past the prefix with something other than `/` does not match |
| Http.FilterByName | ReverseProxyMiddleware.cs:77 | a header is kept iff it occurs in the input and its name passes the test; the result is no longer than the input |
| Http.FilterByNameAppend | ReverseProxyMiddleware.cs:77-80 | filtering keeps order: filtering a concatenation is concatenating the filtered halves |
| ReverseProxy.BuildTargetUri | ReverseProxyMiddleware.cs:47-66 | a non-empty target ends in the query string. With IncludeTargetPath it begins with TargetPath in its configured case. Without it, it is the path followed by the query string, with at most one leading `/` removed |
| ReverseProxy.TargetUriOnSegmentMatch | ReverseProxyMiddleware.cs:49-53 | with IncludeTargetPath and a segment match, the target is the configured TargetPath (in its own case), then the remaining path, then the query string |
| ReverseProxy.TargetUriOnNearMiss | ReverseProxyMiddleware.cs:52-54 | with IncludeTargetPath, a path such as `/apiextra` for target `api` gets the empty target |
| ReverseProxy.TargetUriIncludedSound | ReverseProxyMiddleware.cs:49-54 | with IncludeTargetPath, a non-empty target means the path begins with `/`+TargetPath (ignoring case) at a segment boundary, and the target is built from the rest after it |
| ReverseProxy.TargetUriOnNoMatch | ReverseProxyMiddleware.cs:52-54 | with IncludeTargetPath, if no segment-aligned prefix of the path equals `/`+TargetPath, the target is empty |
| ReverseProxy.TargetUriNotIncludedStripsOneSlash | ReverseProxyMiddleware.cs:56-64 | without IncludeTargetPath, a path `/`+rest becomes rest + query string; only one `/` is removed |
| ReverseProxy.TargetUriNotIncludedKeepsUnslashedPath | ReverseProxyMiddleware.cs:58-64 | without IncludeTargetPath, a path that is empty or does not start with `/` is kept whole, with the query string after it |
| ReverseProxy.TargetUriNotIncludedIgnoresTargetPath | ReverseProxyMiddleware.cs:56-65 | without IncludeTargetPath, the target does not depend on TargetPath |
| ReverseProxy.ContainsIgnoreCase | ReverseProxyMiddleware.cs:33 | `Contains(…, OrdinalIgnoreCase)` holds iff some entry equals the verb ignoring case |
| ReverseProxy.IsMethodAllowed | ReverseProxyMiddleware.cs:30-33 | the `;`-split allow-list never admits a verb that contains `;`, since no entry holds one |
| ReverseProxy.SeparatorNeverMatches | ReverseProxyMiddleware.cs:33 | a verb containing `;` equals, ignoring case, no entry that is free of `;` |
| ReverseProxy.ShouldProxy | ReverseProxyMiddleware.cs:32-33 | a proxied request has a verb without `;`. With an empty allow-list only the empty verb is proxied. With IncludeTargetPath the path lies within the target segment |
| ReverseProxy.AllowListAdmitsEntry | ReverseProxyMiddleware.cs:30-33 | an allow-list made of `;`-joined entries admits every verb that equals one entry ignoring case |
| ReverseProxy.AllowListRejectsOthers | ReverseProxyMiddleware.cs:30-33 | such an allow-list rejects every verb that equals no entry |
| ReverseProxy.AllowListIgnoresCase | ReverseProxyMiddleware.cs:33 | the allow-list test gives the same answer for two spellings of a verb that differ only in case |
| ReverseProxy.EmptyAllowListAdmitsOnlyEmptyVerb | ReverseProxyMiddleware.cs:30-33 | an empty AllowedHttpMethods admits exactly the empty verb, so it admits no real method |
| ReverseProxy.AllowListEntriesAreNotTrimmed | ReverseProxyMiddleware.cs:30-33 | `"GET; POST"` does not admit POST, because the entry ` POST` keeps its space |
| ReverseProxy.AllowListEntryInOtherCase | ReverseProxyMiddleware.cs:30-33 | `"GET;POST"` admits `post` |
| ReverseProxy.NoTargetPassesThrough | ReverseProxyMiddleware.cs:32-44 | with IncludeTargetPath, a near-miss path is not proxied, whatever its verb |
| ReverseProxy.GetMethod | ReverseProxyMiddleware.cs:122-133 | total; the verb's name equals the token ignoring case; the result is a custom verb iff the token is none of the seven known verbs, and a custom verb carries the token verbatim |
| ReverseProxy.GetMethodOfName | ReverseProxyMiddleware.cs:124-130 | every spelling, in any case, of a known verb's name maps to that verb |
| ReverseProxy.GetMethodPassesThroughUnmapped | ReverseProxyMiddleware.cs:132 | PATCH, CONNECT and `patch` are passed through verbatim |
| ReverseProxy.HasBody | ReverseProxyMiddleware.cs:107-110 | the request gets content iff the verb is not GET, HEAD, DELETE or TRACE (ignoring case), that is, iff the mapped verb is none of those four |
| ReverseProxy.TargetMessage | ReverseProxyMiddleware.cs:95-119 | the outbound request has the target URI, and its verb is `GetMethod` of the inbound verb, so the two are equal ignoring case. It has content iff `HasBody` holds of the inbound verb, that is, iff the verb is not GET/HEAD/DELETE/TRACE. The content is the inbound body unchanged, and carries exactly the inbound headers the content header collection takes |
| ReverseProxy.RelayedHeaders | ReverseProxyMiddleware.cs:77-80 | a content header is relayed iff it is present upstream and its name is one of the five whitelisted names |
| ReverseProxy.IsWhiteListed | ReverseProxyMiddleware.cs:86-93 | a name is whitelisted iff it is exactly one of Content-Length, Content-Type, Content-Disposition, Cache-Control or Access-Control-Expose-Headers |
| ReverseProxy.WhiteListIsCaseSensitive | ReverseProxyMiddleware.cs:77 | the whitelist compares names exactly: `content-type` and `Set-Cookie` are dropped |
| ReverseProxy.RelayedHeadersAppend | ReverseProxyMiddleware.cs:77-80 | relaying keeps the upstream order of the headers |
| ReverseProxy.ScenarioNotIncludedKeepsSegment | ReverseProxyMiddleware.cs:56-64 | `GET /api/items?x=1`, target `api`, IncludeTargetPath false: target `api/items?x=1`, proxied |
| ReverseProxy.ScenarioIncludedExactSegment | ReverseProxyMiddleware.cs:49-53 | `POST /API`, target `api`, IncludeTargetPath true: target `api`, proxied |
| ReverseProxy.ScenarioAbsoluteTarget | ReverseProxyMiddleware.cs:56-64 | `GET /http://evil.example/x` with IncludeTargetPath false and allow-list `GET`: the target is the absolute `http://evil.example/x`, and the request is proxied |
| ReverseProxy.ScenarioDisallowedVerb | ReverseProxyMiddleware.cs:30-33 | `DELETE /api/x` with allow-list `get;post`: there is a target, but the request is not proxied |
| Middleware.HttpClientFactory.CreateClient | ReverseProxyMiddleware.cs:27 | each call makes a new client for the given name |
| Middleware.Upstream.SendAsync | ReverseProxyMiddleware.cs:37 | one request is recorded as sent, together with its client, and the upstream's answer to it is returned |
| Middleware.CopyFromOriginalRequestContentAndHeaders | ReverseProxyMiddleware.cs:103-120 | for a verb with a body, the content is the inbound body with the accepted inbound headers, in order. Otherwise the content stays as it was, and headers are added only if content exists. The verb is untouched, and the method never fails |
| Middleware.CreateTargetMessage | ReverseProxyMiddleware.cs:95-101 | the new message equals `TargetMessage`: the verb is set after the content and header copy |
| Middleware.ProcessResponseContent | ReverseProxyMiddleware.cs:68-84 | the response headers gain exactly the relayed headers, in order, with all their values. The body gains the upstream bytes once, unchanged. The status code is untouched |
| Middleware.ReverseProxyMiddleware.constructor | ReverseProxyMiddleware.cs:15-18 | a new middleware holds its options and factory, and has no client yet |
| Middleware.ReverseProxyMiddleware.Invoke | ReverseProxyMiddleware.cs:25-45 | the client is created only when the field is empty, and is never replaced. If proxied: one send of `TargetMessage` through that client, the status copied verbatim, the headers and body relayed, the next stage not called. Otherwise: the next stage is called once, nothing is sent and the response is unchanged |

## Left out

- Asynchrony and the network. `Task`/`await`, `HttpClient.SendAsync` and `IHttpClientFactory.CreateClient` are modelled as the objects `Upstream` and `HttpClientFactory`. The upstream's reply is the given function `Upstream.answer`. Transport failures, which would propagate out of `Invoke`, are not modelled.
- Concurrency. The race on the `_httpClient ??=` field under concurrent first use is not modelled; only sequential "created once, then reused" is.
- Case folding. OrdinalIgnoreCase is modelled for ASCII letters only; non-ASCII case mapping is not modelled.
- Header acceptance. Which names `HttpContentHeaders.TryAddWithoutValidation` accepts is library behaviour. It is the parameter `contentHeaderAccepts` (ReverseProxyMiddleware.cs:118).
- Header merging. Header collections are ordered lists of entries. When a name is already present, `TryAddWithoutValidation` and `IHeaderDictionary.Append` merge the new values into its entry; the model adds a second entry instead.
- Lazy Content-Length. `HttpContent` computes Content-Length lazily, and line 75 forces that computation. The model does not include it, so the promise that a relayed Content-Length equals the number of bytes written is not modelled.
- Which upstream headers are content headers. This is decided by System.Net.Http. Cache-Control and Access-Control-Expose-Headers are whitelisted, but they reach the relay only if the library files them among the content headers.
- `PathString` details. The escaping done when `PathString` and `QueryString` are formatted into the target is not modelled. Neither is the difference between a missing path and an empty one.
- Verb validation. `new HttpMethod(token)` validates the token it is given; the model passes every token through.
- Middleware.CreateTargetMessage: the target is kept as a string. `new HttpRequestMessage(HttpMethod.Get, targetUri)` parses it into a `Uri` (relative or absolute) at ReverseProxyMiddleware.cs:97. That parse throws on a malformed absolute-looking target, before anything is sent. The model does not capture that failure, and it does not model how an absolute target bypasses the client's base address.
- What the next middleware does to the context is not modelled. The model only counts how many times it is called.
- The body is modelled as the inbound byte sequence. Streaming, and reading the body only once, are not modelled.
- ReverseProxyOptions.cs is a plain settings holder. It is represented by the `ReverseProxyOptions` datatype, with four fields.
