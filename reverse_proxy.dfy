/**
 * The decisions of the reverse-proxy middleware, as values: the target URI an
 * inbound request is rewritten to, whether it is proxied at all, the verb and
 * body of the outbound request, and which upstream headers are relayed back.
 */
module ReverseProxy {
  import opened Text
  import opened Http

  /**
   * The middleware's settings. HttpClientName and TargetPath default to "" in the
   * options class; IncludeTargetPath and AllowedHttpMethods are the two further
   * settings the middleware reads.
   */
  datatype ReverseProxyOptions = ReverseProxyOptions(
    HttpClientName: string,
    TargetPath: string,
    IncludeTargetPath: bool,
    AllowedHttpMethods: string)

  /** The inbound request: verb, path, query string (with its leading '?', or ""), headers, body. */
  datatype HttpRequest = HttpRequest(
    verb: string,
    path: string,
    queryString: string,
    headers: seq<Header>,
    body: seq<Byte>)

  /** The content of an outbound request: the inbound body, unchanged, and the headers put on it. */
  datatype StreamContent = StreamContent(body: seq<Byte>, headers: seq<Header>)

  /** An outbound HttpRequestMessage as it is handed to the client. */
  datatype OutboundRequest = OutboundRequest(
    verb: HttpMethod,
    requestUri: string,
    content: Option<StreamContent>)

  /** What the upstream answers: status code, content headers and the body bytes. */
  datatype UpstreamResponse = UpstreamResponse(
    statusCode: int,
    contentHeaders: seq<Header>,
    body: seq<Byte>)

  // ---------------------------------------------------------------------------
  // Target URI

  /**
   * BuildTargetUri. With IncludeTargetPath the path must lie within the segment
   * "/" + TargetPath, and the target keeps TargetPath as configured; otherwise
   * the path loses one leading '/' and nothing is matched. "" means "no target".
   */
  function BuildTargetUri(options: ReverseProxyOptions, request: HttpRequest): (target: string)
    // a target, when there is one, ends in the query string
    ensures target == "" || (|request.queryString| <= |target| && target[|target| - |request.queryString|..] == request.queryString)
    // with IncludeTargetPath it begins with TargetPath, in its configured case
    ensures options.IncludeTargetPath && target != "" ==>
              |options.TargetPath| <= |target| && target[..|options.TargetPath|] == options.TargetPath
    // without it, it is the path and query string, with at most one '/' gone from the front
    ensures !options.IncludeTargetPath ==>
              target == request.path + request.queryString || "/" + target == request.path + request.queryString
  {
    if options.IncludeTargetPath then
      var targetPath := options.TargetPath;
      match StartsWithSegments(request.path, "/" + options.TargetPath)
      case Some(remainingPath) => targetPath + remainingPath + request.queryString
      case None => ""
    else
      var targetPath := if |request.path| > 0 && request.path[0] == '/' then request.path[1..] else request.path;
      targetPath + request.queryString
  }

  /**
   * A path made of the target segment (in any letter case) and a rest that is empty
   * or starts a new segment is rewritten to TargetPath, in its configured case,
   * followed by the rest and the query string.
   */
  lemma TargetUriOnSegmentMatch(options: ReverseProxyOptions, request: HttpRequest, head: string, rest: string)
    requires options.IncludeTargetPath
    requires request.path == head + rest
    requires EqualsIgnoreCase(head, "/" + options.TargetPath)
    requires rest == "" || rest[0] == '/'
    ensures BuildTargetUri(options, request) == options.TargetPath + rest + request.queryString
  {
    StartsWithSegmentsComplete(head, rest, "/" + options.TargetPath);
  }

  /**
   * A path that begins with the target segment's text but continues without a '/'
   * ("/apiextra" for "api") has no target.
   */
  lemma TargetUriOnNearMiss(options: ReverseProxyOptions, request: HttpRequest, head: string, rest: string)
    requires options.IncludeTargetPath
    requires request.path == head + rest
    requires EqualsIgnoreCase(head, "/" + options.TargetPath)
    requires rest != "" && rest[0] != '/'
    ensures BuildTargetUri(options, request) == ""
  {
    StartsWithSegmentsRejectsNearMiss(head, rest, "/" + options.TargetPath);
  }

  /**
   * Soundness of the match: whenever the target URI is not empty, the path splits
   * into the target segment and a segment-aligned rest, and the target is built
   * from exactly that rest.
   */
  lemma TargetUriIncludedSound(options: ReverseProxyOptions, request: HttpRequest)
    requires options.IncludeTargetPath
    requires BuildTargetUri(options, request) != ""
    ensures |options.TargetPath| < |request.path|
    ensures var k := |options.TargetPath| + 1;
            && EqualsIgnoreCase(request.path[..k], "/" + options.TargetPath)
            && (k == |request.path| || request.path[k] == '/')
            && BuildTargetUri(options, request) == options.TargetPath + request.path[k..] + request.queryString
  {
    var prefix := "/" + options.TargetPath;
    var m := StartsWithSegments(request.path, prefix);
    assert m.Some?;
    assert |request.path[..|request.path| - |m.value|]| == |prefix|;
  }

  /** When no segment-aligned prefix of the path matches the target segment, there is no target. */
  lemma TargetUriOnNoMatch(options: ReverseProxyOptions, request: HttpRequest)
    requires options.IncludeTargetPath
    requires forall k :: 0 <= k <= |request.path| && (k == |request.path| || request.path[k] == '/') ==>
               !EqualsIgnoreCase(request.path[..k], "/" + options.TargetPath)
    ensures BuildTargetUri(options, request) == ""
  {
    if BuildTargetUri(options, request) != "" {
      TargetUriIncludedSound(options, request);
      assert false;
    }
  }

  /**
   * Without IncludeTargetPath the target is the path with one leading '/' removed,
   * then the query string; the target segment stays in and is not checked.
   */
  lemma TargetUriNotIncludedStripsOneSlash(options: ReverseProxyOptions, request: HttpRequest, rest: string)
    requires !options.IncludeTargetPath
    requires request.path == "/" + rest
    ensures BuildTargetUri(options, request) == rest + request.queryString
  {
  }

  /** Without IncludeTargetPath a path that does not start with '/' (the empty path too) is kept whole. */
  lemma TargetUriNotIncludedKeepsUnslashedPath(options: ReverseProxyOptions, request: HttpRequest)
    requires !options.IncludeTargetPath
    requires request.path == "" || request.path[0] != '/'
    ensures BuildTargetUri(options, request) == request.path + request.queryString
  {
  }

  /** Without IncludeTargetPath the target does not depend on TargetPath at all. */
  lemma TargetUriNotIncludedIgnoresTargetPath(options: ReverseProxyOptions, targetPath: string, request: HttpRequest)
    requires !options.IncludeTargetPath
    ensures BuildTargetUri(options, request) == BuildTargetUri(options.(TargetPath := targetPath), request)
  {
  }

  // ---------------------------------------------------------------------------
  // Dispatch

  /** Enumerable.Contains with StringComparer.OrdinalIgnoreCase. */
  function ContainsIgnoreCase(entries: seq<string>, s: string): (found: bool)
    ensures found <==> exists i :: 0 <= i < |entries| && EqualsIgnoreCase(entries[i], s)
  {
    if entries == [] then false
    else if EqualsIgnoreCase(entries[0], s) then true
    else
      var found := ContainsIgnoreCase(entries[1..], s);
      assert forall i :: 1 <= i < |entries| ==> entries[i] == entries[1..][i - 1];
      found
  }

  /** The allow-list test: the verb equals, ignoring case, one untrimmed ';'-separated entry. */
  predicate IsMethodAllowed(allowedHttpMethods: string, verb: string)
    // no entry holds a ';', so no verb holding one is ever admitted
    ensures ';' in verb ==> !IsMethodAllowed(allowedHttpMethods, verb)
  {
    var entries := Split(allowedHttpMethods, ';');
    SeparatorNeverMatches(entries, verb);
    ContainsIgnoreCase(entries, verb)
  }

  /** A verb holding ';' equals, ignoring case, no entry free of ';'. */
  lemma SeparatorNeverMatches(entries: seq<string>, verb: string)
    requires forall i :: 0 <= i < |entries| ==> ';' !in entries[i]
    ensures ';' in verb ==> forall i :: 0 <= i < |entries| ==> !EqualsIgnoreCase(entries[i], verb)
  {
    if ';' in verb {
      var j :| 0 <= j < |verb| && verb[j] == ';';
      // Upper maps only ';' itself to ';'.
      assert forall i :: 0 <= i < |entries| && EqualsIgnoreCase(entries[i], verb) ==> entries[i][j] == ';';
    }
  }

  /** The request is proxied iff it has a non-empty target and an allowed verb. */
  predicate ShouldProxy(options: ReverseProxyOptions, request: HttpRequest)
    ensures ShouldProxy(options, request) ==> ';' !in request.verb
    // an empty allow-list proxies nothing but the empty verb
    ensures ShouldProxy(options, request) && options.AllowedHttpMethods == "" ==> request.verb == ""
    // with IncludeTargetPath a proxied path always lies within the target segment
    ensures ShouldProxy(options, request) && options.IncludeTargetPath ==>
              StartsWithSegments(request.path, "/" + options.TargetPath).Some?
  {
    EmptyAllowListAdmitsOnlyEmptyVerb(request.verb);
    BuildTargetUri(options, request) != "" && IsMethodAllowed(options.AllowedHttpMethods, request.verb)
  }

  /** An allow-list written as entries joined by ';' admits every verb equal to an entry, ignoring case. */
  lemma AllowListAdmitsEntry(entries: seq<string>, i: nat, verb: string)
    requires |entries| >= 1
    requires forall j :: 0 <= j < |entries| ==> ';' !in entries[j]
    requires i < |entries| && EqualsIgnoreCase(entries[i], verb)
    ensures IsMethodAllowed(Join(entries, ';'), verb)
  {
    SplitJoin(entries, ';');
  }

  /** ... and rejects every verb that equals no entry. */
  lemma AllowListRejectsOthers(entries: seq<string>, verb: string)
    requires |entries| >= 1
    requires forall j :: 0 <= j < |entries| ==> ';' !in entries[j]
    requires forall j :: 0 <= j < |entries| ==> !EqualsIgnoreCase(entries[j], verb)
    ensures !IsMethodAllowed(Join(entries, ';'), verb)
  {
    SplitJoin(entries, ';');
  }

  /** The allow-list test does not depend on the letter case of the verb. */
  lemma AllowListIgnoresCase(allowedHttpMethods: string, verb: string, other: string)
    requires EqualsIgnoreCase(verb, other)
    ensures IsMethodAllowed(allowedHttpMethods, verb) == IsMethodAllowed(allowedHttpMethods, other)
  {
    var entries := Split(allowedHttpMethods, ';');
    forall i | 0 <= i < |entries|
      ensures EqualsIgnoreCase(entries[i], verb) == EqualsIgnoreCase(entries[i], other)
    {
      EqualsIgnoreCaseIsEquivalence(entries[i], verb, other);
      EqualsIgnoreCaseIsEquivalence(entries[i], other, verb);
    }
  }

  /** An empty allow-list splits to [""] and so admits no verb but the empty one. */
  lemma EmptyAllowListAdmitsOnlyEmptyVerb(verb: string)
    ensures IsMethodAllowed("", verb) <==> verb == ""
  {
    assert Split("", ';') == [""];
    EqualsIgnoreCaseEmpty(verb);
  }

  /** Entries are not trimmed: " POST" in "GET; POST" does not admit POST. */
  lemma AllowListEntriesAreNotTrimmed()
    ensures !IsMethodAllowed("GET; POST", "POST")
  {
    var entries := ["GET", " POST"];
    assert Join(entries, ';') == "GET; POST";
    assert !EqualsIgnoreCase(entries[0], "POST") && !EqualsIgnoreCase(entries[1], "POST") by {
      assert |entries[0]| == 3 && |entries[1]| == 5;
    }
    AllowListRejectsOthers(entries, "POST");
  }

  /** Entries match the verb in any letter case: "GET;POST" admits "post". */
  lemma AllowListEntryInOtherCase()
    ensures IsMethodAllowed("GET;POST", "post")
  {
    var entries := ["GET", "POST"];
    assert Join(entries, ';') == "GET;POST";
    assert EqualsIgnoreCase(entries[1], "post");
    AllowListAdmitsEntry(entries, 1, "post");
  }

  /** A request whose path has no target passes through, whatever its verb. */
  lemma NoTargetPassesThrough(options: ReverseProxyOptions, request: HttpRequest, head: string, rest: string)
    requires options.IncludeTargetPath
    requires request.path == head + rest
    requires EqualsIgnoreCase(head, "/" + options.TargetPath)
    requires rest != "" && rest[0] != '/'
    ensures !ShouldProxy(options, request)
  {
    TargetUriOnNearMiss(options, request, head, rest);
  }

  // ---------------------------------------------------------------------------
  // Outbound request

  /** GetMethod: the seven well-known verbs, compared ignoring case; any other token as it is. */
  function GetMethod(verb: string): (m: HttpMethod)
    ensures EqualsIgnoreCase(m.Name(), verb)
    ensures m.Custom? <==> !(IsDelete(verb) || IsGet(verb) || IsHead(verb) || IsOptions(verb)
                             || IsPost(verb) || IsPut(verb) || IsTrace(verb))
    ensures m.Custom? ==> m.token == verb
  {
    if IsDelete(verb) then Delete
    else if IsGet(verb) then Get
    else if IsHead(verb) then Head
    else if IsOptions(verb) then Options
    else if IsPost(verb) then Post
    else if IsPut(verb) then Put
    else if IsTrace(verb) then Trace
    else Custom(verb)
  }

  /** A well-known verb's own name maps back to it, and so does every other spelling of it. */
  lemma GetMethodOfName(m: HttpMethod, verb: string)
    requires !m.Custom?
    requires EqualsIgnoreCase(verb, m.Name())
    ensures GetMethod(verb) == m
  {
    // The seven verbs differ in length or in their first letter.
    assert |verb| == |m.Name()| && Upper(verb[0]) == Upper(m.Name()[0]);
  }

  /** PATCH and CONNECT are not among the mapped verbs and pass through verbatim. */
  lemma GetMethodPassesThroughUnmapped()
    ensures GetMethod("PATCH") == Custom("PATCH")
    ensures GetMethod("CONNECT") == Custom("CONNECT")
    ensures GetMethod("patch") == Custom("patch")
  {
    // Same length as TRACE, resp. OPTIONS, but a different first letter.
    assert Upper("PATCH"[0]) != Upper("TRACE"[0]) && Upper("patch"[0]) != Upper("TRACE"[0]);
    assert Upper("CONNECT"[0]) != Upper("OPTIONS"[0]);
  }

  /** Whether the outbound request gets a body: every verb except GET, HEAD, DELETE and TRACE. */
  predicate HasBody(verb: string)
    // agrees with the verb sent: no body exactly for GET, HEAD, DELETE and TRACE
    ensures HasBody(verb) <==> GetMethod(verb) !in {Get, Head, Delete, Trace}
  {
    !IsGet(verb) && !IsHead(verb) && !IsDelete(verb) && !IsTrace(verb)
  }

  /**
   * The request CreateTargetMessage builds: the mapped verb, the target URI, and,
   * only for verbs with a body, the inbound body carrying the inbound headers that
   * the content header collection takes (`contentHeaderAccepts`).
   */
  function TargetMessage(request: HttpRequest, targetUri: string, contentHeaderAccepts: string -> bool): (m: OutboundRequest)
    ensures m.requestUri == targetUri
    ensures m.verb == GetMethod(request.verb) && EqualsIgnoreCase(m.verb.Name(), request.verb)
    ensures m.content.Some? <==> HasBody(request.verb)
    ensures m.content.Some? <==> m.verb !in {Get, Head, Delete, Trace}
    ensures m.content.Some? ==> m.content.value.body == request.body
    ensures m.content.Some? ==> forall h :: h in m.content.value.headers <==> h in request.headers && contentHeaderAccepts(h.name)
    ensures m.content.Some? ==> m.content.value.headers == FilterByName(request.headers, contentHeaderAccepts)
  {
    OutboundRequest(
      GetMethod(request.verb),
      targetUri,
      if HasBody(request.verb)
      then Some(StreamContent(request.body, FilterByName(request.headers, contentHeaderAccepts)))
      else None)
  }

  // ---------------------------------------------------------------------------
  // Response relay

  const WhiteListedHeaders: seq<string> := [
    "Content-Length",
    "Content-Type",
    "Content-Disposition",
    "Cache-Control",
    "Access-Control-Expose-Headers"
  ]

  /** Array.Contains with the default, case-sensitive string comparison. */
  predicate IsWhiteListed(name: string)
    ensures IsWhiteListed(name) <==>
              || name == "Content-Length" || name == "Content-Type" || name == "Content-Disposition"
              || name == "Cache-Control" || name == "Access-Control-Expose-Headers"
  {
    name in WhiteListedHeaders
  }

  /** The upstream content headers that are relayed: the whitelisted ones, in order, with all their values. */
  function RelayedHeaders(contentHeaders: seq<Header>): (relayed: seq<Header>)
    ensures forall h :: h in relayed <==> h in contentHeaders && IsWhiteListed(h.name)
  {
    FilterByName(contentHeaders, IsWhiteListed)
  }

  /** The whitelist is compared exactly: other spellings of its names are dropped. */
  lemma WhiteListIsCaseSensitive()
    ensures IsWhiteListed("Content-Type") && !IsWhiteListed("content-type")
    ensures !IsWhiteListed("Set-Cookie")
  {
  }

  /** Relaying headers from two batches is relaying each batch in turn. */
  lemma RelayedHeadersAppend(a: seq<Header>, b: seq<Header>)
    ensures RelayedHeaders(a + b) == RelayedHeaders(a) + RelayedHeaders(b)
  {
    FilterByNameAppend(a, b, IsWhiteListed);
  }

  // ---------------------------------------------------------------------------
  // Scenarios

  /** GET /api/items?x=1 without IncludeTargetPath is rewritten to api/items?x=1. */
  lemma ScenarioNotIncludedKeepsSegment()
    ensures var options := ReverseProxyOptions("", "api", false, "GET");
            var request := HttpRequest("GET", "/api/items", "?x=1", [], []);
            BuildTargetUri(options, request) == "api/items?x=1" && ShouldProxy(options, request)
  {
    var options := ReverseProxyOptions("", "api", false, "GET");
    var request := HttpRequest("GET", "/api/items", "?x=1", [], []);
    TargetUriNotIncludedStripsOneSlash(options, request, "api/items");
    SplitWithoutSeparator("GET", ';');
  }

  /** POST /API with IncludeTargetPath is rewritten to the configured "api". */
  lemma ScenarioIncludedExactSegment()
    ensures var options := ReverseProxyOptions("", "api", true, "POST");
            var request := HttpRequest("POST", "/API", "", [], [123, 125]);
            BuildTargetUri(options, request) == "api" && ShouldProxy(options, request)
  {
    var options := ReverseProxyOptions("", "api", true, "POST");
    var request := HttpRequest("POST", "/API", "", [], [123, 125]);
    assert EqualsIgnoreCase("/API", "/api");
    TargetUriOnSegmentMatch(options, request, "/API", "");
    SplitWithoutSeparator("POST", ';');
  }

  /** DELETE on a matching path passes through when the allow-list is "get;post". */
  lemma ScenarioDisallowedVerb()
    ensures var options := ReverseProxyOptions("", "api", true, "get;post");
            var request := HttpRequest("DELETE", "/api/x", "", [], []);
            BuildTargetUri(options, request) == "api/x" && !ShouldProxy(options, request)
  {
    var options := ReverseProxyOptions("", "api", true, "get;post");
    var request := HttpRequest("DELETE", "/api/x", "", [], []);
    EqualsIgnoreCaseIsEquivalence("/api", "/api", "/api");
    TargetUriOnSegmentMatch(options, request, "/api", "/x");
    var entries := ["get", "post"];
    assert Join(entries, ';') == "get;post";
    assert !EqualsIgnoreCase(entries[0], "DELETE") && !EqualsIgnoreCase(entries[1], "DELETE") by {
      assert |entries[0]| == 3 && |entries[1]| == 4 && |"DELETE"| == 6;
    }
    AllowListRejectsOthers(entries, "DELETE");
  }

  /**
   * Without IncludeTargetPath nothing keeps the target relative: the path
   * "/http://evil.example/x" becomes the absolute target "http://evil.example/x",
   * and the request is proxied.
   */
  lemma ScenarioAbsoluteTarget()
    ensures var options := ReverseProxyOptions("", "api", false, "GET");
            var request := HttpRequest("GET", "/http://evil.example/x", "", [], []);
            BuildTargetUri(options, request) == "http://evil.example/x" && ShouldProxy(options, request)
  {
    var options := ReverseProxyOptions("", "api", false, "GET");
    var request := HttpRequest("GET", "/http://evil.example/x", "", [], []);
    TargetUriNotIncludedStripsOneSlash(options, request, "http://evil.example/x");
    SplitWithoutSeparator("GET", ';');
  }
}
