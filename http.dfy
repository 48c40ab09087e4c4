/**
 * The parts of ASP.NET Core and System.Net.Http that the reverse proxy relies on,
 * stated as the behaviour the middleware assumes of them: PathString segment
 * matching, the HttpMethods.IsX tests, the HttpMethod verbs and header lists.
 */
module Http {
  import opened Text

  type Byte = b: int | 0 <= b < 256

  datatype Option<T> = None | Some(value: T)

  /** One entry of a header collection: a name and its values, in order. */
  datatype Header = Header(name: string, values: seq<string>)

  /**
   * PathString.StartsWithSegments(other, out remaining): a case-insensitive prefix
   * match that succeeds only when the path equals the prefix or the prefix is
   * followed by '/'; on success the remainder is the rest of the path.
   */
  function StartsWithSegments(path: string, prefix: string): (remaining: Option<string>)
    ensures remaining.Some? ==>
              && |remaining.value| <= |path|
              && path == path[..|path| - |remaining.value|] + remaining.value
              && EqualsIgnoreCase(path[..|path| - |remaining.value|], prefix)
              && (remaining.value == "" || remaining.value[0] == '/')
  {
    if |prefix| <= |path| && EqualsIgnoreCase(path[..|prefix|], prefix)
       && (|path| == |prefix| || path[|prefix|] == '/')
    then Some(path[|prefix|..])
    else None
  }

  /** Every split of a path into a matching head and a segment-aligned rest is found. */
  lemma StartsWithSegmentsComplete(head: string, rest: string, prefix: string)
    requires EqualsIgnoreCase(head, prefix)
    requires rest == "" || rest[0] == '/'
    ensures StartsWithSegments(head + rest, prefix) == Some(rest)
  {
    var path := head + rest;
    assert path[..|prefix|] == head;
    assert path[|prefix|..] == rest;
  }

  /**
   * A path whose case-insensitive prefix is followed by anything but '/' does not
   * match: "/apiextra" is not within the segment "/api".
   */
  lemma StartsWithSegmentsRejectsNearMiss(head: string, rest: string, prefix: string)
    requires EqualsIgnoreCase(head, prefix)
    requires rest != "" && rest[0] != '/'
    ensures StartsWithSegments(head + rest, prefix) == None
  {
    var path := head + rest;
    assert path[|prefix|] == rest[0];
  }

  // HttpMethods.IsGet, IsHead, ...: ordinal case-insensitive comparison with the verb.
  predicate IsDelete(verb: string) { EqualsIgnoreCase(verb, "DELETE") }
  predicate IsGet(verb: string) { EqualsIgnoreCase(verb, "GET") }
  predicate IsHead(verb: string) { EqualsIgnoreCase(verb, "HEAD") }
  predicate IsOptions(verb: string) { EqualsIgnoreCase(verb, "OPTIONS") }
  predicate IsPost(verb: string) { EqualsIgnoreCase(verb, "POST") }
  predicate IsPut(verb: string) { EqualsIgnoreCase(verb, "PUT") }
  predicate IsTrace(verb: string) { EqualsIgnoreCase(verb, "TRACE") }

  /** System.Net.Http.HttpMethod: the well-known verbs, and any other token verbatim. */
  datatype HttpMethod =
    | Delete | Get | Head | Options | Post | Put | Trace
    | Custom(token: string)
  {
    /** HttpMethod.Method, the verb's text as sent on the wire. */
    function Name(): string {
      match this
      case Delete => "DELETE"
      case Get => "GET"
      case Head => "HEAD"
      case Options => "OPTIONS"
      case Post => "POST"
      case Put => "PUT"
      case Trace => "TRACE"
      case Custom(t) => t
    }
  }

  /** The entries of `headers` whose name `keep` accepts, in their original order. */
  function FilterByName(headers: seq<Header>, keep: string -> bool): (kept: seq<Header>)
    ensures |kept| <= |headers|
    ensures forall h :: h in kept <==> h in headers && keep(h.name)
  {
    if headers == [] then []
    else
      var rest := FilterByName(headers[1..], keep);
      assert headers == [headers[0]] + headers[1..];
      if keep(headers[0].name) then [headers[0]] + rest else rest
  }

  /** Filtering is order preserving: it distributes over concatenation. */
  lemma {:induction false} FilterByNameAppend(a: seq<Header>, b: seq<Header>, keep: string -> bool)
    ensures FilterByName(a + b, keep) == FilterByName(a, keep) + FilterByName(b, keep)
  {
    if a != [] {
      assert (a + b)[0] == a[0];
      assert (a + b)[1..] == a[1..] + b;
      FilterByNameAppend(a[1..], b, keep);
    } else {
      assert a + b == b;
    }
  }
}
