/** Request assembly in `HttpClient::call` and `HttpClient::deferCall`: both
    entry points build the same request before handing it to the transport. */
module Client {
  import opened Wrappers
  import opened Ipv4
  import opened Encoder
  import opened Url

  /** The PHP library calls the client relies on: `parse_url`, the
      `urlencode` used by `http_build_query`, and the coroutine DNS lookup. */
  datatype Library = Library(
    parseUrl: string -> Option<UrlParts>,
    urlencode: string -> string,
    resolve: string -> Option<string>)

  /** The request as configured on the transport: connection target, method,
      headers, the URI passed to `execute`, and the body set with `setData`
      (`None` when `setData` is not called). */
  datatype Prepared = Prepared(
    profileKey: string,
    host: string,
    port: Option<nat>,
    verb: string,
    headers: map<string, string>,
    uri: string,
    body: Option<string>)

  /** The handle `deferCall` returns: the configured request and what the
      deferred `execute` answered. */
  datatype Pending = Pending(request: Prepared, sent: bool)

  /** The profiling key `$method . "." . $url`. */
  function ProfileKey(verb: string, url: string): (key: string)
    ensures |key| == |verb| + 1 + |url| && key[|verb|] == '.'
  {
    verb + "." + url
  }

  /** The profiling key splits back into the method and the URL. */
  lemma ProfileKeySplits(verb: string, url: string)
    ensures var key := ProfileKey(verb, url);
            && |key| == |verb| + 1 + |url|
            && key[..|verb|] == verb && key[|verb|] == '.' && key[|verb| + 1..] == url
  {
    var key := ProfileKey(verb, url);
    assert key[..|verb|] == verb && key[|verb| + 1..] == url;
  }

  /** The shared prefix of `call` and `deferCall`. A GET appends `&` and the
      encoded payload to the URI and sends no body; every other method keeps
      the URI and sends the encoded payload as body. */
  function PrepareRequest(url: string, verb: string := GET, data: Payload := Form([]),
                          headers: map<string, string> := map[], lib: Library)
    : (r: Result<Prepared, Error>)
    ensures r.Failure? <==> ParseUrl(lib.parseUrl(url), lib.resolve).Failure?
    ensures r.Failure? ==> r.error == ParseUrl(lib.parseUrl(url), lib.resolve).error
    ensures r.Success? ==>
              var e := ParseUrl(lib.parseUrl(url), lib.resolve).value;
              && r.value.profileKey == ProfileKey(verb, url)
              && r.value.host == e.host
              && r.value.port == e.port
              && r.value.verb == verb
              && r.value.headers == RequestHeader(headers, verb)
              && (verb == GET ==> r.value.uri == e.uri + "&" + ContentData(data, lib.urlencode) && r.value.body.None?)
              && (verb != GET ==> r.value.uri == e.uri && r.value.body == Some(ContentData(data, lib.urlencode)))
  {
    var profileKey := ProfileKey(verb, url);
    var endpoint :- ParseUrl(lib.parseUrl(url), lib.resolve);
    var sendHeaders := RequestHeader(headers, verb);
    var encoded := ContentData(data, lib.urlencode);
    if verb != GET then
      Success(Prepared(profileKey, endpoint.host, endpoint.port, verb, sendHeaders, endpoint.uri, Some(encoded)))
    else
      Success(Prepared(profileKey, endpoint.host, endpoint.port, verb, sendHeaders, endpoint.uri + "&" + encoded, None))
  }

  /** `call`: the response body the transport's `execute` yields for the request. */
  function Call(url: string, verb: string := GET, data: Payload := Form([]),
                headers: map<string, string> := map[], lib: Library, execute: Prepared -> string): (r: Result<string, Error>)
    ensures r.Success? <==> PrepareRequest(url, verb, data, headers, lib).Success?
    ensures r.Success? ==> r.value == execute(PrepareRequest(url, verb, data, headers, lib).value)
    ensures r.Failure? ==> r.error == PrepareRequest(url, verb, data, headers, lib).error
  {
    var request :- PrepareRequest(url, verb, data, headers, lib);
    Success(execute(request))
  }

  /** `deferCall`: the same request, sent in deferred mode and wrapped unreceived. */
  function DeferCall(url: string, verb: string := GET, data: Payload := Form([]),
                     headers: map<string, string> := map[], lib: Library, send: Prepared -> bool): (r: Result<Pending, Error>)
    ensures r.Success? <==> PrepareRequest(url, verb, data, headers, lib).Success?
    ensures r.Success? ==> r.value.request == PrepareRequest(url, verb, data, headers, lib).value
                           && r.value.sent == send(r.value.request)
    ensures r.Failure? ==> r.error == PrepareRequest(url, verb, data, headers, lib).error
  {
    var request :- PrepareRequest(url, verb, data, headers, lib);
    Success(Pending(request, send(request)))
  }

  /** Both entry points build the identical request and fail identically, so a
      deferred call receives what a synchronous call would return. */
  lemma CallAgreesWithDeferCall(url: string, verb: string, data: Payload, headers: map<string, string>,
                                lib: Library, execute: Prepared -> string, send: Prepared -> bool)
    ensures Call(url, verb, data, headers, lib, execute).Success?
            <==> DeferCall(url, verb, data, headers, lib, send).Success?
    ensures Call(url, verb, data, headers, lib, execute).Success? ==>
              Call(url, verb, data, headers, lib, execute).value
              == execute(DeferCall(url, verb, data, headers, lib, send).value.request)
    ensures Call(url, verb, data, headers, lib, execute).Failure? ==>
              Call(url, verb, data, headers, lib, execute).error
              == DeferCall(url, verb, data, headers, lib, send).error
  {
  }

  /** The query a GET sends, the URL's query, `&` and the encoded payload,
      decodes to the URL's own pairs followed by the payload's, whatever the
      URL's query was (`GetUriShape` places it after the path and `?`). */
  lemma GetAppendsPayloadToQuery(query: string, pairs: seq<(string, string)>,
                                 urlencode: string -> string, urldecode: string -> string)
    requires Inverse(urlencode, urldecode)
    requires EscapesSeparators(urlencode)
    ensures ParseQuery(query + "&" + BuildQuery(pairs, urlencode), urldecode)
            == ParseQuery(query, urldecode) + pairs
  {
    ParseQueryAppend(query, BuildQuery(pairs, urlencode), urldecode);
    BuildQueryRoundTrip(pairs, urlencode, urldecode);
  }

  /** The literal shape of a GET URI: path, `?`, the URL's query, `&`, the
      encoded payload, so a URL without query and an empty payload give `path?&`.
      Splitting at the first `?` (`RequestUriRoundTrip`) gives back the path. */
  lemma GetUriShape(url: string, data: Payload, headers: map<string, string>, lib: Library)
    requires PrepareRequest(url, GET, data, headers, lib).Success?
    ensures var parts := PartsOf(lib.parseUrl(url));
            PrepareRequest(url, GET, data, headers, lib).value.uri
            == parts.path.GetOr("") + "?" + parts.query.GetOr("") + "&" + ContentData(data, lib.urlencode)
    ensures data == Form([]) && PartsOf(lib.parseUrl(url)).query.GetOr("") == "" ==>
              PrepareRequest(url, GET, data, headers, lib).value.uri == PartsOf(lib.parseUrl(url)).path.GetOr("") + "?&"
  {
  }

  /** `call($url)` with every default argument: a GET with an empty array
      payload and no headers, so the URI gains a bare `&`, and there is no body
      and no header. */
  lemma DefaultArguments(url: string, lib: Library)
    requires PrepareRequest(url, lib := lib).Success?
    ensures var r := PrepareRequest(url, lib := lib).value;
            && r.verb == GET && r.headers == map[] && r.body.None?
            && r.uri == ParseUrl(lib.parseUrl(url), lib.resolve).value.uri + "&"
  {
  }

  /** The request a GET sends, split at its first `?`, gives the URL's path
      and a query that decodes to the URL's own pairs followed by the payload's,
      whenever the path has no `?` of its own. */
  lemma GetRequestDecodes(url: string, pairs: seq<(string, string)>, headers: map<string, string>,
                          lib: Library, urldecode: string -> string)
    requires Inverse(lib.urlencode, urldecode)
    requires EscapesSeparators(lib.urlencode)
    ensures var r := PrepareRequest(url, GET, Form(pairs), headers, lib);
            var parts := PartsOf(lib.parseUrl(url));
            r.Success? && '?' !in parts.path.GetOr("") ==>
              && SplitUri(r.value.uri).0 == parts.path.GetOr("")
              && ParseQuery(SplitUri(r.value.uri).1, urldecode) == ParseQuery(parts.query.GetOr(""), urldecode) + pairs
  {
    var r := PrepareRequest(url, GET, Form(pairs), headers, lib);
    var parts := PartsOf(lib.parseUrl(url));
    if r.Success? && '?' !in parts.path.GetOr("") {
      var query := parts.query.GetOr("") + "&" + BuildQuery(pairs, lib.urlencode);
      GetUriShape(url, Form(pairs), headers, lib);
      assert r.value.uri == RequestUri(parts.path, Some(query));
      RequestUriRoundTrip(parts.path, Some(query));
      GetAppendsPayloadToQuery(parts.query.GetOr(""), pairs, lib.urlencode, urldecode);
    }
  }

  /** Any other method sends the URL's own URI `path?query` and carries the
      payload as body: a string verbatim, an array as its `http_build_query`
      string (which decodes back to it, by `BuildQueryRoundTrip`). */
  lemma OtherMethodsSendPayloadAsBody(url: string, verb: string, data: Payload, headers: map<string, string>,
                                      lib: Library)
    requires verb != GET
    requires PrepareRequest(url, verb, data, headers, lib).Success?
    ensures var request := PrepareRequest(url, verb, data, headers, lib).value;
            var parts := PartsOf(lib.parseUrl(url));
            && request.uri == parts.path.GetOr("") + "?" + parts.query.GetOr("")
            && request.body.Some?
            && (data.Raw? ==> request.body.value == data.text)
            && (data.Form? ==> request.body.value == BuildQuery(data.pairs, lib.urlencode))
  {
  }

  /** A POST always carries a `Content-Type`, the form type unless the caller
      chose one; no caller header is lost or altered. */
  lemma PostHeaders(url: string, data: Payload, headers: map<string, string>, lib: Library)
    requires PrepareRequest(url, POST, data, headers, lib).Success?
    ensures var sent := PrepareRequest(url, POST, data, headers, lib).value.headers;
            && ContentType in sent
            && sent[ContentType] == (if ContentType in headers then headers[ContentType] else FormUrlEncoded)
            && forall k :: k in headers ==> k in sent && sent[k] == headers[k]
  {
  }

  /** The scenario `call("http://example.com/api?id=5", "GET", [], 200, [])`
      with `example.com` resolving to `93.184.216.34`: the request goes to
      that address on port 80 with URI `/api?id=5&`, profiled under
      `GET.http://example.com/api?id=5`. */
  lemma ExampleCallRequest(lib: Library)
    requires lib.parseUrl("http://example.com/api?id=5")
             == Some(UrlParts(Some("http"), Some("example.com"), None, Some("/api"), Some("id=5")))
    requires lib.resolve("example.com") == Some("93.184.216.34")
    ensures var prepared := PrepareRequest("http://example.com/api?id=5", GET, Form([]), map[], lib);
            && prepared.Success?
            && prepared.value.host == "93.184.216.34"
            && prepared.value.port == Some(80)
            && prepared.value.uri == "/api?id=5&"
            && prepared.value.body.None?
            && prepared.value.profileKey == "GET.http://example.com/api?id=5"
  {
    ExampleTexts();
    ExampleProfileKey();
    ExampleEndpoint(lib);
    assert ContentData(Form([]), lib.urlencode) == "";
  }

  lemma ExampleEndpoint(lib: Library)
    requires lib.parseUrl("http://example.com/api?id=5")
             == Some(UrlParts(Some("http"), Some("example.com"), None, Some("/api"), Some("id=5")))
    requires lib.resolve("example.com") == Some("93.184.216.34")
    ensures ParseUrl(lib.parseUrl("http://example.com/api?id=5"), lib.resolve)
            == Success(Endpoint("93.184.216.34", Some(80), "/api?id=5"))
  {
    DomainIsNotLiteral("example.com", 'e');
    var parts := PartsOf(lib.parseUrl("http://example.com/api?id=5"));
    assert DnsLookup(parts.host.value, lib.resolve) == Success("93.184.216.34");
    var endpoint := ParseUrl(lib.parseUrl("http://example.com/api?id=5"), lib.resolve);
    assert endpoint.value.port == Some(80);
    ExampleTexts();
  }

  /** The string arithmetic of the examples, proved apart from them. */
  lemma ExampleTexts()
    ensures RequestUri(Some("/api"), Some("id=5")) == "/api?id=5"
    ensures "/api?id=5" + "&" + "" == "/api?id=5&"
    ensures RequestUri(Some("/p"), Some("x=1")) + "&" + "y=2" == "/p?x=1&y=2"
    ensures "y" + "=" + "2" == "y=2"
  {
  }

  /** The profiling key of the example call. */
  lemma ExampleProfileKey()
    ensures ProfileKey(GET, "http://example.com/api?id=5") == "GET.http://example.com/api?id=5"
  {
    var url := "http://example.com/api?id=5";
    assert ProfileKey(GET, url) == "GET" + "." + url;
    assert "GET" + "." + url == "GET." + url;
    assert "GET." + url == "GET.http://example.com/api?id=5";
  }

  /** The same scenario with a transport that answers `OK`: `call` returns
      `OK`. */
  lemma ExampleCall(lib: Library, execute: Prepared -> string)
    requires lib.parseUrl("http://example.com/api?id=5")
             == Some(UrlParts(Some("http"), Some("example.com"), None, Some("/api"), Some("id=5")))
    requires lib.resolve("example.com") == Some("93.184.216.34")
    requires forall p :: execute(p) == "OK"
    ensures Call("http://example.com/api?id=5", lib := lib, execute := execute) == Success("OK")
  {
    ExampleCallRequest(lib);
  }

  /** A GET with form payload `y=2` to `http://h/p?x=1` requests `/p?x=1&y=2`. */
  lemma ExampleGetWithQuery(lib: Library)
    requires lib.parseUrl("http://h/p?x=1")
             == Some(UrlParts(Some("http"), Some("h"), None, Some("/p"), Some("x=1")))
    requires lib.resolve("h") == Some("10.0.0.7")
    requires lib.urlencode("y") == "y" && lib.urlencode("2") == "2"
    ensures var r := PrepareRequest("http://h/p?x=1", GET, Form([("y", "2")]), map[], lib);
            r.Success? && r.value.uri == "/p?x=1&y=2" && r.value.host == "10.0.0.7"
  {
    DomainIsNotLiteral("h", 'h');
    ExampleTexts();
    var pairs := [("y", "2")];
    assert EncodePair(pairs[0], lib.urlencode) == "y=2";
    assert EncodePairs(pairs, lib.urlencode) == ["y=2"];
    assert ContentData(Form(pairs), lib.urlencode) == "y=2";
  }
}
