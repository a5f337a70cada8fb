/** URL post-processing and host resolution in `HttpClient`: what `parseUrl`
    does with the array `parse_url` returns, and `dnsLookup`. */
module Url {
  import opened Wrappers
  import opened Text
  import opened Ipv4

  /** The keys `parseUrl` reads from `parse_url`'s array; an absent key is `None`. */
  datatype UrlParts = UrlParts(
    scheme: Option<string>,
    host: Option<string>,
    port: Option<nat>,
    path: Option<string>,
    query: Option<string>)

  /** What `parseUrl` returns: the resolved host, the port (`None` is PHP's
      `null` from an unknown scheme without explicit port) and the request URI. */
  datatype Endpoint = Endpoint(host: string, port: Option<nat>, uri: string)

  datatype Error =
      /** No host in the URL: `null` reaches `dnsLookup(string $host)`, a PHP type error. */
    | MissingHost
      /** The `InvalidArgumentException` thrown for a failed lookup of `domain`. */
    | DnsFailure(domain: string)

  const DnsFailurePrefix := "域名dns查询失败，domain="

  function Message(e: Error): (m: string)
    ensures e.DnsFailure? ==> |m| == |DnsFailurePrefix| + |e.domain|
                              && m[..|DnsFailurePrefix|] == DnsFailurePrefix
                              && m[|DnsFailurePrefix|..] == e.domain
  {
    match e
    case MissingHost => ""
    case DnsFailure(domain) => DnsFailurePrefix + domain
  }

  /** PHP's `!$ip` on the lookup result: `false`, `""` and `"0"` are falsy. */
  predicate Falsy(ip: Option<string>) {
    ip.None? || ip.value == "" || ip.value == "0"
  }

  /** `dnsLookup`: an IPv4 literal is returned as it is; any other host is
      handed to the coroutine resolver `resolve`, whose falsy answer is an error. */
  function DnsLookup(host: string, resolve: string -> Option<string>): (r: Result<string, Error>)
    ensures IsIPv4Literal(host) ==> r == Success(host)
    ensures r.Failure? <==> !IsIPv4Literal(host) && Falsy(resolve(host))
    ensures r.Failure? ==> r.error == DnsFailure(host)
    ensures r.Success? && !IsIPv4Literal(host) ==> Some(r.value) == resolve(host)
    ensures r.Success? ==> r.value != "" && r.value != "0"
  {
    if Ip2Long(host).Some? then LiteralHasDot(host); Success(host)
    else
      var ip := resolve(host);
      if Falsy(ip) then Failure(DnsFailure(host)) else Success(ip.value)
  }

  /** A literal host never reaches the resolver: any two resolvers agree on it. */
  lemma LiteralIgnoresResolver(host: string, resolve1: string -> Option<string>, resolve2: string -> Option<string>)
    requires IsIPv4Literal(host)
    ensures DnsLookup(host, resolve1) == DnsLookup(host, resolve2) == Success(host)
  {
  }

  /** A host that is not a literal resolves to whatever the resolver answers,
      and fails exactly when that answer is falsy. */
  lemma DomainUsesResolver(host: string, resolve: string -> Option<string>, ip: string)
    requires !IsIPv4Literal(host)
    requires resolve(host) == Some(ip)
    ensures DnsLookup(host, resolve) == if ip == "" || ip == "0" then Failure(DnsFailure(host)) else Success(ip)
  {
  }

  /** `$defaultPorts[$protocol]`: the scheme's port, or `null` for any other scheme. */
  function DefaultPort(scheme: Option<string>): (p: Option<nat>)
    ensures p == Some(80) <==> scheme == Some("http")
    ensures p == Some(443) <==> scheme == Some("https")
    ensures p.None? <==> scheme != Some("http") && scheme != Some("https")
  {
    if scheme == Some("http") then Some(80)
    else if scheme == Some("https") then Some(443)
    else None
  }

  /** The request URI `$path . "?" . $query`. */
  function RequestUri(path: Option<string>, query: Option<string>): (u: string)
    ensures var p, q := path.GetOr(""), query.GetOr("");
            && |u| == |p| + 1 + |q|
            && u[..|p|] == p && u[|p|] == '?' && u[|p| + 1..] == q
  {
    path.GetOr("") + "?" + query.GetOr("")
  }

  /** The reference inverse of `RequestUri`: split at the first `?`. */
  function SplitUri(uri: string): (string, string)
  {
    var i := IndexOf(uri, '?');
    (uri[..i], if i < |uri| then uri[i + 1..] else "")
  }

  /** The URI always carries a `?`, and splitting it gives back the path and
      query (absent ones as `""`), since a parsed path never holds a `?`. */
  lemma RequestUriRoundTrip(path: Option<string>, query: Option<string>)
    ensures '?' in RequestUri(path, query)
    ensures '?' !in path.GetOr("") ==> SplitUri(RequestUri(path, query)) == (path.GetOr(""), query.GetOr(""))
  {
    var p, q := path.GetOr(""), query.GetOr("");
    var u := p + ['?'] + q;
    assert u[|p|] == '?';
    if '?' !in p {
      IndexOfSeparated(p, '?', q);
      assert u[..|p|] == p && u[|p| + 1..] == q;
    }
  }

  /** `parse_url` returning `false` behaves like an array without any key. */
  function PartsOf(parsed: Option<UrlParts>): UrlParts
  {
    parsed.GetOr(UrlParts(None, None, None, None, None))
  }

  /** `parseUrl` after `parse_url`: port from the URL or by scheme, URI from
      path and query, host through `DnsLookup`. */
  function ParseUrl(parsed: Option<UrlParts>, resolve: string -> Option<string>): (r: Result<Endpoint, Error>)
    ensures PartsOf(parsed).host.None? ==> r == Failure(MissingHost)
    ensures PartsOf(parsed).host.Some? ==>
              (r.Failure? <==> DnsLookup(PartsOf(parsed).host.value, resolve).Failure?)
    ensures PartsOf(parsed).host.Some? && r.Failure? ==> r.error == DnsFailure(PartsOf(parsed).host.value)
    ensures r.Success? ==> PartsOf(parsed).host.Some?
                           && Success(r.value.host) == DnsLookup(PartsOf(parsed).host.value, resolve)
    ensures r.Success? && PartsOf(parsed).port.Some? ==> r.value.port == PartsOf(parsed).port
    ensures r.Success? && PartsOf(parsed).port.None? ==> r.value.port == DefaultPort(PartsOf(parsed).scheme)
    ensures r.Success? ==> r.value.uri == RequestUri(PartsOf(parsed).path, PartsOf(parsed).query)
  {
    var parts := PartsOf(parsed);
    var uri := RequestUri(parts.path, parts.query);
    var port := if parts.port.Some? then parts.port else DefaultPort(parts.scheme);
    if parts.host.None? then Failure(MissingHost)
    else
      var host :- DnsLookup(parts.host.value, resolve);
      Success(Endpoint(host, port, uri))
  }
}
