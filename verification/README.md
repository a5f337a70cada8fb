# HttpClient request construction, in Dafny

A model of the pure request-building logic of Swoft's coroutine HTTP client
(`Swoft\Http\HttpClient`). Both public entry points, `call` and `deferCall`,
turn a URL, a method, a payload and a header map into one request for the
Swoole coroutine transport:

- the URL, already split by `parse_url`, becomes a connection target and a
  request URI (`parseUrl`). The port is the explicit one, else 80 for `http`
  and 443 for `https`. The URI is always `path . "?" . query`;
- the host is resolved (`dnsLookup`). An IPv4 literal, as `ip2long` accepts it,
  is used as it is. Any other host goes to the coroutine DNS lookup, and a
  falsy answer throws `InvalidArgumentException`;
- headers get a default `Content-Type: application/x-www-form-urlencoded` for a
  POST without one (`getRequestHeader`);
- the payload is turned into a string (`getContentData`). A string is kept
  verbatim, an array goes through `http_build_query`, anything else through
  the `(string)` cast;
- a GET appends `"&" . encoded` to the URI and sends no body. Every other
  method keeps the URI and sends the encoded payload as the body. The request
  is profiled under `method . "." . url`.

Modules:

- `Wrappers`: `Option` and `Result`.
- `Text`: split/join on a separator and decimal numerals, with their round trips.
- `Ipv4`: the dotted-quad test behind `ip2long`. It follows `inet_pton`: four
  dot-separated decimal octets, each 0..255, with no leading zero.
- `Encoder`: `getRequestHeader`, `getContentData`, and the `k=v&k=v` shape of
  `http_build_query`. `ParseQuery` is an ordered, non-collapsing
  reference decoder for the round trip. It is not `parse_str`, which drops a
  piece with an empty key, turns `.` and spaces in keys into `_`, builds arrays
  from `[]`, and lets a later duplicate key overwrite an earlier one.
- `Url`: `parseUrl` after its `parse_url` call, and `dnsLookup`.
- `Client`: the shared request prefix of `call`/`deferCall` (`PrepareRequest`)
  and the two entry points over a transport given as a parameter.

The PHP library calls are parameters, bundled in `Client.Library`:
`parse_url` (URL to an optional `UrlParts` record), the `urlencode` applied by
`http_build_query`, and `swoole_async_dns_lookup_coro` (host to an optional
address). The transport's `execute` is a parameter of `Call` (the request to
the response body) and of `DeferCall` (the request to the deferred send's
boolean). Round-trip lemmas about the query take a `urldecode` and assume two
things of `urlencode`: `urldecode` undoes it (`Encoder.Inverse`), and its
output never contains `&` or `=` (`Encoder.EscapesSeparators`). PHP's
`urlencode` has both properties.

Error paths and edge cases as the code has them:

- A URL without a scheme is not rejected (src/Http/HttpClient.php:184, 190).
  `$defaultPorts[null]` is only a notice, and the port becomes `null`,
  modelled as `None`. The same happens for any scheme other than
  `http`/`https` given without an explicit port.
- A URL without a host is not reported by `parseUrl`
  (src/Http/HttpClient.php:186, 192). The `null` host reaches
  `dnsLookup(string $host)` (line 203), which raises PHP's type error. This is
  modelled as `Url.MissingHost`.
- `!$ip` (src/Http/HttpClient.php:213) treats the answer `"0"` as a failed
  lookup, as well as an empty or `false` answer.
- The method is compared as an exact string (src/Http/HttpClient.php:74, 145).
  A lower-case `get` takes the non-GET branch, and a lower-case `post` gets no
  default `Content-Type`.
- `call($url)` and `deferCall($url)` default to a GET with an empty array
  payload and no headers (src/Http/HttpClient.php:62, 109), so the URI gains a
  bare `&`. The model's entry points carry the same default arguments.

## Model

| member | source | states |
|---|---|---|
| `Encoder.RequestHeader` | src/Http/HttpClient.php:140-149 | every given header keeps its key and value; the only key that can be added is `Content-Type`; the result has `Content-Type` iff the input had it or the method is POST; a newly added one is the form type |
| `Encoder.HeadersChangeOnlyForBarePost` | src/Http/HttpClient.php:142-148 | the header map changes iff the method is POST and `Content-Type` is missing; a GET always gets its map back unchanged |
| `Encoder.RequestHeaderIdempotent` | src/Http/HttpClient.php:145-148 | applying the header defaulting twice gives the same map as applying it once; that an existing `Content-Type` is never overwritten is `RequestHeader`'s first clause |
| `Encoder.ContentData` | src/Http/HttpClient.php:158-167 | a string payload is returned verbatim; an array gives its `http_build_query` string (`""` when empty), which decodes back to it by `BuildQueryRoundTrip`; `true` gives `"1"`, and `false` and `null` give `""`; an integer gives its `(string)` cast `IntText`, and any other value (`Other`) its already-rendered text |
| `Encoder.BuildQuery` | src/Http/HttpClient.php:163-164 | the `http_build_query` string of a flat array is `""` exactly when the array is empty; `BuildQueryRoundTrip` decodes it back to the pairs |
| `Encoder.IntText` | src/Http/HttpClient.php:166 | the `(string)` cast of an integer is a non-empty numeral that starts with `-` exactly when the integer is negative, and has no leading zero otherwise; `IntTextRoundTrip` reads it back |
| `Encoder.BuildQueryRoundTrip` | src/Http/HttpClient.php:163-165 | decoding the `http_build_query` string gives back every key/value pair, in order, for any array (empty included) |
| `Encoder.IntTextRoundTrip` | src/Http/HttpClient.php:166 | the `(string)` cast of an integer is a numeral that reads back as the same integer |
| `Ipv4.Ip2Long` | src/Http/HttpClient.php:205-207 | `ip2long` is not `false` exactly for a dotted-quad literal, and its value fits in 32 bits |
| `Ipv4.FormatIsLiteral` | src/Http/HttpClient.php:205-209 | every address written as four decimal octets is a literal, and `ip2long` reads back `a*2^24 + b*2^16 + c*2^8 + d` |
| `Ipv4.LiteralIsFormatted` | src/Http/HttpClient.php:205-209 | every literal is the dotted-quad formatting of four octets below 256 (the converse of `FormatIsLiteral`) |
| `Ipv4.LiteralAlphabet` | src/Http/HttpClient.php:205-212 | a literal holds only digits and dots, so any domain name with another character is passed to the resolver |
| `Ipv4.LiteralHasDot` | src/Http/HttpClient.php:205-208 | every literal contains a dot, so the literal branch never returns `""` or `"0"` |
| `Url.Falsy` | src/Http/HttpClient.php:213 | `!$ip` on the lookup's answer: `false`, `""` and `"0"` count as no answer; its use is stated by `DnsLookup` and `DomainUsesResolver` |
| `Url.DnsLookup` | src/Http/HttpClient.php:203-218 | a literal host is returned unchanged; the lookup fails iff the host is not a literal and the resolver's answer is falsy, and then the error names the host; otherwise the result is the resolver's answer; a success is never `""` or `"0"` |
| `Url.LiteralIgnoresResolver` | src/Http/HttpClient.php:205-209 | for a literal host any two resolvers give the same result, the host itself, so the resolver is not consulted |
| `Url.DomainUsesResolver` | src/Http/HttpClient.php:211-217 | a non-literal host resolves to the resolver's answer, or fails with `DnsFailure(host)` when that answer is `""` or `"0"` |
| `Url.Message` | src/Http/HttpClient.php:214-215 | the lookup failure's message is the fixed prefix followed by exactly the domain |
| `Url.DefaultPort` | src/Http/HttpClient.php:178-181 | scheme `http` gives 80, `https` gives 443, and every other scheme (or none) gives no port |
| `Url.RequestUri` | src/Http/HttpClient.php:187-189 | the URI is the path (`""` when absent), then `?`, then the query (`""` when absent), each found at its position, so its length is theirs plus one |
| `Url.RequestUriRoundTrip` | src/Http/HttpClient.php:187-189 | the URI always contains `?`, and splitting it at the first `?` gives back the path and the query, each `""` when absent, whenever the path has no `?` (no `parse_url` path has one) |
| `Url.ParseUrl` | src/Http/HttpClient.php:176-194 | no host gives `MissingHost`; otherwise it fails exactly when the host lookup fails, with the lookup's `DnsFailure(host)` passed on unchanged; on success the host is the lookup's result, the port is the URL's own port if given and the scheme default otherwise, and the URI is `path?query` (whose shape `RequestUriRoundTrip` states) |
| `Client.ProfileKey` | src/Http/HttpClient.php:64 | the profiling key is one character longer than the method and URL together, with `.` right after the method; `ProfileKeySplits` splits it back into both |
| `Client.ProfileKeySplits` | src/Http/HttpClient.php:64 | the profiling key is the method, a dot and the URL, and splits back into the two |
| `Client.PrepareRequest` | src/Http/HttpClient.php:64-79 | fails exactly when `parseUrl` fails; otherwise it targets the resolved host and port and sends the defaulted headers; a GET sends the parsed URI plus `&` and the encoded payload with no body, and any other method sends the parsed URI with the encoded payload as body |
| `Client.Call` | src/Http/HttpClient.php:62-88 | returns the transport's response to exactly the prepared request, and fails only when preparation fails |
| `Client.DeferCall` | src/Http/HttpClient.php:109-129 | the pending handle holds exactly the prepared request and the deferred send's answer for it, and fails only when preparation fails |
| `Client.CallAgreesWithDeferCall` | src/Http/HttpClient.php:111-125 | both entry points succeed or fail together with the same error, and `call`'s result is the transport's response to the request `deferCall` holds |
| `Client.GetAppendsPayloadToQuery` | src/Http/HttpClient.php:76-79 | the query a GET sends, the URL's query, `&` and the encoded payload, decodes to the URL's own pairs followed by the payload's pairs, whatever the URL's query was |
| `Client.GetUriShape` | src/Http/HttpClient.php:122-125 | a GET URI is literally `path?query&encoded`, so a URL without query and an empty payload give `path?&` |
| `Client.DefaultArguments` | src/Http/HttpClient.php:62-79 | `call($url)` with every default sends a GET with no body and no headers, whose URI is the parsed URI followed by a bare `&` |
| `Client.GetRequestDecodes` | src/Http/HttpClient.php:76-79 | the URI a GET request carries splits at its first `?` into the URL's path and a query that decodes to the URL's own pairs followed by the payload's pairs, when the path has no `?` of its own |
| `Client.OtherMethodsSendPayloadAsBody` | src/Http/HttpClient.php:74-75 | a non-GET request keeps the URI `path?query` and always has a body: the string payload verbatim, or the array payload's `http_build_query` string |
| `Client.PostHeaders` | src/Http/HttpClient.php:66 | a prepared POST always carries `Content-Type`, the caller's value if given and the form type otherwise, and keeps every caller header unchanged |
| `Ipv4.DomainIsNotLiteral` | src/Http/HttpClient.php:205-212 | a host with a character other than a digit or a dot is never an IPv4 literal |
| `Client.ExampleCallRequest` | src/Http/HttpClient.php:64-79 | `http://example.com/api?id=5` as a GET with the default empty payload, with `example.com` resolving to `93.184.216.34`, goes to that address on port 80 with URI `/api?id=5&` and profile key `GET.http://example.com/api?id=5` |
| `Client.ExampleCall` | src/Http/HttpClient.php:81-87 | in that scenario, a transport that answers `OK` makes `call($url)`, with every other argument defaulted, return `OK` |
| `Client.ExampleGetWithQuery` | src/Http/HttpClient.php:77-78 | a GET to `http://h/p?x=1` with payload `y=2` requests `/p?x=1&y=2` |

## Left out

- The Swoole coroutine client (`new Client`, `setHeaders`, `set`, `setMethod`, `setData`, `setDefer`, `execute`, `body`, `close`) is network I/O through a foreign library. The model stops at the request it is configured with, plus a transport parameter. It does not record that the client is built without Swoole's SSL flag, so an `https` URL is sent in plain text to port 443.
- `HttpResult`, the deferred handle's receive, and all scheduling of concurrent deferred calls are out of scope. `HttpResult`'s source is not part of this model. `Client.Pending` holds only what `deferCall` passes to it.
- `App::profileStart`, `App::profileEnd`, `App::debug` and `App::error` are global profiling and logging side effects. Only the profiling key is modelled.
- The timeout is passed straight to the transport and has no logic of its own.
- `parse_url` is a parameter. The model starts from the keys `parseUrl` reads, and a `false` return behaves as an array with no keys.
- `parse_str`, and the server's reading of the query, are not modelled. `ParseQuery` keeps every pair in order, so a URL query `id=5` with payload `id=6` decodes to both pairs in `Client.GetAppendsPayloadToQuery`, where PHP's `parse_str` would keep only `id=6`.
- `urlencode` is a parameter. The round-trip lemmas assume it is invertible and escapes `&` and `=`.
- `http_build_query` is modelled only for flat arrays of string keys and values. Nested arrays, `null` values (which it skips), numeric-key prefixes and the `arg_separator.output` setting are not modelled.
- `swoole_async_dns_lookup_coro` is a suspending foreign call. It is modelled only through its answer: an address, or `None` for `false`.
- Header values are strings. A `null` value, which `isset` treats as missing, is not modelled.
- The header map is a `map`, so the position of an appended `Content-Type` among PHP's ordered array keys is not modelled.
- Encoder.ContentData: integers are unbounded, so PHP's 64-bit integer range is not modelled. Floats, objects with `__toString` and resources enter as the text their cast produces (`Other`); how PHP renders a float is not modelled.
- Encoder.ContentData: casting an object without `__toString` raises an error in PHP at src/Http/HttpClient.php:166; that error path is not modelled, since `Other` only holds values that have a text. A resource casts without error to `Resource id #N`, which `Other` covers.
- Url.Message: the message for `MissingHost` is `""`, a placeholder; PHP's type error carries its own text, which is not modelled.
- Url.Message: strings are sequences of characters, while PHP strings are bytes, so the length in `Message`'s contract counts the prefix's Chinese characters once each rather than as three UTF-8 bytes.
- Ipv4.Ip2Long: follows glibc's `inet_pton`, which rejects leading zeros. Platforms whose `inet_pton` accepts other forms are not modelled.
