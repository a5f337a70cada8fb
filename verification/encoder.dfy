/** Request encoding in `HttpClient`: the method-dependent default header
    (`getRequestHeader`) and the conversion of a payload to the string sent as
    body or query (`getContentData`, with the key/value shape of
    `http_build_query`). */
module Encoder {
  import opened Wrappers
  import opened Text

  /** The method names of `HttpClient`'s class constants. Only `GET` and
      `POST` change what is sent; `PUT`, `DELETE` and `PATCH` are listed so
      that every method the class names has its constant here. */
  const GET := "GET"
  const POST := "POST"
  const PUT := "PUT"
  const DELETE := "DELETE"
  const PATCH := "PATCH"

  const ContentType := "Content-Type"
  const FormUrlEncoded := "application/x-www-form-urlencoded"

  /** `getRequestHeader`: a POST without a `Content-Type` header gets the form
      content type; every other header map is sent as given. Keys compare
      exactly, so a `content-type` key does not count as present. */
  function RequestHeader(headers: map<string, string>, verb: string): (r: map<string, string>)
    ensures forall k :: k in headers ==> k in r && r[k] == headers[k]
    ensures forall k :: k in r ==> k in headers || k == ContentType
    ensures ContentType in r <==> ContentType in headers || verb == POST
    ensures ContentType in r && ContentType !in headers ==> r[ContentType] == FormUrlEncoded
  {
    if verb == GET then headers
    else if verb == POST && ContentType !in headers then headers[ContentType := FormUrlEncoded]
    else headers
  }

  /** The header map is changed exactly for a POST that lacks `Content-Type`. */
  lemma HeadersChangeOnlyForBarePost(headers: map<string, string>, verb: string)
    ensures RequestHeader(headers, verb) != headers <==> verb == POST && ContentType !in headers
    ensures verb == GET ==> RequestHeader(headers, verb) == headers
  {
    if verb == POST && ContentType !in headers {
      assert ContentType in RequestHeader(headers, verb);
    }
  }

  /** Defaulting twice is defaulting once. */
  lemma RequestHeaderIdempotent(headers: map<string, string>, verb: string)
    ensures RequestHeader(RequestHeader(headers, verb), verb) == RequestHeader(headers, verb)
  {
  }

  /** The PHP value handed to `getContentData`: a string, an array of
      key/value pairs in insertion order, or a scalar the `(string)` cast
      renders. `Other` carries the cast text of a float, a `__toString`
      object, or a resource (`Resource id #N`). */
  datatype Payload =
    | Raw(text: string)
    | Form(pairs: seq<(string, string)>)
    | IntValue(n: int)
    | BoolValue(b: bool)
    | NullValue
    | Other(rendered: string)

  /** `(string)` of an integer: its decimal numeral, signed when negative. */
  function IntText(n: int): (s: string)
    ensures |s| > 0 && (s[0] == '-' <==> n < 0)
    ensures n >= 0 ==> IsCanonicalDecimal(s)
  {
    if n < 0 then "-" + Decimal(-n) else Decimal(n)
  }

  /** Reads back a PHP integer numeral; the reference inverse of `IntText`. */
  function ReadInt(s: string): Option<int>
  {
    if |s| >= 2 && s[0] == '-' && IsCanonicalDecimal(s[1..]) && s[1] != '0' then Some(-(DecimalValue(s[1..]) as int))
    else if IsCanonicalDecimal(s) then Some(DecimalValue(s))
    else None
  }

  lemma IntTextRoundTrip(n: int)
    ensures ReadInt(IntText(n)) == Some(n)
  {
    var s := IntText(n);
    if n < 0 {
      assert s[1..] == Decimal(-n);
      DecimalRoundTrip(-n);
    } else {
      DecimalRoundTrip(n);
    }
  }

  function EncodePair(pair: (string, string), urlencode: string -> string): string
  {
    urlencode(pair.0) + "=" + urlencode(pair.1)
  }

  function EncodePairs(pairs: seq<(string, string)>, urlencode: string -> string): (pieces: seq<string>)
    ensures |pieces| == |pairs|
    ensures forall i :: 0 <= i < |pairs| ==> pieces[i] == EncodePair(pairs[i], urlencode)
  {
    if |pairs| == 0 then []
    else [EncodePair(pairs[0], urlencode)] + EncodePairs(pairs[1..], urlencode)
  }

  /** `http_build_query` on a flat array: `k=v` pieces joined by `&`, each key
      and value passed through `urlencode`. */
  function BuildQuery(pairs: seq<(string, string)>, urlencode: string -> string): (q: string)
    ensures q == "" <==> pairs == []
  {
    Join(EncodePairs(pairs, urlencode), '&')
  }

  /** One `k=v` piece of a query, split at its first `=`; a piece without `=`
      is a key with an empty value. */
  function DecodePair(piece: string, urldecode: string -> string): (string, string)
  {
    var i := IndexOf(piece, '=');
    (urldecode(piece[..i]), if i < |piece| then urldecode(piece[i + 1..]) else "")
  }

  /** Decodes query pieces in order, skipping empty ones. Unlike `parse_str`,
      every pair is kept: duplicate keys do not collapse and keys are not
      rewritten. */
  function DecodePieces(pieces: seq<string>, urldecode: string -> string): seq<(string, string)>
  {
    if |pieces| == 0 then []
    else
      (if pieces[0] == "" then [] else [DecodePair(pieces[0], urldecode)])
      + DecodePieces(pieces[1..], urldecode)
  }

  /** The reference decoder of a query string into its ordered pairs. */
  function ParseQuery(query: string, urldecode: string -> string): seq<(string, string)>
  {
    DecodePieces(Split(query, '&'), urldecode)
  }

  lemma {:induction false} DecodePiecesAppend(a: seq<string>, b: seq<string>,
                                              urldecode: string -> string)
    ensures DecodePieces(a + b, urldecode) == DecodePieces(a, urldecode) + DecodePieces(b, urldecode)
    decreases |a|
  {
    if |a| == 0 {
      assert a + b == b;
    } else {
      assert (a + b)[1..] == a[1..] + b;
      DecodePiecesAppend(a[1..], b, urldecode);
    }
  }

  /** Joining two queries with `&` concatenates their decoded pairs. */
  lemma ParseQueryAppend(q1: string, q2: string, urldecode: string -> string)
    ensures ParseQuery(q1 + "&" + q2, urldecode) == ParseQuery(q1, urldecode) + ParseQuery(q2, urldecode)
  {
    SplitConcat(q1, '&', q2);
    DecodePiecesAppend(Split(q1, '&'), Split(q2, '&'), urldecode);
  }

  /** `urldecode` undoes `urlencode`. */
  ghost predicate Inverse(urlencode: string -> string, urldecode: string -> string) {
    forall s :: urldecode(urlencode(s)) == s
  }

  /** `urlencode` escapes the query's own separators. */
  ghost predicate EscapesSeparators(urlencode: string -> string) {
    forall s :: '&' !in urlencode(s) && '=' !in urlencode(s)
  }

  lemma {:induction false} DecodeEncodedPairs(pairs: seq<(string, string)>,
                                              urlencode: string -> string, urldecode: string -> string)
    requires Inverse(urlencode, urldecode)
    requires EscapesSeparators(urlencode)
    ensures DecodePieces(EncodePairs(pairs, urlencode), urldecode) == pairs
    decreases |pairs|
  {
    if |pairs| > 0 {
      var pieces := EncodePairs(pairs, urlencode);
      var k, v := urlencode(pairs[0].0), urlencode(pairs[0].1);
      IndexOfSeparated(k, '=', v);
      assert pieces[0] == k + ['='] + v;
      var piece := k + ['='] + v;
      assert piece[..|k|] == k && piece[|k| + 1..] == v;
      assert pieces[1..] == EncodePairs(pairs[1..], urlencode);
      DecodeEncodedPairs(pairs[1..], urlencode, urldecode);
    }
  }

  /** Round trip of `http_build_query`: decoding the query recovers every pair,
      in order, whenever `urlencode` is invertible and escapes `&` and `=`. */
  lemma BuildQueryRoundTrip(pairs: seq<(string, string)>,
                               urlencode: string -> string, urldecode: string -> string)
    requires Inverse(urlencode, urldecode)
    requires EscapesSeparators(urlencode)
    ensures ParseQuery(BuildQuery(pairs, urlencode), urldecode) == pairs
  {
    var pieces := EncodePairs(pairs, urlencode);
    if |pairs| > 0 {
      forall i | 0 <= i < |pieces|
        ensures '&' !in pieces[i]
      {
        var piece := EncodePair(pairs[i], urlencode);
        assert piece == urlencode(pairs[i].0) + "=" + urlencode(pairs[i].1);
      }
      SplitJoin(pieces, '&');
    }
    DecodeEncodedPairs(pairs, urlencode, urldecode);
  }

  /** `getContentData`: a string is sent verbatim, an array is form-encoded,
      anything else goes through PHP's `(string)` cast. */
  function ContentData(data: Payload, urlencode: string -> string): (r: string)
    ensures data.Raw? ==> r == data.text
    ensures data.Form? ==> r == BuildQuery(data.pairs, urlencode)
    ensures data.Form? && data.pairs == [] ==> r == ""
    ensures data.BoolValue? ==> (r == "1" <==> data.b) && (r == "" <==> !data.b)
    ensures data.NullValue? ==> r == ""
    ensures data.IntValue? ==> r == IntText(data.n)
    ensures data.Other? ==> r == data.rendered
  {
    match data
    case Raw(text) => text
    case Form(pairs) => BuildQuery(pairs, urlencode)
    case IntValue(n) => IntText(n)
    case BoolValue(b) => if b then "1" else ""
    case NullValue => ""
    case Other(rendered) => rendered
  }
}
