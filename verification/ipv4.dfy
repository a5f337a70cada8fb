/** The IPv4-literal test behind `ip2long`: PHP hands the host to `inet_pton`,
    which accepts exactly four dot-separated decimal octets, each in 0..255 and
    written without a leading zero. */
module Ipv4 {
  import opened Wrappers
  import opened Text

  predicate IsOctet(s: string) {
    IsCanonicalDecimal(s) && DecimalValue(s) <= 255
  }

  predicate IsIPv4Literal(host: string) {
    var parts := Split(host, '.');
    |parts| == 4 && forall i :: 0 <= i < 4 ==> IsOctet(parts[i])
  }

  /** `ip2long`: the 32-bit address a dotted-quad literal denotes, or `None`
      for PHP's `false`. */
  function Ip2Long(host: string): (r: Option<nat>)
    ensures r.Some? <==> IsIPv4Literal(host)
    ensures r.Some? ==> r.value < 0x1_0000_0000
  {
    if IsIPv4Literal(host) then
      var parts := Split(host, '.');
      Some(DecimalValue(parts[0]) * 0x100_0000 + DecimalValue(parts[1]) * 0x1_0000
           + DecimalValue(parts[2]) * 0x100 + DecimalValue(parts[3]))
    else None
  }

  /** The dotted-quad text of the address with octets `a.b.c.d`. */
  function FormatIPv4(a: nat, b: nat, c: nat, d: nat): string
    requires a < 256 && b < 256 && c < 256 && d < 256
  {
    Join([Decimal(a), Decimal(b), Decimal(c), Decimal(d)], '.')
  }

  /** Every formatted address is a literal, and `ip2long` reads back its octets. */
  lemma {:induction false} FormatIsLiteral(a: nat, b: nat, c: nat, d: nat)
    requires a < 256 && b < 256 && c < 256 && d < 256
    ensures IsIPv4Literal(FormatIPv4(a, b, c, d))
    ensures Ip2Long(FormatIPv4(a, b, c, d)) == Some(a * 0x100_0000 + b * 0x1_0000 + c * 0x100 + d)
  {
    var parts := [Decimal(a), Decimal(b), Decimal(c), Decimal(d)];
    forall i | 0 <= i < |parts|
      ensures '.' !in parts[i]
    {
      assert AllDigits(parts[i]);
      assert forall k :: 0 <= k < |parts[i]| ==> parts[i][k] != '.';
    }
    SplitJoin(parts, '.');
    DecimalRoundTrip(a);
    DecimalRoundTrip(b);
    DecimalRoundTrip(c);
    DecimalRoundTrip(d);
  }

  /** Conversely, every literal is the formatting of its own octets. */
  lemma {:induction false} LiteralIsFormatted(host: string)
    requires IsIPv4Literal(host)
    ensures exists a: nat, b: nat, c: nat, d: nat ::
              a < 256 && b < 256 && c < 256 && d < 256 && host == FormatIPv4(a, b, c, d)
  {
    var parts := Split(host, '.');
    var a, b, c, d := DecimalValue(parts[0]), DecimalValue(parts[1]),
                      DecimalValue(parts[2]), DecimalValue(parts[3]);
    CanonicalDecimalRoundTrip(parts[0]);
    CanonicalDecimalRoundTrip(parts[1]);
    CanonicalDecimalRoundTrip(parts[2]);
    CanonicalDecimalRoundTrip(parts[3]);
    assert [Decimal(a), Decimal(b), Decimal(c), Decimal(d)] == parts;
    JoinSplit(host, '.');
    assert host == FormatIPv4(a, b, c, d);
  }

  /** A literal contains a dot, so neither `""` nor `"0"` is one. */
  lemma LiteralHasDot(host: string)
    requires IsIPv4Literal(host)
    ensures '.' in host
  {
    if '.' !in host {
      SplitWithoutSeparator(host, '.');
      assert false;
    }
  }

  /** A literal is made of digits and dots only, so a host naming a domain
      (any letter, hyphen, ...) is never a literal. */
  lemma {:induction false} LiteralAlphabet(host: string, ch: char)
    requires IsIPv4Literal(host)
    requires ch in host
    ensures ch == '.' || IsDigit(ch)
  {
    var parts := Split(host, '.');
    JoinSplit(host, '.');
    JoinAlphabet(parts, '.', ch);
    if ch != '.' {
      var i :| 0 <= i < |parts| && ch in parts[i];
      var k :| 0 <= k < |parts[i]| && parts[i][k] == ch;
      assert IsDigit(parts[i][k]);
    }
  }

  /** A host holding a character other than a digit or a dot is not a literal,
      so it goes to the resolver. */
  lemma DomainIsNotLiteral(host: string, ch: char)
    requires ch in host && ch != '.' && !IsDigit(ch)
    ensures !IsIPv4Literal(host)
  {
    if IsIPv4Literal(host) {
      LiteralAlphabet(host, ch);
    }
  }
}
