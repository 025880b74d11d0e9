/**
 * URL un-escaping as Ruby's `CGI.unescape` does it, on characters: every `+`
 * becomes a space and every `%XY` with two hexadecimal digits becomes the
 * character whose code is 0xXY; anything else, a malformed `%` included, is
 * kept as it is. `Escape` is the matching encoder (the form in which the
 * object store hands back an upload location) and serves as its inverse.
 */
module Escaping {
  import opened Wrappers

  predicate IsHexDigit(c: char) {
    '0' <= c <= '9' || 'a' <= c <= 'f' || 'A' <= c <= 'F'
  }

  function HexValue(c: char): (v: nat)
    requires IsHexDigit(c)
    ensures v < 16
  {
    if '0' <= c <= '9' then c as int - '0' as int
    else if 'a' <= c <= 'f' then c as int - 'a' as int + 10
    else c as int - 'A' as int + 10
  }

  function UpperHexDigit(v: nat): (c: char)
    requires v < 16
    ensures IsHexDigit(c) && HexValue(c) == v
  {
    if v < 10 then ('0' as int + v) as char else ('A' as int + v - 10) as char
  }

  /** `CGI.unescape`: decoding never makes a string longer. */
  function Unescape(s: string): (r: string)
    ensures |r| <= |s|
    decreases |s|
  {
    if s == [] then []
    else if s[0] == '%' && |s| >= 3 && IsHexDigit(s[1]) && IsHexDigit(s[2]) then
      [(16 * HexValue(s[1]) + HexValue(s[2])) as char] + Unescape(s[3..])
    else if s[0] == '+' then [' '] + Unescape(s[1..])
    else [s[0]] + Unescape(s[1..])
  }

  /** The value `direct_upload_url=` stores: un-escaping `nil` raises, and the rescue stores `nil`. */
  function StoredUrl(escaped: Option<string>): (r: Option<string>)
    ensures r.None? <==> escaped.None?
    ensures r.Some? ==> |r.value| <= |escaped.value|
  {
    match escaped
    case None => None
    case Some(s) => Some(Unescape(s))
  }

  /** Characters that percent-encoding leaves alone (RFC 3986, section 2.3). */
  predicate IsUnreserved(c: char) {
    'a' <= c <= 'z' || 'A' <= c <= 'Z' || '0' <= c <= '9' || c == '-' || c == '.' || c == '_' || c == '~'
  }

  /** Every character fits in one byte. */
  predicate IsByteString(s: string) {
    forall i :: 0 <= i < |s| ==> s[i] as int < 256
  }

  function EscapeChar(c: char): (r: string)
    requires c as int < 256
  {
    if IsUnreserved(c) then [c]
    else if c == ' ' then "+"
    else ['%', UpperHexDigit(c as int / 16), UpperHexDigit(c as int % 16)]
  }

  /** Percent-encoding in the `CGI.escape` style: a space becomes `+`. */
  function Escape(s: string): (r: string)
    requires IsByteString(s)
    ensures forall i :: 0 <= i < |r| ==> r[i] != ' '
    decreases |s|
  {
    if s == [] then [] else EscapeChar(s[0]) + Escape(s[1..])
  }

  lemma UnescapeEscapeChar(c: char, rest: string)
    requires c as int < 256
    ensures Unescape(EscapeChar(c) + rest) == [c] + Unescape(rest)
  {
    var e := EscapeChar(c) + rest;
    if IsUnreserved(c) {
      assert e == [c] + rest;
      assert e[1..] == rest;
    } else if c == ' ' {
      assert e == ['+'] + rest;
      assert e[1..] == rest;
    } else {
      var hi, lo := UpperHexDigit(c as int / 16), UpperHexDigit(c as int % 16);
      assert e == ['%', hi, lo] + rest;
      assert e[3..] == rest;
      assert (16 * HexValue(hi) + HexValue(lo)) as char == c;
    }
  }

  /** Un-escaping undoes escaping: the stored URL is the one the client was given. */
  lemma {:induction false} UnescapeEscape(s: string)
    requires IsByteString(s)
    ensures Unescape(Escape(s)) == s
    decreases |s|
  {
    if s != [] {
      assert IsByteString(s[1..]) by {
        forall i | 0 <= i < |s[1..]| ensures s[1..][i] as int < 256 {
          assert s[1..][i] == s[i + 1];
        }
      }
      UnescapeEscape(s[1..]);
      UnescapeEscapeChar(s[0], Escape(s[1..]));
      assert [s[0]] + s[1..] == s;
    }
  }

  /** The setter stores the un-escaped URL. */
  lemma StoredUrlOfEscaped(s: string)
    requires IsByteString(s)
    ensures StoredUrl(Some(Escape(s))) == Some(s)
  {
    UnescapeEscape(s);
  }

  /** A string with no `%` and no `+` is stored as it is. */
  lemma {:induction false} UnescapePlain(s: string)
    requires forall i :: 0 <= i < |s| ==> s[i] != '%' && s[i] != '+'
    ensures Unescape(s) == s
    decreases |s|
  {
    if s != [] {
      UnescapePlain(s[1..]);
      assert [s[0]] + s[1..] == s;
    }
  }
}
