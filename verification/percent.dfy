/** Percent-encoding as described in section 2.1 of RFC 3986: `%` followed by
    two hexadecimal digits stands for one octet. `Unquote` is what
    `urllib.parse.unquote` does to a path whose escapes stay below 0x80;
    `Quote` is the encoder a URL producer applies, used here as its partner.
 */
module Percent {
  import opened Text

  predicate IsHex(c: char) {
    ('0' <= c <= '9') || ('a' <= c <= 'f') || ('A' <= c <= 'F')
  }

  function HexValue(c: char): (v: nat)
    requires IsHex(c)
    ensures v < 16
  {
    if '0' <= c <= '9' then c as int - '0' as int
    else if 'a' <= c <= 'f' then c as int - 'a' as int + 10
    else c as int - 'A' as int + 10
  }

  /** The upper-case hexadecimal digit for `d`, as `quote` writes it. */
  function HexDigit(d: nat): (c: char)
    requires d < 16
    ensures IsHex(c) && HexValue(c) == d
  {
    if d < 10 then (48 + d) as char else (55 + d) as char
  }

  /** `unquote(s)`: every `%XX` with two hexadecimal digits becomes the
      character with that code; a `%` not followed by two hexadecimal digits
      stays as it is. */
  function Unquote(s: string): (r: string)
    ensures |r| <= |s|
    ensures '%' !in s ==> r == s
    decreases |s|
  {
    if |s| >= 3 && s[0] == '%' && IsHex(s[1]) && IsHex(s[2]) then
      [(16 * HexValue(s[1]) + HexValue(s[2])) as char] + Unquote(s[3..])
    else if s == [] then []
    else [s[0]] + Unquote(s[1..])
  }

  /** Characters `quote(s, safe='/')` leaves alone: the unreserved set of
      section 2.3 of RFC 3986 plus `/`. */
  predicate IsUnescaped(c: char) {
    || ('a' <= c <= 'z') || ('A' <= c <= 'Z') || ('0' <= c <= '9')
    || c == '-' || c == '.' || c == '_' || c == '~' || c == '/'
  }

  predicate IsAscii(s: string) {
    forall i :: 0 <= i < |s| ==> s[i] as int < 128
  }

  function QuoteChar(c: char): (r: string)
    requires c as int < 128
    ensures IsUnescaped(c) ==> r == [c]
    ensures !IsUnescaped(c) ==> |r| == 3 && r[0] == '%'
  {
    if IsUnescaped(c) then [c]
    else ['%', HexDigit(c as int / 16), HexDigit(c as int % 16)]
  }

  /** `quote(s, safe='/')` over ASCII text. */
  function Quote(s: string): (r: string)
    requires IsAscii(s)
    ensures |r| >= |s|
  {
    if s == [] then [] else QuoteChar(s[0]) + Quote(s[1..])
  }

  /** `quote` writes only unescaped characters, `%` and hexadecimal digits. */
  lemma {:induction false} QuoteAlphabet(s: string)
    requires IsAscii(s)
    ensures forall k :: 0 <= k < |Quote(s)| ==> IsUnescaped(Quote(s)[k]) || Quote(s)[k] == '%' || IsHex(Quote(s)[k])
  {
    if s != [] {
      QuoteAlphabet(s[1..]);
      var head, tail := QuoteChar(s[0]), Quote(s[1..]);
      assert Quote(s) == head + tail;
      assert forall k :: 0 <= k < |head| ==> IsUnescaped(head[k]) || head[k] == '%' || IsHex(head[k]);
      assert forall k :: |head| <= k < |head| + |tail| ==> (head + tail)[k] == tail[k - |head|];
    }
  }

  lemma UnquoteQuoteChar(c: char, rest: string)
    requires c as int < 128
    ensures Unquote(QuoteChar(c) + rest) == [c] + Unquote(rest)
  {
    var q := QuoteChar(c) + rest;
    if IsUnescaped(c) {
      assert q[0] == c && q[1..] == rest;
    } else {
      var hi := HexDigit(c as int / 16);
      var lo := HexDigit(c as int % 16);
      assert q[0] == '%' && q[1] == hi && q[2] == lo && q[3..] == rest;
      assert (16 * HexValue(hi) + HexValue(lo)) as char == c;
    }
  }

  /** Decoding undoes encoding: the key a URL producer percent-encodes into a
      path is the key `unquote` recovers. */
  lemma {:induction false} UnquoteQuote(s: string)
    requires IsAscii(s)
    ensures Unquote(Quote(s)) == s
    decreases |s|
  {
    if s != [] {
      UnquoteQuoteChar(s[0], Quote(s[1..]));
      UnquoteQuote(s[1..]);
    }
  }
}
