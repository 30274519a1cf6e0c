/**
 * Form decoding of the text nodes the gateway receives: Python 2's
 * `urllib.unquote_plus`. First every `+` becomes a space; then every `%`
 * followed by two hexadecimal digits (either case) becomes the character
 * with that byte value (percent-encoding, section 2.1 of RFC 3986). A `%`
 * that is not followed by two hexadecimal digits is kept as it is.
 *
 * The partner is `QuotePlus`, the matching form encoder, and the round trip
 * `UnquotePlus(QuotePlus(s)) == s`.
 */
module FormDecoding {

  predicate IsHexDigit(c: char) {
    '0' <= c <= '9' || 'a' <= c <= 'f' || 'A' <= c <= 'F'
  }

  function HexValue(c: char): (n: nat)
    requires IsHexDigit(c)
    ensures n < 16
  {
    if '0' <= c <= '9' then c as int - '0' as int
    else if 'a' <= c <= 'f' then c as int - 'a' as int + 10
    else c as int - 'A' as int + 10
  }

  /** Every `+` replaced by a space, everything else kept. */
  function ReplacePlus(s: string): (r: string)
    ensures |r| == |s|
    ensures forall i :: 0 <= i < |s| ==> r[i] == if s[i] == '+' then ' ' else s[i]
  {
    if s == [] then [] else [if s[0] == '+' then ' ' else s[0]] + ReplacePlus(s[1..])
  }

  /** Percent-decoding, scanning left to right. */
  function Unquote(s: string): string
  {
    if |s| >= 3 && s[0] == '%' && IsHexDigit(s[1]) && IsHexDigit(s[2]) then
      [(16 * HexValue(s[1]) + HexValue(s[2])) as char] + Unquote(s[3..])
    else if s == [] then []
    else [s[0]] + Unquote(s[1..])
  }

  /** `urllib.unquote_plus`: plus-to-space, then percent-decoding. */
  function UnquotePlus(s: string): string
  {
    Unquote(ReplacePlus(s))
  }

  /** Characters kept as they are by the encoder: the unreserved set of section 2.3 of RFC 3986. */
  predicate Unreserved(c: char) {
    'A' <= c <= 'Z' || 'a' <= c <= 'z' || '0' <= c <= '9' || c == '-' || c == '.' || c == '_' || c == '~'
  }

  /** Upper-case hexadecimal digit for a value below 16. */
  function HexDigit(n: nat): (c: char)
    requires n < 16
    ensures IsHexDigit(c) && HexValue(c) == n
  {
    "0123456789ABCDEF"[n]
  }

  /** Strings of single bytes, which is what the decoder can produce from `%XX`. */
  predicate IsByteString(s: string) {
    forall i :: 0 <= i < |s| ==> s[i] as int < 256
  }

  /** The encoding of one character: space as `+`, unreserved as itself, anything else as `%XX`. */
  function EncodeChar(c: char): (r: string)
    requires c as int < 256
  {
    if c == ' ' then "+"
    else if Unreserved(c) then [c]
    else ['%', HexDigit(c as int / 16), HexDigit(c as int % 16)]
  }

  /**
   * A form encoder keeping the unreserved set of RFC 3986: spaces become
   * `+`, everything else outside the set `%XX`. (Python 2's `quote_plus`
   * also escapes `~`; the round trip below holds either way.)
   */
  function QuotePlus(s: string): string
    requires IsByteString(s)
  {
    if s == [] then [] else EncodeChar(s[0]) + QuotePlus(s[1..])
  }

  lemma {:induction false} ReplacePlusAppend(a: string, b: string)
    ensures ReplacePlus(a + b) == ReplacePlus(a) + ReplacePlus(b)
  {
    if a != [] {
      assert (a + b)[1..] == a[1..] + b;
      ReplacePlusAppend(a[1..], b);
    } else {
      assert a + b == b;
    }
  }

  /** Decoding one encoded character yields that character and leaves the rest to decode. */
  lemma UnquotePlusEncodedChar(c: char, rest: string)
    requires c as int < 256
    ensures UnquotePlus(EncodeChar(c) + rest) == [c] + UnquotePlus(rest)
  {
    ReplacePlusAppend(EncodeChar(c), rest);
    var t := ReplacePlus(rest);
    if c == ' ' {
      assert ReplacePlus(EncodeChar(c)) == " ";
      assert (" " + t)[1..] == t;
    } else if Unreserved(c) {
      assert ReplacePlus(EncodeChar(c)) == [c];
      assert ([c] + t)[1..] == t;
    } else {
      var hi, lo := HexDigit(c as int / 16), HexDigit(c as int % 16);
      assert ReplacePlus(EncodeChar(c)) == ['%', hi, lo];
      var u := ['%', hi, lo] + t;
      assert u[0] == '%' && u[1] == hi && u[2] == lo && u[3..] == t;
      assert (16 * HexValue(hi) + HexValue(lo)) as char == c;
    }
  }

  /** Round trip: the gateway's decoding undoes the form encoding of any byte string. */
  lemma {:induction false} UnquotePlusInvertsQuotePlus(s: string)
    requires IsByteString(s)
    ensures UnquotePlus(QuotePlus(s)) == s
  {
    if s != [] {
      UnquotePlusInvertsQuotePlus(s[1..]);
      UnquotePlusEncodedChar(s[0], QuotePlus(s[1..]));
    } else {
      assert ReplacePlus([]) == [];
    }
  }

  /** Text with neither `%` nor `+` reaches the decoded value unchanged. */
  lemma {:induction false} UnquotePlusPlainText(s: string)
    requires forall i :: 0 <= i < |s| ==> s[i] != '%' && s[i] != '+'
    ensures UnquotePlus(s) == s
  {
    if s != [] {
      UnquotePlusPlainText(s[1..]);
      ReplacePlusAppend([s[0]], s[1..]);
      assert [s[0]] + s[1..] == s;
      var t := ReplacePlus(s[1..]);
      assert ReplacePlus(s) == [s[0]] + t;
      assert ([s[0]] + t)[1..] == t;
    } else {
      assert ReplacePlus([]) == [];
    }
  }

  /** Decoding never lengthens the text: each `%XX` shrinks to one character. */
  lemma {:induction false} UnquoteNoLonger(s: string)
    ensures |Unquote(s)| <= |s|
  {
    if |s| >= 3 && s[0] == '%' && IsHexDigit(s[1]) && IsHexDigit(s[2]) {
      UnquoteNoLonger(s[3..]);
    } else if s != [] {
      UnquoteNoLonger(s[1..]);
    }
  }
}
