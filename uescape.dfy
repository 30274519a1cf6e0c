/**
 * `uescape` of utils.c: walks a NUL-terminated byte string and produces an
 * ASCII string in which every UTF-8 multi-byte sequence (section 3 of
 * RFC 3629) is replaced by `\u` and its code point printed with `%04x`
 * (lower-case hex, at least four digits, more for code points above
 * 0xFFFF: there are no surrogate pairs), and, when `full_escape` is set,
 * the JSON string escapes of section 7 of RFC 8259 are applied to ASCII.
 * A byte of 0x80..0xBF or 0xF5..0xFF where a character should start makes
 * the whole call fail (NULL).
 *
 * The input is the memory the `string` pointer addresses, as bytes; the
 * string ends at the first 0 byte or at the end of that memory.
 */
module Escaping {
  import opened Wrappers
  import FormDecoding

  newtype byte = x: int | 0 <= x < 256

  // ---------------------------------------------------------------------
  // `%04x`
  // ---------------------------------------------------------------------

  /** One lower-case hexadecimal digit. */
  function HexChar(d: nat): (c: char)
    requires d < 16
    ensures FormDecoding.IsHexDigit(c) && FormDecoding.HexValue(c) == d
    ensures 32 <= c as int < 128
  {
    if d < 10 then (48 + d) as char else (87 + d) as char
  }

  /** `n` in lower-case hex, zero-padded on the left to at least `width` digits. */
  function HexPadded(n: nat, width: nat): seq<char>
    decreases n + width
  {
    if n < 16 && width <= 1 then [HexChar(n)]
    else HexPadded(n / 16, if width > 0 then width - 1 else 0) + [HexChar(n % 16)]
  }

  /** What `printf("%04x", n)` prints. */
  function Hex04(n: nat): seq<char>
  {
    HexPadded(n, 4)
  }

  /** The value of a string of hex digits, most significant first. */
  function HexNumber(d: seq<char>): nat
    requires forall i :: 0 <= i < |d| ==> FormDecoding.IsHexDigit(d[i])
  {
    if d == [] then 0 else 16 * HexNumber(d[..|d| - 1]) + FormDecoding.HexValue(d[|d| - 1])
  }

  function Pow16(k: nat): nat
  {
    if k == 0 then 1 else 16 * Pow16(k - 1)
  }

  /** The padded digits are hex digits, printable ASCII, and read back as `n`. */
  lemma {:induction false} HexPaddedReadsBack(n: nat, width: nat)
    ensures var d := HexPadded(n, width);
      && (forall i :: 0 <= i < |d| ==> FormDecoding.IsHexDigit(d[i]) && 32 <= d[i] as int < 128)
      && HexNumber(d) == n
    decreases n + width
  {
    var d := HexPadded(n, width);
    if !(n < 16 && width <= 1) {
      var w := if width > 0 then width - 1 else 0;
      HexPaddedReadsBack(n / 16, w);
      assert d[..|d| - 1] == HexPadded(n / 16, w);
    }
  }

  /** Below 16^width the padding gives exactly `width` digits. */
  lemma {:induction false} HexPaddedWidth(n: nat, width: nat)
    requires width >= 1 && n < Pow16(width)
    ensures |HexPadded(n, width)| == width
    decreases width
  {
    if !(n < 16 && width <= 1) {
      HexPaddedWidth(n / 16, width - 1);
    }
  }

  // ---------------------------------------------------------------------
  // Lead and continuation bytes
  // ---------------------------------------------------------------------

  /**
   * `clen`: the continuation bytes the lead byte `b` announces. The C code
   * tests `b & 0xF0 == 0xF0`, then `b & 0xE0 == 0xE0`; on a lead byte these
   * select exactly the ranges below (`MaskTestsSelectRanges`).
   */
  function ContinuationCount(b: byte): nat
    requires 0xC0 <= b <= 0xF4
  {
    if b >= 0xF0 then 3
    else if b >= 0xE0 then 2
    else 1
  }

  /**
   * The payload bits of the lead byte: `b` XOR its marker bits (0xF0, 0xE0
   * or 0xC0), which on a lead byte is `b` minus them.
   */
  function LeadBits(b: byte): nat
    requires 0xC0 <= b <= 0xF4
  {
    if b >= 0xF0 then b as int - 0xF0
    else if b >= 0xE0 then b as int - 0xE0
    else b as int - 0xC0
  }

  /**
   * The C code's bit operations on a lead byte `v` are the range tests and
   * subtractions above, and `v & 0x3F` is the remainder by 64.
   */
  lemma MaskTestsSelectRanges(v: bv8)
    requires 0xC0 <= v <= 0xF4
    ensures (v & 0xF0 == 0xF0) == (v >= 0xF0)
    ensures (v & 0xE0 == 0xE0) == (v >= 0xE0)
    ensures v & 0xC0 == 0xC0
    ensures v >= 0xF0 ==> v ^ 0xF0 == v - 0xF0
    ensures 0xE0 <= v < 0xF0 ==> v ^ 0xE0 == v - 0xE0
    ensures v < 0xE0 ==> v ^ 0xC0 == v - 0xC0
  {
  }

  /** `v & 0x3F` keeps the remainder by 64. */
  lemma LowSixBitsAreRemainder(v: bv8)
    ensures v & 0x3F == v % 64
  {
  }

  /** `b & 0x3F`: the payload bits of a continuation byte, its low six bits. */
  function Low6(b: byte): (r: nat)
    ensures r < 64
  {
    b as int % 64
  }

  /** The three ranges of lead bytes (section 3 of RFC 3629). */
  lemma LeadByteRanges(b: byte)
    requires 0xC0 <= b <= 0xF4
    ensures b >= 0xF0 ==> ContinuationCount(b) == 3 && LeadBits(b) == b as int - 0xF0
    ensures 0xE0 <= b < 0xF0 ==> ContinuationCount(b) == 2 && LeadBits(b) == b as int - 0xE0
    ensures b < 0xE0 ==> ContinuationCount(b) == 1 && LeadBits(b) == b as int - 0xC0
  {
  }

  /** `c = (c << 6) | (b & 0x3F)` for every byte from `from` up to `to`. */
  function Accumulate(c: nat, s: seq<byte>, from: nat, to: nat): nat
    requires from <= to <= |s|
    decreases |s| - from
  {
    if from == to then c else Accumulate(c * 64 + Low6(s[from]), s, from + 1, to)
  }

  /** The code point of the sequence whose lead byte is at `i`. */
  function CodePoint(s: seq<byte>, i: nat): nat
    requires i < |s| && 0xC0 <= s[i] <= 0xF4
    requires i + ContinuationCount(s[i]) < |s|
  {
    Accumulate(LeadBits(s[i]), s, i + 1, i + ContinuationCount(s[i]) + 1)
  }

  /** The announced continuation bytes all lie before the terminator. */
  predicate Complete(s: seq<byte>, i: nat, n: nat)
  {
    i + n < |s| && forall j :: i < j <= i + n ==> s[j] != 0
  }

  // ---------------------------------------------------------------------
  // The escaper
  // ---------------------------------------------------------------------

  /** The output for one ASCII byte: the body of the `switch`. */
  function EscapeAscii(b: byte, fullEscape: bool): seq<char>
    requires b < 0x80
  {
    if !fullEscape then [b as int as char]
    else if b == 34 then ['\\', '"']
    else if b == 8 then ['\\', 'b']
    else if b == 12 then ['\\', 'f']
    else if b == 9 then ['\\', 't']
    else if b == 10 then ['\\', 'n']
    else if b == 13 then ['\\', 'r']
    else if b == 92 then ['\\', '\\']
    else if b < 32 then ['\\', 'u'] + Hex04(b as nat)
    else [b as int as char]
  }

  /**
   * The output for the character starting at `i` and where the next one
   * starts, or `None` when `uescape` gives up: an invalid lead byte, or a
   * multi-byte sequence cut short by the terminator.
   */
  function Token(s: seq<byte>, fullEscape: bool, i: nat): (r: Option<(seq<char>, nat)>)
    requires i < |s| && s[i] != 0
    ensures r.Some? ==> i < r.value.1 <= |s|
  {
    var b := s[i];
    if b < 0x80 then Some((EscapeAscii(b, fullEscape), i + 1))
    else if 0xC0 <= b <= 0xF4 then
      if Complete(s, i, ContinuationCount(b)) then
        Some((['\\', 'u'] + Hex04(CodePoint(s, i)), i + ContinuationCount(b) + 1))
      else None
    else None
  }

  /** `out` in front of a result that may be a failure. */
  function Prepend(out: seq<char>, rest: Option<seq<char>>): Option<seq<char>>
  {
    match rest
    case None => None
    case Some(t) => Some(out + t)
  }

  lemma PrependAssoc(a: seq<char>, b: seq<char>, rest: Option<seq<char>>)
    ensures Prepend(a, Prepend(b, rest)) == Prepend(a + b, rest)
  {
    if rest.Some? {
      assert a + (b + rest.value) == (a + b) + rest.value;
    }
  }

  /** The escape of the string from position `i` on. */
  function EscapeFrom(s: seq<byte>, fullEscape: bool, i: nat): Option<seq<char>>
    requires i <= |s|
    decreases |s| - i
  {
    if i == |s| || s[i] == 0 then Some([])
    else match Token(s, fullEscape, i)
      case None => None
      case Some((out, next)) => Prepend(out, EscapeFrom(s, fullEscape, next))
  }

  function Escape(s: seq<byte>, fullEscape: bool): Option<seq<char>>
  {
    EscapeFrom(s, fullEscape, 0)
  }

  lemma TokenStep(s: seq<byte>, fullEscape: bool, i: nat)
    requires i < |s| && s[i] != 0 && Token(s, fullEscape, i).Some?
    ensures EscapeFrom(s, fullEscape, i)
      == Prepend(Token(s, fullEscape, i).value.0, EscapeFrom(s, fullEscape, Token(s, fullEscape, i).value.1))
  {
  }

  lemma TokenFails(s: seq<byte>, fullEscape: bool, i: nat)
    requires i < |s| && s[i] != 0 && Token(s, fullEscape, i).None?
    ensures EscapeFrom(s, fullEscape, i) == None
  {
  }

  /**
   * The inner `for (;clen;clen--)` loop of `uescape` for the lead byte at
   * `lead`: folds the continuation bytes into the code point, giving up
   * (`None`) at the terminator instead of reading on. `idx` is left on the
   * last byte of the sequence.
   */
  method ReadSequence(s: seq<byte>, lead: nat) returns (c: Option<nat>, idx: nat)
    requires lead < |s| && 0xC0 <= s[lead] <= 0xF4
    ensures c.Some? <==> Complete(s, lead, ContinuationCount(s[lead]))
    ensures c.Some? ==> c.value == CodePoint(s, lead) && idx == lead + ContinuationCount(s[lead])
  {
    var b := s[lead];
    var clen := ContinuationCount(b);
    var code: nat := LeadBits(b);
    idx := lead;
    while clen > 0
      invariant lead <= idx && idx + clen == lead + ContinuationCount(b)
      invariant idx < |s|
      invariant forall j :: lead < j <= idx ==> s[j] != 0
      invariant lead + ContinuationCount(b) < |s| ==>
        Accumulate(code, s, idx + 1, lead + ContinuationCount(b) + 1)
          == Accumulate(LeadBits(b), s, lead + 1, lead + ContinuationCount(b) + 1)
    {
      if idx + 1 == |s| || s[idx + 1] == 0 {
        return None, idx;
      }
      idx := idx + 1;
      code := code * 64 + Low6(s[idx]);
      clen := clen - 1;
    }
    return Some(code), idx;
  }

  /**
   * `uescape`: the index loop over the input. A sequence cut short by the
   * terminator returns NULL instead of reading on (see
   * `SequenceCutShortReadsPastEnd`).
   */
  method Uescape(s: seq<byte>, fullEscape: bool) returns (r: Option<seq<char>>)
    ensures r == Escape(s, fullEscape)
  {
    var out: seq<char> := [];
    var idx: nat := 0;
    if Escape(s, fullEscape).Some? {
      assert [] + Escape(s, fullEscape).value == Escape(s, fullEscape).value;
    }
    while idx < |s| && s[idx] != 0
      invariant idx <= |s|
      invariant Escape(s, fullEscape) == Prepend(out, EscapeFrom(s, fullEscape, idx))
      decreases |s| - idx
    {
      var b := s[idx];
      var piece: seq<char>;
      ghost var start := idx;
      if b >= 0x80 {
        if 0xC0 <= b <= 0xF4 {
          var c, last := ReadSequence(s, idx);
          if c.None? {
            TokenFails(s, fullEscape, idx);
            return None;
          }
          piece := ['\\', 'u'] + Hex04(c.value);
          idx := last;
        } else {
          TokenFails(s, fullEscape, idx);
          return None;
        }
      } else {
        piece := EscapeAscii(b, fullEscape);
      }
      assert Token(s, fullEscape, start) == Some((piece, idx + 1));
      TokenStep(s, fullEscape, start);
      PrependAssoc(out, piece, EscapeFrom(s, fullEscape, idx + 1));
      out := out + piece;
      idx := idx + 1;
    }
    assert out + [] == out;
    return Some(out);
  }

  // ---------------------------------------------------------------------
  // The code as written: reading past the terminator
  // ---------------------------------------------------------------------

  /**
   * Where the C loop goes on after a lead byte at `i`: it advances over
   * `clen` bytes without looking at them, so a terminator among them is
   * consumed as a continuation byte and the scan resumes beyond it.
   */
  function AsWrittenNext(s: seq<byte>, i: nat): nat
    requires i < |s| && 0xC0 <= s[i] <= 0xF4
  {
    i + ContinuationCount(s[i]) + 1
  }

  /**
   * The string C3 00: the lead byte announces one continuation byte, and
   * the loop as written takes the terminator at index 1 for it, so the
   * scan goes on at index 2, outside the string. The escaper above
   * returns `None` instead.
   */
  lemma SequenceCutShortReadsPastEnd()
    ensures var s: seq<byte> := [0xC3, 0x00];
      && s[1] == 0 && AsWrittenNext(s, 0) == |s|
      && Escape(s, true) == None && Escape(s, false) == None
  {
    var s: seq<byte> := [0xC3, 0x00];
    LeadByteRanges(0xC3);
    assert s[1] == 0;
    assert !Complete(s, 0, 1);
  }

  // ---------------------------------------------------------------------
  // Properties
  // ---------------------------------------------------------------------

  predicate IsAscii(t: seq<char>)
  {
    forall k :: 0 <= k < |t| ==> t[k] as int < 128
  }

  predicate NoControlChars(t: seq<char>)
  {
    forall k :: 0 <= k < |t| ==> t[k] as int >= 32
  }

  lemma EscapeAsciiShape(b: byte, fullEscape: bool)
    requires b < 0x80
    ensures IsAscii(EscapeAscii(b, fullEscape))
    ensures fullEscape ==> NoControlChars(EscapeAscii(b, fullEscape))
  {
    if fullEscape && b < 32 && b != 8 && b != 12 && b != 9 && b != 10 && b != 13 {
      var d := Hex04(b as nat);
      HexPaddedReadsBack(b as nat, 4);
      var t := ['\\', 'u'] + d;
      assert EscapeAscii(b, fullEscape) == t;
      assert forall k :: 2 <= k < |t| ==> t[k] == d[k - 2];
    }
  }

  /**
   * Whatever the input and mode, a successful escape is pure ASCII, and in
   * full-escape mode it contains no control characters.
   */
  lemma {:induction false} EscapedIsAscii(s: seq<byte>, fullEscape: bool, i: nat)
    requires i <= |s|
    ensures EscapeFrom(s, fullEscape, i).Some? ==> IsAscii(EscapeFrom(s, fullEscape, i).value)
    ensures fullEscape && EscapeFrom(s, fullEscape, i).Some? ==>
      NoControlChars(EscapeFrom(s, fullEscape, i).value)
    decreases |s| - i
  {
    if i < |s| && s[i] != 0 {
      var tok := Token(s, fullEscape, i);
      if tok.Some? {
        var (out, next) := tok.value;
        EscapedIsAscii(s, fullEscape, next);
        if s[i] < 0x80 {
          EscapeAsciiShape(s[i], fullEscape);
        } else {
          HexPaddedReadsBack(CodePoint(s, i), 4);
        }
      }
    }
  }

  /** A byte below 0x80 as a character. */
  function AsChars(s: seq<byte>): (t: seq<char>)
    ensures |t| == |s| && forall k :: 0 <= k < |s| ==> t[k] as int == s[k] as int
  {
    if s == [] then [] else [s[0] as int as char] + AsChars(s[1..])
  }

  predicate AsciiText(s: seq<byte>)
  {
    forall k :: 0 <= k < |s| ==> 0 < s[k] < 0x80
  }

  /** Without full escaping, ASCII text is copied unchanged. */
  lemma {:induction false} PlainModeCopiesAscii(s: seq<byte>, i: nat)
    requires i <= |s| && AsciiText(s[i..])
    ensures EscapeFrom(s, false, i) == Some(AsChars(s[i..]))
    decreases |s| - i
  {
    if i < |s| {
      assert s[i] == s[i..][0];
      PlainModeCopiesAscii(s, i + 1);
      assert s[i + 1..] == s[i..][1..];
    }
  }

  // JSON string unescaping (section 7 of RFC 8259), the partner of full mode.

  /** `b` in front of a result that may be a failure. */
  function Cons(b: byte, rest: Option<seq<byte>>): Option<seq<byte>>
  {
    match rest
    case None => None
    case Some(t) => Some([b] + t)
  }

  function Unescape(t: seq<char>): Option<seq<byte>>
    decreases |t|
  {
    if t == [] then Some([])
    else if t[0] != '\\' then
      if t[0] as int < 256 then Cons(t[0] as int as byte, Unescape(t[1..])) else None
    else if |t| < 2 then None
    else if t[1] == '"' then Cons(34, Unescape(t[2..]))
    else if t[1] == '\\' then Cons(92, Unescape(t[2..]))
    else if t[1] == '/' then Cons(47, Unescape(t[2..]))
    else if t[1] == 'b' then Cons(8, Unescape(t[2..]))
    else if t[1] == 'f' then Cons(12, Unescape(t[2..]))
    else if t[1] == 'n' then Cons(10, Unescape(t[2..]))
    else if t[1] == 'r' then Cons(13, Unescape(t[2..]))
    else if t[1] == 't' then Cons(9, Unescape(t[2..]))
    else if t[1] == 'u' && |t| >= 6
            && forall k :: 2 <= k < 6 ==> FormDecoding.IsHexDigit(t[k]) then
      var v := HexNumber(t[2..6]);
      if v < 256 then Cons(v as byte, Unescape(t[6..])) else None
    else None
  }

  lemma UnescapeToken(b: byte, rest: seq<char>)
    requires 0 < b < 0x80
    ensures Unescape(EscapeAscii(b, true) + rest) == Cons(b, Unescape(rest))
  {
    var e := EscapeAscii(b, true);
    if b < 32 && b !in {8, 9, 10, 12, 13} {
      var h := Hex04(b as nat);
      HexPaddedReadsBack(b as nat, 4);
      HexPaddedWidth(b as nat, 4);
      var t := e + rest;
      assert t[2..6] == h;
      assert t[6..] == rest;
    } else {
      assert (e + rest)[|e|..] == rest;
    }
  }

  /** Full escaping of ASCII text is undone by JSON unescaping. */
  lemma {:induction false} UnescapeInvertsFullEscape(s: seq<byte>, i: nat)
    requires i <= |s| && AsciiText(s[i..])
    ensures EscapeFrom(s, true, i).Some?
    ensures Unescape(EscapeFrom(s, true, i).value) == Some(s[i..])
    decreases |s| - i
  {
    if i < |s| {
      assert s[i] == s[i..][0];
      assert s[i + 1..] == s[i..][1..];
      UnescapeInvertsFullEscape(s, i + 1);
      var rest := EscapeFrom(s, true, i + 1).value;
      UnescapeToken(s[i], rest);
      assert EscapeFrom(s, true, i) == Some(EscapeAscii(s[i], true) + rest);
      assert [s[i]] + s[i + 1..] == s[i..];
    }
  }

  // UTF-8 (section 3 of RFC 3629), the partner of the multi-byte branch.

  /** The UTF-8 encoding of a code point of two or more bytes. */
  function Utf8Encode(cp: nat): (s: seq<byte>)
    requires 0x80 <= cp <= 0x10FFFF
  {
    if cp < 0x800 then
      [(0xC0 + cp / 64) as byte, (0x80 + cp % 64) as byte]
    else if cp < 0x10000 then
      [(0xE0 + cp / 64 / 64) as byte, (0x80 + cp / 64 % 64) as byte, (0x80 + cp % 64) as byte]
    else
      [(0xF0 + cp / 64 / 64 / 64) as byte, (0x80 + cp / 64 / 64 % 64) as byte,
       (0x80 + cp / 64 % 64) as byte, (0x80 + cp % 64) as byte]
  }

  lemma Low6OfContinuation(x: nat)
    requires x < 64
    ensures Low6((0x80 + x) as byte) == x
  {
  }

  lemma Utf8TwoBytes(cp: nat)
    requires 0x80 <= cp < 0x800
    ensures var s := Utf8Encode(cp);
      0xC0 <= s[0] <= 0xF4 && ContinuationCount(s[0]) == 1 && CodePoint(s, 0) == cp
  {
    var s := Utf8Encode(cp);
    var c1 := cp / 64;
    assert c1 < 32 && s[0] as int == 0xC0 + c1;
    LeadByteRanges(s[0]);
    Low6OfContinuation(cp % 64);
    assert CodePoint(s, 0) == Accumulate(c1 * 64 + cp % 64, s, 2, 2);
  }

  lemma Utf8ThreeBytes(cp: nat)
    requires 0x800 <= cp < 0x10000
    ensures var s := Utf8Encode(cp);
      0xC0 <= s[0] <= 0xF4 && ContinuationCount(s[0]) == 2 && CodePoint(s, 0) == cp
  {
    var s := Utf8Encode(cp);
    var c1 := cp / 64;
    var c2 := c1 / 64;
    assert c2 < 16 && s[0] as int == 0xE0 + c2;
    LeadByteRanges(s[0]);
    Low6OfContinuation(cp % 64);
    Low6OfContinuation(c1 % 64);
    assert CodePoint(s, 0) == Accumulate(c2, s, 1, 3);
    assert Accumulate(c2, s, 1, 3) == Accumulate(c1, s, 2, 3);
    assert Accumulate(c1, s, 2, 3) == Accumulate(cp, s, 3, 3);
  }

  lemma Utf8FourBytesFields(cp: nat)
    requires 0x10000 <= cp <= 0x10FFFF
    ensures var s := Utf8Encode(cp);
      && 0xC0 <= s[0] <= 0xF4 && ContinuationCount(s[0]) == 3 && LeadBits(s[0]) == cp / 64 / 64 / 64
      && Low6(s[1]) == cp / 64 / 64 % 64 && Low6(s[2]) == cp / 64 % 64 && Low6(s[3]) == cp % 64
  {
    var s := Utf8Encode(cp);
    assert cp / 64 / 64 / 64 <= 4 && s[0] as int == 0xF0 + cp / 64 / 64 / 64;
    LeadByteRanges(s[0]);
    Low6OfContinuation(cp % 64);
    Low6OfContinuation(cp / 64 % 64);
    Low6OfContinuation(cp / 64 / 64 % 64);
  }

  lemma Utf8FourBytes(cp: nat)
    requires 0x10000 <= cp <= 0x10FFFF
    ensures var s := Utf8Encode(cp);
      0xC0 <= s[0] <= 0xF4 && ContinuationCount(s[0]) == 3 && CodePoint(s, 0) == cp
  {
    var s := Utf8Encode(cp);
    var c1 := cp / 64;
    var c2 := c1 / 64;
    var c3 := c2 / 64;
    Utf8FourBytesFields(cp);
    assert CodePoint(s, 0) == Accumulate(c3, s, 1, 4);
    assert Accumulate(c3, s, 1, 4) == Accumulate(c2, s, 2, 4);
    assert Accumulate(c2, s, 2, 4) == Accumulate(c1, s, 3, 4);
    assert Accumulate(c1, s, 3, 4) == Accumulate(cp, s, 4, 4);
  }

  /** The multi-byte branch recovers the code point of a UTF-8 sequence. */
  lemma Utf8DecodesToCodePoint(cp: nat)
    requires 0x80 <= cp <= 0x10FFFF
    ensures var s := Utf8Encode(cp);
      0xC0 <= s[0] <= 0xF4 && ContinuationCount(s[0]) == |s| - 1 && CodePoint(s, 0) == cp
  {
    if cp < 0x800 {
      Utf8TwoBytes(cp);
    } else if cp < 0x10000 {
      Utf8ThreeBytes(cp);
    } else {
      Utf8FourBytes(cp);
    }
  }

  /**
   * A UTF-8 encoded character becomes `\u` and its code point in at least
   * four hex digits, in either mode; above 0xFFFF the digits run to five
   * or six rather than a surrogate pair.
   */
  lemma EscapeOfUtf8(cp: nat, fullEscape: bool)
    requires 0x80 <= cp <= 0x10FFFF
    ensures Escape(Utf8Encode(cp), fullEscape) == Some(['\\', 'u'] + Hex04(cp))
  {
    var s := Utf8Encode(cp);
    Utf8DecodesToCodePoint(cp);
    assert Complete(s, 0, ContinuationCount(s[0]));
    var tok := ['\\', 'u'] + Hex04(cp);
    assert Token(s, fullEscape, 0) == Some((tok, |s|));
    assert EscapeFrom(s, fullEscape, |s|) == Some([]);
    assert tok + [] == tok;
  }

  /** A byte that cannot start a character makes the whole call fail. */
  lemma InvalidLeadByteFails(s: seq<byte>, fullEscape: bool, i: nat)
    requires i < |s| && (0x80 <= s[i] < 0xC0 || s[i] > 0xF4)
    ensures EscapeFrom(s, fullEscape, i) == None
  {
  }

  lemma Hex04TwoByteExample()
    ensures Hex04(0xE9) == "00e9"
  {
    assert HexPadded(0, 1) == "0";
    assert HexPadded(0, 2) == "00";
    assert HexPadded(14, 3) == "00e";
  }

  lemma Hex04FourByteExample()
    ensures Hex04(0x1F600) == "1f600"
  {
    assert HexPadded(1, 0) == "1";
    assert HexPadded(31, 1) == "1f";
    assert HexPadded(502, 2) == "1f6";
    assert HexPadded(8032, 3) == "1f60";
  }

  /** "é" (bytes C3 A9) gives `\u00e9`. */
  lemma EscapeTwoByteExample()
    ensures Escape([0xC3, 0xA9], true) == Some("\\u00e9")
  {
    EscapeOfUtf8(0xE9, true);
    assert Utf8Encode(0xE9) == [0xC3, 0xA9];
    Hex04TwoByteExample();
    assert ['\\', 'u'] + "00e9" == "\\u00e9";
  }

  /** U+1F600 (bytes F0 9F 98 80) gives five hex digits, not a surrogate pair. */
  lemma EscapeFourByteExample()
    ensures Escape([0xF0, 0x9F, 0x98, 0x80], true) == Some("\\u1f600")
  {
    EscapeOfUtf8(0x1F600, true);
    assert Utf8Encode(0x1F600) == [0xF0, 0x9F, 0x98, 0x80];
    Hex04FourByteExample();
    assert ['\\', 'u'] + "1f600" == "\\u1f600";
  }
}
