/**
 * Python's `urllib.parse.quote(text)` with its default `safe="/"`: the text
 * is encoded as UTF-8 and every byte outside the unreserved set of section
 * 2.3 of RFC 3986 (letters, digits, `-`, `.`, `_`, `~`) and outside `safe`
 * is written as a percent-encoded octet, `%` and two upper-case hex digits,
 * as section 2.1 of RFC 3986 describes.
 */
module Percent {
  import opened Common
  import opened Unicode

  /** Bytes `quote` copies unchanged: the unreserved characters plus `/`. */
  predicate IsSafe(b: Byte): (r: bool)
    ensures r ==> b < 0x80 && IsUrlChar(b as char) && b != '%' as int
  {
    || 'A' as int <= b <= 'Z' as int
    || 'a' as int <= b <= 'z' as int
    || '0' as int <= b <= '9' as int
    || b == '_' as int || b == '.' as int || b == '-' as int || b == '~' as int
    || b == '/' as int
  }

  /** The upper-case hex digit for `d`. */
  function HexDigit(d: int): (c: char)
    requires 0 <= d < 16
    ensures '0' <= c <= '9' || 'A' <= c <= 'F'
  {
    if d < 10 then ('0' as int + d) as char else ('A' as int + d - 10) as char
  }

  /** The value of an upper-case hex digit. */
  function HexValue(c: char): Option<int> {
    if '0' <= c <= '9' then Some(c as int - '0' as int)
    else if 'A' <= c <= 'F' then Some(c as int - 'A' as int + 10)
    else None
  }

  /** How `quote` writes one byte of the UTF-8 form. */
  function QuoteByte(b: Byte): (r: string)
    ensures |r| == 1 || |r| == 3
    ensures IsSafe(b) ==> r == [b as char]
    ensures !IsSafe(b) ==> |r| == 3 && r[0] == '%' && HexValue(r[1]) == Some(b / 16) && HexValue(r[2]) == Some(b % 16)
  {
    if IsSafe(b) then [b as char]
    else
      HexRoundTrip(b / 16);
      HexRoundTrip(b % 16);
      ['%', HexDigit(b / 16), HexDigit(b % 16)]
  }

  /** `quote` applied to the UTF-8 bytes of a text. */
  function Quote(bs: seq<Byte>): (r: string)
    ensures |bs| <= |r| <= 3 * |bs|
  {
    if bs == [] then [] else QuoteByte(bs[0]) + Quote(bs[1..])
  }

  /** Characters `quote` can emit: unreserved characters, `/`, `%` and hex digits. */
  predicate IsUrlChar(c: char) {
    || 'A' <= c <= 'Z' || 'a' <= c <= 'z' || '0' <= c <= '9'
    || c == '_' || c == '.' || c == '-' || c == '~' || c == '/' || c == '%'
  }

  /** Percent-decoding of what `Quote` produces; `None` on anything else. */
  function Unquote(s: string): Option<seq<Byte>>
    decreases |s|
  {
    if s == [] then Some([])
    else if s[0] == '%' then
      if |s| < 3 then None
      else
        match (HexValue(s[1]), HexValue(s[2]), Unquote(s[3..]))
        case (Some(hi), Some(lo), Some(tail)) =>
          if 0 <= hi < 16 && 0 <= lo < 16 then Some([hi * 16 + lo] + tail) else None
        case _ => None
    else if s[0] as int < 0x100 && IsSafe(s[0] as int) then
      match Unquote(s[1..])
      case Some(tail) => Some([s[0] as int] + tail)
      case None => None
    else None
  }

  lemma HexRoundTrip(d: int)
    requires 0 <= d < 16
    ensures HexValue(HexDigit(d)) == Some(d)
  {
  }

  /** Percent-decoding recovers the bytes `quote` was given. */
  lemma {:induction false} QuoteRoundTrip(bs: seq<Byte>)
    ensures Unquote(Quote(bs)) == Some(bs)
  {
    if bs != [] {
      var b, q, tail := bs[0], QuoteByte(bs[0]), Quote(bs[1..]);
      QuoteRoundTrip(bs[1..]);
      if IsSafe(b) {
        assert (q + tail)[1..] == tail;
      } else {
        HexRoundTrip(b / 16);
        HexRoundTrip(b % 16);
        assert (q + tail)[3..] == tail;
        assert (q + tail)[1] == HexDigit(b / 16) && (q + tail)[2] == HexDigit(b % 16);
      }
      assert [b] + bs[1..] == bs;
    }
  }

  /** Distinct byte sequences are quoted differently. */
  lemma QuoteInjective(a: seq<Byte>, b: seq<Byte>)
    requires Quote(a) == Quote(b)
    ensures a == b
  {
    QuoteRoundTrip(a);
    QuoteRoundTrip(b);
  }

  /** Every character of a quoted string is one RFC 3986 allows unescaped, `/` or part of a `%XX` triplet. */
  lemma {:induction false} QuoteAlphabet(bs: seq<Byte>)
    ensures forall i :: 0 <= i < |Quote(bs)| ==> IsUrlChar(Quote(bs)[i])
  {
    if bs != [] {
      QuoteAlphabet(bs[1..]);
      var q, tail := QuoteByte(bs[0]), Quote(bs[1..]);
      forall i | 0 <= i < |q + tail| ensures IsUrlChar((q + tail)[i]) {
        if i >= |q| { assert (q + tail)[i] == tail[i - |q|]; }
      }
    }
  }
}
