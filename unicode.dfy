/**
 * Python text as the trend scraper sees it: a `str` is a sequence of code
 * points (lone surrogates included), `str.strip()` removes the characters
 * `str.isspace()` accepts from both ends, and `str.encode("utf-8")` turns
 * it into bytes or raises `UnicodeEncodeError` on a lone surrogate.
 */
module Unicode {
  import opened Common

  /** One element of a Python `str`. */
  type CodePoint = c: int | 0 <= c < 0x11_0000
  type Text = seq<CodePoint>
  type Byte = b: int | 0 <= b < 0x100

  /** The code points for which Python's `str.isspace()` is true. */
  predicate IsSpace(c: CodePoint): (r: bool)
    ensures c == 0x20 || 0x09 <= c <= 0x0D ==> r
    ensures r ==> !('0' as int <= c <= '9' as int || 'A' as int <= c <= 'Z' as int || 'a' as int <= c <= 'z' as int)
  {
    || 0x09 <= c <= 0x0D
    || 0x1C <= c <= 0x20
    || c == 0x85 || c == 0xA0 || c == 0x1680
    || 0x2000 <= c <= 0x200A
    || c == 0x2028 || c == 0x2029 || c == 0x202F || c == 0x205F || c == 0x3000
  }

  /** Python's `s.strip()`: `s` without whitespace at either end. */
  function Strip(s: Text): (r: Text)
    ensures |r| <= |s| && Trimmed(r)
  {
    StripShape(s, IsSpace);
    StripBy(s, IsSpace)
  }

  /** `s` is whitespace only. */
  predicate AllSpace(s: Text) {
    AllIn(s, IsSpace)
  }

  /** Neither end of `s` is whitespace: what `strip` leaves behind. */
  predicate Trimmed(s: Text) {
    TrimmedBy(s, IsSpace)
  }

  // Trimming is defined and proved for any class `sp` of code points, and
  // used with `IsSpace`: the proofs never need to know which code points
  // `sp` holds. As in CPython's `do_strip`, one index moves right past the
  // leading run and a second moves left past the trailing run, never below
  // the first.

  predicate AllIn(s: Text, sp: CodePoint -> bool) {
    forall i :: 0 <= i < |s| ==> sp(s[i])
  }

  predicate TrimmedBy(s: Text, sp: CodePoint -> bool) {
    s == [] || (!sp(s[0]) && !sp(s[|s| - 1]))
  }

  /** Where the run of `sp` code points starting at `i` ends: every code
      point from `i` up to the result is in `sp`, and the one at the result,
      if any, is not. */
  function Leading(s: Text, i: nat, sp: CodePoint -> bool): (k: nat)
    requires i <= |s|
    ensures i <= k <= |s|
    ensures forall m :: i <= m < k ==> sp(s[m])
    ensures k < |s| ==> !sp(s[k])
    decreases |s| - i
  {
    if i == |s| || !sp(s[i]) then i else Leading(s, i + 1, sp)
  }

  /** Where the run of `sp` code points ending at `j` starts, going no lower
      than `lo`: every code point from the result up to `j` is in `sp`, and
      the one before the result, if it is at `lo` or above, is not. */
  function Trailing(s: Text, lo: nat, j: nat, sp: CodePoint -> bool): (k: nat)
    requires lo <= j <= |s|
    ensures lo <= k <= j
    ensures forall m :: k <= m < j ==> sp(s[m])
    ensures lo < k ==> !sp(s[k - 1])
    decreases j - lo
  {
    if j == lo || !sp(s[j - 1]) then j else Trailing(s, lo, j - 1, sp)
  }

  /** `s` without `sp` code points at either end. */
  function StripBy(s: Text, sp: CodePoint -> bool): Text {
    var i := Leading(s, 0, sp);
    s[i..Trailing(s, i, |s|, sp)]
  }

  /** The leading run is the only prefix of `sp` code points followed by a
      code point outside `sp` (or by nothing). */
  lemma LeadingExactly(s: Text, sp: CodePoint -> bool, k: nat)
    requires k <= |s| && (forall m :: 0 <= m < k ==> sp(s[m]))
    requires k < |s| ==> !sp(s[k])
    ensures Leading(s, 0, sp) == k
  {
  }

  /** The trailing run is the only suffix of `sp` code points, down to `lo`,
      preceded by a code point outside `sp` (or by `lo`). */
  lemma TrailingExactly(s: Text, lo: nat, sp: CodePoint -> bool, k: nat)
    requires lo <= k <= |s| && (forall m :: k <= m < |s| ==> sp(s[m]))
    requires lo < k ==> !sp(s[k - 1])
    ensures Trailing(s, lo, |s|, sp) == k
  {
  }

  /** Stripping leaves a trimmed slice of `s` and cuts only `sp` code points
      on either side of it. */
  lemma StripShape(s: Text, sp: CodePoint -> bool)
    ensures var r := StripBy(s, sp);
      var a := Leading(s, 0, sp);
      && a + |r| <= |s| && r == s[a..a + |r|]
      && TrimmedBy(r, sp)
      && AllIn(s[..a], sp) && AllIn(s[a + |r|..], sp)
  {
    var a := Leading(s, 0, sp);
    var b := Trailing(s, a, |s|, sp);
    var r := s[a..b];
    assert StripBy(s, sp) == r;
    if r != [] {
      assert r[0] == s[a] && r[|r| - 1] == s[b - 1];
    }
    var head, tail := s[..a], s[b..];
    forall m | 0 <= m < |head| ensures sp(head[m]) {
      assert head[m] == s[m];
    }
    forall m | 0 <= m < |tail| ensures sp(tail[m]) {
      assert tail[m] == s[b + m];
    }
  }

  /** `sp` code points around a trimmed core are exactly what stripping removes. */
  lemma StripSurrounded(w1: Text, core: Text, w2: Text, sp: CodePoint -> bool)
    requires AllIn(w1, sp) && AllIn(w2, sp) && TrimmedBy(core, sp)
    ensures StripBy(w1 + core + w2, sp) == core
  {
    var s := w1 + core + w2;
    forall m | 0 <= m < |w1| ensures sp(s[m]) {
      assert s[m] == w1[m];
    }
    forall m | |w1| + |core| <= m < |s| ensures sp(s[m]) {
      assert s[m] == w2[m - |w1| - |core|];
    }
    if core == [] {
      LeadingExactly(s, sp, |s|);
      assert s[|s|..|s|] == [];
    } else {
      assert s[|w1|] == core[0];
      assert s[|w1| + |core| - 1] == core[|core| - 1];
      LeadingExactly(s, sp, |w1|);
      TrailingExactly(s, |w1|, sp, |w1| + |core|);
      assert s[|w1|..|w1| + |core|] == core;
    }
  }

  /** A text is its stripped core with `sp` code points on either side. */
  lemma StripSplit(t: Text, sp: CodePoint -> bool) returns (a: Text, b: Text)
    ensures t == a + StripBy(t, sp) + b && AllIn(a, sp) && AllIn(b, sp)
  {
    var r := StripBy(t, sp);
    var k := Leading(t, 0, sp);
    StripShape(t, sp);
    a, b := t[..k], t[k + |r|..];
    ThreeSlices(t, k, k + |r|);
  }

  lemma AllInConcat(x: Text, y: Text, sp: CodePoint -> bool)
    requires AllIn(x, sp) && AllIn(y, sp)
    ensures AllIn(x + y, sp)
  {
    forall i | 0 <= i < |x + y| ensures sp((x + y)[i]) {
      if i < |x| { assert (x + y)[i] == x[i]; } else { assert (x + y)[i] == y[i - |x|]; }
    }
  }

  /** `sp` code points added around a text are removed again by stripping. */
  lemma StripIgnoresPadding(w1: Text, t: Text, w2: Text, sp: CodePoint -> bool)
    requires AllIn(w1, sp) && AllIn(w2, sp)
    ensures StripBy(w1 + t + w2, sp) == StripBy(t, sp)
  {
    var a, b := StripSplit(t, sp);
    var r := StripBy(t, sp);
    StripShape(t, sp);
    AllInConcat(w1, a, sp);
    AllInConcat(b, w2, sp);
    Regroup(w1, a, r, b, w2);
    StripSurrounded(w1 + a, r, b + w2, sp);
  }

  /** Stripping twice is stripping once. */
  lemma StripIdempotent(s: Text, sp: CodePoint -> bool)
    ensures StripBy(StripBy(s, sp), sp) == StripBy(s, sp)
  {
    var r := StripBy(s, sp);
    StripShape(s, sp);
    assert [] + r + [] == r;
    StripSurrounded([], r, [], sp);
  }

  /** Stripping yields the empty text exactly for `sp`-only text. */
  lemma StripEmptyIffBlank(s: Text, sp: CodePoint -> bool)
    ensures StripBy(s, sp) == [] <==> AllIn(s, sp)
  {
    if AllIn(s, sp) {
      LeadingExactly(s, sp, |s|);
      assert s[|s|..|s|] == [];
    }
    if StripBy(s, sp) == [] {
      var k := Leading(s, 0, sp);
      StripShape(s, sp);
      assert s == s[..k] + s[k..];
      AllInConcat(s[..k], s[k..], sp);
    }
  }

  // ---------------------------------------------------------------- UTF-8

  /** Code points UTF-8 cannot carry; Python's strict encoder raises on them. */
  predicate IsSurrogate(c: CodePoint) {
    0xD800 <= c <= 0xDFFF
  }

  predicate Encodable(s: Text) {
    forall i :: 0 <= i < |s| ==> !IsSurrogate(s[i])
  }

  /** The UTF-8 form of one code point (RFC 3629, section 3). */
  function EncodePoint(c: CodePoint): (r: seq<Byte>)
    requires !IsSurrogate(c)
    ensures 1 <= |r| <= 4
  {
    if c < 0x80 then [c]
    else if c < 0x800 then [0xC0 + c / 0x40, 0x80 + c % 0x40]
    else if c < 0x1_0000 then [0xE0 + c / 0x1000, 0x80 + c / 0x40 % 0x40, 0x80 + c % 0x40]
    else [0xF0 + c / 0x4_0000, 0x80 + c / 0x1000 % 0x40, 0x80 + c / 0x40 % 0x40, 0x80 + c % 0x40]
  }

  /** `s.encode("utf-8")`: `None` stands for the `UnicodeEncodeError` a lone surrogate raises. */
  function EncodeUtf8(s: Text): (r: Option<seq<Byte>>)
    ensures r.Some? <==> Encodable(s)
  {
    if s == [] then Some([])
    else if IsSurrogate(s[0]) then None
    else
      match EncodeUtf8(s[1..])
      case None => None
      case Some(tail) => Some(EncodePoint(s[0]) + tail)
  }

  datatype Decoded = Decoded(point: CodePoint, width: nat)

  predicate IsContinuation(b: Byte) {
    0x80 <= b < 0xC0
  }

  /** Reads the code point that starts `b`, with the number of bytes it used. */
  function DecodePoint(b: seq<Byte>): (r: Option<Decoded>)
    requires b != []
    ensures r.Some? ==> 1 <= r.value.width <= |b|
  {
    var b0: int := b[0];
    if b0 < 0x80 then Some(Decoded(b0, 1))
    else if 0xC0 <= b0 < 0xE0 && |b| >= 2 && IsContinuation(b[1]) then
      Some(Decoded((b0 - 0xC0) * 0x40 + (b[1] as int - 0x80), 2))
    else if 0xE0 <= b0 < 0xF0 && |b| >= 3 && IsContinuation(b[1]) && IsContinuation(b[2]) then
      Some(Decoded((b0 - 0xE0) * 0x1000 + (b[1] as int - 0x80) * 0x40 + (b[2] as int - 0x80), 3))
    else if 0xF0 <= b0 < 0xF8 && |b| >= 4 && IsContinuation(b[1]) && IsContinuation(b[2]) && IsContinuation(b[3]) then
      var v := (b0 - 0xF0) * 0x4_0000 + (b[1] as int - 0x80) * 0x1000 + (b[2] as int - 0x80) * 0x40 + (b[3] as int - 0x80);
      if v < 0x11_0000 then Some(Decoded(v, 4)) else None
    else None
  }

  /** Reads back a whole byte sequence; the left inverse of `EncodeUtf8`. */
  function DecodeUtf8(b: seq<Byte>): (r: Option<Text>)
    decreases |b|
  {
    if b == [] then Some([])
    else
      match DecodePoint(b)
      case None => None
      case Some(d) =>
        match DecodeUtf8(b[d.width..])
        case None => None
        case Some(tail) => Some([d.point] + tail)
  }

  lemma DecodeEncodedPoint(c: CodePoint, rest: seq<Byte>)
    requires !IsSurrogate(c)
    ensures DecodePoint(EncodePoint(c) + rest) == Some(Decoded(c, |EncodePoint(c)|))
  {
    if c < 0x80 {
    } else if c < 0x800 {
      DecodeTwo(c, rest);
    } else if c < 0x1_0000 {
      DecodeThree(c, rest);
    } else {
      DecodeFour(c, rest);
    }
  }

  lemma DecodeTwo(c: CodePoint, rest: seq<Byte>)
    requires 0x80 <= c < 0x800
    ensures DecodePoint(EncodePoint(c) + rest) == Some(Decoded(c, 2))
  {
    var b := EncodePoint(c) + rest;
    assert b[0] == 0xC0 + c / 0x40 && b[1] == 0x80 + c % 0x40;
  }

  lemma DecodeThree(c: CodePoint, rest: seq<Byte>)
    requires 0x800 <= c < 0x1_0000 && !IsSurrogate(c)
    ensures DecodePoint(EncodePoint(c) + rest) == Some(Decoded(c, 3))
  {
    var b := EncodePoint(c) + rest;
    var hi, mid, lo := c / 0x1000, c / 0x40 % 0x40, c % 0x40;
    assert b[0] == 0xE0 + hi && b[1] == 0x80 + mid && b[2] == 0x80 + lo;
    assert c == hi * 0x1000 + mid * 0x40 + lo by {
      assert c / 0x40 == hi * 0x40 + mid;
    }
  }

  lemma DecodeFour(c: CodePoint, rest: seq<Byte>)
    requires 0x1_0000 <= c
    ensures DecodePoint(EncodePoint(c) + rest) == Some(Decoded(c, 4))
  {
    var b := EncodePoint(c) + rest;
    var top, hi, mid, lo := c / 0x4_0000, c / 0x1000 % 0x40, c / 0x40 % 0x40, c % 0x40;
    FourDigits(c);
    assert b[0] as int - 0xF0 == top && b[1] as int - 0x80 == hi;
    assert b[2] as int - 0x80 == mid && b[3] as int - 0x80 == lo;
  }

  /** The four base-64 digits a four-byte sequence carries. */
  lemma FourDigits(c: int)
    requires 0x1_0000 <= c < 0x11_0000
    ensures c / 0x4_0000 < 8
    ensures c == c / 0x4_0000 * 0x4_0000 + c / 0x1000 % 0x40 * 0x1000 + c / 0x40 % 0x40 * 0x40 + c % 0x40
  {
    assert c / 0x1000 == c / 0x4_0000 * 0x40 + c / 0x1000 % 0x40;
    assert c / 0x40 == c / 0x1000 * 0x40 + c / 0x40 % 0x40;
  }

  /** Decoding the UTF-8 encoding of a text gives the text back. */
  lemma {:induction false} Utf8RoundTrip(s: Text)
    requires Encodable(s)
    ensures EncodeUtf8(s).Some? && DecodeUtf8(EncodeUtf8(s).value) == Some(s)
  {
    if s != [] {
      var e := EncodePoint(s[0]);
      var tail := EncodeUtf8(s[1..]).value;
      assert Encodable(s[1..]) by {
        forall i | 0 <= i < |s[1..]| ensures !IsSurrogate(s[1..][i]) { assert s[1..][i] == s[i + 1]; }
      }
      Utf8RoundTrip(s[1..]);
      DecodeEncodedPoint(s[0], tail);
      assert (e + tail)[|e|..] == tail;
      assert [s[0]] + s[1..] == s;
    }
  }

  /** Distinct encodable texts have distinct UTF-8 encodings. */
  lemma Utf8Injective(s: Text, t: Text)
    requires EncodeUtf8(s).Some? && EncodeUtf8(s) == EncodeUtf8(t)
    ensures s == t
  {
    Utf8RoundTrip(s);
    Utf8RoundTrip(t);
  }
}
