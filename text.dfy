/** The string operations the components rely on: ECMAScript `trim`,
    `includes` (substring search) and a per-character `toLowerCase`. */
module Text {

  /** The ECMAScript WhiteSpace and LineTerminator code points: the characters
      `String.prototype.trim` removes. */
  predicate IsWhitespace(c: char) {
    || c == '\U{9}' || c == '\U{A}' || c == '\U{B}' || c == '\U{C}' || c == '\U{D}'
    || c == '\U{20}' || c == '\U{A0}' || c == '\U{1680}'
    || ('\U{2000}' <= c <= '\U{200A}')
    || c == '\U{2028}' || c == '\U{2029}' || c == '\U{202F}' || c == '\U{205F}'
    || c == '\U{3000}' || c == '\U{FEFF}'
  }

  /** How many whitespace characters `s` starts with. */
  function StartIndex(s: string): (n: nat)
    ensures n <= |s|
    ensures forall i :: 0 <= i < n ==> IsWhitespace(s[i])
    ensures n < |s| ==> !IsWhitespace(s[n])
  {
    if s != [] && IsWhitespace(s[0]) then
      var n := 1 + StartIndex(s[1..]);
      assert forall i :: 1 <= i < n ==> s[i] == s[1..][i - 1];
      n
    else 0
  }

  /** Where the whitespace that `s` ends with begins. */
  function EndIndex(s: string): (n: nat)
    ensures n <= |s|
    ensures forall i :: n <= i < |s| ==> IsWhitespace(s[i])
    ensures 0 < n ==> !IsWhitespace(s[n - 1])
  {
    if s != [] && IsWhitespace(s[|s| - 1]) then EndIndex(s[..|s| - 1]) else |s|
  }

  /** `String.prototype.trim`: leading and trailing whitespace removed. */
  function Trim(s: string): string {
    var t := s[StartIndex(s)..];
    t[..EndIndex(t)]
  }

  /** The trimmed string is the piece of the input that starts after the leading whitespace. */
  lemma TrimIsSlice(s: string)
    ensures StartIndex(s) + |Trim(s)| <= |s|
    ensures Trim(s) == s[StartIndex(s)..StartIndex(s) + |Trim(s)|]
  {
    var lo := StartIndex(s);
    var t := s[lo..];
    assert t[..EndIndex(t)] == s[lo..lo + EndIndex(t)];
  }

  /** Only whitespace is cut away, in front of the trimmed piece and behind it. */
  lemma TrimCutsWhitespace(s: string)
    ensures forall i :: 0 <= i < StartIndex(s) ==> IsWhitespace(s[i])
    ensures forall i :: StartIndex(s) + |Trim(s)| <= i < |s| ==> IsWhitespace(s[i])
  {
    var lo := StartIndex(s);
    var t := s[lo..];
    var hi := EndIndex(t);
    forall i | lo + hi <= i < |s| ensures IsWhitespace(s[i]) {
      assert s[i] == t[i - lo];
    }
  }

  /** The trimmed string neither starts nor ends with whitespace. */
  lemma TrimEndsClean(s: string)
    ensures Trim(s) == [] || (!IsWhitespace(Trim(s)[0]) && !IsWhitespace(Trim(s)[|Trim(s)| - 1]))
  {
    var lo := StartIndex(s);
    var t := s[lo..];
    if EndIndex(t) > 0 {
      assert t[0] == s[lo];
    }
  }

  /** `trim()` leaves the empty string exactly when the input is all whitespace. */
  lemma TrimEmptyIff(s: string)
    ensures Trim(s) == [] <==> forall i :: 0 <= i < |s| ==> IsWhitespace(s[i])
  {
    var lo := StartIndex(s);
    var t := s[lo..];
    assert lo < |s| ==> t[0] == s[lo];
  }

  /** Trimming a trimmed string changes nothing. */
  lemma TrimIdempotent(s: string)
    ensures Trim(Trim(s)) == Trim(s)
  {
    var r := Trim(s);
    TrimEndsClean(s);
    if r != [] {
      assert StartIndex(r) == 0;
      assert EndIndex(r) == |r|;
      assert r[0..] == r;
    }
  }

  /** `hay.includes(needle)`, searched left to right. */
  predicate Contains(hay: string, needle: string)
    decreases |hay|
  {
    needle <= hay || (hay != [] && Contains(hay[1..], needle))
  }

  /** `needle` occurs in `hay` starting at position `i`. */
  predicate OccursAt(hay: string, needle: string, i: int) {
    0 <= i <= |hay| - |needle| && hay[i..i + |needle|] == needle
  }

  /** `includes` holds exactly when the needle occurs at some position. */
  lemma {:induction false} ContainsIff(hay: string, needle: string)
    ensures Contains(hay, needle) <==> exists i :: OccursAt(hay, needle, i)
    decreases |hay|
  {
    if needle <= hay {
      assert OccursAt(hay, needle, 0);
    } else if hay != [] {
      ContainsIff(hay[1..], needle);
      if exists i :: OccursAt(hay[1..], needle, i) {
        var i :| OccursAt(hay[1..], needle, i);
        assert hay[i + 1..i + 1 + |needle|] == hay[1..][i..i + |needle|];
        assert OccursAt(hay, needle, i + 1);
      }
      if exists i :: OccursAt(hay, needle, i) {
        var i :| OccursAt(hay, needle, i);
        assert i != 0;
        assert hay[1..][i - 1..i - 1 + |needle|] == hay[i..i + |needle|];
        assert OccursAt(hay[1..], needle, i - 1);
      }
    }
  }

  /** Every string includes the empty string. */
  lemma ContainsEmpty(hay: string)
    ensures Contains(hay, "")
  {
  }

  /** The UTF-16 code units of one character, as a JavaScript string stores it:
      the character itself inside the Basic Multilingual Plane, a high and a
      low surrogate outside it. */
  function Utf16(c: char): seq<nat> {
    var v := c as int;
    if v < 0x1_0000 then [v]
    else [0xD800 + (v - 0x1_0000) / 0x400, 0xDC00 + (v - 0x1_0000) % 0x400]
  }

  /** The character a one- or two-unit UTF-16 sequence stands for. */
  function Utf16Decode(units: seq<nat>): int {
    if |units| == 1 then units[0]
    else if |units| == 2 then 0x1_0000 + (units[0] as int - 0xD800) * 0x400 + (units[1] as int - 0xDC00)
    else -1
  }

  /** A character inside the Basic Multilingual Plane is one code unit that
      equals it; any other is a high surrogate followed by a low surrogate.
      Either way the units decode back to the character. */
  lemma Utf16RoundTrip(c: char)
    ensures c as int < 0x1_0000 ==> Utf16(c) == [c as int]
    ensures c as int >= 0x1_0000 ==>
      |Utf16(c)| == 2 && 0xD800 <= Utf16(c)[0] < 0xDC00 && 0xDC00 <= Utf16(c)[1] < 0xE000
    ensures Utf16Decode(Utf16(c)) == c as int
  {
  }

  /** `s[0]` on a JavaScript string: the first UTF-16 code unit. */
  function FirstCodeUnit(s: string): nat
    requires s != ""
  {
    Utf16(s[0])[0]
  }

  /** `toLowerCase`, applied character by character with the given case map. */
  function LowerCase(s: string, lower: char -> char): (r: string)
    ensures |r| == |s|
    ensures forall i :: 0 <= i < |s| ==> r[i] == lower(s[i])
  {
    seq(|s|, i requires 0 <= i < |s| => lower(s[i]))
  }
}
