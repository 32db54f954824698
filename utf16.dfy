/** UTF-16 as RFC 2781 defines it (sections 2.1 and 2.2): how Rust's
    `str::encode_utf16` turns Unicode scalar values into 16-bit code units,
    and how `String::from_utf16_lossy` turns code units back, replacing each
    unpaired surrogate with U+FFFD instead of failing. Dafny's `char` is a
    Unicode scalar value, so a `string` is exactly a Rust `&str`'s content. */
module Utf16 {
  import opened Words

  const HIGH_FIRST: int := 0xD800
  const LOW_FIRST: int := 0xDC00
  const SURROGATE_END: int := 0xE000
  const REPLACEMENT_CHARACTER: char := '\U{FFFD}'

  predicate IsHighSurrogate(u: u16)
  {
    HIGH_FIRST <= u < LOW_FIRST
  }

  predicate IsLowSurrogate(u: u16)
  {
    LOW_FIRST <= u < SURROGATE_END
  }

  /** Section 2.1 of RFC 2781: a scalar value below U+10000 is one unit;
      above, the 20 bits of `c - 0x10000` are split over a high and a low
      surrogate. */
  function EncodeChar(c: char): (units: seq<u16>)
    ensures |units| == (if c as int < 0x1_0000 then 1 else 2)
  {
    var v := c as int;
    if v < 0x1_0000 then [v]
    else [HIGH_FIRST + (v - 0x1_0000) / 0x400, LOW_FIRST + (v - 0x1_0000) % 0x400]
  }

  /** `s.encode_utf16().collect::<Vec<u16>>()`. */
  function EncodeUtf16(s: string): (units: seq<u16>)
    ensures |units| >= |s|
  {
    if |s| == 0 then [] else EncodeChar(s[0]) + EncodeUtf16(s[1..])
  }

  /** Section 2.2 of RFC 2781, steps 4 and 5: a high and a low surrogate
      combine into one supplementary scalar value. */
  function CombineSurrogates(hi: u16, lo: u16): (c: char)
    requires IsHighSurrogate(hi) && IsLowSurrogate(lo)
    ensures 0x1_0000 <= c as int < 0x11_0000
  {
    (0x1_0000 + (hi - HIGH_FIRST) * 0x400 + (lo - LOW_FIRST)) as char
  }

  /** `String::from_utf16_lossy`: a unit outside the surrogate range is its
      own scalar value; a high surrogate followed by a low one is a pair; a
      lone low surrogate, or a high surrogate not followed by a low one,
      becomes U+FFFD and decoding resumes at the very next unit. */
  function DecodeUtf16Lossy(units: seq<u16>): (s: string)
    ensures |s| <= |units|
    decreases |units|
  {
    if |units| == 0 then ""
    else
      var u := units[0];
      if !IsHighSurrogate(u) && !IsLowSurrogate(u) then [u as char] + DecodeUtf16Lossy(units[1..])
      else if IsHighSurrogate(u) && |units| > 1 && IsLowSurrogate(units[1]) then
        [CombineSurrogates(u, units[1])] + DecodeUtf16Lossy(units[2..])
      else [REPLACEMENT_CHARACTER] + DecodeUtf16Lossy(units[1..])
  }

  /** Well-formed UTF-16: every high surrogate is followed by a low one and
      every low surrogate follows a high one. */
  predicate WellFormed(units: seq<u16>)
    decreases |units|
  {
    if |units| == 0 then true
    else if IsHighSurrogate(units[0]) then |units| > 1 && IsLowSurrogate(units[1]) && WellFormed(units[2..])
    else !IsLowSurrogate(units[0]) && WellFormed(units[1..])
  }

  /** Decoding one encoded scalar value, whatever follows it, yields that
      value and resumes right after its units. */
  lemma DecodeEncodedChar(c: char, rest: seq<u16>)
    ensures DecodeUtf16Lossy(EncodeChar(c) + rest) == [c] + DecodeUtf16Lossy(rest)
  {
    var units := EncodeChar(c) + rest;
    if c as int < 0x1_0000 {
      assert units[1..] == rest;
    } else {
      assert units[2..] == rest;
      assert CombineSurrogates(units[0], units[1]) == c;
    }
  }

  /** The headline round trip: decoding what `encode_utf16` produced gives
      back the original string, surrogate pairs included. */
  lemma {:induction false} DecodeEncode(s: string)
    ensures DecodeUtf16Lossy(EncodeUtf16(s)) == s
  {
    if |s| > 0 {
      DecodeEncodedChar(s[0], EncodeUtf16(s[1..]));
      DecodeEncode(s[1..]);
    }
  }

  /** Encoding always produces well-formed UTF-16. */
  lemma {:induction false} EncodeWellFormed(s: string)
    ensures WellFormed(EncodeUtf16(s))
  {
    if |s| > 0 {
      var units := EncodeUtf16(s);
      var tail := EncodeUtf16(s[1..]);
      EncodeWellFormed(s[1..]);
      if s[0] as int < 0x1_0000 {
        assert units[1..] == tail;
      } else {
        assert units[2..] == tail;
      }
    }
  }

  /** The other direction: on well-formed units decoding loses nothing, so
      re-encoding gives back the same units. */
  lemma {:induction false} EncodeDecode(units: seq<u16>)
    requires WellFormed(units)
    ensures EncodeUtf16(DecodeUtf16Lossy(units)) == units
    decreases |units|
  {
    if |units| > 0 {
      var s := DecodeUtf16Lossy(units);
      if IsHighSurrogate(units[0]) {
        EncodeDecode(units[2..]);
        assert s[1..] == DecodeUtf16Lossy(units[2..]);
        assert EncodeChar(s[0]) == units[..2];
        assert units == units[..2] + units[2..];
      } else {
        EncodeDecode(units[1..]);
        assert s[1..] == DecodeUtf16Lossy(units[1..]);
        assert EncodeChar(s[0]) == units[..1];
        assert units == units[..1] + units[1..];
      }
    }
  }

  /** Decoding is lossy rather than failing: a lone low surrogate becomes
      U+FFFD, and a high surrogate not followed by a low one becomes U+FFFD
      while the unit after it is decoded on its own. */
  lemma LossyReplacement(u: u16, rest: seq<u16>)
    requires IsLowSurrogate(u) || (IsHighSurrogate(u) && (|rest| == 0 || !IsLowSurrogate(rest[0])))
    ensures DecodeUtf16Lossy([u] + rest) == [REPLACEMENT_CHARACTER] + DecodeUtf16Lossy(rest)
  {
    assert ([u] + rest)[1..] == rest;
  }
}
