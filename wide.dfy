/**
 * `to_wide` (src/utils.rs): a Rust string as the NUL-terminated UTF-16 buffer
 * (`PCWSTR`) that the Windows API reads.
 */
module Wide {
  import opened Wrappers

  /** A UTF-16 code unit (`u16`). */
  newtype u16 = x: int | 0 <= x < 0x1_0000

  /** One Unicode scalar value as one unit, or as a surrogate pair above U+FFFF. */
  function EncodeChar(c: char): (r: seq<u16>)
    ensures 1 <= |r| <= 2
    ensures r[0] == 0 <==> c == '\0'
  {
    var v := c as int;
    if v < 0x1_0000 then [v as u16]
    else
      var w := v - 0x1_0000;
      [(0xD800 + w / 0x400) as u16, (0xDC00 + w % 0x400) as u16]
  }

  /** `OsStr::encode_wide`: the UTF-16 code units of `s`. */
  function EncodeWide(s: string): (r: seq<u16>)
    ensures |s| <= |r| <= 2 * |s|
  {
    if s == [] then [] else EncodeChar(s[0]) + EncodeWide(s[1..])
  }

  /** `to_wide`: the code units of `s` followed by one terminating 0. */
  function ToWide(s: string): (r: seq<u16>)
    ensures |r| > 0 && r[|r| - 1] == 0
    ensures r[..|r| - 1] == EncodeWide(s)
  {
    EncodeWide(s) + [0]
  }

  predicate IsHighSurrogate(u: u16) { 0xD800 <= u < 0xDC00 }
  predicate IsLowSurrogate(u: u16) { 0xDC00 <= u < 0xE000 }

  /** UTF-16 decoding (the reader of the buffer); `None` on an unpaired surrogate. */
  function DecodeWide(u: seq<u16>): Option<string>
  {
    if u == [] then Some([])
    else if !IsHighSurrogate(u[0]) && !IsLowSurrogate(u[0]) then
      match DecodeWide(u[1..])
      case None => None
      case Some(rest) => Some([u[0] as int as char] + rest)
    else if IsHighSurrogate(u[0]) && |u| >= 2 && IsLowSurrogate(u[1]) then
      match DecodeWide(u[2..])
      case None => None
      case Some(rest) =>
        Some([(0x1_0000 + (u[0] as int - 0xD800) * 0x400 + (u[1] as int - 0xDC00)) as char] + rest)
    else None
  }

  /** The reader of a `PCWSTR`: the units before the first 0, decoded. */
  function ReadWide(u: seq<u16>): Option<string>
  {
    match FirstZero(u)
    case None => None
    case Some(k) => DecodeWide(u[..k])
  }

  function FirstZero(u: seq<u16>): (r: Option<nat>)
    ensures r.Some? ==> r.value < |u| && u[r.value] == 0 && 0 !in u[..r.value]
    ensures r.None? ==> 0 !in u
  {
    if u == [] then None
    else if u[0] == 0 then Some(0)
    else match FirstZero(u[1..])
      case None => None
      case Some(k) => assert u[..k + 1] == [u[0]] + u[1..][..k]; Some(k + 1)
  }

  lemma {:induction false} EncodeCharRoundTrip(c: char, rest: seq<u16>, tail: string)
    requires DecodeWide(rest) == Some(tail)
    ensures DecodeWide(EncodeChar(c) + rest) == Some([c] + tail)
  {
    var v := c as int;
    var u := EncodeChar(c) + rest;
    if v < 0x1_0000 {
      assert u[1..] == rest;
    } else {
      var w := v - 0x1_0000;
      assert w == (w / 0x400) * 0x400 + w % 0x400;
      assert u[2..] == rest;
      assert IsHighSurrogate(u[0]) && IsLowSurrogate(u[1]);
    }
  }

  /** UTF-16 round trip: decoding the encoding of `s` gives `s` back. */
  lemma {:induction false} EncodeWideRoundTrip(s: string)
    ensures DecodeWide(EncodeWide(s)) == Some(s)
  {
    if s != [] {
      EncodeWideRoundTrip(s[1..]);
      EncodeCharRoundTrip(s[0], EncodeWide(s[1..]), s[1..]);
      assert [s[0]] + s[1..] == s;
    }
  }

  /** A string without NUL encodes to units without 0. */
  lemma {:induction false} EncodeWideNoZero(s: string)
    requires '\0' !in s
    ensures 0 !in EncodeWide(s)
  {
    if s != [] {
      assert s[0] != '\0';
      EncodeWideNoZero(s[1..]);
      assert '\0' !in s[1..];
      var c := EncodeChar(s[0]);
      assert 0 !in c by {
        if |c| == 2 { assert c[1] >= 0xDC00; }
      }
    }
  }

  /** A string of characters below U+10000 encodes to one unit per character, of the same value. */
  lemma {:induction false} EncodeWideOneUnitEach(s: string)
    requires forall i :: 0 <= i < |s| ==> s[i] as int < 0x1_0000
    ensures |EncodeWide(s)| == |s|
    ensures forall i :: 0 <= i < |s| ==> EncodeWide(s)[i] as int == s[i] as int
  {
    if s != [] {
      EncodeWideOneUnitEach(s[1..]);
      assert EncodeWide(s) == [s[0] as int as u16] + EncodeWide(s[1..]);
    }
  }

  /** `to_wide` of such a string is the buffer holding the characters' values and a 0. */
  lemma ToWideOfUnits(s: string, w: seq<u16>)
    requires forall i :: 0 <= i < |s| ==> s[i] as int < 0x1_0000
    requires |w| == |s| + 1 && w[|s|] == 0
    requires forall i :: 0 <= i < |s| ==> w[i] as int == s[i] as int
    ensures ToWide(s) == w
  {
    EncodeWideOneUnitEach(s);
  }

  /** Such a buffer with no 0 before its last unit reads back as the string. */
  lemma ReadWideOfUnits(s: string, w: seq<u16>)
    requires forall i :: 0 <= i < |s| ==> s[i] as int < 0x1_0000
    requires |w| == |s| + 1 && w[|s|] == 0
    requires forall i :: 0 <= i < |s| ==> w[i] as int == s[i] as int && w[i] != 0
    ensures ReadWide(w) == Some(s)
  {
    ToWideOfUnits(s, w);
    assert '\0' !in s by {
      forall i | 0 <= i < |s|
        ensures s[i] != '\0'
      {
        assert w[i] as int == s[i] as int;
      }
    }
    ToWideReadsBack(s);
  }

  /**
   * What the Windows API reads from `to_wide(s)` is exactly `s`, as long as `s`
   * holds no NUL character (the terminator added by `to_wide` is the first 0).
   */
  lemma ToWideReadsBack(s: string)
    requires '\0' !in s
    ensures ReadWide(ToWide(s)) == Some(s)
  {
    var u := ToWide(s);
    EncodeWideNoZero(s);
    assert u[..|u| - 1] == EncodeWide(s);
    assert FirstZero(u) == Some(|u| - 1);
    EncodeWideRoundTrip(s);
  }
}
