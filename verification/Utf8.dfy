/** Rust strings as their bytes: sequences that are well-formed UTF-8 (Table 3-7 of the Unicode Standard). */
module Utf8 {
  import opened Octets

  predicate Continues(b: u8) {
    0x80 <= b <= 0xBF
  }

  /** The length of the well-formed scalar that `s` starts with, or 0. */
  function ScalarLength(s: Bytes): (n: nat)
    ensures n <= |s| && n <= 4
  {
    if |s| == 0 then 0
    else if s[0] < 0x80 then 1
    else if |s| < 2 then 0
    else if 0xC2 <= s[0] <= 0xDF then (if Continues(s[1]) then 2 else 0)
    else if |s| < 3 then 0
    else if s[0] == 0xE0 then (if 0xA0 <= s[1] <= 0xBF && Continues(s[2]) then 3 else 0)
    else if s[0] == 0xED then (if 0x80 <= s[1] <= 0x9F && Continues(s[2]) then 3 else 0)
    else if 0xE1 <= s[0] <= 0xEF then (if Continues(s[1]) && Continues(s[2]) then 3 else 0)
    else if |s| < 4 then 0
    else if s[0] == 0xF0 then (if 0x90 <= s[1] <= 0xBF && Continues(s[2]) && Continues(s[3]) then 4 else 0)
    else if 0xF1 <= s[0] <= 0xF3 then (if Continues(s[1]) && Continues(s[2]) && Continues(s[3]) then 4 else 0)
    else if s[0] == 0xF4 then (if 0x80 <= s[1] <= 0x8F && Continues(s[2]) && Continues(s[3]) then 4 else 0)
    else 0
  }

  /** `String::from_utf8` succeeds. */
  predicate IsUtf8(s: Bytes)
    decreases |s|
  {
    s == [] || (ScalarLength(s) > 0 && IsUtf8(s[ScalarLength(s)..]))
  }

  type Str = s: Bytes | IsUtf8(s) witness []

  predicate IsAscii(s: Bytes) {
    forall i :: 0 <= i < |s| ==> s[i] < 0x80
  }

  lemma {:induction false} AsciiIsUtf8(s: Bytes)
    requires IsAscii(s)
    ensures IsUtf8(s)
  {
    if s != [] {
      AsciiIsUtf8(s[1..]);
    }
  }

  lemma ScalarLengthOfPrefix(s: Bytes, t: Bytes)
    requires ScalarLength(s) > 0
    ensures ScalarLength(s + t) == ScalarLength(s)
  {
    var w := s + t;
    assert forall i :: 0 <= i < |s| ==> w[i] == s[i];
  }

  lemma {:induction false} Utf8Concat(s: Bytes, t: Bytes)
    requires IsUtf8(s)
    ensures IsUtf8(s + t) <==> IsUtf8(t)
    decreases |s|
  {
    if s == [] {
      assert s + t == t;
    } else {
      var n := ScalarLength(s);
      Utf8Concat(s[n..], t);
      ScalarLengthOfPrefix(s, t);
      assert (s + t)[n..] == s[n..] + t;
    }
  }

  /** Cutting a string at an ASCII character leaves strings on both sides. */
  lemma {:induction false} Utf8SplitAtAscii(s: Bytes, c: u8, t: Bytes)
    requires c < 0x80 && IsUtf8(s + [c] + t)
    ensures IsUtf8(s) && IsUtf8(t)
    decreases |s|
  {
    var whole := s + [c] + t;
    var n := ScalarLength(whole);
    if s == [] {
      assert whole[1..] == t;
    } else {
      assert n <= |s| by {
        assert whole[|s|] == c;
      }
      assert ScalarLength(s) == n;
      assert whole[n..] == s[n..] + [c] + t;
      Utf8SplitAtAscii(s[n..], c, t);
    }
  }

  // ----- Scalar values -----

  type Scalar = c: nat | c < 0xD800 || 0xE000 <= c < 0x11_0000

  /** The last byte of an encoding: the low six bits. */
  function Trail(c: nat): u8 {
    0x80 + c % 0x40
  }

  /** Section 3 of RFC 3629. */
  function EncodeScalar(c: Scalar): (s: Bytes)
    ensures 1 <= |s| <= 4
  {
    if c < 0x80 then [c]
    else if c < 0x800 then [0xC0 + c / 0x40, Trail(c)]
    else if c < 0x1_0000 then [0xE0 + c / 0x40 / 0x40, Trail(c / 0x40), Trail(c)]
    else [0xF0 + c / 0x40 / 0x40 / 0x40, Trail(c / 0x40 / 0x40), Trail(c / 0x40), Trail(c)]
  }

  function EncodeText(text: seq<Scalar>): Bytes {
    if text == [] then [] else EncodeScalar(text[0]) + EncodeText(text[1..])
  }

  lemma EncodedIsWellFormed(c: Scalar)
    ensures ScalarLength(EncodeScalar(c)) == |EncodeScalar(c)|
  {
  }

  /** Appending six bits. */
  lemma Append(high: nat, low: nat)
    requires low < 0x40
    ensures (high * 0x40 + low) / 0x40 == high && (high * 0x40 + low) % 0x40 == low
  {
  }

  lemma WellFormedIsEncoded(s: Bytes) returns (c: Scalar)
    requires ScalarLength(s) > 0
    ensures EncodeScalar(c) == s[..ScalarLength(s)]
  {
    var n := ScalarLength(s);
    if n == 1 {
      c := s[0];
      return;
    }
    if n == 2 {
      var high: int, low: int := s[0] as int - 0xC0, s[1] as int - 0x80;
      Append(high, low);
      c := high * 0x40 + low;
      return;
    }
    if n == 3 {
      c := ThreeBytes(s);
    } else {
      c := FourBytes(s);
    }
  }

  lemma ThreeBytes(s: Bytes) returns (c: Scalar)
    requires ScalarLength(s) == 3
    ensures EncodeScalar(c) == s[..3]
  {
    var high: int, mid: int, low: int := s[0] as int - 0xE0, s[1] as int - 0x80, s[2] as int - 0x80;
    Append(high, mid);
    Append(high * 0x40 + mid, low);
    c := (high * 0x40 + mid) * 0x40 + low;
  }

  lemma FourBytes(s: Bytes) returns (c: Scalar)
    requires ScalarLength(s) == 4
    ensures EncodeScalar(c) == s[..4]
  {
    var high: int, upper: int := s[0] as int - 0xF0, s[1] as int - 0x80;
    var lower: int, low: int := s[2] as int - 0x80, s[3] as int - 0x80;
    Append(high, upper);
    Append(high * 0x40 + upper, lower);
    Append((high * 0x40 + upper) * 0x40 + lower, low);
    c := ((high * 0x40 + upper) * 0x40 + lower) * 0x40 + low;
  }

  /** The well-formed strings are exactly the encodings of sequences of scalar values. */
  lemma Utf8Iff(s: Bytes)
    ensures IsUtf8(s) <==> exists text :: EncodeText(text) == s
    decreases |s|
  {
    if IsUtf8(s) {
      var text := Decoded(s);
    }
    if text: seq<Scalar> :| EncodeText(text) == s {
      EncodedTextIsUtf8(text);
    }
  }

  lemma {:induction false} Decoded(s: Bytes) returns (text: seq<Scalar>)
    requires IsUtf8(s)
    ensures EncodeText(text) == s
    decreases |s|
  {
    if s == [] {
      return [];
    }
    var n := ScalarLength(s);
    var c := WellFormedIsEncoded(s);
    var rest := Decoded(s[n..]);
    text := [c] + rest;
    assert text[1..] == rest && s == s[..n] + s[n..];
  }

  lemma {:induction false} EncodedTextIsUtf8(text: seq<Scalar>)
    ensures IsUtf8(EncodeText(text))
  {
    if text != [] {
      EncodedTextIsUtf8(text[1..]);
      var first := EncodeScalar(text[0]);
      EncodedIsWellFormed(text[0]);
      assert first[|first|..] == [];
      Utf8Concat(first, EncodeText(text[1..]));
    }
  }
}
