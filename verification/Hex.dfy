/** Base16 text of response packets (src/protocol/packet/discovery/response.rs). */
module Hex {
  import opened Wrappers
  import opened Octets
  import opened Primitives

  const CHUNK_SIZE := 512

  function HexDigit(n: nat): u8
    requires n < 16
  {
    if n < 10 then 48 + n else 87 + n
  }

  /** Both cases are accepted. */
  function DigitValue(c: u8): (v: Option<nat>)
    ensures v.Some? ==> v.value < 16
  {
    if 48 <= c <= 57 then Some(c - 48)
    else if 97 <= c <= 102 then Some(c - 87)
    else if 65 <= c <= 70 then Some(c - 55)
    else None
  }

  /** Section 8 of RFC 4648, in lower case: two digits per byte, high half first. */
  function HexOf(data: Bytes): (s: Bytes)
    ensures |s| == 2 * |data|
  {
    if data == [] then [] else [HexDigit(data[0] / 16), HexDigit(data[0] % 16)] + HexOf(data[1..])
  }

  /** Byte `i` is written at places 2i and 2i + 1 of the text, as digits of the Base16 alphabet in lower case. */
  lemma {:induction false} HexAt(data: Bytes, i: nat)
    requires i < |data|
    ensures HexOf(data)[2 * i] == "0123456789abcdef"[data[i] / 16] as int
    ensures HexOf(data)[2 * i + 1] == "0123456789abcdef"[data[i] % 16] as int
  {
    if i == 0 {
      HexDigits(data[0] / 16);
      HexDigits(data[0] % 16);
    } else {
      HexAt(data[1..], i - 1);
      assert HexOf(data)[2..] == HexOf(data[1..]);
    }
  }

  lemma HexDigits(n: nat)
    requires n < 16
    ensures HexDigit(n) == "0123456789abcdef"[n] as int
  {
  }

  /** `hex::decode` */
  function Unhex(s: Bytes): (data: Option<Bytes>)
    ensures data.Some? ==> |s| == 2 * |data.value|
    decreases |s|
  {
    if s == [] then Some([])
    else if |s| == 1 then None
    else
      var high, low, rest := DigitValue(s[0]), DigitValue(s[1]), Unhex(s[2..]);
      if high.Some? && low.Some? && rest.Some? then Some([16 * high.value + low.value] + rest.value) else None
  }

  function Lower(c: u8): u8 {
    if 65 <= c <= 90 then c + 32 else c
  }

  function LowerAll(s: Bytes): (t: Bytes)
    ensures |t| == |s|
  {
    seq(|s|, i requires 0 <= i < |s| => Lower(s[i]))
  }

  /** Decoding inverts encoding exactly, up to the case of the digits. */
  lemma {:induction false} UnhexIff(s: Bytes, data: Bytes)
    ensures Unhex(s) == Some(data) <==> LowerAll(s) == HexOf(data)
    decreases |s|
  {
    if |s| >= 2 && data != [] {
      UnhexIff(s[2..], data[1..]);
      UnhexStep(s, data);
      var t, h := LowerAll(s), HexOf(data);
      assert t == [t[0], t[1]] + LowerAll(s[2..]);
      assert h[2..] == HexOf(data[1..]) && t[2..] == LowerAll(s[2..]);
    }
  }

  lemma DigitIff(c: u8, n: nat)
    requires n < 16
    ensures DigitValue(c) == Some(n) <==> Lower(c) == HexDigit(n)
  {
  }

  lemma ByteIff(first: int, rest: Bytes, data: Bytes)
    requires 0 <= first < 0x100 && data != []
    ensures [first] + rest == data <==> first == data[0] && rest == data[1..]
  {
    assert data == [data[0]] + data[1..];
    assert ([first] + rest)[1..] == rest;
  }

  lemma HalvesIff(high: nat, low: nat, byte: u8)
    requires high < 16 && low < 16
    ensures 16 * high + low == byte <==> high == byte / 16 && low == byte % 16
  {
  }

  lemma UnhexStep(s: Bytes, data: Bytes)
    requires |s| >= 2 && data != []
    ensures Unhex(s) == Some(data) <==>
              Lower(s[0]) == HexDigit(data[0] / 16) && Lower(s[1]) == HexDigit(data[0] % 16)
              && Unhex(s[2..]) == Some(data[1..])
  {
    DigitIff(s[0], data[0] / 16);
    DigitIff(s[1], data[0] % 16);
    var high, low, rest := DigitValue(s[0]), DigitValue(s[1]), Unhex(s[2..]);
    if high.Some? && low.Some? && rest.Some? {
      ByteIff(16 * high.value + low.value, rest.value, data);
      HalvesIff(high.value, low.value, data[0]);
    }
  }

  lemma UnhexHexOf(data: Bytes)
    ensures Unhex(HexOf(data)) == Some(data)
  {
    HexIsLower(data);
    UnhexIff(HexOf(data), data);
  }

  lemma {:induction false} HexIsLower(data: Bytes)
    ensures LowerAll(HexOf(data)) == HexOf(data)
  {
    if data != [] {
      HexIsLower(data[1..]);
      var s, t := HexOf(data), HexOf(data[1..]);
      forall i | 0 <= i < |s|
        ensures Lower(s[i]) == s[i]
      {
        assert i >= 2 ==> s[i] == t[i - 2] && LowerAll(t)[i - 2] == Lower(t[i - 2]);
      }
    }
  }

  lemma {:induction false} HexConcat(left: Bytes, right: Bytes)
    ensures HexOf(left + right) == HexOf(left) + HexOf(right)
  {
    if left == [] {
      assert left + right == right;
    } else {
      HexConcat(left[1..], right);
      ConcatHeadTail(left, right);
      ConcatAssoc([HexDigit(left[0] / 16), HexDigit(left[0] % 16)], HexOf(left[1..]), HexOf(right));
    }
  }

  /** `encode_to_slice` into the front of a reused buffer. */
  method EncodeToSlice(chunk: Bytes, buf: array<u8>)
    requires 2 * |chunk| <= buf.Length
    modifies buf
    ensures buf[..2 * |chunk|] == HexOf(chunk)
  {
    assert chunk[..0] == [];
    for i := 0 to |chunk|
      invariant buf[..2 * i] == HexOf(chunk[..i])
    {
      buf[2 * i] := HexDigit(chunk[i] / 16);
      buf[2 * i + 1] := HexDigit(chunk[i] % 16);
      var one := [chunk[i]];
      HexConcat(chunk[..i], one);
      assert chunk[..i + 1] == chunk[..i] + one && one[1..] == [];
      assert buf[..2 * (i + 1)] == buf[..2 * i] + [buf[2 * i], buf[2 * i + 1]];
    }
    assert chunk[..|chunk|] == chunk;
  }

  /** The body of a response packet; the length is cast to 32 bits without a check. */
  function ResponseBody(data: Bytes): Bytes {
    ToLe((2 * |data|) % 0x1_0000_0000, 4) + HexOf(data)
  }

  lemma HexUpTo(data: Bytes, i: nat, end: nat)
    requires i <= end <= |data|
    ensures HexOf(data[..end]) == HexOf(data[..i]) + HexOf(data[i..end])
  {
    assert data[..end] == data[..i] + data[i..end];
    HexConcat(data[..i], data[i..end]);
  }

  /** The chunk loop of `ResponsePacket::write`: 512 bytes at a time through one 2048-byte buffer. */
  method WriteHex(data: Bytes, w: ByteVec)
    modifies w
    ensures w.elems == old(w.elems) + HexOf(data)
  {
    ghost var start := w.elems;
    var buf := new u8[2048];
    var i := 0;
    assert data[..0] == [];
    while i < |data|
      invariant i <= |data| && w.elems == start + HexOf(data[..i])
    {
      var end := if i + CHUNK_SIZE <= |data| then i + CHUNK_SIZE else |data|;
      var chunk := data[i..end];
      var encodedLen := |chunk| * 2;
      EncodeToSlice(chunk, buf);
      w.WriteAll(buf[..encodedLen]);
      HexUpTo(data, i, end);
      i := end;
    }
    assert data[..i] == data;
  }

  method WriteResponse(data: Bytes, w: ByteVec)
    modifies w
    ensures w.elems == old(w.elems) + ResponseBody(data)
  {
    var hexLen := |data| * 2;
    w.WriteLe(hexLen % 0x1_0000_0000, 4);
    WriteHex(data, w);
  }
}
