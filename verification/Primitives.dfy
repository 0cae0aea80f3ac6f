/** Readers and writers of the binary formats (src/protocol/types/ints.rs, src/protocol/types/primitives.rs). */
module Primitives {
  import opened Wrappers
  import opened Octets

  /** Byte strings longer than this are refused on both sides. */
  const MAX_BYTES := 16 * 1024 * 1024

  // ----- Little-endian integers -----

  /** The low `width` bytes of `n`, least significant first. */
  function ToLe(n: nat, width: nat): (s: Bytes)
    ensures |s| == width
  {
    if width == 0 then [] else [n % 0x100] + ToLe(n / 0x100, width - 1)
  }

  function FromLe(s: Bytes): nat {
    if s == [] then 0 else s[0] + 0x100 * FromLe(s[1..])
  }

  function Pow256(k: nat): nat {
    if k == 0 then 1 else 0x100 * Pow256(k - 1)
  }

  lemma Widths()
    ensures Pow256(2) == 0x1_0000 && Pow256(4) == 0x1_0000_0000 && Pow256(8) == 0x1_0000_0000_0000_0000
  {
    assert Pow256(1) == 0x100 && Pow256(3) == 0x100_0000;
    assert Pow256(5) == 0x100_0000_0000 && Pow256(6) == 0x1_0000_0000_0000 && Pow256(7) == 0x100_0000_0000_0000;
  }

  lemma {:induction false} LeRoundTrip(n: nat, width: nat)
    requires n < Pow256(width)
    ensures FromLe(ToLe(n, width)) == n
  {
    if width > 0 {
      LeRoundTrip(n / 0x100, width - 1);
      assert ToLe(n, width)[1..] == ToLe(n / 0x100, width - 1);
    }
  }

  lemma {:induction false} LeInverse(s: Bytes)
    ensures FromLe(s) < Pow256(|s|) && ToLe(FromLe(s), |s|) == s
  {
    if s != [] {
      LeInverse(s[1..]);
      assert FromLe(s) / 0x100 == FromLe(s[1..]) && FromLe(s) % 0x100 == s[0];
    }
  }

  /** Byte `i` is the digit of weight 256 to the power `i`. */
  lemma {:induction false} LeDigit(n: nat, width: nat, i: nat)
    requires i < width
    ensures Pow256(i) > 0 && ToLe(n, width)[i] == n / Pow256(i) % 0x100
  {
    if i > 0 {
      LeDigit(n / 0x100, width - 1, i - 1);
      assert ToLe(n, width)[i] == ToLe(n / 0x100, width - 1)[i - 1];
      DivideTwice(n, 0x100, Pow256(i - 1));
    }
  }

  lemma LeIff(s: Bytes, n: nat, width: nat)
    requires |s| == width && n < Pow256(width)
    ensures FromLe(s) == n <==> s == ToLe(n, width)
  {
    LeInverse(s);
    LeRoundTrip(n, width);
  }

  /** Two's complement. */
  function Signed(n: u32): i32 {
    if n < 0x8000_0000 then n else n - 0x1_0000_0000
  }

  function Unsigned(n: i32): u32 {
    if n >= 0 then n else n + 0x1_0000_0000
  }

  /** The two agree modulo 2 to the power 32, and undo each other. */
  lemma TwosComplement(n: i32)
    ensures (Unsigned(n) - n) % 0x1_0000_0000 == 0 && Signed(Unsigned(n)) == n
  {
  }

  // ----- What a read consumes -----

  datatype Parsed<+T> = Parsed(value: T, rest: Bytes)

  function Take(s: Bytes, n: nat): Result<Parsed<Bytes>> {
    if n <= |s| then Ok(Parsed(s[..n], s[n..])) else Err(Io)
  }

  function TakeU8(s: Bytes): Result<Parsed<u8>> {
    if s == [] then Err(Io) else Ok(Parsed(s[0], s[1..]))
  }

  function TakeLe(s: Bytes, width: nat): (r: Result<Parsed<nat>>)
    ensures r.Ok? ==> r.value.value < Pow256(width)
  {
    var taken :- Take(s, width);
    LeInverse(taken.value);
    Ok(Parsed(FromLe(taken.value), taken.rest))
  }

  /** A byte string whose length has just been read. */
  function TakeBytes(s: Bytes, length: nat): Result<Parsed<Bytes>> {
    if length > MAX_BYTES then Err(Io) else Take(s, length)
  }

  function TakeBytes8(s: Bytes): Result<Parsed<Bytes>> {
    var length :- TakeU8(s);
    TakeBytes(length.rest, length.value)
  }

  function TakeBytes32(s: Bytes): Result<Parsed<Bytes>> {
    var length :- TakeLe(s, 4);
    TakeBytes(length.rest, length.value)
  }

  /** What is not there is an I/O error; so is a length above the limit. */
  lemma ShortReadsFail(s: Bytes, n: nat)
    ensures Take(s, n).Err? <==> |s| < n
    ensures TakeBytes(s, n).Err? <==> |s| < n || n > 16 * 1024 * 1024
    ensures Take(s, n).Err? ==> Take(s, n).error == Io
    ensures TakeBytes(s, n).Err? ==> TakeBytes(s, n).error == Io
  {
  }

  lemma TakeWritten(s: Bytes, rest: Bytes)
    ensures Take(s + rest, |s|) == Ok(Parsed(s, rest))
  {
    assert (s + rest)[..|s|] == s && (s + rest)[|s|..] == rest;
  }

  lemma TakeLeWritten(n: nat, width: nat, rest: Bytes)
    requires n < Pow256(width)
    ensures TakeLe(ToLe(n, width) + rest, width) == Ok(Parsed(n, rest))
  {
    TakeWritten(ToLe(n, width), rest);
    LeRoundTrip(n, width);
  }

  /** Both length-prefixed forms are read back, whatever follows them. */
  lemma TakeBytes32Written(data: Bytes, rest: Bytes)
    requires |data| <= MAX_BYTES
    ensures TakeBytes32(ToLe(|data|, 4) + data + rest) == Ok(Parsed(data, rest))
  {
    Widths();
    var prefix := ToLe(|data|, 4);
    assert prefix + data + rest == prefix + (data + rest);
    TakeLeWritten(|data|, 4, data + rest);
    TakeWritten(data, rest);
  }

  lemma TakeBytes8Written(data: Bytes, rest: Bytes)
    requires |data| <= U8_MAX
    ensures TakeBytes8([|data|] + data + rest) == Ok(Parsed(data, rest))
  {
    assert ([|data|] + data + rest)[1..] == data + rest;
    TakeWritten(data, rest);
  }

  // ----- Cursor -----

  /** `Cursor` over a byte buffer. */
  class Cursor {
    const data: Bytes
    var position: nat

    ghost predicate Valid()
      reads this
    {
      position <= |data|
    }

    ghost function Rest(): Bytes
      requires Valid()
      reads this
    {
      data[position..]
    }

    /** The answer and the bytes left over are those of `spec`; after an error the position is not specified. */
    ghost predicate Follows<T>(r: Result<T>, spec: Result<Parsed<T>>)
      reads this
    {
      && Valid()
      && match spec
         case Ok(p) => r == Ok(p.value) && Rest() == p.rest
         case Err(e) => r == Err(e)
    }

    constructor (data: Bytes)
      ensures Valid() && this.data == data && Rest() == data
    {
      this.data := data;
      position := 0;
    }

    method ReadExact(n: nat) returns (r: Result<Bytes>)
      requires Valid()
      modifies this
      ensures Follows(r, Take(old(Rest()), n))
    {
      if n > |data| - position {
        position := |data|;
        return Err(Io);
      }
      assert data[position..][..n] == data[position..position + n];
      r := Ok(data[position..position + n]);
      position := position + n;
    }

    method ReadU8() returns (r: Result<u8>)
      requires Valid()
      modifies this
      ensures Follows(r, TakeU8(old(Rest())))
    {
      var buf :- ReadExact(1);
      return Ok(buf[0]);
    }

    /** `U16LE::read`, `U32LE::read` and `U64LE::read`, by width. */
    method ReadLe(width: nat) returns (r: Result<nat>)
      requires Valid()
      modifies this
      ensures Follows(r, TakeLe(old(Rest()), width))
    {
      var buf :- ReadExact(width);
      return Ok(FromLe(buf));
    }

    method ReadI32Le() returns (r: Result<i32>)
      requires Valid()
      modifies this
      ensures var spec := TakeLe(old(Rest()), 4);
              Valid() && match spec
                         case Ok(p) => r == Ok(SignedOf(p.value)) && Rest() == p.rest
                         case Err(e) => r == Err(e)
    {
      ghost var spec := TakeLe(Rest(), 4);
      Widths();
      var n :- ReadLe(4);
      return Ok(SignedOf(n));
    }

    method ReadBytes(length: nat) returns (r: Result<Bytes>)
      requires Valid()
      modifies this
      ensures Follows(r, TakeBytes(old(Rest()), length))
    {
      if length > MAX_BYTES {
        return Err(Io);
      }
      r := ReadExact(length);
    }

    method ReadBytesU8() returns (r: Result<Bytes>)
      requires Valid()
      modifies this
      ensures Follows(r, TakeBytes8(old(Rest())))
    {
      var length :- ReadU8();
      r := ReadBytes(length);
    }

    method ReadBytesU32() returns (r: Result<Bytes>)
      requires Valid()
      modifies this
      ensures Follows(r, TakeBytes32(old(Rest())))
    {
      var length :- ReadLe(4);
      r := ReadBytes(length);
    }
  }

  function SignedOf(n: nat): i32
    requires n < Pow256(4)
  {
    Widths();
    Signed(n)
  }

  // ----- Growing buffer -----

  /** `Vec<u8>`, also as the target of writes. */
  class ByteVec {
    var elems: Bytes

    constructor (elems: Bytes)
      ensures this.elems == elems
    {
      this.elems := elems;
    }

    method WriteAll(data: Bytes)
      modifies this
      ensures elems == old(elems) + data
    {
      elems := elems + data;
    }

    method WriteU8(value: u8)
      modifies this
      ensures elems == old(elems) + [value]
    {
      WriteAll([value]);
    }

    /** `to_le_bytes` written out. */
    method WriteLe(n: nat, width: nat)
      modifies this
      ensures elems == old(elems) + ToLe(n, width)
    {
      WriteAll(ToLe(n, width));
    }

    method WriteI32Le(n: i32)
      modifies this
      ensures elems == old(elems) + ToLe(Unsigned(n), 4)
    {
      WriteLe(Unsigned(n), 4);
    }

    method WriteBytesU8(data: Bytes) returns (r: Result<()>)
      modifies this
      ensures r == if |data| <= U8_MAX then Ok(()) else Err(Io)
      ensures elems == if r.Ok? then old(elems) + ([|data|] + data) else old(elems)
    {
      if |data| > MAX_BYTES || |data| > U8_MAX {
        return Err(Io);
      }
      WriteU8(|data|);
      WriteAll(data);
      return Ok(());
    }

    method WriteBytesU32(data: Bytes) returns (r: Result<()>)
      modifies this
      ensures r == if |data| <= MAX_BYTES then Ok(()) else Err(Io)
      ensures elems == if r.Ok? then old(elems) + (ToLe(|data|, 4) + data) else old(elems)
    {
      if |data| > MAX_BYTES {
        return Err(Io);
      }
      WriteLe(|data|, 4);
      WriteAll(data);
      return Ok(());
    }

    method Resize(length: nat, fill: u8)
      requires length >= |elems|
      modifies this
      ensures elems == old(elems) + seq(length - |old(elems)|, _ => fill)
    {
      elems := elems + seq(length - |elems|, _ => fill);
    }

    method Truncate(length: nat)
      requires length <= |elems|
      modifies this
      ensures elems == old(elems)[..length]
    {
      elems := elems[..length];
    }

    /** `copy_from_slice` into a window. */
    method Overwrite(start: nat, data: Bytes)
      requires start + |data| <= |elems|
      modifies this
      ensures elems == old(elems)[..start] + data + old(elems)[start + |data|..]
    {
      elems := elems[..start] + data + elems[start + |data|..];
    }

    method SplitOff(at: nat) returns (tail: ByteVec)
      requires at <= |elems|
      modifies this
      ensures fresh(tail) && elems == old(elems)[..at] && tail.elems == old(elems)[at..]
    {
      tail := new ByteVec(elems[at..]);
      elems := elems[..at];
    }
  }
}
