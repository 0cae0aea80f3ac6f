/**
 * ECB encryption with PKCS#7 padding (src/protocol/packet/discovery/crypto.rs). The block cipher and the
 * keyed hash are parameters.
 */
module Crypto {
  import opened Wrappers
  import opened Octets
  import opened Primitives

  const BLOCK_SIZE := 16

  type Block = b: Bytes | |b| == BLOCK_SIZE witness seq(BLOCK_SIZE, _ => 0)
  type Digest = d: Bytes | |d| == 32 witness seq(32, _ => 0)

  datatype Suite = Suite(encryptBlock: Block -> Block, decryptBlock: Block -> Block, mac: Bytes -> Digest) {
    /** All that is assumed of the cipher. */
    ghost predicate Valid() {
      forall b: Block :: decryptBlock(encryptBlock(b)) == b && encryptBlock(decryptBlock(b)) == b
    }
  }

  // ----- Blocks -----

  function MapBlocks(f: Block -> Block, s: Bytes): (r: Bytes)
    requires |s| % BLOCK_SIZE == 0
    ensures |r| == |s|
  {
    if s == [] then [] else f(s[..BLOCK_SIZE]) + MapBlocks(f, s[BLOCK_SIZE..])
  }

  lemma {:induction false} MapBlocksConcat(f: Block -> Block, s: Bytes, t: Bytes)
    requires |s| % BLOCK_SIZE == 0 && |t| % BLOCK_SIZE == 0
    ensures MapBlocks(f, s + t) == MapBlocks(f, s) + MapBlocks(f, t)
  {
    if s == [] {
      assert s + t == t;
    } else {
      MapBlocksConcat(f, s[BLOCK_SIZE..], t);
      assert (s + t)[..BLOCK_SIZE] == s[..BLOCK_SIZE];
      assert (s + t)[BLOCK_SIZE..] == s[BLOCK_SIZE..] + t;
    }
  }

  lemma MapBlocksStep(f: Block -> Block, s: Bytes, i: nat)
    requires |s| % BLOCK_SIZE == i % BLOCK_SIZE == 0 && i < |s|
    ensures MapBlocks(f, s[..i + BLOCK_SIZE]) == MapBlocks(f, s[..i]) + f(s[i..i + BLOCK_SIZE])
  {
    var block := s[i..i + BLOCK_SIZE];
    MapBlocksConcat(f, s[..i], block);
    assert s[..i] + block == s[..i + BLOCK_SIZE];
    assert block[..BLOCK_SIZE] == block && block[BLOCK_SIZE..] == [];
  }

  /** Block by block, each in its place. */
  lemma {:induction false} MapBlocksAt(f: Block -> Block, s: Bytes, i: nat)
    requires |s| % BLOCK_SIZE == i % BLOCK_SIZE == 0 && i < |s|
    ensures MapBlocks(f, s)[i..i + BLOCK_SIZE] == f(s[i..i + BLOCK_SIZE])
  {
    var r := MapBlocks(f, s);
    if i == 0 {
      assert r[..BLOCK_SIZE] == f(s[..BLOCK_SIZE]);
    } else {
      var rest, j := s[BLOCK_SIZE..], i - BLOCK_SIZE;
      MapBlocksAt(f, rest, j);
      assert r[BLOCK_SIZE..] == MapBlocks(f, rest);
      assert r[i..i + BLOCK_SIZE] == MapBlocks(f, rest)[j..j + BLOCK_SIZE];
      assert s[i..i + BLOCK_SIZE] == rest[j..j + BLOCK_SIZE];
    }
  }

  lemma {:induction false} MapBlocksInverse(f: Block -> Block, g: Block -> Block, s: Bytes)
    requires |s| % BLOCK_SIZE == 0
    requires forall b: Block :: g(f(b)) == b
    ensures MapBlocks(g, MapBlocks(f, s)) == s
  {
    if s != [] {
      MapBlocksInverse(f, g, s[BLOCK_SIZE..]);
      var r := MapBlocks(f, s);
      assert r[..BLOCK_SIZE] == f(s[..BLOCK_SIZE]);
      assert r[BLOCK_SIZE..] == MapBlocks(f, s[BLOCK_SIZE..]);
    }
  }

  /** Part of the way through, the next block is still the old one, and replacing it takes one more step. */
  lemma OneMoreBlock(f: Block -> Block, was: Bytes, i: nat)
    requires |was| % BLOCK_SIZE == i % BLOCK_SIZE == 0 && i < |was|
    ensures var now, end := MapBlocks(f, was[..i]) + was[i..], i + BLOCK_SIZE;
            && end <= |was| == |now| && now[i..end] == was[i..end]
            && now[..i] + f(was[i..end]) + now[end..] == MapBlocks(f, was[..end]) + was[end..]
  {
    var now, end := MapBlocks(f, was[..i]) + was[i..], i + BLOCK_SIZE;
    MapBlocksStep(f, was, i);
    assert now[..i] == MapBlocks(f, was[..i]);
    assert now[i..end] == was[i..][..BLOCK_SIZE] == was[i..end];
    assert now[end..] == was[i..][BLOCK_SIZE..] == was[end..];
  }

  /** `encrypt_blocks` and `decrypt_blocks`: each block replaced in place. */
  method TransformBlocks(f: Block -> Block, buf: ByteVec)
    requires |buf.elems| % BLOCK_SIZE == 0
    modifies buf
    ensures buf.elems == MapBlocks(f, old(buf.elems))
  {
    ghost var was := buf.elems;
    var i := 0;
    assert was[..0] == [];
    while i < |buf.elems|
      invariant i % BLOCK_SIZE == 0 && i <= |buf.elems| == |was|
      invariant buf.elems == MapBlocks(f, was[..i]) + was[i..]
    {
      var block := buf.elems[i..i + BLOCK_SIZE];
      OneMoreBlock(f, was, i);
      buf.Overwrite(i, f(block));
      i := i + BLOCK_SIZE;
    }
    assert was[..i] == was;
  }

  // ----- Padding -----

  function PadLength(length: nat): (n: nat)
    ensures 1 <= n <= BLOCK_SIZE && (length + n) % BLOCK_SIZE == 0
  {
    BLOCK_SIZE - length % BLOCK_SIZE
  }

  function Repeat(b: u8, n: nat): (s: Bytes)
    ensures |s| == n
  {
    seq(n, _ => b)
  }

  /** Section 6.3 of RFC 5652: k bytes of value k, up to the next block boundary. */
  function Pad(x: Bytes): (s: Bytes)
    ensures |s| % BLOCK_SIZE == 0 && |s| > 0
  {
    x + Repeat(PadLength(|x|), PadLength(|x|))
  }

  function Unpad(s: Bytes): Result<Bytes> {
    if s == [] then Err(Other)
    else
      var n := s[|s| - 1];
      if 1 <= n <= BLOCK_SIZE && n <= |s| && s[|s| - n..] == Repeat(n, n) then Ok(s[..|s| - n]) else Err(Other)
  }

  /** The padding byte by byte. */
  lemma PadShape(x: Bytes)
    ensures var s := Pad(x);
            && x <= s && 1 <= |s| - |x| <= 16 && |s| % 16 == 0
            && forall i :: |x| <= i < |s| ==> s[i] == |s| - |x|
  {
  }

  lemma UnpadPad(x: Bytes)
    ensures Unpad(Pad(x)) == Ok(x)
  {
    var n := PadLength(|x|);
    assert Pad(x)[|x|..] == Repeat(n, n) && Pad(x)[..|x|] == x;
  }

  lemma PadLengthOf(length: nat, n: nat)
    requires 1 <= n <= BLOCK_SIZE && (length + n) % BLOCK_SIZE == 0
    ensures PadLength(length) == n
  {
  }

  lemma PadUnpad(s: Bytes)
    requires |s| % BLOCK_SIZE == 0 && Unpad(s).Ok?
    ensures Pad(Unpad(s).value) == s
  {
    var n := s[|s| - 1];
    PadLengthOf(|s| - n, n);
    assert s == s[..|s| - n] + s[|s| - n..];
  }

  // ----- encrypt and decrypt -----

  function Encrypted(suite: Suite, x: Bytes): (c: Bytes)
    ensures |c| == |x| + PadLength(|x|)
  {
    MapBlocks(suite.encryptBlock, Pad(x))
  }

  function Decrypted(suite: Suite, c: Bytes): Result<Bytes> {
    if c == [] || |c| % BLOCK_SIZE != 0 then Err(Other) else Unpad(MapBlocks(suite.decryptBlock, c))
  }

  /** Every block of the padded plaintext is encrypted on its own, where it stands. */
  lemma EncryptedBlock(suite: Suite, x: Bytes, i: nat)
    requires i % 16 == 0 && i < |Encrypted(suite, x)|
    ensures i + 16 <= |Pad(x)| == |Encrypted(suite, x)|
    ensures Encrypted(suite, x)[i..i + 16] == suite.encryptBlock(Pad(x)[i..i + 16])
  {
    MapBlocksAt(suite.encryptBlock, Pad(x), i);
  }

  /**
   * The two are inverse to each other: every buffer decrypts from its encryption, and whatever decrypts is the
   * encryption of what it decrypts to.
   */
  lemma EncryptionIsABijection(suite: Suite, x: Bytes, c: Bytes)
    requires suite.Valid()
    ensures Decrypted(suite, c) == Ok(x) <==> c == Encrypted(suite, x)
  {
    if c == Encrypted(suite, x) {
      MapBlocksInverse(suite.encryptBlock, suite.decryptBlock, Pad(x));
      UnpadPad(x);
    }
    if Decrypted(suite, c) == Ok(x) {
      PadUnpad(MapBlocks(suite.decryptBlock, c));
      MapBlocksInverse(suite.decryptBlock, suite.encryptBlock, c);
    }
  }

  method Encrypt(suite: Suite, buf: ByteVec)
    modifies buf
    ensures buf.elems == Encrypted(suite, old(buf.elems))
  {
    var dataLen := |buf.elems|;
    var paddingLen := BLOCK_SIZE - dataLen % BLOCK_SIZE;
    buf.Resize(dataLen + paddingLen, paddingLen);
    assert buf.elems == Pad(old(buf.elems));
    TransformBlocks(suite.encryptBlock, buf);
  }

  // ----- Bitwise operations on bytes -----

  function Xor(x: nat, y: nat, bits: nat): nat {
    if bits == 0 then 0 else (if x % 2 == y % 2 then 0 else 1) + 2 * Xor(x / 2, y / 2, bits - 1)
  }

  function Or(x: nat, y: nat, bits: nat): nat {
    if bits == 0 then 0 else (if x % 2 == 0 && y % 2 == 0 then 0 else 1) + 2 * Or(x / 2, y / 2, bits - 1)
  }

  function Pow2(bits: nat): nat {
    if bits == 0 then 1 else 2 * Pow2(bits - 1)
  }

  lemma {:induction false} XorIsZeroIff(x: nat, y: nat, bits: nat)
    requires x < Pow2(bits) && y < Pow2(bits)
    ensures Xor(x, y, bits) == 0 <==> x == y
    ensures Xor(x, y, bits) < Pow2(bits)
  {
    if bits > 0 {
      XorIsZeroIff(x / 2, y / 2, bits - 1);
    }
  }

  lemma {:induction false} OrIsZeroIff(x: nat, y: nat, bits: nat)
    requires x < Pow2(bits) && y < Pow2(bits)
    ensures Or(x, y, bits) == 0 <==> x == 0 && y == 0
    ensures Or(x, y, bits) < Pow2(bits)
  {
    if bits > 0 {
      OrIsZeroIff(x / 2, y / 2, bits - 1);
    }
  }

  /** The constant-time comparison: zero exactly when every byte is the pad length. */
  method Mismatches(bytes: Bytes, paddingLen: u8) returns (mismatched: nat)
    ensures mismatched == 0 <==> bytes == Repeat(paddingLen, |bytes|)
  {
    mismatched := 0;
    assert Pow2(8) == 0x100;
    for i := 0 to |bytes|
      invariant mismatched < Pow2(8)
      invariant mismatched == 0 <==> forall k :: 0 <= k < i ==> bytes[k] == paddingLen
    {
      XorIsZeroIff(bytes[i], paddingLen, 8);
      OrIsZeroIff(mismatched, Xor(bytes[i], paddingLen, 8), 8);
      mismatched := Or(mismatched, Xor(bytes[i], paddingLen, 8), 8);
    }
  }

  method Decrypt(suite: Suite, buf: ByteVec) returns (r: Result<()>)
    modifies buf
    ensures var spec := Decrypted(suite, old(buf.elems));
            r.Ok? == spec.Ok? && (r.Err? ==> r.error == Other) && (r.Ok? ==> buf.elems == spec.value)
  {
    if buf.elems == [] || |buf.elems| % 16 != 0 {
      return Err(Other);
    }
    TransformBlocks(suite.decryptBlock, buf);
    var paddingLen := buf.elems[|buf.elems| - 1];
    if 0 < paddingLen <= 16 {
      var dataLen := |buf.elems|;
      if dataLen >= paddingLen {
        var paddingStart := dataLen - paddingLen;
        var mismatched := Mismatches(buf.elems[paddingStart..], paddingLen);
        if mismatched == 0 {
          buf.Truncate(paddingStart);
          return Ok(());
        }
      }
    }
    return Err(Other);
  }
}
