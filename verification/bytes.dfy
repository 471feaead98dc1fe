/** Byte and 32-bit word helpers shared by the Deoxys-II model.

    Bytes are `bv8` and machine words are `bv32`, so a JavaScript store of a
    number into a `Buffer`/`Uint8Array` slot (which keeps the low 8 bits) and
    the `uint32_*` helpers (which keep the low 32 bits) are both modelled by
    the truncating bit-vector operators.  `DataView.getUint32(…, true)` and
    `Buffer.readUInt32LE` become `LoadLe32`, their big-endian counterparts
    `LoadBe32`, and the matching writes `StoreLe32` / `StoreBe32`.
 */
module Bytes {

  type byte = bv8
  type word = bv32

  /** A 128-bit block (also the size of a tweak, a tag and a sub-tweak key). */
  type Block = b: seq<byte> | |b| == 16 witness Zeros(16)

  /** Two consecutive blocks, as processed by the two-lane cipher calls. */
  type DoubleBlock = b: seq<byte> | |b| == 32 witness Zeros(32)

  function Zeros(n: nat): (r: seq<byte>)
    ensures |r| == n
    ensures forall i :: 0 <= i < n ==> r[i] == 0
  {
    seq(n, _ => 0)
  }

  /** `xorBytes(dst, a, b, n)` of deoxysii.js over the whole of `a` and `b`. */
  function Xor(a: seq<byte>, b: seq<byte>): (r: seq<byte>)
    requires |a| == |b|
    ensures |r| == |a|
    ensures forall i :: 0 <= i < |r| ==> r[i] == a[i] ^ b[i]
  {
    seq(|a|, i requires 0 <= i < |a| => a[i] ^ b[i])
  }

  lemma XorCancel(a: seq<byte>, b: seq<byte>)
    requires |a| == |b|
    ensures Xor(Xor(a, b), b) == a
  {
  }

  /** Xor with a fixed string is injective. */
  lemma XorCancelLeft(k: seq<byte>, a: seq<byte>, b: seq<byte>)
    requires |k| == |a| == |b| && Xor(k, a) == Xor(k, b)
    ensures a == b
  {
    forall i | 0 <= i < |a|
      ensures a[i] == b[i]
    {
      assert Xor(k, a)[i] == Xor(k, b)[i];
    }
  }

  lemma XorComm(a: seq<byte>, b: seq<byte>)
    requires |a| == |b|
    ensures Xor(a, b) == Xor(b, a)
  {
  }

  lemma XorAssoc(a: seq<byte>, b: seq<byte>, c: seq<byte>)
    requires |a| == |b| == |c|
    ensures Xor(Xor(a, b), c) == Xor(a, Xor(b, c))
  {
  }

  lemma XorZeros(a: seq<byte>)
    ensures Xor(a, Zeros(|a|)) == a
  {
  }

  /** XOR distributes over concatenation and slicing. */
  lemma XorAppend(a: seq<byte>, b: seq<byte>, c: seq<byte>, d: seq<byte>)
    requires |a| == |c| && |b| == |d|
    ensures Xor(a + b, c + d) == Xor(a, c) + Xor(b, d)
  {
  }

  lemma XorPrefix(a: seq<byte>, b: seq<byte>, n: nat)
    requires |a| == |b| && n <= |a|
    ensures Xor(a, b)[..n] == Xor(a[..n], b[..n])
    ensures Xor(a, b)[n..] == Xor(a[n..], b[n..])
  {
  }

  // ---------------------------------------------------------------------
  // Little-endian words (DataView.getUint32(off, true), readUInt32LE).
  // ---------------------------------------------------------------------

  function LoadLe32(b: seq<byte>, off: nat): (w: word)
    requires off + 4 <= |b|
  {
    (b[off] as word)
    | ((b[off + 1] as word) << 8)
    | ((b[off + 2] as word) << 16)
    | ((b[off + 3] as word) << 24)
  }

  /** The low byte of a word (a store into a byte slot). */
  function Lo8(w: word): byte
  {
    (w & 0xff) as byte
  }

  function StoreLe32(w: word): (r: seq<byte>)
    ensures |r| == 4
  {
    [Lo8(w), Lo8(w >> 8), Lo8(w >> 16), Lo8(w >> 24)]
  }

  /** Writing a word and reading it back gives the word. */
  lemma LoadStoreLe32(w: word)
    ensures LoadLe32(StoreLe32(w), 0) == w
  {
  }

  /** Reading four bytes as a word and writing it back gives the bytes. */
  lemma StoreLoadLe32(b: seq<byte>, off: nat)
    requires off + 4 <= |b|
    ensures StoreLe32(LoadLe32(b, off)) == b[off..off + 4]
  {
    var w := LoadLe32(b, off);
    var r := StoreLe32(w);
    assert r[0] == b[off];
    assert r[1] == b[off + 1];
    assert r[2] == b[off + 2];
    assert r[3] == b[off + 3];
  }

  lemma Lo8Xor(a: word, b: word)
    ensures Lo8(a ^ b) == Lo8(a) ^ Lo8(b)
  {
    assert (a ^ b) & 0xff == (a & 0xff) ^ (b & 0xff);
  }

  lemma StoreLe32Xor0(a: word, b: word)
    ensures StoreLe32(a ^ b)[0] == StoreLe32(a)[0] ^ StoreLe32(b)[0]
  {
    Lo8Xor(a, b);
  }

  lemma StoreLe32Xor1(a: word, b: word)
    ensures StoreLe32(a ^ b)[1] == StoreLe32(a)[1] ^ StoreLe32(b)[1]
  {
    assert (a ^ b) >> 8 == (a >> 8) ^ (b >> 8);
    Lo8Xor(a >> 8, b >> 8);
  }

  lemma StoreLe32Xor2(a: word, b: word)
    ensures StoreLe32(a ^ b)[2] == StoreLe32(a)[2] ^ StoreLe32(b)[2]
  {
    assert (a ^ b) >> 16 == (a >> 16) ^ (b >> 16);
    Lo8Xor(a >> 16, b >> 16);
  }

  lemma StoreLe32Xor3(a: word, b: word)
    ensures StoreLe32(a ^ b)[3] == StoreLe32(a)[3] ^ StoreLe32(b)[3]
  {
    assert (a ^ b) >> 24 == (a >> 24) ^ (b >> 24);
    Lo8Xor(a >> 24, b >> 24);
  }

  lemma Xor4(l: seq<byte>, x: seq<byte>, y: seq<byte>)
    requires |l| == 4 && |x| == 4 && |y| == 4
    requires l[0] == x[0] ^ y[0] && l[1] == x[1] ^ y[1]
    requires l[2] == x[2] ^ y[2] && l[3] == x[3] ^ y[3]
    ensures l == Xor(x, y)
  {
    var z := Xor(x, y);
    forall i | 0 <= i < 4
      ensures l[i] == z[i]
    {
      if i == 0 { } else if i == 1 { } else if i == 2 { } else { }
    }
  }

  /** The byte image of a word XOR is the XOR of the byte images. */
  lemma StoreLe32Xor(a: word, b: word)
    ensures StoreLe32(a ^ b) == Xor(StoreLe32(a), StoreLe32(b))
  {
    StoreLe32Xor0(a, b);
    StoreLe32Xor1(a, b);
    StoreLe32Xor2(a, b);
    StoreLe32Xor3(a, b);
    Xor4(StoreLe32(a ^ b), StoreLe32(a), StoreLe32(b));
  }

  /** Four little-endian words written one after the other (the
      `writeUInt32LE`/`setUint32(…, true)` sequences of the source). */
  function StoreLe4(w0: word, w1: word, w2: word, w3: word): (r: Block)
  {
    StoreLe32(w0) + StoreLe32(w1) + StoreLe32(w2) + StoreLe32(w3)
  }

  lemma StoreLe4Load(b: Block)
    ensures StoreLe4(LoadLe32(b, 0), LoadLe32(b, 4), LoadLe32(b, 8), LoadLe32(b, 12)) == b
  {
    StoreLoadLe32(b, 0);
    StoreLoadLe32(b, 4);
    StoreLoadLe32(b, 8);
    StoreLoadLe32(b, 12);
    Split16(b);
  }

  lemma Split16<T>(b: seq<T>)
    requires |b| == 16
    ensures b == b[0..4] + b[4..8] + b[8..12] + b[12..16]
  {
  }

  lemma LoadStoreLe4(w0: word, w1: word, w2: word, w3: word)
    ensures var b := StoreLe4(w0, w1, w2, w3);
            LoadLe32(b, 0) == w0 && LoadLe32(b, 4) == w1 && LoadLe32(b, 8) == w2 && LoadLe32(b, 12) == w3
  {
    var b := StoreLe4(w0, w1, w2, w3);
    LoadStoreLe32(w0);
    LoadStoreLe32(w1);
    LoadStoreLe32(w2);
    LoadStoreLe32(w3);
    assert b[0..4] == StoreLe32(w0);
    assert b[4..8] == StoreLe32(w1);
    assert b[8..12] == StoreLe32(w2);
    assert b[12..16] == StoreLe32(w3);
    LoadLe32Slice(b, 0);
    LoadLe32Slice(b, 4);
    LoadLe32Slice(b, 8);
    LoadLe32Slice(b, 12);
  }

  lemma LoadLe32Slice(b: seq<byte>, off: nat)
    requires off + 4 <= |b|
    ensures LoadLe32(b, off) == LoadLe32(b[off..off + 4], 0)
  {
  }

  lemma StoreLe4Xor(a0: word, a1: word, a2: word, a3: word, b0: word, b1: word, b2: word, b3: word)
    ensures StoreLe4(a0 ^ b0, a1 ^ b1, a2 ^ b2, a3 ^ b3)
         == Xor(StoreLe4(a0, a1, a2, a3), StoreLe4(b0, b1, b2, b3))
  {
    StoreLe32Xor(a0, b0);
    StoreLe32Xor(a1, b1);
    StoreLe32Xor(a2, b2);
    StoreLe32Xor(a3, b3);
    XorAppend(StoreLe32(a0), StoreLe32(a1), StoreLe32(b0), StoreLe32(b1));
    XorAppend(StoreLe32(a0) + StoreLe32(a1), StoreLe32(a2), StoreLe32(b0) + StoreLe32(b1), StoreLe32(b2));
    XorAppend(StoreLe32(a0) + StoreLe32(a1) + StoreLe32(a2), StoreLe32(a3),
              StoreLe32(b0) + StoreLe32(b1) + StoreLe32(b2), StoreLe32(b3));
  }

  /** Reading the little-endian word at `off`, xoring `a` into it and
      writing it back (`buf.writeUInt32LE(buf.readUInt32LE(off) ^ a, off)`)
      leaves the four bytes at `off` xored with the bytes of `a`. */
  lemma XorWordLe(b: seq<byte>, off: nat, a: word)
    requires off + 4 <= |b|
    ensures StoreLe32(LoadLe32(b, off) ^ a) == Xor(b[off..off + 4], StoreLe32(a))
  {
    XorWordBytes(b, off, a);
    XorDisplay4(b[off..off + 4], Lo8(a), Lo8(a >> 8), Lo8(a >> 16), Lo8(a >> 24));
  }

  /** The 16-byte tag update of the source: the four little-endian words
      of `b` are read, one word is xored into each, and they are written
      back.  This xors the words' little-endian bytes into the block. */
  lemma XorWordsLe(b: Block, a0: word, a1: word, a2: word, a3: word)
    ensures StoreLe32(LoadLe32(b, 0) ^ a0) + StoreLe32(LoadLe32(b, 4) ^ a1)
            + StoreLe32(LoadLe32(b, 8) ^ a2) + StoreLe32(LoadLe32(b, 12) ^ a3)
         == Xor(b, StoreLe32(a0) + StoreLe32(a1) + StoreLe32(a2) + StoreLe32(a3))
  {
    var x0, x1, x2, x3 := StoreLe32(LoadLe32(b, 0) ^ a0), StoreLe32(LoadLe32(b, 4) ^ a1),
                          StoreLe32(LoadLe32(b, 8) ^ a2), StoreLe32(LoadLe32(b, 12) ^ a3);
    var s0, s1, s2, s3 := StoreLe32(a0), StoreLe32(a1), StoreLe32(a2), StoreLe32(a3);
    assert x0 == Xor(b[0..4], s0) by { XorWordLe(b, 0, a0); }
    assert x1 == Xor(b[4..8], s1) by { XorWordLe(b, 4, a1); }
    assert x2 == Xor(b[8..12], s2) by { XorWordLe(b, 8, a2); }
    assert x3 == Xor(b[12..16], s3) by { XorWordLe(b, 12, a3); }
    XorQuarters(b, x0, x1, x2, x3, s0, s1, s2, s3);
  }

  /** Four quarters xored one by one make the whole block xored. */
  lemma XorQuarters(b: seq<byte>, x0: seq<byte>, x1: seq<byte>, x2: seq<byte>, x3: seq<byte>,
                    s0: seq<byte>, s1: seq<byte>, s2: seq<byte>, s3: seq<byte>)
    requires |b| == 16 && |s0| == |s1| == |s2| == |s3| == 4
    requires x0 == Xor(b[0..4], s0) && x1 == Xor(b[4..8], s1) && x2 == Xor(b[8..12], s2) && x3 == Xor(b[12..16], s3)
    ensures x0 + x1 + x2 + x3 == Xor(b, s0 + s1 + s2 + s3)
  {
    Split16(b);
    XorAppend(b[0..4], b[4..8], s0, s1);
    XorAppend(b[0..4] + b[4..8], b[8..12], s0 + s1, s2);
    XorAppend(b[0..4] + b[4..8] + b[8..12], b[12..16], s0 + s1 + s2, s3);
  }

  lemma XorWordBytes(b: seq<byte>, off: nat, a: word)
    requires off + 4 <= |b|
    ensures StoreLe32(LoadLe32(b, off) ^ a)
         == [b[off] ^ Lo8(a), b[off + 1] ^ Lo8(a >> 8), b[off + 2] ^ Lo8(a >> 16), b[off + 3] ^ Lo8(a >> 24)]
  {
  }

  lemma XorDisplay4(b: seq<byte>, s0: byte, s1: byte, s2: byte, s3: byte)
    requires |b| == 4
    ensures Xor(b, [s0, s1, s2, s3]) == [b[0] ^ s0, b[1] ^ s1, b[2] ^ s2, b[3] ^ s3]
  {
    var x := Xor(b, [s0, s1, s2, s3]);
    assert x[0] == b[0] ^ s0;
    assert x[1] == b[1] ^ s1;
    assert x[2] == b[2] ^ s2;
    assert x[3] == b[3] ^ s3;
  }

  // ---------------------------------------------------------------------
  // Big-endian words (readUInt32BE / writeUInt32BE).
  // ---------------------------------------------------------------------

  const Two32: int := 0x1_0000_0000

  function LoadBe32(b: seq<byte>, off: nat): (w: word)
    requires off + 4 <= |b|
  {
    ((b[off] as word) << 24)
    | ((b[off + 1] as word) << 16)
    | ((b[off + 2] as word) << 8)
    | (b[off + 3] as word)
  }

  function StoreBe32(w: word): (r: seq<byte>)
    ensures |r| == 4
  {
    [Lo8(w >> 24), Lo8(w >> 16), Lo8(w >> 8), Lo8(w)]
  }

  lemma LoadStoreBe32(w: word)
    ensures LoadBe32(StoreBe32(w), 0) == w
  {
  }

  lemma StoreLoadBe32(b: seq<byte>, off: nat)
    requires off + 4 <= |b|
    ensures StoreBe32(LoadBe32(b, off)) == b[off..off + 4]
  {
    var w := LoadBe32(b, off);
    var r := StoreBe32(w);
    assert r[0] == b[off];
    assert r[1] == b[off + 1];
    assert r[2] == b[off + 2];
    assert r[3] == b[off + 3];
  }

  /** Distinct words are written as distinct byte strings. */
  lemma StoreBe32Injective(a: word, b: word)
    requires StoreBe32(a) == StoreBe32(b)
    ensures a == b
  {
    LoadStoreBe32(a);
    LoadStoreBe32(b);
  }

  /** `writeUInt32BE(n)` of a JavaScript number `n`: Node throws a
      RangeError unless `0 <= n < 2^32`, so the callers establish that. */
  function BeCounter(n: nat): (r: seq<byte>)
    requires n < Two32
    ensures |r| == 4
  {
    StoreBe32(n as word)
  }
}
