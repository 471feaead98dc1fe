/** The Deoxys-II-256-128 AEAD of deoxysii.js: the tweak encoders, the block
    walks of `e` and `d`, and the argument checks of the `AEAD` class.

    Every walk takes the block cipher as an `Impl` record, so the round trip
    holds whichever implementation (or any other function) is plugged in;
    only the relation to a one-block-at-a-time reference needs `Coherent`. */
module Aead {
  import opened Bytes
  import opened Results
  import opened Tweakey
  import opened DeoxysBC

  const KeySize: nat := 32
  const NonceSize: nat := 15
  const TagSize: nat := 16
  const BlockSize: nat := 16

  const PrefixADBlock: byte := 0x02
  const PrefixADFinal: byte := 0x06
  const PrefixMsgBlock: byte := 0x00
  const PrefixMsgFinal: byte := 0x04
  const PrefixTag: byte := 0x01
  const PrefixShift: nat := 4

  // ---------------------------------------------------------------------
  // Block numbers and tweaks
  // ---------------------------------------------------------------------

  /** The number of blocks, the last one possibly partial, a walk cuts `n`
      bytes into. */
  function NumBlocks(n: nat): nat
  {
    (n + BlockSize - 1) / BlockSize
  }

  /** Every block number of an `n`-byte walk from block 0 can be written by
      `writeUInt32BE`, which throws a RangeError from 2^32 on. */
  predicate Fits(n: nat)
  {
    NumBlocks(n) <= Two32
  }

  /** `encodeTagTweak(out, prefix, blockNr)`: `writeUInt32BE` puts the block
      number, below 2^32, into the last four bytes. */
  function TagTweak(prefix: byte, blockNr: nat): (t: Block)
    requires blockNr < Two32
    ensures t[0] == prefix << PrefixShift
    ensures t[1..12] == Zeros(11)
    ensures t[12..] == BeCounter(blockNr)
  {
    [prefix << PrefixShift] + Zeros(11) + BeCounter(blockNr)
  }

  /** `encodeEncTweak(out, tag, blockNr)`; `tag` itself is a value and so
      stays as it was. */
  function EncTweak(tag: Block, blockNr: nat): (t: Block)
    requires blockNr < Two32
    ensures t[0] == tag[0] | 0x80
    ensures t[1..12] == tag[1..12]
    ensures t[12..] == Xor(tag[12..], BeCounter(blockNr))
  {
    [tag[0] | 0x80] + tag[1..12] + Xor(tag[12..], BeCounter(blockNr))
  }

  /** Tag tweaks of distinct (prefix, block number) pairs differ: the four
      prefixes keep the AD and message blocks and their final blocks apart,
      and the 32-bit counter keeps the blocks of one kind apart. */
  lemma TagTweakInjective(p: byte, n: nat, p': byte, n': nat)
    requires p < 16 && p' < 16 && n < Two32 && n' < Two32
    ensures TagTweak(p, n) == TagTweak(p', n') <==> p == p' && n as word == n' as word
  {
    if TagTweak(p, n) == TagTweak(p', n') {
      assert TagTweak(p, n)[0] == TagTweak(p', n')[0];
      ShiftInjective(p, p');
      assert TagTweak(p, n)[12..] == TagTweak(p', n')[12..];
      StoreBe32Injective(n as word, n' as word);
    }
  }

  lemma ShiftInjective(p: byte, p': byte)
    requires p < 16 && p' < 16 && p << PrefixShift == p' << PrefixShift
    ensures p == p'
  {
  }

  /** Encryption tweaks under one tag differ from block to block. */
  lemma EncTweakInjective(tag: Block, n: nat, n': nat)
    requires n < Two32 && n' < Two32
    ensures EncTweak(tag, n) == EncTweak(tag, n') <==> n as word == n' as word
  {
    if EncTweak(tag, n) == EncTweak(tag, n') {
      assert EncTweak(tag, n)[12..] == EncTweak(tag, n')[12..];
      XorCancelLeft(tag[12..], BeCounter(n), BeCounter(n'));
      StoreBe32Injective(n as word, n' as word);
    }
  }

  /** An encryption tweak never equals a tag tweak: bit 7 of byte 0 is set
      in the first and clear in the second, whose prefixes are below 8. */
  lemma EncTweakNotTagTweak(tag: Block, n: nat, p: byte, m: nat)
    requires n < Two32 && m < Two32 && p < 8
    ensures EncTweak(tag, n) != TagTweak(p, m)
  {
    assert EncTweak(tag, n)[0] & 0x80 == 0x80;
    assert TagTweak(p, m)[0] & 0x80 == 0;
  }

  /** The encryption tweak gives back the tag it was made from. */
  lemma EncTweakTag(tag: Block, n: nat)
    requires n < Two32
    ensures var t := EncTweak(tag, n);
            [(t[0] & 0x7f) | (tag[0] & 0x80)] + t[1..12] + Xor(t[12..], BeCounter(n)) == tag
  {
    var t := EncTweak(tag, n);
    XorCancel(tag[12..], BeCounter(n));
    assert (t[0] & 0x7f) | (tag[0] & 0x80) == tag[0];
    assert tag == [tag[0]] + tag[1..12] + tag[12..];
  }

  /** The final partial block: the `r` remaining bytes, 0x80 at position
      `r`, then zeros (`aStar` and `mStar`). */
  function Pad(partial: seq<byte>): (b: Block)
    requires 0 < |partial| < BlockSize
    ensures b[..|partial|] == partial && b[|partial|] == 0x80
    ensures forall k :: |partial| < k < BlockSize ==> b[k] == 0
  {
    partial + [0x80] + Zeros(BlockSize - 1 - |partial|)
  }

  /** Distinct partial blocks pad to distinct blocks. */
  lemma PadInjective(a: seq<byte>, b: seq<byte>)
    requires 0 < |a| < BlockSize && 0 < |b| < BlockSize
    ensures Pad(a) == Pad(b) <==> a == b
  {
    if Pad(a) == Pad(b) {
      assert a == Pad(a)[..|a|];
    }
  }

  // ---------------------------------------------------------------------
  // The authentication walk
  // ---------------------------------------------------------------------

  /** One authentication phase of `e`/`d` over `data`, from block number
      `i`: two-block `bcTagx2` calls while 32 bytes remain, then a one-block
      `bcTagx1` call while 16 remain, then the padded partial block under the
      final prefix.  Each step numbers its blocks after the previous one. */
  function AuthWalk(impl: Impl, dks: DerivedKeys, pBlock: byte, pFinal: byte, auth: Block, data: seq<byte>, i: nat): (r: Block)
    requires i + NumBlocks(|data|) <= Two32
    ensures |data| == 0 ==> r == auth
    decreases |data|
  {
    if |data| >= 2 * BlockSize then
      var auth' := impl.bcTagx2(auth, dks, TagTweak(pBlock, i), TagTweak(pBlock, i + 1), data[..16], data[16..32]);
      AuthWalk(impl, dks, pBlock, pFinal, auth', data[32..], i + 2)
    else if |data| >= BlockSize then
      var auth' := impl.bcTagx1(auth, dks, TagTweak(pBlock, i), data[..16]);
      AuthWalk(impl, dks, pBlock, pFinal, auth', data[16..], i + 1)
    else if |data| > 0 then
      impl.bcTagx1(auth, dks, TagTweak(pFinal, i), Pad(data))
    else
      auth
  }

  /** The reference: one block at a time, block `k` of `data` encrypted
      under the tag tweak numbered `i + k` and xored into the accumulator. */
  function AuthFold(enc: (DerivedKeys, Block, Block) -> Block, dks: DerivedKeys, pBlock: byte, pFinal: byte,
                    auth: Block, data: seq<byte>, i: nat): Block
    requires i + NumBlocks(|data|) <= Two32
    decreases |data|
  {
    if |data| >= BlockSize then
      AuthFold(enc, dks, pBlock, pFinal, Xor(auth, enc(dks, TagTweak(pBlock, i), data[..16])), data[16..], i + 1)
    else if |data| > 0 then
      Xor(auth, enc(dks, TagTweak(pFinal, i), Pad(data)))
    else
      auth
  }

  /** With a coherent implementation the two-block steps of the walk are two
      one-block steps, so the walk is the reference fold. */
  lemma {:induction false} AuthWalkFold(impl: Impl, dks: DerivedKeys, pBlock: byte, pFinal: byte, auth: Block, data: seq<byte>, i: nat)
    requires i + NumBlocks(|data|) <= Two32
    requires Tagx1Coherent(impl) && Tagx2Coherent(impl)
    ensures AuthWalk(impl, dks, pBlock, pFinal, auth, data, i) == AuthFold(impl.bcEncrypt, dks, pBlock, pFinal, auth, data, i)
    decreases |data|
  {
    var enc := impl.bcEncrypt;
    if |data| >= 2 * BlockSize {
      var auth' := Xor(Xor(auth, enc(dks, TagTweak(pBlock, i), data[..16])), enc(dks, TagTweak(pBlock, i + 1), data[16..32]));
      AuthWalkTwo(impl, dks, pBlock, pFinal, auth, data, i);
      AuthFoldTwo(enc, dks, pBlock, pFinal, auth, data, i);
      AuthWalkFold(impl, dks, pBlock, pFinal, auth', data[32..], i + 2);
    } else if |data| >= BlockSize {
      var auth' := Xor(auth, enc(dks, TagTweak(pBlock, i), data[..16]));
      AuthWalkOne(impl, dks, pBlock, pFinal, auth, data, i);
      AuthWalkFold(impl, dks, pBlock, pFinal, auth', data[16..], i + 1);
    }
  }

  lemma NumBlocksStep(n: nat)
    requires n >= BlockSize
    ensures NumBlocks(n) == NumBlocks(n - BlockSize) + 1
  {
  }

  /** A `bcTagx2` step of the walk is two xors. */
  lemma AuthWalkTwo(impl: Impl, dks: DerivedKeys, pBlock: byte, pFinal: byte, auth: Block, data: seq<byte>, i: nat)
    requires i + NumBlocks(|data|) <= Two32 && |data| >= 2 * BlockSize
    requires Tagx2Coherent(impl)
    ensures i + 2 + NumBlocks(|data| - 2 * BlockSize) <= Two32
    ensures AuthWalk(impl, dks, pBlock, pFinal, auth, data, i)
         == AuthWalk(impl, dks, pBlock, pFinal,
              Xor(Xor(auth, impl.bcEncrypt(dks, TagTweak(pBlock, i), data[..16])), impl.bcEncrypt(dks, TagTweak(pBlock, i + 1), data[16..32])),
              data[32..], i + 2)
  {
    NumBlocksStep(|data|);
    NumBlocksStep(|data| - BlockSize);
    assert Tagx2Xors(impl, auth, dks, TagTweak(pBlock, i), TagTweak(pBlock, i + 1), data[..16], data[16..32]);
  }

  /** A `bcTagx1` step of the walk is one xor. */
  lemma AuthWalkOne(impl: Impl, dks: DerivedKeys, pBlock: byte, pFinal: byte, auth: Block, data: seq<byte>, i: nat)
    requires i + NumBlocks(|data|) <= Two32 && BlockSize <= |data| < 2 * BlockSize
    requires Tagx1Coherent(impl)
    ensures i + 1 + NumBlocks(|data| - BlockSize) <= Two32
    ensures AuthWalk(impl, dks, pBlock, pFinal, auth, data, i)
         == AuthWalk(impl, dks, pBlock, pFinal, Xor(auth, impl.bcEncrypt(dks, TagTweak(pBlock, i), data[..16])), data[16..], i + 1)
  {
    NumBlocksStep(|data|);
  }

  /** Two steps of the reference fold. */
  lemma AuthFoldTwo(enc: (DerivedKeys, Block, Block) -> Block, dks: DerivedKeys, pBlock: byte, pFinal: byte,
                    auth: Block, data: seq<byte>, i: nat)
    requires i + NumBlocks(|data|) <= Two32 && |data| >= 2 * BlockSize
    ensures i + 2 + NumBlocks(|data| - 2 * BlockSize) <= Two32
    ensures AuthFold(enc, dks, pBlock, pFinal, auth, data, i)
         == AuthFold(enc, dks, pBlock, pFinal,
              Xor(Xor(auth, enc(dks, TagTweak(pBlock, i), data[..16])), enc(dks, TagTweak(pBlock, i + 1), data[16..32])),
              data[32..], i + 2)
  {
    NumBlocksStep(|data|);
    NumBlocksStep(|data| - BlockSize);
    assert data[16..][..16] == data[16..32];
    assert data[16..][16..] == data[32..];
  }

  /** The tag of `e` and `d`: one accumulator from 16 zero bytes through the
      AD phase and then the message phase, encrypted under the tweak
      `0x10 ‖ nonce`. */
  function Authenticate(impl: Impl, dks: DerivedKeys, nonce: seq<byte>, ad: seq<byte>, msg: seq<byte>): (tag: Block)
    requires |nonce| == NonceSize && Fits(|ad|) && Fits(|msg|)
  {
    var auth := AuthWalk(impl, dks, PrefixADBlock, PrefixADFinal, ZeroBlock, ad, 0);
    var auth := AuthWalk(impl, dks, PrefixMsgBlock, PrefixMsgFinal, auth, msg, 0);
    impl.bcEncrypt(dks, TagNonce(nonce), auth)
  }

  /** `encNonce` when the tag is made: `prefixTag << prefixShift`, then the
      nonce. */
  function TagNonce(nonce: seq<byte>): (b: Block)
    requires |nonce| == NonceSize
    ensures b[0] == 0x10 && b[1..] == nonce
  {
    [PrefixTag << PrefixShift] + nonce
  }

  /** `encNonce`/`decNonce` during encryption and decryption: a zero byte,
      then the nonce. */
  function EncNonce(nonce: seq<byte>): (b: Block)
    requires |nonce| == NonceSize
    ensures b[0] == 0 && b[1..] == nonce
  {
    [0] + nonce
  }

  /** With a coherent implementation the tag is the tag-tweak encryption of
      the reference fold over the AD and then the message. */
  lemma AuthenticateFold(impl: Impl, dks: DerivedKeys, nonce: seq<byte>, ad: seq<byte>, msg: seq<byte>)
    requires |nonce| == NonceSize && Fits(|ad|) && Fits(|msg|)
    requires Tagx1Coherent(impl) && Tagx2Coherent(impl)
    ensures Authenticate(impl, dks, nonce, ad, msg)
         == impl.bcEncrypt(dks, TagNonce(nonce),
              AuthFold(impl.bcEncrypt, dks, PrefixMsgBlock, PrefixMsgFinal,
                AuthFold(impl.bcEncrypt, dks, PrefixADBlock, PrefixADFinal, ZeroBlock, ad, 0), msg, 0))
  {
    AuthWalkFold(impl, dks, PrefixADBlock, PrefixADFinal, ZeroBlock, ad, 0);
    var auth := AuthWalk(impl, dks, PrefixADBlock, PrefixADFinal, ZeroBlock, ad, 0);
    AuthWalkFold(impl, dks, PrefixMsgBlock, PrefixMsgFinal, auth, msg, 0);
  }

  // ---------------------------------------------------------------------
  // The encryption walk
  // ---------------------------------------------------------------------

  /** The keystream of the encryption phase of `e` (and the decryption
      phase of `d`) for `n` bytes from block number `j`: `bcKeystreamx2`
      while 32 bytes remain, then `bcEncrypt` while 16 remain, then
      `bcEncrypt` for the partial block, of which only the first bytes are
      used.  Each block is the nonce block encrypted under
      `encodeEncTweak(tag, j)`; nothing else goes in. */
  function Keystream(impl: Impl, dks: DerivedKeys, tag: Block, nonceBlock: Block, n: nat, j: nat): (ks: seq<byte>)
    requires j + NumBlocks(n) <= Two32
    ensures |ks| == n
    decreases n
  {
    if n >= 2 * BlockSize then
      var (k0, k1) := impl.bcKeystreamx2(dks, EncTweak(tag, j), EncTweak(tag, j + 1), nonceBlock);
      k0 + k1 + Keystream(impl, dks, tag, nonceBlock, n - 32, j + 2)
    else if n >= BlockSize then
      impl.bcEncrypt(dks, EncTweak(tag, j), nonceBlock) + Keystream(impl, dks, tag, nonceBlock, n - 16, j + 1)
    else if n > 0 then
      impl.bcEncrypt(dks, EncTweak(tag, j), nonceBlock)[..n]
    else
      []
  }

  /** The walk itself: each chunk of `data` xored with its keystream chunk
      (`xorBytes` into `dst`). */
  function KeystreamXor(impl: Impl, dks: DerivedKeys, tag: Block, nonceBlock: Block, data: seq<byte>): (out: seq<byte>)
    requires NumBlocks(|data|) <= Two32
    ensures |out| == |data|
  {
    Xor(data, Keystream(impl, dks, tag, nonceBlock, |data|, 0))
  }

  /** The keystream depends only on the tag, the nonce block, the block
      numbers and the length, so running the walk twice gives the data back:
      this is why `d` decrypts what `e` encrypted. */
  lemma KeystreamXorInvolution(impl: Impl, dks: DerivedKeys, tag: Block, nonceBlock: Block, data: seq<byte>)
    requires NumBlocks(|data|) <= Two32
    ensures KeystreamXor(impl, dks, tag, nonceBlock, KeystreamXor(impl, dks, tag, nonceBlock, data)) == data
  {
    XorCancel(data, Keystream(impl, dks, tag, nonceBlock, |data|, 0));
  }

  /** The reference: one keystream block per data block, block `k` being
      the nonce block encrypted under `encodeEncTweak(tag, j + k)`. */
  function KeystreamFold(enc: (DerivedKeys, Block, Block) -> Block, dks: DerivedKeys, tag: Block, nonceBlock: Block,
                         n: nat, j: nat): (ks: seq<byte>)
    requires j + NumBlocks(n) <= Two32
    ensures |ks| == n
    decreases n
  {
    if n >= BlockSize then
      enc(dks, EncTweak(tag, j), nonceBlock) + KeystreamFold(enc, dks, tag, nonceBlock, n - 16, j + 1)
    else if n > 0 then
      enc(dks, EncTweak(tag, j), nonceBlock)[..n]
    else
      []
  }

  /** With a coherent `bcKeystreamx2` the keystream is the reference:
      consecutive block numbers across the two-block, one-block and partial
      phases. */
  lemma {:induction false} KeystreamIsFold(impl: Impl, dks: DerivedKeys, tag: Block, nonceBlock: Block, n: nat, j: nat)
    requires j + NumBlocks(n) <= Two32
    requires KeystreamCoherent(impl)
    ensures Keystream(impl, dks, tag, nonceBlock, n, j) == KeystreamFold(impl.bcEncrypt, dks, tag, nonceBlock, n, j)
    decreases n
  {
    if n >= 2 * BlockSize {
      KeystreamTwo(impl, dks, tag, nonceBlock, n, j);
      KeystreamFoldTwo(impl.bcEncrypt, dks, tag, nonceBlock, n, j);
      KeystreamIsFold(impl, dks, tag, nonceBlock, n - 32, j + 2);
    } else if n >= BlockSize {
      NumBlocksStep(n);
      KeystreamIsFold(impl, dks, tag, nonceBlock, n - 16, j + 1);
    }
  }

  /** A `bcKeystreamx2` step is two `bcEncrypt` blocks. */
  lemma KeystreamTwo(impl: Impl, dks: DerivedKeys, tag: Block, nonceBlock: Block, n: nat, j: nat)
    requires j + NumBlocks(n) <= Two32 && n >= 2 * BlockSize
    requires KeystreamCoherent(impl)
    ensures j + 2 + NumBlocks(n - 2 * BlockSize) <= Two32
    ensures Keystream(impl, dks, tag, nonceBlock, n, j)
         == impl.bcEncrypt(dks, EncTweak(tag, j), nonceBlock) + impl.bcEncrypt(dks, EncTweak(tag, j + 1), nonceBlock)
            + Keystream(impl, dks, tag, nonceBlock, n - 32, j + 2)
  {
    NumBlocksStep(n);
    NumBlocksStep(n - BlockSize);
    assert impl.bcKeystreamx2(dks, EncTweak(tag, j), EncTweak(tag, j + 1), nonceBlock)
        == (impl.bcEncrypt(dks, EncTweak(tag, j), nonceBlock), impl.bcEncrypt(dks, EncTweak(tag, j + 1), nonceBlock));
  }

  /** Two steps of the reference keystream. */
  lemma KeystreamFoldTwo(enc: (DerivedKeys, Block, Block) -> Block, dks: DerivedKeys, tag: Block, nonceBlock: Block, n: nat, j: nat)
    requires j + NumBlocks(n) <= Two32 && n >= 2 * BlockSize
    ensures j + 2 + NumBlocks(n - 2 * BlockSize) <= Two32
    ensures KeystreamFold(enc, dks, tag, nonceBlock, n, j)
         == enc(dks, EncTweak(tag, j), nonceBlock) + enc(dks, EncTweak(tag, j + 1), nonceBlock)
            + KeystreamFold(enc, dks, tag, nonceBlock, n - 32, j + 2)
  {
    NumBlocksStep(n);
    NumBlocksStep(n - BlockSize);
    var k0: seq<byte>, k1: seq<byte> := enc(dks, EncTweak(tag, j), nonceBlock), enc(dks, EncTweak(tag, j + 1), nonceBlock);
    var rest := KeystreamFold(enc, dks, tag, nonceBlock, n - 32, j + 2);
    assert k0 + k1 + rest == k0 + (k1 + rest);
  }

  // ---------------------------------------------------------------------
  // e and d
  // ---------------------------------------------------------------------

  /** `e(impl, derivedKs, nonce, dst, ad, msg)`: the ciphertext followed by
      the tag.  The message is encrypted under the nonce block `0 ‖ nonce`
      with tweaks made from the tag. */
  function E(impl: Impl, dks: DerivedKeys, nonce: seq<byte>, ad: seq<byte>, msg: seq<byte>): (ct: seq<byte>)
    requires |nonce| == NonceSize && Fits(|ad|) && Fits(|msg|)
    ensures |ct| == |msg| + TagSize
    ensures ct[|msg|..] == Authenticate(impl, dks, nonce, ad, msg)
  {
    var tag := Authenticate(impl, dks, nonce, ad, msg);
    KeystreamXor(impl, dks, tag, EncNonce(nonce), msg) + tag
  }

  /** `d(impl, derivedKs, nonce, dst, ad, ct)`: the decrypted message (the
      contents of `dst`) and whether the tag recomputed from it equals the
      last 16 bytes of `ct` (`timingSafeEqual`). */
  function D(impl: Impl, dks: DerivedKeys, nonce: seq<byte>, ad: seq<byte>, ct: seq<byte>): (r: (seq<byte>, bool))
    requires |nonce| == NonceSize && |ct| >= TagSize && Fits(|ad|) && Fits(|ct| - TagSize)
    ensures |r.0| == |ct| - TagSize
    ensures r.1 <==> Authenticate(impl, dks, nonce, ad, r.0) == ct[|ct| - TagSize..]
  {
    var ctLen := |ct| - TagSize;
    var tag: Block := ct[ctLen..];
    var msg := KeystreamXor(impl, dks, tag, EncNonce(nonce), ct[..ctLen]);
    (msg, Authenticate(impl, dks, nonce, ad, msg) == tag)
  }

  /** `d` undoes `e` and accepts its output. */
  lemma DE(impl: Impl, dks: DerivedKeys, nonce: seq<byte>, ad: seq<byte>, msg: seq<byte>)
    requires |nonce| == NonceSize && Fits(|ad|) && Fits(|msg|)
    ensures D(impl, dks, nonce, ad, E(impl, dks, nonce, ad, msg)) == (msg, true)
  {
    var tag := Authenticate(impl, dks, nonce, ad, msg);
    var ct := E(impl, dks, nonce, ad, msg);
    assert ct[..|msg|] == KeystreamXor(impl, dks, tag, EncNonce(nonce), msg);
    KeystreamXorInvolution(impl, dks, tag, EncNonce(nonce), msg);
  }

  /** With a coherent implementation, `e` xors the message with the
      reference keystream: block `k` is the nonce block `0 ‖ nonce`
      encrypted under the tweak made from the tag and block number `k`. */
  lemma EKeystream(impl: Impl, dks: DerivedKeys, nonce: seq<byte>, ad: seq<byte>, msg: seq<byte>)
    requires |nonce| == NonceSize && Fits(|ad|) && Fits(|msg|)
    requires KeystreamCoherent(impl)
    ensures E(impl, dks, nonce, ad, msg)[..|msg|]
         == Xor(msg, KeystreamFold(impl.bcEncrypt, dks, Authenticate(impl, dks, nonce, ad, msg), EncNonce(nonce), |msg|, 0))
  {
    var tag := Authenticate(impl, dks, nonce, ad, msg);
    KeystreamIsFold(impl, dks, tag, EncNonce(nonce), |msg|, 0);
    assert E(impl, dks, nonce, ad, msg)[..|msg|] == KeystreamXor(impl, dks, tag, EncNonce(nonce), msg);
  }

  /** With a coherent implementation, `d` xors the ciphertext body with the
      reference keystream made from the tag it was sent (the last 16 bytes). */
  lemma DKeystream(impl: Impl, dks: DerivedKeys, nonce: seq<byte>, ad: seq<byte>, ct: seq<byte>)
    requires |nonce| == NonceSize && |ct| >= TagSize && Fits(|ad|) && Fits(|ct| - TagSize)
    requires KeystreamCoherent(impl)
    ensures D(impl, dks, nonce, ad, ct).0
         == Xor(ct[..|ct| - TagSize], KeystreamFold(impl.bcEncrypt, dks, ct[|ct| - TagSize..], EncNonce(nonce), |ct| - TagSize, 0))
  {
    var ctLen := |ct| - TagSize;
    KeystreamIsFold(impl, dks, ct[ctLen..], EncNonce(nonce), ctLen, 0);
  }

  // ---------------------------------------------------------------------
  // The AEAD class
  // ---------------------------------------------------------------------

  datatype AeadError =
    | ErrKeySize    // 'deoxysii: invalid key size'
    | ErrNonceSize  // 'deoxysii: invalid nonce size'
    | ErrOpen       // 'deoxysii: message authentication failure'
    | ErrRange      // Node's RangeError from writeUInt32BE on a block number of 2^32 or more

  /** An `AEAD` instance: the chosen implementation and the key-only parts
      of the sub-tweak keys. */
  datatype AeadState = AeadState(impl: Impl, derivedKs: DerivedKeys)

  /** `new AEAD(key, useUnsafeVartime)`.  `aesencVartime` of the `unsafe`
      module, which is outside this model, is the `aesenc` parameter. */
  function NewAead(key: seq<byte>, useUnsafeVartime: bool, aesenc: AesEnc): (r: Result<AeadState, AeadError>)
    ensures r.Err? <==> |key| != KeySize
    ensures r.Err? ==> r.error == ErrKeySize
    ensures r.Ok? ==> r.value.derivedKs == DeriveK(key) && Coherent(r.value.impl)
    ensures r.Ok? ==> r.value.impl == (if useUnsafeVartime then Vartime(aesenc) else Ct32)
  {
    if |key| != KeySize then
      Err(ErrKeySize)
    else
      Ct32Coherent();
      Ok(AeadState(if useUnsafeVartime then Vartime(aesenc) else Ct32, DeriveK(key)))
  }

  /** A `null` argument reads as the empty buffer `zeroBuffer`. */
  function OrEmpty(b: Option<seq<byte>>): (r: seq<byte>)
    ensures b.Some? ==> r == b.value
    ensures b.None? ==> r == []
  {
    if b.Some? then b.value else []
  }

  /** `aead.encrypt(nonce, plaintext, associatedData)`. */
  function Encrypt(aead: AeadState, nonce: seq<byte>, plaintext: Option<seq<byte>>, ad: Option<seq<byte>>): (r: Result<seq<byte>, AeadError>)
    ensures |nonce| != NonceSize ==> r == Err(ErrNonceSize)
    ensures r.Err? ==> r.error in {ErrNonceSize, ErrRange}
    ensures r.Err? <==> |nonce| != NonceSize || !Fits(|OrEmpty(ad)|) || !Fits(|OrEmpty(plaintext)|)
    ensures r.Ok? ==> |r.value| == |OrEmpty(plaintext)| + TagSize
    ensures r.Ok? ==> r.value == E(aead.impl, aead.derivedKs, nonce, OrEmpty(ad), OrEmpty(plaintext))
  {
    if |nonce| != NonceSize then
      Err(ErrNonceSize)
    else
      var m, a := OrEmpty(plaintext), OrEmpty(ad);
      if !Fits(|a|) || !Fits(|m|) then
        Err(ErrRange)
      else
        Ok(E(aead.impl, aead.derivedKs, nonce, a, m))
  }

  /** `aead.decrypt(nonce, ciphertext, associatedData)`. */
  function Decrypt(aead: AeadState, nonce: seq<byte>, ciphertext: seq<byte>, ad: Option<seq<byte>>): (r: Result<seq<byte>, AeadError>)
    ensures |nonce| != NonceSize ==> r == Err(ErrNonceSize)
    ensures |nonce| == NonceSize && |ciphertext| < TagSize ==> r == Err(ErrOpen)
    ensures r.Err? ==> r.error in {ErrNonceSize, ErrOpen, ErrRange}
    ensures r == Err(ErrRange) <==>
              && |nonce| == NonceSize && |ciphertext| >= TagSize
              && (!Fits(|OrEmpty(ad)|) || !Fits(|ciphertext| - TagSize))
    ensures r.Ok? <==>
              && |nonce| == NonceSize && |ciphertext| >= TagSize
              && Fits(|OrEmpty(ad)|) && Fits(|ciphertext| - TagSize)
              && D(aead.impl, aead.derivedKs, nonce, OrEmpty(ad), ciphertext).1
    ensures r.Ok? ==>
              && |nonce| == NonceSize && |ciphertext| >= TagSize
              && Fits(|OrEmpty(ad)|) && Fits(|r.value|)
              && |r.value| == |ciphertext| - TagSize
              && r.value == D(aead.impl, aead.derivedKs, nonce, OrEmpty(ad), ciphertext).0
              && Authenticate(aead.impl, aead.derivedKs, nonce, OrEmpty(ad), r.value) == ciphertext[|ciphertext| - TagSize..]
  {
    if |nonce| != NonceSize then
      Err(ErrNonceSize)
    else if |ciphertext| < TagSize then
      Err(ErrOpen)
    else
      var a := OrEmpty(ad);
      if !Fits(|a|) || !Fits(|ciphertext| - TagSize) then
        Err(ErrRange)
      else
        var (m, ok) := D(aead.impl, aead.derivedKs, nonce, a, ciphertext);
        if ok then Ok(m) else Err(ErrOpen)
  }

  /** A tag that does not match the one recomputed from the decrypted
      message is refused with ErrOpen, and no plaintext comes out. */
  lemma DecryptRejects(aead: AeadState, nonce: seq<byte>, ciphertext: seq<byte>, ad: Option<seq<byte>>)
    requires |nonce| == NonceSize && |ciphertext| >= TagSize
    requires Fits(|OrEmpty(ad)|) && Fits(|ciphertext| - TagSize)
    requires var m := D(aead.impl, aead.derivedKs, nonce, OrEmpty(ad), ciphertext).0;
             Authenticate(aead.impl, aead.derivedKs, nonce, OrEmpty(ad), m) != ciphertext[|ciphertext| - TagSize..]
    ensures Decrypt(aead, nonce, ciphertext, ad) == Err(ErrOpen)
  {
  }

  /** Decryption of an encryption under the same nonce and AD gives the
      plaintext back, for every implementation. */
  lemma RoundTrip(aead: AeadState, nonce: seq<byte>, plaintext: Option<seq<byte>>, ad: Option<seq<byte>>)
    requires Encrypt(aead, nonce, plaintext, ad).Ok?
    ensures Decrypt(aead, nonce, Encrypt(aead, nonce, plaintext, ad).value, ad) == Ok(OrEmpty(plaintext))
  {
    DE(aead.impl, aead.derivedKs, nonce, OrEmpty(ad), OrEmpty(plaintext));
  }

  /** The converse: a ciphertext that decrypts to `m` is exactly what
      encrypting `m` under the same nonce and AD produces, so only
      encryptions are accepted. */
  lemma DecryptEncrypt(aead: AeadState, nonce: seq<byte>, ciphertext: seq<byte>, ad: Option<seq<byte>>, m: seq<byte>)
    requires Decrypt(aead, nonce, ciphertext, ad) == Ok(m)
    ensures Encrypt(aead, nonce, Some(m), ad) == Ok(ciphertext)
  {
    var ctLen := |ciphertext| - TagSize;
    var tag: Block := ciphertext[ctLen..];
    KeystreamXorInvolution(aead.impl, aead.derivedKs, tag, EncNonce(nonce), ciphertext[..ctLen]);
    assert ciphertext == ciphertext[..ctLen] + tag;
  }
}
