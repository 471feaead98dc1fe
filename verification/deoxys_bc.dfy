/** Deoxys-BC-384 as deoxysii.js runs it: the block-cipher entry points
    `bcEncrypt`, `bcKeystreamx2`, `bcTagx1` and `bcTagx2` of the two
    implementations `implCt32` (on the bitsliced AES engine) and
    `implUnsafeVartime` (on a one-round AES primitive).

    `e` and `d` reach the cipher only through these four functions, so an
    implementation is a record of them.  The two-block entry points are
    meant to be two one-block calls; `Coherent` states that, and both
    implementations are proved to satisfy it. */
module DeoxysBC {
  import opened Bytes
  import opened AesRound
  import opened AesPack
  import opened AesLanes
  import opened Tweakey

  /** `impl`: the block-cipher calls of `e` and `d`.
      - `bcEncrypt(derivedKs, tweak, plaintext)` is the ciphertext block;
      - `bcKeystreamx2(derivedKs, tweak0, tweak1, nonce)` is two keystream blocks;
      - `bcTagx1(tag, derivedKs, tweak, plaintext)` is the updated tag;
      - `bcTagx2(tag, derivedKs, tweak0, tweak1, plaintext0, plaintext1)` likewise for two blocks. */
  datatype Impl = Impl(
    bcEncrypt: (DerivedKeys, Block, Block) -> Block,
    bcKeystreamx2: (DerivedKeys, Block, Block, Block) -> (Block, Block),
    bcTagx1: (Block, DerivedKeys, Block, Block) -> Block,
    bcTagx2: (Block, DerivedKeys, Block, Block, Block, Block) -> Block)

  /** `bcKeystreamx2` is `bcEncrypt` of the nonce under each tweak. */
  ghost predicate KeystreamCoherent(impl: Impl)
  {
    forall dks: DerivedKeys, t0: Block, t1: Block, n: Block ::
      impl.bcKeystreamx2(dks, t0, t1, n) == (impl.bcEncrypt(dks, t0, n), impl.bcEncrypt(dks, t1, n))
  }

  /** `bcTagx1` xors the encrypted block into the tag. */
  ghost predicate Tagx1Coherent(impl: Impl)
  {
    forall tag: Block, dks: DerivedKeys, t: Block, p: Block ::
      impl.bcTagx1(tag, dks, t, p) == Xor(tag, impl.bcEncrypt(dks, t, p))
  }

  /** `bcTagx2` xors both encrypted blocks into the tag. */
  ghost predicate Tagx2Coherent(impl: Impl)
  {
    forall tag: Block, dks: DerivedKeys, t0: Block, t1: Block, p0: Block, p1: Block ::
      Tagx2Xors(impl, tag, dks, t0, t1, p0, p1)
  }

  ghost predicate Tagx2Xors(impl: Impl, tag: Block, dks: DerivedKeys, t0: Block, t1: Block, p0: Block, p1: Block)
  {
    impl.bcTagx2(tag, dks, t0, t1, p0, p1) == Xor(Xor(tag, impl.bcEncrypt(dks, t0, p0)), impl.bcEncrypt(dks, t1, p1))
  }

  /** The two-block calls are two one-block calls, and a tag call xors the
      encrypted block into the tag. */
  ghost predicate Coherent(impl: Impl)
  {
    KeystreamCoherent(impl) && Tagx1Coherent(impl) && Tagx2Coherent(impl)
  }

  // ---------------------------------------------------------------------
  // implCt32
  // ---------------------------------------------------------------------

  /** `implCt32.bcEncrypt`: whitening with sub-tweak key 0, then sixteen
      full rounds (MixColumns in every round), on lane 0. */
  function Ct32Encrypt(dks: DerivedKeys, tweak: Block, p: Block): Block
  {
    Store4(Cipher(Load4(p), Load4Keys(SubTweakKeys(dks, tweak))))
  }

  /** `implCt32.bcKeystreamx2`: the nonce in both lanes (`rkeyOrtho`), each
      lane under its own tweak's sub-tweak keys. */
  function Ct32Keystreamx2(dks: DerivedKeys, t0: Block, t1: Block, nonce: Block): (Block, Block)
  {
    Store8(Cipher(RkeyOrtho(nonce), Load8Keys(SubTweakKeys(dks, t0), SubTweakKeys(dks, t1))))
  }

  /** `implCt32.bcTagx1`: the cipher state unpacked by `ortho`, and its even
      words (lane 0) read-xor-written into the tag's little-endian words,
      which xors their bytes into the tag (`Bytes.XorWordsLe`). */
  function Ct32Tagx1(tag: Block, dks: DerivedKeys, tweak: Block, p: Block): Block
  {
    var o := Ortho(Cipher(Load4(p), Load4Keys(SubTweakKeys(dks, tweak))));
    Xor(tag, StoreLe4(o.q0, o.q2, o.q4, o.q6))
  }

  /** `implCt32.bcTagx2`: `uint32.xor(tagN, q[2N], q[2N + 1])` folds the
      lane-0 word and then the lane-1 word into each tag word, which xors
      the bytes of both into the tag (`Bytes.XorWordsLe`, twice). */
  function Ct32Tagx2(tag: Block, dks: DerivedKeys, t0: Block, t1: Block, p0: Block, p1: Block): Block
  {
    var o := Ortho(Cipher(Load8(p0, p1), Load8Keys(SubTweakKeys(dks, t0), SubTweakKeys(dks, t1))));
    Xor(Xor(tag, StoreLe4(o.q0, o.q2, o.q4, o.q6)), StoreLe4(o.q1, o.q3, o.q5, o.q7))
  }

  const Ct32: Impl := Impl(
    (dks, t, p) => Ct32Encrypt(dks, t, p),
    (dks, t0, t1, n) => Ct32Keystreamx2(dks, t0, t1, n),
    (tag, dks, t, p) => Ct32Tagx1(tag, dks, t, p),
    (tag, dks, t0, t1, p0, p1) => Ct32Tagx2(tag, dks, t0, t1, p0, p1))

  /** `bcTagx2` leaves tag xor E(t0, p0) xor E(t1, p1): the same as two
      `bcTagx1` calls. */
  lemma Ct32Tagx2Xor(tag: Block, dks: DerivedKeys, t0: Block, t1: Block, p0: Block, p1: Block)
    ensures Ct32Tagx2(tag, dks, t0, t1, p0, p1)
         == Xor(Xor(tag, Ct32Encrypt(dks, t0, p0)), Ct32Encrypt(dks, t1, p1))
  {
    CipherTwoBlocks(p0, p1, SubTweakKeys(dks, t0), SubTweakKeys(dks, t1));
  }

  /** `bcKeystreamx2` outputs E(t0, nonce) followed by E(t1, nonce). */
  lemma Ct32Keystreamx2Pair(dks: DerivedKeys, t0: Block, t1: Block, nonce: Block)
    ensures Ct32Keystreamx2(dks, t0, t1, nonce) == (Ct32Encrypt(dks, t0, nonce), Ct32Encrypt(dks, t1, nonce))
  {
    RkeyOrthoLoad8(nonce);
    CipherTwoBlocks(nonce, nonce, SubTweakKeys(dks, t0), SubTweakKeys(dks, t1));
  }

  /** `implCt32` is coherent. */
  lemma Ct32Coherent()
    ensures Coherent(Ct32)
  {
    Ct32KeystreamCoherent();
    Ct32Tagx1Coherent();
    Ct32Tagx2Coherent();
  }

  /** `implCt32`'s bcTagx1 xors bcEncrypt of the block into the tag.  With
      `Ct32Tagx1` written as a byte `Xor`, the step from the source's
      word-wise read/xor/write is Bytes.XorWordsLe. */
  lemma Ct32Tagx1Coherent()
    ensures Tagx1Coherent(Ct32)
  {
    forall tag: Block, dks: DerivedKeys, t: Block, p: Block
      ensures Ct32.bcTagx1(tag, dks, t, p) == Xor(tag, Ct32.bcEncrypt(dks, t, p))
    {
      assert Ct32Tagx1(tag, dks, t, p) == Xor(tag, Ct32Encrypt(dks, t, p));
    }
  }

  lemma Ct32KeystreamCoherent()
    ensures KeystreamCoherent(Ct32)
  {
    forall dks: DerivedKeys, t0: Block, t1: Block, n: Block
      ensures Ct32.bcKeystreamx2(dks, t0, t1, n) == (Ct32.bcEncrypt(dks, t0, n), Ct32.bcEncrypt(dks, t1, n))
    {
      Ct32Keystreamx2Pair(dks, t0, t1, n);
    }
  }

  lemma Ct32Tagx2Coherent()
    ensures Tagx2Coherent(Ct32)
  {
    forall tag: Block, dks: DerivedKeys, t0: Block, t1: Block, p0: Block, p1: Block
      ensures Tagx2Xors(Ct32, tag, dks, t0, t1, p0, p1)
    {
      Ct32Tagx2Xor(tag, dks, t0, t1, p0, p1);
    }
  }

  // ---------------------------------------------------------------------
  // implUnsafeVartime
  // ---------------------------------------------------------------------

  /** Four big-endian state words. */
  datatype Words = Words(s0: word, s1: word, s2: word, s3: word)

  /** `unsafe.aesencVartime(s0, s1, s2, s3, stk)`: one AES round with
      MixColumns, under round key `stk`, on big-endian state words.  Its
      module is not part of this model, so it is a parameter. */
  type AesEnc = (Words, Block) -> Words

  function LoadBeWords(b: Block): Words
  {
    Words(LoadBe32(b, 0), LoadBe32(b, 4), LoadBe32(b, 8), LoadBe32(b, 12))
  }

  function StoreBeWords(s: Words): Block
  {
    StoreBe32(s.s0) + StoreBe32(s.s1) + StoreBe32(s.s2) + StoreBe32(s.s3)
  }

  /** Rounds `i .. 16` of the vartime loop. */
  function VartimeRounds(aesenc: AesEnc, stks: seq<Block>, i: nat, s: Words): Words
    requires 1 <= i && |stks| == NumRounds + 1
    decreases NumRounds + 1 - i
  {
    if i > NumRounds then s else VartimeRounds(aesenc, stks, i + 1, aesenc(s, stks[i]))
  }

  /** `implUnsafeVartime.bcEncrypt`: whitening with sub-tweak key 0 on the
      big-endian words, then one `aesencVartime` call per round. */
  function VartimeEncrypt(aesenc: AesEnc, dks: DerivedKeys, tweak: Block, p: Block): Block
  {
    var stks := SubTweakKeys(dks, tweak);
    var w, k := LoadBeWords(p), LoadBeWords(stks[0]);
    StoreBeWords(VartimeRounds(aesenc, stks, 1, Words(w.s0 ^ k.s0, w.s1 ^ k.s1, w.s2 ^ k.s2, w.s3 ^ k.s3)))
  }

  /** `implUnsafeVartime`: the two-block and tag calls are built from
      `bcEncrypt` (`xorBytes` into the tag). */
  function Vartime(aesenc: AesEnc): (impl: Impl)
    ensures Coherent(impl)
  {
    Impl(
      (dks, t, p) => VartimeEncrypt(aesenc, dks, t, p),
      (dks, t0, t1, n) => (VartimeEncrypt(aesenc, dks, t0, n), VartimeEncrypt(aesenc, dks, t1, n)),
      (tag, dks, t, p) => Xor(tag, VartimeEncrypt(aesenc, dks, t, p)),
      (tag, dks, t0, t1, p0, p1) => Xor(Xor(tag, VartimeEncrypt(aesenc, dks, t0, p0)), VartimeEncrypt(aesenc, dks, t1, p1)))
  }
}
