/** Lane independence of the bitsliced rounds.  The state carries two AES
    blocks side by side, lane 0 in the even bit positions and lane 1 in the
    odd ones; every round transformation works on the two lanes separately
    and treats them alike.  This is what lets `load8xU32`/`store8xU32`
    process two blocks at the cost of one. */
module AesLanes {
  import opened Bytes
  import opened AesRound
  import opened AesPack

  // ---------------------------------------------------------------------
  // Lane 0 alone: the word operations restricted to the even bits.
  // ---------------------------------------------------------------------

  /** NOT restricted to lane 0. */
  function Lane0Not(a: word): word
  {
    !a & OddsMask
  }

  const Lane0Ops: Ops<word> := Ops(WordXor, WordAnd, Lane0Not)

  lemma Lane0BvXor(a: word, b: word)
    ensures Lane0(a ^ b) == Lane0(a) ^ Lane0(b)
  {
  }

  lemma Lane0BvAnd(a: word, b: word)
    ensures Lane0(WordAnd(a, b)) == WordAnd(Lane0(a), Lane0(b))
  {
  }

  lemma Lane0BvNot(a: word)
    ensures Lane0(WordNot(a)) == Lane0Not(Lane0(a))
  {
  }

  lemma Lane0Idempotent(a: word)
    ensures Lane0(Lane0(a)) == Lane0(a)
  {
  }

  lemma Lane0Rot(a: word)
    ensures Lane0(Rot8(a)) == Rot8(Lane0(a))
    ensures Lane0(Rot16(a)) == Rot16(Lane0(a))
  {
  }

  lemma Lane0ShiftRows(a: word)
    ensures Lane0(ShiftRowsWord(a)) == ShiftRowsWord(Lane0(a))
  {
  }

  lemma Lane0XorAll()
    ensures forall a, b :: Lane0(WordXor(a, b)) == WordXor(Lane0(a), Lane0(b))
  {
    forall a, b ensures Lane0(WordXor(a, b)) == WordXor(Lane0(a), Lane0(b)) {
      Lane0BvXor(a, b);
    }
  }

  lemma Lane0AndAll()
    ensures forall a, b :: Lane0(WordAnd(a, b)) == WordAnd(Lane0(a), Lane0(b))
  {
    forall a, b ensures Lane0(WordAnd(a, b)) == WordAnd(Lane0(a), Lane0(b)) {
      Lane0BvAnd(a, b);
    }
  }

  lemma Lane0NotAll()
    ensures forall a :: Lane0(WordNot(a)) == Lane0Not(Lane0(a))
  {
    forall a ensures Lane0(WordNot(a)) == Lane0Not(Lane0(a)) {
      Lane0BvNot(a);
    }
  }

  lemma Lane0RotAll()
    ensures forall a :: Lane0(Rot8(a)) == Rot8(Lane0(a))
    ensures forall a :: Lane0(Rot16(a)) == Rot16(Lane0(a))
  {
    forall a ensures Lane0(Rot8(a)) == Rot8(Lane0(a)) && Lane0(Rot16(a)) == Rot16(Lane0(a)) {
      Lane0Rot(a);
    }
  }

  /** Lane 0 of a word determines lane 0 of every gate output. */
  lemma Lane0Hom()
    ensures IsHom(Lane0, WordOps, Lane0Ops)
  {
    Lane0XorAll();
    Lane0AndAll();
    Lane0NotAll();
  }

  lemma Lane0LinHom()
    ensures IsLinHom(Lane0, WordLin, WordLin)
  {
    Lane0XorAll();
    Lane0RotAll();
  }

  lemma Mask0Idempotent(q: State)
    ensures Mask0(Mask0(q)) == Mask0(q)
  {
    forall a ensures Lane0(Lane0(a)) == Lane0(a) {
      Lane0Idempotent(a);
    }
  }

  /** Lane 0 after SubBytes depends on lane 0 before it only. */
  lemma SubBytesMask0(q: State)
    ensures Mask0(SubBytes(q)) == BoyarPeralta(Lane0Ops, Mask0(q))
  {
    Lane0Hom();
    CircuitHom(Lane0, WordOps, Lane0Ops, q);
  }

  lemma ShiftRowsMask0(q: State)
    ensures Mask0(ShiftRows(q)) == ShiftRows(Mask0(q))
  {
    forall a ensures Lane0(ShiftRowsWord(a)) == ShiftRowsWord(Lane0(a)) {
      Lane0ShiftRows(a);
    }
    MapMapHom(Lane0, ShiftRowsWord, ShiftRowsWord, q);
  }

  lemma MixColumnsMask0(q: State)
    ensures Mask0(MixColumns(q)) == MixColumns(Mask0(q))
  {
    Lane0LinHom();
    MixColumnsHom(Lane0, WordLin, WordLin, q);
  }

  lemma AddRoundKeyMask0(q: State, sk: State)
    ensures Mask0(AddRoundKey(q, sk)) == AddRoundKey(Mask0(q), Mask0(sk))
  {
    Lane0XorAll();
    MapZipHom(Lane0, WordXor, WordXor, q, sk);
  }

  /** States that agree on lane 0 still agree on lane 0 after a round under
      round keys that agree on lane 0. */
  lemma RoundLane0(q: State, q': State, sk: State, sk': State)
    requires Mask0(q) == Mask0(q') && Mask0(sk) == Mask0(sk')
    ensures Mask0(Round(q, sk)) == Mask0(Round(q', sk'))
  {
    SubBytesMask0(q);
    SubBytesMask0(q');
    ShiftRowsMask0(SubBytes(q));
    ShiftRowsMask0(SubBytes(q'));
    MixColumnsMask0(ShiftRows(SubBytes(q)));
    MixColumnsMask0(ShiftRows(SubBytes(q')));
    AddRoundKeyMask0(MixColumns(ShiftRows(SubBytes(q))), sk);
    AddRoundKeyMask0(MixColumns(ShiftRows(SubBytes(q'))), sk');
  }

  lemma FinalRoundLane0(q: State, q': State, sk: State, sk': State)
    requires Mask0(q) == Mask0(q') && Mask0(sk) == Mask0(sk')
    ensures Mask0(FinalRound(q, sk)) == Mask0(FinalRound(q', sk'))
  {
    SubBytesMask0(q);
    SubBytesMask0(q');
    ShiftRowsMask0(SubBytes(q));
    ShiftRowsMask0(SubBytes(q'));
    AddRoundKeyMask0(ShiftRows(SubBytes(q)), sk);
    AddRoundKeyMask0(ShiftRows(SubBytes(q')), sk');
  }

  lemma AddRoundKeyLane0(q: State, q': State, sk: State, sk': State)
    requires Mask0(q) == Mask0(q') && Mask0(sk) == Mask0(sk')
    ensures Mask0(AddRoundKey(q, sk)) == Mask0(AddRoundKey(q', sk'))
  {
    AddRoundKeyMask0(q, sk);
    AddRoundKeyMask0(q', sk');
  }

  /** Two key sequences that agree on lane 0, key by key. */
  ghost predicate SameLane0(sks: seq<State>, sks': seq<State>)
  {
    |sks| == |sks'| && forall i :: 0 <= i < |sks| ==> Mask0(sks[i]) == Mask0(sks'[i])
  }

  lemma SameLane0Tail(sks: seq<State>, sks': seq<State>)
    requires SameLane0(sks, sks') && |sks| > 0
    ensures Mask0(sks[0]) == Mask0(sks'[0]) && SameLane0(sks[1..], sks'[1..])
  {
    forall i | 0 <= i < |sks| - 1 ensures Mask0(sks[1..][i]) == Mask0(sks'[1..][i]) {
      assert sks[1..][i] == sks[i + 1];
    }
  }

  /** A step that preserves agreement on lane 0 preserves it over any
      number of rounds. */
  lemma {:induction false} IterateLane0(f: (State, State) -> State, q: State, q': State, sks: seq<State>, sks': seq<State>)
    requires forall a, a', k, k' :: Mask0(a) == Mask0(a') && Mask0(k) == Mask0(k') ==> Mask0(f(a, k)) == Mask0(f(a', k'))
    requires Mask0(q) == Mask0(q') && SameLane0(sks, sks')
    ensures Mask0(Iterate(f, q, sks)) == Mask0(Iterate(f, q', sks'))
    decreases |sks|
  {
    if |sks| > 0 {
      SameLane0Tail(sks, sks');
      IterateLane0(f, f(q, sks[0]), f(q', sks'[0]), sks[1..], sks'[1..]);
    }
  }

  /** Lane 0 of the output of the full rounds depends on lane 0 of the
      input state and of the round keys only. */
  lemma RoundsLane0(q: State, q': State, sks: seq<State>, sks': seq<State>)
    requires Mask0(q) == Mask0(q') && SameLane0(sks, sks')
    ensures Mask0(Rounds(q, sks)) == Mask0(Rounds(q', sks'))
  {
    forall a, a', k, k' | Mask0(a) == Mask0(a') && Mask0(k) == Mask0(k')
      ensures Mask0(Round(a, k)) == Mask0(Round(a', k'))
    {
      RoundLane0(a, a', k, k');
    }
    IterateLane0(Round, q, q', sks, sks');
  }

  // ---------------------------------------------------------------------
  // Exchanging the lanes commutes with every round transformation.
  // ---------------------------------------------------------------------

  lemma SwapBitsBvXor(a: word, b: word)
    ensures SwapBits(a ^ b) == SwapBits(a) ^ SwapBits(b)
  {
  }

  lemma SwapBitsBvAnd(a: word, b: word)
    ensures SwapBits(WordAnd(a, b)) == WordAnd(SwapBits(a), SwapBits(b))
  {
  }

  lemma SwapBitsBvNot(a: word)
    ensures SwapBits(WordNot(a)) == WordNot(SwapBits(a))
  {
  }

  lemma SwapBitsRot(a: word)
    ensures SwapBits(Rot8(a)) == Rot8(SwapBits(a))
    ensures SwapBits(Rot16(a)) == Rot16(SwapBits(a))
  {
  }

  lemma SwapBitsShiftRows(a: word)
    ensures SwapBits(ShiftRowsWord(a)) == ShiftRowsWord(SwapBits(a))
  {
  }

  lemma SwapBitsXorAll()
    ensures forall a, b :: SwapBits(WordXor(a, b)) == WordXor(SwapBits(a), SwapBits(b))
  {
    forall a, b ensures SwapBits(WordXor(a, b)) == WordXor(SwapBits(a), SwapBits(b)) {
      SwapBitsBvXor(a, b);
    }
  }

  lemma SwapBitsAndAll()
    ensures forall a, b :: SwapBits(WordAnd(a, b)) == WordAnd(SwapBits(a), SwapBits(b))
  {
    forall a, b ensures SwapBits(WordAnd(a, b)) == WordAnd(SwapBits(a), SwapBits(b)) {
      SwapBitsBvAnd(a, b);
    }
  }

  lemma SwapBitsNotAll()
    ensures forall a :: SwapBits(WordNot(a)) == WordNot(SwapBits(a))
  {
    forall a ensures SwapBits(WordNot(a)) == WordNot(SwapBits(a)) {
      SwapBitsBvNot(a);
    }
  }

  lemma SwapBitsRotAll()
    ensures forall a :: SwapBits(Rot8(a)) == Rot8(SwapBits(a))
    ensures forall a :: SwapBits(Rot16(a)) == Rot16(SwapBits(a))
  {
    forall a ensures SwapBits(Rot8(a)) == Rot8(SwapBits(a)) && SwapBits(Rot16(a)) == Rot16(SwapBits(a)) {
      SwapBitsRot(a);
    }
  }

  /** Exchanging the lanes of the inputs exchanges them in every gate output. */
  lemma SwapBitsHom()
    ensures IsHom(SwapBits, WordOps, WordOps)
  {
    SwapBitsXorAll();
    SwapBitsAndAll();
    SwapBitsNotAll();
  }

  lemma SwapBitsLinHom()
    ensures IsLinHom(SwapBits, WordLin, WordLin)
  {
    SwapBitsXorAll();
    SwapBitsRotAll();
  }

  lemma SubBytesLaneSwap(q: State)
    ensures LaneSwap(SubBytes(q)) == SubBytes(LaneSwap(q))
  {
    SwapBitsHom();
    CircuitHom(SwapBits, WordOps, WordOps, q);
  }

  lemma ShiftRowsLaneSwap(q: State)
    ensures LaneSwap(ShiftRows(q)) == ShiftRows(LaneSwap(q))
  {
    forall a ensures SwapBits(ShiftRowsWord(a)) == ShiftRowsWord(SwapBits(a)) {
      SwapBitsShiftRows(a);
    }
    MapMapHom(SwapBits, ShiftRowsWord, ShiftRowsWord, q);
  }

  lemma MixColumnsLaneSwap(q: State)
    ensures LaneSwap(MixColumns(q)) == MixColumns(LaneSwap(q))
  {
    SwapBitsLinHom();
    MixColumnsHom(SwapBits, WordLin, WordLin, q);
  }

  lemma AddRoundKeyLaneSwap(q: State, sk: State)
    ensures LaneSwap(AddRoundKey(q, sk)) == AddRoundKey(LaneSwap(q), LaneSwap(sk))
  {
    SwapBitsXorAll();
    MapZipHom(SwapBits, WordXor, WordXor, q, sk);
  }

  lemma RoundLaneSwap(q: State, sk: State)
    ensures LaneSwap(Round(q, sk)) == Round(LaneSwap(q), LaneSwap(sk))
  {
    SubBytesLaneSwap(q);
    ShiftRowsLaneSwap(SubBytes(q));
    MixColumnsLaneSwap(ShiftRows(SubBytes(q)));
    AddRoundKeyLaneSwap(MixColumns(ShiftRows(SubBytes(q))), sk);
  }

  lemma FinalRoundLaneSwap(q: State, sk: State)
    ensures LaneSwap(FinalRound(q, sk)) == FinalRound(LaneSwap(q), LaneSwap(sk))
  {
    SubBytesLaneSwap(q);
    ShiftRowsLaneSwap(SubBytes(q));
    AddRoundKeyLaneSwap(ShiftRows(SubBytes(q)), sk);
  }

  /** Every round key with its lanes exchanged. */
  function LaneSwapAll(sks: seq<State>): (r: seq<State>)
    ensures |r| == |sks|
  {
    seq(|sks|, i requires 0 <= i < |sks| => LaneSwap(sks[i]))
  }

  lemma LaneSwapAllTail(sks: seq<State>)
    requires |sks| > 0
    ensures LaneSwapAll(sks)[0] == LaneSwap(sks[0]) && LaneSwapAll(sks)[1..] == LaneSwapAll(sks[1..])
  {
  }

  /** A step that commutes with exchanging the lanes does so over any
      number of rounds. */
  lemma {:induction false} IterateLaneSwap(f: (State, State) -> State, q: State, sks: seq<State>)
    requires forall a, k :: LaneSwap(f(a, k)) == f(LaneSwap(a), LaneSwap(k))
    ensures LaneSwap(Iterate(f, q, sks)) == Iterate(f, LaneSwap(q), LaneSwapAll(sks))
    decreases |sks|
  {
    if |sks| > 0 {
      LaneSwapAllTail(sks);
      IterateLaneSwap(f, f(q, sks[0]), sks[1..]);
    }
  }

  /** Exchanging the lanes of the state and of every round key exchanges
      the lanes of the output. */
  lemma RoundsLaneSwap(q: State, sks: seq<State>)
    ensures LaneSwap(Rounds(q, sks)) == Rounds(LaneSwap(q), LaneSwapAll(sks))
  {
    forall a, k ensures LaneSwap(Round(a, k)) == Round(LaneSwap(a), LaneSwap(k)) {
      RoundLaneSwap(a, k);
    }
    IterateLaneSwap(Round, q, sks);
  }

  // ---------------------------------------------------------------------
  // Two blocks in one state.
  // ---------------------------------------------------------------------

  /** Whitening with the first key, then one full round per further key:
      the round structure of Deoxys-BC, and of AES before its last round. */
  function Cipher(q: State, ks: seq<State>): State
    requires |ks| > 0
  {
    Rounds(AddRoundKey(q, ks[0]), ks[1..])
  }

  /** The AES cipher: `Cipher` with all keys but the last, then the final
      round (no MixColumns) with the last key. */
  function AesCipher(q: State, ks: seq<State>): State
    requires |ks| > 1
  {
    FinalRound(Cipher(q, ks[..|ks| - 1]), ks[|ks| - 1])
  }

  /** Round keys for two blocks: key `i` of `ks0` in lane 0 and key `i` of
      `ks1` in lane 1. */
  function Load8Keys(ks0: seq<Block>, ks1: seq<Block>): (r: seq<State>)
    requires |ks0| == |ks1|
    ensures |r| == |ks0|
  {
    seq(|ks0|, i requires 0 <= i < |ks0| => Load8(ks0[i], ks1[i]))
  }

  /** Round keys for one block, in lane 0. */
  function Load4Keys(ks: seq<Block>): (r: seq<State>)
    ensures |r| == |ks|
  {
    seq(|ks|, i requires 0 <= i < |ks| => Load4(ks[i]))
  }

  /** Lane 0 of the two-block keys is the one-block keys of `ks0`. */
  lemma Load8KeysLane0(ks0: seq<Block>, ks1: seq<Block>)
    requires |ks0| == |ks1|
    ensures SameLane0(Load8Keys(ks0, ks1), Load4Keys(ks0))
  {
    forall i | 0 <= i < |ks0|
      ensures Mask0(Load8Keys(ks0, ks1)[i]) == Mask0(Load4Keys(ks0)[i])
    {
      Load4Lane0(ks0[i], ks1[i]);
      Mask0Idempotent(Load8(ks0[i], ks1[i]));
    }
  }

  /** Exchanging the lanes of two-block keys exchanges the key sequences. */
  lemma Load8KeysSwap(ks0: seq<Block>, ks1: seq<Block>)
    requires |ks0| == |ks1|
    ensures LaneSwapAll(Load8Keys(ks0, ks1)) == Load8Keys(ks1, ks0)
  {
    forall i | 0 <= i < |ks0|
      ensures LaneSwapAll(Load8Keys(ks0, ks1))[i] == Load8Keys(ks1, ks0)[i]
    {
      Load8Swap(ks0[i], ks1[i]);
    }
  }

  lemma SameLane0Prefix(sks: seq<State>, sks': seq<State>, n: nat)
    requires SameLane0(sks, sks') && n <= |sks|
    ensures SameLane0(sks[..n], sks'[..n]) && SameLane0(sks[n..], sks'[n..])
  {
    forall i | 0 <= i < n ensures Mask0(sks[..n][i]) == Mask0(sks'[..n][i]) {
      assert sks[..n][i] == sks[i];
    }
    forall i | 0 <= i < |sks| - n ensures Mask0(sks[n..][i]) == Mask0(sks'[n..][i]) {
      assert sks[n..][i] == sks[n + i];
    }
  }

  lemma LaneSwapAllSlice(sks: seq<State>, n: nat)
    requires n <= |sks|
    ensures LaneSwapAll(sks)[..n] == LaneSwapAll(sks[..n])
    ensures LaneSwapAll(sks)[n..] == LaneSwapAll(sks[n..])
  {
  }

  /** Lane 0 of the output depends on lane 0 of the input and of the keys. */
  lemma CipherLane0(q: State, q': State, ks: seq<State>, ks': seq<State>)
    requires |ks| > 0 && Mask0(q) == Mask0(q') && SameLane0(ks, ks')
    ensures Mask0(Cipher(q, ks)) == Mask0(Cipher(q', ks'))
  {
    SameLane0Tail(ks, ks');
    AddRoundKeyLane0(q, q', ks[0], ks'[0]);
    RoundsLane0(AddRoundKey(q, ks[0]), AddRoundKey(q', ks'[0]), ks[1..], ks'[1..]);
  }

  /** Exchanging the lanes of input and keys exchanges those of the output. */
  lemma CipherLaneSwap(q: State, ks: seq<State>)
    requires |ks| > 0
    ensures LaneSwap(Cipher(q, ks)) == Cipher(LaneSwap(q), LaneSwapAll(ks))
  {
    LaneSwapAllTail(ks);
    AddRoundKeyLaneSwap(q, ks[0]);
    RoundsLaneSwap(AddRoundKey(q, ks[0]), ks[1..]);
  }

  lemma AesCipherLane0(q: State, q': State, ks: seq<State>, ks': seq<State>)
    requires |ks| > 1 && Mask0(q) == Mask0(q') && SameLane0(ks, ks')
    ensures Mask0(AesCipher(q, ks)) == Mask0(AesCipher(q', ks'))
  {
    var n := |ks| - 1;
    SameLane0Prefix(ks, ks', n);
    CipherLane0(q, q', ks[..n], ks'[..n]);
    assert ks[n..][0] == ks[n] && ks'[n..][0] == ks'[n];
    FinalRoundLane0(Cipher(q, ks[..n]), Cipher(q', ks'[..n]), ks[n], ks'[n]);
  }

  lemma AesCipherLaneSwap(q: State, ks: seq<State>)
    requires |ks| > 1
    ensures LaneSwap(AesCipher(q, ks)) == AesCipher(LaneSwap(q), LaneSwapAll(ks))
  {
    var n := |ks| - 1;
    LaneSwapAllSlice(ks, n);
    CipherLaneSwap(q, ks[..n]);
    FinalRoundLaneSwap(Cipher(q, ks[..n]), ks[n]);
  }

  /** Two blocks under two key sequences, processed together, give what
      each block gives alone: lane 0 holds the first result and lane 1 the
      second. */
  lemma CipherTwoBlocks(p0: Block, p1: Block, ks0: seq<Block>, ks1: seq<Block>)
    requires |ks0| == |ks1| > 0
    ensures Store8(Cipher(Load8(p0, p1), Load8Keys(ks0, ks1)))
         == (Store4(Cipher(Load4(p0), Load4Keys(ks0))), Store4(Cipher(Load4(p1), Load4Keys(ks1))))
  {
    CipherLane0Block(p0, p1, ks0, ks1);
    CipherLane0Block(p1, p0, ks1, ks0);
    var q := Cipher(Load8(p0, p1), Load8Keys(ks0, ks1));
    CipherLaneSwap(Load8(p0, p1), Load8Keys(ks0, ks1));
    Load8Swap(p0, p1);
    Load8KeysSwap(ks0, ks1);
    Store8Swap(q);
  }

  /** Lane 0 of the two-block computation is the first block's. */
  lemma CipherLane0Block(p0: Block, p1: Block, ks0: seq<Block>, ks1: seq<Block>)
    requires |ks0| == |ks1| > 0
    ensures Store8(Cipher(Load8(p0, p1), Load8Keys(ks0, ks1))).0 == Store4(Cipher(Load4(p0), Load4Keys(ks0)))
  {
    Load4Lane0(p0, p1);
    Mask0Idempotent(Load8(p0, p1));
    Load8KeysLane0(ks0, ks1);
    CipherLane0(Load8(p0, p1), Load4(p0), Load8Keys(ks0, ks1), Load4Keys(ks0));
    Store4Mask0(Cipher(Load8(p0, p1), Load8Keys(ks0, ks1)));
    Store4Mask0(Cipher(Load4(p0), Load4Keys(ks0)));
  }

  /** The AES cipher on two blocks with keys whose lanes agree gives what
      it gives on each block alone. */
  lemma AesCipherTwoBlocks(p0: Block, p1: Block, ks: seq<State>)
    requires |ks| > 1 && LaneSwapAll(ks) == ks
    ensures Store8(AesCipher(Load8(p0, p1), ks))
         == (Store4(AesCipher(Load4(p0), ks)), Store4(AesCipher(Load4(p1), ks)))
  {
    AesCipherLane0Block(p0, p1, ks);
    AesCipherLane0Block(p1, p0, ks);
    var q := AesCipher(Load8(p0, p1), ks);
    AesCipherLaneSwap(Load8(p0, p1), ks);
    Load8Swap(p0, p1);
    Store8Swap(q);
  }

  lemma AesCipherLane0Block(p0: Block, p1: Block, ks: seq<State>)
    requires |ks| > 1
    ensures Store8(AesCipher(Load8(p0, p1), ks)).0 == Store4(AesCipher(Load4(p0), ks))
  {
    Load4Lane0(p0, p1);
    Mask0Idempotent(Load8(p0, p1));
    AesCipherLane0(Load8(p0, p1), Load4(p0), ks, ks);
    Store4Mask0(AesCipher(Load8(p0, p1), ks));
    Store4Mask0(AesCipher(Load4(p0), ks));
  }
}
