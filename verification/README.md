# Deoxys-II-256-128 and its bitsliced AES, in Dafny

This project models the core of a JavaScript implementation of the
Deoxys-II-256-128 nonce-misuse-resistant AEAD (deoxysii.js) and of the
constant-time, bitsliced AES engine it is built on (src/aes.ts), and
proves properties of that model.

- **Bytes** (`bytes.dfy`): buffers as `seq<byte>`, `xorBytes`, and the
  little- and big-endian 32-bit loads and stores (`readUInt32LE`,
  `writeUInt32BE`, …).
- **AesRound** (`aes_round.dfy`): the bitsliced state of eight 32-bit
  words, `addRoundKey`, the Boyar–Peralta `subBytes` circuit, `shiftRows`
  and `mixColumns`, and one AES round.
- **AesPack** (`aes_pack.dfy`): `ortho`, `load4xU32`/`load8xU32`,
  `store4xU32`/`store8xU32`, `rkeyOrtho`, and the lane compression and
  expansion of `keySched` and `skeyExpand`.
- **AesLanes** (`aes_lanes.dfy`): the two 16-bit lanes of the bitsliced
  state. The full cipher on two blocks is the cipher on each block.
- **AesEcb** (`aes_ecb.dfy`): `keySched` with its FIPS 197 key
  expansion loop, `skeyExpand`, `_encrypt`, and the `ECB` class.
- **Tweakey** (`tweakey.dfy`): Deoxys-BC's TWEAKEY schedule. It covers
  `h`, `lfsr2`, `lfsr3`, `xorRC`, `stkDeriveK` and `deriveSubTweakKeys`.
- **DeoxysBC** (`deoxys_bc.dfy`): the block-cipher entry points
  (`bcEncrypt`, `bcKeystreamx2`, `bcTagx1`, `bcTagx2`) of `implCt32`
  and `implUnsafeVartime`.
- **Aead** (`aead.dfy`): covers the following.
  - `encodeTagTweak` and `encodeEncTweak`.
  - The authentication and encryption walks of `e` and `d`.
  - The `AEAD` class with its argument checks and errors.
- **Results** (`results.dfy`): `Result` and `Option`.

The main result is `Aead.RoundTrip`. Decrypting what `AEAD.encrypt`
produced, under the same nonce and associated data, gives back the
plaintext; conversely, whatever `decrypt` accepts is exactly what
`encrypt` produced (`Aead.DecryptEncrypt`). Both hold for any
implementation, whatever its block-cipher entry points compute, because
they need only that xoring the same keystream twice gives the data back
(`Aead.KeystreamXorInvolution`).

A separate result ties the two-block walks to one-block definitions:

1. The authentication walk, with its two-block steps, equals a
   one-block-at-a-time fold (`Aead.AuthWalkFold`, `Aead.AuthenticateFold`).
2. The keystream of `bcKeystreamx2` pairs and single blocks is one
   `bcEncrypt` per block (`Aead.KeystreamIsFold`, `Aead.EKeystream`,
   `Aead.DKeystream`).
3. Both need an implementation whose two-block calls compute two
   one-block encryptions. `implCt32` is such an implementation
   (`DeoxysBC.Ct32Coherent`), which rests on the bitsliced lanes being
   independent (`AesLanes.CipherTwoBlocks`).

The bitsliced AES engine is tied to FIPS 197 as follows:

- The round keys of `new ECB(key)` are the FIPS 197 key expansion loaded
  into both lanes (`AesEcb.NewEcbRoundKeys`).
- The expansion loop computes the unique expansion
  (`AesEcb.ScheduleWordsUnique`).
- `subBytes` applies one byte function to every byte
  (`AesRound.SubBytesSbox`), and that function is the FIPS 197 S-box,
  row by row (`AesRound.SboxRow0` to `AesRound.SboxRowF`).
- `shiftRows` moves every cell to its FIPS 197 place
  (`AesRound.ShiftRowsCells`).

## Model

| member | source | states |
|---|---|---|
| Bytes.XorWordLe | deoxysii.js:203-216 | Reading a tag word little-endian, xoring a 32-bit word into it and writing it back little-endian xors the word's four little-endian bytes into those four tag bytes. |
| Bytes.XorWordsLe | deoxysii.js:202-216 | bcTagx1's tag update (four readUInt32LE, one word xored into each, four writeUInt32LE) xors the 16 little-endian bytes of the four words into the tag, which is how Ct32Tagx1 and Ct32Tagx2 are written. |
| Bytes.StoreBe32Injective | deoxysii.js:306-310 | Two 32-bit block numbers written big-endian give the same four bytes only if they are equal. |
| AesRound.AddRoundKeyInvolution | src/aes.ts:62-71 | Adding the same round key twice gives the state back. |
| AesRound.AddRoundKeyCompose | src/aes.ts:62-71 | Adding key a and then key b is the same as adding a xor b. |
| AesRound.CircuitHom | src/aes.ts:74-229 | The S-box circuit commutes with any map that preserves xor, and and not. The bitsliced run is therefore the bitwise run on every bit position. |
| AesRound.SubBytesBitsliced | src/aes.ts:74-229 | Bit p of every output word of subBytes is the circuit applied to bit p of the eight input words. The 32 bit positions are processed independently. |
| AesRound.SubBytesSbox | src/aes.ts:74-229 | Every byte cell of the state (the eight bits at one bit position) goes through one and the same byte function, Sbox. |
| AesRound.SboxRow0 | src/aes.ts:74-229 | The subBytes circuit, read as a byte function, maps {00}..{0f} to row 0 of the FIPS 197 S-box table (Figure 7), from 0x63 to 0x76. |
| AesRound.SboxRow1 | src/aes.ts:74-229 | The subBytes circuit, read as a byte function, maps {10}..{1f} to row 1 of the FIPS 197 S-box table (Figure 7), from 0xca to 0xc0. |
| AesRound.SboxRow2 | src/aes.ts:74-229 | The subBytes circuit, read as a byte function, maps {20}..{2f} to row 2 of the FIPS 197 S-box table (Figure 7), from 0xb7 to 0x15. |
| AesRound.SboxRow3 | src/aes.ts:74-229 | The subBytes circuit, read as a byte function, maps {30}..{3f} to row 3 of the FIPS 197 S-box table (Figure 7), from 0x04 to 0x75. |
| AesRound.SboxRow4 | src/aes.ts:74-229 | The subBytes circuit, read as a byte function, maps {40}..{4f} to row 4 of the FIPS 197 S-box table (Figure 7), from 0x09 to 0x84. |
| AesRound.SboxRow5 | src/aes.ts:74-229 | The subBytes circuit, read as a byte function, maps {50}..{5f} to row 5 of the FIPS 197 S-box table (Figure 7), from 0x53 to 0xcf. |
| AesRound.SboxRow6 | src/aes.ts:74-229 | The subBytes circuit, read as a byte function, maps {60}..{6f} to row 6 of the FIPS 197 S-box table (Figure 7), from 0xd0 to 0xa8. |
| AesRound.SboxRow7 | src/aes.ts:74-229 | The subBytes circuit, read as a byte function, maps {70}..{7f} to row 7 of the FIPS 197 S-box table (Figure 7), from 0x51 to 0xd2. |
| AesRound.SboxRow8 | src/aes.ts:74-229 | The subBytes circuit, read as a byte function, maps {80}..{8f} to row 8 of the FIPS 197 S-box table (Figure 7), from 0xcd to 0x73. |
| AesRound.SboxRow9 | src/aes.ts:74-229 | The subBytes circuit, read as a byte function, maps {90}..{9f} to row 9 of the FIPS 197 S-box table (Figure 7), from 0x60 to 0xdb. |
| AesRound.SboxRowA | src/aes.ts:74-229 | The subBytes circuit, read as a byte function, maps {a0}..{af} to row a of the FIPS 197 S-box table (Figure 7), from 0xe0 to 0x79. |
| AesRound.SboxRowB | src/aes.ts:74-229 | The subBytes circuit, read as a byte function, maps {b0}..{bf} to row b of the FIPS 197 S-box table (Figure 7), from 0xe7 to 0x08. |
| AesRound.SboxRowC | src/aes.ts:74-229 | The subBytes circuit, read as a byte function, maps {c0}..{cf} to row c of the FIPS 197 S-box table (Figure 7), from 0xba to 0x8a. |
| AesRound.SboxRowD | src/aes.ts:74-229 | The subBytes circuit, read as a byte function, maps {d0}..{df} to row d of the FIPS 197 S-box table (Figure 7), from 0x70 to 0x9e. |
| AesRound.SboxRowE | src/aes.ts:74-229 | The subBytes circuit, read as a byte function, maps {e0}..{ef} to row e of the FIPS 197 S-box table (Figure 7), from 0xe1 to 0xdf. |
| AesRound.SboxRowF | src/aes.ts:74-229 | The subBytes circuit, read as a byte function, maps {f0}..{ff} to row f of the FIPS 197 S-box table (Figure 7), from 0x8c to 0x16. |
| AesRound.ShiftRowsMasksPartition | src/aes.ts:49-55 | The seven shiftRows masks partition the 32-bit word. So do the masks after their shifts in shiftRows, so shiftRows is a bit permutation. |
| AesRound.ShiftRowsCells | src/aes.ts:232-246 | After shiftRows, the bit of row r, column c in either lane comes from row r, column (c + r) mod 4 of the same lane. |
| AesRound.ShiftRowsInverse | src/aes.ts:232-246 | shiftRows has a two-sided inverse. |
| AesRound.ShiftRowsLinear | src/aes.ts:232-246 | shiftRows distributes over xor of states. |
| AesRound.MixColumnsLinear | src/aes.ts:249-297 | mixColumns distributes over xor of states. |
| AesRound.MixColumnsZero | src/aes.ts:249-297 | mixColumns maps the zero state to zero. |
| AesPack.OrthoInvolution | src/aes.ts:349-401 | ortho applied twice gives the state back. |
| AesPack.OrthoTranspose | src/aes.ts:349-401 | ortho is a bit transpose within each byte column: bit s of byte c of word k after ortho is bit k of byte c of word s before. |
| AesPack.OrthoZeroOdd | src/aes.ts:349-401 | Clearing the odd words before ortho is the same as clearing lane 1 after it. |
| AesPack.OrthoLaneSwap | src/aes.ts:349-401 | ortho of the lane-swapped state is ortho of the state with each even word swapped with the odd word after it. |
| AesPack.Store8Load8 | src/aes.ts:312-347 | store8xU32 after load8xU32 gives both input blocks back. |
| AesPack.Load8Store8 | src/aes.ts:312-347 | load8xU32 after store8xU32 gives the state back. |
| AesPack.Load4Lane0 | src/aes.ts:299-324 | load4xU32 of a block is load8xU32 of that block with the second lane cleared. |
| AesPack.Store4Load4 | src/aes.ts:299-333 | store4xU32 after load4xU32 gives the block back. |
| AesPack.Load4Store4 | src/aes.ts:299-333 | load4xU32 after store4xU32 keeps lane 0 of the state and clears lane 1. |
| AesPack.Load8Swap | src/aes.ts:312-324 | Loading the two blocks in swapped order swaps the two lanes. |
| AesPack.Load8Layout | src/aes.ts:312-324 | After load8xU32, bit k of byte 4c + r of block l (AES row r, column c) is bit 8r + 2c + l of state word k. |
| AesPack.CompressExpand | src/aes.ts:426-442 | Compressing the two words skeyExpand makes from a word gives that word back. |
| AesPack.ExpandCompress | src/aes.ts:509-514 | For a pair of lane-symmetric words, compressing and then expanding gives the pair back. |
| AesPack.ExpandLanes | src/aes.ts:426-442 | Both words skeyExpand makes have equal lanes. |
| AesPack.RkeyOrthoLoad8 | src/aes.ts:403-424 | rkeyOrtho of a block equals load8xU32 of that block in both lanes. |
| AesLanes.RoundLane0 | src/aes.ts:518-530 | Lane 0 of one full round depends only on lane 0 of the state and of the round key. |
| AesLanes.RoundLaneSwap | src/aes.ts:518-530 | A full round commutes with swapping the two lanes of state and key. |
| AesLanes.CipherLane0 | deoxysii.js:146-157 | Lane 0 of the whole cipher depends only on lane 0 of the input and of every round key. |
| AesLanes.CipherLaneSwap | deoxysii.js:146-157 | The whole cipher commutes with swapping the lanes of input and keys. |
| AesLanes.CipherTwoBlocks | deoxysii.js:167-181 | Two blocks loaded into the two lanes and run under two key schedules in those lanes come out as the one-block encryptions of each. |
| AesLanes.AesCipherTwoBlocks | src/aes.ts:518-530 | With lane-symmetric round keys, the two-lane AES cipher is the one-block AES cipher on each block. |
| AesEcb.NumRounds | src/aes.ts:456-471 | A key length is accepted exactly when it is 16, 24 or 32. The round count is then 10, 12 or 14 (length / 4 + 6). |
| AesEcb.RotWordBytes | src/aes.ts:483-501 | Byte k of the rotated key word is byte k + 1 (mod 4) of the word. |
| AesEcb.SubWordBytes | src/aes.ts:448-454 | _subWord, run through the bitsliced subBytes, puts every byte of the word through Sbox. |
| AesEcb.PositionNext | src/aes.ts:483-501 | The loop's counter update takes word i's position (index within its nk-word group, Rcon index) to word i + 1's position. |
| AesEcb.TempLoopTemp | src/aes.ts:483-501 | The temporary the loop builds from its counters is the FIPS 197 temporary of that word index: rotate, substitute and xor Rcon at the start of a group, substitute only in the middle of an 8-word group, unchanged otherwise. |
| AesEcb.ScheduleLoopIsExpansion | src/aes.ts:483-501 | Running the loop from any prefix of the key expansion yields a prefix of the key expansion. |
| AesEcb.ScheduleLoopUnique | src/aes.ts:483-501 | Any key expansion that starts with the loop's words is exactly what the loop computes. |
| AesEcb.ScheduleWords | src/aes.ts:472-501 | The expanded key holds 4 (nr + 1) words and is a FIPS 197 key expansion of the key's little-endian words. |
| AesEcb.ScheduleWordsUnique | src/aes.ts:472-501 | It is the only such expansion. |
| AesEcb.KeySched | src/aes.ts:456-516 | keySched succeeds exactly for 16-, 24- and 32-byte keys. It then returns length / 4 + 6 rounds and 4 (nr + 1) compressed key words. |
| AesEcb.SkeyExpandLanes | src/aes.ts:426-442 | Every word skeyExpand produces has equal lanes. |
| AesEcb.SkeyExpandCompress | src/aes.ts:426-442 | Compressing each pair skeyExpand produced gives the compressed schedule back. |
| AesEcb.CompressSkeyExpand | src/aes.ts:509-514 | A lane-symmetric expanded schedule is recovered by skeyExpand from its compressed form. |
| AesEcb.NewEcb | src/aes.ts:536-542 | new ECB(key) succeeds exactly for 16-, 24- and 32-byte keys. It then holds length / 4 + 6 rounds and an expanded schedule of at least 8 (nr + 1) words. |
| AesEcb.RoundKeyLoad8 | src/aes.ts:502-514 | Packing a round key with ortho, compressing it and expanding it again gives the round key's block loaded into both lanes. |
| AesEcb.NewEcbRoundKeys | src/aes.ts:502-508 | Round key u of new ECB(key) is the FIPS 197 round key u loaded into both lanes. |
| AesEcb.NewEcbLaneSwap | src/aes.ts:426-442 | Every round key of new ECB(key) is lane-symmetric. |
| AesEcb.EcbEncrypt2xPair | src/aes.ts:552-564 | encrypt2x(src0, src1) returns encrypt(src0) and encrypt(src1). |
| AesEcb.EcbEncryptBothLanes | src/aes.ts:544-564 | Encrypting a block through encrypt (lane 0 only) or through both lanes of encrypt2x gives the same ciphertext. |
| Tweakey.HInv | deoxysii.js:60-65 | h has a right inverse: h(HInv(t)) = t. |
| Tweakey.HInvH | deoxysii.js:60-65 | HInv undoes h, so the tweak permutation h is a bijection. |
| Tweakey.PowerInverse | deoxysii.js:116-125 | A map undone by g is undone n times by g applied n times. |
| Tweakey.PowerHInv | deoxysii.js:116-125 | Applying HInv i times undoes the i applications of h to the tweak in round i. |
| Tweakey.Lfsr3 | deoxysii.js:67-85 | lfsr3 has a right inverse: lfsr2(lfsr3(t)) = t. |
| Tweakey.Lfsr3Lfsr2 | deoxysii.js:67-85 | lfsr3 undoes lfsr2, so the two LFSRs are inverse permutations of each byte. |
| Tweakey.XorRCBytes | deoxysii.js:87-96 | xorRC xors 1, 2, 4, 8 and the round constant into bytes 0 to 7 and leaves bytes 8 to 15 alone. |
| Tweakey.XorRCInvolution | deoxysii.js:87-96 | xorRC with the same round index, applied twice, gives the block back. |
| Tweakey.DeriveLanes | deoxysii.js:98-114 | After the loop, entry i is the mix of i steps of the first lane and i steps of the second lane. |
| Tweakey.StkDeriveK | deoxysii.js:98-114 | Derived key i is (h o lfsr2)^i of key[16..32], xored with (h o lfsr3)^i of key[0..16] and with round constant i. |
| Tweakey.XorLane | deoxysii.js:116-125 | Entry i of the result is derived key i xored with i steps of the tweak lane. |
| Tweakey.DeriveSubTweakKeys | deoxysii.js:116-125 | Sub-tweak key i is derived key i xored with h^i(tweak). Undoing h i times on that xor recovers the tweak. |
| DeoxysBC.Ct32Tagx2Xor | deoxysii.js:219-254 | implCt32's bcTagx2 leaves tag xor E(t0, p0) xor E(t1, p1), as two bcTagx1 calls would. |
| DeoxysBC.Ct32Keystreamx2Pair | deoxysii.js:163-182 | implCt32's bcKeystreamx2 returns the encryptions of the nonce under each of the two tweaks. |
| DeoxysBC.Ct32Tagx1Coherent | deoxysii.js:184-217 | implCt32's bcTagx1 xors bcEncrypt of the block into the tag. |
| DeoxysBC.Ct32KeystreamCoherent | deoxysii.js:163-182 | For every input, bcKeystreamx2 is two bcEncrypt calls. |
| DeoxysBC.Ct32Tagx2Coherent | deoxysii.js:219-254 | For every input, bcTagx2 xors both bcEncrypt blocks into the tag. |
| DeoxysBC.Ct32Coherent | deoxysii.js:141-254 | implCt32's two-block and tag entry points are one-block encryptions. |
| DeoxysBC.Vartime | deoxysii.js:257-300 | implUnsafeVartime's two-block and tag entry points are one-block encryptions, whatever the one-round primitive is. |
| Aead.TagTweak | deoxysii.js:306-310 | The authentication tweak is the prefix shifted into the top nibble, eleven zero bytes and the big-endian block number. |
| Aead.TagTweakInjective | deoxysii.js:306-310 | Two authentication tweaks are equal exactly when their prefixes and block numbers are. |
| Aead.EncTweak | deoxysii.js:312-320 | The encryption tweak is the tag with the top bit of byte 0 set and the big-endian block number xored into its last four bytes. |
| Aead.EncTweakInjective | deoxysii.js:312-320 | Under one tag, two encryption tweaks are equal exactly when their block numbers are. |
| Aead.EncTweakNotTagTweak | deoxysii.js:306-320 | No encryption tweak equals an authentication tweak: the top bit separates them. |
| Aead.EncTweakTag | deoxysii.js:312-320 | The tag is recoverable from any encryption tweak and its block number. |
| Aead.Pad | deoxysii.js:350-357 | The padded final block holds the partial block, then 0x80, then zeros. |
| Aead.PadInjective | deoxysii.js:350-357 | Two partial blocks pad to the same block exactly when they are equal. |
| Aead.AuthWalkFold | deoxysii.js:336-383 | The authentication walk, with its two-block bcTagx2 steps, its one-block steps and its padded final step, is a fold that xors one bcEncrypt per block into the tag. |
| Aead.TagNonce | deoxysii.js:386-389 | The tag-generation block is 0x10 followed by the nonce. |
| Aead.EncNonce | deoxysii.js:391-417 | The keystream input block is a zero byte followed by the nonce. |
| Aead.AuthenticateFold | deoxysii.js:330-389 | The tag is bcEncrypt, under the tag prefix, of the one-block folds over AD and message. |
| Aead.KeystreamIsFold | deoxysii.js:391-417 | The keystream built from bcKeystreamx2 pairs and single blocks is the concatenation of one bcEncrypt per block under the encryption tweaks. |
| Aead.KeystreamXorInvolution | deoxysii.js:391-417 | Xoring the same keystream twice gives the data back. |
| Aead.E | deoxysii.js:330-421 | e's output is as long as the message plus 16 bytes, and its last 16 bytes are the tag over AD and message. |
| Aead.D | deoxysii.js:423-515 | d's plaintext is 16 bytes shorter than the ciphertext. d accepts exactly when the tag recomputed over that plaintext equals the ciphertext's last 16 bytes. |
| Aead.EKeystream | deoxysii.js:391-418 | With a coherent implementation, the first bytes of e's output are the message xored with the nonce block 0 ‖ nonce encrypted under encodeEncTweak(tag, k) for each block k. |
| Aead.DKeystream | deoxysii.js:423-456 | With a coherent implementation, d's plaintext is the ciphertext body xored with the same keystream, made from the tag carried in the ciphertext's last 16 bytes. |
| Aead.DE | deoxysii.js:330-515 | d of e's output gives the message back and accepts. |
| Aead.NewAead | deoxysii.js:523-535 | The constructor fails with the key-size error exactly when the key is not 32 bytes. Otherwise it holds stkDeriveK of the key and the implementation `useUnsafeVartime` selects: implUnsafeVartime (built on `aesenc`) when it is set, implCt32 otherwise; either is coherent. |
| Aead.OrEmpty | deoxysii.js:542-547 | A null buffer argument is read as the empty buffer. |
| Aead.Encrypt | deoxysii.js:537-553 | encrypt fails with the nonce-size error on a nonce that is not 15 bytes. It fails with a RangeError when a block number would reach 2^32, and never otherwise. On success its output is e over the plaintext and AD, a null one read as empty, and is the plaintext's length plus 16. |
| Aead.Decrypt | deoxysii.js:555-574 | decrypt fails with the nonce-size error on a bad nonce and with the authentication error on a ciphertext under 16 bytes. It fails with a RangeError exactly when a block number of d would reach 2^32, and never with another error. It succeeds exactly when d accepts, and then returns d's plaintext, which is 16 bytes shorter than the ciphertext and whose recomputed tag matches the ciphertext's. |
| Aead.DecryptRejects | deoxysii.js:555-574 | A ciphertext whose tag does not match is refused with the authentication error, and no plaintext is returned. |
| Aead.RoundTrip | deoxysii.js:537-574 | Decrypting the output of a successful encrypt under the same nonce and AD returns the plaintext. |
| Aead.DecryptEncrypt | deoxysii.js:537-574 | Conversely, a ciphertext that decrypt accepts as m is exactly encrypt's output for m under the same nonce and AD. |

## Left out

- Aead.TagTweakInjective: compares block numbers as 32-bit values (`n as word`) rather than as integers. The two are equivalent below 2^32, which is what `writeUInt32BE` requires, but that equivalence is not restated as a lemma.
- Aead.EncTweakInjective: likewise compares block numbers as 32-bit values.
- DeoxysBC.Vartime: `unsafe.aesencVartime` lives in a module that is not part of this model. It is the parameter `aesenc`, so Ct32 and vartime are not proved to compute the same cipher.
- The `uint32` helper module is not part of this model. Its operations are written directly on `bv32`.
- DeoxysBC.Ct32Tagx1: the tag update reads four little-endian words, xors the orthogonalised state into them and writes them back. The model writes it as a byte `Xor` of the stored words, justified by Bytes.XorWordsLe. Ct32Tagx2 xors two words into each tag word, modelled as two such `Xor`s; that two-word form is not restated as its own lemma.
- `crypto.timingSafeEqual` is modelled as equality on the two tags. Timing is out of scope.
- Aliasing of Node `Buffer`s (in-place `slice` views, `copy`) is modelled by value. `dst` is a fresh sequence, not a view that can overlap the input.
- `d` zero-fills its output buffer when the tag check fails. In the model, a failed decryption returns no plaintext, so the zero-fill is not observable.
- Aead.Encrypt: Node raises `RangeError` from `writeUInt32BE` partway through the walk of `e`. The model checks the block count before walking and returns `ErrRange`, which is the same outcome for the caller.
- Aead.Decrypt: likewise, `d` would raise `RangeError` partway through its walk. The model returns `ErrRange` before decrypting.
- The fixed-size `Uint32Array` buffers (60 words of key schedule, 120 of expanded key) are modelled as sequences of exactly the used length.
- The constant-time properties, the cryptographic security of the construction, the known-answer test vectors, the benchmarks and the examples are outside this model.
- Argument type checks of JavaScript (a non-`Buffer` argument) have no counterpart in a typed model. A `null` plaintext or AD is `Option.None`.
