/** The TWEAKEY schedule of Deoxys-BC-384 as deoxysii.js computes it: the
    byte permutation `h`, the byte LFSRs `lfsr2` / `lfsr3`, the round
    constants `xorRC`, the key-only part of the sub-tweak keys
    (`stkDeriveK`) and the per-tweak sub-tweak keys (`deriveSubTweakKeys`).

    The source updates 16-byte buffers in place; here each helper returns
    the new block.  A byte store in a `Buffer` keeps the low eight bits of
    the JavaScript number, which `bv8` arithmetic does by construction. */
module Tweakey {
  import opened Bytes

  /** `rounds`: Deoxys-BC-384 has 16 rounds and so 17 sub-tweak keys. */
  const NumRounds: nat := 16

  /** `rcons`, the round constants RCON[0 .. 16]. */
  const Rcons: seq<byte> := [
    0x2f, 0x5e, 0xbc, 0x63, 0xc6, 0x97, 0x35, 0x6a,
    0xd4, 0xb3, 0x7d, 0xfa, 0xef, 0xc5, 0x91, 0x39,
    0x72
  ]

  const ZeroBlock: Block := Zeros(16)

  /** The seventeen key-only sub-tweak-key parts. */
  type DerivedKeys = s: seq<Block> | |s| == NumRounds + 1 witness seq(NumRounds + 1, _ => ZeroBlock)

  // ---------------------------------------------------------------------
  // h
  // ---------------------------------------------------------------------

  /** `h(t)`: the tweakey byte permutation. */
  function H(t: Block): Block
  {
    [t[7], t[0], t[13], t[10], t[11], t[4], t[1], t[14], t[15], t[8], t[5], t[2], t[3], t[12], t[9], t[6]]
  }

  /** `h` undone: every byte moved back to where it came from. */
  function HInv(t: Block): (r: Block)
    ensures H(r) == t
  {
    [t[1], t[6], t[11], t[12], t[5], t[10], t[15], t[0], t[9], t[14], t[3], t[4], t[13], t[2], t[7], t[8]]
  }

  /** `HInv` is also a left inverse, so `h` is a bijection on blocks. */
  lemma HInvH(t: Block)
    ensures HInv(H(t)) == t
  {
  }

  /** A block map applied `n` times. */
  function Power(f: Block -> Block, n: nat, x: Block): Block
  {
    if n == 0 then x else f(Power(f, n - 1, x))
  }

  lemma PowerNext(f: Block -> Block, n: nat, x: Block)
    ensures Power(f, n + 1, x) == f(Power(f, n, x))
  {
  }

  /** The last of `n + 1` applications may be taken first instead. */
  lemma {:induction false} PowerShift(f: Block -> Block, n: nat, x: Block)
    ensures Power(f, n + 1, x) == Power(f, n, f(x))
  {
    if n > 0 {
      PowerShift(f, n - 1, x);
    }
  }

  /** `n` applications of a left inverse undo `n` applications of `f`. */
  lemma {:induction false} PowerInverse(f: Block -> Block, g: Block -> Block, n: nat, x: Block)
    requires forall y :: g(f(y)) == y
    ensures Power(g, n, Power(f, n, x)) == x
  {
    if n > 0 {
      var z := Power(f, n - 1, x);
      PowerShift(g, n - 1, f(z));
      PowerInverse(f, g, n - 1, x);
    }
  }

  /** `h^n` is undone by `HInv^n`. */
  lemma PowerHInv(n: nat, t: Block)
    ensures Power(HInv, n, Power(H, n, t)) == t
  {
    forall y: Block
      ensures HInv(H(y)) == y
    {
      HInvH(y);
    }
    PowerInverse(H, HInv, n, t);
  }

  // ---------------------------------------------------------------------
  // lfsr2, lfsr3
  // ---------------------------------------------------------------------

  /** One byte of `lfsr2`: shift left, feeding bit 7 xor bit 5 into bit 0. */
  function Lfsr2Byte(x: byte): byte
  {
    (x << 1) | ((x >> 7) ^ ((x >> 5) & 1))
  }

  /** One byte of `lfsr3`: shift right, feeding bit 0 xor bit 6 into bit 7;
      it undoes `Lfsr2Byte`. */
  function Lfsr3Byte(x: byte): (r: byte)
    ensures Lfsr2Byte(r) == x
  {
    (x >> 1) | (((x & 1) ^ ((x >> 6) & 1)) << 7)
  }

  /** `lfsr2(t)`: every byte through `Lfsr2Byte`, independently. */
  function Lfsr2(t: Block): Block
  {
    seq(16, i requires 0 <= i < 16 => Lfsr2Byte(t[i]))
  }

  /** `lfsr3(t)`: every byte through `Lfsr3Byte`, independently. */
  function Lfsr3(t: Block): (r: Block)
    ensures Lfsr2(r) == t
  {
    seq(16, i requires 0 <= i < 16 => Lfsr3Byte(t[i]))
  }

  /** `lfsr3` undoes `lfsr2`. */
  lemma Lfsr3Lfsr2(t: Block)
    ensures Lfsr3(Lfsr2(t)) == t
  {
    forall i | 0 <= i < 16
      ensures Lfsr3(Lfsr2(t))[i] == t[i]
    {
      Lfsr3Lfsr2Byte(t[i]);
    }
  }

  lemma Lfsr3Lfsr2Byte(x: byte)
    ensures Lfsr3Byte(Lfsr2Byte(x)) == x
  {
  }

  // ---------------------------------------------------------------------
  // xorRC
  // ---------------------------------------------------------------------

  /** `rcons[i]`; past the table JavaScript reads `undefined`, which `^`
      treats as 0. */
  function RconByte(i: nat): byte
  {
    if i < |Rcons| then Rcons[i] else 0
  }

  /** The round-constant block RC(i): 1, 2, 4, 8, then RCON[i] four times,
      then eight zero bytes. */
  function RcBlock(i: nat): (r: Block)
  {
    var c := RconByte(i);
    [1, 2, 4, 8, c, c, c, c] + Zeros(8)
  }

  /** `xorRC(t, i)`: the round constant added into the block. */
  function XorRC(t: Block, i: nat): Block
  {
    Xor(t, RcBlock(i))
  }

  /** `xorRC` changes only the first eight bytes: bytes 0 .. 3 by the fixed
      bits 1, 2, 4, 8 and bytes 4 .. 7 by RCON[i]. */
  lemma XorRCBytes(t: Block, i: nat)
    ensures var r := XorRC(t, i);
      r[0] == t[0] ^ 1 && r[1] == t[1] ^ 2 && r[2] == t[2] ^ 4 && r[3] == t[3] ^ 8
    ensures var r := XorRC(t, i);
      r[4] == t[4] ^ RconByte(i) && r[5] == t[5] ^ RconByte(i) && r[6] == t[6] ^ RconByte(i) && r[7] == t[7] ^ RconByte(i)
    ensures XorRC(t, i)[8..] == t[8..]
  {
    XorRCHigh(t, i);
  }

  lemma XorRCHigh(t: Block, i: nat)
    ensures XorRC(t, i)[8..] == t[8..]
  {
    var r := XorRC(t, i);
    forall k | 8 <= k < 16
      ensures r[k] == t[k]
    {
      assert RcBlock(i)[k] == 0;
    }
  }

  /** Adding the same round constant twice cancels. */
  lemma XorRCInvolution(t: Block, i: nat)
    ensures XorRC(XorRC(t, i), i) == t
  {
    XorCancel(t, RcBlock(i));
  }

  // ---------------------------------------------------------------------
  // stkDeriveK
  // ---------------------------------------------------------------------

  /** One step of the TK2 lane: `lfsr2` then `h`. */
  function Tk2Step(t: Block): Block
  {
    H(Lfsr2(t))
  }

  /** One step of the TK3 lane: `lfsr3` then `h`. */
  function Tk3Step(t: Block): Block
  {
    H(Lfsr3(t))
  }

  /** The two lanes of round `i` combined: xored together, then the round
      constant added. */
  function MixRound(tk2: Block, tk3: Block, i: nat): Block
  {
    XorRC(Xor(tk2, tk3), i)
  }

  /** derivedKs[i] = (h . lfsr2)^i(key[16..32]) xor (h . lfsr3)^i(key[0..16]) xor RC(i). */
  function DerivedKey(key: seq<byte>, i: nat): Block
    requires |key| == 32
  {
    MixRound(Power(Tk2Step, i, key[16..32]), Power(Tk3Step, i, key[..16]), i)
  }

  /** All seventeen key-only parts, in closed form. */
  function DeriveK(key: seq<byte>): DerivedKeys
    requires |key| == 32
  {
    seq(NumRounds + 1, i requires 0 <= i <= NumRounds => DerivedKey(key, i))
  }

  /** `stkDeriveK(key, derivedKs)`: TK2 is the second half of the key and
      TK3 the first; the loop steps both lanes once per round. */
  method StkDeriveK(key: seq<byte>) returns (dks: DerivedKeys)
    requires |key| == 32
    ensures dks == DeriveK(key)
  {
    dks := DeriveLanes(Tk2Step, Tk3Step, MixRound, key[16..32], key[0..16]);
    assert key[0..16] == key[..16];
  }

  /** The loop of `stkDeriveK` for any two lane steps `f2`, `f3` and any
      way `mix` of combining the lanes of round `i`: entry `i` of the result
      mixes the lanes after `i` steps. */
  method DeriveLanes(f2: Block -> Block, f3: Block -> Block, mix: (Block, Block, nat) -> Block, tk2Init: Block, tk3Init: Block)
    returns (ks: DerivedKeys)
    ensures forall i :: 0 <= i <= NumRounds ==> ks[i] == mix(Power(f2, i, tk2Init), Power(f3, i, tk3Init), i)
  {
    var tk2 := tk2Init;
    var tk3 := tk3Init;
    var acc: seq<Block> := [mix(tk2, tk3, 0)];
    var i := 1;
    while i <= NumRounds
      invariant 1 <= i <= NumRounds + 1
      invariant tk2 == Power(f2, i - 1, tk2Init) && tk3 == Power(f3, i - 1, tk3Init)
      invariant |acc| == i
      invariant forall k :: 0 <= k < i ==> acc[k] == LaneMix(f2, f3, mix, tk2Init, tk3Init, k)
    {
      tk2 := f2(tk2);
      tk3 := f3(tk3);
      acc := acc + [mix(tk2, tk3, i)];
      i := i + 1;
    }
    ks := acc;
  }

  /** Entry `k` of the `stkDeriveK` loop. */
  function LaneMix(f2: Block -> Block, f3: Block -> Block, mix: (Block, Block, nat) -> Block, tk2Init: Block, tk3Init: Block, k: nat): Block
  {
    mix(Power(f2, k, tk2Init), Power(f3, k, tk3Init), k)
  }

  // ---------------------------------------------------------------------
  // deriveSubTweakKeys
  // ---------------------------------------------------------------------

  /** stks[i] = derivedKs[i] xor h^i(tweak), in closed form. */
  function SubTweakKeys(dks: DerivedKeys, tweak: Block): (stks: seq<Block>)
    ensures |stks| == NumRounds + 1
  {
    seq(NumRounds + 1, i requires 0 <= i <= NumRounds => Xor(dks[i], Power(H, i, tweak)))
  }

  /** `deriveSubTweakKeys(stks, derivedKs, tweak)`: the loop that permutes
      a copy of the tweak once per round computes the closed form, and
      xoring `derivedKs[i]` back out of `stks[i]` and undoing `h` `i` times
      gives back the tweak. */
  method DeriveSubTweakKeys(dks: DerivedKeys, tweak: Block) returns (stks: seq<Block>)
    ensures stks == SubTweakKeys(dks, tweak)
    ensures forall i :: 0 <= i <= NumRounds ==> Power(HInv, i, Xor(stks[i], dks[i])) == tweak
  {
    stks := XorLane(H, dks, tweak);
    forall k | 0 <= k <= NumRounds
      ensures Power(HInv, k, Xor(stks[k], dks[k])) == tweak
    {
      XorComm(dks[k], Power(H, k, tweak));
      XorCancel(Power(H, k, tweak), dks[k]);
      PowerHInv(k, tweak);
    }
  }

  /** The loop of `deriveSubTweakKeys` for any lane step `f`: entry `i`
      xors `dks[i]` with the lane after `i` steps. */
  method XorLane(f: Block -> Block, dks: DerivedKeys, tk1Init: Block) returns (stks: seq<Block>)
    ensures |stks| == NumRounds + 1
    ensures forall i :: 0 <= i <= NumRounds ==> stks[i] == Xor(dks[i], Power(f, i, tk1Init))
  {
    var tk1 := tk1Init;
    stks := [Xor(dks[0], tk1)];
    var i := 1;
    while i <= NumRounds
      invariant 1 <= i <= NumRounds + 1
      invariant tk1 == Power(f, i - 1, tk1Init)
      invariant |stks| == i
      invariant forall k :: 0 <= k < i ==> stks[k] == Xor(dks[k], Power(f, k, tk1Init))
    {
      tk1 := f(tk1);
      stks := stks + [Xor(dks[i], tk1)];
      i := i + 1;
    }
  }
}
