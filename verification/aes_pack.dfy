/** Moving blocks in and out of the bitsliced representation (src/aes.ts):
    `ortho`, the `load*xU32` / `store*xU32` helpers, `rkeyOrtho` and
    `skeyExpand`.

    A block is read as four little-endian words.  `load8xU32` puts the
    words of the first block in `q[0], q[2], q[4], q[6]` and those of the
    second in `q[1], q[3], q[5], q[7]`; `ortho` then transposes, inside every
    byte column, the 8x8 bit matrix formed by the eight words, so that word
    `k` ends up holding bit `k` of every byte.  The first block's bytes sit
    in the even bit positions (lane 0) and the second block's in the odd
    ones (lane 1).

    Every word operation of `ortho` works inside byte boundaries, so the
    proofs look at one byte column at a time (`ByteView`) and reassemble
    the words with `StateExt`. */
module AesPack {
  import opened Bytes
  import opened AesRound

  // ---------------------------------------------------------------------
  // The swap-moves of `ortho`, on words and on single byte columns.
  // ---------------------------------------------------------------------

  const OddsMask: word := 0x5555_5555
  const EvensMask: word := 0xaaaa_aaaa
  const Cl4: word := 0x3333_3333
  const Ch4: word := 0xcccc_cccc
  const Cl8: word := 0x0f0f_0f0f
  const Ch8: word := 0xf0f0_f0f0

  function Lo1(a: word, b: word): word { (a & OddsMask) | ((b & OddsMask) << 1) }
  function Hi1(a: word, b: word): word { ((a & EvensMask) >> 1) | (b & EvensMask) }
  function Lo2(a: word, b: word): word { (a & Cl4) | ((b & Cl4) << 2) }
  function Hi2(a: word, b: word): word { ((a & Ch4) >> 2) | (b & Ch4) }
  function Lo4(a: word, b: word): word { (a & Cl8) | ((b & Cl8) << 4) }
  function Hi4(a: word, b: word): word { ((a & Ch8) >> 4) | (b & Ch8) }

  /** The same swap-moves restricted to one byte of every word. */
  function Lo1B(a: byte, b: byte): byte { (a & 0x55) | ((b & 0x55) << 1) }
  function Hi1B(a: byte, b: byte): byte { ((a & 0xaa) >> 1) | (b & 0xaa) }
  function Lo2B(a: byte, b: byte): byte { (a & 0x33) | ((b & 0x33) << 2) }
  function Hi2B(a: byte, b: byte): byte { ((a & 0xcc) >> 2) | (b & 0xcc) }
  function Lo4B(a: byte, b: byte): byte { (a & 0x0f) | ((b & 0x0f) << 4) }
  function Hi4B(a: byte, b: byte): byte { ((a & 0xf0) >> 4) | (b & 0xf0) }

  datatype SwapOps<!T> = SwapOps(lo1: (T, T) -> T, hi1: (T, T) -> T,
                                 lo2: (T, T) -> T, hi2: (T, T) -> T,
                                 lo4: (T, T) -> T, hi4: (T, T) -> T)

  const WordSwaps: SwapOps<word> := SwapOps(Lo1, Hi1, Lo2, Hi2, Lo4, Hi4)
  const ByteSwaps: SwapOps<byte> := SwapOps(Lo1B, Hi1B, Lo2B, Hi2B, Lo4B, Hi4B)

  /** First loop of `ortho`: words `i` and `i + 1`, single bits. */
  function Stage1<T>(s: SwapOps<T>, q: Octet<T>): Octet<T>
  {
    Octet(s.lo1(q.q0, q.q1), s.hi1(q.q0, q.q1), s.lo1(q.q2, q.q3), s.hi1(q.q2, q.q3),
          s.lo1(q.q4, q.q5), s.hi1(q.q4, q.q5), s.lo1(q.q6, q.q7), s.hi1(q.q6, q.q7))
  }

  /** Second loop: words `i` and `i + 2`, bit pairs. */
  function Stage2<T>(s: SwapOps<T>, q: Octet<T>): Octet<T>
  {
    Octet(s.lo2(q.q0, q.q2), s.lo2(q.q1, q.q3), s.hi2(q.q0, q.q2), s.hi2(q.q1, q.q3),
          s.lo2(q.q4, q.q6), s.lo2(q.q5, q.q7), s.hi2(q.q4, q.q6), s.hi2(q.q5, q.q7))
  }

  /** Third loop: words `i` and `i + 4`, nibbles. */
  function Stage3<T>(s: SwapOps<T>, q: Octet<T>): Octet<T>
  {
    Octet(s.lo4(q.q0, q.q4), s.lo4(q.q1, q.q5), s.lo4(q.q2, q.q6), s.lo4(q.q3, q.q7),
          s.hi4(q.q0, q.q4), s.hi4(q.q1, q.q5), s.hi4(q.q2, q.q6), s.hi4(q.q3, q.q7))
  }

  function OrthoOver<T>(s: SwapOps<T>, q: Octet<T>): Octet<T>
  {
    Stage3(s, Stage2(s, Stage1(s, q)))
  }

  /** `ortho(q)`. */
  function Ortho(q: State): State
  {
    OrthoOver(WordSwaps, q)
  }

  /** `ortho` restricted to one byte column. */
  function OrthoBytes(x: Octet<byte>): Octet<byte>
  {
    OrthoOver(ByteSwaps, x)
  }

  // ---------------------------------------------------------------------
  // Byte columns.
  // ---------------------------------------------------------------------

  /** Byte `k` (little-endian) of a word. */
  function ByteOf(k: bv2, w: word): byte
  {
    Lo8(w >> (8 * (k as bv5)))
  }

  function ByteAt(k: bv2): word -> byte
  {
    (w: word) => ByteOf(k, w)
  }

  /** Byte column `k` of a state. */
  function ByteView(k: bv2, q: State): Octet<byte>
  {
    MapOctet(ByteAt(k), q)
  }

  /** A word is determined by its four bytes. */
  lemma WordExt(x: word, y: word)
    requires forall k: bv2 :: ByteOf(k, x) == ByteOf(k, y)
    ensures x == y
  {
    assert ByteOf(0, x) == ByteOf(0, y);
    assert ByteOf(1, x) == ByteOf(1, y);
    assert ByteOf(2, x) == ByteOf(2, y);
    assert ByteOf(3, x) == ByteOf(3, y);
  }

  /** A state is determined by its four byte columns. */
  lemma StateExt(a: State, b: State)
    requires forall k: bv2 :: ByteView(k, a) == ByteView(k, b)
    ensures a == b
  {
    forall k: bv2
      ensures ByteOf(k, a.q0) == ByteOf(k, b.q0) && ByteOf(k, a.q1) == ByteOf(k, b.q1)
      ensures ByteOf(k, a.q2) == ByteOf(k, b.q2) && ByteOf(k, a.q3) == ByteOf(k, b.q3)
      ensures ByteOf(k, a.q4) == ByteOf(k, b.q4) && ByteOf(k, a.q5) == ByteOf(k, b.q5)
      ensures ByteOf(k, a.q6) == ByteOf(k, b.q6) && ByteOf(k, a.q7) == ByteOf(k, b.q7)
    {
      assert ByteView(k, a) == ByteView(k, b);
    }
    WordExt(a.q0, b.q0);
    WordExt(a.q1, b.q1);
    WordExt(a.q2, b.q2);
    WordExt(a.q3, b.q3);
    WordExt(a.q4, b.q4);
    WordExt(a.q5, b.q5);
    WordExt(a.q6, b.q6);
    WordExt(a.q7, b.q7);
  }

  ghost predicate IsSwapHom<A(!new), B>(h: A -> B, p: SwapOps<A>, q: SwapOps<B>)
  {
    && (forall a, b :: h(p.lo1(a, b)) == q.lo1(h(a), h(b)))
    && (forall a, b :: h(p.hi1(a, b)) == q.hi1(h(a), h(b)))
    && (forall a, b :: h(p.lo2(a, b)) == q.lo2(h(a), h(b)))
    && (forall a, b :: h(p.hi2(a, b)) == q.hi2(h(a), h(b)))
    && (forall a, b :: h(p.lo4(a, b)) == q.lo4(h(a), h(b)))
    && (forall a, b :: h(p.hi4(a, b)) == q.hi4(h(a), h(b)))
  }

  /** `ortho` commutes with every map that respects the swap-moves. */
  lemma OrthoHom<A(!new), B>(h: A -> B, p: SwapOps<A>, q: SwapOps<B>, x: Octet<A>)
    requires IsSwapHom(h, p, q)
    ensures MapOctet(h, OrthoOver(p, x)) == OrthoOver(q, MapOctet(h, x))
  {
    var y := Stage1(p, x);
    assert MapOctet(h, y) == Stage1(q, MapOctet(h, x));
    assert MapOctet(h, Stage2(p, y)) == Stage2(q, MapOctet(h, y));
  }

  lemma ByteOfLo1(a: word, b: word, k: bv2)
    ensures ByteOf(k, Lo1(a, b)) == Lo1B(ByteOf(k, a), ByteOf(k, b))
  {
  }

  lemma ByteOfHi1(a: word, b: word, k: bv2)
    ensures ByteOf(k, Hi1(a, b)) == Hi1B(ByteOf(k, a), ByteOf(k, b))
  {
  }

  lemma ByteOfLo2(a: word, b: word, k: bv2)
    ensures ByteOf(k, Lo2(a, b)) == Lo2B(ByteOf(k, a), ByteOf(k, b))
  {
  }

  lemma ByteOfHi2(a: word, b: word, k: bv2)
    ensures ByteOf(k, Hi2(a, b)) == Hi2B(ByteOf(k, a), ByteOf(k, b))
  {
  }

  lemma ByteOfLo4(a: word, b: word, k: bv2)
    ensures ByteOf(k, Lo4(a, b)) == Lo4B(ByteOf(k, a), ByteOf(k, b))
  {
  }

  lemma ByteOfHi4(a: word, b: word, k: bv2)
    ensures ByteOf(k, Hi4(a, b)) == Hi4B(ByteOf(k, a), ByteOf(k, b))
  {
  }

  lemma ByteAtLo1(k: bv2)
    ensures forall a, b :: ByteAt(k)(WordSwaps.lo1(a, b)) == ByteSwaps.lo1(ByteAt(k)(a), ByteAt(k)(b))
  {
    forall a, b ensures ByteAt(k)(WordSwaps.lo1(a, b)) == ByteSwaps.lo1(ByteAt(k)(a), ByteAt(k)(b)) {
      ByteOfLo1(a, b, k);
    }
  }

  lemma ByteAtHi1(k: bv2)
    ensures forall a, b :: ByteAt(k)(WordSwaps.hi1(a, b)) == ByteSwaps.hi1(ByteAt(k)(a), ByteAt(k)(b))
  {
    forall a, b ensures ByteAt(k)(WordSwaps.hi1(a, b)) == ByteSwaps.hi1(ByteAt(k)(a), ByteAt(k)(b)) {
      ByteOfHi1(a, b, k);
    }
  }

  lemma ByteAtLo2(k: bv2)
    ensures forall a, b :: ByteAt(k)(WordSwaps.lo2(a, b)) == ByteSwaps.lo2(ByteAt(k)(a), ByteAt(k)(b))
  {
    forall a, b ensures ByteAt(k)(WordSwaps.lo2(a, b)) == ByteSwaps.lo2(ByteAt(k)(a), ByteAt(k)(b)) {
      ByteOfLo2(a, b, k);
    }
  }

  lemma ByteAtHi2(k: bv2)
    ensures forall a, b :: ByteAt(k)(WordSwaps.hi2(a, b)) == ByteSwaps.hi2(ByteAt(k)(a), ByteAt(k)(b))
  {
    forall a, b ensures ByteAt(k)(WordSwaps.hi2(a, b)) == ByteSwaps.hi2(ByteAt(k)(a), ByteAt(k)(b)) {
      ByteOfHi2(a, b, k);
    }
  }

  lemma ByteAtLo4(k: bv2)
    ensures forall a, b :: ByteAt(k)(WordSwaps.lo4(a, b)) == ByteSwaps.lo4(ByteAt(k)(a), ByteAt(k)(b))
  {
    forall a, b ensures ByteAt(k)(WordSwaps.lo4(a, b)) == ByteSwaps.lo4(ByteAt(k)(a), ByteAt(k)(b)) {
      ByteOfLo4(a, b, k);
    }
  }

  lemma ByteAtHi4(k: bv2)
    ensures forall a, b :: ByteAt(k)(WordSwaps.hi4(a, b)) == ByteSwaps.hi4(ByteAt(k)(a), ByteAt(k)(b))
  {
    forall a, b ensures ByteAt(k)(WordSwaps.hi4(a, b)) == ByteSwaps.hi4(ByteAt(k)(a), ByteAt(k)(b)) {
      ByteOfHi4(a, b, k);
    }
  }

  lemma OrthoByteView(k: bv2, q: State)
    ensures ByteView(k, Ortho(q)) == OrthoBytes(ByteView(k, q))
  {
    ByteAtLo1(k);
    ByteAtHi1(k);
    ByteAtLo2(k);
    ByteAtHi2(k);
    ByteAtLo4(k);
    ByteAtHi4(k);
    OrthoHom(ByteAt(k), WordSwaps, ByteSwaps, q);
  }

  // ---------------------------------------------------------------------
  // `ortho` is an involution (checked on one byte column).
  // ---------------------------------------------------------------------

  lemma SwapMove1B(a: byte, b: byte)
    ensures Lo1B(Lo1B(a, b), Hi1B(a, b)) == a && Hi1B(Lo1B(a, b), Hi1B(a, b)) == b
  {
  }

  lemma SwapMove2B(a: byte, b: byte)
    ensures Lo2B(Lo2B(a, b), Hi2B(a, b)) == a && Hi2B(Lo2B(a, b), Hi2B(a, b)) == b
  {
  }

  lemma SwapMove4B(a: byte, b: byte)
    ensures Lo4B(Lo4B(a, b), Hi4B(a, b)) == a && Hi4B(Lo4B(a, b), Hi4B(a, b)) == b
  {
  }

  lemma Stage1Involution(x: Octet<byte>)
    ensures Stage1(ByteSwaps, Stage1(ByteSwaps, x)) == x
  {
    SwapMove1B(x.q0, x.q1);
    SwapMove1B(x.q2, x.q3);
    SwapMove1B(x.q4, x.q5);
    SwapMove1B(x.q6, x.q7);
  }

  lemma Stage2Involution(x: Octet<byte>)
    ensures Stage2(ByteSwaps, Stage2(ByteSwaps, x)) == x
  {
    SwapMove2B(x.q0, x.q2);
    SwapMove2B(x.q1, x.q3);
    SwapMove2B(x.q4, x.q6);
    SwapMove2B(x.q5, x.q7);
  }

  lemma Stage3Involution(x: Octet<byte>)
    ensures Stage3(ByteSwaps, Stage3(ByteSwaps, x)) == x
  {
    SwapMove4B(x.q0, x.q4);
    SwapMove4B(x.q1, x.q5);
    SwapMove4B(x.q2, x.q6);
    SwapMove4B(x.q3, x.q7);
  }

  // Swap-moves of different widths on four bytes commute.

  lemma LoLo12(a: byte, b: byte, c: byte, d: byte)
    ensures Lo1B(Lo2B(a, c), Lo2B(b, d)) == Lo2B(Lo1B(a, b), Lo1B(c, d))
  {
  }

  lemma LoHi12(a: byte, b: byte, c: byte, d: byte)
    ensures Lo1B(Hi2B(a, c), Hi2B(b, d)) == Hi2B(Lo1B(a, b), Lo1B(c, d))
  {
  }

  lemma HiLo12(a: byte, b: byte, c: byte, d: byte)
    ensures Hi1B(Lo2B(a, c), Lo2B(b, d)) == Lo2B(Hi1B(a, b), Hi1B(c, d))
  {
  }

  lemma HiHi12(a: byte, b: byte, c: byte, d: byte)
    ensures Hi1B(Hi2B(a, c), Hi2B(b, d)) == Hi2B(Hi1B(a, b), Hi1B(c, d))
  {
  }

  lemma LoLo13(a: byte, b: byte, c: byte, d: byte)
    ensures Lo1B(Lo4B(a, c), Lo4B(b, d)) == Lo4B(Lo1B(a, b), Lo1B(c, d))
  {
  }

  lemma LoHi13(a: byte, b: byte, c: byte, d: byte)
    ensures Lo1B(Hi4B(a, c), Hi4B(b, d)) == Hi4B(Lo1B(a, b), Lo1B(c, d))
  {
  }

  lemma HiLo13(a: byte, b: byte, c: byte, d: byte)
    ensures Hi1B(Lo4B(a, c), Lo4B(b, d)) == Lo4B(Hi1B(a, b), Hi1B(c, d))
  {
  }

  lemma HiHi13(a: byte, b: byte, c: byte, d: byte)
    ensures Hi1B(Hi4B(a, c), Hi4B(b, d)) == Hi4B(Hi1B(a, b), Hi1B(c, d))
  {
  }

  lemma LoLo23(a: byte, b: byte, c: byte, d: byte)
    ensures Lo2B(Lo4B(a, c), Lo4B(b, d)) == Lo4B(Lo2B(a, b), Lo2B(c, d))
  {
  }

  lemma LoHi23(a: byte, b: byte, c: byte, d: byte)
    ensures Lo2B(Hi4B(a, c), Hi4B(b, d)) == Hi4B(Lo2B(a, b), Lo2B(c, d))
  {
  }

  lemma HiLo23(a: byte, b: byte, c: byte, d: byte)
    ensures Hi2B(Lo4B(a, c), Lo4B(b, d)) == Lo4B(Hi2B(a, b), Hi2B(c, d))
  {
  }

  lemma HiHi23(a: byte, b: byte, c: byte, d: byte)
    ensures Hi2B(Hi4B(a, c), Hi4B(b, d)) == Hi4B(Hi2B(a, b), Hi2B(c, d))
  {
  }

  lemma Commute12(x: Octet<byte>)
    ensures Stage1(ByteSwaps, Stage2(ByteSwaps, x)) == Stage2(ByteSwaps, Stage1(ByteSwaps, x))
  {
    LoLo12(x.q0, x.q1, x.q2, x.q3);
    LoHi12(x.q0, x.q1, x.q2, x.q3);
    HiLo12(x.q0, x.q1, x.q2, x.q3);
    HiHi12(x.q0, x.q1, x.q2, x.q3);
    LoLo12(x.q4, x.q5, x.q6, x.q7);
    LoHi12(x.q4, x.q5, x.q6, x.q7);
    HiLo12(x.q4, x.q5, x.q6, x.q7);
    HiHi12(x.q4, x.q5, x.q6, x.q7);
  }

  lemma Commute13(x: Octet<byte>)
    ensures Stage1(ByteSwaps, Stage3(ByteSwaps, x)) == Stage3(ByteSwaps, Stage1(ByteSwaps, x))
  {
    LoLo13(x.q0, x.q1, x.q4, x.q5);
    LoHi13(x.q0, x.q1, x.q4, x.q5);
    HiLo13(x.q0, x.q1, x.q4, x.q5);
    HiHi13(x.q0, x.q1, x.q4, x.q5);
    LoLo13(x.q2, x.q3, x.q6, x.q7);
    LoHi13(x.q2, x.q3, x.q6, x.q7);
    HiLo13(x.q2, x.q3, x.q6, x.q7);
    HiHi13(x.q2, x.q3, x.q6, x.q7);
  }

  lemma Commute23(x: Octet<byte>)
    ensures Stage2(ByteSwaps, Stage3(ByteSwaps, x)) == Stage3(ByteSwaps, Stage2(ByteSwaps, x))
  {
    LoLo23(x.q0, x.q2, x.q4, x.q6);
    LoHi23(x.q0, x.q2, x.q4, x.q6);
    HiLo23(x.q0, x.q2, x.q4, x.q6);
    HiHi23(x.q0, x.q2, x.q4, x.q6);
    LoLo23(x.q1, x.q3, x.q5, x.q7);
    LoHi23(x.q1, x.q3, x.q5, x.q7);
    HiLo23(x.q1, x.q3, x.q5, x.q7);
    HiHi23(x.q1, x.q3, x.q5, x.q7);
  }

  lemma {:induction false} OrthoBytesInvolution(x: Octet<byte>)
    ensures OrthoBytes(OrthoBytes(x)) == x
  {
    var s := ByteSwaps;
    var a := Stage1(s, x);
    var b := Stage2(s, a);
    calc {
      OrthoBytes(OrthoBytes(x));
      Stage3(s, Stage2(s, Stage1(s, Stage3(s, b))));
      { Commute13(b); }
      Stage3(s, Stage2(s, Stage3(s, Stage1(s, b))));
      { Commute23(Stage1(s, b)); }
      Stage3(s, Stage3(s, Stage2(s, Stage1(s, b))));
      { Stage3Involution(Stage2(s, Stage1(s, b))); }
      Stage2(s, Stage1(s, Stage2(s, a)));
      { Commute12(a); }
      Stage2(s, Stage2(s, Stage1(s, a)));
      { Stage2Involution(Stage1(s, a)); Stage1Involution(x); }
      x;
    }
  }

  /** `ortho` is its own inverse, which is why the same routine packs and
      unpacks. */
  lemma OrthoInvolution(q: State)
    ensures Ortho(Ortho(q)) == q
  {
    forall k: bv2 ensures ByteView(k, Ortho(Ortho(q))) == ByteView(k, q) {
      OrthoByteView(k, Ortho(q));
      OrthoByteView(k, q);
      OrthoBytesInvolution(ByteView(k, q));
    }
    StateExt(Ortho(Ortho(q)), q);
  }

  // ---------------------------------------------------------------------
  // What `ortho` computes: a bit transpose inside every byte column.
  // ---------------------------------------------------------------------

  /** `q[k]`. */
  function Get<T>(x: Octet<T>, k: bv3): T
  {
    if k == 0 then x.q0 else if k == 1 then x.q1 else if k == 2 then x.q2
    else if k == 3 then x.q3 else if k == 4 then x.q4 else if k == 5 then x.q5
    else if k == 6 then x.q6 else x.q7
  }

  lemma GetMap<A, B>(h: A -> B, x: Octet<A>, k: bv3)
    ensures Get(MapOctet(h, x), k) == h(Get(x, k))
  {
  }

  function ByteBitAt(s: bv3): byte -> bool
  {
    (b: byte) => ByteBit(b, s)
  }

  /** Bit `8c + s` of the eight words is bit `s` of their byte `c`. */
  lemma BitAtByteView(c: bv2, s: bv3, q: State)
    ensures MapOctet(BitAt(BitPos(c, s)), q) == MapOctet(ByteBitAt(s), ByteView(c, q))
  {
    forall w ensures BitAt(BitPos(c, s))(w) == ByteBitAt(s)(ByteAt(c)(w)) {
      BitOfByteOf(w, c, s);
    }
    MapCompose(BitAt(BitPos(c, s)), ByteBitAt(s), ByteAt(c), q);
  }

  /** Octets are equal when they agree at every index. */
  lemma OctetExt<T>(x: Octet<T>, y: Octet<T>)
    requires forall k: bv3 :: Get(x, k) == Get(y, k)
    ensures x == y
  {
    assert Get(x, 0) == Get(y, 0) && Get(x, 1) == Get(y, 1);
    assert Get(x, 2) == Get(y, 2) && Get(x, 3) == Get(y, 3);
    assert Get(x, 4) == Get(y, 4) && Get(x, 5) == Get(y, 5);
    assert Get(x, 6) == Get(y, 6) && Get(x, 7) == Get(y, 7);
  }

  lemma GetBitsOf(b: byte, s: bv3)
    ensures Get(BitsOf(b), s) == ByteBit(b, s)
  {
  }

  /** Bit `s` of byte `c` of a word. */
  function BitPos(c: bv2, s: bv3): bv5
  {
    8 * (c as bv5) + (s as bv5)
  }

  lemma BitOfByteOf(w: word, c: bv2, s: bv3)
    ensures Bit(w, BitPos(c, s)) == ByteBit(ByteOf(c, w), s)
  {
  }

  /** On one byte column, output word `k` bit `s` is input word `s` bit `k`. */
  lemma OrthoBytesTranspose(x: Octet<byte>, k: bv3, s: bv3)
    ensures ByteBit(Get(OrthoBytes(x), k), s) == ByteBit(Get(x, s), k)
  {
  }

  /** Byte 0 of a transposed column holds bit 0 of each of the eight bytes. */
  lemma OrthoBytesRow0(x: Octet<byte>)
    ensures Get(OrthoBytes(x), 0) == FromBits(MapOctet(ByteBitAt(0), x))
  {
  }

  /** `ortho` transposes the 8x8 bit matrix of every byte column: bit
      `8c + s` of output word `k` is bit `8c + k` of input word `s`. */
  lemma OrthoTranspose(q: State, k: bv3, s: bv3, c: bv2)
    ensures Bit(Get(Ortho(q), k), BitPos(c, s)) == Bit(Get(q, s), BitPos(c, k))
  {
    BitOfByteOf(Get(Ortho(q), k), c, s);
    BitOfByteOf(Get(q, s), c, k);
    OrthoByteView(c, q);
    GetMap(ByteAt(c), Ortho(q), k);
    GetMap(ByteAt(c), q, s);
    OrthoBytesTranspose(ByteView(c, q), k, s);
  }

  // ---------------------------------------------------------------------
  // Lanes.  Lane 0 is the even bit positions (`oddsMask`), lane 1 the odd
  // ones (`evensMask`).
  // ---------------------------------------------------------------------

  /** The odd-indexed words replaced by `zero` (what `load4xU32` does). */
  function ZeroOdd<T>(x: Octet<T>, zero: T): Octet<T>
  {
    Octet(x.q0, zero, x.q2, zero, x.q4, zero, x.q6, zero)
  }

  /** Words `2i` and `2i + 1` exchanged. */
  function WordSwap<T>(x: Octet<T>): Octet<T>
  {
    Octet(x.q1, x.q0, x.q3, x.q2, x.q5, x.q4, x.q7, x.q6)
  }

  /** Lane 0 of a word. */
  function Lane0(w: word): word
  {
    w & OddsMask
  }

  /** Lane 1 of a word. */
  function Lane1(w: word): word
  {
    w & EvensMask
  }

  /** The two lanes of a word exchanged (bits `2i` and `2i + 1`). */
  function SwapBits(w: word): word
  {
    ((w & OddsMask) << 1) | ((w & EvensMask) >> 1)
  }

  function Lane0B(b: byte): byte { b & 0x55 }
  function SwapBitsB(b: byte): byte { ((b & 0x55) << 1) | ((b & 0xaa) >> 1) }

  /** Lane 0 of every word. */
  function Mask0(q: State): State
  {
    MapOctet(Lane0, q)
  }

  /** The two lanes of every word exchanged. */
  function LaneSwap(q: State): State
  {
    MapOctet(SwapBits, q)
  }

  lemma Lo1ZeroB(a: byte, b: byte)
    ensures Lo1B(a, 0) == Lane0B(Lo1B(a, b))
  {
  }

  lemma Hi1ZeroB(a: byte, b: byte)
    ensures Hi1B(a, 0) == Lane0B(Hi1B(a, b))
  {
  }

  lemma Lo2LaneB(a: byte, b: byte)
    ensures Lo2B(Lane0B(a), Lane0B(b)) == Lane0B(Lo2B(a, b))
  {
  }

  lemma Hi2LaneB(a: byte, b: byte)
    ensures Hi2B(Lane0B(a), Lane0B(b)) == Lane0B(Hi2B(a, b))
  {
  }

  lemma Lo4LaneB(a: byte, b: byte)
    ensures Lo4B(Lane0B(a), Lane0B(b)) == Lane0B(Lo4B(a, b))
  {
  }

  lemma Hi4LaneB(a: byte, b: byte)
    ensures Hi4B(Lane0B(a), Lane0B(b)) == Lane0B(Hi4B(a, b))
  {
  }

  lemma Stage1ZeroOdd(x: Octet<byte>)
    ensures Stage1(ByteSwaps, ZeroOdd(x, 0)) == MapOctet(Lane0B, Stage1(ByteSwaps, x))
  {
    Lo1ZeroB(x.q0, x.q1);
    Hi1ZeroB(x.q0, x.q1);
    Lo1ZeroB(x.q2, x.q3);
    Hi1ZeroB(x.q2, x.q3);
    Lo1ZeroB(x.q4, x.q5);
    Hi1ZeroB(x.q4, x.q5);
    Lo1ZeroB(x.q6, x.q7);
    Hi1ZeroB(x.q6, x.q7);
  }

  lemma Stage2Lane0(x: Octet<byte>)
    ensures Stage2(ByteSwaps, MapOctet(Lane0B, x)) == MapOctet(Lane0B, Stage2(ByteSwaps, x))
  {
    Lo2LaneB(x.q0, x.q2);
    Hi2LaneB(x.q0, x.q2);
    Lo2LaneB(x.q1, x.q3);
    Hi2LaneB(x.q1, x.q3);
    Lo2LaneB(x.q4, x.q6);
    Hi2LaneB(x.q4, x.q6);
    Lo2LaneB(x.q5, x.q7);
    Hi2LaneB(x.q5, x.q7);
  }

  lemma Stage3Lane0(x: Octet<byte>)
    ensures Stage3(ByteSwaps, MapOctet(Lane0B, x)) == MapOctet(Lane0B, Stage3(ByteSwaps, x))
  {
    Lo4LaneB(x.q0, x.q4);
    Hi4LaneB(x.q0, x.q4);
    Lo4LaneB(x.q1, x.q5);
    Hi4LaneB(x.q1, x.q5);
    Lo4LaneB(x.q2, x.q6);
    Hi4LaneB(x.q2, x.q6);
    Lo4LaneB(x.q3, x.q7);
    Hi4LaneB(x.q3, x.q7);
  }

  lemma OrthoBytesZeroOdd(x: Octet<byte>)
    ensures OrthoBytes(ZeroOdd(x, 0)) == MapOctet(Lane0B, OrthoBytes(x))
  {
    var s := ByteSwaps;
    Stage1ZeroOdd(x);
    Stage2Lane0(Stage1(s, x));
    Stage3Lane0(Stage2(s, Stage1(s, x)));
  }

  lemma Lo1SwapB(a: byte, b: byte)
    ensures Lo1B(SwapBitsB(a), SwapBitsB(b)) == Hi1B(a, b)
  {
  }

  lemma Hi1SwapB(a: byte, b: byte)
    ensures Hi1B(SwapBitsB(a), SwapBitsB(b)) == Lo1B(a, b)
  {
  }

  lemma Stage1Swap(x: Octet<byte>)
    ensures Stage1(ByteSwaps, MapOctet(SwapBitsB, x)) == WordSwap(Stage1(ByteSwaps, x))
  {
    Lo1SwapB(x.q0, x.q1);
    Hi1SwapB(x.q0, x.q1);
    Lo1SwapB(x.q2, x.q3);
    Hi1SwapB(x.q2, x.q3);
    Lo1SwapB(x.q4, x.q5);
    Hi1SwapB(x.q4, x.q5);
    Lo1SwapB(x.q6, x.q7);
    Hi1SwapB(x.q6, x.q7);
  }

  lemma OrthoBytesSwap(x: Octet<byte>)
    ensures OrthoBytes(MapOctet(SwapBitsB, x)) == WordSwap(OrthoBytes(x))
  {
    Stage1Swap(x);
  }

  lemma ByteOfLane0(w: word, k: bv2)
    ensures ByteOf(k, Lane0(w)) == Lane0B(ByteOf(k, w))
  {
  }

  lemma ByteOfSwapBits(w: word, k: bv2)
    ensures ByteOf(k, SwapBits(w)) == SwapBitsB(ByteOf(k, w))
  {
  }

  lemma ByteViewMask0(k: bv2, q: State)
    ensures ByteView(k, Mask0(q)) == MapOctet(Lane0B, ByteView(k, q))
  {
    forall w ensures ByteAt(k)(Lane0(w)) == Lane0B(ByteAt(k)(w)) {
      ByteOfLane0(w, k);
    }
    MapMapHom(ByteAt(k), Lane0, Lane0B, q);
  }

  lemma ByteViewLaneSwap(k: bv2, q: State)
    ensures ByteView(k, LaneSwap(q)) == MapOctet(SwapBitsB, ByteView(k, q))
  {
    forall w ensures ByteAt(k)(SwapBits(w)) == SwapBitsB(ByteAt(k)(w)) {
      ByteOfSwapBits(w, k);
    }
    MapMapHom(ByteAt(k), SwapBits, SwapBitsB, q);
  }

  lemma ByteViewZeroOdd(k: bv2, q: State)
    ensures ByteView(k, ZeroOdd(q, 0)) == ZeroOdd(ByteView(k, q), 0)
  {
    assert ByteOf(k, 0) == 0;
  }

  /** Clearing the odd words before `ortho` clears lane 1 after it. */
  lemma OrthoZeroOdd(q: State)
    ensures Ortho(ZeroOdd(q, 0)) == Mask0(Ortho(q))
  {
    forall k: bv2 ensures ByteView(k, Ortho(ZeroOdd(q, 0))) == ByteView(k, Mask0(Ortho(q))) {
      OrthoByteView(k, ZeroOdd(q, 0));
      ByteViewZeroOdd(k, q);
      OrthoBytesZeroOdd(ByteView(k, q));
      OrthoByteView(k, q);
      ByteViewMask0(k, Ortho(q));
    }
    StateExt(Ortho(ZeroOdd(q, 0)), Mask0(Ortho(q)));
  }

  /** Clearing lane 1 before `ortho` clears the odd words after it. */
  lemma OrthoMask0(q: State)
    ensures Ortho(Mask0(q)) == ZeroOdd(Ortho(q), 0)
  {
    OrthoZeroOdd(Ortho(q));
    OrthoInvolution(q);
    OrthoInvolution(ZeroOdd(Ortho(q), 0));
  }

  /** Exchanging the lanes before `ortho` exchanges words `2i`, `2i + 1`
      after it. */
  lemma OrthoLaneSwap(q: State)
    ensures Ortho(LaneSwap(q)) == WordSwap(Ortho(q))
  {
    forall k: bv2 ensures ByteView(k, Ortho(LaneSwap(q))) == ByteView(k, WordSwap(Ortho(q))) {
      OrthoByteView(k, LaneSwap(q));
      ByteViewLaneSwap(k, q);
      OrthoBytesSwap(ByteView(k, q));
      OrthoByteView(k, q);
    }
    StateExt(Ortho(LaneSwap(q)), WordSwap(Ortho(q)));
  }

  lemma OrthoWordSwap(q: State)
    ensures Ortho(WordSwap(q)) == LaneSwap(Ortho(q))
  {
    OrthoLaneSwap(Ortho(q));
    OrthoInvolution(q);
    OrthoInvolution(LaneSwap(Ortho(q)));
  }

  // ---------------------------------------------------------------------
  // Loading and storing blocks (`load4xU32`, `load8xU32`, `store4xU32`,
  // `store8xU32`).
  // ---------------------------------------------------------------------

  /** The little-endian words of two blocks interleaved: block `b0` in the
      even words, block `b1` in the odd words. */
  function Spread(b0: Block, b1: Block): State
  {
    Octet(LoadLe32(b0, 0), LoadLe32(b1, 0), LoadLe32(b0, 4), LoadLe32(b1, 4),
          LoadLe32(b0, 8), LoadLe32(b1, 8), LoadLe32(b0, 12), LoadLe32(b1, 12))
  }

  /** Two blocks in bitsliced form: `b0` in lane 0, `b1` in lane 1. */
  function Load8(b0: Block, b1: Block): State
  {
    Ortho(Spread(b0, b1))
  }

  /** One block in bitsliced form, lane 1 left empty. */
  function Load4(b: Block): State
  {
    Ortho(Octet(LoadLe32(b, 0), 0, LoadLe32(b, 4), 0, LoadLe32(b, 8), 0, LoadLe32(b, 12), 0))
  }

  /** The block held in lane 0. */
  function Store4(q: State): Block
  {
    var t := Ortho(q);
    StoreLe4(t.q0, t.q2, t.q4, t.q6)
  }

  /** The blocks held in lanes 0 and 1. */
  function Store8(q: State): (Block, Block)
  {
    var t := Ortho(q);
    (StoreLe4(t.q0, t.q2, t.q4, t.q6), StoreLe4(t.q1, t.q3, t.q5, t.q7))
  }

  /** Storing what was loaded gives back both blocks. */
  lemma Store8Load8(b0: Block, b1: Block)
    ensures Store8(Load8(b0, b1)) == (b0, b1)
  {
    OrthoInvolution(Spread(b0, b1));
    StoreLe4Load(b0);
    StoreLe4Load(b1);
  }

  /** Loading what was stored gives back the state: the bitsliced form
      loses nothing. */
  lemma Load8Store8(q: State)
    ensures Load8(Store8(q).0, Store8(q).1) == q
  {
    var t := Ortho(q);
    LoadStoreLe4(t.q0, t.q2, t.q4, t.q6);
    LoadStoreLe4(t.q1, t.q3, t.q5, t.q7);
    assert Spread(Store8(q).0, Store8(q).1) == t;
    OrthoInvolution(q);
  }

  /** Loading one block is loading it into lane 0 and clearing lane 1,
      whatever the second block. */
  lemma Load4Lane0(b: Block, c: Block)
    ensures Load4(b) == Mask0(Load8(b, c))
  {
    assert ZeroOdd(Spread(b, c), 0)
        == Octet(LoadLe32(b, 0), 0, LoadLe32(b, 4), 0, LoadLe32(b, 8), 0, LoadLe32(b, 12), 0);
    OrthoZeroOdd(Spread(b, c));
  }

  lemma Store4Load4(b: Block)
    ensures Store4(Load4(b)) == b
  {
    Load4Lane0(b, b);
    Store4Mask0(Load8(b, b));
    Store8Load8(b, b);
  }

  /** A load after a store keeps lane 0 and clears lane 1. */
  lemma Load4Store4(q: State)
    ensures Load4(Store4(q)) == Mask0(q)
  {
    Load4Lane0(Store4(q), Store8(q).1);
    Load8Store8(q);
  }

  /** The stored block depends on lane 0 only. */
  lemma Store4Mask0(q: State)
    ensures Store4(Mask0(q)) == Store4(q)
  {
    OrthoMask0(q);
  }

  /** Exchanging the two blocks exchanges the lanes. */
  lemma Load8Swap(b0: Block, b1: Block)
    ensures Load8(b1, b0) == LaneSwap(Load8(b0, b1))
  {
    assert Spread(b1, b0) == WordSwap(Spread(b0, b1));
    OrthoWordSwap(Spread(b0, b1));
  }

  /** Exchanging the lanes exchanges the stored blocks. */
  lemma Store8Swap(q: State)
    ensures Store8(LaneSwap(q)) == (Store8(q).1, Store8(q).0)
  {
    OrthoLaneSwap(q);
  }

  lemma GetSpread(b0: Block, b1: Block, s: bv3)
    ensures Get(Spread(b0, b1), s) == LoadLe32(if s % 2 == 0 then b0 else b1, 4 * ((s / 2) as int))
  {
  }

  lemma StoreLe32Byte(w: word, r: bv2)
    ensures StoreLe32(w)[r as int] == ByteOf(r, w)
  {
  }

  lemma ByteOfLoad(b: Block, off: nat, r: bv2)
    requires off + 4 <= 16
    ensures ByteOf(r, LoadLe32(b, off)) == b[off + r as int]
  {
    StoreLoadLe32(b, off);
    StoreLe32Byte(LoadLe32(b, off), r);
  }

  /** Where the bits of the two blocks go: bit `k` of byte `4c + r` of block
      `l` (AES row `r`, column `c`) is bit `8r + 2c + l` of word `k`. */
  lemma Load8Layout(b0: Block, b1: Block, k: bv3, r: bv2, s: bv3)
    ensures Bit(Get(Load8(b0, b1), k), BitPos(r, s))
         == ByteBit((if s % 2 == 0 then b0 else b1)[4 * ((s / 2) as int) + r as int], k)
  {
    OrthoTranspose(Spread(b0, b1), k, s, r);
    GetSpread(b0, b1, s);
    BitOfByteOf(Get(Spread(b0, b1), s), r, k);
    ByteOfLoad(if s % 2 == 0 then b0 else b1, 4 * ((s / 2) as int), r);
  }

  // ---------------------------------------------------------------------
  // Compressed round keys (`rkeyOrtho`, `skeyExpand`).  A compressed key
  // word keeps lane 0 of one word and lane 1 of the next; expansion copies
  // each lane into the other.
  // ---------------------------------------------------------------------

  function Compress(a: word, b: word): word
  {
    (a & OddsMask) | (b & EvensMask)
  }

  /** Lane 0 of `c` copied into both lanes. */
  function ExpandLo(c: word): word
  {
    (c & OddsMask) | ((c & OddsMask) << 1)
  }

  /** Lane 1 of `c` copied into both lanes. */
  function ExpandHi(c: word): word
  {
    (c & EvensMask) | ((c & EvensMask) >> 1)
  }

  /** Expanding and compressing again gives back the compressed word. */
  lemma CompressExpand(c: word)
    ensures Compress(ExpandLo(c), ExpandHi(c)) == c
  {
  }

  /** Compressing two words whose lanes agree, and expanding again, gives
      back the two words. */
  lemma ExpandCompress(a: word, b: word)
    requires SwapBits(a) == a && SwapBits(b) == b
    ensures ExpandLo(Compress(a, b)) == a && ExpandHi(Compress(a, b)) == b
  {
  }

  /** Both words of an expanded word have equal lanes. */
  lemma ExpandLanes(c: word)
    ensures SwapBits(ExpandLo(c)) == ExpandLo(c) && SwapBits(ExpandHi(c)) == ExpandHi(c)
  {
  }

  function ExpandPair(q: State): State
  {
    Octet(ExpandLo(Compress(q.q0, q.q1)), ExpandHi(Compress(q.q0, q.q1)),
          ExpandLo(Compress(q.q2, q.q3)), ExpandHi(Compress(q.q2, q.q3)),
          ExpandLo(Compress(q.q4, q.q5)), ExpandHi(Compress(q.q4, q.q5)),
          ExpandLo(Compress(q.q6, q.q7)), ExpandHi(Compress(q.q6, q.q7)))
  }

  /** A 16-byte key (the nonce block of the keystream) loaded into both
      lanes, then passed through a compression and expansion. */
  function RkeyOrtho(key: Block): State
  {
    var x0, x1, x2, x3 := LoadLe32(key, 0), LoadLe32(key, 4), LoadLe32(key, 8), LoadLe32(key, 12);
    ExpandPair(Ortho(Octet(x0, x0, x1, x1, x2, x2, x3, x3)))
  }

  /** `rkeyOrtho(key)` is `load8xU32(key, key)`: the compress/expand step
      changes nothing, because both lanes already hold the same block. */
  lemma RkeyOrthoLoad8(key: Block)
    ensures RkeyOrtho(key) == Load8(key, key)
  {
    var q := Spread(key, key);
    var t := Ortho(q);
    assert WordSwap(q) == q;
    OrthoWordSwap(q);
    assert LaneSwap(t) == t;
    ExpandCompress(t.q0, t.q1);
    ExpandCompress(t.q2, t.q3);
    ExpandCompress(t.q4, t.q5);
    ExpandCompress(t.q6, t.q7);
  }
}
