/** The four AES round transformations of src/aes.ts on the bitsliced
    state: eight 32-bit words `q[0..7]`, word `k` holding bit `k` of every
    state byte.  Within a word, bit `8*r + 2*c + l` belongs to row `r`,
    column `c` of the AES state carried in lane `l` (two blocks are
    processed side by side; see module AesPack for the packing). */
module AesRound {
  import opened Bytes

  /** Eight values indexed like the source's `q[0]` … `q[7]`. */
  datatype Octet<T> = Octet(q0: T, q1: T, q2: T, q3: T, q4: T, q5: T, q6: T, q7: T)

  /** The bitsliced state (`newQ()`): a `Uint32Array(8)`. */
  type State = Octet<word>

  const ZeroState: State := Octet(0, 0, 0, 0, 0, 0, 0, 0)

  /** Apply `f` to each of the eight words. */
  function MapOctet<A, B>(f: A -> B, x: Octet<A>): Octet<B>
  {
    Octet(f(x.q0), f(x.q1), f(x.q2), f(x.q3), f(x.q4), f(x.q5), f(x.q6), f(x.q7))
  }

  /** Combine two octets position by position. */
  function Zip<T>(f: (T, T) -> T, a: Octet<T>, b: Octet<T>): Octet<T>
  {
    Octet(f(a.q0, b.q0), f(a.q1, b.q1), f(a.q2, b.q2), f(a.q3, b.q3),
          f(a.q4, b.q4), f(a.q5, b.q5), f(a.q6, b.q6), f(a.q7, b.q7))
  }

  /** A map that commutes with `f` word by word commutes with `MapOctet(f, _)`. */
  lemma MapMapHom<A(!new), B>(h: A -> B, f: A -> A, g: B -> B, x: Octet<A>)
    requires forall v :: h(f(v)) == g(h(v))
    ensures MapOctet(h, MapOctet(f, x)) == MapOctet(g, MapOctet(h, x))
  {
  }

  lemma MapCompose<A(!new), B, C>(f: A -> C, g: B -> C, h: A -> B, x: Octet<A>)
    requires forall v :: f(v) == g(h(v))
    ensures MapOctet(f, x) == MapOctet(g, MapOctet(h, x))
  {
  }

  /** A word map undone by `g` is undone by `MapOctet(g, _)`. */
  lemma MapMapInverse<A(!new)>(f: A -> A, g: A -> A, x: Octet<A>)
    requires forall v :: g(f(v)) == v
    ensures MapOctet(g, MapOctet(f, x)) == x
  {
  }

  /** A map that turns `f` into `g` word by word does so position by position. */
  lemma MapZipHom<A(!new), B>(h: A -> B, f: (A, A) -> A, g: (B, B) -> B, a: Octet<A>, b: Octet<A>)
    requires forall u, v :: h(f(u, v)) == g(h(u), h(v))
    ensures MapOctet(h, Zip(f, a, b)) == Zip(g, MapOctet(h, a), MapOctet(h, b))
  {
  }

  lemma ZipCancel<T(!new)>(f: (T, T) -> T, a: Octet<T>, b: Octet<T>)
    requires forall u, v :: f(f(u, v), v) == u
    ensures Zip(f, Zip(f, a, b), b) == a
  {
  }

  lemma ZipAssoc<T(!new)>(f: (T, T) -> T, a: Octet<T>, b: Octet<T>, c: Octet<T>)
    requires forall u, v, w :: f(f(u, v), w) == f(u, f(v, w))
    ensures Zip(f, Zip(f, a, b), c) == Zip(f, a, Zip(f, b, c))
  {
  }

  /** `uint32_xor2`. */
  function WordXor(a: word, b: word): word
  {
    a ^ b
  }

  lemma BvXorCancel(a: word, b: word)
    ensures (a ^ b) ^ b == a
  {
  }

  lemma BvXorAssoc(a: word, b: word, c: word)
    ensures (a ^ b) ^ c == a ^ (b ^ c)
  {
  }

  lemma XorComm(a: word, b: word)
    ensures WordXor(a, b) == WordXor(b, a)
  {
  }

  lemma XorAssoc(a: word, b: word, c: word)
    ensures WordXor(WordXor(a, b), c) == WordXor(a, WordXor(b, c))
  {
    BvXorAssoc(a, b, c);
  }

  /** Exchanging the middle operands of a four-way XOR. */
  lemma XorSwap(a: word, b: word, c: word, d: word)
    ensures WordXor(WordXor(a, b), WordXor(c, d)) == WordXor(WordXor(a, c), WordXor(b, d))
  {
    calc {
      WordXor(WordXor(a, b), WordXor(c, d));
      { XorAssoc(a, b, WordXor(c, d)); }
      WordXor(a, WordXor(b, WordXor(c, d)));
      { XorAssoc(b, c, d); XorComm(b, c); XorAssoc(c, b, d); }
      WordXor(a, WordXor(c, WordXor(b, d)));
      { XorAssoc(a, c, WordXor(b, d)); }
      WordXor(WordXor(a, c), WordXor(b, d));
    }
  }

  lemma WordXorCancel()
    ensures forall a, b :: WordXor(WordXor(a, b), b) == a
  {
    forall a, b ensures WordXor(WordXor(a, b), b) == a {
      BvXorCancel(a, b);
    }
  }

  lemma WordXorAssoc()
    ensures forall a, b, c :: WordXor(WordXor(a, b), c) == WordXor(a, WordXor(b, c))
  {
    forall a, b, c ensures WordXor(WordXor(a, b), c) == WordXor(a, WordXor(b, c)) {
      XorAssoc(a, b, c);
    }
  }

  /** Word-wise XOR of two states. */
  function XorState(a: State, b: State): State
  {
    Zip(WordXor, a, b)
  }

  // ---------------------------------------------------------------------
  // AddRoundKey (section 5.1.4 of FIPS 197)
  // ---------------------------------------------------------------------

  /** `addRoundKey(q, sk)`: XOR the round key into the state. */
  function AddRoundKey(q: State, sk: State): (r: State)
  {
    XorState(q, sk)
  }

  /** Adding the same round key twice restores the state. */
  lemma AddRoundKeyInvolution(q: State, sk: State)
    ensures AddRoundKey(AddRoundKey(q, sk), sk) == q
  {
    WordXorCancel();
    ZipCancel(WordXor, q, sk);
  }

  /** Adding two round keys in turn is adding their XOR. */
  lemma AddRoundKeyCompose(q: State, a: State, b: State)
    ensures AddRoundKey(AddRoundKey(q, a), b) == AddRoundKey(q, XorState(a, b))
  {
    WordXorAssoc();
    ZipAssoc(WordXor, q, a, b);
  }

  // ---------------------------------------------------------------------
  // SubBytes (section 5.1.1 of FIPS 197), Boyar-Peralta circuit
  // ---------------------------------------------------------------------

  /** The three gates the circuit is built from, over any carrier: 32-bit
      words (32 S-box evaluations at once) or single bits. */
  datatype Ops<!T> = Ops(xor: (T, T) -> T, and: (T, T) -> T, not: T -> T)

  /** The S-box circuit of `subBytes`, written once over an arbitrary
      carrier.  Inputs are numbered as in the source: `x0` is `q[7]` (the
      high bit) down to `x7` = `q[0]`; output `s0` goes back to `q[7]`. */
  function BoyarPeralta<T>(ops: Ops<T>, q: Octet<T>): Octet<T>
  {
    var x0 := q.q7; var x1 := q.q6; var x2 := q.q5; var x3 := q.q4;
    var x4 := q.q3; var x5 := q.q2; var x6 := q.q1; var x7 := q.q0;
    var y14 := ops.xor(x3, x5);
    var y13 := ops.xor(x0, x6);
    var y9 := ops.xor(x0, x3);
    var y8 := ops.xor(x0, x5);
    var t0 := ops.xor(x1, x2);
    var y1 := ops.xor(t0, x7);
    var y4 := ops.xor(y1, x3);
    var y12 := ops.xor(y13, y14);
    var y2 := ops.xor(y1, x0);
    var y5 := ops.xor(y1, x6);
    var y3 := ops.xor(y5, y8);
    var t1 := ops.xor(x4, y12);
    var y15 := ops.xor(t1, x5);
    var y20 := ops.xor(t1, x1);
    var y6 := ops.xor(y15, x7);
    var y10 := ops.xor(y15, t0);
    var y11 := ops.xor(y20, y9);
    var y7 := ops.xor(x7, y11);
    var y17 := ops.xor(y10, y11);
    var y19 := ops.xor(y10, y8);
    var y16 := ops.xor(t0, y11);
    var y21 := ops.xor(y13, y16);
    var y18 := ops.xor(x0, y16);
    var t2 := ops.and(y12, y15);
    var t3 := ops.and(y3, y6);
    var t4 := ops.xor(t3, t2);
    var t5 := ops.and(y4, x7);
    var t6 := ops.xor(t5, t2);
    var t7 := ops.and(y13, y16);
    var t8 := ops.and(y5, y1);
    var t9 := ops.xor(t8, t7);
    var t10 := ops.and(y2, y7);
    var t11 := ops.xor(t10, t7);
    var t12 := ops.and(y9, y11);
    var t13 := ops.and(y14, y17);
    var t14 := ops.xor(t13, t12);
    var t15 := ops.and(y8, y10);
    var t16 := ops.xor(t15, t12);
    var t17 := ops.xor(t4, t14);
    var t18 := ops.xor(t6, t16);
    var t19 := ops.xor(t9, t14);
    var t20 := ops.xor(t11, t16);
    var t21 := ops.xor(t17, y20);
    var t22 := ops.xor(t18, y19);
    var t23 := ops.xor(t19, y21);
    var t24 := ops.xor(t20, y18);
    var t25 := ops.xor(t21, t22);
    var t26 := ops.and(t21, t23);
    var t27 := ops.xor(t24, t26);
    var t28 := ops.and(t25, t27);
    var t29 := ops.xor(t28, t22);
    var t30 := ops.xor(t23, t24);
    var t31 := ops.xor(t22, t26);
    var t32 := ops.and(t31, t30);
    var t33 := ops.xor(t32, t24);
    var t34 := ops.xor(t23, t33);
    var t35 := ops.xor(t27, t33);
    var t36 := ops.and(t24, t35);
    var t37 := ops.xor(t36, t34);
    var t38 := ops.xor(t27, t36);
    var t39 := ops.and(t29, t38);
    var t40 := ops.xor(t25, t39);
    var t41 := ops.xor(t40, t37);
    var t42 := ops.xor(t29, t33);
    var t43 := ops.xor(t29, t40);
    var t44 := ops.xor(t33, t37);
    var t45 := ops.xor(t42, t41);
    var z0 := ops.and(t44, y15);
    var z1 := ops.and(t37, y6);
    var z2 := ops.and(t33, x7);
    var z3 := ops.and(t43, y16);
    var z4 := ops.and(t40, y1);
    var z5 := ops.and(t29, y7);
    var z6 := ops.and(t42, y11);
    var z7 := ops.and(t45, y17);
    var z8 := ops.and(t41, y10);
    var z9 := ops.and(t44, y12);
    var z10 := ops.and(t37, y3);
    var z11 := ops.and(t33, y4);
    var z12 := ops.and(t43, y13);
    var z13 := ops.and(t40, y5);
    var z14 := ops.and(t29, y2);
    var z15 := ops.and(t42, y9);
    var z16 := ops.and(t45, y14);
    var z17 := ops.and(t41, y8);
    var t46 := ops.xor(z15, z16);
    var t47 := ops.xor(z10, z11);
    var t48 := ops.xor(z5, z13);
    var t49 := ops.xor(z9, z10);
    var t50 := ops.xor(z2, z12);
    var t51 := ops.xor(z2, z5);
    var t52 := ops.xor(z7, z8);
    var t53 := ops.xor(z0, z3);
    var t54 := ops.xor(z6, z7);
    var t55 := ops.xor(z16, z17);
    var t56 := ops.xor(z12, t48);
    var t57 := ops.xor(t50, t53);
    var t58 := ops.xor(z4, t46);
    var t59 := ops.xor(z3, t54);
    var t60 := ops.xor(t46, t57);
    var t61 := ops.xor(z14, t57);
    var t62 := ops.xor(t52, t58);
    var t63 := ops.xor(t49, t58);
    var t64 := ops.xor(z4, t59);
    var t65 := ops.xor(t61, t62);
    var t66 := ops.xor(z1, t63);
    var s0 := ops.xor(t59, t63);
    var s6 := ops.xor(t56, ops.not(t62));
    var s7 := ops.xor(t48, ops.not(t60));
    var t67 := ops.xor(t64, t65);
    var s3 := ops.xor(t53, t66);
    var s4 := ops.xor(t51, t66);
    var s5 := ops.xor(t47, t65);
    var s1 := ops.xor(t64, ops.not(s3));
    var s2 := ops.xor(t55, ops.not(t67));
    Octet(s7, s6, s5, s4, s3, s2, s1, s0)
  }

  /** `h` maps the gates of `p` onto the gates of `q`. */
  ghost predicate IsHom<A(!new), B>(h: A -> B, p: Ops<A>, q: Ops<B>)
  {
    && (forall a, b :: h(p.xor(a, b)) == q.xor(h(a), h(b)))
    && (forall a, b :: h(p.and(a, b)) == q.and(h(a), h(b)))
    && (forall a :: h(p.not(a)) == q.not(h(a)))
  }

  /** A straight-line circuit commutes with every gate homomorphism. */
  lemma CircuitHom<A(!new), B>(h: A -> B, p: Ops<A>, q: Ops<B>, x: Octet<A>)
    requires IsHom(h, p, q)
    ensures MapOctet(h, BoyarPeralta(p, x)) == BoyarPeralta(q, MapOctet(h, x))
  {
  }

  /** `uint32_xor2`, `uint32_and` and `uint32_not`. */
  const WordOps: Ops<word> := Ops(WordXor, WordAnd, WordNot)

  /** `uint32_and`. */
  function WordAnd(a: word, b: word): word
  {
    a & b
  }

  /** `uint32_not`. */
  function WordNot(a: word): word
  {
    !a
  }

  /** The same gates on single bits. */
  const BitOps: Ops<bool> := Ops((a: bool, b: bool) => a != b, (a: bool, b: bool) => a && b, (a: bool) => !a)

  /** `subBytes(q)`. */
  function SubBytes(q: State): (r: State)
  {
    BoyarPeralta(WordOps, q)
  }

  /** Bit `s` of a byte. */
  function ByteBit(b: byte, s: bv3): bool
  {
    (b >> s) & 1 == 1
  }

  /** The eight bits of a byte, bit `k` at index `k` (as a byte column of
      the bitsliced state: bit `k` lives in word `q[k]`). */
  function BitsOf(b: byte): Octet<bool>
  {
    Octet(ByteBit(b, 0), ByteBit(b, 1), ByteBit(b, 2), ByteBit(b, 3),
          ByteBit(b, 4), ByteBit(b, 5), ByteBit(b, 6), ByteBit(b, 7))
  }

  /** The byte whose bit `k` is `o[k]`. */
  function FromBits(o: Octet<bool>): byte
  {
    (if o.q0 then 0x01 else 0) | (if o.q1 then 0x02 else 0) | (if o.q2 then 0x04 else 0)
    | (if o.q3 then 0x08 else 0) | (if o.q4 then 0x10 else 0) | (if o.q5 then 0x20 else 0)
    | (if o.q6 then 0x40 else 0) | (if o.q7 then 0x80 else 0)
  }

  lemma BitsOfFromBits(o: Octet<bool>)
    ensures BitsOf(FromBits(o)) == o
  {
  }

  lemma FromBitsOf(b: byte)
    ensures FromBits(BitsOf(b)) == b
  {
  }

  /** The AES S-box as the one-bit circuit: one column of `subBytes`. */
  function Sbox(b: byte): byte
  {
    FromBits(BoyarPeralta(BitOps, BitsOf(b)))
  }

  /** Bit `p` of a word. */
  function Bit(v: word, p: bv5): bool
  {
    (v >> p) & 1 == 1
  }

  function BitAt(p: bv5): word -> bool
  {
    (v: word) => Bit(v, p)
  }

  lemma BitOfXor(a: word, b: word, p: bv5)
    ensures Bit(a ^ b, p) == (Bit(a, p) != Bit(b, p))
  {
  }

  lemma BitOfAnd(a: word, b: word, p: bv5)
    ensures Bit(a & b, p) == (Bit(a, p) && Bit(b, p))
  {
  }

  lemma BitOfNot(a: word, p: bv5)
    ensures Bit(!a, p) == !Bit(a, p)
  {
  }

  lemma BitXor(a: word, b: word, p: bv5)
    ensures BitAt(p)(WordOps.xor(a, b)) == BitOps.xor(BitAt(p)(a), BitAt(p)(b))
  {
    BitOfXor(a, b, p);
  }

  lemma BitAnd(a: word, b: word, p: bv5)
    ensures BitAt(p)(WordOps.and(a, b)) == BitOps.and(BitAt(p)(a), BitAt(p)(b))
  {
    BitOfAnd(a, b, p);
  }

  lemma BitNot(a: word, p: bv5)
    ensures BitAt(p)(WordOps.not(a)) == BitOps.not(BitAt(p)(a))
  {
    BitOfNot(a, p);
  }

  lemma BitHom(p: bv5)
    ensures IsHom(BitAt(p), WordOps, BitOps)
  {
    forall a: word, b: word ensures BitAt(p)(WordOps.xor(a, b)) == BitOps.xor(BitAt(p)(a), BitAt(p)(b)) {
      BitXor(a, b, p);
    }
    forall a: word, b: word ensures BitAt(p)(WordOps.and(a, b)) == BitOps.and(BitAt(p)(a), BitAt(p)(b)) {
      BitAnd(a, b, p);
    }
    forall a: word ensures BitAt(p)(WordOps.not(a)) == BitOps.not(BitAt(p)(a)) {
      BitNot(a, p);
    }
  }

  /** `subBytes` is bitsliced: bit `p` of the eight output words is the
      one-bit circuit applied to bit `p` of the eight input words, so each
      of the 32 positions is an independent S-box evaluation. */
  lemma SubBytesBitsliced(q: State, p: bv5)
    ensures MapOctet(BitAt(p), SubBytes(q)) == BoyarPeralta(BitOps, MapOctet(BitAt(p), q))
  {
    BitHom(p);
    CircuitHom(BitAt(p), WordOps, BitOps, q);
  }

  /** Read across the eight words at one bit position, `subBytes` is the
      S-box: the byte formed by bit `p` of the output words is `Sbox` of
      the byte formed by bit `p` of the input words. */
  lemma SubBytesSbox(q: State, p: bv5)
    ensures FromBits(MapOctet(BitAt(p), SubBytes(q))) == Sbox(FromBits(MapOctet(BitAt(p), q)))
  {
    SubBytesBitsliced(q, p);
    BitsOfFromBits(MapOctet(BitAt(p), q));
  }

  /** The circuit is the S-box of section 5.1.1 of FIPS 197: its 256
      values, one row of the table (Figure 7) per lemma, row `x` holding
      the inputs `{x0}` to `{xf}`.  Each row is gathered from eight pairs of
      values, which the solver checks by evaluating the circuit. */
  lemma SboxRow0()
    ensures Sbox(0x00) == 0x63 && Sbox(0x01) == 0x7c && Sbox(0x02) == 0x77 && Sbox(0x03) == 0x7b
         && Sbox(0x04) == 0xf2 && Sbox(0x05) == 0x6b && Sbox(0x06) == 0x6f && Sbox(0x07) == 0xc5
         && Sbox(0x08) == 0x30 && Sbox(0x09) == 0x01 && Sbox(0x0a) == 0x67 && Sbox(0x0b) == 0x2b
         && Sbox(0x0c) == 0xfe && Sbox(0x0d) == 0xd7 && Sbox(0x0e) == 0xab && Sbox(0x0f) == 0x76
  {
    SboxPair00(); SboxPair02(); SboxPair04(); SboxPair06();
    SboxPair08(); SboxPair0A(); SboxPair0C(); SboxPair0E();
  }

  lemma SboxRow1()
    ensures Sbox(0x10) == 0xca && Sbox(0x11) == 0x82 && Sbox(0x12) == 0xc9 && Sbox(0x13) == 0x7d
         && Sbox(0x14) == 0xfa && Sbox(0x15) == 0x59 && Sbox(0x16) == 0x47 && Sbox(0x17) == 0xf0
         && Sbox(0x18) == 0xad && Sbox(0x19) == 0xd4 && Sbox(0x1a) == 0xa2 && Sbox(0x1b) == 0xaf
         && Sbox(0x1c) == 0x9c && Sbox(0x1d) == 0xa4 && Sbox(0x1e) == 0x72 && Sbox(0x1f) == 0xc0
  {
    SboxPair10(); SboxPair12(); SboxPair14(); SboxPair16();
    SboxPair18(); SboxPair1A(); SboxPair1C(); SboxPair1E();
  }

  lemma SboxRow2()
    ensures Sbox(0x20) == 0xb7 && Sbox(0x21) == 0xfd && Sbox(0x22) == 0x93 && Sbox(0x23) == 0x26
         && Sbox(0x24) == 0x36 && Sbox(0x25) == 0x3f && Sbox(0x26) == 0xf7 && Sbox(0x27) == 0xcc
         && Sbox(0x28) == 0x34 && Sbox(0x29) == 0xa5 && Sbox(0x2a) == 0xe5 && Sbox(0x2b) == 0xf1
         && Sbox(0x2c) == 0x71 && Sbox(0x2d) == 0xd8 && Sbox(0x2e) == 0x31 && Sbox(0x2f) == 0x15
  {
    SboxPair20(); SboxPair22(); SboxPair24(); SboxPair26();
    SboxPair28(); SboxPair2A(); SboxPair2C(); SboxPair2E();
  }

  lemma SboxRow3()
    ensures Sbox(0x30) == 0x04 && Sbox(0x31) == 0xc7 && Sbox(0x32) == 0x23 && Sbox(0x33) == 0xc3
         && Sbox(0x34) == 0x18 && Sbox(0x35) == 0x96 && Sbox(0x36) == 0x05 && Sbox(0x37) == 0x9a
         && Sbox(0x38) == 0x07 && Sbox(0x39) == 0x12 && Sbox(0x3a) == 0x80 && Sbox(0x3b) == 0xe2
         && Sbox(0x3c) == 0xeb && Sbox(0x3d) == 0x27 && Sbox(0x3e) == 0xb2 && Sbox(0x3f) == 0x75
  {
    SboxPair30(); SboxPair32(); SboxPair34(); SboxPair36();
    SboxPair38(); SboxPair3A(); SboxPair3C(); SboxPair3E();
  }

  lemma SboxRow4()
    ensures Sbox(0x40) == 0x09 && Sbox(0x41) == 0x83 && Sbox(0x42) == 0x2c && Sbox(0x43) == 0x1a
         && Sbox(0x44) == 0x1b && Sbox(0x45) == 0x6e && Sbox(0x46) == 0x5a && Sbox(0x47) == 0xa0
         && Sbox(0x48) == 0x52 && Sbox(0x49) == 0x3b && Sbox(0x4a) == 0xd6 && Sbox(0x4b) == 0xb3
         && Sbox(0x4c) == 0x29 && Sbox(0x4d) == 0xe3 && Sbox(0x4e) == 0x2f && Sbox(0x4f) == 0x84
  {
    SboxPair40(); SboxPair42(); SboxPair44(); SboxPair46();
    SboxPair48(); SboxPair4A(); SboxPair4C(); SboxPair4E();
  }

  lemma SboxRow5()
    ensures Sbox(0x50) == 0x53 && Sbox(0x51) == 0xd1 && Sbox(0x52) == 0x00 && Sbox(0x53) == 0xed
         && Sbox(0x54) == 0x20 && Sbox(0x55) == 0xfc && Sbox(0x56) == 0xb1 && Sbox(0x57) == 0x5b
         && Sbox(0x58) == 0x6a && Sbox(0x59) == 0xcb && Sbox(0x5a) == 0xbe && Sbox(0x5b) == 0x39
         && Sbox(0x5c) == 0x4a && Sbox(0x5d) == 0x4c && Sbox(0x5e) == 0x58 && Sbox(0x5f) == 0xcf
  {
    SboxPair50(); SboxPair52(); SboxPair54(); SboxPair56();
    SboxPair58(); SboxPair5A(); SboxPair5C(); SboxPair5E();
  }

  lemma SboxRow6()
    ensures Sbox(0x60) == 0xd0 && Sbox(0x61) == 0xef && Sbox(0x62) == 0xaa && Sbox(0x63) == 0xfb
         && Sbox(0x64) == 0x43 && Sbox(0x65) == 0x4d && Sbox(0x66) == 0x33 && Sbox(0x67) == 0x85
         && Sbox(0x68) == 0x45 && Sbox(0x69) == 0xf9 && Sbox(0x6a) == 0x02 && Sbox(0x6b) == 0x7f
         && Sbox(0x6c) == 0x50 && Sbox(0x6d) == 0x3c && Sbox(0x6e) == 0x9f && Sbox(0x6f) == 0xa8
  {
    SboxPair60(); SboxPair62(); SboxPair64(); SboxPair66();
    SboxPair68(); SboxPair6A(); SboxPair6C(); SboxPair6E();
  }

  lemma SboxRow7()
    ensures Sbox(0x70) == 0x51 && Sbox(0x71) == 0xa3 && Sbox(0x72) == 0x40 && Sbox(0x73) == 0x8f
         && Sbox(0x74) == 0x92 && Sbox(0x75) == 0x9d && Sbox(0x76) == 0x38 && Sbox(0x77) == 0xf5
         && Sbox(0x78) == 0xbc && Sbox(0x79) == 0xb6 && Sbox(0x7a) == 0xda && Sbox(0x7b) == 0x21
         && Sbox(0x7c) == 0x10 && Sbox(0x7d) == 0xff && Sbox(0x7e) == 0xf3 && Sbox(0x7f) == 0xd2
  {
    SboxPair70(); SboxPair72(); SboxPair74(); SboxPair76();
    SboxPair78(); SboxPair7A(); SboxPair7C(); SboxPair7E();
  }

  lemma SboxRow8()
    ensures Sbox(0x80) == 0xcd && Sbox(0x81) == 0x0c && Sbox(0x82) == 0x13 && Sbox(0x83) == 0xec
         && Sbox(0x84) == 0x5f && Sbox(0x85) == 0x97 && Sbox(0x86) == 0x44 && Sbox(0x87) == 0x17
         && Sbox(0x88) == 0xc4 && Sbox(0x89) == 0xa7 && Sbox(0x8a) == 0x7e && Sbox(0x8b) == 0x3d
         && Sbox(0x8c) == 0x64 && Sbox(0x8d) == 0x5d && Sbox(0x8e) == 0x19 && Sbox(0x8f) == 0x73
  {
    SboxPair80(); SboxPair82(); SboxPair84(); SboxPair86();
    SboxPair88(); SboxPair8A(); SboxPair8C(); SboxPair8E();
  }

  lemma SboxRow9()
    ensures Sbox(0x90) == 0x60 && Sbox(0x91) == 0x81 && Sbox(0x92) == 0x4f && Sbox(0x93) == 0xdc
         && Sbox(0x94) == 0x22 && Sbox(0x95) == 0x2a && Sbox(0x96) == 0x90 && Sbox(0x97) == 0x88
         && Sbox(0x98) == 0x46 && Sbox(0x99) == 0xee && Sbox(0x9a) == 0xb8 && Sbox(0x9b) == 0x14
         && Sbox(0x9c) == 0xde && Sbox(0x9d) == 0x5e && Sbox(0x9e) == 0x0b && Sbox(0x9f) == 0xdb
  {
    SboxPair90(); SboxPair92(); SboxPair94(); SboxPair96();
    SboxPair98(); SboxPair9A(); SboxPair9C(); SboxPair9E();
  }

  lemma SboxRowA()
    ensures Sbox(0xa0) == 0xe0 && Sbox(0xa1) == 0x32 && Sbox(0xa2) == 0x3a && Sbox(0xa3) == 0x0a
         && Sbox(0xa4) == 0x49 && Sbox(0xa5) == 0x06 && Sbox(0xa6) == 0x24 && Sbox(0xa7) == 0x5c
         && Sbox(0xa8) == 0xc2 && Sbox(0xa9) == 0xd3 && Sbox(0xaa) == 0xac && Sbox(0xab) == 0x62
         && Sbox(0xac) == 0x91 && Sbox(0xad) == 0x95 && Sbox(0xae) == 0xe4 && Sbox(0xaf) == 0x79
  {
    SboxPairA0(); SboxPairA2(); SboxPairA4(); SboxPairA6();
    SboxPairA8(); SboxPairAA(); SboxPairAC(); SboxPairAE();
  }

  lemma SboxRowB()
    ensures Sbox(0xb0) == 0xe7 && Sbox(0xb1) == 0xc8 && Sbox(0xb2) == 0x37 && Sbox(0xb3) == 0x6d
         && Sbox(0xb4) == 0x8d && Sbox(0xb5) == 0xd5 && Sbox(0xb6) == 0x4e && Sbox(0xb7) == 0xa9
         && Sbox(0xb8) == 0x6c && Sbox(0xb9) == 0x56 && Sbox(0xba) == 0xf4 && Sbox(0xbb) == 0xea
         && Sbox(0xbc) == 0x65 && Sbox(0xbd) == 0x7a && Sbox(0xbe) == 0xae && Sbox(0xbf) == 0x08
  {
    SboxPairB0(); SboxPairB2(); SboxPairB4(); SboxPairB6();
    SboxPairB8(); SboxPairBA(); SboxPairBC(); SboxPairBE();
  }

  lemma SboxRowC()
    ensures Sbox(0xc0) == 0xba && Sbox(0xc1) == 0x78 && Sbox(0xc2) == 0x25 && Sbox(0xc3) == 0x2e
         && Sbox(0xc4) == 0x1c && Sbox(0xc5) == 0xa6 && Sbox(0xc6) == 0xb4 && Sbox(0xc7) == 0xc6
         && Sbox(0xc8) == 0xe8 && Sbox(0xc9) == 0xdd && Sbox(0xca) == 0x74 && Sbox(0xcb) == 0x1f
         && Sbox(0xcc) == 0x4b && Sbox(0xcd) == 0xbd && Sbox(0xce) == 0x8b && Sbox(0xcf) == 0x8a
  {
    SboxPairC0(); SboxPairC2(); SboxPairC4(); SboxPairC6();
    SboxPairC8(); SboxPairCA(); SboxPairCC(); SboxPairCE();
  }

  lemma SboxRowD()
    ensures Sbox(0xd0) == 0x70 && Sbox(0xd1) == 0x3e && Sbox(0xd2) == 0xb5 && Sbox(0xd3) == 0x66
         && Sbox(0xd4) == 0x48 && Sbox(0xd5) == 0x03 && Sbox(0xd6) == 0xf6 && Sbox(0xd7) == 0x0e
         && Sbox(0xd8) == 0x61 && Sbox(0xd9) == 0x35 && Sbox(0xda) == 0x57 && Sbox(0xdb) == 0xb9
         && Sbox(0xdc) == 0x86 && Sbox(0xdd) == 0xc1 && Sbox(0xde) == 0x1d && Sbox(0xdf) == 0x9e
  {
    SboxPairD0(); SboxPairD2(); SboxPairD4(); SboxPairD6();
    SboxPairD8(); SboxPairDA(); SboxPairDC(); SboxPairDE();
  }

  lemma SboxRowE()
    ensures Sbox(0xe0) == 0xe1 && Sbox(0xe1) == 0xf8 && Sbox(0xe2) == 0x98 && Sbox(0xe3) == 0x11
         && Sbox(0xe4) == 0x69 && Sbox(0xe5) == 0xd9 && Sbox(0xe6) == 0x8e && Sbox(0xe7) == 0x94
         && Sbox(0xe8) == 0x9b && Sbox(0xe9) == 0x1e && Sbox(0xea) == 0x87 && Sbox(0xeb) == 0xe9
         && Sbox(0xec) == 0xce && Sbox(0xed) == 0x55 && Sbox(0xee) == 0x28 && Sbox(0xef) == 0xdf
  {
    SboxPairE0(); SboxPairE2(); SboxPairE4(); SboxPairE6();
    SboxPairE8(); SboxPairEA(); SboxPairEC(); SboxPairEE();
  }

  lemma SboxRowF()
    ensures Sbox(0xf0) == 0x8c && Sbox(0xf1) == 0xa1 && Sbox(0xf2) == 0x89 && Sbox(0xf3) == 0x0d
         && Sbox(0xf4) == 0xbf && Sbox(0xf5) == 0xe6 && Sbox(0xf6) == 0x42 && Sbox(0xf7) == 0x68
         && Sbox(0xf8) == 0x41 && Sbox(0xf9) == 0x99 && Sbox(0xfa) == 0x2d && Sbox(0xfb) == 0x0f
         && Sbox(0xfc) == 0xb0 && Sbox(0xfd) == 0x54 && Sbox(0xfe) == 0xbb && Sbox(0xff) == 0x16
  {
    SboxPairF0(); SboxPairF2(); SboxPairF4(); SboxPairF6();
    SboxPairF8(); SboxPairFA(); SboxPairFC(); SboxPairFE();
  }

  // The pairs of S-box values the rows are gathered from.

  lemma SboxPair00()
    ensures Sbox(0x00) == 0x63 && Sbox(0x01) == 0x7c
  {
  }

  lemma SboxPair02()
    ensures Sbox(0x02) == 0x77 && Sbox(0x03) == 0x7b
  {
  }

  lemma SboxPair04()
    ensures Sbox(0x04) == 0xf2 && Sbox(0x05) == 0x6b
  {
  }

  lemma SboxPair06()
    ensures Sbox(0x06) == 0x6f && Sbox(0x07) == 0xc5
  {
  }

  lemma SboxPair08()
    ensures Sbox(0x08) == 0x30 && Sbox(0x09) == 0x01
  {
  }

  lemma SboxPair0A()
    ensures Sbox(0x0a) == 0x67 && Sbox(0x0b) == 0x2b
  {
  }

  lemma SboxPair0C()
    ensures Sbox(0x0c) == 0xfe && Sbox(0x0d) == 0xd7
  {
  }

  lemma SboxPair0E()
    ensures Sbox(0x0e) == 0xab && Sbox(0x0f) == 0x76
  {
  }

  lemma SboxPair10()
    ensures Sbox(0x10) == 0xca && Sbox(0x11) == 0x82
  {
  }

  lemma SboxPair12()
    ensures Sbox(0x12) == 0xc9 && Sbox(0x13) == 0x7d
  {
  }

  lemma SboxPair14()
    ensures Sbox(0x14) == 0xfa && Sbox(0x15) == 0x59
  {
  }

  lemma SboxPair16()
    ensures Sbox(0x16) == 0x47 && Sbox(0x17) == 0xf0
  {
  }

  lemma SboxPair18()
    ensures Sbox(0x18) == 0xad && Sbox(0x19) == 0xd4
  {
  }

  lemma SboxPair1A()
    ensures Sbox(0x1a) == 0xa2 && Sbox(0x1b) == 0xaf
  {
  }

  lemma SboxPair1C()
    ensures Sbox(0x1c) == 0x9c && Sbox(0x1d) == 0xa4
  {
  }

  lemma SboxPair1E()
    ensures Sbox(0x1e) == 0x72 && Sbox(0x1f) == 0xc0
  {
  }

  lemma SboxPair20()
    ensures Sbox(0x20) == 0xb7 && Sbox(0x21) == 0xfd
  {
  }

  lemma SboxPair22()
    ensures Sbox(0x22) == 0x93 && Sbox(0x23) == 0x26
  {
  }

  lemma SboxPair24()
    ensures Sbox(0x24) == 0x36 && Sbox(0x25) == 0x3f
  {
  }

  lemma SboxPair26()
    ensures Sbox(0x26) == 0xf7 && Sbox(0x27) == 0xcc
  {
  }

  lemma SboxPair28()
    ensures Sbox(0x28) == 0x34 && Sbox(0x29) == 0xa5
  {
  }

  lemma SboxPair2A()
    ensures Sbox(0x2a) == 0xe5 && Sbox(0x2b) == 0xf1
  {
  }

  lemma SboxPair2C()
    ensures Sbox(0x2c) == 0x71 && Sbox(0x2d) == 0xd8
  {
  }

  lemma SboxPair2E()
    ensures Sbox(0x2e) == 0x31 && Sbox(0x2f) == 0x15
  {
  }

  lemma SboxPair30()
    ensures Sbox(0x30) == 0x04 && Sbox(0x31) == 0xc7
  {
  }

  lemma SboxPair32()
    ensures Sbox(0x32) == 0x23 && Sbox(0x33) == 0xc3
  {
  }

  lemma SboxPair34()
    ensures Sbox(0x34) == 0x18 && Sbox(0x35) == 0x96
  {
  }

  lemma SboxPair36()
    ensures Sbox(0x36) == 0x05 && Sbox(0x37) == 0x9a
  {
  }

  lemma SboxPair38()
    ensures Sbox(0x38) == 0x07 && Sbox(0x39) == 0x12
  {
  }

  lemma SboxPair3A()
    ensures Sbox(0x3a) == 0x80 && Sbox(0x3b) == 0xe2
  {
  }

  lemma SboxPair3C()
    ensures Sbox(0x3c) == 0xeb && Sbox(0x3d) == 0x27
  {
  }

  lemma SboxPair3E()
    ensures Sbox(0x3e) == 0xb2 && Sbox(0x3f) == 0x75
  {
  }

  lemma SboxPair40()
    ensures Sbox(0x40) == 0x09 && Sbox(0x41) == 0x83
  {
  }

  lemma SboxPair42()
    ensures Sbox(0x42) == 0x2c && Sbox(0x43) == 0x1a
  {
  }

  lemma SboxPair44()
    ensures Sbox(0x44) == 0x1b && Sbox(0x45) == 0x6e
  {
  }

  lemma SboxPair46()
    ensures Sbox(0x46) == 0x5a && Sbox(0x47) == 0xa0
  {
  }

  lemma SboxPair48()
    ensures Sbox(0x48) == 0x52 && Sbox(0x49) == 0x3b
  {
  }

  lemma SboxPair4A()
    ensures Sbox(0x4a) == 0xd6 && Sbox(0x4b) == 0xb3
  {
  }

  lemma SboxPair4C()
    ensures Sbox(0x4c) == 0x29 && Sbox(0x4d) == 0xe3
  {
  }

  lemma SboxPair4E()
    ensures Sbox(0x4e) == 0x2f && Sbox(0x4f) == 0x84
  {
  }

  lemma SboxPair50()
    ensures Sbox(0x50) == 0x53 && Sbox(0x51) == 0xd1
  {
  }

  lemma SboxPair52()
    ensures Sbox(0x52) == 0x00 && Sbox(0x53) == 0xed
  {
  }

  lemma SboxPair54()
    ensures Sbox(0x54) == 0x20 && Sbox(0x55) == 0xfc
  {
  }

  lemma SboxPair56()
    ensures Sbox(0x56) == 0xb1 && Sbox(0x57) == 0x5b
  {
  }

  lemma SboxPair58()
    ensures Sbox(0x58) == 0x6a && Sbox(0x59) == 0xcb
  {
  }

  lemma SboxPair5A()
    ensures Sbox(0x5a) == 0xbe && Sbox(0x5b) == 0x39
  {
  }

  lemma SboxPair5C()
    ensures Sbox(0x5c) == 0x4a && Sbox(0x5d) == 0x4c
  {
  }

  lemma SboxPair5E()
    ensures Sbox(0x5e) == 0x58 && Sbox(0x5f) == 0xcf
  {
  }

  lemma SboxPair60()
    ensures Sbox(0x60) == 0xd0 && Sbox(0x61) == 0xef
  {
  }

  lemma SboxPair62()
    ensures Sbox(0x62) == 0xaa && Sbox(0x63) == 0xfb
  {
  }

  lemma SboxPair64()
    ensures Sbox(0x64) == 0x43 && Sbox(0x65) == 0x4d
  {
  }

  lemma SboxPair66()
    ensures Sbox(0x66) == 0x33 && Sbox(0x67) == 0x85
  {
  }

  lemma SboxPair68()
    ensures Sbox(0x68) == 0x45 && Sbox(0x69) == 0xf9
  {
  }

  lemma SboxPair6A()
    ensures Sbox(0x6a) == 0x02 && Sbox(0x6b) == 0x7f
  {
  }

  lemma SboxPair6C()
    ensures Sbox(0x6c) == 0x50 && Sbox(0x6d) == 0x3c
  {
  }

  lemma SboxPair6E()
    ensures Sbox(0x6e) == 0x9f && Sbox(0x6f) == 0xa8
  {
  }

  lemma SboxPair70()
    ensures Sbox(0x70) == 0x51 && Sbox(0x71) == 0xa3
  {
  }

  lemma SboxPair72()
    ensures Sbox(0x72) == 0x40 && Sbox(0x73) == 0x8f
  {
  }

  lemma SboxPair74()
    ensures Sbox(0x74) == 0x92 && Sbox(0x75) == 0x9d
  {
  }

  lemma SboxPair76()
    ensures Sbox(0x76) == 0x38 && Sbox(0x77) == 0xf5
  {
  }

  lemma SboxPair78()
    ensures Sbox(0x78) == 0xbc && Sbox(0x79) == 0xb6
  {
  }

  lemma SboxPair7A()
    ensures Sbox(0x7a) == 0xda && Sbox(0x7b) == 0x21
  {
  }

  lemma SboxPair7C()
    ensures Sbox(0x7c) == 0x10 && Sbox(0x7d) == 0xff
  {
  }

  lemma SboxPair7E()
    ensures Sbox(0x7e) == 0xf3 && Sbox(0x7f) == 0xd2
  {
  }

  lemma SboxPair80()
    ensures Sbox(0x80) == 0xcd && Sbox(0x81) == 0x0c
  {
  }

  lemma SboxPair82()
    ensures Sbox(0x82) == 0x13 && Sbox(0x83) == 0xec
  {
  }

  lemma SboxPair84()
    ensures Sbox(0x84) == 0x5f && Sbox(0x85) == 0x97
  {
  }

  lemma SboxPair86()
    ensures Sbox(0x86) == 0x44 && Sbox(0x87) == 0x17
  {
  }

  lemma SboxPair88()
    ensures Sbox(0x88) == 0xc4 && Sbox(0x89) == 0xa7
  {
  }

  lemma SboxPair8A()
    ensures Sbox(0x8a) == 0x7e && Sbox(0x8b) == 0x3d
  {
  }

  lemma SboxPair8C()
    ensures Sbox(0x8c) == 0x64 && Sbox(0x8d) == 0x5d
  {
  }

  lemma SboxPair8E()
    ensures Sbox(0x8e) == 0x19 && Sbox(0x8f) == 0x73
  {
  }

  lemma SboxPair90()
    ensures Sbox(0x90) == 0x60 && Sbox(0x91) == 0x81
  {
  }

  lemma SboxPair92()
    ensures Sbox(0x92) == 0x4f && Sbox(0x93) == 0xdc
  {
  }

  lemma SboxPair94()
    ensures Sbox(0x94) == 0x22 && Sbox(0x95) == 0x2a
  {
  }

  lemma SboxPair96()
    ensures Sbox(0x96) == 0x90 && Sbox(0x97) == 0x88
  {
  }

  lemma SboxPair98()
    ensures Sbox(0x98) == 0x46 && Sbox(0x99) == 0xee
  {
  }

  lemma SboxPair9A()
    ensures Sbox(0x9a) == 0xb8 && Sbox(0x9b) == 0x14
  {
  }

  lemma SboxPair9C()
    ensures Sbox(0x9c) == 0xde && Sbox(0x9d) == 0x5e
  {
  }

  lemma SboxPair9E()
    ensures Sbox(0x9e) == 0x0b && Sbox(0x9f) == 0xdb
  {
  }

  lemma SboxPairA0()
    ensures Sbox(0xa0) == 0xe0 && Sbox(0xa1) == 0x32
  {
  }

  lemma SboxPairA2()
    ensures Sbox(0xa2) == 0x3a && Sbox(0xa3) == 0x0a
  {
  }

  lemma SboxPairA4()
    ensures Sbox(0xa4) == 0x49 && Sbox(0xa5) == 0x06
  {
  }

  lemma SboxPairA6()
    ensures Sbox(0xa6) == 0x24 && Sbox(0xa7) == 0x5c
  {
  }

  lemma SboxPairA8()
    ensures Sbox(0xa8) == 0xc2 && Sbox(0xa9) == 0xd3
  {
  }

  lemma SboxPairAA()
    ensures Sbox(0xaa) == 0xac && Sbox(0xab) == 0x62
  {
  }

  lemma SboxPairAC()
    ensures Sbox(0xac) == 0x91 && Sbox(0xad) == 0x95
  {
  }

  lemma SboxPairAE()
    ensures Sbox(0xae) == 0xe4 && Sbox(0xaf) == 0x79
  {
  }

  lemma SboxPairB0()
    ensures Sbox(0xb0) == 0xe7 && Sbox(0xb1) == 0xc8
  {
  }

  lemma SboxPairB2()
    ensures Sbox(0xb2) == 0x37 && Sbox(0xb3) == 0x6d
  {
  }

  lemma SboxPairB4()
    ensures Sbox(0xb4) == 0x8d && Sbox(0xb5) == 0xd5
  {
  }

  lemma SboxPairB6()
    ensures Sbox(0xb6) == 0x4e && Sbox(0xb7) == 0xa9
  {
  }

  lemma SboxPairB8()
    ensures Sbox(0xb8) == 0x6c && Sbox(0xb9) == 0x56
  {
  }

  lemma SboxPairBA()
    ensures Sbox(0xba) == 0xf4 && Sbox(0xbb) == 0xea
  {
  }

  lemma SboxPairBC()
    ensures Sbox(0xbc) == 0x65 && Sbox(0xbd) == 0x7a
  {
  }

  lemma SboxPairBE()
    ensures Sbox(0xbe) == 0xae && Sbox(0xbf) == 0x08
  {
  }

  lemma SboxPairC0()
    ensures Sbox(0xc0) == 0xba && Sbox(0xc1) == 0x78
  {
  }

  lemma SboxPairC2()
    ensures Sbox(0xc2) == 0x25 && Sbox(0xc3) == 0x2e
  {
  }

  lemma SboxPairC4()
    ensures Sbox(0xc4) == 0x1c && Sbox(0xc5) == 0xa6
  {
  }

  lemma SboxPairC6()
    ensures Sbox(0xc6) == 0xb4 && Sbox(0xc7) == 0xc6
  {
  }

  lemma SboxPairC8()
    ensures Sbox(0xc8) == 0xe8 && Sbox(0xc9) == 0xdd
  {
  }

  lemma SboxPairCA()
    ensures Sbox(0xca) == 0x74 && Sbox(0xcb) == 0x1f
  {
  }

  lemma SboxPairCC()
    ensures Sbox(0xcc) == 0x4b && Sbox(0xcd) == 0xbd
  {
  }

  lemma SboxPairCE()
    ensures Sbox(0xce) == 0x8b && Sbox(0xcf) == 0x8a
  {
  }

  lemma SboxPairD0()
    ensures Sbox(0xd0) == 0x70 && Sbox(0xd1) == 0x3e
  {
  }

  lemma SboxPairD2()
    ensures Sbox(0xd2) == 0xb5 && Sbox(0xd3) == 0x66
  {
  }

  lemma SboxPairD4()
    ensures Sbox(0xd4) == 0x48 && Sbox(0xd5) == 0x03
  {
  }

  lemma SboxPairD6()
    ensures Sbox(0xd6) == 0xf6 && Sbox(0xd7) == 0x0e
  {
  }

  lemma SboxPairD8()
    ensures Sbox(0xd8) == 0x61 && Sbox(0xd9) == 0x35
  {
  }

  lemma SboxPairDA()
    ensures Sbox(0xda) == 0x57 && Sbox(0xdb) == 0xb9
  {
  }

  lemma SboxPairDC()
    ensures Sbox(0xdc) == 0x86 && Sbox(0xdd) == 0xc1
  {
  }

  lemma SboxPairDE()
    ensures Sbox(0xde) == 0x1d && Sbox(0xdf) == 0x9e
  {
  }

  lemma SboxPairE0()
    ensures Sbox(0xe0) == 0xe1 && Sbox(0xe1) == 0xf8
  {
  }

  lemma SboxPairE2()
    ensures Sbox(0xe2) == 0x98 && Sbox(0xe3) == 0x11
  {
  }

  lemma SboxPairE4()
    ensures Sbox(0xe4) == 0x69 && Sbox(0xe5) == 0xd9
  {
  }

  lemma SboxPairE6()
    ensures Sbox(0xe6) == 0x8e && Sbox(0xe7) == 0x94
  {
  }

  lemma SboxPairE8()
    ensures Sbox(0xe8) == 0x9b && Sbox(0xe9) == 0x1e
  {
  }

  lemma SboxPairEA()
    ensures Sbox(0xea) == 0x87 && Sbox(0xeb) == 0xe9
  {
  }

  lemma SboxPairEC()
    ensures Sbox(0xec) == 0xce && Sbox(0xed) == 0x55
  {
  }

  lemma SboxPairEE()
    ensures Sbox(0xee) == 0x28 && Sbox(0xef) == 0xdf
  {
  }

  lemma SboxPairF0()
    ensures Sbox(0xf0) == 0x8c && Sbox(0xf1) == 0xa1
  {
  }

  lemma SboxPairF2()
    ensures Sbox(0xf2) == 0x89 && Sbox(0xf3) == 0x0d
  {
  }

  lemma SboxPairF4()
    ensures Sbox(0xf4) == 0xbf && Sbox(0xf5) == 0xe6
  {
  }

  lemma SboxPairF6()
    ensures Sbox(0xf6) == 0x42 && Sbox(0xf7) == 0x68
  {
  }

  lemma SboxPairF8()
    ensures Sbox(0xf8) == 0x41 && Sbox(0xf9) == 0x99
  {
  }

  lemma SboxPairFA()
    ensures Sbox(0xfa) == 0x2d && Sbox(0xfb) == 0x0f
  {
  }

  lemma SboxPairFC()
    ensures Sbox(0xfc) == 0xb0 && Sbox(0xfd) == 0x54
  {
  }

  lemma SboxPairFE()
    ensures Sbox(0xfe) == 0xbb && Sbox(0xff) == 0x16
  {
  }

  // ---------------------------------------------------------------------
  // ShiftRows (section 5.1.2 of FIPS 197)
  // ---------------------------------------------------------------------

  const ShiftRowsMask0: word := 0x0000_00ff
  const ShiftRowsMask1: word := 0x0000_fc00
  const ShiftRowsMask2: word := 0x0000_0300
  const ShiftRowsMask3: word := 0x00f0_0000
  const ShiftRowsMask4: word := 0x000f_0000
  const ShiftRowsMask5: word := 0xc000_0000
  const ShiftRowsMask6: word := 0x3f00_0000

  /** The body of the `shiftRows` loop for one word. */
  function ShiftRowsWord(x: word): word
  {
    (x & ShiftRowsMask0)
    | ((x & ShiftRowsMask1) >> 2)
    | ((x & ShiftRowsMask2) << 6)
    | ((x & ShiftRowsMask3) >> 4)
    | ((x & ShiftRowsMask4) << 4)
    | ((x & ShiftRowsMask5) >> 6)
    | ((x & ShiftRowsMask6) << 2)
  }

  /** `shiftRows(q)`: the same bit permutation on every word. */
  function ShiftRows(q: State): State
  {
    MapOctet(ShiftRowsWord, q)
  }

  /** The seven masks split a word into disjoint parts that together cover
      all 32 bits, and so do the parts after their shifts. */
  lemma ShiftRowsMasksPartition()
    ensures ShiftRowsMask0 | ShiftRowsMask1 | ShiftRowsMask2 | ShiftRowsMask3
            | ShiftRowsMask4 | ShiftRowsMask5 | ShiftRowsMask6 == 0xffff_ffff
    ensures ShiftRowsMask0 & (ShiftRowsMask1 | ShiftRowsMask2 | ShiftRowsMask3
            | ShiftRowsMask4 | ShiftRowsMask5 | ShiftRowsMask6) == 0
    ensures ShiftRowsMask1 & (ShiftRowsMask2 | ShiftRowsMask3 | ShiftRowsMask4
            | ShiftRowsMask5 | ShiftRowsMask6) == 0
    ensures ShiftRowsMask2 & (ShiftRowsMask3 | ShiftRowsMask4 | ShiftRowsMask5 | ShiftRowsMask6) == 0
    ensures ShiftRowsMask3 & (ShiftRowsMask4 | ShiftRowsMask5 | ShiftRowsMask6) == 0
    ensures ShiftRowsMask4 & (ShiftRowsMask5 | ShiftRowsMask6) == 0
    ensures ShiftRowsMask5 & ShiftRowsMask6 == 0
    ensures ShiftRowsMask0 | (ShiftRowsMask1 >> 2) | (ShiftRowsMask2 << 6) | (ShiftRowsMask3 >> 4)
            | (ShiftRowsMask4 << 4) | (ShiftRowsMask5 >> 6) | (ShiftRowsMask6 << 2) == 0xffff_ffff
    ensures ShiftRowsMask0 & ((ShiftRowsMask1 >> 2) | (ShiftRowsMask2 << 6) | (ShiftRowsMask3 >> 4)
            | (ShiftRowsMask4 << 4) | (ShiftRowsMask5 >> 6) | (ShiftRowsMask6 << 2)) == 0
    ensures (ShiftRowsMask1 >> 2) & ((ShiftRowsMask2 << 6) | (ShiftRowsMask3 >> 4)
            | (ShiftRowsMask4 << 4) | (ShiftRowsMask5 >> 6) | (ShiftRowsMask6 << 2)) == 0
    ensures (ShiftRowsMask2 << 6) & ((ShiftRowsMask3 >> 4) | (ShiftRowsMask4 << 4)
            | (ShiftRowsMask5 >> 6) | (ShiftRowsMask6 << 2)) == 0
    ensures (ShiftRowsMask3 >> 4) & ((ShiftRowsMask4 << 4) | (ShiftRowsMask5 >> 6) | (ShiftRowsMask6 << 2)) == 0
    ensures (ShiftRowsMask4 << 4) & ((ShiftRowsMask5 >> 6) | (ShiftRowsMask6 << 2)) == 0
    ensures (ShiftRowsMask5 >> 6) & (ShiftRowsMask6 << 2) == 0
  {
  }

  /** Bit position of row `r`, column `c`, lane `l` in a bitsliced word. */
  function CellPos(r: bv5, c: bv5, l: bv5): (p: bv5)
    requires r < 4 && c < 4 && l < 2
  {
    8 * r + 2 * c + l
  }

  /** FIPS 197 ShiftRows: the cell at row `r`, column `c` receives the cell
      of the same row at column `(c + r) mod 4`, in both lanes. */
  lemma ShiftRowsCells(x: word, r: bv5, c: bv5, l: bv5)
    requires r < 4 && c < 4 && l < 2
    ensures Bit(ShiftRowsWord(x), CellPos(r, c, l)) == Bit(x, CellPos(r, (c + r) % 4, l))
  {
  }

  /** The inverse row rotation, the same masks shifted the other way. */
  function InvShiftRowsWord(x: word): word
  {
    (x & ShiftRowsMask0)
    | ((x & (ShiftRowsMask1 >> 2)) << 2)
    | ((x & (ShiftRowsMask2 << 6)) >> 6)
    | ((x & (ShiftRowsMask3 >> 4)) << 4)
    | ((x & (ShiftRowsMask4 << 4)) >> 4)
    | ((x & (ShiftRowsMask5 >> 6)) << 6)
    | ((x & (ShiftRowsMask6 << 2)) >> 2)
  }

  function InvShiftRows(q: State): State
  {
    MapOctet(InvShiftRowsWord, q)
  }

  lemma ShiftRowsWordInverse()
    ensures forall x :: InvShiftRowsWord(ShiftRowsWord(x)) == x
    ensures forall x :: ShiftRowsWord(InvShiftRowsWord(x)) == x
  {
  }

  /** `shiftRows` is a bijection on states. */
  lemma ShiftRowsInverse(q: State)
    ensures InvShiftRows(ShiftRows(q)) == q
    ensures ShiftRows(InvShiftRows(q)) == q
  {
    ShiftRowsWordInverse();
    MapMapInverse(ShiftRowsWord, InvShiftRowsWord, q);
    MapMapInverse(InvShiftRowsWord, ShiftRowsWord, q);
  }

  lemma ShiftRowsBvXor(a: word, b: word)
    ensures ShiftRowsWord(a ^ b) == ShiftRowsWord(a) ^ ShiftRowsWord(b)
  {
  }

  lemma ShiftRowsWordXor()
    ensures forall a, b :: ShiftRowsWord(WordXor(a, b)) == WordXor(ShiftRowsWord(a), ShiftRowsWord(b))
  {
    forall a, b ensures ShiftRowsWord(WordXor(a, b)) == WordXor(ShiftRowsWord(a), ShiftRowsWord(b)) {
      ShiftRowsBvXor(a, b);
    }
  }

  /** `shiftRows` distributes over XOR. */
  lemma ShiftRowsLinear(a: State, b: State)
    ensures ShiftRows(XorState(a, b)) == XorState(ShiftRows(a), ShiftRows(b))
  {
    ShiftRowsWordXor();
    MapZipHom(ShiftRowsWord, WordXor, WordXor, a, b);
  }

  // ---------------------------------------------------------------------
  // MixColumns (section 5.1.3 of FIPS 197)
  // ---------------------------------------------------------------------

  /** The word operations `mixColumns` is built from: XOR and the two
      rotations (by one row, and by two rows). */
  datatype LinOps<!T> = LinOps(xor: (T, T) -> T, rot8: T -> T, rot16: T -> T)

  /** `mixColumns` over any carrier of the three operations; the multi-way
      `uint32_xor` calls are folded from the left. */
  function MixColumnsOver<T>(ops: LinOps<T>, q: Octet<T>): Octet<T>
  {
    var x := ops.xor;
    var q0 := q.q0; var q1 := q.q1; var q2 := q.q2; var q3 := q.q3;
    var q4 := q.q4; var q5 := q.q5; var q6 := q.q6; var q7 := q.q7;
    var r0 := ops.rot8(q0); var r1 := ops.rot8(q1); var r2 := ops.rot8(q2); var r3 := ops.rot8(q3);
    var r4 := ops.rot8(q4); var r5 := ops.rot8(q5); var r6 := ops.rot8(q6); var r7 := ops.rot8(q7);
    Octet(
      x(x(x(q7, r7), r0), ops.rot16(x(q0, r0))),
      x(x(x(x(x(q0, r0), q7), r7), r1), ops.rot16(x(q1, r1))),
      x(x(x(q1, r1), r2), ops.rot16(x(q2, r2))),
      x(x(x(x(x(q2, r2), q7), r7), r3), ops.rot16(x(q3, r3))),
      x(x(x(x(x(q3, r3), q7), r7), r4), ops.rot16(x(q4, r4))),
      x(x(x(q4, r4), r5), ops.rot16(x(q5, r5))),
      x(x(x(q5, r5), r6), ops.rot16(x(q6, r6))),
      x(x(x(q6, r6), r7), ops.rot16(x(q7, r7))))
  }

  /** `(x >>> 8) | (x << 24)`: each row moves up by one. */
  function Rot8(x: word): word
  {
    (x >> 8) | (x << 24)
  }

  /** `uint32_rotateRight(x, 16)`. */
  function Rot16(x: word): word
  {
    (x >> 16) | (x << 16)
  }

  const WordLin: LinOps<word> := LinOps(WordXor, Rot8, Rot16)

  /** `mixColumns(q)`. */
  function MixColumns(q: State): State
  {
    MixColumnsOver(WordLin, q)
  }

  ghost predicate IsLinHom<A(!new), B>(h: A -> B, p: LinOps<A>, q: LinOps<B>)
  {
    && (forall a, b :: h(p.xor(a, b)) == q.xor(h(a), h(b)))
    && (forall a :: h(p.rot8(a)) == q.rot8(h(a)))
    && (forall a :: h(p.rot16(a)) == q.rot16(h(a)))
  }

  /** `mixColumns` commutes with every map that respects its operations. */
  lemma MixColumnsHom<A(!new), B>(h: A -> B, p: LinOps<A>, q: LinOps<B>, x: Octet<A>)
    requires IsLinHom(h, p, q)
    ensures MapOctet(h, MixColumnsOver(p, x)) == MixColumnsOver(q, MapOctet(h, x))
  {
  }

  /** Two states carried side by side, to state linearity as a homomorphism. */
  function Pair(a: State, b: State): Octet<WordPair>
  {
    Octet(WordPair(a.q0, b.q0), WordPair(a.q1, b.q1), WordPair(a.q2, b.q2), WordPair(a.q3, b.q3),
          WordPair(a.q4, b.q4), WordPair(a.q5, b.q5), WordPair(a.q6, b.q6), WordPair(a.q7, b.q7))
  }

  datatype WordPair = WordPair(fst: word, snd: word)

  function PairXor(u: WordPair, v: WordPair): WordPair
  {
    WordPair(WordXor(u.fst, v.fst), WordXor(u.snd, v.snd))
  }

  function PairRot8(u: WordPair): WordPair
  {
    WordPair(Rot8(u.fst), Rot8(u.snd))
  }

  function PairRot16(u: WordPair): WordPair
  {
    WordPair(Rot16(u.fst), Rot16(u.snd))
  }

  const PairLin: LinOps<WordPair> := LinOps(PairXor, PairRot8, PairRot16)

  function First(u: WordPair): word { u.fst }
  function Second(u: WordPair): word { u.snd }
  function Sum(u: WordPair): word { WordXor(u.fst, u.snd) }

  lemma RotBvXor(a: word, b: word)
    ensures Rot8(a ^ b) == Rot8(a) ^ Rot8(b)
    ensures Rot16(a ^ b) == Rot16(a) ^ Rot16(b)
  {
  }

  lemma RotXor()
    ensures forall a, b :: Rot8(WordXor(a, b)) == WordXor(Rot8(a), Rot8(b))
    ensures forall a, b :: Rot16(WordXor(a, b)) == WordXor(Rot16(a), Rot16(b))
  {
    forall a, b ensures Rot8(WordXor(a, b)) == WordXor(Rot8(a), Rot8(b))
                     && Rot16(WordXor(a, b)) == WordXor(Rot16(a), Rot16(b)) {
      RotBvXor(a, b);
    }
  }

  lemma ProjectionsHom()
    ensures IsLinHom(First, PairLin, WordLin)
    ensures IsLinHom(Second, PairLin, WordLin)
  {
  }

  lemma SumXor()
    ensures forall u, v :: Sum(PairXor(u, v)) == WordXor(Sum(u), Sum(v))
  {
    forall u, v ensures Sum(PairXor(u, v)) == WordXor(Sum(u), Sum(v)) {
      XorSwap(u.fst, u.snd, v.fst, v.snd);
    }
  }

  lemma SumRot()
    ensures forall u :: Sum(PairRot8(u)) == Rot8(Sum(u))
    ensures forall u :: Sum(PairRot16(u)) == Rot16(Sum(u))
  {
    RotXor();
  }

  lemma SumHom()
    ensures IsLinHom(Sum, PairLin, WordLin)
  {
    SumXor();
    SumRot();
  }

  /** `Sum` is `First` XOR `Second` on each pair. */
  lemma MapSplit<A(!new), B>(h: A -> B, g: (B, B) -> B, f1: A -> B, f2: A -> B, y: Octet<A>)
    requires forall u :: h(u) == g(f1(u), f2(u))
    ensures MapOctet(h, y) == Zip(g, MapOctet(f1, y), MapOctet(f2, y))
  {
  }

  lemma PairProjections(a: State, b: State)
    ensures MapOctet(First, Pair(a, b)) == a
    ensures MapOctet(Second, Pair(a, b)) == b
  {
  }

  lemma SumSplit()
    ensures forall u :: Sum(u) == WordXor(First(u), Second(u))
  {
  }

  lemma SumParts(a: State, b: State, y: Octet<WordPair>)
    ensures MapOctet(Sum, Pair(a, b)) == XorState(a, b)
    ensures MapOctet(Sum, y) == XorState(MapOctet(First, y), MapOctet(Second, y))
  {
    SumSplit();
    PairProjections(a, b);
    MapSplit(Sum, WordXor, First, Second, Pair(a, b));
    MapSplit(Sum, WordXor, First, Second, y);
  }

  /** `mixColumns` is XOR-linear. */
  lemma MixColumnsLinear(a: State, b: State)
    ensures MixColumns(XorState(a, b)) == XorState(MixColumns(a), MixColumns(b))
  {
    var z := Pair(a, b);
    var y := MixColumnsOver(PairLin, z);
    ProjectionsHom();
    SumHom();
    PairProjections(a, b);
    SumParts(a, b, y);
    MixColumnsHom(Sum, PairLin, WordLin, z);
    MixColumnsHom(First, PairLin, WordLin, z);
    MixColumnsHom(Second, PairLin, WordLin, z);
  }

  /** The zero state is fixed by `mixColumns`. */
  lemma MixColumnsZero()
    ensures MixColumns(ZeroState) == ZeroState
  {
    assert Rot8(0) == 0 && Rot16(0) == 0;
  }

  // ---------------------------------------------------------------------
  // Rounds
  // ---------------------------------------------------------------------

  /** One full round: SubBytes, ShiftRows, MixColumns, AddRoundKey (the body
      of the loops in `_encrypt` and in Deoxys-BC). */
  function Round(q: State, sk: State): State
  {
    AddRoundKey(MixColumns(ShiftRows(SubBytes(q))), sk)
  }

  /** The last AES round, without MixColumns (section 5.1 of FIPS 197). */
  function FinalRound(q: State, sk: State): State
  {
    AddRoundKey(ShiftRows(SubBytes(q)), sk)
  }

  /** `f` applied once per round key, in order. */
  function Iterate(f: (State, State) -> State, q: State, sks: seq<State>): State
    decreases |sks|
  {
    if |sks| == 0 then q else Iterate(f, f(q, sks[0]), sks[1..])
  }

  /** Full rounds under the round keys `sks`, in order. */
  function Rounds(q: State, sks: seq<State>): State
  {
    Iterate(Round, q, sks)
  }
}
