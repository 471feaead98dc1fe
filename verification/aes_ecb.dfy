/** The FIPS 197 key schedule and the ECB wrapper of src/aes.ts (`keySched`,
    `skeyExpand`, `_encrypt`, class `ECB`), on top of the bitsliced rounds.
    Round keys are kept "compressed" (one word per bitsliced word pair,
    lane 0 of the even word and lane 1 of the odd one) and expanded to
    eight full words per round before encryption. */
module AesEcb {
  import opened Bytes
  import opened AesRound
  import opened AesPack
  import opened AesLanes
  import opened Results

  /** The one error `keySched` throws ("aes: invalid key length"). */
  datatype AesError = InvalidKeyLength

  /** `rcon`: the round constants x^(i-1) in GF(2^8), i = 1..10. */
  const Rcon: seq<byte> := [0x01, 0x02, 0x04, 0x08, 0x10, 0x20, 0x40, 0x80, 0x1b, 0x36]

  /** Rounds per key length: AES-128, AES-192 and AES-256. */
  function NumRounds(keyLen: nat): (r: Result<nat, AesError>)
    ensures r.Ok? <==> keyLen == 16 || keyLen == 24 || keyLen == 32
    ensures r.Ok? ==> r.value == keyLen / 4 + 6
  {
    if keyLen == 16 then Ok(10)
    else if keyLen == 24 then Ok(12)
    else if keyLen == 32 then Ok(14)
    else Err(InvalidKeyLength)
  }

  // ---------------------------------------------------------------------
  // SubWord and RotWord
  // ---------------------------------------------------------------------

  /** `_subWord(x)`: the word copied into all eight state words, packed,
      pushed through `subBytes` and unpacked; word 0 is the result. */
  function SubWord(x: word): word
  {
    Ortho(SubBytes(Ortho(Replicate(x)))).q0
  }

  /** The rotation `(tmp << 24) | (tmp >>> 8)`: on a little-endian word it
      moves byte 0 to byte 3 and the others down by one (RotWord). */
  function RotWord(x: word): word
  {
    (x << 24) | (x >> 8)
  }

  /** Byte `k` of the rotated word is byte `k + 1 (mod 4)` of the word. */
  lemma RotWordBytes(x: word, k: bv2)
    ensures ByteOf(k, RotWord(x)) == ByteOf(k + 1, x)
  {
  }

  /** A word copied into all eight state words. */
  function Replicate(x: word): State
  {
    Octet(x, x, x, x, x, x, x, x)
  }

  /** Packing a byte replicated eight times spreads its bit `k` over the
      whole of byte `k`; bit 0 of the eight packed bytes is the byte again. */
  lemma ReplicatedBytes(b: byte)
    ensures MapOctet(ByteBitAt(0), OrthoBytes(Octet(b, b, b, b, b, b, b, b))) == BitsOf(b)
  {
  }

  /** Packing a replicated word gives, at the bit positions of byte column
      `c`, the bits of byte `c` of the word. */
  lemma ReplicatedColumn(x: word, c: bv2)
    ensures MapOctet(BitAt(BitPos(c, 0)), Ortho(Replicate(x))) == BitsOf(ByteOf(c, x))
  {
    var b := ByteOf(c, x);
    BitAtByteView(c, 0, Ortho(Replicate(x)));
    OrthoByteView(c, Replicate(x));
    assert ByteView(c, Replicate(x)) == Octet(b, b, b, b, b, b, b, b);
    ReplicatedBytes(b);
  }

  /** `_subWord` applies the S-box to each byte of the word. */
  lemma SubWordBytes(x: word, c: bv2)
    ensures ByteOf(c, SubWord(x)) == Sbox(ByteOf(c, x))
  {
    var a := Ortho(Replicate(x));
    var b := SubBytes(a);
    OrthoByteView(c, b);
    GetMap(ByteAt(c), Ortho(b), 0);
    OrthoBytesRow0(ByteView(c, b));
    BitAtByteView(c, 0, b);
    SubBytesBitsliced(a, BitPos(c, 0));
    ReplicatedColumn(x, c);
  }

  // ---------------------------------------------------------------------
  // Key expansion (section 5.2 of FIPS 197)
  // ---------------------------------------------------------------------

  /** The key as little-endian words (`keyView.getUint32(i * 4, true)`). */
  function KeyWords(key: seq<byte>): (w: seq<word>)
    ensures |w| == |key| / 4
  {
    seq(|key| / 4, i requires 0 <= i < |key| / 4 => LoadLe32(key, 4 * i))
  }

  /** Key lengths in words: AES-128, AES-192 and AES-256. */
  predicate ValidNk(nk: nat)
  {
    nk == 4 || nk == 6 || nk == 8
  }

  /** Where word `i` of the expansion sits: `(i mod nk, i / nk - 1)`, the
      position in its group of `nk` words and the round constant it uses
      (with the division by each key length written out). */
  function Position(nk: nat, i: nat): (p: (nat, nat))
    requires ValidNk(nk) && nk <= i
    ensures p.0 < nk
    ensures i < 11 * nk ==> p.1 < |Rcon|
  {
    if nk == 4 then (i % 4, i / 4 - 1)
    else if nk == 6 then (i % 6, i / 6 - 1)
    else (i % 8, i / 8 - 1)
  }

  /** The loop's counter update, `j++; if (j === nk) { j = 0; k++; }`. */
  function NextCounters(nk: nat, j: nat, k: nat): (c: (nat, nat))
    requires j < nk
    ensures c.0 < nk
  {
    if j + 1 == nk then (0, k + 1) else (j + 1, k)
  }

  /** The counters `(j, k)` of `keySched` track the position of the next word. */
  lemma PositionNext(nk: nat, i: nat)
    requires ValidNk(nk) && nk <= i
    ensures Position(nk, i + 1) == NextCounters(nk, Position(nk, i).0, Position(nk, i).1)
  {
  }

  /** `temp` of the FIPS 197 recurrence for word `i`, from word `i - 1`. */
  function Temp(sub: word -> word, nk: nat, i: nat, prev: word): word
    requires ValidNk(nk) && nk <= i < 11 * nk
  {
    var p := Position(nk, i);
    if p.0 == 0 then sub(RotWord(prev)) ^ (Rcon[p.1] as word)
    else if nk > 6 && p.0 == 4 then sub(prev)
    else prev
  }

  /** The FIPS 197 key expansion, word by word: `w` starts with the key
      words and every later word `w[i]` is `temp ^ w[i - nk]`. */
  ghost predicate IsExpansion(sub: word -> word, kw: seq<word>, nk: nat, w: seq<word>)
    requires ValidNk(nk)
  {
    nk <= |w| <= 11 * nk && w[..nk] == kw &&
    forall i :: nk <= i < |w| ==> ExpansionStep(sub, nk, w, i)
  }

  /** Word `i` of `w` follows from the words before it. */
  ghost predicate ExpansionStep(sub: word -> word, nk: nat, w: seq<word>, i: nat)
    requires ValidNk(nk) && nk <= i < |w| <= 11 * nk
  {
    w[i] == Temp(sub, nk, i, w[i - 1]) ^ w[i - nk]
  }

  /** `rcon[k]` as a word: `uint32_fromBytesBigEndian(0, 0, 0, rcon[k])`.
      The loop never reads past the table (`Position`), so the value given
      beyond it is never used. */
  function RconWord(k: nat): word
  {
    if k < |Rcon| then Rcon[k] as word else 0
  }

  /** `tmp` after the two branches of the loop body, from the previous word. */
  function LoopTemp(sub: word -> word, nk: nat, j: nat, k: nat, prev: word): word
  {
    if j == 0 then sub(RotWord(prev)) ^ RconWord(k)
    else if nk > 6 && j == 4 then sub(prev)
    else prev
  }

  lemma TempLoopTemp(sub: word -> word, nk: nat, i: nat, j: nat, k: nat, prev: word)
    requires ValidNk(nk) && nk <= i < 11 * nk && (j, k) == Position(nk, i)
    ensures Temp(sub, nk, i, prev) == LoopTemp(sub, nk, j, k, prev)
  {
  }

  /** The second loop of `keySched`, run until `w` holds `n` words; `j` and
      `k` are its counters and `w[|w| - 1]` is its `tmp`. */
  function ScheduleLoop(sub: word -> word, nk: nat, n: nat, j: nat, k: nat, w: seq<word>): (r: seq<word>)
    requires ValidNk(nk) && nk <= |w| <= n && j < nk
    ensures |r| == n && r[..|w|] == w
    decreases n - |w|
  {
    if |w| == n then w
    else
      var t := LoopTemp(sub, nk, j, k, w[|w| - 1]) ^ w[|w| - nk];
      var c := NextCounters(nk, j, k);
      ScheduleLoop(sub, nk, n, c.0, c.1, w + [t])
  }

  lemma ScheduleLoopStep(sub: word -> word, nk: nat, n: nat, j: nat, k: nat, w: seq<word>)
    requires ValidNk(nk) && nk <= |w| < n && j < nk
    ensures ScheduleLoop(sub, nk, n, j, k, w) ==
      ScheduleLoop(sub, nk, n, NextCounters(nk, j, k).0, NextCounters(nk, j, k).1,
        w + [LoopTemp(sub, nk, j, k, w[|w| - 1]) ^ w[|w| - nk]])
  {
  }

  lemma PrefixStep<T>(e: seq<T>, m: nat)
    requires m < |e|
    ensures e[..m] + [e[m]] == e[..m + 1]
  {
  }

  /** Appending the next word of the recurrence keeps `w` an expansion. */
  lemma ExpansionSnoc(sub: word -> word, kw: seq<word>, nk: nat, w: seq<word>, x: word)
    requires ValidNk(nk) && IsExpansion(sub, kw, nk, w) && |w| < 11 * nk
    requires x == Temp(sub, nk, |w|, w[|w| - 1]) ^ w[|w| - nk]
    ensures IsExpansion(sub, kw, nk, w + [x])
  {
    var w' := w + [x];
    assert w'[..nk] == w[..nk];
    forall i | nk <= i < |w'|
      ensures ExpansionStep(sub, nk, w', i)
    {
      if i < |w| {
        assert ExpansionStep(sub, nk, w, i);
        ExpansionStepPrefix(sub, nk, w, w', i);
      } else {
        ExpansionStepLast(sub, nk, w, x);
      }
    }
  }

  lemma ExpansionStepLast(sub: word -> word, nk: nat, w: seq<word>, x: word)
    requires ValidNk(nk) && nk <= |w| < 11 * nk
    requires x == Temp(sub, nk, |w|, w[|w| - 1]) ^ w[|w| - nk]
    ensures ExpansionStep(sub, nk, w + [x], |w|)
  {
    var w' := w + [x];
    assert w'[|w|] == x && w'[|w| - 1] == w[|w| - 1] && w'[|w| - nk] == w[|w| - nk];
  }

  lemma ExpansionStepPrefix(sub: word -> word, nk: nat, w: seq<word>, w': seq<word>, i: nat)
    requires ValidNk(nk) && nk <= i < |w| <= |w'| <= 11 * nk && w == w'[..|w|]
    requires ExpansionStep(sub, nk, w, i)
    ensures ExpansionStep(sub, nk, w', i)
  {
    assert w'[i] == w[i] && w'[i - 1] == w[i - 1] && w'[i - nk] == w[i - nk];
  }

  /** Appending the word the loop body computes keeps `w` an expansion. */
  lemma ExpansionExtend(sub: word -> word, kw: seq<word>, nk: nat, j: nat, k: nat, w: seq<word>)
    requires ValidNk(nk) && IsExpansion(sub, kw, nk, w) && |w| < 11 * nk
    requires (j, k) == Position(nk, |w|)
    ensures IsExpansion(sub, kw, nk, w + [LoopTemp(sub, nk, j, k, w[|w| - 1]) ^ w[|w| - nk]])
  {
    TempLoopTemp(sub, nk, |w|, j, k, w[|w| - 1]);
    ExpansionSnoc(sub, kw, nk, w, LoopTemp(sub, nk, j, k, w[|w| - 1]) ^ w[|w| - nk]);
  }

  /** The loop extends an expansion to an expansion. */
  lemma {:induction false} ScheduleLoopIsExpansion(sub: word -> word, kw: seq<word>, nk: nat, n: nat, j: nat, k: nat, w: seq<word>)
    requires ValidNk(nk) && IsExpansion(sub, kw, nk, w) && |w| <= n <= 11 * nk
    requires (j, k) == Position(nk, |w|)
    ensures IsExpansion(sub, kw, nk, ScheduleLoop(sub, nk, n, j, k, w))
    decreases n - |w|
  {
    if |w| < n {
      ExpansionExtend(sub, kw, nk, j, k, w);
      PositionNext(nk, |w|);
      ScheduleLoopStep(sub, nk, n, j, k, w);
      var c := NextCounters(nk, j, k);
      ScheduleLoopIsExpansion(sub, kw, nk, n, c.0, c.1, w + [LoopTemp(sub, nk, j, k, w[|w| - 1]) ^ w[|w| - nk]]);
    }
  }

  /** The word the loop body appends is the next word of any expansion
      that `w` begins. */
  lemma LoopWord(sub: word -> word, kw: seq<word>, nk: nat, j: nat, k: nat, w: seq<word>, e: seq<word>)
    requires ValidNk(nk) && IsExpansion(sub, kw, nk, e)
    requires nk <= |w| < |e| && w == e[..|w|]
    requires (j, k) == Position(nk, |w|)
    ensures w + [LoopTemp(sub, nk, j, k, w[|w| - 1]) ^ w[|w| - nk]] == e[..|w| + 1]
  {
    LoopWordValue(sub, kw, nk, j, k, w, e);
    PrefixStep(e, |w|);
  }

  lemma LoopWordValue(sub: word -> word, kw: seq<word>, nk: nat, j: nat, k: nat, w: seq<word>, e: seq<word>)
    requires ValidNk(nk) && IsExpansion(sub, kw, nk, e)
    requires nk <= |w| < |e| && w == e[..|w|]
    requires (j, k) == Position(nk, |w|)
    ensures LoopTemp(sub, nk, j, k, w[|w| - 1]) ^ w[|w| - nk] == e[|w|]
  {
    assert ExpansionStep(sub, nk, e, |w|);
    TempLoopTemp(sub, nk, |w|, j, k, w[|w| - 1]);
    assert w[|w| - 1] == e[|w| - 1] && w[|w| - nk] == e[|w| - nk];
  }

  lemma ScheduleLoopAdvance(sub: word -> word, nk: nat, n: nat, j: nat, k: nat, w: seq<word>, w': seq<word>)
    requires ValidNk(nk) && nk <= |w| < n
    requires (j, k) == Position(nk, |w|)
    requires w' == w + [LoopTemp(sub, nk, j, k, w[|w| - 1]) ^ w[|w| - nk]]
    ensures ScheduleLoop(sub, nk, n, j, k, w) ==
      ScheduleLoop(sub, nk, n, Position(nk, |w| + 1).0, Position(nk, |w| + 1).1, w')
  {
    PositionNext(nk, |w|);
    ScheduleLoopStep(sub, nk, n, j, k, w);
  }

  /** Every expansion that `w` begins is what the loop computes from `w`:
      together with `ScheduleLoopIsExpansion`, the expansion of a key is
      unique and the loop computes it. */
  lemma {:induction false} ScheduleLoopUnique(sub: word -> word, kw: seq<word>, nk: nat, j: nat, k: nat, w: seq<word>, e: seq<word>)
    requires ValidNk(nk) && IsExpansion(sub, kw, nk, e)
    requires nk <= |w| <= |e| && w == e[..|w|]
    requires (j, k) == Position(nk, |w|)
    ensures ScheduleLoop(sub, nk, |e|, j, k, w) == e
    decreases |e| - |w|
  {
    if |w| < |e| {
      LoopWord(sub, kw, nk, j, k, w, e);
      ScheduleLoopAdvance(sub, nk, |e|, j, k, w, e[..|w| + 1]);
      var p := Position(nk, |w| + 1);
      ScheduleLoopUnique(sub, kw, nk, p.0, p.1, e[..|w| + 1], e);
    }
  }

  // ---------------------------------------------------------------------
  // keySched
  // ---------------------------------------------------------------------

  /** The key words alone are the start of their expansion. */
  lemma KeyWordsExpansion(key: seq<byte>, nk: nat)
    requires ValidNk(nk) && |key| == 4 * nk
    ensures IsExpansion(SubWord, KeyWords(key), nk, KeyWords(key))
    ensures Position(nk, nk) == (0, 0)
  {
  }

  /** The words the first two loops of `keySched` compute (`skey` holds
      each of them twice): the FIPS 197 expansion of the key, `4 * (nr + 1)`
      words. */
  function ScheduleWords(key: seq<byte>, nr: nat): (w: seq<word>)
    requires NumRounds(|key|) == Ok(nr)
    ensures |w| == 4 * (nr + 1)
    ensures IsExpansion(SubWord, KeyWords(key), |key| / 4, w)
  {
    KeyWordsExpansion(key, |key| / 4);
    ScheduleLoopIsExpansion(SubWord, KeyWords(key), |key| / 4, 4 * (nr + 1), 0, 0, KeyWords(key));
    ScheduleLoop(SubWord, |key| / 4, 4 * (nr + 1), 0, 0, KeyWords(key))
  }

  /** Any expansion of the key of that length is the one `keySched` computes. */
  lemma ScheduleWordsUnique(key: seq<byte>, nr: nat, e: seq<word>)
    requires NumRounds(|key|) == Ok(nr)
    requires IsExpansion(SubWord, KeyWords(key), |key| / 4, e) && |e| == 4 * (nr + 1)
    ensures ScheduleWords(key, nr) == e
  {
    var nk := |key| / 4;
    KeyWordsExpansion(key, nk);
    ScheduleLoopUnique(SubWord, KeyWords(key), nk, 0, 0, KeyWords(key), e);
  }

  /** Round key `r` of the expansion as the third loop of `keySched`
      leaves it in `skey[8r .. 8r + 8]`: its four words, each stored twice,
      in bitsliced form. */
  function PackedRoundKey(w: seq<word>, r: nat): State
    requires 4 * r + 4 <= |w|
  {
    var a, b, c, d := w[4 * r], w[4 * r + 1], w[4 * r + 2], w[4 * r + 3];
    Ortho(Octet(a, a, b, b, c, c, d, d))
  }

  /** Word `t` of a compressed round key: lane 0 of packed word `2t` and
      lane 1 of packed word `2t + 1`. */
  function CompressedWord(q: State, t: nat): word
    requires t < 4
  {
    if t == 0 then Compress(q.q0, q.q1)
    else if t == 1 then Compress(q.q2, q.q3)
    else if t == 2 then Compress(q.q4, q.q5)
    else Compress(q.q6, q.q7)
  }

  /** The third loop of `keySched`: every round key packed. */
  function PackKeys(w: seq<word>, n: nat): (ps: seq<State>)
    requires |w| == 4 * n
    ensures |ps| == n
  {
    seq(n, r requires 0 <= r < n => PackedRoundKey(w, r))
  }

  /** The last loop of `keySched`: every pair of packed words compressed
      into one. */
  function CompressKeys(ps: seq<State>): (c: seq<word>)
    ensures |c| == 4 * |ps|
  {
    seq(4 * |ps|, i requires 0 <= i < 4 * |ps| => CompressedWord(ps[i / 4], i % 4))
  }

  /** `keySched(compSkey, key)`: the number of rounds and the compressed
      round keys, or the error for a key of the wrong length. */
  function KeySched(key: seq<byte>): (r: Result<(nat, seq<word>), AesError>)
    ensures r.Ok? <==> |key| == 16 || |key| == 24 || |key| == 32
    ensures r.Ok? ==> r.value.0 == |key| / 4 + 6 && |r.value.1| == 4 * (r.value.0 + 1)
  {
    var nr :- NumRounds(|key|);
    Ok((nr, CompressKeys(PackKeys(ScheduleWords(key, nr), nr + 1))))
  }

  // ---------------------------------------------------------------------
  // skeyExpand
  // ---------------------------------------------------------------------

  /** `skeyExpand(skey, numRounds, compSkey)`: each compressed word becomes
      two words, lane 0 copied into both lanes, then lane 1 likewise. */
  function SkeyExpand(comp: seq<word>, nr: nat): (skey: seq<word>)
    requires 4 * (nr + 1) <= |comp|
    ensures |skey| == 8 * (nr + 1)
  {
    seq(8 * (nr + 1), v requires 0 <= v < 8 * (nr + 1) =>
      if v % 2 == 0 then ExpandLo(comp[v / 2]) else ExpandHi(comp[v / 2]))
  }

  /** Every expanded word has equal lanes. */
  lemma SkeyExpandLanes(comp: seq<word>, nr: nat)
    requires 4 * (nr + 1) <= |comp|
    ensures forall v :: 0 <= v < 8 * (nr + 1) ==> SwapBits(SkeyExpand(comp, nr)[v]) == SkeyExpand(comp, nr)[v]
  {
    var skey := SkeyExpand(comp, nr);
    forall v | 0 <= v < 8 * (nr + 1)
      ensures SwapBits(skey[v]) == skey[v]
    {
      ExpandLanes(comp[v / 2]);
    }
  }

  /** Compressing the expanded words again gives back the compressed keys. */
  lemma SkeyExpandCompress(comp: seq<word>, nr: nat)
    requires 4 * (nr + 1) <= |comp|
    ensures forall u :: 0 <= u < 4 * (nr + 1) ==>
      Compress(SkeyExpand(comp, nr)[2 * u], SkeyExpand(comp, nr)[2 * u + 1]) == comp[u]
  {
    var skey := SkeyExpand(comp, nr);
    forall u | 0 <= u < 4 * (nr + 1)
      ensures Compress(skey[2 * u], skey[2 * u + 1]) == comp[u]
    {
      assert skey[2 * u] == ExpandLo(comp[u]) && skey[2 * u + 1] == ExpandHi(comp[u]);
      CompressExpand(comp[u]);
    }
  }

  /** Expanding the compressed words of lane-symmetric words gives them back. */
  lemma CompressSkeyExpand(skey: seq<word>, nr: nat)
    requires |skey| == 8 * (nr + 1)
    requires forall v :: 0 <= v < |skey| ==> SwapBits(skey[v]) == skey[v]
    ensures SkeyExpand(seq(4 * (nr + 1), u requires 0 <= u < 4 * (nr + 1) => Compress(skey[2 * u], skey[2 * u + 1])), nr) == skey
  {
    var comp := seq(4 * (nr + 1), u requires 0 <= u < 4 * (nr + 1) => Compress(skey[2 * u], skey[2 * u + 1]));
    forall v | 0 <= v < |skey|
      ensures SkeyExpand(comp, nr)[v] == skey[v]
    {
      var u := v / 2;
      ExpandCompress(skey[2 * u], skey[2 * u + 1]);
    }
  }

  // ---------------------------------------------------------------------
  // _encrypt and ECB
  // ---------------------------------------------------------------------

  /** The eight expanded words of round `u`, `skey[8u .. 8u + 8]`. */
  function RoundKey(skey: seq<word>, u: nat): State
    requires 8 * u + 8 <= |skey|
  {
    Octet(skey[8 * u], skey[8 * u + 1], skey[8 * u + 2], skey[8 * u + 3],
          skey[8 * u + 4], skey[8 * u + 5], skey[8 * u + 6], skey[8 * u + 7])
  }

  /** The round keys `0 .. nr`. */
  function RoundKeys(skey: seq<word>, nr: nat): (ks: seq<State>)
    requires 8 * (nr + 1) <= |skey|
    ensures |ks| == nr + 1
  {
    seq(nr + 1, u requires 0 <= u <= nr => RoundKey(skey, u))
  }

  /** `_encrypt(numRounds, skey, q)`: key whitening, `numRounds - 1` full
      rounds and the final round, on the bitsliced state. */
  function Encrypt(nr: nat, skey: seq<word>, q: State): (r: State)
    requires 1 <= nr && 8 * (nr + 1) <= |skey|
  {
    AesCipher(q, RoundKeys(skey, nr))
  }

  /** The state of an `ECB` object. */
  datatype Ecb = Ecb(numRounds: nat, skeyExpanded: seq<word>)

  /** What the constructor guarantees about an `ECB` object. */
  predicate ValidEcb(e: Ecb)
  {
    1 <= e.numRounds && 8 * (e.numRounds + 1) <= |e.skeyExpanded|
  }

  /** `new ECB(key)`. */
  function NewEcb(key: seq<byte>): (r: Result<Ecb, AesError>)
    ensures r.Ok? <==> |key| == 16 || |key| == 24 || |key| == 32
    ensures r.Ok? ==> ValidEcb(r.value) && r.value.numRounds == |key| / 4 + 6
  {
    var (nr, comp) :- KeySched(key);
    Ok(Ecb(nr, SkeyExpand(comp, nr)))
  }

  /** `ECB.encrypt(dst, src)`: one block. */
  function EcbEncrypt(e: Ecb, src: Block): Block
    requires ValidEcb(e)
  {
    Store4(Encrypt(e.numRounds, e.skeyExpanded, Load4(src)))
  }

  /** `ECB.encrypt2x(dst0, dst1, src0, src1)`: two blocks at once. */
  function EcbEncrypt2x(e: Ecb, src0: Block, src1: Block): (Block, Block)
    requires ValidEcb(e)
  {
    Store8(Encrypt(e.numRounds, e.skeyExpanded, Load8(src0, src1)))
  }

  /** Round key `u` of the expansion `w` as a block (its four words, little-endian). */
  function RoundKeyBlock(w: seq<word>, u: nat): Block
    requires 4 * u + 4 <= |w|
  {
    StoreLe4(w[4 * u], w[4 * u + 1], w[4 * u + 2], w[4 * u + 3])
  }

  /** Expanding the compressed keys gives round key `u` of the expansion
      loaded into both lanes. */
  lemma RoundKeyLoad8(w: seq<word>, nr: nat, u: nat)
    requires |w| == 4 * (nr + 1) && u <= nr
    ensures RoundKey(SkeyExpand(CompressKeys(PackKeys(w, nr + 1)), nr), u) == Load8(RoundKeyBlock(w, u), RoundKeyBlock(w, u))
  {
    var rk := RoundKeyBlock(w, u);
    RoundKeyExpandPair(PackKeys(w, nr + 1), nr, u);
    assert PackKeys(w, nr + 1)[u] == PackedRoundKey(w, u);
    PackedRoundKeyBlock(w, u);
    RkeyOrthoLoad8(rk);
  }

  /** Expanded round key `u` is the compression and expansion of packed
      round key `u`. */
  lemma RoundKeyExpandPair(ps: seq<State>, nr: nat, u: nat)
    requires |ps| == nr + 1 && u <= nr
    ensures RoundKey(SkeyExpand(CompressKeys(ps), nr), u) == ExpandPair(ps[u])
  {
    var skey := SkeyExpand(CompressKeys(ps), nr);
    var e := ExpandPair(ps[u]);
    ExpandedWords(ps, nr, u, 0);
    ExpandedWords(ps, nr, u, 1);
    ExpandedWords(ps, nr, u, 2);
    ExpandedWords(ps, nr, u, 3);
    assert skey[8 * u] == e.q0 && skey[8 * u + 1] == e.q1;
    assert skey[8 * u + 2] == e.q2 && skey[8 * u + 3] == e.q3;
    assert skey[8 * u + 4] == e.q4 && skey[8 * u + 5] == e.q5;
    assert skey[8 * u + 6] == e.q6 && skey[8 * u + 7] == e.q7;
    RoundKeyOfWords(skey, u, e);
  }

  lemma RoundKeyOfWords(skey: seq<word>, u: nat, q: State)
    requires 8 * u + 8 <= |skey|
    requires skey[8 * u] == q.q0 && skey[8 * u + 1] == q.q1 && skey[8 * u + 2] == q.q2 && skey[8 * u + 3] == q.q3
    requires skey[8 * u + 4] == q.q4 && skey[8 * u + 5] == q.q5 && skey[8 * u + 6] == q.q6 && skey[8 * u + 7] == q.q7
    ensures RoundKey(skey, u) == q
  {
  }

  /** Expanded words `8u + 2t` and `8u + 2t + 1` come from compressed word
      `t` of packed round key `u`. */
  lemma ExpandedWords(ps: seq<State>, nr: nat, u: nat, t: nat)
    requires |ps| == nr + 1 && u <= nr && t < 4
    ensures SkeyExpand(CompressKeys(ps), nr)[8 * u + 2 * t] == ExpandLo(CompressedWord(ps[u], t))
    ensures SkeyExpand(CompressKeys(ps), nr)[8 * u + 2 * t + 1] == ExpandHi(CompressedWord(ps[u], t))
  {
    CompressKeysAt(ps, u, t);
    SkeyExpandAt(CompressKeys(ps), nr, u, t);
  }

  lemma SkeyExpandAt(comp: seq<word>, nr: nat, u: nat, t: nat)
    requires 4 * (nr + 1) <= |comp| && u <= nr && t < 4
    ensures SkeyExpand(comp, nr)[8 * u + 2 * t] == ExpandLo(comp[4 * u + t])
    ensures SkeyExpand(comp, nr)[8 * u + 2 * t + 1] == ExpandHi(comp[4 * u + t])
  {
    assert (8 * u + 2 * t) / 2 == 4 * u + t && (8 * u + 2 * t + 1) / 2 == 4 * u + t;
  }

  lemma CompressKeysAt(ps: seq<State>, u: nat, t: nat)
    requires u < |ps| && t < 4
    ensures CompressKeys(ps)[4 * u + t] == CompressedWord(ps[u], t)
  {
    assert (4 * u + t) / 4 == u && (4 * u + t) % 4 == t;
  }

  /** The packed round key is the packing of the round key block loaded
      into both lanes, as `rkeyOrtho` does it. */
  lemma PackedRoundKeyBlock(w: seq<word>, u: nat)
    requires 4 * u + 4 <= |w|
    ensures var rk := RoundKeyBlock(w, u);
      PackedRoundKey(w, u) == Ortho(Octet(LoadLe32(rk, 0), LoadLe32(rk, 0), LoadLe32(rk, 4), LoadLe32(rk, 4),
                                          LoadLe32(rk, 8), LoadLe32(rk, 8), LoadLe32(rk, 12), LoadLe32(rk, 12)))
  {
    var rk := RoundKeyBlock(w, u);
    LoadStoreLe4(w[4 * u], w[4 * u + 1], w[4 * u + 2], w[4 * u + 3]);
    var a, b, c, d := w[4 * u], w[4 * u + 1], w[4 * u + 2], w[4 * u + 3];
    assert Octet(a, a, b, b, c, c, d, d)
        == Octet(LoadLe32(rk, 0), LoadLe32(rk, 0), LoadLe32(rk, 4), LoadLe32(rk, 4),
                 LoadLe32(rk, 8), LoadLe32(rk, 8), LoadLe32(rk, 12), LoadLe32(rk, 12));
  }

  /** The round keys of `new ECB(key)` are the FIPS 197 round keys, each
      loaded into both lanes. */
  lemma NewEcbRoundKeys(key: seq<byte>, u: nat)
    requires NewEcb(key).Ok? && u <= NewEcb(key).value.numRounds
    ensures var e := NewEcb(key).value;
      RoundKey(e.skeyExpanded, u)
        == Load8(RoundKeyBlock(ScheduleWords(key, e.numRounds), u), RoundKeyBlock(ScheduleWords(key, e.numRounds), u))
  {
    var nr := |key| / 4 + 6;
    RoundKeyLoad8(ScheduleWords(key, nr), nr, u);
  }

  /** The round keys of `new ECB(key)` have equal lanes. */
  lemma NewEcbLaneSwap(key: seq<byte>)
    requires NewEcb(key).Ok?
    ensures var e := NewEcb(key).value;
      LaneSwapAll(RoundKeys(e.skeyExpanded, e.numRounds)) == RoundKeys(e.skeyExpanded, e.numRounds)
  {
    var (nr, comp) := KeySched(key).value;
    SkeyExpandLanes(comp, nr);
    RoundKeysLaneSwap(SkeyExpand(comp, nr), nr);
  }

  /** Round keys made of lane-symmetric words are lane-symmetric. */
  lemma RoundKeysLaneSwap(skey: seq<word>, nr: nat)
    requires |skey| == 8 * (nr + 1)
    requires forall v :: 0 <= v < |skey| ==> SwapBits(skey[v]) == skey[v]
    ensures LaneSwapAll(RoundKeys(skey, nr)) == RoundKeys(skey, nr)
  {
    var ks := RoundKeys(skey, nr);
    forall u | 0 <= u <= nr
      ensures LaneSwapAll(ks)[u] == ks[u]
    {
      RoundKeyLaneSwap(skey, u);
    }
  }

  lemma RoundKeyLaneSwap(skey: seq<word>, u: nat)
    requires 8 * u + 8 <= |skey|
    requires forall v :: 0 <= v < |skey| ==> SwapBits(skey[v]) == skey[v]
    ensures LaneSwap(RoundKey(skey, u)) == RoundKey(skey, u)
  {
    assert SwapBits(skey[8 * u]) == skey[8 * u];
    assert SwapBits(skey[8 * u + 1]) == skey[8 * u + 1];
    assert SwapBits(skey[8 * u + 2]) == skey[8 * u + 2];
    assert SwapBits(skey[8 * u + 3]) == skey[8 * u + 3];
    assert SwapBits(skey[8 * u + 4]) == skey[8 * u + 4];
    assert SwapBits(skey[8 * u + 5]) == skey[8 * u + 5];
    assert SwapBits(skey[8 * u + 6]) == skey[8 * u + 6];
    assert SwapBits(skey[8 * u + 7]) == skey[8 * u + 7];
  }

  /** `encrypt2x` of an ECB object is `encrypt` of each block. */
  lemma EcbEncrypt2xPair(key: seq<byte>, src0: Block, src1: Block)
    requires NewEcb(key).Ok?
    ensures EcbEncrypt2x(NewEcb(key).value, src0, src1)
         == (EcbEncrypt(NewEcb(key).value, src0), EcbEncrypt(NewEcb(key).value, src1))
  {
    var e := NewEcb(key).value;
    NewEcbLaneSwap(key);
    AesCipherTwoBlocks(src0, src1, RoundKeys(e.skeyExpanded, e.numRounds));
  }

  /** Encrypting a block loaded into lane 0 or into both lanes gives the
      same block. */
  lemma EcbEncryptBothLanes(key: seq<byte>, src: Block)
    requires NewEcb(key).Ok?
    ensures EcbEncrypt2x(NewEcb(key).value, src, src).0 == EcbEncrypt(NewEcb(key).value, src)
  {
    EcbEncrypt2xPair(key, src, src);
  }
}
