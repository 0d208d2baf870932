/** Known answers: the schedule, the working variables after every round, the hash value and the digest
of the one-block message "abc", for both variants.  A lemma takes a few rounds on literals. */
module KnownAnswers {
  import opened Bits
  import opened Sha2
  import opened Sha2Variants
  import Base32

  const ABC: seq<byte> := [0x61, 0x62, 0x63]

  function Part<W>(parts: seq<seq<W>>, j: nat): seq<W>
    requires j < |parts|
  {
    parts[j]
  }

  // ---------------- steps, for any variant ----------------

  /** Word `t` of the schedule from the four it is made of. */
  function Next<W>(p: Variant<W>, a: W, b: W, c: W, d: W): W {
    p.add(p.add(p.add(a, p.smallSigma0(b)), c), p.smallSigma1(d))
  }

  /** The first words of the schedule are those of `words`. */
  ghost predicate Known<W>(p: Variant<W>, block: seq<byte>, words: seq<W>, n: nat) {
    && |block| == 16 * p.wordBytes && n <= |words|
    && forall t :: 0 <= t < n ==> Schedule(p, block, t) == words[t]
  }

  lemma WordStep<W>(p: Variant<W>, block: seq<byte>, words: seq<W>, t: nat)
    requires 16 <= t < |words| && Known(p, block, words, t)
    requires words[t] == Next(p, words[t - 16], words[t - 15], words[t - 7], words[t - 2])
    ensures Known(p, block, words, t + 1)
  {
    assert Schedule(p, block, t - 16) == words[t - 16] && Schedule(p, block, t - 15) == words[t - 15];
    assert Schedule(p, block, t - 7) == words[t - 7] && Schedule(p, block, t - 2) == words[t - 2];
  }

  /** One more round. */
  lemma RoundStep<W>(p: Variant<W>, start: Working<W>, block: seq<byte>, words: seq<W>, t: nat,
                     s: Working<W>, next: Working<W>)
    requires t < |words| && t < |p.k| && Known(p, block, words, |words|)
    requires Rounds(p, start, block, t) == s && Round(p, s, p.k[t], words[t]) == next
    ensures Rounds(p, start, block, t + 1) == next
  {
    assert Schedule(p, block, t) == words[t];
  }

  // ---------------- the block of "abc" ----------------

  /** The block of a message that fits into one. */
  function BlockOf<W>(p: Variant<W>, msg: seq<byte>): seq<byte>
    requires WellFormed(p)
  {
    msg + Tail(p, |msg|)
  }

  lemma {:induction false} ZeroField(n: nat)
    ensures BigEndian(0, n) == ZeroBytes(n)
  {
    if n > 0 {
      ZeroField(n - 1);
    }
  }

  /** Byte `i` of the block of "abc": the message, the marker, zeros, and its 24 bits. */
  function AbcByte(blockBytes: nat, i: nat): byte {
    if i < 3 then ABC[i] else if i == 3 then 0x80 else if i == blockBytes - 1 then 24 else 0
  }

  lemma AbcBlock<W>(p: Variant<W>, i: nat)
    requires WellFormed(p) && i < p.blockBytes
    ensures |BlockOf(p, ABC)| == p.blockBytes
    ensures BlockOf(p, ABC)[i] == AbcByte(p.blockBytes, i)
  {
    ZeroField(7);
    assert BigEndian(24, 8) == BigEndian(0, 7) + [24];
  }

  lemma LoadNextByte<W>(p: Variant<W>, bytes: seq<byte>, b: byte)
    ensures Load(p, bytes + [b]) == p.shiftIn(Load(p, bytes), b)
  {
    assert (bytes + [b])[..|bytes|] == bytes;
  }

  lemma {:induction false} LoadZeros<W>(p: Variant<W>, n: nat)
    requires p.shiftIn(p.zero, 0) == p.zero
    ensures Load(p, ZeroBytes(n)) == p.zero
  {
    if n > 0 {
      LoadZeros(p, n - 1);
      assert ZeroBytes(n) == ZeroBytes(n - 1) + [0];
      LoadNextByte(p, ZeroBytes(n - 1), 0);
    }
  }

  /** The first sixteen words. */
  lemma FirstWords<W>(p: Variant<W>, t: nat)
    requires WellFormed(p) && t < 16 && p.shiftIn(p.zero, 0) == p.zero
    ensures |BlockOf(p, ABC)| == 16 * p.wordBytes
    ensures Schedule(p, BlockOf(p, ABC), t)
         == if t == 0 then Load(p, ABC + [0x80] + ZeroBytes(p.wordBytes - 4))
            else if t == 15 then p.shiftIn(p.zero, 24)
            else p.zero
  {
    var block, n := BlockOf(p, ABC), p.wordBytes;
    MulLe(n, t + 1, 16);
    AbcBlock(p, 0);
    var word := block[n * t..n * t + n];
    if t == 0 {
      SameWord(p, word, ABC + [0x80] + ZeroBytes(n - 4), 0);
    } else if t == 15 {
      SameWord(p, word, ZeroBytes(n - 1) + [24], n * t);
      LoadNextByte(p, ZeroBytes(n - 1), 24);
      LoadZeros(p, n - 1);
    } else {
      SameWord(p, word, ZeroBytes(n), n * t);
      LoadZeros(p, n);
    }
  }

  lemma SameWord<W>(p: Variant<W>, word: seq<byte>, other: seq<byte>, off: nat)
    requires WellFormed(p) && |word| == |other| && off + |word| <= p.blockBytes
    requires |BlockOf(p, ABC)| == p.blockBytes && word == BlockOf(p, ABC)[off..off + |word|]
    requires forall j :: 0 <= j < |other| ==> other[j] == AbcByte(p.blockBytes, off + j)
    ensures word == other
  {
    forall j | 0 <= j < |word|
      ensures word[j] == other[j]
    {
      AbcBlock(p, off + j);
    }
  }

  /** A message of one block. */
  lemma HashOfOne<W>(p: Variant<W>, msg: seq<byte>, r: seq<W>)
    requires WellFormed(p) && |BlockOf(p, msg)| == p.blockBytes
    requires CompressBlock(p, p.iv, BlockOf(p, msg)) == r
    ensures Hash(p, msg) == r
  {
    HashOne(p, p.iv, BlockOf(p, msg));
    assert BlockOf(p, msg)[..p.blockBytes] == BlockOf(p, msg);
  }

  lemma Finished<W>(p: Variant<W>, h: seq<W>, block: seq<byte>, s: Working<W>, r: seq<W>)
    requires |h| == |r| == 8 && |block| == 16 * p.wordBytes
    requires Rounds(p, Working(h[0], h[1], h[2], h[3], h[4], h[5], h[6], h[7]), block, |p.k|) == s
    requires p.add(h[0], s.a) == r[0] && p.add(h[1], s.b) == r[1]
    requires p.add(h[2], s.c) == r[2] && p.add(h[3], s.d) == r[3]
    requires p.add(h[4], s.e) == r[4] && p.add(h[5], s.f) == r[5]
    requires p.add(h[6], s.g) == r[6] && p.add(h[7], s.h) == r[7]
    ensures CompressBlock(p, h, block) == r
  {
  }

  // ---------------- SHA-512/256 ----------------

  const W64_0: seq<bv64> := [
    0x6162638000000000, 0x0000000000000000, 0x0000000000000000, 0x0000000000000000,
    0x0000000000000000, 0x0000000000000000, 0x0000000000000000, 0x0000000000000000]
  const W64_1: seq<bv64> := [
    0x0000000000000000, 0x0000000000000000, 0x0000000000000000, 0x0000000000000000,
    0x0000000000000000, 0x0000000000000000, 0x0000000000000000, 0x0000000000000018]
  const W64_2: seq<bv64> := [
    0x6162638000000000, 0x00030000000000c0, 0x0a9699a24c700003, 0x00000c0060000603,
    0x549ef62639858996, 0x00c0003300003c00, 0x1497007a8a0e9dbc, 0x62e56500cc0780f0]
  const W64_3: seq<bv64> := [
    0x7760dd475a538797, 0xf1554b711c1c0003, 0xca2993a4345d9ff2, 0x5e0e66b5c783dd32,
    0xe25a625d00494b62, 0x9f44486fb1e4fbd2, 0xb31b8c2b06085f2f, 0x0e987660934142f6]
  const W64_4: seq<bv64> := [
    0xa4af2cfd09fbb924, 0xad289e2e0bd53186, 0x3c74563aa2f9673e, 0x6ccdcd14cc14b53f,
    0xc3f925b337f22bde, 0x5bcc77a75ad95b54, 0x3ec2257adca09a52, 0x28246960001fc5eb]
  const W64_5: seq<bv64> := [
    0x04e33a75ce2be88a, 0x7d5314b3c359e0e7, 0xaef7a285ff251266, 0x0b8472581deea04f,
    0xb174e26eddc7b033, 0x5d63bae58ddd88de, 0x4c044007b744ccbb, 0xe6a9aa4d74dc7d43]
  const W64_6: seq<bv64> := [
    0xebeaf1237248019c, 0x361e80b2d00f3193, 0x2e9839125df3b175, 0x3319629293ad5363,
    0x9cbc5d89ac1b89d5, 0x275e23ffeeca50b7, 0x3b80d680bf69ef58, 0x0d0696933945a125]
  const W64_7: seq<bv64> := [
    0x7533eabcb786ff00, 0xb89826cee6fbf0e5, 0x249b4fbcad623e9f, 0x4aea9df2b02d6f1e,
    0x2cc57475a55e8d8f, 0xb2574ae938d8be89, 0xc1b35a57b16d6aea, 0xcc4918b5949206bb]
  const W64_8: seq<bv64> := [
    0x5099c3add79f90ec, 0x5ea81d78e7660bf1, 0xebee6267405ac2a9, 0xb01f21926108a4ab,
    0x786433dd2fe65556, 0xc54a6eaa24a0552c, 0xb3c8f1530bdbaa9e, 0xbb8abfe56f469338]
  const W64_9: seq<bv64> := [
    0xf63d4265cc1c5a78, 0xbe8355ea73129afb, 0x49e2db8ebdcfbeb5, 0x82269d4a883a3d99,
    0xfdf53df3011f362b, 0x464af5671d71c12e, 0xe449b68198ec611c, 0x92aeeed1a7bcf7d2]

  const WORDS64: seq<bv64> :=
    W64_0 + W64_1 + W64_2 + W64_3 + W64_4 + W64_5 + W64_6 + W64_7 + W64_8 + W64_9

  lemma Words64At0()
    ensures |WORDS64| == 80
    ensures WORDS64[0] == 0x6162638000000000
    ensures WORDS64[1] == 0x0000000000000000
    ensures WORDS64[2] == 0x0000000000000000
    ensures WORDS64[3] == 0x0000000000000000
    ensures WORDS64[4] == 0x0000000000000000
    ensures WORDS64[5] == 0x0000000000000000
    ensures WORDS64[6] == 0x0000000000000000
    ensures WORDS64[7] == 0x0000000000000000
  {
    Places64(W64_0, W64_1, W64_2, W64_3, W64_4, W64_5, W64_6, W64_7, W64_8, W64_9, 0);
  }

  lemma Words64At8()
    ensures |WORDS64| == 80
    ensures WORDS64[8] == 0x0000000000000000
    ensures WORDS64[9] == 0x0000000000000000
    ensures WORDS64[10] == 0x0000000000000000
    ensures WORDS64[11] == 0x0000000000000000
    ensures WORDS64[12] == 0x0000000000000000
    ensures WORDS64[13] == 0x0000000000000000
    ensures WORDS64[14] == 0x0000000000000000
    ensures WORDS64[15] == 0x0000000000000018
  {
    Places64(W64_0, W64_1, W64_2, W64_3, W64_4, W64_5, W64_6, W64_7, W64_8, W64_9, 1);
  }

  lemma Words64At16()
    ensures |WORDS64| == 80
    ensures WORDS64[16] == 0x6162638000000000
    ensures WORDS64[17] == 0x00030000000000c0
    ensures WORDS64[18] == 0x0a9699a24c700003
    ensures WORDS64[19] == 0x00000c0060000603
    ensures WORDS64[20] == 0x549ef62639858996
    ensures WORDS64[21] == 0x00c0003300003c00
    ensures WORDS64[22] == 0x1497007a8a0e9dbc
    ensures WORDS64[23] == 0x62e56500cc0780f0
  {
    Places64(W64_0, W64_1, W64_2, W64_3, W64_4, W64_5, W64_6, W64_7, W64_8, W64_9, 2);
  }

  lemma Words64At24()
    ensures |WORDS64| == 80
    ensures WORDS64[24] == 0x7760dd475a538797
    ensures WORDS64[25] == 0xf1554b711c1c0003
    ensures WORDS64[26] == 0xca2993a4345d9ff2
    ensures WORDS64[27] == 0x5e0e66b5c783dd32
    ensures WORDS64[28] == 0xe25a625d00494b62
    ensures WORDS64[29] == 0x9f44486fb1e4fbd2
    ensures WORDS64[30] == 0xb31b8c2b06085f2f
    ensures WORDS64[31] == 0x0e987660934142f6
  {
    Places64(W64_0, W64_1, W64_2, W64_3, W64_4, W64_5, W64_6, W64_7, W64_8, W64_9, 3);
  }

  lemma Words64At32()
    ensures |WORDS64| == 80
    ensures WORDS64[32] == 0xa4af2cfd09fbb924
    ensures WORDS64[33] == 0xad289e2e0bd53186
    ensures WORDS64[34] == 0x3c74563aa2f9673e
    ensures WORDS64[35] == 0x6ccdcd14cc14b53f
    ensures WORDS64[36] == 0xc3f925b337f22bde
    ensures WORDS64[37] == 0x5bcc77a75ad95b54
    ensures WORDS64[38] == 0x3ec2257adca09a52
    ensures WORDS64[39] == 0x28246960001fc5eb
  {
    Places64(W64_0, W64_1, W64_2, W64_3, W64_4, W64_5, W64_6, W64_7, W64_8, W64_9, 4);
  }

  lemma Words64At40()
    ensures |WORDS64| == 80
    ensures WORDS64[40] == 0x04e33a75ce2be88a
    ensures WORDS64[41] == 0x7d5314b3c359e0e7
    ensures WORDS64[42] == 0xaef7a285ff251266
    ensures WORDS64[43] == 0x0b8472581deea04f
    ensures WORDS64[44] == 0xb174e26eddc7b033
    ensures WORDS64[45] == 0x5d63bae58ddd88de
    ensures WORDS64[46] == 0x4c044007b744ccbb
    ensures WORDS64[47] == 0xe6a9aa4d74dc7d43
  {
    Places64(W64_0, W64_1, W64_2, W64_3, W64_4, W64_5, W64_6, W64_7, W64_8, W64_9, 5);
  }

  lemma Words64At48()
    ensures |WORDS64| == 80
    ensures WORDS64[48] == 0xebeaf1237248019c
    ensures WORDS64[49] == 0x361e80b2d00f3193
    ensures WORDS64[50] == 0x2e9839125df3b175
    ensures WORDS64[51] == 0x3319629293ad5363
    ensures WORDS64[52] == 0x9cbc5d89ac1b89d5
    ensures WORDS64[53] == 0x275e23ffeeca50b7
    ensures WORDS64[54] == 0x3b80d680bf69ef58
    ensures WORDS64[55] == 0x0d0696933945a125
  {
    Places64(W64_0, W64_1, W64_2, W64_3, W64_4, W64_5, W64_6, W64_7, W64_8, W64_9, 6);
  }

  lemma Words64At56()
    ensures |WORDS64| == 80
    ensures WORDS64[56] == 0x7533eabcb786ff00
    ensures WORDS64[57] == 0xb89826cee6fbf0e5
    ensures WORDS64[58] == 0x249b4fbcad623e9f
    ensures WORDS64[59] == 0x4aea9df2b02d6f1e
    ensures WORDS64[60] == 0x2cc57475a55e8d8f
    ensures WORDS64[61] == 0xb2574ae938d8be89
    ensures WORDS64[62] == 0xc1b35a57b16d6aea
    ensures WORDS64[63] == 0xcc4918b5949206bb
  {
    Places64(W64_0, W64_1, W64_2, W64_3, W64_4, W64_5, W64_6, W64_7, W64_8, W64_9, 7);
  }

  lemma Words64At64()
    ensures |WORDS64| == 80
    ensures WORDS64[64] == 0x5099c3add79f90ec
    ensures WORDS64[65] == 0x5ea81d78e7660bf1
    ensures WORDS64[66] == 0xebee6267405ac2a9
    ensures WORDS64[67] == 0xb01f21926108a4ab
    ensures WORDS64[68] == 0x786433dd2fe65556
    ensures WORDS64[69] == 0xc54a6eaa24a0552c
    ensures WORDS64[70] == 0xb3c8f1530bdbaa9e
    ensures WORDS64[71] == 0xbb8abfe56f469338
  {
    Places64(W64_0, W64_1, W64_2, W64_3, W64_4, W64_5, W64_6, W64_7, W64_8, W64_9, 8);
  }

  lemma Words64At72()
    ensures |WORDS64| == 80
    ensures WORDS64[72] == 0xf63d4265cc1c5a78
    ensures WORDS64[73] == 0xbe8355ea73129afb
    ensures WORDS64[74] == 0x49e2db8ebdcfbeb5
    ensures WORDS64[75] == 0x82269d4a883a3d99
    ensures WORDS64[76] == 0xfdf53df3011f362b
    ensures WORDS64[77] == 0x464af5671d71c12e
    ensures WORDS64[78] == 0xe449b68198ec611c
    ensures WORDS64[79] == 0x92aeeed1a7bcf7d2
  {
    Places64(W64_0, W64_1, W64_2, W64_3, W64_4, W64_5, W64_6, W64_7, W64_8, W64_9, 9);
  }

  lemma Constants64At0()
    ensures |K512| == 80
    ensures K512[0] == 0x428a2f98d728ae22
    ensures K512[1] == 0x7137449123ef65cd
    ensures K512[2] == 0xb5c0fbcfec4d3b2f
    ensures K512[3] == 0xe9b5dba58189dbbc
    ensures K512[4] == 0x3956c25bf348b538
    ensures K512[5] == 0x59f111f1b605d019
    ensures K512[6] == 0x923f82a4af194f9b
    ensures K512[7] == 0xab1c5ed5da6d8118
  {
    Places64(K512_0, K512_1, K512_2, K512_3, K512_4, K512_5, K512_6, K512_7, K512_8, K512_9, 0);
  }

  lemma Constants64At8()
    ensures |K512| == 80
    ensures K512[8] == 0xd807aa98a3030242
    ensures K512[9] == 0x12835b0145706fbe
    ensures K512[10] == 0x243185be4ee4b28c
    ensures K512[11] == 0x550c7dc3d5ffb4e2
    ensures K512[12] == 0x72be5d74f27b896f
    ensures K512[13] == 0x80deb1fe3b1696b1
    ensures K512[14] == 0x9bdc06a725c71235
    ensures K512[15] == 0xc19bf174cf692694
  {
    Places64(K512_0, K512_1, K512_2, K512_3, K512_4, K512_5, K512_6, K512_7, K512_8, K512_9, 1);
  }

  lemma Constants64At16()
    ensures |K512| == 80
    ensures K512[16] == 0xe49b69c19ef14ad2
    ensures K512[17] == 0xefbe4786384f25e3
    ensures K512[18] == 0x0fc19dc68b8cd5b5
    ensures K512[19] == 0x240ca1cc77ac9c65
    ensures K512[20] == 0x2de92c6f592b0275
    ensures K512[21] == 0x4a7484aa6ea6e483
    ensures K512[22] == 0x5cb0a9dcbd41fbd4
    ensures K512[23] == 0x76f988da831153b5
  {
    Places64(K512_0, K512_1, K512_2, K512_3, K512_4, K512_5, K512_6, K512_7, K512_8, K512_9, 2);
  }

  lemma Constants64At24()
    ensures |K512| == 80
    ensures K512[24] == 0x983e5152ee66dfab
    ensures K512[25] == 0xa831c66d2db43210
    ensures K512[26] == 0xb00327c898fb213f
    ensures K512[27] == 0xbf597fc7beef0ee4
    ensures K512[28] == 0xc6e00bf33da88fc2
    ensures K512[29] == 0xd5a79147930aa725
    ensures K512[30] == 0x06ca6351e003826f
    ensures K512[31] == 0x142929670a0e6e70
  {
    Places64(K512_0, K512_1, K512_2, K512_3, K512_4, K512_5, K512_6, K512_7, K512_8, K512_9, 3);
  }

  lemma Constants64At32()
    ensures |K512| == 80
    ensures K512[32] == 0x27b70a8546d22ffc
    ensures K512[33] == 0x2e1b21385c26c926
    ensures K512[34] == 0x4d2c6dfc5ac42aed
    ensures K512[35] == 0x53380d139d95b3df
    ensures K512[36] == 0x650a73548baf63de
    ensures K512[37] == 0x766a0abb3c77b2a8
    ensures K512[38] == 0x81c2c92e47edaee6
    ensures K512[39] == 0x92722c851482353b
  {
    Places64(K512_0, K512_1, K512_2, K512_3, K512_4, K512_5, K512_6, K512_7, K512_8, K512_9, 4);
  }

  lemma Constants64At40()
    ensures |K512| == 80
    ensures K512[40] == 0xa2bfe8a14cf10364
    ensures K512[41] == 0xa81a664bbc423001
    ensures K512[42] == 0xc24b8b70d0f89791
    ensures K512[43] == 0xc76c51a30654be30
    ensures K512[44] == 0xd192e819d6ef5218
    ensures K512[45] == 0xd69906245565a910
    ensures K512[46] == 0xf40e35855771202a
    ensures K512[47] == 0x106aa07032bbd1b8
  {
    Places64(K512_0, K512_1, K512_2, K512_3, K512_4, K512_5, K512_6, K512_7, K512_8, K512_9, 5);
  }

  lemma Constants64At48()
    ensures |K512| == 80
    ensures K512[48] == 0x19a4c116b8d2d0c8
    ensures K512[49] == 0x1e376c085141ab53
    ensures K512[50] == 0x2748774cdf8eeb99
    ensures K512[51] == 0x34b0bcb5e19b48a8
    ensures K512[52] == 0x391c0cb3c5c95a63
    ensures K512[53] == 0x4ed8aa4ae3418acb
    ensures K512[54] == 0x5b9cca4f7763e373
    ensures K512[55] == 0x682e6ff3d6b2b8a3
  {
    Places64(K512_0, K512_1, K512_2, K512_3, K512_4, K512_5, K512_6, K512_7, K512_8, K512_9, 6);
  }

  lemma Constants64At56()
    ensures |K512| == 80
    ensures K512[56] == 0x748f82ee5defb2fc
    ensures K512[57] == 0x78a5636f43172f60
    ensures K512[58] == 0x84c87814a1f0ab72
    ensures K512[59] == 0x8cc702081a6439ec
    ensures K512[60] == 0x90befffa23631e28
    ensures K512[61] == 0xa4506cebde82bde9
    ensures K512[62] == 0xbef9a3f7b2c67915
    ensures K512[63] == 0xc67178f2e372532b
  {
    Places64(K512_0, K512_1, K512_2, K512_3, K512_4, K512_5, K512_6, K512_7, K512_8, K512_9, 7);
  }

  lemma Constants64At64()
    ensures |K512| == 80
    ensures K512[64] == 0xca273eceea26619c
    ensures K512[65] == 0xd186b8c721c0c207
    ensures K512[66] == 0xeada7dd6cde0eb1e
    ensures K512[67] == 0xf57d4f7fee6ed178
    ensures K512[68] == 0x06f067aa72176fba
    ensures K512[69] == 0x0a637dc5a2c898a6
    ensures K512[70] == 0x113f9804bef90dae
    ensures K512[71] == 0x1b710b35131c471b
  {
    Places64(K512_0, K512_1, K512_2, K512_3, K512_4, K512_5, K512_6, K512_7, K512_8, K512_9, 8);
  }

  lemma Constants64At72()
    ensures |K512| == 80
    ensures K512[72] == 0x28db77f523047d84
    ensures K512[73] == 0x32caab7b40c72493
    ensures K512[74] == 0x3c9ebe0a15c9bebc
    ensures K512[75] == 0x431d67c49c100d4c
    ensures K512[76] == 0x4cc5d4becb3e42b6
    ensures K512[77] == 0x597f299cfc657e2a
    ensures K512[78] == 0x5fcb6fab3ad6faec
    ensures K512[79] == 0x6c44198c4a475817
  {
    Places64(K512_0, K512_1, K512_2, K512_3, K512_4, K512_5, K512_6, K512_7, K512_8, K512_9, 9);
  }

  /** Where the entries of part `j` are. */
  lemma Places64(s0: seq<bv64>, s1: seq<bv64>, s2: seq<bv64>, s3: seq<bv64>, s4: seq<bv64>, s5: seq<bv64>, s6: seq<bv64>, s7: seq<bv64>, s8: seq<bv64>, s9: seq<bv64>, j: nat)
    requires |s0| == |s1| == |s2| == |s3| == |s4| == |s5| == |s6| == |s7| == |s8| == |s9| == 8 && j < 10
    ensures |s0 + s1 + s2 + s3 + s4 + s5 + s6 + s7 + s8 + s9| == 80
    ensures forall i :: 0 <= i < 8 ==>
      (s0 + s1 + s2 + s3 + s4 + s5 + s6 + s7 + s8 + s9)[8 * j + i] == Part([s0, s1, s2, s3, s4, s5, s6, s7, s8, s9], j)[i]
  {
  }

  lemma Sums64At16(iv: seq<bv64>, k: seq<bv64>)
    ensures Next(Variant64(iv, k), 0x6162638000000000, 0x0000000000000000, 0x0000000000000000, 0x0000000000000000)
         == 0x6162638000000000
    ensures Next(Variant64(iv, k), 0x0000000000000000, 0x0000000000000000, 0x0000000000000000, 0x0000000000000018)
         == 0x00030000000000c0
    ensures Next(Variant64(iv, k), 0x0000000000000000, 0x0000000000000000, 0x0000000000000000, 0x6162638000000000)
         == 0x0a9699a24c700003
    ensures Next(Variant64(iv, k), 0x0000000000000000, 0x0000000000000000, 0x0000000000000000, 0x00030000000000c0)
         == 0x00000c0060000603
    ensures Next(Variant64(iv, k), 0x0000000000000000, 0x0000000000000000, 0x0000000000000000, 0x0a9699a24c700003)
         == 0x549ef62639858996
    ensures Next(Variant64(iv, k), 0x0000000000000000, 0x0000000000000000, 0x0000000000000000, 0x00000c0060000603)
         == 0x00c0003300003c00
    ensures Next(Variant64(iv, k), 0x0000000000000000, 0x0000000000000000, 0x0000000000000018, 0x549ef62639858996)
         == 0x1497007a8a0e9dbc
    ensures Next(Variant64(iv, k), 0x0000000000000000, 0x0000000000000000, 0x6162638000000000, 0x00c0003300003c00)
         == 0x62e56500cc0780f0
  {
  }

  lemma Sums64At24(iv: seq<bv64>, k: seq<bv64>)
    ensures Next(Variant64(iv, k), 0x0000000000000000, 0x0000000000000000, 0x00030000000000c0, 0x1497007a8a0e9dbc)
         == 0x7760dd475a538797
    ensures Next(Variant64(iv, k), 0x0000000000000000, 0x0000000000000000, 0x0a9699a24c700003, 0x62e56500cc0780f0)
         == 0xf1554b711c1c0003
    ensures Next(Variant64(iv, k), 0x0000000000000000, 0x0000000000000000, 0x00000c0060000603, 0x7760dd475a538797)
         == 0xca2993a4345d9ff2
    ensures Next(Variant64(iv, k), 0x0000000000000000, 0x0000000000000000, 0x549ef62639858996, 0xf1554b711c1c0003)
         == 0x5e0e66b5c783dd32
    ensures Next(Variant64(iv, k), 0x0000000000000000, 0x0000000000000000, 0x00c0003300003c00, 0xca2993a4345d9ff2)
         == 0xe25a625d00494b62
    ensures Next(Variant64(iv, k), 0x0000000000000000, 0x0000000000000000, 0x1497007a8a0e9dbc, 0x5e0e66b5c783dd32)
         == 0x9f44486fb1e4fbd2
    ensures Next(Variant64(iv, k), 0x0000000000000000, 0x0000000000000018, 0x62e56500cc0780f0, 0xe25a625d00494b62)
         == 0xb31b8c2b06085f2f
    ensures Next(Variant64(iv, k), 0x0000000000000018, 0x6162638000000000, 0x7760dd475a538797, 0x9f44486fb1e4fbd2)
         == 0x0e987660934142f6
  {
  }

  lemma Sums64At32(iv: seq<bv64>, k: seq<bv64>)
    ensures Next(Variant64(iv, k), 0x6162638000000000, 0x00030000000000c0, 0xf1554b711c1c0003, 0xb31b8c2b06085f2f)
         == 0xa4af2cfd09fbb924
    ensures Next(Variant64(iv, k), 0x00030000000000c0, 0x0a9699a24c700003, 0xca2993a4345d9ff2, 0x0e987660934142f6)
         == 0xad289e2e0bd53186
    ensures Next(Variant64(iv, k), 0x0a9699a24c700003, 0x00000c0060000603, 0x5e0e66b5c783dd32, 0xa4af2cfd09fbb924)
         == 0x3c74563aa2f9673e
    ensures Next(Variant64(iv, k), 0x00000c0060000603, 0x549ef62639858996, 0xe25a625d00494b62, 0xad289e2e0bd53186)
         == 0x6ccdcd14cc14b53f
    ensures Next(Variant64(iv, k), 0x549ef62639858996, 0x00c0003300003c00, 0x9f44486fb1e4fbd2, 0x3c74563aa2f9673e)
         == 0xc3f925b337f22bde
    ensures Next(Variant64(iv, k), 0x00c0003300003c00, 0x1497007a8a0e9dbc, 0xb31b8c2b06085f2f, 0x6ccdcd14cc14b53f)
         == 0x5bcc77a75ad95b54
    ensures Next(Variant64(iv, k), 0x1497007a8a0e9dbc, 0x62e56500cc0780f0, 0x0e987660934142f6, 0xc3f925b337f22bde)
         == 0x3ec2257adca09a52
    ensures Next(Variant64(iv, k), 0x62e56500cc0780f0, 0x7760dd475a538797, 0xa4af2cfd09fbb924, 0x5bcc77a75ad95b54)
         == 0x28246960001fc5eb
  {
  }

  lemma Sums64At40(iv: seq<bv64>, k: seq<bv64>)
    ensures Next(Variant64(iv, k), 0x7760dd475a538797, 0xf1554b711c1c0003, 0xad289e2e0bd53186, 0x3ec2257adca09a52)
         == 0x04e33a75ce2be88a
    ensures Next(Variant64(iv, k), 0xf1554b711c1c0003, 0xca2993a4345d9ff2, 0x3c74563aa2f9673e, 0x28246960001fc5eb)
         == 0x7d5314b3c359e0e7
    ensures Next(Variant64(iv, k), 0xca2993a4345d9ff2, 0x5e0e66b5c783dd32, 0x6ccdcd14cc14b53f, 0x04e33a75ce2be88a)
         == 0xaef7a285ff251266
    ensures Next(Variant64(iv, k), 0x5e0e66b5c783dd32, 0xe25a625d00494b62, 0xc3f925b337f22bde, 0x7d5314b3c359e0e7)
         == 0x0b8472581deea04f
    ensures Next(Variant64(iv, k), 0xe25a625d00494b62, 0x9f44486fb1e4fbd2, 0x5bcc77a75ad95b54, 0xaef7a285ff251266)
         == 0xb174e26eddc7b033
    ensures Next(Variant64(iv, k), 0x9f44486fb1e4fbd2, 0xb31b8c2b06085f2f, 0x3ec2257adca09a52, 0x0b8472581deea04f)
         == 0x5d63bae58ddd88de
    ensures Next(Variant64(iv, k), 0xb31b8c2b06085f2f, 0x0e987660934142f6, 0x28246960001fc5eb, 0xb174e26eddc7b033)
         == 0x4c044007b744ccbb
    ensures Next(Variant64(iv, k), 0x0e987660934142f6, 0xa4af2cfd09fbb924, 0x04e33a75ce2be88a, 0x5d63bae58ddd88de)
         == 0xe6a9aa4d74dc7d43
  {
  }

  lemma Sums64At48(iv: seq<bv64>, k: seq<bv64>)
    ensures Next(Variant64(iv, k), 0xa4af2cfd09fbb924, 0xad289e2e0bd53186, 0x7d5314b3c359e0e7, 0x4c044007b744ccbb)
         == 0xebeaf1237248019c
    ensures Next(Variant64(iv, k), 0xad289e2e0bd53186, 0x3c74563aa2f9673e, 0xaef7a285ff251266, 0xe6a9aa4d74dc7d43)
         == 0x361e80b2d00f3193
    ensures Next(Variant64(iv, k), 0x3c74563aa2f9673e, 0x6ccdcd14cc14b53f, 0x0b8472581deea04f, 0xebeaf1237248019c)
         == 0x2e9839125df3b175
    ensures Next(Variant64(iv, k), 0x6ccdcd14cc14b53f, 0xc3f925b337f22bde, 0xb174e26eddc7b033, 0x361e80b2d00f3193)
         == 0x3319629293ad5363
    ensures Next(Variant64(iv, k), 0xc3f925b337f22bde, 0x5bcc77a75ad95b54, 0x5d63bae58ddd88de, 0x2e9839125df3b175)
         == 0x9cbc5d89ac1b89d5
    ensures Next(Variant64(iv, k), 0x5bcc77a75ad95b54, 0x3ec2257adca09a52, 0x4c044007b744ccbb, 0x3319629293ad5363)
         == 0x275e23ffeeca50b7
    ensures Next(Variant64(iv, k), 0x3ec2257adca09a52, 0x28246960001fc5eb, 0xe6a9aa4d74dc7d43, 0x9cbc5d89ac1b89d5)
         == 0x3b80d680bf69ef58
    ensures Next(Variant64(iv, k), 0x28246960001fc5eb, 0x04e33a75ce2be88a, 0xebeaf1237248019c, 0x275e23ffeeca50b7)
         == 0x0d0696933945a125
  {
  }

  lemma Sums64At56(iv: seq<bv64>, k: seq<bv64>)
    ensures Next(Variant64(iv, k), 0x04e33a75ce2be88a, 0x7d5314b3c359e0e7, 0x361e80b2d00f3193, 0x3b80d680bf69ef58)
         == 0x7533eabcb786ff00
    ensures Next(Variant64(iv, k), 0x7d5314b3c359e0e7, 0xaef7a285ff251266, 0x2e9839125df3b175, 0x0d0696933945a125)
         == 0xb89826cee6fbf0e5
    ensures Next(Variant64(iv, k), 0xaef7a285ff251266, 0x0b8472581deea04f, 0x3319629293ad5363, 0x7533eabcb786ff00)
         == 0x249b4fbcad623e9f
    ensures Next(Variant64(iv, k), 0x0b8472581deea04f, 0xb174e26eddc7b033, 0x9cbc5d89ac1b89d5, 0xb89826cee6fbf0e5)
         == 0x4aea9df2b02d6f1e
    ensures Next(Variant64(iv, k), 0xb174e26eddc7b033, 0x5d63bae58ddd88de, 0x275e23ffeeca50b7, 0x249b4fbcad623e9f)
         == 0x2cc57475a55e8d8f
    ensures Next(Variant64(iv, k), 0x5d63bae58ddd88de, 0x4c044007b744ccbb, 0x3b80d680bf69ef58, 0x4aea9df2b02d6f1e)
         == 0xb2574ae938d8be89
    ensures Next(Variant64(iv, k), 0x4c044007b744ccbb, 0xe6a9aa4d74dc7d43, 0x0d0696933945a125, 0x2cc57475a55e8d8f)
         == 0xc1b35a57b16d6aea
    ensures Next(Variant64(iv, k), 0xe6a9aa4d74dc7d43, 0xebeaf1237248019c, 0x7533eabcb786ff00, 0xb2574ae938d8be89)
         == 0xcc4918b5949206bb
  {
  }

  lemma Sums64At64(iv: seq<bv64>, k: seq<bv64>)
    ensures Next(Variant64(iv, k), 0xebeaf1237248019c, 0x361e80b2d00f3193, 0xb89826cee6fbf0e5, 0xc1b35a57b16d6aea)
         == 0x5099c3add79f90ec
    ensures Next(Variant64(iv, k), 0x361e80b2d00f3193, 0x2e9839125df3b175, 0x249b4fbcad623e9f, 0xcc4918b5949206bb)
         == 0x5ea81d78e7660bf1
    ensures Next(Variant64(iv, k), 0x2e9839125df3b175, 0x3319629293ad5363, 0x4aea9df2b02d6f1e, 0x5099c3add79f90ec)
         == 0xebee6267405ac2a9
    ensures Next(Variant64(iv, k), 0x3319629293ad5363, 0x9cbc5d89ac1b89d5, 0x2cc57475a55e8d8f, 0x5ea81d78e7660bf1)
         == 0xb01f21926108a4ab
    ensures Next(Variant64(iv, k), 0x9cbc5d89ac1b89d5, 0x275e23ffeeca50b7, 0xb2574ae938d8be89, 0xebee6267405ac2a9)
         == 0x786433dd2fe65556
    ensures Next(Variant64(iv, k), 0x275e23ffeeca50b7, 0x3b80d680bf69ef58, 0xc1b35a57b16d6aea, 0xb01f21926108a4ab)
         == 0xc54a6eaa24a0552c
    ensures Next(Variant64(iv, k), 0x3b80d680bf69ef58, 0x0d0696933945a125, 0xcc4918b5949206bb, 0x786433dd2fe65556)
         == 0xb3c8f1530bdbaa9e
    ensures Next(Variant64(iv, k), 0x0d0696933945a125, 0x7533eabcb786ff00, 0x5099c3add79f90ec, 0xc54a6eaa24a0552c)
         == 0xbb8abfe56f469338
  {
  }

  lemma Sums64At72(iv: seq<bv64>, k: seq<bv64>)
    ensures Next(Variant64(iv, k), 0x7533eabcb786ff00, 0xb89826cee6fbf0e5, 0x5ea81d78e7660bf1, 0xb3c8f1530bdbaa9e)
         == 0xf63d4265cc1c5a78
    ensures Next(Variant64(iv, k), 0xb89826cee6fbf0e5, 0x249b4fbcad623e9f, 0xebee6267405ac2a9, 0xbb8abfe56f469338)
         == 0xbe8355ea73129afb
    ensures Next(Variant64(iv, k), 0x249b4fbcad623e9f, 0x4aea9df2b02d6f1e, 0xb01f21926108a4ab, 0xf63d4265cc1c5a78)
         == 0x49e2db8ebdcfbeb5
    ensures Next(Variant64(iv, k), 0x4aea9df2b02d6f1e, 0x2cc57475a55e8d8f, 0x786433dd2fe65556, 0xbe8355ea73129afb)
         == 0x82269d4a883a3d99
    ensures Next(Variant64(iv, k), 0x2cc57475a55e8d8f, 0xb2574ae938d8be89, 0xc54a6eaa24a0552c, 0x49e2db8ebdcfbeb5)
         == 0xfdf53df3011f362b
    ensures Next(Variant64(iv, k), 0xb2574ae938d8be89, 0xc1b35a57b16d6aea, 0xb3c8f1530bdbaa9e, 0x82269d4a883a3d99)
         == 0x464af5671d71c12e
    ensures Next(Variant64(iv, k), 0xc1b35a57b16d6aea, 0xcc4918b5949206bb, 0xbb8abfe56f469338, 0xfdf53df3011f362b)
         == 0xe449b68198ec611c
    ensures Next(Variant64(iv, k), 0xcc4918b5949206bb, 0x5099c3add79f90ec, 0xf63d4265cc1c5a78, 0x464af5671d71c12e)
         == 0x92aeeed1a7bcf7d2
  {
  }

  const S64_0: Working<bv64> :=
    Working(0x22312194fc2bf72c, 0x9f555fa3c84c64c2, 0x2393b86b6f53b151, 0x963877195940eabd,
              0x96283ee2a88effe3, 0xbe5e1e2553863992, 0x2b0199fc2c85b8aa, 0x0eb72ddc81c52ca2)
  const S64_1: Working<bv64> :=
    Working(0x9a2f6d11c39458fe, 0x22312194fc2bf72c, 0x9f555fa3c84c64c2, 0x2393b86b6f53b151,
              0x3908d19fbcaf1b12, 0x96283ee2a88effe3, 0xbe5e1e2553863992, 0x2b0199fc2c85b8aa)
  const S64_2: Working<bv64> :=
    Working(0x9c465a16f85ebd68, 0x9a2f6d11c39458fe, 0x22312194fc2bf72c, 0x9f555fa3c84c64c2,
              0xbb7cf388a65ca549, 0x3908d19fbcaf1b12, 0x96283ee2a88effe3, 0xbe5e1e2553863992)
  const S64_3: Working<bv64> :=
    Working(0xd983d31c6cea97c9, 0x9c465a16f85ebd68, 0x9a2f6d11c39458fe, 0x22312194fc2bf72c,
              0xc8a505020acb43c1, 0xbb7cf388a65ca549, 0x3908d19fbcaf1b12, 0x96283ee2a88effe3)
  const S64_4: Working<bv64> :=
    Working(0x1d4e8897fcff509e, 0xd983d31c6cea97c9, 0x9c465a16f85ebd68, 0x9a2f6d11c39458fe,
              0xba2e42d7925de73b, 0xc8a505020acb43c1, 0xbb7cf388a65ca549, 0x3908d19fbcaf1b12)
  const S64_5: Working<bv64> :=
    Working(0x47376b4548f81a5f, 0x1d4e8897fcff509e, 0xd983d31c6cea97c9, 0x9c465a16f85ebd68,
              0x24ecdad8a00c274a, 0xba2e42d7925de73b, 0xc8a505020acb43c1, 0xbb7cf388a65ca549)
  const S64_6: Working<bv64> :=
    Working(0xaa7b88556927ce7d, 0x47376b4548f81a5f, 0x1d4e8897fcff509e, 0xd983d31c6cea97c9,
              0x928bc3ffd85778b3, 0x24ecdad8a00c274a, 0xba2e42d7925de73b, 0xc8a505020acb43c1)
  const S64_7: Working<bv64> :=
    Working(0xb906b3df822cf7c1, 0xaa7b88556927ce7d, 0x47376b4548f81a5f, 0x1d4e8897fcff509e,
              0x2023a2cd4fa5a4d8, 0x928bc3ffd85778b3, 0x24ecdad8a00c274a, 0xba2e42d7925de73b)
  const S64_8: Working<bv64> :=
    Working(0x2f839a3929f48358, 0xb906b3df822cf7c1, 0xaa7b88556927ce7d, 0x47376b4548f81a5f,
              0x245a5f77616e5931, 0x2023a2cd4fa5a4d8, 0x928bc3ffd85778b3, 0x24ecdad8a00c274a)
  const S64_9: Working<bv64> :=
    Working(0x4b1b0e41fb81c46c, 0x2f839a3929f48358, 0xb906b3df822cf7c1, 0xaa7b88556927ce7d,
              0x3fe7e2d7d7ced54a, 0x245a5f77616e5931, 0x2023a2cd4fa5a4d8, 0x928bc3ffd85778b3)
  const S64_10: Working<bv64> :=
    Working(0xc4f1c71e65b18c15, 0x4b1b0e41fb81c46c, 0x2f839a3929f48358, 0xb906b3df822cf7c1,
              0xff5e80c2a75481b7, 0x3fe7e2d7d7ced54a, 0x245a5f77616e5931, 0x2023a2cd4fa5a4d8)
  const S64_11: Working<bv64> :=
    Working(0x19d100cb5e1a3438, 0xc4f1c71e65b18c15, 0x4b1b0e41fb81c46c, 0x2f839a3929f48358,
              0x8484655060ebc3ee, 0xff5e80c2a75481b7, 0x3fe7e2d7d7ced54a, 0x245a5f77616e5931)
  const S64_12: Working<bv64> :=
    Working(0x7aab2807d4f3f022, 0x19d100cb5e1a3438, 0xc4f1c71e65b18c15, 0x4b1b0e41fb81c46c,
              0xbfc3c10d93ff00b8, 0x8484655060ebc3ee, 0xff5e80c2a75481b7, 0x3fe7e2d7d7ced54a)
  const S64_13: Working<bv64> :=
    Working(0xc9e2cb6d5d017ba7, 0x7aab2807d4f3f022, 0x19d100cb5e1a3438, 0xc4f1c71e65b18c15,
              0x0662bfd092e26fb7, 0xbfc3c10d93ff00b8, 0x8484655060ebc3ee, 0xff5e80c2a75481b7)
  const S64_14: Working<bv64> :=
    Working(0x8c4d8b98e0672988, 0xc9e2cb6d5d017ba7, 0x7aab2807d4f3f022, 0x19d100cb5e1a3438,
              0x996e6405c63d83e3, 0x0662bfd092e26fb7, 0xbfc3c10d93ff00b8, 0x8484655060ebc3ee)
  const S64_15: Working<bv64> :=
    Working(0x8d70d5ebdea6724a, 0x8c4d8b98e0672988, 0xc9e2cb6d5d017ba7, 0x7aab2807d4f3f022,
              0xceaaaeef7189ec61, 0x996e6405c63d83e3, 0x0662bfd092e26fb7, 0xbfc3c10d93ff00b8)
  const S64_16: Working<bv64> :=
    Working(0x1ec6365704280063, 0x8d70d5ebdea6724a, 0x8c4d8b98e0672988, 0xc9e2cb6d5d017ba7,
              0x419c9d961ba8ea8f, 0xceaaaeef7189ec61, 0x996e6405c63d83e3, 0x0662bfd092e26fb7)
  const S64_17: Working<bv64> :=
    Working(0x3aa569ffd0244ec4, 0x1ec6365704280063, 0x8d70d5ebdea6724a, 0x8c4d8b98e0672988,
              0x4ac147677b104598, 0x419c9d961ba8ea8f, 0xceaaaeef7189ec61, 0x996e6405c63d83e3)
  const S64_18: Working<bv64> :=
    Working(0x2b6738209b26b728, 0x3aa569ffd0244ec4, 0x1ec6365704280063, 0x8d70d5ebdea6724a,
              0x8ee2964a7adf0f1d, 0x4ac147677b104598, 0x419c9d961ba8ea8f, 0xceaaaeef7189ec61)
  const S64_19: Working<bv64> :=
    Working(0x1fe6f882b4543504, 0x2b6738209b26b728, 0x3aa569ffd0244ec4, 0x1ec6365704280063,
              0x9cdc03d015da1e7d, 0x8ee2964a7adf0f1d, 0x4ac147677b104598, 0x419c9d961ba8ea8f)
  const S64_20: Working<bv64> :=
    Working(0x73f4f92021784bb1, 0x1fe6f882b4543504, 0x2b6738209b26b728, 0x3aa569ffd0244ec4,
              0x6994c169a3d21916, 0x9cdc03d015da1e7d, 0x8ee2964a7adf0f1d, 0x4ac147677b104598)
  const S64_21: Working<bv64> :=
    Working(0x4e8ca806d9319a74, 0x73f4f92021784bb1, 0x1fe6f882b4543504, 0x2b6738209b26b728,
              0xedb2c079f68c6c60, 0x6994c169a3d21916, 0x9cdc03d015da1e7d, 0x8ee2964a7adf0f1d)
  const S64_22: Working<bv64> :=
    Working(0x73214592d44c971f, 0x4e8ca806d9319a74, 0x73f4f92021784bb1, 0x1fe6f882b4543504,
              0x15bbe2c3aa0e7fd7, 0xedb2c079f68c6c60, 0x6994c169a3d21916, 0x9cdc03d015da1e7d)
  const S64_23: Working<bv64> :=
    Working(0xc56eba713aeea98f, 0x73214592d44c971f, 0x4e8ca806d9319a74, 0x73f4f92021784bb1,
              0x9d3dfcd24d8ff89c, 0x15bbe2c3aa0e7fd7, 0xedb2c079f68c6c60, 0x6994c169a3d21916)
  const S64_24: Working<bv64> :=
    Working(0x77f4bc54ffd4166b, 0xc56eba713aeea98f, 0x73214592d44c971f, 0x4e8ca806d9319a74,
              0xa2981d9590a4f202, 0x9d3dfcd24d8ff89c, 0x15bbe2c3aa0e7fd7, 0xedb2c079f68c6c60)
  const S64_25: Working<bv64> :=
    Working(0xb380e5f84d5dd65c, 0x77f4bc54ffd4166b, 0xc56eba713aeea98f, 0x73214592d44c971f,
              0x1f5d06acb369d69f, 0xa2981d9590a4f202, 0x9d3dfcd24d8ff89c, 0x15bbe2c3aa0e7fd7)
  const S64_26: Working<bv64> :=
    Working(0xd8f368221281f96a, 0xb380e5f84d5dd65c, 0x77f4bc54ffd4166b, 0xc56eba713aeea98f,
              0x1e1f4553b9689309, 0x1f5d06acb369d69f, 0xa2981d9590a4f202, 0x9d3dfcd24d8ff89c)
  const S64_27: Working<bv64> :=
    Working(0x73ce37ed59fc4595, 0xd8f368221281f96a, 0xb380e5f84d5dd65c, 0x77f4bc54ffd4166b,
              0x5cb11ae8485959c1, 0x1e1f4553b9689309, 0x1f5d06acb369d69f, 0xa2981d9590a4f202)
  const S64_28: Working<bv64> :=
    Working(0x2b79283e450b25d2, 0x73ce37ed59fc4595, 0xd8f368221281f96a, 0xb380e5f84d5dd65c,
              0x9ca2cdf1a009f7a0, 0x5cb11ae8485959c1, 0x1e1f4553b9689309, 0x1f5d06acb369d69f)
  const S64_29: Working<bv64> :=
    Working(0x7c8479834a5d5e1c, 0x2b79283e450b25d2, 0x73ce37ed59fc4595, 0xd8f368221281f96a,
              0xf68fb52fad1792eb, 0x9ca2cdf1a009f7a0, 0x5cb11ae8485959c1, 0x1e1f4553b9689309)
  const S64_30: Working<bv64> :=
    Working(0x5623a1ed63acfe9c, 0x7c8479834a5d5e1c, 0x2b79283e450b25d2, 0x73ce37ed59fc4595,
              0x4174c3633d3223cb, 0xf68fb52fad1792eb, 0x9ca2cdf1a009f7a0, 0x5cb11ae8485959c1)
  const S64_31: Working<bv64> :=
    Working(0xe0639e0746a1c4b9, 0x5623a1ed63acfe9c, 0x7c8479834a5d5e1c, 0x2b79283e450b25d2,
              0x1d2d1ca60e71d9c4, 0x4174c3633d3223cb, 0xf68fb52fad1792eb, 0x9ca2cdf1a009f7a0)
  const S64_32: Working<bv64> :=
    Working(0x0ece8cb912de792b, 0xe0639e0746a1c4b9, 0x5623a1ed63acfe9c, 0x7c8479834a5d5e1c,
              0x10ea82370759ff98, 0x1d2d1ca60e71d9c4, 0x4174c3633d3223cb, 0xf68fb52fad1792eb)
  const S64_33: Working<bv64> :=
    Working(0x1011563d5ca6f21d, 0x0ece8cb912de792b, 0xe0639e0746a1c4b9, 0x5623a1ed63acfe9c,
              0x2abc930aeb105dda, 0x10ea82370759ff98, 0x1d2d1ca60e71d9c4, 0x4174c3633d3223cb)
  const S64_34: Working<bv64> :=
    Working(0x001128d308744a0e, 0x1011563d5ca6f21d, 0x0ece8cb912de792b, 0xe0639e0746a1c4b9,
              0x6df15bd09649437b, 0x2abc930aeb105dda, 0x10ea82370759ff98, 0x1d2d1ca60e71d9c4)
  const S64_35: Working<bv64> :=
    Working(0x785b23cdc94e4d47, 0x001128d308744a0e, 0x1011563d5ca6f21d, 0x0ece8cb912de792b,
              0x75645a2459e2b29c, 0x6df15bd09649437b, 0x2abc930aeb105dda, 0x10ea82370759ff98)
  const S64_36: Working<bv64> :=
    Working(0x431a6f9571320866, 0x785b23cdc94e4d47, 0x001128d308744a0e, 0x1011563d5ca6f21d,
              0xc4b1fdb46655f51a, 0x75645a2459e2b29c, 0x6df15bd09649437b, 0x2abc930aeb105dda)
  const S64_37: Working<bv64> :=
    Working(0xd9e89bcb3b3616fe, 0x431a6f9571320866, 0x785b23cdc94e4d47, 0x001128d308744a0e,
              0x445065c5e0806a68, 0xc4b1fdb46655f51a, 0x75645a2459e2b29c, 0x6df15bd09649437b)
  const S64_38: Working<bv64> :=
    Working(0x4c5c5085afb86c02, 0xd9e89bcb3b3616fe, 0x431a6f9571320866, 0x785b23cdc94e4d47,
              0x0738c70b69b65e34, 0x445065c5e0806a68, 0xc4b1fdb46655f51a, 0x75645a2459e2b29c)
  const S64_39: Working<bv64> :=
    Working(0x49f49406aa9c7915, 0x4c5c5085afb86c02, 0xd9e89bcb3b3616fe, 0x431a6f9571320866,
              0xddbfb052e66e151c, 0x0738c70b69b65e34, 0x445065c5e0806a68, 0xc4b1fdb46655f51a)
  const S64_40: Working<bv64> :=
    Working(0xd53b182812347708, 0x49f49406aa9c7915, 0x4c5c5085afb86c02, 0xd9e89bcb3b3616fe,
              0xc0233f51f0027715, 0xddbfb052e66e151c, 0x0738c70b69b65e34, 0x445065c5e0806a68)
  const S64_41: Working<bv64> :=
    Working(0x6204009dbfd8d0db, 0xd53b182812347708, 0x49f49406aa9c7915, 0x4c5c5085afb86c02,
              0x768286c2d8fd381e, 0xc0233f51f0027715, 0xddbfb052e66e151c, 0x0738c70b69b65e34)
  const S64_42: Working<bv64> :=
    Working(0xaf3049c09d76abce, 0x6204009dbfd8d0db, 0xd53b182812347708, 0x49f49406aa9c7915,
              0x11540218448da4ba, 0x768286c2d8fd381e, 0xc0233f51f0027715, 0xddbfb052e66e151c)
  const S64_43: Working<bv64> :=
    Working(0x6f48a93a6216bdfa, 0xaf3049c09d76abce, 0x6204009dbfd8d0db, 0xd53b182812347708,
              0x60ff3969a7a7545b, 0x11540218448da4ba, 0x768286c2d8fd381e, 0xc0233f51f0027715)
  const S64_44: Working<bv64> :=
    Working(0x163b797cd24c6d2e, 0x6f48a93a6216bdfa, 0xaf3049c09d76abce, 0x6204009dbfd8d0db,
              0xaf4c2a6889a401a2, 0x60ff3969a7a7545b, 0x11540218448da4ba, 0x768286c2d8fd381e)
  const S64_45: Working<bv64> :=
    Working(0x75b6f991523d6ebd, 0x163b797cd24c6d2e, 0x6f48a93a6216bdfa, 0xaf3049c09d76abce,
              0xbe913f4585aa524a, 0xaf4c2a6889a401a2, 0x60ff3969a7a7545b, 0x11540218448da4ba)
  const S64_46: Working<bv64> :=
    Working(0x807232323213d257, 0x75b6f991523d6ebd, 0x163b797cd24c6d2e, 0x6f48a93a6216bdfa,
              0x6269b8150084c5e5, 0xbe913f4585aa524a, 0xaf4c2a6889a401a2, 0x60ff3969a7a7545b)
  const S64_47: Working<bv64> :=
    Working(0x5a93ec3c573ab27a, 0x807232323213d257, 0x75b6f991523d6ebd, 0x163b797cd24c6d2e,
              0xebcc25fd1ef4b66a, 0x6269b8150084c5e5, 0xbe913f4585aa524a, 0xaf4c2a6889a401a2)
  const S64_48: Working<bv64> :=
    Working(0x96f715647c35010b, 0x5a93ec3c573ab27a, 0x807232323213d257, 0x75b6f991523d6ebd,
              0x3db3985131165ca8, 0xebcc25fd1ef4b66a, 0x6269b8150084c5e5, 0xbe913f4585aa524a)
  const S64_49: Working<bv64> :=
    Working(0xa493f38fa8bd1b7a, 0x96f715647c35010b, 0x5a93ec3c573ab27a, 0x807232323213d257,
              0x72b27df2e6e57aa8, 0x3db3985131165ca8, 0xebcc25fd1ef4b66a, 0x6269b8150084c5e5)
  const S64_50: Working<bv64> :=
    Working(0xd379e2742808f23f, 0xa493f38fa8bd1b7a, 0x96f715647c35010b, 0x5a93ec3c573ab27a,
              0x3ea89437c88ccd1e, 0x72b27df2e6e57aa8, 0x3db3985131165ca8, 0xebcc25fd1ef4b66a)
  const S64_51: Working<bv64> :=
    Working(0x8c0c28392dfeefd0, 0xd379e2742808f23f, 0xa493f38fa8bd1b7a, 0x96f715647c35010b,
              0xeccf127aa015e2f4, 0x3ea89437c88ccd1e, 0x72b27df2e6e57aa8, 0x3db3985131165ca8)
  const S64_52: Working<bv64> :=
    Working(0x1d5955abcfdcadf0, 0x8c0c28392dfeefd0, 0xd379e2742808f23f, 0xa493f38fa8bd1b7a,
              0x496bcdafe07b21b5, 0xeccf127aa015e2f4, 0x3ea89437c88ccd1e, 0x72b27df2e6e57aa8)
  const S64_53: Working<bv64> :=
    Working(0x5799f02f81a7c51f, 0x1d5955abcfdcadf0, 0x8c0c28392dfeefd0, 0xd379e2742808f23f,
              0x0532365fc98e332c, 0x496bcdafe07b21b5, 0xeccf127aa015e2f4, 0x3ea89437c88ccd1e)
  const S64_54: Working<bv64> :=
    Working(0xd09e98b45e7412b7, 0x5799f02f81a7c51f, 0x1d5955abcfdcadf0, 0x8c0c28392dfeefd0,
              0xe1e81bc465a7ca13, 0x0532365fc98e332c, 0x496bcdafe07b21b5, 0xeccf127aa015e2f4)
  const S64_55: Working<bv64> :=
    Working(0xb404ce9f5b35eb6e, 0xd09e98b45e7412b7, 0x5799f02f81a7c51f, 0x1d5955abcfdcadf0,
              0x52165e3326d1452e, 0xe1e81bc465a7ca13, 0x0532365fc98e332c, 0x496bcdafe07b21b5)
  const S64_56: Working<bv64> :=
    Working(0x8fe543a7e1c7de6b, 0xb404ce9f5b35eb6e, 0xd09e98b45e7412b7, 0x5799f02f81a7c51f,
              0x7d7c18ae2648f54d, 0x52165e3326d1452e, 0xe1e81bc465a7ca13, 0x0532365fc98e332c)
  const S64_57: Working<bv64> :=
    Working(0xbf53b7992f425d82, 0x8fe543a7e1c7de6b, 0xb404ce9f5b35eb6e, 0xd09e98b45e7412b7,
              0xd6993e728ac1a822, 0x7d7c18ae2648f54d, 0x52165e3326d1452e, 0xe1e81bc465a7ca13)
  const S64_58: Working<bv64> :=
    Working(0xa7fc20cc2822a712, 0xbf53b7992f425d82, 0x8fe543a7e1c7de6b, 0xb404ce9f5b35eb6e,
              0x2ba925f0bbbda744, 0xd6993e728ac1a822, 0x7d7c18ae2648f54d, 0x52165e3326d1452e)
  const S64_59: Working<bv64> :=
    Working(0x1f5b9e4e9e470f85, 0xa7fc20cc2822a712, 0xbf53b7992f425d82, 0x8fe543a7e1c7de6b,
              0x12f8abbfdcc71f41, 0x2ba925f0bbbda744, 0xd6993e728ac1a822, 0x7d7c18ae2648f54d)
  const S64_60: Working<bv64> :=
    Working(0x1f4ac7e8968e01f9, 0x1f5b9e4e9e470f85, 0xa7fc20cc2822a712, 0xbf53b7992f425d82,
              0x10f69f1491c21c9c, 0x12f8abbfdcc71f41, 0x2ba925f0bbbda744, 0xd6993e728ac1a822)
  const S64_61: Working<bv64> :=
    Working(0x0b00107983688ddd, 0x1f4ac7e8968e01f9, 0x1f5b9e4e9e470f85, 0xa7fc20cc2822a712,
              0x0e8abd59d36488d2, 0x10f69f1491c21c9c, 0x12f8abbfdcc71f41, 0x2ba925f0bbbda744)
  const S64_62: Working<bv64> :=
    Working(0x05774f6d8337d0df, 0x0b00107983688ddd, 0x1f4ac7e8968e01f9, 0x1f5b9e4e9e470f85,
              0xe8d4aa14cc35666e, 0x0e8abd59d36488d2, 0x10f69f1491c21c9c, 0x12f8abbfdcc71f41)
  const S64_63: Working<bv64> :=
    Working(0x0e8748c473d5d319, 0x05774f6d8337d0df, 0x0b00107983688ddd, 0x1f4ac7e8968e01f9,
              0x95ea094366ca9524, 0xe8d4aa14cc35666e, 0x0e8abd59d36488d2, 0x10f69f1491c21c9c)
  const S64_64: Working<bv64> :=
    Working(0x37313bcc31405dd8, 0x0e8748c473d5d319, 0x05774f6d8337d0df, 0x0b00107983688ddd,
              0x9e24cc56aa903d0d, 0x95ea094366ca9524, 0xe8d4aa14cc35666e, 0x0e8abd59d36488d2)
  const S64_65: Working<bv64> :=
    Working(0x75cad73882574762, 0x37313bcc31405dd8, 0x0e8748c473d5d319, 0x05774f6d8337d0df,
              0xf95c519703b8731f, 0x9e24cc56aa903d0d, 0x95ea094366ca9524, 0xe8d4aa14cc35666e)
  const S64_66: Working<bv64> :=
    Working(0x7d4bf508527df4fa, 0x75cad73882574762, 0x37313bcc31405dd8, 0x0e8748c473d5d319,
              0xd65adf389d2c1a99, 0xf95c519703b8731f, 0x9e24cc56aa903d0d, 0x95ea094366ca9524)
  const S64_67: Working<bv64> :=
    Working(0xceefb640f1f288c3, 0x7d4bf508527df4fa, 0x75cad73882574762, 0x37313bcc31405dd8,
              0x44463e8c945bcbb5, 0xd65adf389d2c1a99, 0xf95c519703b8731f, 0x9e24cc56aa903d0d)
  const S64_68: Working<bv64> :=
    Working(0xfc11cc97ae386106, 0xceefb640f1f288c3, 0x7d4bf508527df4fa, 0x75cad73882574762,
              0x12bf463d7223a309, 0x44463e8c945bcbb5, 0xd65adf389d2c1a99, 0xf95c519703b8731f)
  const S64_69: Working<bv64> :=
    Working(0xdaf7189bf71319ed, 0xfc11cc97ae386106, 0xceefb640f1f288c3, 0x7d4bf508527df4fa,
              0x2d2182e71310e6c7, 0x12bf463d7223a309, 0x44463e8c945bcbb5, 0xd65adf389d2c1a99)
  const S64_70: Working<bv64> :=
    Working(0x51a81cbbfd3f7751, 0xdaf7189bf71319ed, 0xfc11cc97ae386106, 0xceefb640f1f288c3,
              0x34e0f69b5611c0dc, 0x2d2182e71310e6c7, 0x12bf463d7223a309, 0x44463e8c945bcbb5)
  const S64_71: Working<bv64> :=
    Working(0xa26f13b306b9736b, 0x51a81cbbfd3f7751, 0xdaf7189bf71319ed, 0xfc11cc97ae386106,
              0x3d6ad7280d27ee41, 0x34e0f69b5611c0dc, 0x2d2182e71310e6c7, 0x12bf463d7223a309)
  const S64_72: Working<bv64> :=
    Working(0x93d2426fe4f65643, 0xa26f13b306b9736b, 0x51a81cbbfd3f7751, 0xdaf7189bf71319ed,
              0xf0c0ddc582c521e5, 0x3d6ad7280d27ee41, 0x34e0f69b5611c0dc, 0x2d2182e71310e6c7)
  const S64_73: Working<bv64> :=
    Working(0xab4641c14c9d350b, 0x93d2426fe4f65643, 0xa26f13b306b9736b, 0x51a81cbbfd3f7751,
              0x88c22a9bfff9c4d4, 0xf0c0ddc582c521e5, 0x3d6ad7280d27ee41, 0x34e0f69b5611c0dc)
  const S64_74: Working<bv64> :=
    Working(0xc7643ef265e0846d, 0xab4641c14c9d350b, 0x93d2426fe4f65643, 0xa26f13b306b9736b,
              0x5d58f038d47f838c, 0x88c22a9bfff9c4d4, 0xf0c0ddc582c521e5, 0x3d6ad7280d27ee41)
  const S64_75: Working<bv64> :=
    Working(0x0666e64633871262, 0xc7643ef265e0846d, 0xab4641c14c9d350b, 0x93d2426fe4f65643,
              0x01d41045f938489b, 0x5d58f038d47f838c, 0x88c22a9bfff9c4d4, 0xf0c0ddc582c521e5)
  const S64_76: Working<bv64> :=
    Working(0x126bcbcf100f86e6, 0x0666e64633871262, 0xc7643ef265e0846d, 0xab4641c14c9d350b,
              0xe5dfbae06b85b880, 0x01d41045f938489b, 0x5d58f038d47f838c, 0x88c22a9bfff9c4d4)
  const S64_77: Working<bv64> :=
    Working(0x4aaa7a17aea6c466, 0x126bcbcf100f86e6, 0x0666e64633871262, 0xc7643ef265e0846d,
              0x94ae3c3d5bb9d976, 0xe5dfbae06b85b880, 0x01d41045f938489b, 0x5d58f038d47f838c)
  const S64_78: Working<bv64> :=
    Working(0xc12f185ac5a8bbf5, 0x4aaa7a17aea6c466, 0x126bcbcf100f86e6, 0x0666e64633871262,
              0x578fb21004694ef1, 0x94ae3c3d5bb9d976, 0xe5dfbae06b85b880, 0x01d41045f938489b)
  const S64_79: Working<bv64> :=
    Working(0xfbd8ca13a30018e9, 0xc12f185ac5a8bbf5, 0x4aaa7a17aea6c466, 0x126bcbcf100f86e6,
              0x61a99523c8a086db, 0x578fb21004694ef1, 0x94ae3c3d5bb9d976, 0xe5dfbae06b85b880)
  const S64_80: Working<bv64> :=
    Working(0x30d36c91856827cd, 0xfbd8ca13a30018e9, 0xc12f185ac5a8bbf5, 0x4aaa7a17aea6c466,
              0x780d55b8dd49f3a4, 0x61a99523c8a086db, 0x578fb21004694ef1, 0x94ae3c3d5bb9d976)

  lemma Turns64At0(iv: seq<bv64>, k: seq<bv64>)
    ensures Round(Variant64(iv, k), S64_0, 0x428a2f98d728ae22, 0x6162638000000000) == S64_1
    ensures Round(Variant64(iv, k), S64_1, 0x7137449123ef65cd, 0x0000000000000000) == S64_2
    ensures Round(Variant64(iv, k), S64_2, 0xb5c0fbcfec4d3b2f, 0x0000000000000000) == S64_3
    ensures Round(Variant64(iv, k), S64_3, 0xe9b5dba58189dbbc, 0x0000000000000000) == S64_4
  {
  }

  lemma Turns64At4(iv: seq<bv64>, k: seq<bv64>)
    ensures Round(Variant64(iv, k), S64_4, 0x3956c25bf348b538, 0x0000000000000000) == S64_5
    ensures Round(Variant64(iv, k), S64_5, 0x59f111f1b605d019, 0x0000000000000000) == S64_6
    ensures Round(Variant64(iv, k), S64_6, 0x923f82a4af194f9b, 0x0000000000000000) == S64_7
    ensures Round(Variant64(iv, k), S64_7, 0xab1c5ed5da6d8118, 0x0000000000000000) == S64_8
  {
  }

  lemma Turns64At8(iv: seq<bv64>, k: seq<bv64>)
    ensures Round(Variant64(iv, k), S64_8, 0xd807aa98a3030242, 0x0000000000000000) == S64_9
    ensures Round(Variant64(iv, k), S64_9, 0x12835b0145706fbe, 0x0000000000000000) == S64_10
    ensures Round(Variant64(iv, k), S64_10, 0x243185be4ee4b28c, 0x0000000000000000) == S64_11
    ensures Round(Variant64(iv, k), S64_11, 0x550c7dc3d5ffb4e2, 0x0000000000000000) == S64_12
  {
  }

  lemma Turns64At12(iv: seq<bv64>, k: seq<bv64>)
    ensures Round(Variant64(iv, k), S64_12, 0x72be5d74f27b896f, 0x0000000000000000) == S64_13
    ensures Round(Variant64(iv, k), S64_13, 0x80deb1fe3b1696b1, 0x0000000000000000) == S64_14
    ensures Round(Variant64(iv, k), S64_14, 0x9bdc06a725c71235, 0x0000000000000000) == S64_15
    ensures Round(Variant64(iv, k), S64_15, 0xc19bf174cf692694, 0x0000000000000018) == S64_16
  {
  }

  lemma Turns64At16(iv: seq<bv64>, k: seq<bv64>)
    ensures Round(Variant64(iv, k), S64_16, 0xe49b69c19ef14ad2, 0x6162638000000000) == S64_17
    ensures Round(Variant64(iv, k), S64_17, 0xefbe4786384f25e3, 0x00030000000000c0) == S64_18
    ensures Round(Variant64(iv, k), S64_18, 0x0fc19dc68b8cd5b5, 0x0a9699a24c700003) == S64_19
    ensures Round(Variant64(iv, k), S64_19, 0x240ca1cc77ac9c65, 0x00000c0060000603) == S64_20
  {
  }

  lemma Turns64At20(iv: seq<bv64>, k: seq<bv64>)
    ensures Round(Variant64(iv, k), S64_20, 0x2de92c6f592b0275, 0x549ef62639858996) == S64_21
    ensures Round(Variant64(iv, k), S64_21, 0x4a7484aa6ea6e483, 0x00c0003300003c00) == S64_22
    ensures Round(Variant64(iv, k), S64_22, 0x5cb0a9dcbd41fbd4, 0x1497007a8a0e9dbc) == S64_23
    ensures Round(Variant64(iv, k), S64_23, 0x76f988da831153b5, 0x62e56500cc0780f0) == S64_24
  {
  }

  lemma Turns64At24(iv: seq<bv64>, k: seq<bv64>)
    ensures Round(Variant64(iv, k), S64_24, 0x983e5152ee66dfab, 0x7760dd475a538797) == S64_25
    ensures Round(Variant64(iv, k), S64_25, 0xa831c66d2db43210, 0xf1554b711c1c0003) == S64_26
    ensures Round(Variant64(iv, k), S64_26, 0xb00327c898fb213f, 0xca2993a4345d9ff2) == S64_27
    ensures Round(Variant64(iv, k), S64_27, 0xbf597fc7beef0ee4, 0x5e0e66b5c783dd32) == S64_28
  {
  }

  lemma Turns64At28(iv: seq<bv64>, k: seq<bv64>)
    ensures Round(Variant64(iv, k), S64_28, 0xc6e00bf33da88fc2, 0xe25a625d00494b62) == S64_29
    ensures Round(Variant64(iv, k), S64_29, 0xd5a79147930aa725, 0x9f44486fb1e4fbd2) == S64_30
    ensures Round(Variant64(iv, k), S64_30, 0x06ca6351e003826f, 0xb31b8c2b06085f2f) == S64_31
    ensures Round(Variant64(iv, k), S64_31, 0x142929670a0e6e70, 0x0e987660934142f6) == S64_32
  {
  }

  lemma Turns64At32(iv: seq<bv64>, k: seq<bv64>)
    ensures Round(Variant64(iv, k), S64_32, 0x27b70a8546d22ffc, 0xa4af2cfd09fbb924) == S64_33
    ensures Round(Variant64(iv, k), S64_33, 0x2e1b21385c26c926, 0xad289e2e0bd53186) == S64_34
    ensures Round(Variant64(iv, k), S64_34, 0x4d2c6dfc5ac42aed, 0x3c74563aa2f9673e) == S64_35
    ensures Round(Variant64(iv, k), S64_35, 0x53380d139d95b3df, 0x6ccdcd14cc14b53f) == S64_36
  {
  }

  lemma Turns64At36(iv: seq<bv64>, k: seq<bv64>)
    ensures Round(Variant64(iv, k), S64_36, 0x650a73548baf63de, 0xc3f925b337f22bde) == S64_37
    ensures Round(Variant64(iv, k), S64_37, 0x766a0abb3c77b2a8, 0x5bcc77a75ad95b54) == S64_38
    ensures Round(Variant64(iv, k), S64_38, 0x81c2c92e47edaee6, 0x3ec2257adca09a52) == S64_39
    ensures Round(Variant64(iv, k), S64_39, 0x92722c851482353b, 0x28246960001fc5eb) == S64_40
  {
  }

  lemma Turns64At40(iv: seq<bv64>, k: seq<bv64>)
    ensures Round(Variant64(iv, k), S64_40, 0xa2bfe8a14cf10364, 0x04e33a75ce2be88a) == S64_41
    ensures Round(Variant64(iv, k), S64_41, 0xa81a664bbc423001, 0x7d5314b3c359e0e7) == S64_42
    ensures Round(Variant64(iv, k), S64_42, 0xc24b8b70d0f89791, 0xaef7a285ff251266) == S64_43
    ensures Round(Variant64(iv, k), S64_43, 0xc76c51a30654be30, 0x0b8472581deea04f) == S64_44
  {
  }

  lemma Turns64At44(iv: seq<bv64>, k: seq<bv64>)
    ensures Round(Variant64(iv, k), S64_44, 0xd192e819d6ef5218, 0xb174e26eddc7b033) == S64_45
    ensures Round(Variant64(iv, k), S64_45, 0xd69906245565a910, 0x5d63bae58ddd88de) == S64_46
    ensures Round(Variant64(iv, k), S64_46, 0xf40e35855771202a, 0x4c044007b744ccbb) == S64_47
    ensures Round(Variant64(iv, k), S64_47, 0x106aa07032bbd1b8, 0xe6a9aa4d74dc7d43) == S64_48
  {
  }

  lemma Turns64At48(iv: seq<bv64>, k: seq<bv64>)
    ensures Round(Variant64(iv, k), S64_48, 0x19a4c116b8d2d0c8, 0xebeaf1237248019c) == S64_49
    ensures Round(Variant64(iv, k), S64_49, 0x1e376c085141ab53, 0x361e80b2d00f3193) == S64_50
    ensures Round(Variant64(iv, k), S64_50, 0x2748774cdf8eeb99, 0x2e9839125df3b175) == S64_51
    ensures Round(Variant64(iv, k), S64_51, 0x34b0bcb5e19b48a8, 0x3319629293ad5363) == S64_52
  {
  }

  lemma Turns64At52(iv: seq<bv64>, k: seq<bv64>)
    ensures Round(Variant64(iv, k), S64_52, 0x391c0cb3c5c95a63, 0x9cbc5d89ac1b89d5) == S64_53
    ensures Round(Variant64(iv, k), S64_53, 0x4ed8aa4ae3418acb, 0x275e23ffeeca50b7) == S64_54
    ensures Round(Variant64(iv, k), S64_54, 0x5b9cca4f7763e373, 0x3b80d680bf69ef58) == S64_55
    ensures Round(Variant64(iv, k), S64_55, 0x682e6ff3d6b2b8a3, 0x0d0696933945a125) == S64_56
  {
  }

  lemma Turns64At56(iv: seq<bv64>, k: seq<bv64>)
    ensures Round(Variant64(iv, k), S64_56, 0x748f82ee5defb2fc, 0x7533eabcb786ff00) == S64_57
    ensures Round(Variant64(iv, k), S64_57, 0x78a5636f43172f60, 0xb89826cee6fbf0e5) == S64_58
    ensures Round(Variant64(iv, k), S64_58, 0x84c87814a1f0ab72, 0x249b4fbcad623e9f) == S64_59
    ensures Round(Variant64(iv, k), S64_59, 0x8cc702081a6439ec, 0x4aea9df2b02d6f1e) == S64_60
  {
  }

  lemma Turns64At60(iv: seq<bv64>, k: seq<bv64>)
    ensures Round(Variant64(iv, k), S64_60, 0x90befffa23631e28, 0x2cc57475a55e8d8f) == S64_61
    ensures Round(Variant64(iv, k), S64_61, 0xa4506cebde82bde9, 0xb2574ae938d8be89) == S64_62
    ensures Round(Variant64(iv, k), S64_62, 0xbef9a3f7b2c67915, 0xc1b35a57b16d6aea) == S64_63
    ensures Round(Variant64(iv, k), S64_63, 0xc67178f2e372532b, 0xcc4918b5949206bb) == S64_64
  {
  }

  lemma Turns64At64(iv: seq<bv64>, k: seq<bv64>)
    ensures Round(Variant64(iv, k), S64_64, 0xca273eceea26619c, 0x5099c3add79f90ec) == S64_65
    ensures Round(Variant64(iv, k), S64_65, 0xd186b8c721c0c207, 0x5ea81d78e7660bf1) == S64_66
    ensures Round(Variant64(iv, k), S64_66, 0xeada7dd6cde0eb1e, 0xebee6267405ac2a9) == S64_67
    ensures Round(Variant64(iv, k), S64_67, 0xf57d4f7fee6ed178, 0xb01f21926108a4ab) == S64_68
  {
  }

  lemma Turns64At68(iv: seq<bv64>, k: seq<bv64>)
    ensures Round(Variant64(iv, k), S64_68, 0x06f067aa72176fba, 0x786433dd2fe65556) == S64_69
    ensures Round(Variant64(iv, k), S64_69, 0x0a637dc5a2c898a6, 0xc54a6eaa24a0552c) == S64_70
    ensures Round(Variant64(iv, k), S64_70, 0x113f9804bef90dae, 0xb3c8f1530bdbaa9e) == S64_71
    ensures Round(Variant64(iv, k), S64_71, 0x1b710b35131c471b, 0xbb8abfe56f469338) == S64_72
  {
  }

  lemma Turns64At72(iv: seq<bv64>, k: seq<bv64>)
    ensures Round(Variant64(iv, k), S64_72, 0x28db77f523047d84, 0xf63d4265cc1c5a78) == S64_73
    ensures Round(Variant64(iv, k), S64_73, 0x32caab7b40c72493, 0xbe8355ea73129afb) == S64_74
    ensures Round(Variant64(iv, k), S64_74, 0x3c9ebe0a15c9bebc, 0x49e2db8ebdcfbeb5) == S64_75
    ensures Round(Variant64(iv, k), S64_75, 0x431d67c49c100d4c, 0x82269d4a883a3d99) == S64_76
  {
  }

  lemma Turns64At76(iv: seq<bv64>, k: seq<bv64>)
    ensures Round(Variant64(iv, k), S64_76, 0x4cc5d4becb3e42b6, 0xfdf53df3011f362b) == S64_77
    ensures Round(Variant64(iv, k), S64_77, 0x597f299cfc657e2a, 0x464af5671d71c12e) == S64_78
    ensures Round(Variant64(iv, k), S64_78, 0x5fcb6fab3ad6faec, 0xe449b68198ec611c) == S64_79
    ensures Round(Variant64(iv, k), S64_79, 0x6c44198c4a475817, 0x92aeeed1a7bcf7d2) == S64_80
  {
  }

  lemma Known64At16()
    ensures |BlockOf(SHA512_256, ABC)| == 128 && Known(SHA512_256, BlockOf(SHA512_256, ABC), WORDS64, 16)
  {
    VariantsWellFormed();
    Words64At0();
    Words64At8();
    FirstWord64();
    ZeroWord64(IV512, K512);
    AbcBlock(SHA512_256, 0);
    forall t | 0 <= t < 16
      ensures Schedule(SHA512_256, BlockOf(SHA512_256, ABC), t) == WORDS64[t]
    {
      FirstWords(SHA512_256, t);
      Sixteen64(t);
    }
  }

  lemma Sixteen64(t: nat)
    requires t < 16
    ensures |WORDS64| == 80
    ensures WORDS64[t] == if t == 0 then 0x6162638000000000 else if t == 15 then 0x0000000000000018 else 0
  {
    Words64At0();
    Words64At8();
  }

  lemma ZeroWord64(iv: seq<bv64>, k: seq<bv64>)
    ensures Variant64(iv, k).zero == 0 && Variant64(iv, k).shiftIn(0, 0) == 0 && Variant64(iv, k).shiftIn(0, 24) == 0x0000000000000018
  {
  }

  lemma FirstWord64()
    ensures Load(SHA512_256, ABC + [0x80] + ZeroBytes(4)) == 0x6162638000000000
  {
    Shifts64(IV512, K512);
    var w0: seq<byte> := [];
    var w1 := w0 + [0x61];
    LoadNextByte(SHA512_256, w0, 0x61);
    var w2 := w1 + [0x62];
    LoadNextByte(SHA512_256, w1, 0x62);
    var w3 := w2 + [0x63];
    LoadNextByte(SHA512_256, w2, 0x63);
    var w4 := w3 + [0x80];
    LoadNextByte(SHA512_256, w3, 0x80);
    var w5 := w4 + [0x0];
    LoadNextByte(SHA512_256, w4, 0x0);
    var w6 := w5 + [0x0];
    LoadNextByte(SHA512_256, w5, 0x0);
    var w7 := w6 + [0x0];
    LoadNextByte(SHA512_256, w6, 0x0);
    var w8 := w7 + [0x0];
    LoadNextByte(SHA512_256, w7, 0x0);
    assert w8 == ABC + [0x80] + ZeroBytes(4);
  }

  lemma Shifts64(iv: seq<bv64>, k: seq<bv64>)
    ensures Variant64(iv, k).shiftIn(0x0000000000000000, 0x61) == 0x0000000000000061
    ensures Variant64(iv, k).shiftIn(0x0000000000000061, 0x62) == 0x0000000000006162
    ensures Variant64(iv, k).shiftIn(0x0000000000006162, 0x63) == 0x0000000000616263
    ensures Variant64(iv, k).shiftIn(0x0000000000616263, 0x80) == 0x0000000061626380
    ensures Variant64(iv, k).shiftIn(0x0000000061626380, 0x0) == 0x0000006162638000
    ensures Variant64(iv, k).shiftIn(0x0000006162638000, 0x0) == 0x0000616263800000
    ensures Variant64(iv, k).shiftIn(0x0000616263800000, 0x0) == 0x0061626380000000
    ensures Variant64(iv, k).shiftIn(0x0061626380000000, 0x0) == 0x6162638000000000
  {
  }

  lemma Known64At24(block: seq<byte>)
    requires Known(SHA512_256, block, WORDS64, 16)
    ensures Known(SHA512_256, block, WORDS64, 24)
  {
    Words64At0();
    Words64At8();
    Words64At16();
    Sums64At16(IV512, K512);
    WordStep(SHA512_256, block, WORDS64, 16);
    WordStep(SHA512_256, block, WORDS64, 17);
    WordStep(SHA512_256, block, WORDS64, 18);
    WordStep(SHA512_256, block, WORDS64, 19);
    WordStep(SHA512_256, block, WORDS64, 20);
    WordStep(SHA512_256, block, WORDS64, 21);
    WordStep(SHA512_256, block, WORDS64, 22);
    WordStep(SHA512_256, block, WORDS64, 23);
  }

  lemma Known64At32(block: seq<byte>)
    requires Known(SHA512_256, block, WORDS64, 24)
    ensures Known(SHA512_256, block, WORDS64, 32)
  {
    Words64At8();
    Words64At16();
    Words64At24();
    Sums64At24(IV512, K512);
    WordStep(SHA512_256, block, WORDS64, 24);
    WordStep(SHA512_256, block, WORDS64, 25);
    WordStep(SHA512_256, block, WORDS64, 26);
    WordStep(SHA512_256, block, WORDS64, 27);
    WordStep(SHA512_256, block, WORDS64, 28);
    WordStep(SHA512_256, block, WORDS64, 29);
    WordStep(SHA512_256, block, WORDS64, 30);
    WordStep(SHA512_256, block, WORDS64, 31);
  }

  lemma Known64At40(block: seq<byte>)
    requires Known(SHA512_256, block, WORDS64, 32)
    ensures Known(SHA512_256, block, WORDS64, 40)
  {
    Words64At16();
    Words64At24();
    Words64At32();
    Sums64At32(IV512, K512);
    WordStep(SHA512_256, block, WORDS64, 32);
    WordStep(SHA512_256, block, WORDS64, 33);
    WordStep(SHA512_256, block, WORDS64, 34);
    WordStep(SHA512_256, block, WORDS64, 35);
    WordStep(SHA512_256, block, WORDS64, 36);
    WordStep(SHA512_256, block, WORDS64, 37);
    WordStep(SHA512_256, block, WORDS64, 38);
    WordStep(SHA512_256, block, WORDS64, 39);
  }

  lemma Known64At48(block: seq<byte>)
    requires Known(SHA512_256, block, WORDS64, 40)
    ensures Known(SHA512_256, block, WORDS64, 48)
  {
    Words64At24();
    Words64At32();
    Words64At40();
    Sums64At40(IV512, K512);
    WordStep(SHA512_256, block, WORDS64, 40);
    WordStep(SHA512_256, block, WORDS64, 41);
    WordStep(SHA512_256, block, WORDS64, 42);
    WordStep(SHA512_256, block, WORDS64, 43);
    WordStep(SHA512_256, block, WORDS64, 44);
    WordStep(SHA512_256, block, WORDS64, 45);
    WordStep(SHA512_256, block, WORDS64, 46);
    WordStep(SHA512_256, block, WORDS64, 47);
  }

  lemma Known64At56(block: seq<byte>)
    requires Known(SHA512_256, block, WORDS64, 48)
    ensures Known(SHA512_256, block, WORDS64, 56)
  {
    Words64At32();
    Words64At40();
    Words64At48();
    Sums64At48(IV512, K512);
    WordStep(SHA512_256, block, WORDS64, 48);
    WordStep(SHA512_256, block, WORDS64, 49);
    WordStep(SHA512_256, block, WORDS64, 50);
    WordStep(SHA512_256, block, WORDS64, 51);
    WordStep(SHA512_256, block, WORDS64, 52);
    WordStep(SHA512_256, block, WORDS64, 53);
    WordStep(SHA512_256, block, WORDS64, 54);
    WordStep(SHA512_256, block, WORDS64, 55);
  }

  lemma Known64At64(block: seq<byte>)
    requires Known(SHA512_256, block, WORDS64, 56)
    ensures Known(SHA512_256, block, WORDS64, 64)
  {
    Words64At40();
    Words64At48();
    Words64At56();
    Sums64At56(IV512, K512);
    WordStep(SHA512_256, block, WORDS64, 56);
    WordStep(SHA512_256, block, WORDS64, 57);
    WordStep(SHA512_256, block, WORDS64, 58);
    WordStep(SHA512_256, block, WORDS64, 59);
    WordStep(SHA512_256, block, WORDS64, 60);
    WordStep(SHA512_256, block, WORDS64, 61);
    WordStep(SHA512_256, block, WORDS64, 62);
    WordStep(SHA512_256, block, WORDS64, 63);
  }

  lemma Known64At72(block: seq<byte>)
    requires Known(SHA512_256, block, WORDS64, 64)
    ensures Known(SHA512_256, block, WORDS64, 72)
  {
    Words64At48();
    Words64At56();
    Words64At64();
    Sums64At64(IV512, K512);
    WordStep(SHA512_256, block, WORDS64, 64);
    WordStep(SHA512_256, block, WORDS64, 65);
    WordStep(SHA512_256, block, WORDS64, 66);
    WordStep(SHA512_256, block, WORDS64, 67);
    WordStep(SHA512_256, block, WORDS64, 68);
    WordStep(SHA512_256, block, WORDS64, 69);
    WordStep(SHA512_256, block, WORDS64, 70);
    WordStep(SHA512_256, block, WORDS64, 71);
  }

  lemma Known64At80(block: seq<byte>)
    requires Known(SHA512_256, block, WORDS64, 72)
    ensures Known(SHA512_256, block, WORDS64, 80)
  {
    Words64At56();
    Words64At64();
    Words64At72();
    Sums64At72(IV512, K512);
    WordStep(SHA512_256, block, WORDS64, 72);
    WordStep(SHA512_256, block, WORDS64, 73);
    WordStep(SHA512_256, block, WORDS64, 74);
    WordStep(SHA512_256, block, WORDS64, 75);
    WordStep(SHA512_256, block, WORDS64, 76);
    WordStep(SHA512_256, block, WORDS64, 77);
    WordStep(SHA512_256, block, WORDS64, 78);
    WordStep(SHA512_256, block, WORDS64, 79);
  }

  lemma KnownWords64()
    ensures |BlockOf(SHA512_256, ABC)| == 128 && Known(SHA512_256, BlockOf(SHA512_256, ABC), WORDS64, 80)
  {
    Known64At16();
    Known64At24(BlockOf(SHA512_256, ABC));
    Known64At32(BlockOf(SHA512_256, ABC));
    Known64At40(BlockOf(SHA512_256, ABC));
    Known64At48(BlockOf(SHA512_256, ABC));
    Known64At56(BlockOf(SHA512_256, ABC));
    Known64At64(BlockOf(SHA512_256, ABC));
    Known64At72(BlockOf(SHA512_256, ABC));
    Known64At80(BlockOf(SHA512_256, ABC));
  }

  lemma Rounds64At4(block: seq<byte>)
    requires Known(SHA512_256, block, WORDS64, 80) && |K512| == 80 && |WORDS64| == 80
    requires Rounds(SHA512_256, S64_0, block, 0) == S64_0
    ensures Rounds(SHA512_256, S64_0, block, 4) == S64_4
  {
    Words64At0();
    Constants64At0();
    Turns64At0(IV512, K512);
    RoundStep(SHA512_256, S64_0, block, WORDS64, 0, S64_0, S64_1);
    RoundStep(SHA512_256, S64_0, block, WORDS64, 1, S64_1, S64_2);
    RoundStep(SHA512_256, S64_0, block, WORDS64, 2, S64_2, S64_3);
    RoundStep(SHA512_256, S64_0, block, WORDS64, 3, S64_3, S64_4);
  }

  lemma Rounds64At8(block: seq<byte>)
    requires Known(SHA512_256, block, WORDS64, 80) && |K512| == 80 && |WORDS64| == 80
    requires Rounds(SHA512_256, S64_0, block, 4) == S64_4
    ensures Rounds(SHA512_256, S64_0, block, 8) == S64_8
  {
    Words64At0();
    Constants64At0();
    Turns64At4(IV512, K512);
    RoundStep(SHA512_256, S64_0, block, WORDS64, 4, S64_4, S64_5);
    RoundStep(SHA512_256, S64_0, block, WORDS64, 5, S64_5, S64_6);
    RoundStep(SHA512_256, S64_0, block, WORDS64, 6, S64_6, S64_7);
    RoundStep(SHA512_256, S64_0, block, WORDS64, 7, S64_7, S64_8);
  }

  lemma Rounds64At12(block: seq<byte>)
    requires Known(SHA512_256, block, WORDS64, 80) && |K512| == 80 && |WORDS64| == 80
    requires Rounds(SHA512_256, S64_0, block, 8) == S64_8
    ensures Rounds(SHA512_256, S64_0, block, 12) == S64_12
  {
    Words64At8();
    Constants64At8();
    Turns64At8(IV512, K512);
    RoundStep(SHA512_256, S64_0, block, WORDS64, 8, S64_8, S64_9);
    RoundStep(SHA512_256, S64_0, block, WORDS64, 9, S64_9, S64_10);
    RoundStep(SHA512_256, S64_0, block, WORDS64, 10, S64_10, S64_11);
    RoundStep(SHA512_256, S64_0, block, WORDS64, 11, S64_11, S64_12);
  }

  lemma Rounds64At16(block: seq<byte>)
    requires Known(SHA512_256, block, WORDS64, 80) && |K512| == 80 && |WORDS64| == 80
    requires Rounds(SHA512_256, S64_0, block, 12) == S64_12
    ensures Rounds(SHA512_256, S64_0, block, 16) == S64_16
  {
    Words64At8();
    Constants64At8();
    Turns64At12(IV512, K512);
    RoundStep(SHA512_256, S64_0, block, WORDS64, 12, S64_12, S64_13);
    RoundStep(SHA512_256, S64_0, block, WORDS64, 13, S64_13, S64_14);
    RoundStep(SHA512_256, S64_0, block, WORDS64, 14, S64_14, S64_15);
    RoundStep(SHA512_256, S64_0, block, WORDS64, 15, S64_15, S64_16);
  }

  lemma Rounds64At20(block: seq<byte>)
    requires Known(SHA512_256, block, WORDS64, 80) && |K512| == 80 && |WORDS64| == 80
    requires Rounds(SHA512_256, S64_0, block, 16) == S64_16
    ensures Rounds(SHA512_256, S64_0, block, 20) == S64_20
  {
    Words64At16();
    Constants64At16();
    Turns64At16(IV512, K512);
    RoundStep(SHA512_256, S64_0, block, WORDS64, 16, S64_16, S64_17);
    RoundStep(SHA512_256, S64_0, block, WORDS64, 17, S64_17, S64_18);
    RoundStep(SHA512_256, S64_0, block, WORDS64, 18, S64_18, S64_19);
    RoundStep(SHA512_256, S64_0, block, WORDS64, 19, S64_19, S64_20);
  }

  lemma Rounds64At24(block: seq<byte>)
    requires Known(SHA512_256, block, WORDS64, 80) && |K512| == 80 && |WORDS64| == 80
    requires Rounds(SHA512_256, S64_0, block, 20) == S64_20
    ensures Rounds(SHA512_256, S64_0, block, 24) == S64_24
  {
    Words64At16();
    Constants64At16();
    Turns64At20(IV512, K512);
    RoundStep(SHA512_256, S64_0, block, WORDS64, 20, S64_20, S64_21);
    RoundStep(SHA512_256, S64_0, block, WORDS64, 21, S64_21, S64_22);
    RoundStep(SHA512_256, S64_0, block, WORDS64, 22, S64_22, S64_23);
    RoundStep(SHA512_256, S64_0, block, WORDS64, 23, S64_23, S64_24);
  }

  lemma Rounds64At28(block: seq<byte>)
    requires Known(SHA512_256, block, WORDS64, 80) && |K512| == 80 && |WORDS64| == 80
    requires Rounds(SHA512_256, S64_0, block, 24) == S64_24
    ensures Rounds(SHA512_256, S64_0, block, 28) == S64_28
  {
    Words64At24();
    Constants64At24();
    Turns64At24(IV512, K512);
    RoundStep(SHA512_256, S64_0, block, WORDS64, 24, S64_24, S64_25);
    RoundStep(SHA512_256, S64_0, block, WORDS64, 25, S64_25, S64_26);
    RoundStep(SHA512_256, S64_0, block, WORDS64, 26, S64_26, S64_27);
    RoundStep(SHA512_256, S64_0, block, WORDS64, 27, S64_27, S64_28);
  }

  lemma Rounds64At32(block: seq<byte>)
    requires Known(SHA512_256, block, WORDS64, 80) && |K512| == 80 && |WORDS64| == 80
    requires Rounds(SHA512_256, S64_0, block, 28) == S64_28
    ensures Rounds(SHA512_256, S64_0, block, 32) == S64_32
  {
    Words64At24();
    Constants64At24();
    Turns64At28(IV512, K512);
    RoundStep(SHA512_256, S64_0, block, WORDS64, 28, S64_28, S64_29);
    RoundStep(SHA512_256, S64_0, block, WORDS64, 29, S64_29, S64_30);
    RoundStep(SHA512_256, S64_0, block, WORDS64, 30, S64_30, S64_31);
    RoundStep(SHA512_256, S64_0, block, WORDS64, 31, S64_31, S64_32);
  }

  lemma Rounds64At36(block: seq<byte>)
    requires Known(SHA512_256, block, WORDS64, 80) && |K512| == 80 && |WORDS64| == 80
    requires Rounds(SHA512_256, S64_0, block, 32) == S64_32
    ensures Rounds(SHA512_256, S64_0, block, 36) == S64_36
  {
    Words64At32();
    Constants64At32();
    Turns64At32(IV512, K512);
    RoundStep(SHA512_256, S64_0, block, WORDS64, 32, S64_32, S64_33);
    RoundStep(SHA512_256, S64_0, block, WORDS64, 33, S64_33, S64_34);
    RoundStep(SHA512_256, S64_0, block, WORDS64, 34, S64_34, S64_35);
    RoundStep(SHA512_256, S64_0, block, WORDS64, 35, S64_35, S64_36);
  }

  lemma Rounds64At40(block: seq<byte>)
    requires Known(SHA512_256, block, WORDS64, 80) && |K512| == 80 && |WORDS64| == 80
    requires Rounds(SHA512_256, S64_0, block, 36) == S64_36
    ensures Rounds(SHA512_256, S64_0, block, 40) == S64_40
  {
    Words64At32();
    Constants64At32();
    Turns64At36(IV512, K512);
    RoundStep(SHA512_256, S64_0, block, WORDS64, 36, S64_36, S64_37);
    RoundStep(SHA512_256, S64_0, block, WORDS64, 37, S64_37, S64_38);
    RoundStep(SHA512_256, S64_0, block, WORDS64, 38, S64_38, S64_39);
    RoundStep(SHA512_256, S64_0, block, WORDS64, 39, S64_39, S64_40);
  }

  lemma Rounds64At44(block: seq<byte>)
    requires Known(SHA512_256, block, WORDS64, 80) && |K512| == 80 && |WORDS64| == 80
    requires Rounds(SHA512_256, S64_0, block, 40) == S64_40
    ensures Rounds(SHA512_256, S64_0, block, 44) == S64_44
  {
    Words64At40();
    Constants64At40();
    Turns64At40(IV512, K512);
    RoundStep(SHA512_256, S64_0, block, WORDS64, 40, S64_40, S64_41);
    RoundStep(SHA512_256, S64_0, block, WORDS64, 41, S64_41, S64_42);
    RoundStep(SHA512_256, S64_0, block, WORDS64, 42, S64_42, S64_43);
    RoundStep(SHA512_256, S64_0, block, WORDS64, 43, S64_43, S64_44);
  }

  lemma Rounds64At48(block: seq<byte>)
    requires Known(SHA512_256, block, WORDS64, 80) && |K512| == 80 && |WORDS64| == 80
    requires Rounds(SHA512_256, S64_0, block, 44) == S64_44
    ensures Rounds(SHA512_256, S64_0, block, 48) == S64_48
  {
    Words64At40();
    Constants64At40();
    Turns64At44(IV512, K512);
    RoundStep(SHA512_256, S64_0, block, WORDS64, 44, S64_44, S64_45);
    RoundStep(SHA512_256, S64_0, block, WORDS64, 45, S64_45, S64_46);
    RoundStep(SHA512_256, S64_0, block, WORDS64, 46, S64_46, S64_47);
    RoundStep(SHA512_256, S64_0, block, WORDS64, 47, S64_47, S64_48);
  }

  lemma Rounds64At52(block: seq<byte>)
    requires Known(SHA512_256, block, WORDS64, 80) && |K512| == 80 && |WORDS64| == 80
    requires Rounds(SHA512_256, S64_0, block, 48) == S64_48
    ensures Rounds(SHA512_256, S64_0, block, 52) == S64_52
  {
    Words64At48();
    Constants64At48();
    Turns64At48(IV512, K512);
    RoundStep(SHA512_256, S64_0, block, WORDS64, 48, S64_48, S64_49);
    RoundStep(SHA512_256, S64_0, block, WORDS64, 49, S64_49, S64_50);
    RoundStep(SHA512_256, S64_0, block, WORDS64, 50, S64_50, S64_51);
    RoundStep(SHA512_256, S64_0, block, WORDS64, 51, S64_51, S64_52);
  }

  lemma Rounds64At56(block: seq<byte>)
    requires Known(SHA512_256, block, WORDS64, 80) && |K512| == 80 && |WORDS64| == 80
    requires Rounds(SHA512_256, S64_0, block, 52) == S64_52
    ensures Rounds(SHA512_256, S64_0, block, 56) == S64_56
  {
    Words64At48();
    Constants64At48();
    Turns64At52(IV512, K512);
    RoundStep(SHA512_256, S64_0, block, WORDS64, 52, S64_52, S64_53);
    RoundStep(SHA512_256, S64_0, block, WORDS64, 53, S64_53, S64_54);
    RoundStep(SHA512_256, S64_0, block, WORDS64, 54, S64_54, S64_55);
    RoundStep(SHA512_256, S64_0, block, WORDS64, 55, S64_55, S64_56);
  }

  lemma Rounds64At60(block: seq<byte>)
    requires Known(SHA512_256, block, WORDS64, 80) && |K512| == 80 && |WORDS64| == 80
    requires Rounds(SHA512_256, S64_0, block, 56) == S64_56
    ensures Rounds(SHA512_256, S64_0, block, 60) == S64_60
  {
    Words64At56();
    Constants64At56();
    Turns64At56(IV512, K512);
    RoundStep(SHA512_256, S64_0, block, WORDS64, 56, S64_56, S64_57);
    RoundStep(SHA512_256, S64_0, block, WORDS64, 57, S64_57, S64_58);
    RoundStep(SHA512_256, S64_0, block, WORDS64, 58, S64_58, S64_59);
    RoundStep(SHA512_256, S64_0, block, WORDS64, 59, S64_59, S64_60);
  }

  lemma Rounds64At64(block: seq<byte>)
    requires Known(SHA512_256, block, WORDS64, 80) && |K512| == 80 && |WORDS64| == 80
    requires Rounds(SHA512_256, S64_0, block, 60) == S64_60
    ensures Rounds(SHA512_256, S64_0, block, 64) == S64_64
  {
    Words64At56();
    Constants64At56();
    Turns64At60(IV512, K512);
    RoundStep(SHA512_256, S64_0, block, WORDS64, 60, S64_60, S64_61);
    RoundStep(SHA512_256, S64_0, block, WORDS64, 61, S64_61, S64_62);
    RoundStep(SHA512_256, S64_0, block, WORDS64, 62, S64_62, S64_63);
    RoundStep(SHA512_256, S64_0, block, WORDS64, 63, S64_63, S64_64);
  }

  lemma Rounds64At68(block: seq<byte>)
    requires Known(SHA512_256, block, WORDS64, 80) && |K512| == 80 && |WORDS64| == 80
    requires Rounds(SHA512_256, S64_0, block, 64) == S64_64
    ensures Rounds(SHA512_256, S64_0, block, 68) == S64_68
  {
    Words64At64();
    Constants64At64();
    Turns64At64(IV512, K512);
    RoundStep(SHA512_256, S64_0, block, WORDS64, 64, S64_64, S64_65);
    RoundStep(SHA512_256, S64_0, block, WORDS64, 65, S64_65, S64_66);
    RoundStep(SHA512_256, S64_0, block, WORDS64, 66, S64_66, S64_67);
    RoundStep(SHA512_256, S64_0, block, WORDS64, 67, S64_67, S64_68);
  }

  lemma Rounds64At72(block: seq<byte>)
    requires Known(SHA512_256, block, WORDS64, 80) && |K512| == 80 && |WORDS64| == 80
    requires Rounds(SHA512_256, S64_0, block, 68) == S64_68
    ensures Rounds(SHA512_256, S64_0, block, 72) == S64_72
  {
    Words64At64();
    Constants64At64();
    Turns64At68(IV512, K512);
    RoundStep(SHA512_256, S64_0, block, WORDS64, 68, S64_68, S64_69);
    RoundStep(SHA512_256, S64_0, block, WORDS64, 69, S64_69, S64_70);
    RoundStep(SHA512_256, S64_0, block, WORDS64, 70, S64_70, S64_71);
    RoundStep(SHA512_256, S64_0, block, WORDS64, 71, S64_71, S64_72);
  }

  lemma Rounds64At76(block: seq<byte>)
    requires Known(SHA512_256, block, WORDS64, 80) && |K512| == 80 && |WORDS64| == 80
    requires Rounds(SHA512_256, S64_0, block, 72) == S64_72
    ensures Rounds(SHA512_256, S64_0, block, 76) == S64_76
  {
    Words64At72();
    Constants64At72();
    Turns64At72(IV512, K512);
    RoundStep(SHA512_256, S64_0, block, WORDS64, 72, S64_72, S64_73);
    RoundStep(SHA512_256, S64_0, block, WORDS64, 73, S64_73, S64_74);
    RoundStep(SHA512_256, S64_0, block, WORDS64, 74, S64_74, S64_75);
    RoundStep(SHA512_256, S64_0, block, WORDS64, 75, S64_75, S64_76);
  }

  lemma Rounds64At80(block: seq<byte>)
    requires Known(SHA512_256, block, WORDS64, 80) && |K512| == 80 && |WORDS64| == 80
    requires Rounds(SHA512_256, S64_0, block, 76) == S64_76
    ensures Rounds(SHA512_256, S64_0, block, 80) == S64_80
  {
    Words64At72();
    Constants64At72();
    Turns64At76(IV512, K512);
    RoundStep(SHA512_256, S64_0, block, WORDS64, 76, S64_76, S64_77);
    RoundStep(SHA512_256, S64_0, block, WORDS64, 77, S64_77, S64_78);
    RoundStep(SHA512_256, S64_0, block, WORDS64, 78, S64_78, S64_79);
    RoundStep(SHA512_256, S64_0, block, WORDS64, 79, S64_79, S64_80);
  }

  lemma KnownRounds64(block: seq<byte>)
    requires Known(SHA512_256, block, WORDS64, 80) && |K512| == 80 && |WORDS64| == 80
    ensures Rounds(SHA512_256, S64_0, block, 80) == S64_80
  {
    Rounds64At4(block);
    Rounds64At8(block);
    Rounds64At12(block);
    Rounds64At16(block);
    Rounds64At20(block);
    Rounds64At24(block);
    Rounds64At28(block);
    Rounds64At32(block);
    Rounds64At36(block);
    Rounds64At40(block);
    Rounds64At44(block);
    Rounds64At48(block);
    Rounds64At52(block);
    Rounds64At56(block);
    Rounds64At60(block);
    Rounds64At64(block);
    Rounds64At68(block);
    Rounds64At72(block);
    Rounds64At76(block);
    Rounds64At80(block);
  }

  const HASH64: seq<bv64> := [
    0x53048e2681941ef9, 0x9b2e29b76b4c7dab, 0xe4c2d0c634fc6d46, 0xe0e2f13107e7af23,
    0x0e35949b85d8f387, 0x2007b3491c26c06d, 0x82914c0c30ef079b, 0xa3656a19dd7f0618]

  lemma LastSums64(iv: seq<bv64>, k: seq<bv64>)
    ensures |IV512| == 8
    ensures Variant64(iv, k).add(IV512[0], S64_80.a) == 0x53048e2681941ef9
    ensures Variant64(iv, k).add(IV512[1], S64_80.b) == 0x9b2e29b76b4c7dab
    ensures Variant64(iv, k).add(IV512[2], S64_80.c) == 0xe4c2d0c634fc6d46
    ensures Variant64(iv, k).add(IV512[3], S64_80.d) == 0xe0e2f13107e7af23
    ensures Variant64(iv, k).add(IV512[4], S64_80.e) == 0x0e35949b85d8f387
    ensures Variant64(iv, k).add(IV512[5], S64_80.f) == 0x2007b3491c26c06d
    ensures Variant64(iv, k).add(IV512[6], S64_80.g) == 0x82914c0c30ef079b
    ensures Variant64(iv, k).add(IV512[7], S64_80.h) == 0xa3656a19dd7f0618
  {
  }

  lemma Start64()
    ensures |IV512| == 8
    ensures Working(IV512[0], IV512[1], IV512[2], IV512[3], IV512[4], IV512[5], IV512[6], IV512[7]) == S64_0
  {
  }

  lemma Compressed64(block: seq<byte>)
    requires |block| == 128 && Known(SHA512_256, block, WORDS64, 80) && |K512| == 80 && |WORDS64| == 80
    ensures |IV512| == 8 && CompressBlock(SHA512_256, IV512, block) == HASH64
  {
    Start64();
    KnownRounds64(block);
    LastSums64(IV512, K512);
    Finished(SHA512_256, IV512, block, S64_80, HASH64);
  }

  /** SHA-512/256 of "abc". */
  lemma KnownHash64()
    ensures WellFormed(SHA512_256) && Hash(SHA512_256, ABC) == HASH64
  {
    VariantsWellFormed();
    KnownWords64();
    Words64At0();
    Constants64At0();
    Compressed64(BlockOf(SHA512_256, ABC));
    HashOfOne(SHA512_256, ABC, HASH64);
  }

  const DIGEST64: seq<byte> := [
    0x53, 0x04, 0x8e, 0x26, 0x81, 0x94, 0x1e, 0xf9, 0x9b, 0x2e, 0x29, 0xb7, 0x6b, 0x4c, 0x7d, 0xab,
    0xe4, 0xc2, 0xd0, 0xc6, 0x34, 0xfc, 0x6d, 0x46, 0xe0, 0xe2, 0xf1, 0x31, 0x07, 0xe7, 0xaf, 0x23]

  lemma Bytes64At0(h: seq<bv64>)
    requires |h| == 8 && h[0] == 0x53048e2681941ef9
    ensures DigestByte(SHA512_256, h, 0) == 0x53
    ensures DigestByte(SHA512_256, h, 1) == 0x4
    ensures DigestByte(SHA512_256, h, 2) == 0x8e
    ensures DigestByte(SHA512_256, h, 3) == 0x26
    ensures DigestByte(SHA512_256, h, 4) == 0x81
    ensures DigestByte(SHA512_256, h, 5) == 0x94
    ensures DigestByte(SHA512_256, h, 6) == 0x1e
    ensures DigestByte(SHA512_256, h, 7) == 0xf9
  {
  }

  lemma Bytes64At1(h: seq<bv64>)
    requires |h| == 8 && h[1] == 0x9b2e29b76b4c7dab
    ensures DigestByte(SHA512_256, h, 8) == 0x9b
    ensures DigestByte(SHA512_256, h, 9) == 0x2e
    ensures DigestByte(SHA512_256, h, 10) == 0x29
    ensures DigestByte(SHA512_256, h, 11) == 0xb7
    ensures DigestByte(SHA512_256, h, 12) == 0x6b
    ensures DigestByte(SHA512_256, h, 13) == 0x4c
    ensures DigestByte(SHA512_256, h, 14) == 0x7d
    ensures DigestByte(SHA512_256, h, 15) == 0xab
  {
  }

  lemma Bytes64At2(h: seq<bv64>)
    requires |h| == 8 && h[2] == 0xe4c2d0c634fc6d46
    ensures DigestByte(SHA512_256, h, 16) == 0xe4
    ensures DigestByte(SHA512_256, h, 17) == 0xc2
    ensures DigestByte(SHA512_256, h, 18) == 0xd0
    ensures DigestByte(SHA512_256, h, 19) == 0xc6
    ensures DigestByte(SHA512_256, h, 20) == 0x34
    ensures DigestByte(SHA512_256, h, 21) == 0xfc
    ensures DigestByte(SHA512_256, h, 22) == 0x6d
    ensures DigestByte(SHA512_256, h, 23) == 0x46
  {
  }

  lemma Bytes64At3(h: seq<bv64>)
    requires |h| == 8 && h[3] == 0xe0e2f13107e7af23
    ensures DigestByte(SHA512_256, h, 24) == 0xe0
    ensures DigestByte(SHA512_256, h, 25) == 0xe2
    ensures DigestByte(SHA512_256, h, 26) == 0xf1
    ensures DigestByte(SHA512_256, h, 27) == 0x31
    ensures DigestByte(SHA512_256, h, 28) == 0x7
    ensures DigestByte(SHA512_256, h, 29) == 0xe7
    ensures DigestByte(SHA512_256, h, 30) == 0xaf
    ensures DigestByte(SHA512_256, h, 31) == 0x23
  {
  }

  lemma Digest64At0(i: nat)
    requires 0 <= i < 8
    ensures |DIGEST64| == 32 && DigestByte(SHA512_256, HASH64, i) == DIGEST64[i]
  {
    Bytes64At0(HASH64);
  }

  lemma Digest64At8(i: nat)
    requires 8 <= i < 16
    ensures |DIGEST64| == 32 && DigestByte(SHA512_256, HASH64, i) == DIGEST64[i]
  {
    Bytes64At1(HASH64);
  }

  lemma Digest64At16(i: nat)
    requires 16 <= i < 24
    ensures |DIGEST64| == 32 && DigestByte(SHA512_256, HASH64, i) == DIGEST64[i]
  {
    Bytes64At2(HASH64);
  }

  lemma Digest64At24(i: nat)
    requires 24 <= i < 32
    ensures |DIGEST64| == 32 && DigestByte(SHA512_256, HASH64, i) == DIGEST64[i]
  {
    Bytes64At3(HASH64);
  }

  /** The digest: the bytes of the words that are kept, the most significant first. */
  lemma KnownDigest64()
    ensures WellFormed(SHA512_256) && DigestOf(SHA512_256, ABC) == DIGEST64
  {
    VariantsWellFormed();
    KnownHash64();
    forall i | 0 <= i < 32
      ensures |DIGEST64| == 32 && DigestByte(SHA512_256, HASH64, i) == DIGEST64[i]
    {
      if i < 8 {
        Digest64At0(i);
      } else if i < 16 {
        Digest64At8(i);
      } else if i < 24 {
        Digest64At16(i);
      } else {
        Digest64At24(i);
      }
    }
    SameDigest(SHA512_256, ABC, HASH64, DIGEST64);
  }

  // ---------------- SHA-256 ----------------

  const W32_0: seq<bv32> := [
    0x61626380, 0x00000000, 0x00000000, 0x00000000,
    0x00000000, 0x00000000, 0x00000000, 0x00000000]
  const W32_1: seq<bv32> := [
    0x00000000, 0x00000000, 0x00000000, 0x00000000,
    0x00000000, 0x00000000, 0x00000000, 0x00000018]
  const W32_2: seq<bv32> := [
    0x61626380, 0x000f0000, 0x7da86405, 0x600003c6,
    0x3e9d7b78, 0x0183fc00, 0x12dcbfdb, 0xe2e2c38e]
  const W32_3: seq<bv32> := [
    0xc8215c1a, 0xb73679a2, 0xe5bc3909, 0x32663c5b,
    0x9d209d67, 0xec8726cb, 0x702138a4, 0xd3b7973b]
  const W32_4: seq<bv32> := [
    0x93f5997f, 0x3b68ba73, 0xaff4ffc1, 0xf10a5c62,
    0x0a8b3996, 0x72af830a, 0x9409e33e, 0x24641522]
  const W32_5: seq<bv32> := [
    0x9f47bf94, 0xf0a64f5a, 0x3e246a79, 0x27333ba3,
    0x0c4763f2, 0x840abf27, 0x7a290d5d, 0x065c43da]
  const W32_6: seq<bv32> := [
    0xfb3e89cb, 0xcc7617db, 0xb9e66c34, 0xa9993667,
    0x84badedd, 0xc21462bc, 0x1487472c, 0xb20f7a99]
  const W32_7: seq<bv32> := [
    0xef57b9cd, 0xebe6b238, 0x9fe3095e, 0x78bc8d4b,
    0xa43fcf15, 0x668b2ff8, 0xeeaba2cc, 0x12b1edeb]

  const WORDS32: seq<bv32> :=
    W32_0 + W32_1 + W32_2 + W32_3 + W32_4 + W32_5 + W32_6 + W32_7

  lemma Words32At0()
    ensures |WORDS32| == 64
    ensures WORDS32[0] == 0x61626380
    ensures WORDS32[1] == 0x00000000
    ensures WORDS32[2] == 0x00000000
    ensures WORDS32[3] == 0x00000000
    ensures WORDS32[4] == 0x00000000
    ensures WORDS32[5] == 0x00000000
    ensures WORDS32[6] == 0x00000000
    ensures WORDS32[7] == 0x00000000
  {
    Places32(W32_0, W32_1, W32_2, W32_3, W32_4, W32_5, W32_6, W32_7, 0);
  }

  lemma Words32At8()
    ensures |WORDS32| == 64
    ensures WORDS32[8] == 0x00000000
    ensures WORDS32[9] == 0x00000000
    ensures WORDS32[10] == 0x00000000
    ensures WORDS32[11] == 0x00000000
    ensures WORDS32[12] == 0x00000000
    ensures WORDS32[13] == 0x00000000
    ensures WORDS32[14] == 0x00000000
    ensures WORDS32[15] == 0x00000018
  {
    Places32(W32_0, W32_1, W32_2, W32_3, W32_4, W32_5, W32_6, W32_7, 1);
  }

  lemma Words32At16()
    ensures |WORDS32| == 64
    ensures WORDS32[16] == 0x61626380
    ensures WORDS32[17] == 0x000f0000
    ensures WORDS32[18] == 0x7da86405
    ensures WORDS32[19] == 0x600003c6
    ensures WORDS32[20] == 0x3e9d7b78
    ensures WORDS32[21] == 0x0183fc00
    ensures WORDS32[22] == 0x12dcbfdb
    ensures WORDS32[23] == 0xe2e2c38e
  {
    Places32(W32_0, W32_1, W32_2, W32_3, W32_4, W32_5, W32_6, W32_7, 2);
  }

  lemma Words32At24()
    ensures |WORDS32| == 64
    ensures WORDS32[24] == 0xc8215c1a
    ensures WORDS32[25] == 0xb73679a2
    ensures WORDS32[26] == 0xe5bc3909
    ensures WORDS32[27] == 0x32663c5b
    ensures WORDS32[28] == 0x9d209d67
    ensures WORDS32[29] == 0xec8726cb
    ensures WORDS32[30] == 0x702138a4
    ensures WORDS32[31] == 0xd3b7973b
  {
    Places32(W32_0, W32_1, W32_2, W32_3, W32_4, W32_5, W32_6, W32_7, 3);
  }

  lemma Words32At32()
    ensures |WORDS32| == 64
    ensures WORDS32[32] == 0x93f5997f
    ensures WORDS32[33] == 0x3b68ba73
    ensures WORDS32[34] == 0xaff4ffc1
    ensures WORDS32[35] == 0xf10a5c62
    ensures WORDS32[36] == 0x0a8b3996
    ensures WORDS32[37] == 0x72af830a
    ensures WORDS32[38] == 0x9409e33e
    ensures WORDS32[39] == 0x24641522
  {
    Places32(W32_0, W32_1, W32_2, W32_3, W32_4, W32_5, W32_6, W32_7, 4);
  }

  lemma Words32At40()
    ensures |WORDS32| == 64
    ensures WORDS32[40] == 0x9f47bf94
    ensures WORDS32[41] == 0xf0a64f5a
    ensures WORDS32[42] == 0x3e246a79
    ensures WORDS32[43] == 0x27333ba3
    ensures WORDS32[44] == 0x0c4763f2
    ensures WORDS32[45] == 0x840abf27
    ensures WORDS32[46] == 0x7a290d5d
    ensures WORDS32[47] == 0x065c43da
  {
    Places32(W32_0, W32_1, W32_2, W32_3, W32_4, W32_5, W32_6, W32_7, 5);
  }

  lemma Words32At48()
    ensures |WORDS32| == 64
    ensures WORDS32[48] == 0xfb3e89cb
    ensures WORDS32[49] == 0xcc7617db
    ensures WORDS32[50] == 0xb9e66c34
    ensures WORDS32[51] == 0xa9993667
    ensures WORDS32[52] == 0x84badedd
    ensures WORDS32[53] == 0xc21462bc
    ensures WORDS32[54] == 0x1487472c
    ensures WORDS32[55] == 0xb20f7a99
  {
    Places32(W32_0, W32_1, W32_2, W32_3, W32_4, W32_5, W32_6, W32_7, 6);
  }

  lemma Words32At56()
    ensures |WORDS32| == 64
    ensures WORDS32[56] == 0xef57b9cd
    ensures WORDS32[57] == 0xebe6b238
    ensures WORDS32[58] == 0x9fe3095e
    ensures WORDS32[59] == 0x78bc8d4b
    ensures WORDS32[60] == 0xa43fcf15
    ensures WORDS32[61] == 0x668b2ff8
    ensures WORDS32[62] == 0xeeaba2cc
    ensures WORDS32[63] == 0x12b1edeb
  {
    Places32(W32_0, W32_1, W32_2, W32_3, W32_4, W32_5, W32_6, W32_7, 7);
  }

  lemma Constants32At0()
    ensures |K256| == 64
    ensures K256[0] == 0x428a2f98
    ensures K256[1] == 0x71374491
    ensures K256[2] == 0xb5c0fbcf
    ensures K256[3] == 0xe9b5dba5
    ensures K256[4] == 0x3956c25b
    ensures K256[5] == 0x59f111f1
    ensures K256[6] == 0x923f82a4
    ensures K256[7] == 0xab1c5ed5
  {
    Places32(K256_0, K256_1, K256_2, K256_3, K256_4, K256_5, K256_6, K256_7, 0);
  }

  lemma Constants32At8()
    ensures |K256| == 64
    ensures K256[8] == 0xd807aa98
    ensures K256[9] == 0x12835b01
    ensures K256[10] == 0x243185be
    ensures K256[11] == 0x550c7dc3
    ensures K256[12] == 0x72be5d74
    ensures K256[13] == 0x80deb1fe
    ensures K256[14] == 0x9bdc06a7
    ensures K256[15] == 0xc19bf174
  {
    Places32(K256_0, K256_1, K256_2, K256_3, K256_4, K256_5, K256_6, K256_7, 1);
  }

  lemma Constants32At16()
    ensures |K256| == 64
    ensures K256[16] == 0xe49b69c1
    ensures K256[17] == 0xefbe4786
    ensures K256[18] == 0x0fc19dc6
    ensures K256[19] == 0x240ca1cc
    ensures K256[20] == 0x2de92c6f
    ensures K256[21] == 0x4a7484aa
    ensures K256[22] == 0x5cb0a9dc
    ensures K256[23] == 0x76f988da
  {
    Places32(K256_0, K256_1, K256_2, K256_3, K256_4, K256_5, K256_6, K256_7, 2);
  }

  lemma Constants32At24()
    ensures |K256| == 64
    ensures K256[24] == 0x983e5152
    ensures K256[25] == 0xa831c66d
    ensures K256[26] == 0xb00327c8
    ensures K256[27] == 0xbf597fc7
    ensures K256[28] == 0xc6e00bf3
    ensures K256[29] == 0xd5a79147
    ensures K256[30] == 0x06ca6351
    ensures K256[31] == 0x14292967
  {
    Places32(K256_0, K256_1, K256_2, K256_3, K256_4, K256_5, K256_6, K256_7, 3);
  }

  lemma Constants32At32()
    ensures |K256| == 64
    ensures K256[32] == 0x27b70a85
    ensures K256[33] == 0x2e1b2138
    ensures K256[34] == 0x4d2c6dfc
    ensures K256[35] == 0x53380d13
    ensures K256[36] == 0x650a7354
    ensures K256[37] == 0x766a0abb
    ensures K256[38] == 0x81c2c92e
    ensures K256[39] == 0x92722c85
  {
    Places32(K256_0, K256_1, K256_2, K256_3, K256_4, K256_5, K256_6, K256_7, 4);
  }

  lemma Constants32At40()
    ensures |K256| == 64
    ensures K256[40] == 0xa2bfe8a1
    ensures K256[41] == 0xa81a664b
    ensures K256[42] == 0xc24b8b70
    ensures K256[43] == 0xc76c51a3
    ensures K256[44] == 0xd192e819
    ensures K256[45] == 0xd6990624
    ensures K256[46] == 0xf40e3585
    ensures K256[47] == 0x106aa070
  {
    Places32(K256_0, K256_1, K256_2, K256_3, K256_4, K256_5, K256_6, K256_7, 5);
  }

  lemma Constants32At48()
    ensures |K256| == 64
    ensures K256[48] == 0x19a4c116
    ensures K256[49] == 0x1e376c08
    ensures K256[50] == 0x2748774c
    ensures K256[51] == 0x34b0bcb5
    ensures K256[52] == 0x391c0cb3
    ensures K256[53] == 0x4ed8aa4a
    ensures K256[54] == 0x5b9cca4f
    ensures K256[55] == 0x682e6ff3
  {
    Places32(K256_0, K256_1, K256_2, K256_3, K256_4, K256_5, K256_6, K256_7, 6);
  }

  lemma Constants32At56()
    ensures |K256| == 64
    ensures K256[56] == 0x748f82ee
    ensures K256[57] == 0x78a5636f
    ensures K256[58] == 0x84c87814
    ensures K256[59] == 0x8cc70208
    ensures K256[60] == 0x90befffa
    ensures K256[61] == 0xa4506ceb
    ensures K256[62] == 0xbef9a3f7
    ensures K256[63] == 0xc67178f2
  {
    Places32(K256_0, K256_1, K256_2, K256_3, K256_4, K256_5, K256_6, K256_7, 7);
  }

  /** Where the entries of part `j` are. */
  lemma Places32(s0: seq<bv32>, s1: seq<bv32>, s2: seq<bv32>, s3: seq<bv32>, s4: seq<bv32>, s5: seq<bv32>, s6: seq<bv32>, s7: seq<bv32>, j: nat)
    requires |s0| == |s1| == |s2| == |s3| == |s4| == |s5| == |s6| == |s7| == 8 && j < 8
    ensures |s0 + s1 + s2 + s3 + s4 + s5 + s6 + s7| == 64
    ensures forall i :: 0 <= i < 8 ==>
      (s0 + s1 + s2 + s3 + s4 + s5 + s6 + s7)[8 * j + i] == Part([s0, s1, s2, s3, s4, s5, s6, s7], j)[i]
  {
  }

  lemma Sums32At16(iv: seq<bv32>, k: seq<bv32>)
    ensures Next(Variant32(iv, k), 0x61626380, 0x00000000, 0x00000000, 0x00000000)
         == 0x61626380
    ensures Next(Variant32(iv, k), 0x00000000, 0x00000000, 0x00000000, 0x00000018)
         == 0x000f0000
    ensures Next(Variant32(iv, k), 0x00000000, 0x00000000, 0x00000000, 0x61626380)
         == 0x7da86405
    ensures Next(Variant32(iv, k), 0x00000000, 0x00000000, 0x00000000, 0x000f0000)
         == 0x600003c6
    ensures Next(Variant32(iv, k), 0x00000000, 0x00000000, 0x00000000, 0x7da86405)
         == 0x3e9d7b78
    ensures Next(Variant32(iv, k), 0x00000000, 0x00000000, 0x00000000, 0x600003c6)
         == 0x0183fc00
    ensures Next(Variant32(iv, k), 0x00000000, 0x00000000, 0x00000018, 0x3e9d7b78)
         == 0x12dcbfdb
    ensures Next(Variant32(iv, k), 0x00000000, 0x00000000, 0x61626380, 0x0183fc00)
         == 0xe2e2c38e
  {
  }

  lemma Sums32At24(iv: seq<bv32>, k: seq<bv32>)
    ensures Next(Variant32(iv, k), 0x00000000, 0x00000000, 0x000f0000, 0x12dcbfdb)
         == 0xc8215c1a
    ensures Next(Variant32(iv, k), 0x00000000, 0x00000000, 0x7da86405, 0xe2e2c38e)
         == 0xb73679a2
    ensures Next(Variant32(iv, k), 0x00000000, 0x00000000, 0x600003c6, 0xc8215c1a)
         == 0xe5bc3909
    ensures Next(Variant32(iv, k), 0x00000000, 0x00000000, 0x3e9d7b78, 0xb73679a2)
         == 0x32663c5b
    ensures Next(Variant32(iv, k), 0x00000000, 0x00000000, 0x0183fc00, 0xe5bc3909)
         == 0x9d209d67
    ensures Next(Variant32(iv, k), 0x00000000, 0x00000000, 0x12dcbfdb, 0x32663c5b)
         == 0xec8726cb
    ensures Next(Variant32(iv, k), 0x00000000, 0x00000018, 0xe2e2c38e, 0x9d209d67)
         == 0x702138a4
    ensures Next(Variant32(iv, k), 0x00000018, 0x61626380, 0xc8215c1a, 0xec8726cb)
         == 0xd3b7973b
  {
  }

  lemma Sums32At32(iv: seq<bv32>, k: seq<bv32>)
    ensures Next(Variant32(iv, k), 0x61626380, 0x000f0000, 0xb73679a2, 0x702138a4)
         == 0x93f5997f
    ensures Next(Variant32(iv, k), 0x000f0000, 0x7da86405, 0xe5bc3909, 0xd3b7973b)
         == 0x3b68ba73
    ensures Next(Variant32(iv, k), 0x7da86405, 0x600003c6, 0x32663c5b, 0x93f5997f)
         == 0xaff4ffc1
    ensures Next(Variant32(iv, k), 0x600003c6, 0x3e9d7b78, 0x9d209d67, 0x3b68ba73)
         == 0xf10a5c62
    ensures Next(Variant32(iv, k), 0x3e9d7b78, 0x0183fc00, 0xec8726cb, 0xaff4ffc1)
         == 0x0a8b3996
    ensures Next(Variant32(iv, k), 0x0183fc00, 0x12dcbfdb, 0x702138a4, 0xf10a5c62)
         == 0x72af830a
    ensures Next(Variant32(iv, k), 0x12dcbfdb, 0xe2e2c38e, 0xd3b7973b, 0x0a8b3996)
         == 0x9409e33e
    ensures Next(Variant32(iv, k), 0xe2e2c38e, 0xc8215c1a, 0x93f5997f, 0x72af830a)
         == 0x24641522
  {
  }

  lemma Sums32At40(iv: seq<bv32>, k: seq<bv32>)
    ensures Next(Variant32(iv, k), 0xc8215c1a, 0xb73679a2, 0x3b68ba73, 0x9409e33e)
         == 0x9f47bf94
    ensures Next(Variant32(iv, k), 0xb73679a2, 0xe5bc3909, 0xaff4ffc1, 0x24641522)
         == 0xf0a64f5a
    ensures Next(Variant32(iv, k), 0xe5bc3909, 0x32663c5b, 0xf10a5c62, 0x9f47bf94)
         == 0x3e246a79
    ensures Next(Variant32(iv, k), 0x32663c5b, 0x9d209d67, 0x0a8b3996, 0xf0a64f5a)
         == 0x27333ba3
    ensures Next(Variant32(iv, k), 0x9d209d67, 0xec8726cb, 0x72af830a, 0x3e246a79)
         == 0x0c4763f2
    ensures Next(Variant32(iv, k), 0xec8726cb, 0x702138a4, 0x9409e33e, 0x27333ba3)
         == 0x840abf27
    ensures Next(Variant32(iv, k), 0x702138a4, 0xd3b7973b, 0x24641522, 0x0c4763f2)
         == 0x7a290d5d
    ensures Next(Variant32(iv, k), 0xd3b7973b, 0x93f5997f, 0x9f47bf94, 0x840abf27)
         == 0x065c43da
  {
  }

  lemma Sums32At48(iv: seq<bv32>, k: seq<bv32>)
    ensures Next(Variant32(iv, k), 0x93f5997f, 0x3b68ba73, 0xf0a64f5a, 0x7a290d5d)
         == 0xfb3e89cb
    ensures Next(Variant32(iv, k), 0x3b68ba73, 0xaff4ffc1, 0x3e246a79, 0x065c43da)
         == 0xcc7617db
    ensures Next(Variant32(iv, k), 0xaff4ffc1, 0xf10a5c62, 0x27333ba3, 0xfb3e89cb)
         == 0xb9e66c34
    ensures Next(Variant32(iv, k), 0xf10a5c62, 0x0a8b3996, 0x0c4763f2, 0xcc7617db)
         == 0xa9993667
    ensures Next(Variant32(iv, k), 0x0a8b3996, 0x72af830a, 0x840abf27, 0xb9e66c34)
         == 0x84badedd
    ensures Next(Variant32(iv, k), 0x72af830a, 0x9409e33e, 0x7a290d5d, 0xa9993667)
         == 0xc21462bc
    ensures Next(Variant32(iv, k), 0x9409e33e, 0x24641522, 0x065c43da, 0x84badedd)
         == 0x1487472c
    ensures Next(Variant32(iv, k), 0x24641522, 0x9f47bf94, 0xfb3e89cb, 0xc21462bc)
         == 0xb20f7a99
  {
  }

  lemma Sums32At56(iv: seq<bv32>, k: seq<bv32>)
    ensures Next(Variant32(iv, k), 0x9f47bf94, 0xf0a64f5a, 0xcc7617db, 0x1487472c)
         == 0xef57b9cd
    ensures Next(Variant32(iv, k), 0xf0a64f5a, 0x3e246a79, 0xb9e66c34, 0xb20f7a99)
         == 0xebe6b238
    ensures Next(Variant32(iv, k), 0x3e246a79, 0x27333ba3, 0xa9993667, 0xef57b9cd)
         == 0x9fe3095e
    ensures Next(Variant32(iv, k), 0x27333ba3, 0x0c4763f2, 0x84badedd, 0xebe6b238)
         == 0x78bc8d4b
    ensures Next(Variant32(iv, k), 0x0c4763f2, 0x840abf27, 0xc21462bc, 0x9fe3095e)
         == 0xa43fcf15
    ensures Next(Variant32(iv, k), 0x840abf27, 0x7a290d5d, 0x1487472c, 0x78bc8d4b)
         == 0x668b2ff8
    ensures Next(Variant32(iv, k), 0x7a290d5d, 0x065c43da, 0xb20f7a99, 0xa43fcf15)
         == 0xeeaba2cc
    ensures Next(Variant32(iv, k), 0x065c43da, 0xfb3e89cb, 0xef57b9cd, 0x668b2ff8)
         == 0x12b1edeb
  {
  }

  const S32_0: Working<bv32> :=
    Working(0x6a09e667, 0xbb67ae85, 0x3c6ef372, 0xa54ff53a,
              0x510e527f, 0x9b05688c, 0x1f83d9ab, 0x5be0cd19)
  const S32_1: Working<bv32> :=
    Working(0x5d6aebcd, 0x6a09e667, 0xbb67ae85, 0x3c6ef372,
              0xfa2a4622, 0x510e527f, 0x9b05688c, 0x1f83d9ab)
  const S32_2: Working<bv32> :=
    Working(0x5a6ad9ad, 0x5d6aebcd, 0x6a09e667, 0xbb67ae85,
              0x78ce7989, 0xfa2a4622, 0x510e527f, 0x9b05688c)
  const S32_3: Working<bv32> :=
    Working(0xc8c347a7, 0x5a6ad9ad, 0x5d6aebcd, 0x6a09e667,
              0xf92939eb, 0x78ce7989, 0xfa2a4622, 0x510e527f)
  const S32_4: Working<bv32> :=
    Working(0xd550f666, 0xc8c347a7, 0x5a6ad9ad, 0x5d6aebcd,
              0x24e00850, 0xf92939eb, 0x78ce7989, 0xfa2a4622)
  const S32_5: Working<bv32> :=
    Working(0x04409a6a, 0xd550f666, 0xc8c347a7, 0x5a6ad9ad,
              0x43ada245, 0x24e00850, 0xf92939eb, 0x78ce7989)
  const S32_6: Working<bv32> :=
    Working(0x2b4209f5, 0x04409a6a, 0xd550f666, 0xc8c347a7,
              0x714260ad, 0x43ada245, 0x24e00850, 0xf92939eb)
  const S32_7: Working<bv32> :=
    Working(0xe5030380, 0x2b4209f5, 0x04409a6a, 0xd550f666,
              0x9b27a401, 0x714260ad, 0x43ada245, 0x24e00850)
  const S32_8: Working<bv32> :=
    Working(0x85a07b5f, 0xe5030380, 0x2b4209f5, 0x04409a6a,
              0x0c657a79, 0x9b27a401, 0x714260ad, 0x43ada245)
  const S32_9: Working<bv32> :=
    Working(0x8e04ecb9, 0x85a07b5f, 0xe5030380, 0x2b4209f5,
              0x32ca2d8c, 0x0c657a79, 0x9b27a401, 0x714260ad)
  const S32_10: Working<bv32> :=
    Working(0x8c87346b, 0x8e04ecb9, 0x85a07b5f, 0xe5030380,
              0x1cc92596, 0x32ca2d8c, 0x0c657a79, 0x9b27a401)
  const S32_11: Working<bv32> :=
    Working(0x4798a3f4, 0x8c87346b, 0x8e04ecb9, 0x85a07b5f,
              0x436b23e8, 0x1cc92596, 0x32ca2d8c, 0x0c657a79)
  const S32_12: Working<bv32> :=
    Working(0xf71fc5a9, 0x4798a3f4, 0x8c87346b, 0x8e04ecb9,
              0x816fd6e9, 0x436b23e8, 0x1cc92596, 0x32ca2d8c)
  const S32_13: Working<bv32> :=
    Working(0x87912990, 0xf71fc5a9, 0x4798a3f4, 0x8c87346b,
              0x1e578218, 0x816fd6e9, 0x436b23e8, 0x1cc92596)
  const S32_14: Working<bv32> :=
    Working(0xd932eb16, 0x87912990, 0xf71fc5a9, 0x4798a3f4,
              0x745a48de, 0x1e578218, 0x816fd6e9, 0x436b23e8)
  const S32_15: Working<bv32> :=
    Working(0xc0645fde, 0xd932eb16, 0x87912990, 0xf71fc5a9,
              0x0b92f20c, 0x745a48de, 0x1e578218, 0x816fd6e9)
  const S32_16: Working<bv32> :=
    Working(0xb0fa238e, 0xc0645fde, 0xd932eb16, 0x87912990,
              0x07590dcd, 0x0b92f20c, 0x745a48de, 0x1e578218)
  const S32_17: Working<bv32> :=
    Working(0x21da9a9b, 0xb0fa238e, 0xc0645fde, 0xd932eb16,
              0x8034229c, 0x07590dcd, 0x0b92f20c, 0x745a48de)
  const S32_18: Working<bv32> :=
    Working(0xc2fbd9d1, 0x21da9a9b, 0xb0fa238e, 0xc0645fde,
              0x846ee454, 0x8034229c, 0x07590dcd, 0x0b92f20c)
  const S32_19: Working<bv32> :=
    Working(0xfe777bbf, 0xc2fbd9d1, 0x21da9a9b, 0xb0fa238e,
              0xcc899961, 0x846ee454, 0x8034229c, 0x07590dcd)
  const S32_20: Working<bv32> :=
    Working(0xe1f20c33, 0xfe777bbf, 0xc2fbd9d1, 0x21da9a9b,
              0xb0638179, 0xcc899961, 0x846ee454, 0x8034229c)
  const S32_21: Working<bv32> :=
    Working(0x9dc68b63, 0xe1f20c33, 0xfe777bbf, 0xc2fbd9d1,
              0x8ada8930, 0xb0638179, 0xcc899961, 0x846ee454)
  const S32_22: Working<bv32> :=
    Working(0xc2606d6d, 0x9dc68b63, 0xe1f20c33, 0xfe777bbf,
              0xe1257970, 0x8ada8930, 0xb0638179, 0xcc899961)
  const S32_23: Working<bv32> :=
    Working(0xa7a3623f, 0xc2606d6d, 0x9dc68b63, 0xe1f20c33,
              0x49f5114a, 0xe1257970, 0x8ada8930, 0xb0638179)
  const S32_24: Working<bv32> :=
    Working(0xc5d53d8d, 0xa7a3623f, 0xc2606d6d, 0x9dc68b63,
              0xaa47c347, 0x49f5114a, 0xe1257970, 0x8ada8930)
  const S32_25: Working<bv32> :=
    Working(0x1c2c2838, 0xc5d53d8d, 0xa7a3623f, 0xc2606d6d,
              0x2823ef91, 0xaa47c347, 0x49f5114a, 0xe1257970)
  const S32_26: Working<bv32> :=
    Working(0xcde8037d, 0x1c2c2838, 0xc5d53d8d, 0xa7a3623f,
              0x14383d8e, 0x2823ef91, 0xaa47c347, 0x49f5114a)
  const S32_27: Working<bv32> :=
    Working(0xb62ec4bc, 0xcde8037d, 0x1c2c2838, 0xc5d53d8d,
              0xc74c6516, 0x14383d8e, 0x2823ef91, 0xaa47c347)
  const S32_28: Working<bv32> :=
    Working(0x77d37528, 0xb62ec4bc, 0xcde8037d, 0x1c2c2838,
              0xedffbff8, 0xc74c6516, 0x14383d8e, 0x2823ef91)
  const S32_29: Working<bv32> :=
    Working(0x363482c9, 0x77d37528, 0xb62ec4bc, 0xcde8037d,
              0x6112a3b7, 0xedffbff8, 0xc74c6516, 0x14383d8e)
  const S32_30: Working<bv32> :=
    Working(0xa0060b30, 0x363482c9, 0x77d37528, 0xb62ec4bc,
              0xade79437, 0x6112a3b7, 0xedffbff8, 0xc74c6516)
  const S32_31: Working<bv32> :=
    Working(0xea992a22, 0xa0060b30, 0x363482c9, 0x77d37528,
              0x0109ab3a, 0xade79437, 0x6112a3b7, 0xedffbff8)
  const S32_32: Working<bv32> :=
    Working(0x73b33bf5, 0xea992a22, 0xa0060b30, 0x363482c9,
              0xba591112, 0x0109ab3a, 0xade79437, 0x6112a3b7)
  const S32_33: Working<bv32> :=
    Working(0x98e12507, 0x73b33bf5, 0xea992a22, 0xa0060b30,
              0x9cd9f5f6, 0xba591112, 0x0109ab3a, 0xade79437)
  const S32_34: Working<bv32> :=
    Working(0xfe604df5, 0x98e12507, 0x73b33bf5, 0xea992a22,
              0x59249dd3, 0x9cd9f5f6, 0xba591112, 0x0109ab3a)
  const S32_35: Working<bv32> :=
    Working(0xa9a7738c, 0xfe604df5, 0x98e12507, 0x73b33bf5,
              0x085f3833, 0x59249dd3, 0x9cd9f5f6, 0xba591112)
  const S32_36: Working<bv32> :=
    Working(0x65a0cfe4, 0xa9a7738c, 0xfe604df5, 0x98e12507,
              0xf4b002d6, 0x085f3833, 0x59249dd3, 0x9cd9f5f6)
  const S32_37: Working<bv32> :=
    Working(0x41a65cb1, 0x65a0cfe4, 0xa9a7738c, 0xfe604df5,
              0x0772a26b, 0xf4b002d6, 0x085f3833, 0x59249dd3)
  const S32_38: Working<bv32> :=
    Working(0x34df1604, 0x41a65cb1, 0x65a0cfe4, 0xa9a7738c,
              0xa507a53d, 0x0772a26b, 0xf4b002d6, 0x085f3833)
  const S32_39: Working<bv32> :=
    Working(0x6dc57a8a, 0x34df1604, 0x41a65cb1, 0x65a0cfe4,
              0xf0781bc8, 0xa507a53d, 0x0772a26b, 0xf4b002d6)
  const S32_40: Working<bv32> :=
    Working(0x79ea687a, 0x6dc57a8a, 0x34df1604, 0x41a65cb1,
              0x1efbc0a0, 0xf0781bc8, 0xa507a53d, 0x0772a26b)
  const S32_41: Working<bv32> :=
    Working(0xd6670766, 0x79ea687a, 0x6dc57a8a, 0x34df1604,
              0x26352d63, 0x1efbc0a0, 0xf0781bc8, 0xa507a53d)
  const S32_42: Working<bv32> :=
    Working(0xdf46652f, 0xd6670766, 0x79ea687a, 0x6dc57a8a,
              0x838b2711, 0x26352d63, 0x1efbc0a0, 0xf0781bc8)
  const S32_43: Working<bv32> :=
    Working(0x17aa0dfe, 0xdf46652f, 0xd6670766, 0x79ea687a,
              0xdecd4715, 0x838b2711, 0x26352d63, 0x1efbc0a0)
  const S32_44: Working<bv32> :=
    Working(0x9d4baf93, 0x17aa0dfe, 0xdf46652f, 0xd6670766,
              0xfda24c2e, 0xdecd4715, 0x838b2711, 0x26352d63)
  const S32_45: Working<bv32> :=
    Working(0x26628815, 0x9d4baf93, 0x17aa0dfe, 0xdf46652f,
              0xa80f11f0, 0xfda24c2e, 0xdecd4715, 0x838b2711)
  const S32_46: Working<bv32> :=
    Working(0x72ab4b91, 0x26628815, 0x9d4baf93, 0x17aa0dfe,
              0xb7755da1, 0xa80f11f0, 0xfda24c2e, 0xdecd4715)
  const S32_47: Working<bv32> :=
    Working(0xa14c14b0, 0x72ab4b91, 0x26628815, 0x9d4baf93,
              0xd57b94a9, 0xb7755da1, 0xa80f11f0, 0xfda24c2e)
  const S32_48: Working<bv32> :=
    Working(0x4172328d, 0xa14c14b0, 0x72ab4b91, 0x26628815,
              0xfecf0bc6, 0xd57b94a9, 0xb7755da1, 0xa80f11f0)
  const S32_49: Working<bv32> :=
    Working(0x05757ceb, 0x4172328d, 0xa14c14b0, 0x72ab4b91,
              0xbd714038, 0xfecf0bc6, 0xd57b94a9, 0xb7755da1)
  const S32_50: Working<bv32> :=
    Working(0xf11bfaa8, 0x05757ceb, 0x4172328d, 0xa14c14b0,
              0x6e5c390c, 0xbd714038, 0xfecf0bc6, 0xd57b94a9)
  const S32_51: Working<bv32> :=
    Working(0x7a0508a1, 0xf11bfaa8, 0x05757ceb, 0x4172328d,
              0x52f1ccf7, 0x6e5c390c, 0xbd714038, 0xfecf0bc6)
  const S32_52: Working<bv32> :=
    Working(0x886e7a22, 0x7a0508a1, 0xf11bfaa8, 0x05757ceb,
              0x49231c1e, 0x52f1ccf7, 0x6e5c390c, 0xbd714038)
  const S32_53: Working<bv32> :=
    Working(0x101fd28f, 0x886e7a22, 0x7a0508a1, 0xf11bfaa8,
              0x529e7d00, 0x49231c1e, 0x52f1ccf7, 0x6e5c390c)
  const S32_54: Working<bv32> :=
    Working(0xf5702fdb, 0x101fd28f, 0x886e7a22, 0x7a0508a1,
              0x9f4787c3, 0x529e7d00, 0x49231c1e, 0x52f1ccf7)
  const S32_55: Working<bv32> :=
    Working(0x3ec45cdb, 0xf5702fdb, 0x101fd28f, 0x886e7a22,
              0xe50e1b4f, 0x9f4787c3, 0x529e7d00, 0x49231c1e)
  const S32_56: Working<bv32> :=
    Working(0x38cc9913, 0x3ec45cdb, 0xf5702fdb, 0x101fd28f,
              0x54cb266b, 0xe50e1b4f, 0x9f4787c3, 0x529e7d00)
  const S32_57: Working<bv32> :=
    Working(0xfcd1887b, 0x38cc9913, 0x3ec45cdb, 0xf5702fdb,
              0x9b5e906c, 0x54cb266b, 0xe50e1b4f, 0x9f4787c3)
  const S32_58: Working<bv32> :=
    Working(0xc062d46f, 0xfcd1887b, 0x38cc9913, 0x3ec45cdb,
              0x7e44008e, 0x9b5e906c, 0x54cb266b, 0xe50e1b4f)
  const S32_59: Working<bv32> :=
    Working(0xffb70472, 0xc062d46f, 0xfcd1887b, 0x38cc9913,
              0x6d83bfc6, 0x7e44008e, 0x9b5e906c, 0x54cb266b)
  const S32_60: Working<bv32> :=
    Working(0xb6ae8fff, 0xffb70472, 0xc062d46f, 0xfcd1887b,
              0xb21bad3d, 0x6d83bfc6, 0x7e44008e, 0x9b5e906c)
  const S32_61: Working<bv32> :=
    Working(0xb85e2ce9, 0xb6ae8fff, 0xffb70472, 0xc062d46f,
              0x961f4894, 0xb21bad3d, 0x6d83bfc6, 0x7e44008e)
  const S32_62: Working<bv32> :=
    Working(0x04d24d6c, 0xb85e2ce9, 0xb6ae8fff, 0xffb70472,
              0x948d25b6, 0x961f4894, 0xb21bad3d, 0x6d83bfc6)
  const S32_63: Working<bv32> :=
    Working(0xd39a2165, 0x04d24d6c, 0xb85e2ce9, 0xb6ae8fff,
              0xfb121210, 0x948d25b6, 0x961f4894, 0xb21bad3d)
  const S32_64: Working<bv32> :=
    Working(0x506e3058, 0xd39a2165, 0x04d24d6c, 0xb85e2ce9,
              0x5ef50f24, 0xfb121210, 0x948d25b6, 0x961f4894)

  lemma Turns32At0(iv: seq<bv32>, k: seq<bv32>)
    ensures Round(Variant32(iv, k), S32_0, 0x428a2f98, 0x61626380) == S32_1
    ensures Round(Variant32(iv, k), S32_1, 0x71374491, 0x00000000) == S32_2
    ensures Round(Variant32(iv, k), S32_2, 0xb5c0fbcf, 0x00000000) == S32_3
    ensures Round(Variant32(iv, k), S32_3, 0xe9b5dba5, 0x00000000) == S32_4
  {
  }

  lemma Turns32At4(iv: seq<bv32>, k: seq<bv32>)
    ensures Round(Variant32(iv, k), S32_4, 0x3956c25b, 0x00000000) == S32_5
    ensures Round(Variant32(iv, k), S32_5, 0x59f111f1, 0x00000000) == S32_6
    ensures Round(Variant32(iv, k), S32_6, 0x923f82a4, 0x00000000) == S32_7
    ensures Round(Variant32(iv, k), S32_7, 0xab1c5ed5, 0x00000000) == S32_8
  {
  }

  lemma Turns32At8(iv: seq<bv32>, k: seq<bv32>)
    ensures Round(Variant32(iv, k), S32_8, 0xd807aa98, 0x00000000) == S32_9
    ensures Round(Variant32(iv, k), S32_9, 0x12835b01, 0x00000000) == S32_10
    ensures Round(Variant32(iv, k), S32_10, 0x243185be, 0x00000000) == S32_11
    ensures Round(Variant32(iv, k), S32_11, 0x550c7dc3, 0x00000000) == S32_12
  {
  }

  lemma Turns32At12(iv: seq<bv32>, k: seq<bv32>)
    ensures Round(Variant32(iv, k), S32_12, 0x72be5d74, 0x00000000) == S32_13
    ensures Round(Variant32(iv, k), S32_13, 0x80deb1fe, 0x00000000) == S32_14
    ensures Round(Variant32(iv, k), S32_14, 0x9bdc06a7, 0x00000000) == S32_15
    ensures Round(Variant32(iv, k), S32_15, 0xc19bf174, 0x00000018) == S32_16
  {
  }

  lemma Turns32At16(iv: seq<bv32>, k: seq<bv32>)
    ensures Round(Variant32(iv, k), S32_16, 0xe49b69c1, 0x61626380) == S32_17
    ensures Round(Variant32(iv, k), S32_17, 0xefbe4786, 0x000f0000) == S32_18
    ensures Round(Variant32(iv, k), S32_18, 0x0fc19dc6, 0x7da86405) == S32_19
    ensures Round(Variant32(iv, k), S32_19, 0x240ca1cc, 0x600003c6) == S32_20
  {
  }

  lemma Turns32At20(iv: seq<bv32>, k: seq<bv32>)
    ensures Round(Variant32(iv, k), S32_20, 0x2de92c6f, 0x3e9d7b78) == S32_21
    ensures Round(Variant32(iv, k), S32_21, 0x4a7484aa, 0x0183fc00) == S32_22
    ensures Round(Variant32(iv, k), S32_22, 0x5cb0a9dc, 0x12dcbfdb) == S32_23
    ensures Round(Variant32(iv, k), S32_23, 0x76f988da, 0xe2e2c38e) == S32_24
  {
  }

  lemma Turns32At24(iv: seq<bv32>, k: seq<bv32>)
    ensures Round(Variant32(iv, k), S32_24, 0x983e5152, 0xc8215c1a) == S32_25
    ensures Round(Variant32(iv, k), S32_25, 0xa831c66d, 0xb73679a2) == S32_26
    ensures Round(Variant32(iv, k), S32_26, 0xb00327c8, 0xe5bc3909) == S32_27
    ensures Round(Variant32(iv, k), S32_27, 0xbf597fc7, 0x32663c5b) == S32_28
  {
  }

  lemma Turns32At28(iv: seq<bv32>, k: seq<bv32>)
    ensures Round(Variant32(iv, k), S32_28, 0xc6e00bf3, 0x9d209d67) == S32_29
    ensures Round(Variant32(iv, k), S32_29, 0xd5a79147, 0xec8726cb) == S32_30
    ensures Round(Variant32(iv, k), S32_30, 0x06ca6351, 0x702138a4) == S32_31
    ensures Round(Variant32(iv, k), S32_31, 0x14292967, 0xd3b7973b) == S32_32
  {
  }

  lemma Turns32At32(iv: seq<bv32>, k: seq<bv32>)
    ensures Round(Variant32(iv, k), S32_32, 0x27b70a85, 0x93f5997f) == S32_33
    ensures Round(Variant32(iv, k), S32_33, 0x2e1b2138, 0x3b68ba73) == S32_34
    ensures Round(Variant32(iv, k), S32_34, 0x4d2c6dfc, 0xaff4ffc1) == S32_35
    ensures Round(Variant32(iv, k), S32_35, 0x53380d13, 0xf10a5c62) == S32_36
  {
  }

  lemma Turns32At36(iv: seq<bv32>, k: seq<bv32>)
    ensures Round(Variant32(iv, k), S32_36, 0x650a7354, 0x0a8b3996) == S32_37
    ensures Round(Variant32(iv, k), S32_37, 0x766a0abb, 0x72af830a) == S32_38
    ensures Round(Variant32(iv, k), S32_38, 0x81c2c92e, 0x9409e33e) == S32_39
    ensures Round(Variant32(iv, k), S32_39, 0x92722c85, 0x24641522) == S32_40
  {
  }

  lemma Turns32At40(iv: seq<bv32>, k: seq<bv32>)
    ensures Round(Variant32(iv, k), S32_40, 0xa2bfe8a1, 0x9f47bf94) == S32_41
    ensures Round(Variant32(iv, k), S32_41, 0xa81a664b, 0xf0a64f5a) == S32_42
    ensures Round(Variant32(iv, k), S32_42, 0xc24b8b70, 0x3e246a79) == S32_43
    ensures Round(Variant32(iv, k), S32_43, 0xc76c51a3, 0x27333ba3) == S32_44
  {
  }

  lemma Turns32At44(iv: seq<bv32>, k: seq<bv32>)
    ensures Round(Variant32(iv, k), S32_44, 0xd192e819, 0x0c4763f2) == S32_45
    ensures Round(Variant32(iv, k), S32_45, 0xd6990624, 0x840abf27) == S32_46
    ensures Round(Variant32(iv, k), S32_46, 0xf40e3585, 0x7a290d5d) == S32_47
    ensures Round(Variant32(iv, k), S32_47, 0x106aa070, 0x065c43da) == S32_48
  {
  }

  lemma Turns32At48(iv: seq<bv32>, k: seq<bv32>)
    ensures Round(Variant32(iv, k), S32_48, 0x19a4c116, 0xfb3e89cb) == S32_49
    ensures Round(Variant32(iv, k), S32_49, 0x1e376c08, 0xcc7617db) == S32_50
    ensures Round(Variant32(iv, k), S32_50, 0x2748774c, 0xb9e66c34) == S32_51
    ensures Round(Variant32(iv, k), S32_51, 0x34b0bcb5, 0xa9993667) == S32_52
  {
  }

  lemma Turns32At52(iv: seq<bv32>, k: seq<bv32>)
    ensures Round(Variant32(iv, k), S32_52, 0x391c0cb3, 0x84badedd) == S32_53
    ensures Round(Variant32(iv, k), S32_53, 0x4ed8aa4a, 0xc21462bc) == S32_54
    ensures Round(Variant32(iv, k), S32_54, 0x5b9cca4f, 0x1487472c) == S32_55
    ensures Round(Variant32(iv, k), S32_55, 0x682e6ff3, 0xb20f7a99) == S32_56
  {
  }

  lemma Turns32At56(iv: seq<bv32>, k: seq<bv32>)
    ensures Round(Variant32(iv, k), S32_56, 0x748f82ee, 0xef57b9cd) == S32_57
    ensures Round(Variant32(iv, k), S32_57, 0x78a5636f, 0xebe6b238) == S32_58
    ensures Round(Variant32(iv, k), S32_58, 0x84c87814, 0x9fe3095e) == S32_59
    ensures Round(Variant32(iv, k), S32_59, 0x8cc70208, 0x78bc8d4b) == S32_60
  {
  }

  lemma Turns32At60(iv: seq<bv32>, k: seq<bv32>)
    ensures Round(Variant32(iv, k), S32_60, 0x90befffa, 0xa43fcf15) == S32_61
    ensures Round(Variant32(iv, k), S32_61, 0xa4506ceb, 0x668b2ff8) == S32_62
    ensures Round(Variant32(iv, k), S32_62, 0xbef9a3f7, 0xeeaba2cc) == S32_63
    ensures Round(Variant32(iv, k), S32_63, 0xc67178f2, 0x12b1edeb) == S32_64
  {
  }

  lemma Known32At16()
    ensures |BlockOf(SHA256, ABC)| == 64 && Known(SHA256, BlockOf(SHA256, ABC), WORDS32, 16)
  {
    VariantsWellFormed();
    Words32At0();
    Words32At8();
    FirstWord32();
    ZeroWord32(IV256, K256);
    AbcBlock(SHA256, 0);
    forall t | 0 <= t < 16
      ensures Schedule(SHA256, BlockOf(SHA256, ABC), t) == WORDS32[t]
    {
      FirstWords(SHA256, t);
      Sixteen32(t);
    }
  }

  lemma Sixteen32(t: nat)
    requires t < 16
    ensures |WORDS32| == 64
    ensures WORDS32[t] == if t == 0 then 0x61626380 else if t == 15 then 0x00000018 else 0
  {
    Words32At0();
    Words32At8();
  }

  lemma ZeroWord32(iv: seq<bv32>, k: seq<bv32>)
    ensures Variant32(iv, k).zero == 0 && Variant32(iv, k).shiftIn(0, 0) == 0 && Variant32(iv, k).shiftIn(0, 24) == 0x00000018
  {
  }

  lemma FirstWord32()
    ensures Load(SHA256, ABC + [0x80] + ZeroBytes(0)) == 0x61626380
  {
    Shifts32(IV256, K256);
    var w0: seq<byte> := [];
    var w1 := w0 + [0x61];
    LoadNextByte(SHA256, w0, 0x61);
    var w2 := w1 + [0x62];
    LoadNextByte(SHA256, w1, 0x62);
    var w3 := w2 + [0x63];
    LoadNextByte(SHA256, w2, 0x63);
    var w4 := w3 + [0x80];
    LoadNextByte(SHA256, w3, 0x80);
    assert w4 == ABC + [0x80] + ZeroBytes(0);
  }

  lemma Shifts32(iv: seq<bv32>, k: seq<bv32>)
    ensures Variant32(iv, k).shiftIn(0x00000000, 0x61) == 0x00000061
    ensures Variant32(iv, k).shiftIn(0x00000061, 0x62) == 0x00006162
    ensures Variant32(iv, k).shiftIn(0x00006162, 0x63) == 0x00616263
    ensures Variant32(iv, k).shiftIn(0x00616263, 0x80) == 0x61626380
  {
  }

  lemma Known32At24(block: seq<byte>)
    requires Known(SHA256, block, WORDS32, 16)
    ensures Known(SHA256, block, WORDS32, 24)
  {
    Words32At0();
    Words32At8();
    Words32At16();
    Sums32At16(IV256, K256);
    WordStep(SHA256, block, WORDS32, 16);
    WordStep(SHA256, block, WORDS32, 17);
    WordStep(SHA256, block, WORDS32, 18);
    WordStep(SHA256, block, WORDS32, 19);
    WordStep(SHA256, block, WORDS32, 20);
    WordStep(SHA256, block, WORDS32, 21);
    WordStep(SHA256, block, WORDS32, 22);
    WordStep(SHA256, block, WORDS32, 23);
  }

  lemma Known32At32(block: seq<byte>)
    requires Known(SHA256, block, WORDS32, 24)
    ensures Known(SHA256, block, WORDS32, 32)
  {
    Words32At8();
    Words32At16();
    Words32At24();
    Sums32At24(IV256, K256);
    WordStep(SHA256, block, WORDS32, 24);
    WordStep(SHA256, block, WORDS32, 25);
    WordStep(SHA256, block, WORDS32, 26);
    WordStep(SHA256, block, WORDS32, 27);
    WordStep(SHA256, block, WORDS32, 28);
    WordStep(SHA256, block, WORDS32, 29);
    WordStep(SHA256, block, WORDS32, 30);
    WordStep(SHA256, block, WORDS32, 31);
  }

  lemma Known32At40(block: seq<byte>)
    requires Known(SHA256, block, WORDS32, 32)
    ensures Known(SHA256, block, WORDS32, 40)
  {
    Words32At16();
    Words32At24();
    Words32At32();
    Sums32At32(IV256, K256);
    WordStep(SHA256, block, WORDS32, 32);
    WordStep(SHA256, block, WORDS32, 33);
    WordStep(SHA256, block, WORDS32, 34);
    WordStep(SHA256, block, WORDS32, 35);
    WordStep(SHA256, block, WORDS32, 36);
    WordStep(SHA256, block, WORDS32, 37);
    WordStep(SHA256, block, WORDS32, 38);
    WordStep(SHA256, block, WORDS32, 39);
  }

  lemma Known32At48(block: seq<byte>)
    requires Known(SHA256, block, WORDS32, 40)
    ensures Known(SHA256, block, WORDS32, 48)
  {
    Words32At24();
    Words32At32();
    Words32At40();
    Sums32At40(IV256, K256);
    WordStep(SHA256, block, WORDS32, 40);
    WordStep(SHA256, block, WORDS32, 41);
    WordStep(SHA256, block, WORDS32, 42);
    WordStep(SHA256, block, WORDS32, 43);
    WordStep(SHA256, block, WORDS32, 44);
    WordStep(SHA256, block, WORDS32, 45);
    WordStep(SHA256, block, WORDS32, 46);
    WordStep(SHA256, block, WORDS32, 47);
  }

  lemma Known32At56(block: seq<byte>)
    requires Known(SHA256, block, WORDS32, 48)
    ensures Known(SHA256, block, WORDS32, 56)
  {
    Words32At32();
    Words32At40();
    Words32At48();
    Sums32At48(IV256, K256);
    WordStep(SHA256, block, WORDS32, 48);
    WordStep(SHA256, block, WORDS32, 49);
    WordStep(SHA256, block, WORDS32, 50);
    WordStep(SHA256, block, WORDS32, 51);
    WordStep(SHA256, block, WORDS32, 52);
    WordStep(SHA256, block, WORDS32, 53);
    WordStep(SHA256, block, WORDS32, 54);
    WordStep(SHA256, block, WORDS32, 55);
  }

  lemma Known32At64(block: seq<byte>)
    requires Known(SHA256, block, WORDS32, 56)
    ensures Known(SHA256, block, WORDS32, 64)
  {
    Words32At40();
    Words32At48();
    Words32At56();
    Sums32At56(IV256, K256);
    WordStep(SHA256, block, WORDS32, 56);
    WordStep(SHA256, block, WORDS32, 57);
    WordStep(SHA256, block, WORDS32, 58);
    WordStep(SHA256, block, WORDS32, 59);
    WordStep(SHA256, block, WORDS32, 60);
    WordStep(SHA256, block, WORDS32, 61);
    WordStep(SHA256, block, WORDS32, 62);
    WordStep(SHA256, block, WORDS32, 63);
  }

  lemma KnownWords32()
    ensures |BlockOf(SHA256, ABC)| == 64 && Known(SHA256, BlockOf(SHA256, ABC), WORDS32, 64)
  {
    Known32At16();
    Known32At24(BlockOf(SHA256, ABC));
    Known32At32(BlockOf(SHA256, ABC));
    Known32At40(BlockOf(SHA256, ABC));
    Known32At48(BlockOf(SHA256, ABC));
    Known32At56(BlockOf(SHA256, ABC));
    Known32At64(BlockOf(SHA256, ABC));
  }

  lemma Rounds32At4(block: seq<byte>)
    requires Known(SHA256, block, WORDS32, 64) && |K256| == 64 && |WORDS32| == 64
    requires Rounds(SHA256, S32_0, block, 0) == S32_0
    ensures Rounds(SHA256, S32_0, block, 4) == S32_4
  {
    Words32At0();
    Constants32At0();
    Turns32At0(IV256, K256);
    RoundStep(SHA256, S32_0, block, WORDS32, 0, S32_0, S32_1);
    RoundStep(SHA256, S32_0, block, WORDS32, 1, S32_1, S32_2);
    RoundStep(SHA256, S32_0, block, WORDS32, 2, S32_2, S32_3);
    RoundStep(SHA256, S32_0, block, WORDS32, 3, S32_3, S32_4);
  }

  lemma Rounds32At8(block: seq<byte>)
    requires Known(SHA256, block, WORDS32, 64) && |K256| == 64 && |WORDS32| == 64
    requires Rounds(SHA256, S32_0, block, 4) == S32_4
    ensures Rounds(SHA256, S32_0, block, 8) == S32_8
  {
    Words32At0();
    Constants32At0();
    Turns32At4(IV256, K256);
    RoundStep(SHA256, S32_0, block, WORDS32, 4, S32_4, S32_5);
    RoundStep(SHA256, S32_0, block, WORDS32, 5, S32_5, S32_6);
    RoundStep(SHA256, S32_0, block, WORDS32, 6, S32_6, S32_7);
    RoundStep(SHA256, S32_0, block, WORDS32, 7, S32_7, S32_8);
  }

  lemma Rounds32At12(block: seq<byte>)
    requires Known(SHA256, block, WORDS32, 64) && |K256| == 64 && |WORDS32| == 64
    requires Rounds(SHA256, S32_0, block, 8) == S32_8
    ensures Rounds(SHA256, S32_0, block, 12) == S32_12
  {
    Words32At8();
    Constants32At8();
    Turns32At8(IV256, K256);
    RoundStep(SHA256, S32_0, block, WORDS32, 8, S32_8, S32_9);
    RoundStep(SHA256, S32_0, block, WORDS32, 9, S32_9, S32_10);
    RoundStep(SHA256, S32_0, block, WORDS32, 10, S32_10, S32_11);
    RoundStep(SHA256, S32_0, block, WORDS32, 11, S32_11, S32_12);
  }

  lemma Rounds32At16(block: seq<byte>)
    requires Known(SHA256, block, WORDS32, 64) && |K256| == 64 && |WORDS32| == 64
    requires Rounds(SHA256, S32_0, block, 12) == S32_12
    ensures Rounds(SHA256, S32_0, block, 16) == S32_16
  {
    Words32At8();
    Constants32At8();
    Turns32At12(IV256, K256);
    RoundStep(SHA256, S32_0, block, WORDS32, 12, S32_12, S32_13);
    RoundStep(SHA256, S32_0, block, WORDS32, 13, S32_13, S32_14);
    RoundStep(SHA256, S32_0, block, WORDS32, 14, S32_14, S32_15);
    RoundStep(SHA256, S32_0, block, WORDS32, 15, S32_15, S32_16);
  }

  lemma Rounds32At20(block: seq<byte>)
    requires Known(SHA256, block, WORDS32, 64) && |K256| == 64 && |WORDS32| == 64
    requires Rounds(SHA256, S32_0, block, 16) == S32_16
    ensures Rounds(SHA256, S32_0, block, 20) == S32_20
  {
    Words32At16();
    Constants32At16();
    Turns32At16(IV256, K256);
    RoundStep(SHA256, S32_0, block, WORDS32, 16, S32_16, S32_17);
    RoundStep(SHA256, S32_0, block, WORDS32, 17, S32_17, S32_18);
    RoundStep(SHA256, S32_0, block, WORDS32, 18, S32_18, S32_19);
    RoundStep(SHA256, S32_0, block, WORDS32, 19, S32_19, S32_20);
  }

  lemma Rounds32At24(block: seq<byte>)
    requires Known(SHA256, block, WORDS32, 64) && |K256| == 64 && |WORDS32| == 64
    requires Rounds(SHA256, S32_0, block, 20) == S32_20
    ensures Rounds(SHA256, S32_0, block, 24) == S32_24
  {
    Words32At16();
    Constants32At16();
    Turns32At20(IV256, K256);
    RoundStep(SHA256, S32_0, block, WORDS32, 20, S32_20, S32_21);
    RoundStep(SHA256, S32_0, block, WORDS32, 21, S32_21, S32_22);
    RoundStep(SHA256, S32_0, block, WORDS32, 22, S32_22, S32_23);
    RoundStep(SHA256, S32_0, block, WORDS32, 23, S32_23, S32_24);
  }

  lemma Rounds32At28(block: seq<byte>)
    requires Known(SHA256, block, WORDS32, 64) && |K256| == 64 && |WORDS32| == 64
    requires Rounds(SHA256, S32_0, block, 24) == S32_24
    ensures Rounds(SHA256, S32_0, block, 28) == S32_28
  {
    Words32At24();
    Constants32At24();
    Turns32At24(IV256, K256);
    RoundStep(SHA256, S32_0, block, WORDS32, 24, S32_24, S32_25);
    RoundStep(SHA256, S32_0, block, WORDS32, 25, S32_25, S32_26);
    RoundStep(SHA256, S32_0, block, WORDS32, 26, S32_26, S32_27);
    RoundStep(SHA256, S32_0, block, WORDS32, 27, S32_27, S32_28);
  }

  lemma Rounds32At32(block: seq<byte>)
    requires Known(SHA256, block, WORDS32, 64) && |K256| == 64 && |WORDS32| == 64
    requires Rounds(SHA256, S32_0, block, 28) == S32_28
    ensures Rounds(SHA256, S32_0, block, 32) == S32_32
  {
    Words32At24();
    Constants32At24();
    Turns32At28(IV256, K256);
    RoundStep(SHA256, S32_0, block, WORDS32, 28, S32_28, S32_29);
    RoundStep(SHA256, S32_0, block, WORDS32, 29, S32_29, S32_30);
    RoundStep(SHA256, S32_0, block, WORDS32, 30, S32_30, S32_31);
    RoundStep(SHA256, S32_0, block, WORDS32, 31, S32_31, S32_32);
  }

  lemma Rounds32At36(block: seq<byte>)
    requires Known(SHA256, block, WORDS32, 64) && |K256| == 64 && |WORDS32| == 64
    requires Rounds(SHA256, S32_0, block, 32) == S32_32
    ensures Rounds(SHA256, S32_0, block, 36) == S32_36
  {
    Words32At32();
    Constants32At32();
    Turns32At32(IV256, K256);
    RoundStep(SHA256, S32_0, block, WORDS32, 32, S32_32, S32_33);
    RoundStep(SHA256, S32_0, block, WORDS32, 33, S32_33, S32_34);
    RoundStep(SHA256, S32_0, block, WORDS32, 34, S32_34, S32_35);
    RoundStep(SHA256, S32_0, block, WORDS32, 35, S32_35, S32_36);
  }

  lemma Rounds32At40(block: seq<byte>)
    requires Known(SHA256, block, WORDS32, 64) && |K256| == 64 && |WORDS32| == 64
    requires Rounds(SHA256, S32_0, block, 36) == S32_36
    ensures Rounds(SHA256, S32_0, block, 40) == S32_40
  {
    Words32At32();
    Constants32At32();
    Turns32At36(IV256, K256);
    RoundStep(SHA256, S32_0, block, WORDS32, 36, S32_36, S32_37);
    RoundStep(SHA256, S32_0, block, WORDS32, 37, S32_37, S32_38);
    RoundStep(SHA256, S32_0, block, WORDS32, 38, S32_38, S32_39);
    RoundStep(SHA256, S32_0, block, WORDS32, 39, S32_39, S32_40);
  }

  lemma Rounds32At44(block: seq<byte>)
    requires Known(SHA256, block, WORDS32, 64) && |K256| == 64 && |WORDS32| == 64
    requires Rounds(SHA256, S32_0, block, 40) == S32_40
    ensures Rounds(SHA256, S32_0, block, 44) == S32_44
  {
    Words32At40();
    Constants32At40();
    Turns32At40(IV256, K256);
    RoundStep(SHA256, S32_0, block, WORDS32, 40, S32_40, S32_41);
    RoundStep(SHA256, S32_0, block, WORDS32, 41, S32_41, S32_42);
    RoundStep(SHA256, S32_0, block, WORDS32, 42, S32_42, S32_43);
    RoundStep(SHA256, S32_0, block, WORDS32, 43, S32_43, S32_44);
  }

  lemma Rounds32At48(block: seq<byte>)
    requires Known(SHA256, block, WORDS32, 64) && |K256| == 64 && |WORDS32| == 64
    requires Rounds(SHA256, S32_0, block, 44) == S32_44
    ensures Rounds(SHA256, S32_0, block, 48) == S32_48
  {
    Words32At40();
    Constants32At40();
    Turns32At44(IV256, K256);
    RoundStep(SHA256, S32_0, block, WORDS32, 44, S32_44, S32_45);
    RoundStep(SHA256, S32_0, block, WORDS32, 45, S32_45, S32_46);
    RoundStep(SHA256, S32_0, block, WORDS32, 46, S32_46, S32_47);
    RoundStep(SHA256, S32_0, block, WORDS32, 47, S32_47, S32_48);
  }

  lemma Rounds32At52(block: seq<byte>)
    requires Known(SHA256, block, WORDS32, 64) && |K256| == 64 && |WORDS32| == 64
    requires Rounds(SHA256, S32_0, block, 48) == S32_48
    ensures Rounds(SHA256, S32_0, block, 52) == S32_52
  {
    Words32At48();
    Constants32At48();
    Turns32At48(IV256, K256);
    RoundStep(SHA256, S32_0, block, WORDS32, 48, S32_48, S32_49);
    RoundStep(SHA256, S32_0, block, WORDS32, 49, S32_49, S32_50);
    RoundStep(SHA256, S32_0, block, WORDS32, 50, S32_50, S32_51);
    RoundStep(SHA256, S32_0, block, WORDS32, 51, S32_51, S32_52);
  }

  lemma Rounds32At56(block: seq<byte>)
    requires Known(SHA256, block, WORDS32, 64) && |K256| == 64 && |WORDS32| == 64
    requires Rounds(SHA256, S32_0, block, 52) == S32_52
    ensures Rounds(SHA256, S32_0, block, 56) == S32_56
  {
    Words32At48();
    Constants32At48();
    Turns32At52(IV256, K256);
    RoundStep(SHA256, S32_0, block, WORDS32, 52, S32_52, S32_53);
    RoundStep(SHA256, S32_0, block, WORDS32, 53, S32_53, S32_54);
    RoundStep(SHA256, S32_0, block, WORDS32, 54, S32_54, S32_55);
    RoundStep(SHA256, S32_0, block, WORDS32, 55, S32_55, S32_56);
  }

  lemma Rounds32At60(block: seq<byte>)
    requires Known(SHA256, block, WORDS32, 64) && |K256| == 64 && |WORDS32| == 64
    requires Rounds(SHA256, S32_0, block, 56) == S32_56
    ensures Rounds(SHA256, S32_0, block, 60) == S32_60
  {
    Words32At56();
    Constants32At56();
    Turns32At56(IV256, K256);
    RoundStep(SHA256, S32_0, block, WORDS32, 56, S32_56, S32_57);
    RoundStep(SHA256, S32_0, block, WORDS32, 57, S32_57, S32_58);
    RoundStep(SHA256, S32_0, block, WORDS32, 58, S32_58, S32_59);
    RoundStep(SHA256, S32_0, block, WORDS32, 59, S32_59, S32_60);
  }

  lemma Rounds32At64(block: seq<byte>)
    requires Known(SHA256, block, WORDS32, 64) && |K256| == 64 && |WORDS32| == 64
    requires Rounds(SHA256, S32_0, block, 60) == S32_60
    ensures Rounds(SHA256, S32_0, block, 64) == S32_64
  {
    Words32At56();
    Constants32At56();
    Turns32At60(IV256, K256);
    RoundStep(SHA256, S32_0, block, WORDS32, 60, S32_60, S32_61);
    RoundStep(SHA256, S32_0, block, WORDS32, 61, S32_61, S32_62);
    RoundStep(SHA256, S32_0, block, WORDS32, 62, S32_62, S32_63);
    RoundStep(SHA256, S32_0, block, WORDS32, 63, S32_63, S32_64);
  }

  lemma KnownRounds32(block: seq<byte>)
    requires Known(SHA256, block, WORDS32, 64) && |K256| == 64 && |WORDS32| == 64
    ensures Rounds(SHA256, S32_0, block, 64) == S32_64
  {
    Rounds32At4(block);
    Rounds32At8(block);
    Rounds32At12(block);
    Rounds32At16(block);
    Rounds32At20(block);
    Rounds32At24(block);
    Rounds32At28(block);
    Rounds32At32(block);
    Rounds32At36(block);
    Rounds32At40(block);
    Rounds32At44(block);
    Rounds32At48(block);
    Rounds32At52(block);
    Rounds32At56(block);
    Rounds32At60(block);
    Rounds32At64(block);
  }

  const HASH32: seq<bv32> := [
    0xba7816bf, 0x8f01cfea, 0x414140de, 0x5dae2223,
    0xb00361a3, 0x96177a9c, 0xb410ff61, 0xf20015ad]

  lemma LastSums32(iv: seq<bv32>, k: seq<bv32>)
    ensures |IV256| == 8
    ensures Variant32(iv, k).add(IV256[0], S32_64.a) == 0xba7816bf
    ensures Variant32(iv, k).add(IV256[1], S32_64.b) == 0x8f01cfea
    ensures Variant32(iv, k).add(IV256[2], S32_64.c) == 0x414140de
    ensures Variant32(iv, k).add(IV256[3], S32_64.d) == 0x5dae2223
    ensures Variant32(iv, k).add(IV256[4], S32_64.e) == 0xb00361a3
    ensures Variant32(iv, k).add(IV256[5], S32_64.f) == 0x96177a9c
    ensures Variant32(iv, k).add(IV256[6], S32_64.g) == 0xb410ff61
    ensures Variant32(iv, k).add(IV256[7], S32_64.h) == 0xf20015ad
  {
  }

  lemma Start32()
    ensures |IV256| == 8
    ensures Working(IV256[0], IV256[1], IV256[2], IV256[3], IV256[4], IV256[5], IV256[6], IV256[7]) == S32_0
  {
  }

  lemma Compressed32(block: seq<byte>)
    requires |block| == 64 && Known(SHA256, block, WORDS32, 64) && |K256| == 64 && |WORDS32| == 64
    ensures |IV256| == 8 && CompressBlock(SHA256, IV256, block) == HASH32
  {
    Start32();
    KnownRounds32(block);
    LastSums32(IV256, K256);
    Finished(SHA256, IV256, block, S32_64, HASH32);
  }

  /** SHA-256 of "abc". */
  lemma KnownHash32()
    ensures WellFormed(SHA256) && Hash(SHA256, ABC) == HASH32
  {
    VariantsWellFormed();
    KnownWords32();
    Words32At0();
    Constants32At0();
    Compressed32(BlockOf(SHA256, ABC));
    HashOfOne(SHA256, ABC, HASH32);
  }

  const DIGEST32: seq<byte> := [
    0xba, 0x78, 0x16, 0xbf, 0x8f, 0x01, 0xcf, 0xea, 0x41, 0x41, 0x40, 0xde, 0x5d, 0xae, 0x22, 0x23,
    0xb0, 0x03, 0x61, 0xa3, 0x96, 0x17, 0x7a, 0x9c, 0xb4, 0x10, 0xff, 0x61, 0xf2, 0x00, 0x15, 0xad]

  lemma Bytes32At0(h: seq<bv32>)
    requires |h| == 8 && h[0] == 0xba7816bf
    ensures DigestByte(SHA256, h, 0) == 0xba
    ensures DigestByte(SHA256, h, 1) == 0x78
    ensures DigestByte(SHA256, h, 2) == 0x16
    ensures DigestByte(SHA256, h, 3) == 0xbf
  {
  }

  lemma Bytes32At1(h: seq<bv32>)
    requires |h| == 8 && h[1] == 0x8f01cfea
    ensures DigestByte(SHA256, h, 4) == 0x8f
    ensures DigestByte(SHA256, h, 5) == 0x1
    ensures DigestByte(SHA256, h, 6) == 0xcf
    ensures DigestByte(SHA256, h, 7) == 0xea
  {
  }

  lemma Bytes32At2(h: seq<bv32>)
    requires |h| == 8 && h[2] == 0x414140de
    ensures DigestByte(SHA256, h, 8) == 0x41
    ensures DigestByte(SHA256, h, 9) == 0x41
    ensures DigestByte(SHA256, h, 10) == 0x40
    ensures DigestByte(SHA256, h, 11) == 0xde
  {
  }

  lemma Bytes32At3(h: seq<bv32>)
    requires |h| == 8 && h[3] == 0x5dae2223
    ensures DigestByte(SHA256, h, 12) == 0x5d
    ensures DigestByte(SHA256, h, 13) == 0xae
    ensures DigestByte(SHA256, h, 14) == 0x22
    ensures DigestByte(SHA256, h, 15) == 0x23
  {
  }

  lemma Bytes32At4(h: seq<bv32>)
    requires |h| == 8 && h[4] == 0xb00361a3
    ensures DigestByte(SHA256, h, 16) == 0xb0
    ensures DigestByte(SHA256, h, 17) == 0x3
    ensures DigestByte(SHA256, h, 18) == 0x61
    ensures DigestByte(SHA256, h, 19) == 0xa3
  {
  }

  lemma Bytes32At5(h: seq<bv32>)
    requires |h| == 8 && h[5] == 0x96177a9c
    ensures DigestByte(SHA256, h, 20) == 0x96
    ensures DigestByte(SHA256, h, 21) == 0x17
    ensures DigestByte(SHA256, h, 22) == 0x7a
    ensures DigestByte(SHA256, h, 23) == 0x9c
  {
  }

  lemma Bytes32At6(h: seq<bv32>)
    requires |h| == 8 && h[6] == 0xb410ff61
    ensures DigestByte(SHA256, h, 24) == 0xb4
    ensures DigestByte(SHA256, h, 25) == 0x10
    ensures DigestByte(SHA256, h, 26) == 0xff
    ensures DigestByte(SHA256, h, 27) == 0x61
  {
  }

  lemma Bytes32At7(h: seq<bv32>)
    requires |h| == 8 && h[7] == 0xf20015ad
    ensures DigestByte(SHA256, h, 28) == 0xf2
    ensures DigestByte(SHA256, h, 29) == 0x0
    ensures DigestByte(SHA256, h, 30) == 0x15
    ensures DigestByte(SHA256, h, 31) == 0xad
  {
  }

  lemma Digest32At0(i: nat)
    requires 0 <= i < 8
    ensures |DIGEST32| == 32 && DigestByte(SHA256, HASH32, i) == DIGEST32[i]
  {
    Bytes32At0(HASH32);
    Bytes32At1(HASH32);
  }

  lemma Digest32At8(i: nat)
    requires 8 <= i < 16
    ensures |DIGEST32| == 32 && DigestByte(SHA256, HASH32, i) == DIGEST32[i]
  {
    Bytes32At2(HASH32);
    Bytes32At3(HASH32);
  }

  lemma Digest32At16(i: nat)
    requires 16 <= i < 24
    ensures |DIGEST32| == 32 && DigestByte(SHA256, HASH32, i) == DIGEST32[i]
  {
    Bytes32At4(HASH32);
    Bytes32At5(HASH32);
  }

  lemma Digest32At24(i: nat)
    requires 24 <= i < 32
    ensures |DIGEST32| == 32 && DigestByte(SHA256, HASH32, i) == DIGEST32[i]
  {
    Bytes32At6(HASH32);
    Bytes32At7(HASH32);
  }

  /** The digest: the bytes of the words that are kept, the most significant first. */
  lemma KnownDigest32()
    ensures WellFormed(SHA256) && DigestOf(SHA256, ABC) == DIGEST32
  {
    VariantsWellFormed();
    KnownHash32();
    forall i | 0 <= i < 32
      ensures |DIGEST32| == 32 && DigestByte(SHA256, HASH32, i) == DIGEST32[i]
    {
      if i < 8 {
        Digest32At0(i);
      } else if i < 16 {
        Digest32At8(i);
      } else if i < 24 {
        Digest32At16(i);
      } else {
        Digest32At24(i);
      }
    }
    SameDigest(SHA256, ABC, HASH32, DIGEST32);
  }

  // ---------------- the identifier of a claim whose text is "abc" ----------------

  lemma Group0()
    ensures |DIGEST64| == 32 && Base32.Five(DIGEST64, 0) == 10
  {
    Pow2Small();
  }

  lemma Group1()
    ensures |DIGEST64| == 32 && Base32.Five(DIGEST64, 5) == 12
  {
    Pow2Small();
  }

  lemma Group2()
    ensures |DIGEST64| == 32 && Base32.Five(DIGEST64, 10) == 2
  {
    Pow2Small();
  }

  lemma Group3()
    ensures |DIGEST64| == 32 && Base32.Five(DIGEST64, 15) == 8
  {
    Pow2Small();
  }

  lemma Group4()
    ensures |DIGEST64| == 32 && Base32.Five(DIGEST64, 20) == 28
  {
    Pow2Small();
  }

  lemma Group5()
    ensures |DIGEST64| == 32 && Base32.Five(DIGEST64, 25) == 9
  {
    Pow2Small();
  }

  lemma Group6()
    ensures |DIGEST64| == 32 && Base32.Five(DIGEST64, 30) == 20
  {
    Pow2Small();
  }

  lemma Group7()
    ensures |DIGEST64| == 32 && Base32.Five(DIGEST64, 35) == 1
  {
    Pow2Small();
  }

  lemma OneSymbol(a: char, c: char, v: nat)
    requires Base32.SymbolOf(a, v) && Base32.SymbolOf(c, v)
    ensures a == c
  {
  }

  lemma KnownSymbol(digest: seq<byte>, k: nat, v: nat, c: char)
    requires WellFormed(SHA512_256) && digest == DigestOf(SHA512_256, ABC)
    requires k < 52 && Base32.Five(digest, 5 * k) == v && Base32.SymbolOf(c, v)
    ensures |Jti(ABC)| == 52 && Jti(ABC)[k] == c
  {
    JtiAt(ABC, k);
    OneSymbol(Jti(ABC)[k], c, v);
  }

  lemma Symbol0()
    ensures |Jti(ABC)| == 52 && Jti(ABC)[0] == 'K'
  {
    KnownDigest64();
    Group0();
    KnownSymbol(DIGEST64, 0, 10, 'K');
  }

  lemma Symbol1()
    ensures |Jti(ABC)| == 52 && Jti(ABC)[1] == 'M'
  {
    KnownDigest64();
    Group1();
    KnownSymbol(DIGEST64, 1, 12, 'M');
  }

  lemma Symbol2()
    ensures |Jti(ABC)| == 52 && Jti(ABC)[2] == 'C'
  {
    KnownDigest64();
    Group2();
    KnownSymbol(DIGEST64, 2, 2, 'C');
  }

  lemma Symbol3()
    ensures |Jti(ABC)| == 52 && Jti(ABC)[3] == 'I'
  {
    KnownDigest64();
    Group3();
    KnownSymbol(DIGEST64, 3, 8, 'I');
  }

  lemma Symbol4()
    ensures |Jti(ABC)| == 52 && Jti(ABC)[4] == '4'
  {
    KnownDigest64();
    Group4();
    KnownSymbol(DIGEST64, 4, 28, '4');
  }

  lemma Symbol5()
    ensures |Jti(ABC)| == 52 && Jti(ABC)[5] == 'J'
  {
    KnownDigest64();
    Group5();
    KnownSymbol(DIGEST64, 5, 9, 'J');
  }

  lemma Symbol6()
    ensures |Jti(ABC)| == 52 && Jti(ABC)[6] == 'U'
  {
    KnownDigest64();
    Group6();
    KnownSymbol(DIGEST64, 6, 20, 'U');
  }

  lemma Symbol7()
    ensures |Jti(ABC)| == 52 && Jti(ABC)[7] == 'B'
  {
    KnownDigest64();
    Group7();
    KnownSymbol(DIGEST64, 7, 1, 'B');
  }

  /** The identifier begins with KMCI4JUB, the base32 form of the first five bytes of the digest. */
  lemma KnownJti()
    ensures |Jti(ABC)| == 52
    ensures Jti(ABC)[0] == 'K'
    ensures Jti(ABC)[1] == 'M'
    ensures Jti(ABC)[2] == 'C'
    ensures Jti(ABC)[3] == 'I'
    ensures Jti(ABC)[4] == '4'
    ensures Jti(ABC)[5] == 'J'
    ensures Jti(ABC)[6] == 'U'
    ensures Jti(ABC)[7] == 'B'
  {
    Symbol0();
    Symbol1();
    Symbol2();
    Symbol3();
    Symbol4();
    Symbol5();
    Symbol6();
    Symbol7();
  }
}
