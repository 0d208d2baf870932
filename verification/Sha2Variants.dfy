/** The two SHA-2 variants of src/jwt_utils.cpp: SHA-512/256, whose digest names a claim, and
SHA-256, whose digest names an activation. */
module Sha2Variants {
  import opened Bits
  import opened Sha2
  import Base32

  // ---------------- round constants ----------------

  // Written in parts of eight.
  const K512_0: seq<bv64> := [
    0x428a2f98d728ae22, 0x7137449123ef65cd, 0xb5c0fbcfec4d3b2f, 0xe9b5dba58189dbbc,
    0x3956c25bf348b538, 0x59f111f1b605d019, 0x923f82a4af194f9b, 0xab1c5ed5da6d8118]
  const K512_1: seq<bv64> := [
    0xd807aa98a3030242, 0x12835b0145706fbe, 0x243185be4ee4b28c, 0x550c7dc3d5ffb4e2,
    0x72be5d74f27b896f, 0x80deb1fe3b1696b1, 0x9bdc06a725c71235, 0xc19bf174cf692694]
  const K512_2: seq<bv64> := [
    0xe49b69c19ef14ad2, 0xefbe4786384f25e3, 0x0fc19dc68b8cd5b5, 0x240ca1cc77ac9c65,
    0x2de92c6f592b0275, 0x4a7484aa6ea6e483, 0x5cb0a9dcbd41fbd4, 0x76f988da831153b5]
  const K512_3: seq<bv64> := [
    0x983e5152ee66dfab, 0xa831c66d2db43210, 0xb00327c898fb213f, 0xbf597fc7beef0ee4,
    0xc6e00bf33da88fc2, 0xd5a79147930aa725, 0x06ca6351e003826f, 0x142929670a0e6e70]
  const K512_4: seq<bv64> := [
    0x27b70a8546d22ffc, 0x2e1b21385c26c926, 0x4d2c6dfc5ac42aed, 0x53380d139d95b3df,
    0x650a73548baf63de, 0x766a0abb3c77b2a8, 0x81c2c92e47edaee6, 0x92722c851482353b]
  const K512_5: seq<bv64> := [
    0xa2bfe8a14cf10364, 0xa81a664bbc423001, 0xc24b8b70d0f89791, 0xc76c51a30654be30,
    0xd192e819d6ef5218, 0xd69906245565a910, 0xf40e35855771202a, 0x106aa07032bbd1b8]
  const K512_6: seq<bv64> := [
    0x19a4c116b8d2d0c8, 0x1e376c085141ab53, 0x2748774cdf8eeb99, 0x34b0bcb5e19b48a8,
    0x391c0cb3c5c95a63, 0x4ed8aa4ae3418acb, 0x5b9cca4f7763e373, 0x682e6ff3d6b2b8a3]
  const K512_7: seq<bv64> := [
    0x748f82ee5defb2fc, 0x78a5636f43172f60, 0x84c87814a1f0ab72, 0x8cc702081a6439ec,
    0x90befffa23631e28, 0xa4506cebde82bde9, 0xbef9a3f7b2c67915, 0xc67178f2e372532b]
  const K512_8: seq<bv64> := [
    0xca273eceea26619c, 0xd186b8c721c0c207, 0xeada7dd6cde0eb1e, 0xf57d4f7fee6ed178,
    0x06f067aa72176fba, 0x0a637dc5a2c898a6, 0x113f9804bef90dae, 0x1b710b35131c471b]
  const K512_9: seq<bv64> := [
    0x28db77f523047d84, 0x32caab7b40c72493, 0x3c9ebe0a15c9bebc, 0x431d67c49c100d4c,
    0x4cc5d4becb3e42b6, 0x597f299cfc657e2a, 0x5fcb6fab3ad6faec, 0x6c44198c4a475817]
  const K256_0: seq<bv32> := [
    0x428a2f98, 0x71374491, 0xb5c0fbcf, 0xe9b5dba5, 0x3956c25b, 0x59f111f1, 0x923f82a4, 0xab1c5ed5]
  const K256_1: seq<bv32> := [
    0xd807aa98, 0x12835b01, 0x243185be, 0x550c7dc3, 0x72be5d74, 0x80deb1fe, 0x9bdc06a7, 0xc19bf174]
  const K256_2: seq<bv32> := [
    0xe49b69c1, 0xefbe4786, 0x0fc19dc6, 0x240ca1cc, 0x2de92c6f, 0x4a7484aa, 0x5cb0a9dc, 0x76f988da]
  const K256_3: seq<bv32> := [
    0x983e5152, 0xa831c66d, 0xb00327c8, 0xbf597fc7, 0xc6e00bf3, 0xd5a79147, 0x06ca6351, 0x14292967]
  const K256_4: seq<bv32> := [
    0x27b70a85, 0x2e1b2138, 0x4d2c6dfc, 0x53380d13, 0x650a7354, 0x766a0abb, 0x81c2c92e, 0x92722c85]
  const K256_5: seq<bv32> := [
    0xa2bfe8a1, 0xa81a664b, 0xc24b8b70, 0xc76c51a3, 0xd192e819, 0xd6990624, 0xf40e3585, 0x106aa070]
  const K256_6: seq<bv32> := [
    0x19a4c116, 0x1e376c08, 0x2748774c, 0x34b0bcb5, 0x391c0cb3, 0x4ed8aa4a, 0x5b9cca4f, 0x682e6ff3]
  const K256_7: seq<bv32> := [
    0x748f82ee, 0x78a5636f, 0x84c87814, 0x8cc70208, 0x90befffa, 0xa4506ceb, 0xbef9a3f7, 0xc67178f2]

  const K512: seq<bv64> :=
    K512_0 + K512_1 + K512_2 + K512_3 + K512_4 + K512_5 + K512_6 + K512_7 + K512_8 + K512_9
  const K256: seq<bv32> :=
    K256_0 + K256_1 + K256_2 + K256_3 + K256_4 + K256_5 + K256_6 + K256_7

  // ---------------- SHA-512/256 ----------------

  const IV512: seq<bv64> := [
    0x22312194fc2bf72c, 0x9f555fa3c84c64c2, 0x2393b86b6f53b151, 0x963877195940eabd,
    0x96283ee2a88effe3, 0xbe5e1e2553863992, 0x2b0199fc2c85b8aa, 0x0eb72ddc81c52ca2]

  function Rotr64(x: bv64, n: bv7): bv64
    requires 0 < n < 64
  {
    (x >> n) | (x << (64 - n))
  }

  function Xor64(a: bv64, b: bv64): bv64 {
    a ^ b
  }

  /** `static_cast<uint8_t>(w >> (56 - 8 * b))`. */
  function Octet64(w: bv64, b: nat): bv8
    requires b < 8
  {
    if b == 0 then ((w >> 56) & 0xFF) as bv8
    else if b == 1 then ((w >> 48) & 0xFF) as bv8
    else if b == 2 then ((w >> 40) & 0xFF) as bv8
    else if b == 3 then ((w >> 32) & 0xFF) as bv8
    else if b == 4 then ((w >> 24) & 0xFF) as bv8
    else if b == 5 then ((w >> 16) & 0xFF) as bv8
    else if b == 6 then ((w >> 8) & 0xFF) as bv8
    else (w & 0xFF) as bv8
  }

  function Byte64(w: bv64, b: nat): byte {
    if b < 8 then Octet64(w, b) as int else 0
  }

  function Add64(x: bv64, y: bv64): bv64 {
    x + y
  }

  function ShiftIn64(w: bv64, b: byte): bv64 {
    (w << 8) | b as bv64
  }

  function BigSigma0In64(a: bv64): bv64 {
    Xor64(Xor64(Rotr64(a, 28), Rotr64(a, 34)), Rotr64(a, 39))
  }

  function BigSigma1In64(e: bv64): bv64 {
    Xor64(Xor64(Rotr64(e, 14), Rotr64(e, 18)), Rotr64(e, 41))
  }

  function SmallSigma0In64(x: bv64): bv64 {
    Xor64(Xor64(Rotr64(x, 1), Rotr64(x, 8)), x >> 7)
  }

  function SmallSigma1In64(x: bv64): bv64 {
    Xor64(Xor64(Rotr64(x, 19), Rotr64(x, 61)), x >> 6)
  }

  function Choose64(e: bv64, f: bv64, g: bv64): bv64 {
    (e & f) ^ (!e & g)
  }

  function Majority64(a: bv64, b: bv64, c: bv64): bv64 {
    (a & b) ^ (a & c) ^ (b & c)
  }

  function Variant64(iv: seq<bv64>, k: seq<bv64>): Variant<bv64> {
    Variant(8, 128, 16, 80, 4, 0, iv, k, Add64, ShiftIn64, Byte64,
            BigSigma0In64, BigSigma1In64, SmallSigma0In64, SmallSigma1In64, Choose64, Majority64)
  }

  const SHA512_256 := Variant64(IV512, K512)

  // ---------------- SHA-256 ----------------

  const IV256: seq<bv32> := [
    0x6a09e667, 0xbb67ae85, 0x3c6ef372, 0xa54ff53a,
    0x510e527f, 0x9b05688c, 0x1f83d9ab, 0x5be0cd19]

  function Rotr32(x: bv32, n: bv6): bv32
    requires 0 < n < 32
  {
    (x >> n) | (x << (32 - n))
  }

  function Xor32(a: bv32, b: bv32): bv32 {
    a ^ b
  }

  /** `static_cast<uint8_t>(w >> (24 - 8 * b))`. */
  function Octet32(w: bv32, b: nat): bv8
    requires b < 4
  {
    if b == 0 then ((w >> 24) & 0xFF) as bv8
    else if b == 1 then ((w >> 16) & 0xFF) as bv8
    else if b == 2 then ((w >> 8) & 0xFF) as bv8
    else (w & 0xFF) as bv8
  }

  function Byte32(w: bv32, b: nat): byte {
    if b < 4 then Octet32(w, b) as int else 0
  }

  function Add32(x: bv32, y: bv32): bv32 {
    x + y
  }

  function ShiftIn32(w: bv32, b: byte): bv32 {
    (w << 8) | b as bv32
  }

  function BigSigma0In32(a: bv32): bv32 {
    Xor32(Xor32(Rotr32(a, 2), Rotr32(a, 13)), Rotr32(a, 22))
  }

  function BigSigma1In32(e: bv32): bv32 {
    Xor32(Xor32(Rotr32(e, 6), Rotr32(e, 11)), Rotr32(e, 25))
  }

  function SmallSigma0In32(x: bv32): bv32 {
    Xor32(Xor32(Rotr32(x, 7), Rotr32(x, 18)), x >> 3)
  }

  function SmallSigma1In32(x: bv32): bv32 {
    Xor32(Xor32(Rotr32(x, 17), Rotr32(x, 19)), x >> 10)
  }

  function Choose32(e: bv32, f: bv32, g: bv32): bv32 {
    (e & f) ^ (!e & g)
  }

  function Majority32(a: bv32, b: bv32, c: bv32): bv32 {
    (a & b) ^ (a & c) ^ (b & c)
  }

  function Variant32(iv: seq<bv32>, k: seq<bv32>): Variant<bv32> {
    Variant(4, 64, 8, 64, 8, 0, iv, k, Add32, ShiftIn32, Byte32,
            BigSigma0In32, BigSigma1In32, SmallSigma0In32, SmallSigma1In32, Choose32, Majority32)
  }

  const SHA256 := Variant32(IV256, K256)

  lemma VariantsWellFormed()
    ensures WellFormed(SHA512_256) && WellFormed(SHA256)
  {
    assert |K512_0| == 8 && |K512_1| == 8 && |K512_2| == 8 && |K512_3| == 8 && |K512_4| == 8;
    assert |K512_5| == 8 && |K512_6| == 8 && |K512_7| == 8 && |K512_8| == 8 && |K512_9| == 8;
    assert |K256_0| == 8 && |K256_1| == 8 && |K256_2| == 8 && |K256_3| == 8;
    assert |K256_4| == 8 && |K256_5| == 8 && |K256_6| == 8 && |K256_7| == 8;
  }

  lemma AddIs64(iv: seq<bv64>, k: seq<bv64>, x: bv64, y: bv64)
    ensures Variant64(iv, k).add(x, y) == x + y
  {
  }

  lemma AddAssociative64(iv: seq<bv64>, k: seq<bv64>, x: bv64, y: bv64, z: bv64)
    ensures Variant64(iv, k).add(Variant64(iv, k).add(x, y), z) == Variant64(iv, k).add(x, Variant64(iv, k).add(y, z))
  {
    var left, right := x + y, y + z;
    AddIs64(iv, k, x, y);
    AddIs64(iv, k, y, z);
    AddIs64(iv, k, left, z);
    AddIs64(iv, k, x, right);
    Associative64(x, y, z, left, right);
  }

  lemma Associative64(x: bv64, y: bv64, z: bv64, left: bv64, right: bv64)
    requires left == x + y && right == y + z
    ensures left + z == x + right
  {
    calc {
      left + z;
      (x + y) + z;
      { Regrouped64(x, y, z); }
      x + (y + z);
      x + right;
    }
  }

  lemma Regrouped64(x: bv64, y: bv64, z: bv64)
    ensures (x + y) + z == x + (y + z)
  {
  }

  /** Addition modulo 2^64 is commutative and associative. */
  lemma AddLaws64(iv: seq<bv64>, k: seq<bv64>)
    ensures AddLaws(Variant64(iv, k))
  {
    forall x: bv64, y: bv64, z: bv64
      ensures Variant64(iv, k).add(Variant64(iv, k).add(x, y), z) == Variant64(iv, k).add(x, Variant64(iv, k).add(y, z))
    {
      AddAssociative64(iv, k, x, y, z);
    }
    forall x: bv64, y: bv64
      ensures Variant64(iv, k).add(x, y) == Variant64(iv, k).add(y, x)
    {
      AddIs64(iv, k, x, y);
      AddIs64(iv, k, y, x);
    }
  }

  lemma AddIs32(iv: seq<bv32>, k: seq<bv32>, x: bv32, y: bv32)
    ensures Variant32(iv, k).add(x, y) == x + y
  {
  }

  lemma AddAssociative32(iv: seq<bv32>, k: seq<bv32>, x: bv32, y: bv32, z: bv32)
    ensures Variant32(iv, k).add(Variant32(iv, k).add(x, y), z) == Variant32(iv, k).add(x, Variant32(iv, k).add(y, z))
  {
    var left, right := x + y, y + z;
    AddIs32(iv, k, x, y);
    AddIs32(iv, k, y, z);
    AddIs32(iv, k, left, z);
    AddIs32(iv, k, x, right);
    Associative32(x, y, z, left, right);
  }

  lemma Associative32(x: bv32, y: bv32, z: bv32, left: bv32, right: bv32)
    requires left == x + y && right == y + z
    ensures left + z == x + right
  {
    calc {
      left + z;
      (x + y) + z;
      { Regrouped32(x, y, z); }
      x + (y + z);
      x + right;
    }
  }

  lemma Regrouped32(x: bv32, y: bv32, z: bv32)
    ensures (x + y) + z == x + (y + z)
  {
  }

  /** Addition modulo 2^32 is commutative and associative. */
  lemma AddLaws32(iv: seq<bv32>, k: seq<bv32>)
    ensures AddLaws(Variant32(iv, k))
  {
    forall x: bv32, y: bv32, z: bv32
      ensures Variant32(iv, k).add(Variant32(iv, k).add(x, y), z) == Variant32(iv, k).add(x, Variant32(iv, k).add(y, z))
    {
      AddAssociative32(iv, k, x, y, z);
    }
    forall x: bv32, y: bv32
      ensures Variant32(iv, k).add(x, y) == Variant32(iv, k).add(y, x)
    {
      AddIs32(iv, k, x, y);
      AddIs32(iv, k, y, x);
    }
  }

  function Neg64(x: bv64): bv64 {
    0 - x
  }

  /** Subtraction modulo 2^64. */
  function Sub64(x: bv64, y: bv64): bv64 {
    Add64(x, Neg64(y))
  }

  lemma AddNeg64(x: bv64)
    ensures Add64(x, Neg64(x)) == 0 && Add64(x, 0) == x
  {
  }

  lemma AddAt64(iv: seq<bv64>, k: seq<bv64>, x: bv64, y: bv64)
    ensures Variant64(iv, k).add(x, y) == Add64(x, y)
  {
  }

  lemma AddSub64(iv: seq<bv64>, k: seq<bv64>, x: bv64, y: bv64, sum: bv64, n: bv64)
    requires sum == Variant64(iv, k).add(x, y) && n == Neg64(y)
    ensures Variant64(iv, k).add(sum, n) == x
  {
    AddAssociative64(iv, k, x, y, n);
    AddNeg64(x);
    AddNeg64(y);
    AddAt64(iv, k, y, n);
    AddAt64(iv, k, x, 0);
  }

  function Neg32(x: bv32): bv32 {
    0 - x
  }

  /** Subtraction modulo 2^32. */
  function Sub32(x: bv32, y: bv32): bv32 {
    Add32(x, Neg32(y))
  }

  lemma AddNeg32(x: bv32)
    ensures Add32(x, Neg32(x)) == 0 && Add32(x, 0) == x
  {
  }

  lemma AddAt32(iv: seq<bv32>, k: seq<bv32>, x: bv32, y: bv32)
    ensures Variant32(iv, k).add(x, y) == Add32(x, y)
  {
  }

  lemma AddSub32(iv: seq<bv32>, k: seq<bv32>, x: bv32, y: bv32, sum: bv32, n: bv32)
    requires sum == Variant32(iv, k).add(x, y) && n == Neg32(y)
    ensures Variant32(iv, k).add(sum, n) == x
  {
    AddAssociative32(iv, k, x, y, n);
    AddNeg32(x);
    AddNeg32(y);
    AddAt32(iv, k, y, n);
    AddAt32(iv, k, x, 0);
  }

  lemma SubAt64(iv: seq<bv64>, k: seq<bv64>, x: bv64, y: bv64, sum: bv64)
    requires sum == Variant64(iv, k).add(x, y)
    ensures Sub64(sum, y) == x && Sub64(sum, x) == y
  {
    AddSub64(iv, k, x, y, sum, Neg64(y));
    AddAt64(iv, k, sum, Neg64(y));
    AddIs64(iv, k, x, y);
    AddIs64(iv, k, y, x);
    AddSub64(iv, k, y, x, sum, Neg64(x));
    AddAt64(iv, k, sum, Neg64(x));
  }

  /** Subtraction undoes addition: the compression function of SHA-512/256 can be run backwards. */
  lemma SubLaws64(iv: seq<bv64>, k: seq<bv64>)
    ensures SubLaws(Variant64(iv, k), Sub64)
  {
    forall x: bv64, y: bv64
      ensures Sub64(Variant64(iv, k).add(x, y), y) == x
      ensures Sub64(Variant64(iv, k).add(x, y), x) == y
    {
      SubAt64(iv, k, x, y, Variant64(iv, k).add(x, y));
    }
  }

  lemma SubAt32(iv: seq<bv32>, k: seq<bv32>, x: bv32, y: bv32, sum: bv32)
    requires sum == Variant32(iv, k).add(x, y)
    ensures Sub32(sum, y) == x && Sub32(sum, x) == y
  {
    AddSub32(iv, k, x, y, sum, Neg32(y));
    AddAt32(iv, k, sum, Neg32(y));
    AddIs32(iv, k, x, y);
    AddIs32(iv, k, y, x);
    AddSub32(iv, k, y, x, sum, Neg32(x));
    AddAt32(iv, k, sum, Neg32(x));
  }

  /** The same for SHA-256. */
  lemma SubLaws32(iv: seq<bv32>, k: seq<bv32>)
    ensures SubLaws(Variant32(iv, k), Sub32)
  {
    forall x: bv32, y: bv32
      ensures Sub32(Variant32(iv, k).add(x, y), y) == x
      ensures Sub32(Variant32(iv, k).add(x, y), x) == y
    {
      SubAt32(iv, k, x, y, Variant32(iv, k).add(x, y));
    }
  }

  lemma LoadNext(iv: seq<bv32>, k: seq<bv32>, bytes: seq<byte>, b: byte, w: bv32)
    requires w == Load(Variant32(iv, k), bytes)
    ensures Load(Variant32(iv, k), bytes + [b]) == ((w << 8) | b as bv32)
  {
    assert (bytes + [b])[..|bytes|] == bytes;
  }

  /** `sha256_impl::compress` writes the four bytes of a word as one expression. */
  lemma LoadUnrolled(iv: seq<bv32>, k: seq<bv32>, a: byte, b: byte, c: byte, d: byte)
    ensures Load(Variant32(iv, k), [a, b, c, d])
         == ((a as bv32 << 24) | (b as bv32 << 16) | (c as bv32 << 8) | d as bv32)
  {
    var w1: bv32 := (0 << 8) | a as bv32;
    var w2: bv32 := (w1 << 8) | b as bv32;
    var w3: bv32 := (w2 << 8) | c as bv32;
    assert Load(Variant32(iv, k), []) == 0;
    LoadNext(iv, k, [], a, 0);
    assert [] + [a] == [a];
    LoadNext(iv, k, [a], b, w1);
    assert [a] + [b] == [a, b];
    LoadNext(iv, k, [a, b], c, w2);
    assert [a, b] + [c] == [a, b, c];
    LoadNext(iv, k, [a, b, c], d, w3);
    assert [a, b, c] + [d] == [a, b, c, d];
    Shifts(a as bv32, b as bv32, c as bv32, d as bv32);
  }

  lemma Shifts(a: bv32, b: bv32, c: bv32, d: bv32)
    ensures (((((((0 << 8) | a) << 8) | b) << 8) | c) << 8) | d
         == ((a << 24) | (b << 16) | (c << 8) | d)
  {
  }

  // ---------------- where the constants come from: FIPS 180-4, section 4.2 ----------------

  /** The integer part of the cube root of `p`. */
  function WholeCubeRoot(p: nat): nat {
    if p < 8 then 1 else if p < 27 then 2 else if p < 64 then 3 else if p < 125 then 4
    else if p < 216 then 5 else if p < 343 then 6 else 7
  }

  /** `k` is the first 64 bits of the fractional part of the cube root of `p`: for the number
      r + k / 2^64 with r the whole part, the cube of the number is at most `p`, and the cube of
      the next one is above it. */
  predicate CubeRootBits(p: nat, k: bv64) {
    var n := WholeCubeRoot(p) * WORD64 + k as nat;
    n * n * n <= p * (WORD64 * WORD64 * WORD64) < (n + 1) * (n + 1) * (n + 1)
  }

  /** `h` is the first 32 bits of the fractional part of the square root of `p`. */
  predicate SquareRootBits(p: nat, whole: nat, h: bv32) {
    var n := whole * WORD32 + h as nat;
    whole * whole <= p < (whole + 1) * (whole + 1) && n * n <= p * (WORD32 * WORD32) < (n + 1) * (n + 1)
  }

  /** The constants of rounds 0 to 7 come from the primes 2 to 19. */
  lemma CubeRoots0()
    ensures |K512_0| == 8
    ensures CubeRootBits(2, K512_0[0])
    ensures CubeRootBits(3, K512_0[1])
    ensures CubeRootBits(5, K512_0[2])
    ensures CubeRootBits(7, K512_0[3])
    ensures CubeRootBits(11, K512_0[4])
    ensures CubeRootBits(13, K512_0[5])
    ensures CubeRootBits(17, K512_0[6])
    ensures CubeRootBits(19, K512_0[7])
  {
  }

  /** The constants of rounds 8 to 15 come from the primes 23 to 53. */
  lemma CubeRoots1()
    ensures |K512_1| == 8
    ensures CubeRootBits(23, K512_1[0])
    ensures CubeRootBits(29, K512_1[1])
    ensures CubeRootBits(31, K512_1[2])
    ensures CubeRootBits(37, K512_1[3])
    ensures CubeRootBits(41, K512_1[4])
    ensures CubeRootBits(43, K512_1[5])
    ensures CubeRootBits(47, K512_1[6])
    ensures CubeRootBits(53, K512_1[7])
  {
  }

  /** The constants of rounds 16 to 23 come from the primes 59 to 89. */
  lemma CubeRoots2()
    ensures |K512_2| == 8
    ensures CubeRootBits(59, K512_2[0])
    ensures CubeRootBits(61, K512_2[1])
    ensures CubeRootBits(67, K512_2[2])
    ensures CubeRootBits(71, K512_2[3])
    ensures CubeRootBits(73, K512_2[4])
    ensures CubeRootBits(79, K512_2[5])
    ensures CubeRootBits(83, K512_2[6])
    ensures CubeRootBits(89, K512_2[7])
  {
  }

  /** The constants of rounds 24 to 31 come from the primes 97 to 131. */
  lemma CubeRoots3()
    ensures |K512_3| == 8
    ensures CubeRootBits(97, K512_3[0])
    ensures CubeRootBits(101, K512_3[1])
    ensures CubeRootBits(103, K512_3[2])
    ensures CubeRootBits(107, K512_3[3])
    ensures CubeRootBits(109, K512_3[4])
    ensures CubeRootBits(113, K512_3[5])
    ensures CubeRootBits(127, K512_3[6])
    ensures CubeRootBits(131, K512_3[7])
  {
  }

  /** The constants of rounds 32 to 39 come from the primes 137 to 173. */
  lemma CubeRoots4()
    ensures |K512_4| == 8
    ensures CubeRootBits(137, K512_4[0])
    ensures CubeRootBits(139, K512_4[1])
    ensures CubeRootBits(149, K512_4[2])
    ensures CubeRootBits(151, K512_4[3])
    ensures CubeRootBits(157, K512_4[4])
    ensures CubeRootBits(163, K512_4[5])
    ensures CubeRootBits(167, K512_4[6])
    ensures CubeRootBits(173, K512_4[7])
  {
  }

  /** The constants of rounds 40 to 47 come from the primes 179 to 223. */
  lemma CubeRoots5()
    ensures |K512_5| == 8
    ensures CubeRootBits(179, K512_5[0])
    ensures CubeRootBits(181, K512_5[1])
    ensures CubeRootBits(191, K512_5[2])
    ensures CubeRootBits(193, K512_5[3])
    ensures CubeRootBits(197, K512_5[4])
    ensures CubeRootBits(199, K512_5[5])
    ensures CubeRootBits(211, K512_5[6])
    ensures CubeRootBits(223, K512_5[7])
  {
  }

  /** The constants of rounds 48 to 55 come from the primes 227 to 263. */
  lemma CubeRoots6()
    ensures |K512_6| == 8
    ensures CubeRootBits(227, K512_6[0])
    ensures CubeRootBits(229, K512_6[1])
    ensures CubeRootBits(233, K512_6[2])
    ensures CubeRootBits(239, K512_6[3])
    ensures CubeRootBits(241, K512_6[4])
    ensures CubeRootBits(251, K512_6[5])
    ensures CubeRootBits(257, K512_6[6])
    ensures CubeRootBits(263, K512_6[7])
  {
  }

  /** The constants of rounds 56 to 63 come from the primes 269 to 311. */
  lemma CubeRoots7()
    ensures |K512_7| == 8
    ensures CubeRootBits(269, K512_7[0])
    ensures CubeRootBits(271, K512_7[1])
    ensures CubeRootBits(277, K512_7[2])
    ensures CubeRootBits(281, K512_7[3])
    ensures CubeRootBits(283, K512_7[4])
    ensures CubeRootBits(293, K512_7[5])
    ensures CubeRootBits(307, K512_7[6])
    ensures CubeRootBits(311, K512_7[7])
  {
  }

  /** The constants of rounds 64 to 71 come from the primes 313 to 359. */
  lemma CubeRoots8()
    ensures |K512_8| == 8
    ensures CubeRootBits(313, K512_8[0])
    ensures CubeRootBits(317, K512_8[1])
    ensures CubeRootBits(331, K512_8[2])
    ensures CubeRootBits(337, K512_8[3])
    ensures CubeRootBits(347, K512_8[4])
    ensures CubeRootBits(349, K512_8[5])
    ensures CubeRootBits(353, K512_8[6])
    ensures CubeRootBits(359, K512_8[7])
  {
  }

  /** The constants of rounds 72 to 79 come from the primes 367 to 409. */
  lemma CubeRoots9()
    ensures |K512_9| == 8
    ensures CubeRootBits(367, K512_9[0])
    ensures CubeRootBits(373, K512_9[1])
    ensures CubeRootBits(379, K512_9[2])
    ensures CubeRootBits(383, K512_9[3])
    ensures CubeRootBits(389, K512_9[4])
    ensures CubeRootBits(397, K512_9[5])
    ensures CubeRootBits(401, K512_9[6])
    ensures CubeRootBits(409, K512_9[7])
  {
  }

  /** The initial hash value of SHA-256 comes from the square roots of the first eight primes. */
  lemma SquareRoots()
    ensures |IV256| == 8
    ensures SquareRootBits(2, 1, IV256[0])
    ensures SquareRootBits(3, 1, IV256[1])
    ensures SquareRootBits(5, 2, IV256[2])
    ensures SquareRootBits(7, 2, IV256[3])
    ensures SquareRootBits(11, 3, IV256[4])
    ensures SquareRootBits(13, 3, IV256[5])
    ensures SquareRootBits(17, 4, IV256[6])
    ensures SquareRootBits(19, 4, IV256[7])
  {
  }

  /** The round constants of SHA-256 are the upper halves of those of SHA-512. */
  lemma UpperHalves()
    ensures |K256_0| == |K512_0| == 8 && forall i :: 0 <= i < 8 ==> K256_0[i] as bv64 == K512_0[i] >> 32
    ensures |K256_1| == |K512_1| == 8 && forall i :: 0 <= i < 8 ==> K256_1[i] as bv64 == K512_1[i] >> 32
    ensures |K256_2| == |K512_2| == 8 && forall i :: 0 <= i < 8 ==> K256_2[i] as bv64 == K512_2[i] >> 32
    ensures |K256_3| == |K512_3| == 8 && forall i :: 0 <= i < 8 ==> K256_3[i] as bv64 == K512_3[i] >> 32
    ensures |K256_4| == |K512_4| == 8 && forall i :: 0 <= i < 8 ==> K256_4[i] as bv64 == K512_4[i] >> 32
    ensures |K256_5| == |K512_5| == 8 && forall i :: 0 <= i < 8 ==> K256_5[i] as bv64 == K512_5[i] >> 32
    ensures |K256_6| == |K512_6| == 8 && forall i :: 0 <= i < 8 ==> K256_6[i] as bv64 == K512_6[i] >> 32
    ensures |K256_7| == |K512_7| == 8 && forall i :: 0 <= i < 8 ==> K256_7[i] as bv64 == K512_7[i] >> 32
  {
  }

  // ---------------- the two users ----------------

  /** The claim identifier of a serialized claim. */
  ghost function Jti(payload: seq<byte>): string {
    VariantsWellFormed();
    Base32.Spelled(DigestOf(SHA512_256, payload))
  }

  /** Symbol `k` of the identifier stands for bits 5k to 5k + 4 of the SHA-512/256 digest. */
  lemma JtiAt(payload: seq<byte>, k: nat)
    requires k < 52
    ensures WellFormed(SHA512_256) && |Jti(payload)| == 52
    ensures Base32.SymbolOf(Jti(payload)[k], Base32.Five(DigestOf(SHA512_256, payload), 5 * k))
  {
    VariantsWellFormed();
    Base32.SpelledShape(DigestOf(SHA512_256, payload));
    Base32.SpelledAt(DigestOf(SHA512_256, payload), k);
  }

  /** `computeJti`. */
  method ComputeJti(payload: seq<byte>) returns (jti: string)
    ensures jti == Jti(payload) && |jti| == 52
  {
    VariantsWellFormed();
    var hash := Digest(SHA512_256, payload);
    Base32.SpelledShape(hash);
    jti := Base32.EncodeNoPad(hash);
  }

  /** The hash id of the base text of an activation: padded, 56 characters. */
  method HashId(base: seq<byte>) returns (id: string)
    ensures WellFormed(SHA256) && Base32.IsPadded(Base32.Spelled(DigestOf(SHA256, base)), id)
    ensures |id| == 56
  {
    VariantsWellFormed();
    var hash := Digest(SHA256, base);
    Base32.SpelledShape(hash);
    id := Base32.StdPadded(hash);
  }
}
