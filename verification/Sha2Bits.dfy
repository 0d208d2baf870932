/** What the word operations of SHA-2 do to single bits (sections 3.2 and 4.1 of FIPS 180-4), stated
without rotations: positions wrap around at the end of the word. */
module Sha2Bits {
  import opened Sha2Variants

  /** Bit `i` of a word, the least significant first. */
  predicate Bit64(x: bv64, i: bv64) {
    i < 64 && x & (1 << (i as bv7)) != 0
  }

  predicate Bit32(x: bv32, i: bv32) {
    i < 32 && x & (1 << (i as bv6)) != 0
  }

  /** Of three truths, an odd number. */
  predicate Odd(a: bool, b: bool, c: bool) {
    a != (b != c)
  }

  // ---------------- 64 bits: sums, rotations, shifts ----------------

  lemma XorBits64(a: bv64, b: bv64, i: bv64)
    requires i < 64
    ensures Bit64(Xor64(a, b), i) == (Bit64(a, i) != Bit64(b, i))
  {
    Differ64(a, b, i);
  }

  lemma Differ64(a: bv64, b: bv64, i: bv64)
    requires i < 64
    ensures Bit64(a ^ b, i) == (Bit64(a, i) != Bit64(b, i))
  {
  }

  /** The bits of a sum of three words. */
  lemma SumBits64(y: bv64, a: bv64, b: bv64, c: bv64, i: bv64)
    requires i < 64 && y == Xor64(Xor64(a, b), c)
    ensures Bit64(y, i) == Odd(Bit64(a, i), Bit64(b, i), Bit64(c, i))
  {
    XorBits64(a, b, i);
    XorBits64(Xor64(a, b), c, i);
    TwoSums64(y, Xor64(a, b), a, b, c, i);
  }

  lemma TwoSums64(y: bv64, d: bv64, a: bv64, b: bv64, c: bv64, i: bv64)
    requires Bit64(d, i) == (Bit64(a, i) != Bit64(b, i))
    requires Bit64(y, i) == (Bit64(d, i) != Bit64(c, i))
    ensures Bit64(y, i) == Odd(Bit64(a, i), Bit64(b, i), Bit64(c, i))
  {
  }

  lemma Rotate64By28(x: bv64, i: bv64)
    requires i < 64
    ensures Bit64(Rotr64(x, 28), i) == Bit64(x, (i + 28) % 64)
  {
    var m: bv64 := 1 << (i as bv7);
    assert 1 as bv64 << (((i + 28) % 64) as bv7) == (m << 28) | (m >> 36);
    Wires64By28(x, m);
  }

  lemma Wires64By28(x: bv64, m: bv64)
    ensures ((x >> 28) | (x << 36)) & m != 0 <==> x & ((m << 28) | (m >> 36)) != 0
  {
  }

  lemma Rotate64By34(x: bv64, i: bv64)
    requires i < 64
    ensures Bit64(Rotr64(x, 34), i) == Bit64(x, (i + 34) % 64)
  {
    var m: bv64 := 1 << (i as bv7);
    assert 1 as bv64 << (((i + 34) % 64) as bv7) == (m << 34) | (m >> 30);
    Wires64By34(x, m);
  }

  lemma Wires64By34(x: bv64, m: bv64)
    ensures ((x >> 34) | (x << 30)) & m != 0 <==> x & ((m << 34) | (m >> 30)) != 0
  {
  }

  lemma Rotate64By39(x: bv64, i: bv64)
    requires i < 64
    ensures Bit64(Rotr64(x, 39), i) == Bit64(x, (i + 39) % 64)
  {
    var m: bv64 := 1 << (i as bv7);
    assert 1 as bv64 << (((i + 39) % 64) as bv7) == (m << 39) | (m >> 25);
    Wires64By39(x, m);
  }

  lemma Wires64By39(x: bv64, m: bv64)
    ensures ((x >> 39) | (x << 25)) & m != 0 <==> x & ((m << 39) | (m >> 25)) != 0
  {
  }

  lemma Rotate64By14(x: bv64, i: bv64)
    requires i < 64
    ensures Bit64(Rotr64(x, 14), i) == Bit64(x, (i + 14) % 64)
  {
    var m: bv64 := 1 << (i as bv7);
    assert 1 as bv64 << (((i + 14) % 64) as bv7) == (m << 14) | (m >> 50);
    Wires64By14(x, m);
  }

  lemma Wires64By14(x: bv64, m: bv64)
    ensures ((x >> 14) | (x << 50)) & m != 0 <==> x & ((m << 14) | (m >> 50)) != 0
  {
  }

  lemma Rotate64By18(x: bv64, i: bv64)
    requires i < 64
    ensures Bit64(Rotr64(x, 18), i) == Bit64(x, (i + 18) % 64)
  {
    var m: bv64 := 1 << (i as bv7);
    assert 1 as bv64 << (((i + 18) % 64) as bv7) == (m << 18) | (m >> 46);
    Wires64By18(x, m);
  }

  lemma Wires64By18(x: bv64, m: bv64)
    ensures ((x >> 18) | (x << 46)) & m != 0 <==> x & ((m << 18) | (m >> 46)) != 0
  {
  }

  lemma Rotate64By41(x: bv64, i: bv64)
    requires i < 64
    ensures Bit64(Rotr64(x, 41), i) == Bit64(x, (i + 41) % 64)
  {
    var m: bv64 := 1 << (i as bv7);
    assert 1 as bv64 << (((i + 41) % 64) as bv7) == (m << 41) | (m >> 23);
    Wires64By41(x, m);
  }

  lemma Wires64By41(x: bv64, m: bv64)
    ensures ((x >> 41) | (x << 23)) & m != 0 <==> x & ((m << 41) | (m >> 23)) != 0
  {
  }

  lemma Rotate64By1(x: bv64, i: bv64)
    requires i < 64
    ensures Bit64(Rotr64(x, 1), i) == Bit64(x, (i + 1) % 64)
  {
    var m: bv64 := 1 << (i as bv7);
    assert 1 as bv64 << (((i + 1) % 64) as bv7) == (m << 1) | (m >> 63);
    Wires64By1(x, m);
  }

  lemma Wires64By1(x: bv64, m: bv64)
    ensures ((x >> 1) | (x << 63)) & m != 0 <==> x & ((m << 1) | (m >> 63)) != 0
  {
  }

  lemma Rotate64By8(x: bv64, i: bv64)
    requires i < 64
    ensures Bit64(Rotr64(x, 8), i) == Bit64(x, (i + 8) % 64)
  {
    var m: bv64 := 1 << (i as bv7);
    assert 1 as bv64 << (((i + 8) % 64) as bv7) == (m << 8) | (m >> 56);
    Wires64By8(x, m);
  }

  lemma Wires64By8(x: bv64, m: bv64)
    ensures ((x >> 8) | (x << 56)) & m != 0 <==> x & ((m << 8) | (m >> 56)) != 0
  {
  }

  lemma Rotate64By19(x: bv64, i: bv64)
    requires i < 64
    ensures Bit64(Rotr64(x, 19), i) == Bit64(x, (i + 19) % 64)
  {
    var m: bv64 := 1 << (i as bv7);
    assert 1 as bv64 << (((i + 19) % 64) as bv7) == (m << 19) | (m >> 45);
    Wires64By19(x, m);
  }

  lemma Wires64By19(x: bv64, m: bv64)
    ensures ((x >> 19) | (x << 45)) & m != 0 <==> x & ((m << 19) | (m >> 45)) != 0
  {
  }

  lemma Rotate64By61(x: bv64, i: bv64)
    requires i < 64
    ensures Bit64(Rotr64(x, 61), i) == Bit64(x, (i + 61) % 64)
  {
    var m: bv64 := 1 << (i as bv7);
    assert 1 as bv64 << (((i + 61) % 64) as bv7) == (m << 61) | (m >> 3);
    Wires64By61(x, m);
  }

  lemma Wires64By61(x: bv64, m: bv64)
    ensures ((x >> 61) | (x << 3)) & m != 0 <==> x & ((m << 61) | (m >> 3)) != 0
  {
  }

  lemma Shift64By7(x: bv64, i: bv64)
    requires i < 64
    ensures Bit64(x >> 7, i) == Bit64(x, i + 7)
  {
    var m: bv64 := 1 << (i as bv7);
    ShiftMask64By7(i, m);
    ShiftWires64By7(x, m);
  }

  lemma ShiftMask64By7(i: bv64, m: bv64)
    requires i < 64 && m == 1 << (i as bv7)
    ensures m << 7 == if i + 7 < 64 then 1 << ((i + 7) as bv7) else 0
  {
  }

  lemma ShiftWires64By7(x: bv64, m: bv64)
    ensures (x >> 7) & m != 0 <==> x & (m << 7) != 0
  {
  }

  lemma Shift64By6(x: bv64, i: bv64)
    requires i < 64
    ensures Bit64(x >> 6, i) == Bit64(x, i + 6)
  {
    var m: bv64 := 1 << (i as bv7);
    ShiftMask64By6(i, m);
    ShiftWires64By6(x, m);
  }

  lemma ShiftMask64By6(i: bv64, m: bv64)
    requires i < 64 && m == 1 << (i as bv7)
    ensures m << 6 == if i + 6 < 64 then 1 << ((i + 6) as bv7) else 0
  {
  }

  lemma ShiftWires64By6(x: bv64, m: bv64)
    ensures (x >> 6) & m != 0 <==> x & (m << 6) != 0
  {
  }

  // ---------------- 64 bits: the functions of section 4.1 ----------------

  lemma BigSigma0Bits64(x: bv64, i: bv64)
    requires i < 64
    ensures Bit64(BigSigma0In64(x), i)
         == Odd(Bit64(x, (i + 28) % 64), Bit64(x, (i + 34) % 64), Bit64(x, (i + 39) % 64))
  {
    calc {
      Bit64(BigSigma0In64(x), i);
      { BigSigma0Sum64(x, i); }
      Odd(Bit64(Rotr64(x, 28), i), Bit64(Rotr64(x, 34), i), Bit64(Rotr64(x, 39), i));
      { Rotate64By28(x, i); }
      Odd(Bit64(x, (i + 28) % 64), Bit64(Rotr64(x, 34), i), Bit64(Rotr64(x, 39), i));
      { Rotate64By34(x, i); }
      Odd(Bit64(x, (i + 28) % 64), Bit64(x, (i + 34) % 64), Bit64(Rotr64(x, 39), i));
      { Rotate64By39(x, i); }
      Odd(Bit64(x, (i + 28) % 64), Bit64(x, (i + 34) % 64), Bit64(x, (i + 39) % 64));
    }
  }

  lemma BigSigma0Sum64(x: bv64, i: bv64)
    requires i < 64
    ensures Bit64(BigSigma0In64(x), i)
         == Odd(Bit64(Rotr64(x, 28), i), Bit64(Rotr64(x, 34), i), Bit64(Rotr64(x, 39), i))
  {
    SumBits64(BigSigma0In64(x), Rotr64(x, 28), Rotr64(x, 34), Rotr64(x, 39), i);
  }

  lemma BigSigma1Bits64(x: bv64, i: bv64)
    requires i < 64
    ensures Bit64(BigSigma1In64(x), i)
         == Odd(Bit64(x, (i + 14) % 64), Bit64(x, (i + 18) % 64), Bit64(x, (i + 41) % 64))
  {
    calc {
      Bit64(BigSigma1In64(x), i);
      { BigSigma1Sum64(x, i); }
      Odd(Bit64(Rotr64(x, 14), i), Bit64(Rotr64(x, 18), i), Bit64(Rotr64(x, 41), i));
      { Rotate64By14(x, i); }
      Odd(Bit64(x, (i + 14) % 64), Bit64(Rotr64(x, 18), i), Bit64(Rotr64(x, 41), i));
      { Rotate64By18(x, i); }
      Odd(Bit64(x, (i + 14) % 64), Bit64(x, (i + 18) % 64), Bit64(Rotr64(x, 41), i));
      { Rotate64By41(x, i); }
      Odd(Bit64(x, (i + 14) % 64), Bit64(x, (i + 18) % 64), Bit64(x, (i + 41) % 64));
    }
  }

  lemma BigSigma1Sum64(x: bv64, i: bv64)
    requires i < 64
    ensures Bit64(BigSigma1In64(x), i)
         == Odd(Bit64(Rotr64(x, 14), i), Bit64(Rotr64(x, 18), i), Bit64(Rotr64(x, 41), i))
  {
    SumBits64(BigSigma1In64(x), Rotr64(x, 14), Rotr64(x, 18), Rotr64(x, 41), i);
  }

  lemma SmallSigma0Bits64(x: bv64, i: bv64)
    requires i < 64
    ensures Bit64(SmallSigma0In64(x), i)
         == Odd(Bit64(x, (i + 1) % 64), Bit64(x, (i + 8) % 64), Bit64(x, i + 7))
  {
    calc {
      Bit64(SmallSigma0In64(x), i);
      { SmallSigma0Sum64(x, i); }
      Odd(Bit64(Rotr64(x, 1), i), Bit64(Rotr64(x, 8), i), Bit64(x >> 7, i));
      { Rotate64By1(x, i); }
      Odd(Bit64(x, (i + 1) % 64), Bit64(Rotr64(x, 8), i), Bit64(x >> 7, i));
      { Rotate64By8(x, i); }
      Odd(Bit64(x, (i + 1) % 64), Bit64(x, (i + 8) % 64), Bit64(x >> 7, i));
      { Shift64By7(x, i); }
      Odd(Bit64(x, (i + 1) % 64), Bit64(x, (i + 8) % 64), Bit64(x, i + 7));
    }
  }

  lemma SmallSigma0Sum64(x: bv64, i: bv64)
    requires i < 64
    ensures Bit64(SmallSigma0In64(x), i)
         == Odd(Bit64(Rotr64(x, 1), i), Bit64(Rotr64(x, 8), i), Bit64(x >> 7, i))
  {
    SumBits64(SmallSigma0In64(x), Rotr64(x, 1), Rotr64(x, 8), x >> 7, i);
  }

  lemma SmallSigma1Bits64(x: bv64, i: bv64)
    requires i < 64
    ensures Bit64(SmallSigma1In64(x), i)
         == Odd(Bit64(x, (i + 19) % 64), Bit64(x, (i + 61) % 64), Bit64(x, i + 6))
  {
    calc {
      Bit64(SmallSigma1In64(x), i);
      { SmallSigma1Sum64(x, i); }
      Odd(Bit64(Rotr64(x, 19), i), Bit64(Rotr64(x, 61), i), Bit64(x >> 6, i));
      { Rotate64By19(x, i); }
      Odd(Bit64(x, (i + 19) % 64), Bit64(Rotr64(x, 61), i), Bit64(x >> 6, i));
      { Rotate64By61(x, i); }
      Odd(Bit64(x, (i + 19) % 64), Bit64(x, (i + 61) % 64), Bit64(x >> 6, i));
      { Shift64By6(x, i); }
      Odd(Bit64(x, (i + 19) % 64), Bit64(x, (i + 61) % 64), Bit64(x, i + 6));
    }
  }

  lemma SmallSigma1Sum64(x: bv64, i: bv64)
    requires i < 64
    ensures Bit64(SmallSigma1In64(x), i)
         == Odd(Bit64(Rotr64(x, 19), i), Bit64(Rotr64(x, 61), i), Bit64(x >> 6, i))
  {
    SumBits64(SmallSigma1In64(x), Rotr64(x, 19), Rotr64(x, 61), x >> 6, i);
  }

  /** Where `e` is set, `f` is chosen, elsewhere `g`. */
  lemma ChooseBits64(e: bv64, f: bv64, g: bv64)
    ensures Choose64(e, f, g) & e == f & e
    ensures Choose64(e, f, g) & !e == g & !e
  {
  }

  /** Where `a` and `b` agree they decide, elsewhere `c` does. */
  lemma MajorityBits64(a: bv64, b: bv64, c: bv64)
    ensures Majority64(a, b, c) & !(a ^ b) == a & !(a ^ b)
    ensures Majority64(a, b, c) & (a ^ b) == c & (a ^ b)
  {
  }

  // ---------------- 32 bits: sums, rotations, shifts ----------------

  lemma XorBits32(a: bv32, b: bv32, i: bv32)
    requires i < 32
    ensures Bit32(Xor32(a, b), i) == (Bit32(a, i) != Bit32(b, i))
  {
    Differ32(a, b, i);
  }

  lemma Differ32(a: bv32, b: bv32, i: bv32)
    requires i < 32
    ensures Bit32(a ^ b, i) == (Bit32(a, i) != Bit32(b, i))
  {
  }

  /** The bits of a sum of three words. */
  lemma SumBits32(y: bv32, a: bv32, b: bv32, c: bv32, i: bv32)
    requires i < 32 && y == Xor32(Xor32(a, b), c)
    ensures Bit32(y, i) == Odd(Bit32(a, i), Bit32(b, i), Bit32(c, i))
  {
    XorBits32(a, b, i);
    XorBits32(Xor32(a, b), c, i);
    TwoSums32(y, Xor32(a, b), a, b, c, i);
  }

  lemma TwoSums32(y: bv32, d: bv32, a: bv32, b: bv32, c: bv32, i: bv32)
    requires Bit32(d, i) == (Bit32(a, i) != Bit32(b, i))
    requires Bit32(y, i) == (Bit32(d, i) != Bit32(c, i))
    ensures Bit32(y, i) == Odd(Bit32(a, i), Bit32(b, i), Bit32(c, i))
  {
  }

  lemma Rotate32By2(x: bv32, i: bv32)
    requires i < 32
    ensures Bit32(Rotr32(x, 2), i) == Bit32(x, (i + 2) % 32)
  {
    var m: bv32 := 1 << (i as bv6);
    assert 1 as bv32 << (((i + 2) % 32) as bv6) == (m << 2) | (m >> 30);
    Wires32By2(x, m);
  }

  lemma Wires32By2(x: bv32, m: bv32)
    ensures ((x >> 2) | (x << 30)) & m != 0 <==> x & ((m << 2) | (m >> 30)) != 0
  {
  }

  lemma Rotate32By13(x: bv32, i: bv32)
    requires i < 32
    ensures Bit32(Rotr32(x, 13), i) == Bit32(x, (i + 13) % 32)
  {
    var m: bv32 := 1 << (i as bv6);
    assert 1 as bv32 << (((i + 13) % 32) as bv6) == (m << 13) | (m >> 19);
    Wires32By13(x, m);
  }

  lemma Wires32By13(x: bv32, m: bv32)
    ensures ((x >> 13) | (x << 19)) & m != 0 <==> x & ((m << 13) | (m >> 19)) != 0
  {
  }

  lemma Rotate32By22(x: bv32, i: bv32)
    requires i < 32
    ensures Bit32(Rotr32(x, 22), i) == Bit32(x, (i + 22) % 32)
  {
    var m: bv32 := 1 << (i as bv6);
    assert 1 as bv32 << (((i + 22) % 32) as bv6) == (m << 22) | (m >> 10);
    Wires32By22(x, m);
  }

  lemma Wires32By22(x: bv32, m: bv32)
    ensures ((x >> 22) | (x << 10)) & m != 0 <==> x & ((m << 22) | (m >> 10)) != 0
  {
  }

  lemma Rotate32By6(x: bv32, i: bv32)
    requires i < 32
    ensures Bit32(Rotr32(x, 6), i) == Bit32(x, (i + 6) % 32)
  {
    var m: bv32 := 1 << (i as bv6);
    assert 1 as bv32 << (((i + 6) % 32) as bv6) == (m << 6) | (m >> 26);
    Wires32By6(x, m);
  }

  lemma Wires32By6(x: bv32, m: bv32)
    ensures ((x >> 6) | (x << 26)) & m != 0 <==> x & ((m << 6) | (m >> 26)) != 0
  {
  }

  lemma Rotate32By11(x: bv32, i: bv32)
    requires i < 32
    ensures Bit32(Rotr32(x, 11), i) == Bit32(x, (i + 11) % 32)
  {
    var m: bv32 := 1 << (i as bv6);
    assert 1 as bv32 << (((i + 11) % 32) as bv6) == (m << 11) | (m >> 21);
    Wires32By11(x, m);
  }

  lemma Wires32By11(x: bv32, m: bv32)
    ensures ((x >> 11) | (x << 21)) & m != 0 <==> x & ((m << 11) | (m >> 21)) != 0
  {
  }

  lemma Rotate32By25(x: bv32, i: bv32)
    requires i < 32
    ensures Bit32(Rotr32(x, 25), i) == Bit32(x, (i + 25) % 32)
  {
    var m: bv32 := 1 << (i as bv6);
    assert 1 as bv32 << (((i + 25) % 32) as bv6) == (m << 25) | (m >> 7);
    Wires32By25(x, m);
  }

  lemma Wires32By25(x: bv32, m: bv32)
    ensures ((x >> 25) | (x << 7)) & m != 0 <==> x & ((m << 25) | (m >> 7)) != 0
  {
  }

  lemma Rotate32By7(x: bv32, i: bv32)
    requires i < 32
    ensures Bit32(Rotr32(x, 7), i) == Bit32(x, (i + 7) % 32)
  {
    var m: bv32 := 1 << (i as bv6);
    assert 1 as bv32 << (((i + 7) % 32) as bv6) == (m << 7) | (m >> 25);
    Wires32By7(x, m);
  }

  lemma Wires32By7(x: bv32, m: bv32)
    ensures ((x >> 7) | (x << 25)) & m != 0 <==> x & ((m << 7) | (m >> 25)) != 0
  {
  }

  lemma Rotate32By18(x: bv32, i: bv32)
    requires i < 32
    ensures Bit32(Rotr32(x, 18), i) == Bit32(x, (i + 18) % 32)
  {
    var m: bv32 := 1 << (i as bv6);
    assert 1 as bv32 << (((i + 18) % 32) as bv6) == (m << 18) | (m >> 14);
    Wires32By18(x, m);
  }

  lemma Wires32By18(x: bv32, m: bv32)
    ensures ((x >> 18) | (x << 14)) & m != 0 <==> x & ((m << 18) | (m >> 14)) != 0
  {
  }

  lemma Rotate32By17(x: bv32, i: bv32)
    requires i < 32
    ensures Bit32(Rotr32(x, 17), i) == Bit32(x, (i + 17) % 32)
  {
    var m: bv32 := 1 << (i as bv6);
    assert 1 as bv32 << (((i + 17) % 32) as bv6) == (m << 17) | (m >> 15);
    Wires32By17(x, m);
  }

  lemma Wires32By17(x: bv32, m: bv32)
    ensures ((x >> 17) | (x << 15)) & m != 0 <==> x & ((m << 17) | (m >> 15)) != 0
  {
  }

  lemma Rotate32By19(x: bv32, i: bv32)
    requires i < 32
    ensures Bit32(Rotr32(x, 19), i) == Bit32(x, (i + 19) % 32)
  {
    var m: bv32 := 1 << (i as bv6);
    assert 1 as bv32 << (((i + 19) % 32) as bv6) == (m << 19) | (m >> 13);
    Wires32By19(x, m);
  }

  lemma Wires32By19(x: bv32, m: bv32)
    ensures ((x >> 19) | (x << 13)) & m != 0 <==> x & ((m << 19) | (m >> 13)) != 0
  {
  }

  lemma Shift32By3(x: bv32, i: bv32)
    requires i < 32
    ensures Bit32(x >> 3, i) == Bit32(x, i + 3)
  {
    var m: bv32 := 1 << (i as bv6);
    ShiftMask32By3(i, m);
    ShiftWires32By3(x, m);
  }

  lemma ShiftMask32By3(i: bv32, m: bv32)
    requires i < 32 && m == 1 << (i as bv6)
    ensures m << 3 == if i + 3 < 32 then 1 << ((i + 3) as bv6) else 0
  {
  }

  lemma ShiftWires32By3(x: bv32, m: bv32)
    ensures (x >> 3) & m != 0 <==> x & (m << 3) != 0
  {
  }

  lemma Shift32By10(x: bv32, i: bv32)
    requires i < 32
    ensures Bit32(x >> 10, i) == Bit32(x, i + 10)
  {
    var m: bv32 := 1 << (i as bv6);
    ShiftMask32By10(i, m);
    ShiftWires32By10(x, m);
  }

  lemma ShiftMask32By10(i: bv32, m: bv32)
    requires i < 32 && m == 1 << (i as bv6)
    ensures m << 10 == if i + 10 < 32 then 1 << ((i + 10) as bv6) else 0
  {
  }

  lemma ShiftWires32By10(x: bv32, m: bv32)
    ensures (x >> 10) & m != 0 <==> x & (m << 10) != 0
  {
  }

  // ---------------- 32 bits: the functions of section 4.1 ----------------

  lemma BigSigma0Bits32(x: bv32, i: bv32)
    requires i < 32
    ensures Bit32(BigSigma0In32(x), i)
         == Odd(Bit32(x, (i + 2) % 32), Bit32(x, (i + 13) % 32), Bit32(x, (i + 22) % 32))
  {
    calc {
      Bit32(BigSigma0In32(x), i);
      { BigSigma0Sum32(x, i); }
      Odd(Bit32(Rotr32(x, 2), i), Bit32(Rotr32(x, 13), i), Bit32(Rotr32(x, 22), i));
      { Rotate32By2(x, i); }
      Odd(Bit32(x, (i + 2) % 32), Bit32(Rotr32(x, 13), i), Bit32(Rotr32(x, 22), i));
      { Rotate32By13(x, i); }
      Odd(Bit32(x, (i + 2) % 32), Bit32(x, (i + 13) % 32), Bit32(Rotr32(x, 22), i));
      { Rotate32By22(x, i); }
      Odd(Bit32(x, (i + 2) % 32), Bit32(x, (i + 13) % 32), Bit32(x, (i + 22) % 32));
    }
  }

  lemma BigSigma0Sum32(x: bv32, i: bv32)
    requires i < 32
    ensures Bit32(BigSigma0In32(x), i)
         == Odd(Bit32(Rotr32(x, 2), i), Bit32(Rotr32(x, 13), i), Bit32(Rotr32(x, 22), i))
  {
    SumBits32(BigSigma0In32(x), Rotr32(x, 2), Rotr32(x, 13), Rotr32(x, 22), i);
  }

  lemma BigSigma1Bits32(x: bv32, i: bv32)
    requires i < 32
    ensures Bit32(BigSigma1In32(x), i)
         == Odd(Bit32(x, (i + 6) % 32), Bit32(x, (i + 11) % 32), Bit32(x, (i + 25) % 32))
  {
    calc {
      Bit32(BigSigma1In32(x), i);
      { BigSigma1Sum32(x, i); }
      Odd(Bit32(Rotr32(x, 6), i), Bit32(Rotr32(x, 11), i), Bit32(Rotr32(x, 25), i));
      { Rotate32By6(x, i); }
      Odd(Bit32(x, (i + 6) % 32), Bit32(Rotr32(x, 11), i), Bit32(Rotr32(x, 25), i));
      { Rotate32By11(x, i); }
      Odd(Bit32(x, (i + 6) % 32), Bit32(x, (i + 11) % 32), Bit32(Rotr32(x, 25), i));
      { Rotate32By25(x, i); }
      Odd(Bit32(x, (i + 6) % 32), Bit32(x, (i + 11) % 32), Bit32(x, (i + 25) % 32));
    }
  }

  lemma BigSigma1Sum32(x: bv32, i: bv32)
    requires i < 32
    ensures Bit32(BigSigma1In32(x), i)
         == Odd(Bit32(Rotr32(x, 6), i), Bit32(Rotr32(x, 11), i), Bit32(Rotr32(x, 25), i))
  {
    SumBits32(BigSigma1In32(x), Rotr32(x, 6), Rotr32(x, 11), Rotr32(x, 25), i);
  }

  lemma SmallSigma0Bits32(x: bv32, i: bv32)
    requires i < 32
    ensures Bit32(SmallSigma0In32(x), i)
         == Odd(Bit32(x, (i + 7) % 32), Bit32(x, (i + 18) % 32), Bit32(x, i + 3))
  {
    calc {
      Bit32(SmallSigma0In32(x), i);
      { SmallSigma0Sum32(x, i); }
      Odd(Bit32(Rotr32(x, 7), i), Bit32(Rotr32(x, 18), i), Bit32(x >> 3, i));
      { Rotate32By7(x, i); }
      Odd(Bit32(x, (i + 7) % 32), Bit32(Rotr32(x, 18), i), Bit32(x >> 3, i));
      { Rotate32By18(x, i); }
      Odd(Bit32(x, (i + 7) % 32), Bit32(x, (i + 18) % 32), Bit32(x >> 3, i));
      { Shift32By3(x, i); }
      Odd(Bit32(x, (i + 7) % 32), Bit32(x, (i + 18) % 32), Bit32(x, i + 3));
    }
  }

  lemma SmallSigma0Sum32(x: bv32, i: bv32)
    requires i < 32
    ensures Bit32(SmallSigma0In32(x), i)
         == Odd(Bit32(Rotr32(x, 7), i), Bit32(Rotr32(x, 18), i), Bit32(x >> 3, i))
  {
    SumBits32(SmallSigma0In32(x), Rotr32(x, 7), Rotr32(x, 18), x >> 3, i);
  }

  lemma SmallSigma1Bits32(x: bv32, i: bv32)
    requires i < 32
    ensures Bit32(SmallSigma1In32(x), i)
         == Odd(Bit32(x, (i + 17) % 32), Bit32(x, (i + 19) % 32), Bit32(x, i + 10))
  {
    calc {
      Bit32(SmallSigma1In32(x), i);
      { SmallSigma1Sum32(x, i); }
      Odd(Bit32(Rotr32(x, 17), i), Bit32(Rotr32(x, 19), i), Bit32(x >> 10, i));
      { Rotate32By17(x, i); }
      Odd(Bit32(x, (i + 17) % 32), Bit32(Rotr32(x, 19), i), Bit32(x >> 10, i));
      { Rotate32By19(x, i); }
      Odd(Bit32(x, (i + 17) % 32), Bit32(x, (i + 19) % 32), Bit32(x >> 10, i));
      { Shift32By10(x, i); }
      Odd(Bit32(x, (i + 17) % 32), Bit32(x, (i + 19) % 32), Bit32(x, i + 10));
    }
  }

  lemma SmallSigma1Sum32(x: bv32, i: bv32)
    requires i < 32
    ensures Bit32(SmallSigma1In32(x), i)
         == Odd(Bit32(Rotr32(x, 17), i), Bit32(Rotr32(x, 19), i), Bit32(x >> 10, i))
  {
    SumBits32(SmallSigma1In32(x), Rotr32(x, 17), Rotr32(x, 19), x >> 10, i);
  }

  /** Where `e` is set, `f` is chosen, elsewhere `g`. */
  lemma ChooseBits32(e: bv32, f: bv32, g: bv32)
    ensures Choose32(e, f, g) & e == f & e
    ensures Choose32(e, f, g) & !e == g & !e
  {
  }

  /** Where `a` and `b` agree they decide, elsewhere `c` does. */
  lemma MajorityBits32(a: bv32, b: bv32, c: bv32)
    ensures Majority32(a, b, c) & !(a ^ b) == a & !(a ^ b)
    ensures Majority32(a, b, c) & (a ^ b) == c & (a ^ b)
  {
  }

  // ---------------- bytes ----------------

  /** The octets of a word are its big-endian bytes. */
  lemma BigEndian64(w: bv64)
    ensures w == (Octet64(w, 0) as bv64 << 56) | (Octet64(w, 1) as bv64 << 48)
               | (Octet64(w, 2) as bv64 << 40) | (Octet64(w, 3) as bv64 << 32)
               | (Octet64(w, 4) as bv64 << 24) | (Octet64(w, 5) as bv64 << 16)
               | (Octet64(w, 6) as bv64 << 8) | Octet64(w, 7) as bv64
  {
  }

  lemma BigEndian32(w: bv32)
    ensures w == (Octet32(w, 0) as bv32 << 24) | (Octet32(w, 1) as bv32 << 16)
               | (Octet32(w, 2) as bv32 << 8) | Octet32(w, 3) as bv32
  {
  }
}
