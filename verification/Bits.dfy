/** Words as natural numbers, and numbers as big-endian bit strings.

The codecs of src/jwt_utils.cpp and src/base64url.cpp work on unsigned machine words with
shifts, `|` and `&`.  Here a word is a `nat`; a shift is a division or a wrapped multiplication
by a power of two, and `|`, `&` are defined bit by bit, so that what they mean on disjoint
operands and on masks is a lemma and not an assumption. */
module Bits {
  type byte = x: int | 0 <= x < 256

  function Pow2(n: nat): (p: nat)
    ensures p > 0
  {
    if n == 0 then 1 else 2 * Pow2(n - 1)
  }

  lemma {:induction false} Pow2Add(a: nat, b: nat)
    ensures Pow2(a + b) == Pow2(a) * Pow2(b)
  {
    if b > 0 {
      Pow2Add(a, b - 1);
      assert Pow2(a + b) == 2 * Pow2(a + b - 1);
      assert Pow2(a) * Pow2(b) == 2 * (Pow2(a) * Pow2(b - 1));
    }
  }

  lemma Pow2Small()
    ensures Pow2(0) == 1 && Pow2(1) == 2 && Pow2(2) == 4 && Pow2(3) == 8 && Pow2(4) == 16
    ensures Pow2(5) == 32 && Pow2(6) == 64 && Pow2(7) == 128 && Pow2(8) == 256
    ensures Pow2(12) == 0x1000 && Pow2(16) == 0x1_0000 && Pow2(18) == 0x4_0000
  {
    assert Pow2(2) == 4;
    assert Pow2(4) == 16;
    assert Pow2(6) == 64;
    assert Pow2(8) == 256;
    Pow2Add(8, 4);
    Pow2Add(8, 8);
    Pow2Add(16, 2);
  }

  // ---------------- machine operations ----------------

  const WORD32: nat := 0x1_0000_0000

  /** `x << k` on a 32-bit unsigned word: the bits shifted out are lost. */
  function Shl32(x: nat, k: nat): nat {
    x * Pow2(k) % WORD32
  }

  lemma Shl32Fits(x: nat, k: nat)
    requires x * Pow2(k) < WORD32
    ensures Shl32(x, k) == x * Pow2(k)
  {
  }

  /** `x >> k` on an unsigned word. */
  function Shr(x: nat, k: nat): nat {
    DivNonNegative(x, Pow2(k));
    x / Pow2(k)
  }

  lemma DivNonNegative(x: nat, m: nat)
    requires m > 0
    ensures x / m >= 0
  {
  }

  function Or(x: nat, y: nat): nat {
    if x == 0 then y
    else (if x % 2 == 1 || y % 2 == 1 then 1 else 0) + 2 * Or(x / 2, y / 2)
  }

  function And(x: nat, y: nat): nat {
    if x == 0 then 0
    else (if x % 2 == 1 && y % 2 == 1 then 1 else 0) + 2 * And(x / 2, y / 2)
  }

  /** On operands without a common bit `|` is addition. */
  lemma {:induction false} OrDisjoint(x: nat, k: nat, y: nat)
    requires y < Pow2(k)
    ensures Or(x * Pow2(k), y) == x * Pow2(k) + y
  {
    if x == 0 {
    } else if k == 0 {
      OrZero(x);
    } else {
      var z := x * Pow2(k);
      assert z == 2 * (x * Pow2(k - 1));
      assert z / 2 == x * Pow2(k - 1);
      OrDisjoint(x, k - 1, y / 2);
    }
  }

  lemma {:induction false} OrZero(x: nat)
    ensures Or(x, 0) == x
  {
    if x > 0 {
      OrZero(x / 2);
    }
  }

  /** `& (2^k - 1)` keeps the k low bits. */
  lemma {:induction false} AndMask(x: nat, k: nat, m: nat)
    requires m == Pow2(k)
    ensures And(x, m - 1) == x % m
  {
    if x == 0 {
      ModSmall(0, m);
    } else if k == 0 {
      AndZero(x);
    } else {
      var half := Pow2(k - 1);
      AndMask(x / 2, k - 1, half);
      assert (m - 1) / 2 == half - 1 && (m - 1) % 2 == 1;
      HalfMod(x, half);
    }
  }

  lemma ModSmall(x: nat, m: nat)
    requires x < m
    ensures x % m == x && x / m == 0
  {
    DivModUnique(x, m, 0, x);
  }

  lemma {:induction false} AndZero(x: nat)
    ensures And(x, 0) == 0
  {
    if x > 0 {
      AndZero(x / 2);
    }
  }

  lemma HalfMod(x: nat, m: nat)
    requires m > 0
    ensures x % (2 * m) == x % 2 + 2 * (x / 2 % m)
  {
    var q := x / 2 / m;
    assert x / 2 == q * m + x / 2 % m;
    assert x == q * (2 * m) + (x % 2 + 2 * (x / 2 % m));
    DivModUnique(x, 2 * m, q, x % 2 + 2 * (x / 2 % m));
  }

  lemma DivModUnique(x: nat, m: nat, q: nat, r: nat)
    requires x == q * m + r && r < m
    ensures x / m == q && x % m == r
  {
    var d := x / m - q;
    assert x == x / m * m + x % m;
    assert d * m == r - x % m by {
      assert d * m == x / m * m - q * m;
    }
    MulOutside(d, m);
  }

  lemma MulOutside(d: int, m: int)
    requires m > 0
    ensures d >= 1 ==> d * m >= m
    ensures d <= -1 ==> d * m <= -m
  {
    if d >= 1 {
      assert d * m == m + (d - 1) * m;
    } else if d <= -1 {
      assert d * m == -m + (d + 1) * m;
    }
  }

  /** The low part of a low part. */
  lemma ModOfMod(x: nat, c: nat, m: nat)
    requires c > 0 && m > 0 && c * m > 0
    ensures x % (c * m) % m == x % m
  {
    var q, r := x / (c * m), x % (c * m);
    DivNonNegative(x, c * m);
    DivNonNegative(r, m);
    assert q * (c * m) == (q * c) * m;
    assert x == (q * c + r / m) * m + r % m;
    DivModUnique(x, m, q * c + r / m, r % m);
  }

  /** Appending a low part below a scaled word. */
  lemma ScaledMod(x: nat, m: nat, a: nat, b: nat)
    requires m > 0 && b < a && m * a > 0
    ensures (x * a + b) % (m * a) == x % m * a + b
  {
    var q, r := x / m, x % m;
    DivNonNegative(x, m);
    assert x * a == (q * m + r) * a == q * (m * a) + r * a;
    assert r * a + b < m * a by {
      assert (m - r) * a >= a by {
        MulOutside(m - r, a);
      }
    }
    DivModUnique(x * a + b, m * a, q, r * a + b);
  }

  /** Shifting right and masking reads the same digit from a low part that contains it. */
  lemma DigitOfMod(x: nat, a: nat, b: nat)
    requires a > 0 && b > 0 && b * a > 0
    ensures x / a % b == x % (b * a) / a
  {
    var q, r := x / (b * a), x % (b * a);
    DivNonNegative(x, b * a);
    DivNonNegative(r, a);
    var d, e := r / a, r % a;
    assert d < b by {
      if d >= b {
        MulOutside(d - b + 1, a);
      }
    }
    assert q * (b * a) == (q * b) * a;
    assert x == (q * b + d) * a + e;
    DivModUnique(x, a, q * b + d, e);
    DivModUnique(q * b + d, b, q, d);
  }

  lemma DivDiv(x: nat, a: nat, b: nat)
    requires a > 0 && b > 0 && a * b > 0
    ensures 0 <= x / a && x / a / b == x / (a * b)
  {
    var q, r := x / (a * b), x % (a * b);
    DivNonNegative(x, a * b);
    DivNonNegative(r, a);
    assert r / a < b by {
      if r / a >= b {
        MulOutside(r / a - b + 1, a);
      }
    }
    assert q * (a * b) == (q * b) * a;
    assert x == (q * b + r / a) * a + r % a;
    DivModUnique(x, a, q * b + r / a, r % a);
    DivModUnique(q * b + r / a, b, q, r / a);
  }

  lemma {:induction false} Pow2Monotone(a: nat, b: nat)
    requires a <= b
    ensures Pow2(a) <= Pow2(b)
  {
    if a < b {
      Pow2Monotone(a, b - 1);
    }
  }

  /** `v` with its `k` low bits cleared. */
  function Cleared(v: nat, k: nat): (r: nat)
    ensures r <= v
    ensures r == v <==> v % Pow2(k) == 0
  {
    DivNonNegative(v, Pow2(k));
    v / Pow2(k) * Pow2(k)
  }

  // ---------------- bit strings ----------------

  /** The `w` low bits of `v`, the most significant first. */
  function ToBits(v: nat, w: nat): (s: seq<bool>)
    ensures |s| == w
  {
    if w == 0 then [] else ToBits(v / 2, w - 1) + [v % 2 == 1]
  }

  function FromBits(s: seq<bool>): nat {
    if s == [] then 0
    else 2 * FromBits(s[..|s| - 1]) + (if s[|s| - 1] then 1 else 0)
  }

  function Zeros(n: nat): (s: seq<bool>)
    ensures |s| == n
  {
    seq(n, _ => false)
  }

  lemma {:induction false} FromBitsBound(s: seq<bool>)
    ensures FromBits(s) < Pow2(|s|)
  {
    if s != [] {
      FromBitsBound(s[..|s| - 1]);
    }
  }

  lemma {:induction false} FromToBits(v: nat, w: nat)
    requires v < Pow2(w)
    ensures FromBits(ToBits(v, w)) == v
  {
    if w > 0 {
      FromToBits(v / 2, w - 1);
      assert ToBits(v, w)[..w - 1] == ToBits(v / 2, w - 1);
    }
  }

  lemma {:induction false} ToFromBits(s: seq<bool>)
    ensures ToBits(FromBits(s), |s|) == s
  {
    if s != [] {
      ToFromBits(s[..|s| - 1]);
      assert s == s[..|s| - 1] + [s[|s| - 1]];
    }
  }

  lemma {:induction false} FromBitsConcat(a: seq<bool>, b: seq<bool>)
    ensures FromBits(a + b) == FromBits(a) * Pow2(|b|) + FromBits(b)
  {
    if b == [] {
      assert a + b == a;
    } else {
      var b', last := b[..|b| - 1], if b[|b| - 1] then 1 else 0;
      assert (a + b)[..|a + b| - 1] == a + b';
      FromBitsConcat(a, b');
      NextBit(FromBits(a), Pow2(|b'|), FromBits(b'), last);
    }
  }

  lemma NextBit(x: nat, p: nat, y: nat, bit: nat)
    ensures 2 * (x * p + y) + bit == x * (2 * p) + (2 * y + bit)
  {
  }

  lemma {:induction false} FromBitsZeros(n: nat)
    ensures FromBits(Zeros(n)) == 0
  {
    if n > 0 {
      FromBitsZeros(n - 1);
      assert Zeros(n)[..n - 1] == Zeros(n - 1);
    }
  }
}
