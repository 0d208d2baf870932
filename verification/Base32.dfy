/** The base32 encoders of src/jwt_utils.cpp: a 32-bit buffer from which five bits at a time
are taken while at least five are pending.  The buffer is never cleared, so it wraps; the
loops still emit the RFC 4648 section 6 regrouping. */
module Base32 {
  import opened Bits
  import opened Radix

  const LETTERS := "ABCDEFGHIJKLMNOPQRSTUVWXYZ"
  const DIGITS := "234567"
  const ALPHABET := LETTERS + DIGITS

  lemma LettersAt()
    ensures |LETTERS| == 26 && forall i :: 0 <= i < 26 ==> LETTERS[i] as int == 'A' as int + i
  {
  }

  lemma DigitsAt()
    ensures |DIGITS| == 6 && forall i :: 0 <= i < 6 ==> DIGITS[i] as int == '2' as int + i
  {
  }

  lemma AlphabetDistinct()
    ensures |ALPHABET| == Pow2(5) == 32 && Distinct(ALPHABET)
  {
    Pow2Small();
    LettersAt();
    DigitsAt();
    DistinctConcat(LETTERS, DIGITS);
  }

  lemma DistinctConcat(a: string, b: string)
    requires forall i :: 0 <= i < |a| ==> a[i] as int == 'A' as int + i
    requires forall i :: 0 <= i < |b| ==> b[i] as int == '2' as int + i
    requires |b| < 10
    ensures Distinct(a + b)
  {
  }

  /** The text RFC 4648 section 6 assigns to the bytes, without padding. */
  ghost function Spelled(data: seq<byte>): (text: string) {
    AlphabetDistinct();
    Text(ALPHABET, data, 5)
  }

  /** `buffer = (buffer << 8) | byte`. */
  function Push(buffer: nat, b: byte): nat {
    Or(Shl32(buffer, 8), b)
  }

  /** `(buffer >> bits) & 0x1F`. */
  function Peek(buffer: nat, bits: nat): nat {
    And(Shr(buffer, bits), 0x1F)
  }

  /** `(buffer << (5 - bits)) & 0x1F`. */
  function Last(buffer: nat, bits: nat): nat
    requires bits <= 5
  {
    And(Shl32(buffer, 5 - bits), 0x1F)
  }

  lemma Pow2Is(k: nat)
    requires k <= 32
    ensures Pow2(32) == WORD32 && Pow2(32) == Pow2(32 - k) * Pow2(k)
  {
    Pow2Small();
    Pow2Add(16, 16);
    Pow2Add(32 - k, k);
  }

  lemma PushMod(buffer: nat, b: byte, q: nat, p: nat)
    requires q > 0 && p > 0 && q * p == 0x100_0000
    ensures (buffer % 0x100_0000 * 256 + b) % (p * 256) == buffer % p * 256 + b
  {
    ModOfMod(buffer, q, p);
    ScaledMod(buffer % 0x100_0000, p, 256, b);
  }

  lemma ShiftedByte(buffer: nat)
    ensures Shl32(buffer, 8) == buffer % 0x100_0000 * 256
  {
    Pow2Small();
    ScaledMod(buffer, 0x100_0000, 256, 0);
  }

  lemma PushShifts(buffer: nat, b: byte)
    ensures Push(buffer, b) == buffer % 0x100_0000 * 256 + b
  {
    ShiftedByte(buffer);
    OrByte(buffer % 0x100_0000, b);
  }

  lemma OrByte(x: nat, b: byte)
    ensures Or(x * 256, b) == x * 256 + b
  {
    Pow2Small();
    OrDisjoint(x, 8, b);
  }

  lemma PushedBits(v: nat, buffer: nat, b: byte, pending: seq<bool>)
    requires |pending| < 5 && buffer % Pow2(|pending|) == FromBits(pending)
    requires v == buffer % 0x100_0000 * 256 + b
    ensures v % Pow2(|pending| + 8) == FromBits(pending) * 256 + b
  {
    var n := |pending|;
    Pow2Small();
    Pow2Add(24 - n, n);
    Pow2Add(12, 12);
    Pow2Add(n, 8);
    PushMod(buffer, b, Pow2(24 - n), Pow2(n));
  }

  lemma PendingByte(b: byte, pending: seq<bool>)
    ensures FromBits(pending + ToBits(b, 8)) == FromBits(pending) * 256 + b
  {
    Pow2Small();
    FromBitsConcat(pending, ToBits(b, 8));
    FromToBits(b, 8);
  }

  /** The pending bits of the buffer are its low ones; a new byte goes below them. */
  lemma PushPending(buffer: nat, b: byte, pending: seq<bool>)
    requires |pending| < 5 && buffer % Pow2(|pending|) == FromBits(pending)
    ensures Push(buffer, b) % Pow2(|pending| + 8) == FromBits(pending + ToBits(b, 8))
  {
    PushShifts(buffer, b);
    PushedBits(Push(buffer, b), buffer, b, pending);
    PendingByte(b, pending);
  }

  /** Taking five bits: the first five pending ones, and the rest stay pending. */
  lemma PeekPending(buffer: nat, pending: seq<bool>)
    requires |pending| >= 5 && buffer % Pow2(|pending|) == FromBits(pending)
    ensures Peek(buffer, |pending| - 5) == FromBits(pending[..5]) < 32
    ensures buffer % Pow2(|pending| - 5) == FromBits(pending[5..])
  {
    var k := |pending| - 5;
    var first, rest := pending[..5], pending[5..];
    Pow2Small();
    assert pending == first + rest;
    FromBitsConcat(first, rest);
    FromBitsBound(first);
    FromBitsBound(rest);
    Pow2Add(5, k);
    AndMask(Shr(buffer, k), 5, 32);
    DigitOfMod(buffer, Pow2(k), 32);
    ModOfMod(buffer, 32, Pow2(k));
    DivModUnique(FromBits(pending), Pow2(k), FromBits(first), FromBits(rest));
  }

  /** The last symbol: the pending bits, filled up with zero bits on the right. */
  lemma LastPending(buffer: nat, pending: seq<bool>)
    requires 0 < |pending| < 5 && buffer % Pow2(|pending|) == FromBits(pending)
    ensures Group(pending, 5) == [Last(buffer, |pending|)]
    ensures Last(buffer, |pending|) < 32
  {
    var n, j := |pending|, 5 - |pending|;
    Pow2Small();
    LastIs(buffer, n);
    FromBitsConcat(pending, Zeros(j));
    FromBitsZeros(j);
    FromBitsBound(pending + Zeros(j));
  }

  lemma LastIs(buffer: nat, n: nat)
    requires 0 < n < 5
    ensures Last(buffer, n) == buffer % Pow2(n) * Pow2(5 - n)
  {
    var j := 5 - n;
    Pow2Small();
    Pow2Is(5);
    AndMask(Shl32(buffer, j), 5, 32);
    ModOfMod(buffer * Pow2(j), Pow2(27), 32);
    Pow2Add(n, j);
    ScaledMod(buffer, Pow2(n), Pow2(j), 0);
  }

  /** What both loops keep: `out` spells the whole groups of the bits read so far, the `bits`
      pending ones are the low bits of the buffer. */
  ghost predicate Emitted(alphabet: string, s: seq<bool>, bits: nat, buffer: nat, out: string) {
    && |s| == 5 * |out| + bits
    && InRange(alphabet, Group(s[..5 * |out|], 5))
    && out == Symbols(alphabet, Group(s[..5 * |out|], 5))
    && buffer % Pow2(bits) == FromBits(s[5 * |out|..])
  }

  lemma PushStep(alphabet: string, s: seq<bool>, bits: nat, buffer: nat, out: string, b: byte)
    requires |alphabet| == 32
    requires Emitted(alphabet, s, bits, buffer, out) && bits < 5
    ensures Emitted(alphabet, s + ToBits(b, 8), bits + 8, Push(buffer, b), out)
  {
    var n, t := 5 * |out|, s + ToBits(b, 8);
    PushPending(buffer, b, s[n..]);
    assert t[n..] == s[n..] + ToBits(b, 8);
    assert t[..n] == s[..n];
  }

  lemma PeekStep(alphabet: string, s: seq<bool>, bits: nat, buffer: nat, out: string)
    requires |alphabet| == 32
    requires Emitted(alphabet, s, bits, buffer, out) && bits >= 5
    ensures Peek(buffer, bits - 5) < |alphabet|
    ensures Emitted(alphabet, s, bits - 5, buffer, out + [alphabet[Peek(buffer, bits - 5)]])
  {
    var n := 5 * |out|;
    var pending := s[n..];
    PeekPending(buffer, pending);
    assert pending[5..] == s[n + 5..];
    GroupConcat(s[..n], pending[..5], 5, |out|);
    assert s[..n + 5] == s[..n] + pending[..5];
    assert pending[..5] + Zeros(0) == pending[..5];
  }

  lemma LastStep(alphabet: string, s: seq<bool>, bits: nat, buffer: nat, out: string)
    requires |alphabet| == 32
    requires Emitted(alphabet, s, bits, buffer, out) && bits < 5
    ensures bits == 0 ==> InRange(alphabet, Group(s, 5)) && out == Symbols(alphabet, Group(s, 5))
    ensures bits > 0 ==> Last(buffer, bits) < |alphabet| && InRange(alphabet, Group(s, 5))
    ensures bits > 0 ==> out + [alphabet[Last(buffer, bits)]] == Symbols(alphabet, Group(s, 5))
  {
    var n := 5 * |out|;
    if bits > 0 {
      LastPending(buffer, s[n..]);
      GroupConcat(s[..n], s[n..], 5, |out|);
      assert s == s[..n] + s[n..];
    } else {
      assert s[..n] == s;
    }
  }

  lemma ExpandNext(data: seq<byte>, i: nat)
    requires i < |data|
    ensures Expand(data[..i + 1], 8) == Expand(data[..i], 8) + ToBits(data[i], 8)
  {
    ExpandConcat(data[..i], [data[i]], 8);
    ExpandCons(data[i], [], 8);
    assert data[..i + 1] == data[..i] + [data[i]] && [data[i]] == [data[i]] + [];
    assert ToBits(data[i], 8) + [] == ToBits(data[i], 8);
  }

  /** `while (bits >= 5) { bits -= 5; out.push_back(alphabet[(buffer >> bits) & 0x1F]); }` */
  method Drain(alphabet: string, ghost s: seq<bool>, pending: nat, buffer: nat, before: string)
    returns (bits: nat, out: string)
    requires |alphabet| == 32 && Emitted(alphabet, s, pending, buffer, before)
    ensures bits < 5 && Emitted(alphabet, s, bits, buffer, out)
  {
    bits, out := pending, before;
    while bits >= 5
      invariant Emitted(alphabet, s, bits, buffer, out)
    {
      PeekStep(alphabet, s, bits, buffer, out);
      bits := bits - 5;
      out := out + [alphabet[Peek(buffer, bits)]];
    }
  }

  /** The encoder loop of `computeJti` and `base32StdPadded`, for any alphabet of 32 symbols. */
  method EncodeWith(alphabet: string, data: seq<byte>) returns (out: string)
    requires |alphabet| == Pow2(5) == 32
    ensures out == Text(alphabet, data, 5)
  {
    out := "";
    var buffer: nat, bits: nat := 0, 0;
    ghost var s: seq<bool> := [];
    for i := 0 to |data|
      invariant bits < 5
      invariant s == Expand(data[..i], 8)
      invariant Emitted(alphabet, s, bits, buffer, out)
    {
      PushStep(alphabet, s, bits, buffer, out, data[i]);
      ExpandNext(data, i);
      s := s + ToBits(data[i], 8);
      buffer := Push(buffer, data[i]);
      bits, out := Drain(alphabet, s, bits + 8, buffer, out);
    }
    assert data[..|data|] == data;
    LastStep(alphabet, s, bits, buffer, out);
    if bits > 0 {
      out := out + [alphabet[Last(buffer, bits)]];
    }
  }

  method EncodeNoPad(data: seq<byte>) returns (out: string)
    ensures out == Spelled(data)
  {
    AlphabetDistinct();
    out := EncodeWith(ALPHABET, data);
  }

  /** `text` filled up with `=` to a multiple of eight characters. */
  ghost predicate IsPadded(text: string, padded: string) {
    && |padded| % 8 == 0
    && |text| <= |padded| < |text| + 8
    && padded == text + seq(|padded| - |text|, _ => '=')
  }

  method StdPadded(data: seq<byte>) returns (out: string)
    ensures IsPadded(Spelled(data), out)
  {
    out := EncodeNoPad(data);
    out := PadText(out);
  }

  /** `while (out.size() % 8) out.push_back('=');` */
  method PadText(text: string) returns (out: string)
    ensures IsPadded(text, out)
  {
    out := text;
    ghost var start := (8 - |text| % 8) % 8;
    while |out| % 8 != 0
      invariant |text| <= |out| <= |text| + start
      invariant out == text + seq(|out| - |text|, _ => '=')
      decreases |text| + start - |out|
    {
      out := out + "=";
    }
  }

  /** ceil(8n / 5) symbols of the alphabet: 52 for a 32-byte digest, 56 when padded. */
  lemma SpelledShape(data: seq<byte>)
    ensures |Spelled(data)| == (8 * |data| + 4) / 5
    ensures forall c :: c in Spelled(data) ==> c in ALPHABET
    ensures |data| == 32 ==> |Spelled(data)| == 52
    ensures |data| == 32 ==> forall padded :: IsPadded(Spelled(data), padded) ==> |padded| == 56
  {
    AlphabetDistinct();
    TextShape(ALPHABET, data, 5);
  }

  lemma SpelledInjective(a: seq<byte>, b: seq<byte>)
    requires Spelled(a) == Spelled(b)
    ensures a == b
  {
    AlphabetDistinct();
    Pow2Small();
    TextInjective(ALPHABET, a, b, 5);
  }

  // ---------------- symbol by symbol ----------------

  /** `c` is the symbol of `v` in table 3 of RFC 4648: A to Z for 0 to 25, 2 to 7 for 26 to 31. */
  predicate SymbolOf(c: char, v: nat) {
    if v < 26 then c as int == 'A' as int + v else v < 32 && c as int == '2' as int + (v - 26)
  }

  lemma AlphabetAt(v: nat)
    requires v < 32
    ensures |ALPHABET| == 32 && SymbolOf(ALPHABET[v], v)
  {
    LettersAt();
    DigitsAt();
    if v < 26 {
      assert ALPHABET[v] == LETTERS[v];
    } else {
      assert ALPHABET[v] == DIGITS[v - 26];
    }
  }

  /** Five bits of the bytes, read from left to right from bit `m` on, as a number. */
  function Five(data: seq<byte>, m: nat): nat {
    16 * BitAt(data, m) + 8 * BitAt(data, m + 1) + 4 * BitAt(data, m + 2) + 2 * BitAt(data, m + 3)
      + BitAt(data, m + 4)
  }

  /** Symbol `k` is that of the five bits from bit 5k on. */
  lemma SpelledAt(data: seq<byte>, k: nat)
    requires k < |Spelled(data)|
    ensures SymbolOf(Spelled(data)[k], Five(data, 5 * k))
  {
    AlphabetDistinct();
    EncodeShape(data, 5);
    var v := Encode(data, 5)[k];
    EncodeBit(data, 5, k, 0, 5 * k);
    EncodeBit(data, 5, k, 1, 5 * k + 1);
    EncodeBit(data, 5, k, 2, 5 * k + 2);
    EncodeBit(data, 5, k, 3, 5 * k + 3);
    EncodeBit(data, 5, k, 4, 5 * k + 4);
    FiveBits(v);
    AlphabetAt(v);
  }

  lemma FiveBits(v: nat)
    requires v < 32
    ensures v == 16 * (Shr(v, 4) % 2) + 8 * (Shr(v, 3) % 2) + 4 * (Shr(v, 2) % 2) + 2 * (Shr(v, 1) % 2)
               + Shr(v, 0) % 2
  {
    Pow2Small();
  }
}
