/** The SHA-2 core vendored in src/jwt_utils.cpp.

The file holds two copies of one algorithm, `sha512_256` and `sha256_impl`, that differ in word
width, rotation counts, constants, block size and the width of the length field.  Here the
algorithm is written once over a record of those differences (Sha2Variants gives the two
records), with the loops of the source on arrays; the specification follows FIPS 180-4. */
module Sha2 {
  import opened Bits

  datatype Variant<!W> = Variant(
    wordBytes: nat,
    blockBytes: nat,
    lengthBytes: nat,                // width of the length field in the padding
    rounds: nat,
    outWords: nat,                   // words of the final hash value that are returned
    zero: W,
    iv: seq<W>,
    k: seq<W>,
    add: (W, W) -> W,                // addition modulo 2^w
    shiftIn: (W, byte) -> W,         // (w << 8) | byte
    byteOf: (W, nat) -> byte,        // byte b of a word, the most significant first
    bigSigma0: W -> W,
    bigSigma1: W -> W,
    smallSigma0: W -> W,
    smallSigma1: W -> W,
    choose: (W, W, W) -> W,
    majority: (W, W, W) -> W)

  predicate WellFormed<W>(p: Variant<W>) {
    && ((p.wordBytes == 4 && p.rounds == 64) || (p.wordBytes == 8 && p.rounds == 80))
    && p.blockBytes == 16 * p.wordBytes
    && p.lengthBytes == 2 * p.wordBytes
    && p.outWords <= 8
    && |p.iv| == 8
    && |p.k| == p.rounds
  }

  ghost predicate AddLaws<W(!new)>(p: Variant<W>) {
    && (forall x, y :: p.add(x, y) == p.add(y, x))
    && (forall x, y, z :: p.add(p.add(x, y), z) == p.add(x, p.add(y, z)))
  }

  // ---------------- FIPS 180-4, sections 6.2.2 and 6.4.2 ----------------

  /** The word whose big-endian bytes are given. */
  function Load<W>(p: Variant<W>, bytes: seq<byte>): W {
    if bytes == [] then p.zero
    else p.shiftIn(Load(p, bytes[..|bytes| - 1]), bytes[|bytes| - 1])
  }

  /** Word `t` of the message schedule. */
  function Schedule<W>(p: Variant<W>, block: seq<byte>, t: nat): W
    requires |block| == 16 * p.wordBytes
  {
    if t < 16 then
      assert p.wordBytes * t + p.wordBytes <= |block| by { MulLe(p.wordBytes, t + 1, 16); }
      Load(p, block[p.wordBytes * t..p.wordBytes * t + p.wordBytes])
    else
      p.add(p.add(p.add(Schedule(p, block, t - 16), p.smallSigma0(Schedule(p, block, t - 15))),
                  Schedule(p, block, t - 7)), p.smallSigma1(Schedule(p, block, t - 2)))
  }

  lemma MulNext(c: nat, m: nat)
    ensures (c + 1) * m == c * m + m
  {
  }

  lemma WholePart(n: nat, m: nat)
    requires m > 0
    ensures 0 <= n / m && n - n % m == n / m * m
  {
    DivNonNegative(n, m);
  }

  lemma SplitAndAppend(msg: seq<byte>, off: nat, tail: seq<byte>)
    requires off <= |msg|
    ensures msg + tail == msg[..off] + (msg[off..] + tail)
  {
  }

  lemma MulLe(m: nat, x: nat, y: nat)
    requires x <= y
    ensures m * x <= m * y
  {
  }

  /** The schedule satisfies the recurrence as FIPS 180-4 writes it, in its order of summands. */
  lemma FipsRecurrence<W(!new)>(p: Variant<W>, block: seq<byte>, t: nat)
    requires |block| == 16 * p.wordBytes && t >= 16 && AddLaws(p)
    ensures Schedule(p, block, t)
         == p.add(p.add(p.add(p.smallSigma1(Schedule(p, block, t - 2)), Schedule(p, block, t - 7)),
                        p.smallSigma0(Schedule(p, block, t - 15))), Schedule(p, block, t - 16))
  {
    SumReversed(p, Schedule(p, block, t - 16), p.smallSigma0(Schedule(p, block, t - 15)),
                Schedule(p, block, t - 7), p.smallSigma1(Schedule(p, block, t - 2)));
  }

  lemma SumReversed<W(!new)>(p: Variant<W>, a: W, b: W, c: W, d: W)
    requires AddLaws(p)
    ensures p.add(p.add(p.add(a, b), c), d) == p.add(p.add(p.add(d, c), b), a)
  {
    calc {
      p.add(p.add(p.add(a, b), c), d);
      p.add(d, p.add(p.add(a, b), c));
      p.add(d, p.add(c, p.add(a, b)));
      p.add(p.add(d, c), p.add(a, b));
      p.add(p.add(d, c), p.add(b, a));
      p.add(p.add(p.add(d, c), b), a);
    }
  }

  datatype Working<W> = Working(a: W, b: W, c: W, d: W, e: W, f: W, g: W, h: W)

  function Round<W>(p: Variant<W>, s: Working<W>, k: W, w: W): Working<W> {
    var t1 := p.add(p.add(p.add(p.add(s.h, p.bigSigma1(s.e)), p.choose(s.e, s.f, s.g)), k), w);
    var t2 := p.add(p.bigSigma0(s.a), p.majority(s.a, s.b, s.c));
    Working(p.add(t1, t2), s.a, s.b, s.c, p.add(s.d, t1), s.e, s.f, s.g)
  }

  /** The working variables after `t` rounds. */
  function Rounds<W>(p: Variant<W>, s: Working<W>, block: seq<byte>, t: nat): Working<W>
    requires |block| == 16 * p.wordBytes && t <= |p.k|
  {
    if t == 0 then s
    else Round(p, Rounds(p, s, block, t - 1), p.k[t - 1], Schedule(p, block, t - 1))
  }

  /** The next hash value. */
  function CompressBlock<W>(p: Variant<W>, h: seq<W>, block: seq<byte>): (r: seq<W>)
    requires |h| == 8 && |block| == 16 * p.wordBytes
    ensures |r| == 8
  {
    var s := Rounds(p, Working(h[0], h[1], h[2], h[3], h[4], h[5], h[6], h[7]), block, |p.k|);
    [p.add(h[0], s.a), p.add(h[1], s.b), p.add(h[2], s.c), p.add(h[3], s.d),
     p.add(h[4], s.e), p.add(h[5], s.f), p.add(h[6], s.g), p.add(h[7], s.h)]
  }

  /** The hash value after all whole blocks of `m`. */
  function HashBlocks<W>(p: Variant<W>, h: seq<W>, m: seq<byte>): (r: seq<W>)
    requires |h| == 8 && p.blockBytes == 16 * p.wordBytes > 0
    ensures |r| == 8
    decreases |m|
  {
    if |m| < p.blockBytes then h
    else HashBlocks(p, CompressBlock(p, h, m[..p.blockBytes]), m[p.blockBytes..])
  }

  /** Byte `i` of the returned digest. */
  function DigestByte<W>(p: Variant<W>, h: seq<W>, i: nat): byte
    requires |h| == 8 && p.outWords <= 8 && p.wordBytes > 0 && i < p.outWords * p.wordBytes
  {
    DivBelow(i, p.wordBytes, p.outWords);
    p.byteOf(h[i / p.wordBytes], i % p.wordBytes)
  }

  lemma DivBelow(i: nat, m: nat, n: nat)
    requires m > 0 && i < n * m
    ensures 0 <= i / m < n
  {
    DivNonNegative(i, m);
    assert i == i / m * m + i % m;
    MulOutside(i / m - n + 1, m);
  }

  // ---------------- the compression loops of the source ----------------

  /** `w = 0; for b: w = (w << 8) | block[off + b]`. */
  method LoadWord<W>(p: Variant<W>, block: seq<byte>, off: nat) returns (w: W)
    requires off + p.wordBytes <= |block|
    ensures w == Load(p, block[off..off + p.wordBytes])
  {
    w := p.zero;
    for b := 0 to p.wordBytes
      invariant w == Load(p, block[off..off + b])
    {
      assert block[off..off + b + 1] == block[off..off + b] + [block[off + b]];
      w := p.shiftIn(w, block[off + b]);
    }
  }

  /** The first `n` entries are those of `f`. */
  ghost predicate Filled<W>(f: nat -> W, s: seq<W>, n: nat) {
    n <= |s| && forall j :: 0 <= j < n ==> s[j] == f(j)
  }

  lemma FilledNext<W>(f: nat -> W, s: seq<W>, n: nat, next: W)
    requires Filled(f, s, n) && n < |s| && next == f(n)
    ensures Filled(f, s[n := next], n + 1)
  {
  }

  /** The first two loops of `compress`: the message schedule, filled in place. */
  method FillSchedule<W>(p: Variant<W>, block: seq<byte>) returns (w: array<W>)
    requires WellFormed(p) && |block| == p.blockBytes
    ensures fresh(w) && w.Length == p.rounds
    ensures Filled(ScheduleOf(p, block), w[..], p.rounds)
  {
    w := new W[p.rounds](_ => p.zero);
    ghost var f := ScheduleOf(p, block);
    for i := 0 to 16
      invariant Filled(f, w[..], i)
    {
      MulLe(p.wordBytes, i + 1, 16);
      var next := LoadWord(p, block, p.wordBytes * i);
      FilledNext(f, w[..], i, next);
      w[i] := next;
    }
    for i := 16 to p.rounds
      invariant Filled(f, w[..], i)
    {
      var s0 := p.smallSigma0(w[i - 15]);
      var s1 := p.smallSigma1(w[i - 2]);
      var next := p.add(p.add(p.add(w[i - 16], s0), w[i - 7]), s1);
      ScheduleNext(p, block, w[..], i);
      FilledNext(f, w[..], i, next);
      w[i] := next;
    }
  }

  function ScheduleOf<W>(p: Variant<W>, block: seq<byte>): nat -> W
    requires |block| == 16 * p.wordBytes
  {
    (t: nat) => Schedule(p, block, t)
  }

  lemma ScheduleNext<W>(p: Variant<W>, block: seq<byte>, w: seq<W>, i: nat)
    requires |block| == 16 * p.wordBytes && i >= 16 && Filled(ScheduleOf(p, block), w, i)
    ensures p.add(p.add(p.add(w[i - 16], p.smallSigma0(w[i - 15])), w[i - 7]), p.smallSigma1(w[i - 2]))
         == ScheduleOf(p, block)(i)
  {
    var f := ScheduleOf(p, block);
    assert w[i - 16] == f(i - 16) && w[i - 15] == f(i - 15) && w[i - 7] == f(i - 7) && w[i - 2] == f(i - 2);
  }

  /** The third loop of `compress`: the working variables, updated in place. */
  method RunRounds<W>(p: Variant<W>, h: array<W>, w: array<W>, ghost block: seq<byte>)
    returns (r: Working<W>)
    requires WellFormed(p) && h.Length == 8 && |block| == p.blockBytes
    requires w.Length == p.rounds && Filled(ScheduleOf(p, block), w[..], p.rounds)
    ensures r == Rounds(p, Working(h[0], h[1], h[2], h[3], h[4], h[5], h[6], h[7]), block, p.rounds)
  {
    var a, b, c, d := h[0], h[1], h[2], h[3];
    var e, f, g, hh := h[4], h[5], h[6], h[7];
    ghost var start := Working(a, b, c, d, e, f, g, hh);
    for i := 0 to p.rounds
      invariant Working(a, b, c, d, e, f, g, hh) == Rounds(p, start, block, i)
    {
      assert w[..][i] == ScheduleOf(p, block)(i);
      var t1 := p.add(p.add(p.add(p.add(hh, p.bigSigma1(e)), p.choose(e, f, g)), p.k[i]), w[i]);
      var t2 := p.add(p.bigSigma0(a), p.majority(a, b, c));
      hh := g;
      g := f;
      f := e;
      e := p.add(d, t1);
      d := c;
      c := b;
      b := a;
      a := p.add(t1, t2);
    }
    r := Working(a, b, c, d, e, f, g, hh);
  }

  method Compress<W>(p: Variant<W>, h: array<W>, block: seq<byte>)
    requires WellFormed(p) && h.Length == 8 && |block| == p.blockBytes
    modifies h
    ensures h[..] == CompressBlock(p, old(h[..]), block)
  {
    var w := FillSchedule(p, block);
    var r := RunRounds(p, h, w, block);
    h[0] := p.add(h[0], r.a);
    h[1] := p.add(h[1], r.b);
    h[2] := p.add(h[2], r.c);
    h[3] := p.add(h[3], r.d);
    h[4] := p.add(h[4], r.e);
    h[5] := p.add(h[5], r.f);
    h[6] := p.add(h[6], r.g);
    h[7] := p.add(h[7], r.h);
    Compressed(p, old(h[..]), block, r, h[..]);
  }

  lemma Compressed<W>(p: Variant<W>, h: seq<W>, block: seq<byte>, r: Working<W>, sum: seq<W>)
    requires |h| == 8 && |block| == 16 * p.wordBytes && |sum| == 8
    requires r == Rounds(p, Working(h[0], h[1], h[2], h[3], h[4], h[5], h[6], h[7]), block, |p.k|)
    requires sum[0] == p.add(h[0], r.a) && sum[1] == p.add(h[1], r.b)
    requires sum[2] == p.add(h[2], r.c) && sum[3] == p.add(h[3], r.d)
    requires sum[4] == p.add(h[4], r.e) && sum[5] == p.add(h[5], r.f)
    requires sum[6] == p.add(h[6], r.g) && sum[7] == p.add(h[7], r.h)
    ensures sum == CompressBlock(p, h, block)
  {
  }

  // ---------------- the rounds undone ----------------

  /** `sub` undoes the addition of the variant. */
  ghost predicate SubLaws<W(!new)>(p: Variant<W>, sub: (W, W) -> W) {
    && (forall x, y :: sub(p.add(x, y), y) == x)
    && (forall x, y :: sub(p.add(x, y), x) == y)
  }

  /** The working variables before a round, from those after it. */
  function Before<W>(p: Variant<W>, sub: (W, W) -> W, s: Working<W>, k: W, w: W): Working<W> {
    var t1 := sub(s.a, p.add(p.bigSigma0(s.b), p.majority(s.b, s.c, s.d)));
    Working(s.b, s.c, s.d, sub(s.e, t1), s.f, s.g, s.h,
            sub(sub(sub(sub(t1, w), k), p.choose(s.f, s.g, s.h)), p.bigSigma1(s.f)))
  }

  /** The working variables at the start, from those after `t` rounds. */
  function Start<W>(p: Variant<W>, sub: (W, W) -> W, s: Working<W>, block: seq<byte>, t: nat): Working<W>
    requires |block| == 16 * p.wordBytes && t <= |p.k|
    decreases t
  {
    if t == 0 then s
    else Start(p, sub, Before(p, sub, s, p.k[t - 1], Schedule(p, block, t - 1)), block, t - 1)
  }

  lemma RoundUndone<W(!new)>(p: Variant<W>, sub: (W, W) -> W, s: Working<W>, k: W, w: W)
    requires SubLaws(p, sub)
    ensures Before(p, sub, Round(p, s, k, w), k, w) == s
  {
  }

  /** Every round can be undone. */
  ghost predicate Undoable<W(!new)>(p: Variant<W>, sub: (W, W) -> W) {
    forall s: Working<W>, k: W, w: W :: Before(p, sub, Round(p, s, k, w), k, w) == s
  }

  lemma RoundsUndoable<W(!new)>(p: Variant<W>, sub: (W, W) -> W)
    requires SubLaws(p, sub)
    ensures Undoable(p, sub)
  {
    forall s: Working<W>, k: W, w: W
      ensures Before(p, sub, Round(p, s, k, w), k, w) == s
    {
      RoundUndone(p, sub, s, k, w);
    }
  }

  lemma {:induction false} UndoneBackwards<W(!new)>(p: Variant<W>, sub: (W, W) -> W, s: Working<W>,
                                                    block: seq<byte>, t: nat, after: Working<W>)
    requires Undoable(p, sub) && |block| == 16 * p.wordBytes && t <= |p.k|
    requires after == Rounds(p, s, block, t)
    ensures Start(p, sub, after, block, t) == s
  {
    if t > 0 {
      var before := Rounds(p, s, block, t - 1);
      assert after == Round(p, before, p.k[t - 1], Schedule(p, block, t - 1));
      assert Before(p, sub, after, p.k[t - 1], Schedule(p, block, t - 1)) == before;
      UndoneBackwards(p, sub, s, block, t - 1, before);
    }
  }

  /** The rounds are a permutation of the working variables: they can be run backwards. */
  lemma RoundsUndone<W(!new)>(p: Variant<W>, sub: (W, W) -> W, s: Working<W>, block: seq<byte>, t: nat)
    requires SubLaws(p, sub) && |block| == 16 * p.wordBytes && t <= |p.k|
    ensures Start(p, sub, Rounds(p, s, block, t), block, t) == s
  {
    RoundsUndoable(p, sub);
    UndoneBackwards(p, sub, s, block, t, Rounds(p, s, block, t));
  }

  /** The next hash value is the previous one plus the working variables: subtract it again, and
      all the rounds run backwards lead back to it. */
  lemma CompressUndone<W(!new)>(p: Variant<W>, sub: (W, W) -> W, h: seq<W>, block: seq<byte>)
    requires SubLaws(p, sub) && |h| == 8 && |block| == 16 * p.wordBytes
    ensures var r := CompressBlock(p, h, block);
      Start(p, sub, Working(sub(r[0], h[0]), sub(r[1], h[1]), sub(r[2], h[2]), sub(r[3], h[3]),
                            sub(r[4], h[4]), sub(r[5], h[5]), sub(r[6], h[6]), sub(r[7], h[7])),
            block, |p.k|)
      == Working(h[0], h[1], h[2], h[3], h[4], h[5], h[6], h[7])
  {
    RoundsUndone(p, sub, Working(h[0], h[1], h[2], h[3], h[4], h[5], h[6], h[7]), block, |p.k|);
  }

  // ---------------- padding: FIPS 180-4, sections 5.1.1 and 5.1.2 ----------------

  /** The `n` low bytes of `v`, the most significant first. */
  function BigEndian(v: nat, n: nat): (s: seq<byte>)
    ensures |s| == n
  {
    if n == 0 then [] else BigEndian(v / 256, n - 1) + [v % 256]
  }

  /** Byte `i`, counted from the least significant one: `static_cast<uint8_t>(v >> (8 * i))`. */
  function LowByte(v: nat, i: nat): byte {
    Shr(v, 8 * i) % 256
  }

  lemma {:induction false} BigEndianAt(v: nat, n: nat, i: nat)
    requires i < n
    ensures BigEndian(v, n)[n - 1 - i] == LowByte(v, i)
  {
    if i > 0 {
      BigEndianAt(v / 256, n - 1, i - 1);
      Pow2Small();
      Pow2Add(8, 8 * (i - 1));
      DivDiv(v, 256, Pow2(8 * (i - 1)));
    }
  }

  function ZeroBytes(n: nat): (s: seq<byte>)
    ensures |s| == n
  {
    seq(n, _ => 0 as byte)
  }

  /** `pad` is a padding of a message of `length` bytes: a one bit, the smallest number of zero
      bits that completes a block, and the length in bits on `lengthBytes` bytes. */
  ghost predicate IsPadding<W>(p: Variant<W>, length: nat, pad: seq<byte>)
    requires p.blockBytes > 0
  {
    exists z: nat ::
      && Completes(p, length, z)
      && (forall smaller: nat :: smaller < z ==> !Completes(p, length, smaller))
      && pad == [0x80] + ZeroBytes(z) + BigEndian(8 * length, p.lengthBytes)
  }

  predicate Completes<W>(p: Variant<W>, length: nat, zeros: nat)
    requires p.blockBytes > 0
  {
    (length + 1 + zeros + p.lengthBytes) % p.blockBytes == 0
  }

  const WORD64: nat := 0x1_0000_0000_0000_0000

  /** Number of zero bytes the source leaves between the 0x80 and the eight length bytes. */
  function TailZeros<W>(p: Variant<W>, length: nat): nat
    requires p.blockBytes == 64 == 8 * p.lengthBytes || p.blockBytes == 128 == 8 * p.lengthBytes
  {
    var rem := length % p.blockBytes;
    (if rem + 1 + p.lengthBytes <= p.blockBytes then p.blockBytes else 2 * p.blockBytes) - rem - 1 - 8
  }

  /** What the source appends to a message: its length field is a 64-bit product that wraps, in
      the last eight bytes whatever the width of the field. */
  function Tail<W>(p: Variant<W>, length: nat): seq<byte>
    requires p.blockBytes == 64 == 8 * p.lengthBytes || p.blockBytes == 128 == 8 * p.lengthBytes
  {
    [0x80] + ZeroBytes(TailZeros(p, length)) + BigEndian(8 * length % WORD64, 8)
  }

  lemma Pow64()
    ensures Pow2(64) == WORD64
  {
    Pow2Small();
    Pow2Add(16, 16);
    Pow2Add(32, 32);
  }

  /** The wrapped 64-bit length has the same eight low bytes. */
  lemma WrappedLength(v: nat)
    ensures BigEndian(v % WORD64, 8) == BigEndian(v, 8)
  {
    var a, b := BigEndian(v % WORD64, 8), BigEndian(v, 8);
    forall j | 0 <= j < 8
      ensures a[j] == b[j]
    {
      var i := 7 - j;
      BigEndianAt(v, 8, i);
      BigEndianAt(v % WORD64, 8, i);
      LowByteOfMod(v, i);
    }
  }

  lemma LowByteOfMod(v: nat, i: nat)
    requires i < 8
    ensures LowByte(v % WORD64, i) == LowByte(v, i)
  {
    var w, m, c := v % WORD64, Pow2(8 * i), Pow2(56 - 8 * i);
    Pow64();
    Pow2Small();
    Pow2Add(8, 8 * i);
    Pow2Add(56 - 8 * i, 8 * i + 8);
    assert Pow2(8 * i + 8) == 256 * m;
    DigitOfMod(v, m, 256);
    DigitOfMod(w, m, 256);
    ModOfMod(v, c, 256 * m);
  }

  /** A length below 2^64 leaves the upper half of a sixteen-byte field zero. */
  lemma LongField(v: nat)
    requires v < WORD64
    ensures BigEndian(v, 16) == ZeroBytes(8) + BigEndian(v, 8)
  {
    var a, b := BigEndian(v, 16), ZeroBytes(8) + BigEndian(v, 8);
    forall j | 0 <= j < 16
      ensures a[j] == b[j]
    {
      BigEndianAt(v, 16, 15 - j);
      if j < 8 {
        Pow64();
        Pow2Monotone(64, 8 * (15 - j));
        ModSmall(v, Pow2(8 * (15 - j)));
      } else {
        BigEndianAt(v, 8, 15 - j);
      }
    }
  }

  /** A longer one does not. */
  lemma LongFieldUsed(v: nat)
    requires WORD64 <= v < 256 * WORD64
    ensures BigEndian(v, 16)[7] != 0
  {
    BigEndianAt(v, 16, 8);
    Pow64();
  }

  lemma Completes64<W>(p: Variant<W>, length: nat)
    requires p.blockBytes == 64 && p.lengthBytes == 8
    ensures var z := TailZeros(p, length);
      Completes(p, length, z) && forall smaller: nat :: smaller < z ==> !Completes(p, length, smaller)
  {
    assert length == length / 64 * 64 + length % 64;
  }

  lemma Completes128<W>(p: Variant<W>, length: nat)
    requires p.blockBytes == 128 && p.lengthBytes == 16
    ensures TailZeros(p, length) >= 8
    ensures var z := TailZeros(p, length) - 8;
      Completes(p, length, z) && forall smaller: nat :: smaller < z ==> !Completes(p, length, smaller)
  {
    assert length == length / 128 * 128 + length % 128;
  }

  /** The zero bytes of the tail are the smallest number that completes a block. */
  lemma TailCompletes<W>(p: Variant<W>, length: nat)
    requires WellFormed(p)
    ensures var z := TailZeros(p, length) + 8 - p.lengthBytes;
      && z >= 0
      && Completes(p, length, z)
      && forall smaller: nat :: smaller < z ==> !Completes(p, length, smaller)
  {
    if p.blockBytes == 64 {
      Completes64(p, length);
    } else {
      Completes128(p, length);
    }
  }

  lemma ShortForm<W>(p: Variant<W>, length: nat, z: nat)
    requires WellFormed(p) && length < WORD64 && z == TailZeros(p, length) + 8 - p.lengthBytes
    requires p.lengthBytes == 8 || 8 * length < WORD64
    ensures Tail(p, length) == [0x80] + ZeroBytes(z) + BigEndian(8 * length, p.lengthBytes)
  {
    WrappedLength(8 * length);
    if p.lengthBytes != 8 {
      LongField(8 * length);
      assert ZeroBytes(z) + ZeroBytes(8) == ZeroBytes(TailZeros(p, length));
    }
  }

  lemma LongForm<W>(p: Variant<W>, length: nat, z: nat)
    requires WellFormed(p) && length < WORD64 && z == TailZeros(p, length) + 8 - p.lengthBytes
    requires p.lengthBytes == 16 && 8 * length >= WORD64
    ensures Tail(p, length) != [0x80] + ZeroBytes(z) + BigEndian(8 * length, p.lengthBytes)
  {
    LongTailDiffers(8 * length, z, Tail(p, length));
  }

  lemma OnlyPadding<W>(p: Variant<W>, length: nat, z: nat, pad: seq<byte>)
    requires WellFormed(p) && Completes(p, length, z)
    requires forall smaller: nat :: smaller < z ==> !Completes(p, length, smaller)
    ensures IsPadding(p, length, pad) <==> pad == [0x80] + ZeroBytes(z) + BigEndian(8 * length, p.lengthBytes)
  {
  }

  /** What the source appends is the FIPS padding if and only if the length field is the
      eight-byte one or the message is shorter than 2^64 bits.  (A message length is a size_t.) */
  lemma TailIsPaddingExactly<W>(p: Variant<W>, length: nat)
    requires WellFormed(p) && length < WORD64
    ensures IsPadding(p, length, Tail(p, length)) <==> p.lengthBytes == 8 || 8 * length < WORD64
  {
    var z := TailZeros(p, length) + 8 - p.lengthBytes;
    TailCompletes(p, length);
    OnlyPadding(p, length, z, Tail(p, length));
    if p.lengthBytes == 8 || 8 * length < WORD64 {
      ShortForm(p, length, z);
    } else {
      LongForm(p, length, z);
    }
  }

  lemma LongTailDiffers(v: nat, z: nat, tail: seq<byte>)
    requires WORD64 <= v < 256 * WORD64
    requires tail == [0x80] + ZeroBytes(z + 8) + BigEndian(v % WORD64, 8)
    ensures tail != [0x80] + ZeroBytes(z) + BigEndian(v, 16)
  {
    LongFieldUsed(v);
    var pad := [0x80] + ZeroBytes(z) + BigEndian(v, 16);
    assert pad[1 + z + 7] == BigEndian(v, 16)[7];
    assert tail[1 + z + 7] == 0;
  }

  /** The tail ends in the last block it needs: one if the rest, the 0x80 and the length field
      fit into one, else two. */
  lemma TailLength<W>(p: Variant<W>, length: nat)
    requires WellFormed(p)
    ensures var rem := length % p.blockBytes;
      rem + |Tail(p, length)|
        == if rem + 1 + p.lengthBytes <= p.blockBytes then p.blockBytes else 2 * p.blockBytes
  {
  }

  // ---------------- the digest of the source ----------------

  lemma HashCons<W>(p: Variant<W>, h: seq<W>, block: seq<byte>, rest: seq<byte>)
    requires |h| == 8 && p.blockBytes == 16 * p.wordBytes > 0 && |block| == p.blockBytes
    ensures HashBlocks(p, h, block + rest) == HashBlocks(p, CompressBlock(p, h, block), rest)
  {
    assert (block + rest)[..p.blockBytes] == block;
    assert (block + rest)[p.blockBytes..] == rest;
  }

  lemma {:induction false} HashConcat<W>(p: Variant<W>, h: seq<W>, x: seq<byte>, y: seq<byte>, c: nat)
    requires |h| == 8 && p.blockBytes == 16 * p.wordBytes > 0 && |x| == c * p.blockBytes
    ensures HashBlocks(p, h, x + y) == HashBlocks(p, HashBlocks(p, h, x), y)
    decreases c
  {
    if c == 0 {
      assert x + y == y;
    } else {
      MulOutside(c, p.blockBytes);
      var block, rest := x[..p.blockBytes], x[p.blockBytes..];
      assert |rest| == (c - 1) * p.blockBytes;
      HashConcat(p, CompressBlock(p, h, block), rest, y, c - 1);
      HashCons(p, h, block, rest);
      HashCons(p, h, block, rest + y);
      assert x == block + rest;
      assert x + y == block + (rest + y);
    }
  }

  /** One more block after `c` whole ones. */
  lemma HashNext<W>(p: Variant<W>, h: seq<W>, x: seq<byte>, block: seq<byte>, c: nat)
    requires |h| == 8 && p.blockBytes == 16 * p.wordBytes > 0
    requires |x| == c * p.blockBytes && |block| == p.blockBytes
    ensures HashBlocks(p, h, x + block) == CompressBlock(p, HashBlocks(p, h, x), block)
  {
    HashConcat(p, h, x, block, c);
    HashCons(p, HashBlocks(p, h, x), block, []);
    assert block + [] == block;
  }

  lemma SliceNext(msg: seq<byte>, off: nat, n: nat)
    requires off + n <= |msg|
    ensures msg[..off + n] == msg[..off] + msg[off..off + n]
  {
  }

  /** The loop over the whole blocks of the message. */
  method HashWholeBlocks<W>(p: Variant<W>, h: array<W>, msg: seq<byte>) returns (off: nat)
    requires WellFormed(p) && h.Length == 8
    modifies h
    ensures off == |msg| - |msg| % p.blockBytes
    ensures h[..] == HashBlocks(p, old(h[..]), msg[..off])
  {
    off := 0;
    ghost var c, h0 := 0, h[..];
    while |msg| - off >= p.blockBytes
      invariant off <= |msg| && off == c * p.blockBytes
      invariant h[..] == HashBlocks(p, h0, msg[..off])
    {
      var block := msg[off..off + p.blockBytes];
      HashNext(p, h0, msg[..off], block, c);
      SliceNext(msg, off, p.blockBytes);
      Compress(p, h, block);
      MulNext(c, p.blockBytes);
      off := off + p.blockBytes;
      c := c + 1;
    }
    DivModUnique(|msg|, p.blockBytes, c, |msg| - off);
  }

  lemma TailAssembled(s: seq<byte>, rest: seq<byte>, zeros: nat, field: seq<byte>)
    requires |s| == |rest| + 1 + zeros + |field|
    requires forall j :: 0 <= j < |rest| ==> s[j] == rest[j]
    requires s[|rest|] == 0x80
    requires forall j :: |rest| < j <= |rest| + zeros ==> s[j] == 0
    requires s[|rest| + 1 + zeros..] == field
    ensures s == rest + ([0x80] + ZeroBytes(zeros) + field)
  {
    assert s == s[..|rest| + 1 + zeros] + s[|rest| + 1 + zeros..];
    assert s[..|rest| + 1 + zeros] == rest + ([0x80] + ZeroBytes(zeros));
  }

  /** The one or two blocks built in place after the loop. */
  method BuildTail<W>(p: Variant<W>, msg: seq<byte>, off: nat) returns (block: array<byte>, total: nat)
    requires WellFormed(p) && off == |msg| - |msg| % p.blockBytes
    ensures block.Length == 2 * p.blockBytes
    ensures total == p.blockBytes || total == 2 * p.blockBytes
    ensures block[..total] == msg[off..] + Tail(p, |msg|)
  {
    block := new byte[2 * p.blockBytes](_ => 0);
    var rem := |msg| - off;
    for i := 0 to rem
      invariant forall j :: 0 <= j < i ==> block[j] == msg[off..][j]
      invariant forall j :: i <= j < block.Length ==> block[j] == 0
    {
      block[i] := msg[off + i];
    }
    block[rem] := 0x80;
    total := if rem + 1 + p.lengthBytes <= p.blockBytes then p.blockBytes else 2 * p.blockBytes;
    WriteLength(block, total, 8 * |msg| % WORD64);
    TailAssembled(block[..total], msg[off..], TailZeros(p, |msg|), BigEndian(8 * |msg| % WORD64, 8));
  }

  /** `block[total - 1 - i] = static_cast<uint8_t>(bitlen >> (8 * i))`. */
  method WriteLength(block: array<byte>, total: nat, bitlen: nat)
    requires 8 <= total <= block.Length
    modifies block
    ensures forall j :: 0 <= j < total - 8 ==> block[j] == old(block[j])
    ensures block[total - 8..total] == BigEndian(bitlen, 8)
  {
    ghost var field := BigEndian(bitlen, 8);
    for i := 0 to 8
      invariant forall j :: 0 <= j < total - 8 ==> block[j] == old(block[j])
      invariant forall j :: 8 - i <= j < 8 ==> field[j] == block[total - 8 + j]
    {
      BigEndianAt(bitlen, 8, i);
      block[total - 1 - i] := LowByte(bitlen, i);
    }
  }

  lemma HashOne<W>(p: Variant<W>, h: seq<W>, tail: seq<byte>)
    requires |h| == 8 && p.blockBytes == 16 * p.wordBytes > 0 && |tail| == p.blockBytes
    ensures HashBlocks(p, h, tail) == CompressBlock(p, h, tail[..p.blockBytes])
  {
    HashCons(p, h, tail, []);
    assert tail + [] == tail == tail[..p.blockBytes];
  }

  lemma HashTwo<W>(p: Variant<W>, h: seq<W>, tail: seq<byte>)
    requires |h| == 8 && p.blockBytes == 16 * p.wordBytes > 0 && |tail| == 2 * p.blockBytes
    ensures HashBlocks(p, h, tail)
         == CompressBlock(p, CompressBlock(p, h, tail[..p.blockBytes]), tail[p.blockBytes..])
  {
    var first, second := tail[..p.blockBytes], tail[p.blockBytes..];
    HashCons(p, h, first, second);
    assert tail == first + second;
    HashOne(p, CompressBlock(p, h, first), second);
    assert second == second[..p.blockBytes];
  }

  /** `out[wordBytes * i + b] = h[i] >> (w - 8 - 8 * b)`. */
  method Output<W>(p: Variant<W>, h: array<W>) returns (out: seq<byte>)
    requires WellFormed(p) && h.Length == 8
    ensures |out| == p.outWords * p.wordBytes
    ensures forall i :: 0 <= i < |out| ==> out[i] == DigestByte(p, h[..], i)
  {
    out := [];
    for i := 0 to p.outWords
      invariant |out| == i * p.wordBytes <= p.outWords * p.wordBytes
      invariant forall j :: 0 <= j < |out| ==> out[j] == DigestByte(p, h[..], j)
    {
      MulLe(p.wordBytes, i + 1, p.outWords);
      MulNext(i, p.wordBytes);
      out := OutputWord(p, h, i, out);
    }
  }

  /** The bytes of one word. */
  method OutputWord<W>(p: Variant<W>, h: array<W>, i: nat, before: seq<byte>) returns (out: seq<byte>)
    requires WellFormed(p) && h.Length == 8 && i < p.outWords
    requires |before| == i * p.wordBytes && |before| + p.wordBytes <= p.outWords * p.wordBytes
    requires forall j :: 0 <= j < |before| ==> before[j] == DigestByte(p, h[..], j)
    ensures |out| == |before| + p.wordBytes
    ensures forall j :: 0 <= j < |out| ==> out[j] == DigestByte(p, h[..], j)
  {
    out := before;
    for b := 0 to p.wordBytes
      invariant |out| == i * p.wordBytes + b
      invariant forall j :: 0 <= j < |out| ==> out[j] == DigestByte(p, h[..], j)
    {
      DivModUnique(|out|, p.wordBytes, i, b);
      out := out + [p.byteOf(h[i], b)];
    }
  }

  /** The final hash value of a message. */
  ghost function Hash<W>(p: Variant<W>, msg: seq<byte>): (h: seq<W>)
    requires WellFormed(p)
    ensures |h| == 8
  {
    HashBlocks(p, p.iv, msg + Tail(p, |msg|))
  }

  /** A message has only one padding. */
  lemma PaddingUnique<W>(p: Variant<W>, length: nat, a: seq<byte>, b: seq<byte>)
    requires p.blockBytes > 0 && IsPadding(p, length, a) && IsPadding(p, length, b)
    ensures a == b
  {
  }

  /** Below 2^64 bits the hash value is the fold of the compression function over the blocks of the
      message as FIPS 180-4 pads it. */
  lemma HashIsFips<W>(p: Variant<W>, msg: seq<byte>, pad: seq<byte>)
    requires WellFormed(p) && 8 * |msg| < WORD64 && IsPadding(p, |msg|, pad)
    ensures Hash(p, msg) == HashBlocks(p, p.iv, msg + pad)
  {
    TailIsPaddingExactly(p, |msg|);
    PaddingUnique(p, |msg|, pad, Tail(p, |msg|));
  }

  /** `compress(h, block); if (total == 2B) compress(h, block + B);` */
  method CompressTail<W>(p: Variant<W>, h: array<W>, block: array<byte>, total: nat)
    requires WellFormed(p) && h.Length == 8
    requires block.Length == 2 * p.blockBytes
    requires total == p.blockBytes || total == 2 * p.blockBytes
    modifies h
    ensures h[..] == HashBlocks(p, old(h[..]), block[..total])
  {
    ghost var h0, tail := h[..], block[..total];
    assert tail[..p.blockBytes] == block[..p.blockBytes];
    Compress(p, h, block[..p.blockBytes]);
    if total == 2 * p.blockBytes {
      HashTwo(p, h0, tail);
      assert tail[p.blockBytes..] == block[p.blockBytes..];
      Compress(p, h, block[p.blockBytes..]);
    } else {
      HashOne(p, h0, tail);
    }
  }

  ghost function DigestOf<W>(p: Variant<W>, msg: seq<byte>): (out: seq<byte>)
    requires WellFormed(p)
    ensures |out| == p.outWords * p.wordBytes
  {
    var h := Hash(p, msg);
    seq(p.outWords * p.wordBytes,
        i requires 0 <= i < p.outWords * p.wordBytes => DigestByte(p, h, i))
  }

  /** The hash value of the whole blocks, carried on over rest and tail. */
  lemma HashSplit<W>(p: Variant<W>, msg: seq<byte>, off: nat, tail: seq<byte>)
    requires WellFormed(p) && off == |msg| - |msg| % p.blockBytes
    requires tail == msg[off..] + Tail(p, |msg|)
    ensures Hash(p, msg) == HashBlocks(p, HashBlocks(p, p.iv, msg[..off]), tail)
  {
    WholePart(|msg|, p.blockBytes);
    HashConcat(p, p.iv, msg[..off], tail, |msg| / p.blockBytes);
    SplitAndAppend(msg, off, Tail(p, |msg|));
  }

  method Digest<W>(p: Variant<W>, msg: seq<byte>) returns (out: seq<byte>)
    requires WellFormed(p)
    ensures out == DigestOf(p, msg)
  {
    var h := new W[8](i requires 0 <= i < 8 => p.iv[i]);
    assert h[..] == p.iv;
    var off := HashWholeBlocks(p, h, msg);
    var block, total := BuildTail(p, msg, off);
    HashSplit(p, msg, off, block[..total]);
    CompressTail(p, h, block, total);
    out := Output(p, h);
    SameDigest(p, msg, h[..], out);
  }

  lemma SameDigest<W>(p: Variant<W>, msg: seq<byte>, h: seq<W>, out: seq<byte>)
    requires WellFormed(p) && h == Hash(p, msg) && |out| == p.outWords * p.wordBytes
    requires forall i :: 0 <= i < |out| ==> out[i] == DigestByte(p, h, i)
    ensures out == DigestOf(p, msg)
  {
  }
}
