/** RFC 4648 regrouping, independent of any program: the bits of the input, read from left to
right, are cut into groups of `w` bits, the last one filled up with zero bits on the right. */
module Radix {
  import opened Bits

  /** The concatenated `w`-bit forms of the digits. */
  function Expand(digits: seq<nat>, w: nat): (s: seq<bool>) {
    if digits == [] then [] else ToBits(digits[0], w) + Expand(digits[1..], w)
  }

  /** The values of the successive `w`-bit groups of `s`. */
  function Group(s: seq<bool>, w: nat): (digits: seq<nat>)
    requires w > 0
    decreases |s|
  {
    if s == [] then []
    else if |s| <= w then [FromBits(s + Zeros(w - |s|))]
    else [FromBits(s[..w])] + Group(s[w..], w)
  }

  /** Bytes to `w`-bit digits. */
  function Encode(data: seq<nat>, w: nat): seq<nat>
    requires w > 0
  {
    Group(Expand(data, 8), w)
  }

  /** `w`-bit digits to the bytes they complete; left-over bits are dropped. */
  function Decode(digits: seq<nat>, w: nat): seq<nat> {
    Group(WholeBits(Expand(digits, w)), 8)
  }

  /** The bits of the whole bytes in `s`. */
  function WholeBits(s: seq<bool>): seq<bool> {
    s[..8 * (|s| / 8)]
  }

  ghost predicate AllBelow(digits: seq<nat>, w: nat) {
    forall i :: 0 <= i < |digits| ==> digits[i] < Pow2(w)
  }

  lemma {:induction false} ExpandLength(digits: seq<nat>, w: nat)
    ensures |Expand(digits, w)| == |digits| * w
  {
    if digits != [] {
      ExpandLength(digits[1..], w);
      assert |digits| * w == (|digits| - 1) * w + w;
    }
  }

  lemma ExpandCons(d: nat, g: seq<nat>, w: nat)
    ensures Expand([d] + g, w) == ToBits(d, w) + Expand(g, w)
  {
    assert ([d] + g)[1..] == g;
  }

  lemma {:induction false} ExpandConcat(a: seq<nat>, b: seq<nat>, w: nat)
    ensures Expand(a + b, w) == Expand(a, w) + Expand(b, w)
  {
    if a == [] {
      assert a + b == b;
    } else {
      var rest := a[1..];
      ExpandConcat(rest, b, w);
      ExpandCons(a[0], rest, w);
      ExpandCons(a[0], rest + b, w);
      assert a == [a[0]] + rest && a + b == [a[0]] + (rest + b);
      Regrouped(ToBits(a[0], w), Expand(rest, w), Expand(b, w));
    }
  }

  lemma Regrouped(x: seq<bool>, y: seq<bool>, z: seq<bool>)
    ensures x + (y + z) == (x + y) + z
  {
  }

  /** A prefix of whole groups can be split off. */
  lemma {:induction false} GroupConcat(x: seq<bool>, y: seq<bool>, w: nat, c: nat)
    requires w > 0 && |x| == c * w
    ensures Group(x + y, w) == Group(x, w) + Group(y, w)
    ensures |Group(x, w)| == c
    decreases c
  {
    if c == 0 {
      assert x + y == y;
    } else {
      assert |x[w..]| == (c - 1) * w;
      GroupConcat(x[w..], y, w, c - 1);
      assert (x + y)[w..] == x[w..] + y;
      assert (x + y)[..w] == x[..w];
      if |x| == w {
        assert x[w..] == [];
        assert x + Zeros(0) == x == x[..w];
        if y == [] {
          assert x + y == x;
        }
      }
    }
  }

  /** Number of zero bits that fill up the last group of `n` bits. */
  function Pad(n: nat, w: nat): (pad: nat)
    requires w > 0
    ensures pad < w
  {
    if n == 0 then 0 else if n <= w then w - n else Pad(n - w, w)
  }

  lemma ExpandFirst(t: seq<bool>, g: seq<nat>)
    ensures Expand([FromBits(t)] + g, |t|) == t + Expand(g, |t|)
  {
    ToFromBits(t);
    ExpandCons(FromBits(t), g, |t|);
  }

  /** Expanding the groups gives the bits back, followed by fewer than `w` zero bits. */
  lemma {:induction false} ExpandGroup(s: seq<bool>, w: nat)
    requires w > 0
    ensures Expand(Group(s, w), w) == s + Zeros(Pad(|s|, w))
    decreases |s|
  {
    var z := Zeros(Pad(|s|, w));
    if s == [] {
    } else if |s| <= w {
      ExpandFirst(s + z, []);
      assert [FromBits(s + z)] + [] == Group(s, w);
      assert (s + z) + [] == s + z;
    } else {
      var head, tail := s[..w], s[w..];
      ExpandGroup(tail, w);
      ExpandFirst(head, Group(tail, w));
      assert s == head + tail;
      assert head + (tail + z) == (head + tail) + z;
    }
  }

  lemma {:induction false} GroupLength(s: seq<bool>, w: nat)
    requires w > 0
    ensures |Group(s, w)| * w == |s| + Pad(|s|, w)
    decreases |s|
  {
    if |s| > w {
      var tail := s[w..];
      GroupLength(tail, w);
      GroupMore(s, tail, w);
      PadMore(|s|, w);
      MoreTimes(|Group(tail, w)|, w);
    } else if s != [] {
      assert |Group(s, w)| == 1;
    }
  }

  lemma GroupMore(s: seq<bool>, tail: seq<bool>, w: nat)
    requires 0 < w < |s| && tail == s[w..]
    ensures |Group(s, w)| == |Group(tail, w)| + 1
  {
  }

  lemma PadMore(n: nat, w: nat)
    requires 0 < w < n
    ensures Pad(n, w) == Pad(n - w, w)
  {
  }

  lemma MoreTimes(n: nat, w: nat)
    ensures (n + 1) * w == n * w + w
  {
  }

  lemma {:induction false} GroupBelow(s: seq<bool>, w: nat)
    requires w > 0
    ensures AllBelow(Group(s, w), w)
    decreases |s|
  {
    if s == [] {
    } else if |s| <= w {
      FromBitsBound(s + Zeros(w - |s|));
    } else {
      FromBitsBound(s[..w]);
      GroupBelow(s[w..], w);
    }
  }

  /** Grouping an expansion gives the digits back. */
  lemma {:induction false} GroupExpand(digits: seq<nat>, w: nat)
    requires w > 0 && AllBelow(digits, w)
    ensures Group(Expand(digits, w), w) == digits
  {
    if digits != [] {
      var head, rest := ToBits(digits[0], w), Expand(digits[1..], w);
      GroupExpand(digits[1..], w);
      GroupConcat(head, rest, w, 1);
      FromToBits(digits[0], w);
      assert head + Zeros(0) == head;
      assert digits == [digits[0]] + digits[1..];
    }
  }

  /** Decoding undoes encoding, for every group width up to a byte. */
  lemma DecodeEncode(data: seq<nat>, w: nat)
    requires 0 < w <= 8 && AllBelow(data, 8)
    ensures Decode(Encode(data, w), w) == data
  {
    var bits, pad := Expand(data, 8), Pad(|Expand(data, 8)|, w);
    ExpandGroup(bits, w);
    ExpandLength(data, 8);
    var s := bits + Zeros(pad);
    assert |s| / 8 == |data|;
    assert s[..8 * |data|] == bits;
    GroupExpand(data, 8);
  }

  lemma EncodeInjective(a: seq<nat>, b: seq<nat>, w: nat)
    requires 0 < w <= 8 && AllBelow(a, 8) && AllBelow(b, 8)
    requires Encode(a, w) == Encode(b, w)
    ensures a == b
  {
    DecodeEncode(a, w);
    DecodeEncode(b, w);
  }

  /** Number and range of the digits: ceil(8n / w) of them, each of `w` bits. */
  lemma EncodeShape(data: seq<nat>, w: nat)
    requires w > 0
    ensures AllBelow(Encode(data, w), w)
    ensures 8 * |data| <= |Encode(data, w)| * w < 8 * |data| + w
  {
    GroupBelow(Expand(data, 8), w);
    GroupLength(Expand(data, 8), w);
    ExpandLength(data, 8);
  }

  // ---------------- bit by bit ----------------

  /** Bit `m` of the bytes, read from left to right; behind their end, zero. */
  function BitAt(data: seq<nat>, m: nat): nat {
    if m / 8 < |data| then Shr(data[m / 8], 7 - m % 8) % 2 else 0
  }

  lemma {:induction false} ToBitsAt(v: nat, w: nat, j: nat)
    requires j < w
    ensures ToBits(v, w)[j] <==> Shr(v, w - 1 - j) % 2 == 1
  {
    if j < w - 1 {
      ToBitsAt(v / 2, w - 1, j);
      DivDiv(v, 2, Pow2(w - 2 - j));
    }
  }

  lemma {:induction false} ExpandAt(digits: seq<nat>, w: nat, i: nat, j: nat)
    requires i < |digits| && j < w
    ensures w * i + j < |Expand(digits, w)|
    ensures Expand(digits, w)[w * i + j] == ToBits(digits[i], w)[j]
  {
    var head, rest := ToBits(digits[0], w), Expand(digits[1..], w);
    if i > 0 {
      ExpandAt(digits[1..], w, i - 1, j);
      NextGroupAt(head, rest, w, i, j);
    }
  }

  lemma NextGroupAt(head: seq<bool>, rest: seq<bool>, w: nat, i: nat, j: nat)
    requires i > 0 && |head| == w && j < w && 0 <= w * (i - 1) + j < |rest|
    ensures 0 <= w * i + j < |head + rest| && (head + rest)[w * i + j] == rest[w * (i - 1) + j]
  {
    assert w * i == w + w * (i - 1);
  }

  lemma ExpandedBit(data: seq<nat>, m: nat, pad: nat)
    requires m < |Expand(data, 8)| + pad
    ensures (Expand(data, 8) + Zeros(pad))[m] <==> BitAt(data, m) == 1
  {
    ExpandLength(data, 8);
    if m / 8 < |data| {
      ExpandAt(data, 8, m / 8, m % 8);
      ToBitsAt(data[m / 8], 8, m % 8);
    }
  }

  /** Bit `j` of digit `k` is bit `w * k + j` of the bytes. */
  lemma EncodeBit(data: seq<nat>, w: nat, k: nat, j: nat, m: nat)
    requires w > 0 && k < |Encode(data, w)| && j < w && m == w * k + j
    ensures Shr(Encode(data, w)[k], w - 1 - j) % 2 == BitAt(data, m)
  {
    var digits := Encode(data, w);
    ExpandGroup(Expand(data, 8), w);
    ExpandAt(digits, w, k, j);
    ToBitsAt(digits[k], w, j);
    ExpandedBit(data, m, Pad(|Expand(data, 8)|, w));
  }

  // ---------------- blocks as numbers ----------------

  /** The number a digit string spells in base 2^w. */
  function Number(digits: seq<nat>, w: nat): nat {
    if digits == [] then 0
    else Number(digits[..|digits| - 1], w) * Pow2(w) + digits[|digits| - 1]
  }

  lemma {:induction false} ExpandNumber(digits: seq<nat>, w: nat)
    requires AllBelow(digits, w)
    ensures FromBits(Expand(digits, w)) == Number(digits, w)
  {
    if digits != [] {
      var n := |digits| - 1;
      var init, last := digits[..n], digits[n];
      ExpandNumber(init, w);
      ExpandLast(init, last, w);
      assert digits == init + [last];
      FromBitsConcat(Expand(init, w), ToBits(last, w));
      FromToBits(last, w);
    }
  }

  lemma ExpandLast(init: seq<nat>, last: nat, w: nat)
    ensures Expand(init + [last], w) == Expand(init, w) + ToBits(last, w)
  {
    ExpandConcat(init, [last], w);
    ExpandCons(last, [], w);
    assert [last] == [last] + [];
    assert ToBits(last, w) + [] == ToBits(last, w);
  }

  lemma NumberUpTo4(a: nat, b: nat, c: nat, d: nat, w: nat, p: nat)
    requires p == Pow2(w)
    ensures Number([a], w) == a
    ensures Number([a, b], w) == a * p + b
    ensures Number([a, b, c], w) == (a * p + b) * p + c
    ensures Number([a, b, c, d], w) == ((a * p + b) * p + c) * p + d
  {
    assert [a][..0] == [];
    assert [a, b][..1] == [a];
    assert [a, b, c][..2] == [a, b];
    assert [a, b, c, d][..3] == [a, b, c];
  }

  /** Zero bits that fill up the last group change nothing. */
  lemma GroupPad(s: seq<bool>, w: nat, pad: nat)
    requires w > 0 && pad == Pad(|s|, w)
    ensures Group(s + Zeros(pad), w) == Group(s, w)
  {
    ExpandGroup(s, w);
    GroupBelow(s, w);
    GroupExpand(Group(s, w), w);
  }

  /** Digits that spell the same number on the same number of bits regroup into each other. */
  lemma Regroup(xs: seq<nat>, v: nat, ys: seq<nat>, w: nat)
    requires v > 0 && w > 0 && AllBelow(xs, v) && AllBelow(ys, w)
    requires |xs| * v <= |ys| * w < |xs| * v + w
    requires Number(ys, w) == Number(xs, v) * Pow2(|ys| * w - |xs| * v)
    ensures Group(Expand(xs, v), w) == ys
  {
    var n, k := |xs| * v, |ys| * w - |xs| * v;
    var s := Expand(xs, v);
    ExpandNumber(xs, v);
    ExpandNumber(ys, w);
    ExpandLength(xs, v);
    ExpandLength(ys, w);
    FromBitsZeros(k);
    FromBitsConcat(s, Zeros(k));
    SameBits(Expand(ys, w), s + Zeros(k));
    PadUnique(n, w, |ys|, k);
    GroupPad(s, w, k);
    GroupExpand(ys, w);
  }

  lemma SameBits(a: seq<bool>, b: seq<bool>)
    requires |a| == |b| && FromBits(a) == FromBits(b)
    ensures a == b
  {
    ToFromBits(a);
    ToFromBits(b);
  }

  lemma {:induction false} PadUnique(n: nat, w: nat, c: nat, k: nat)
    requires w > 0 && k < w && c * w == n + k
    ensures Pad(n, w) == k
    decreases n
  {
    if n == 0 {
      MulOutside(c, w);
    } else if n <= w {
      MulOutside(c - 1, w);
      MulOutside(c - 2, w);
      assert c * w == (c - 1) * w + w == (c - 2) * w + 2 * w;
    } else {
      MulOutside(c, w);
      assert (c - 1) * w == c * w - w;
      PadUnique(n - w, w, c - 1, k);
    }
  }

  lemma DecodeBelow(digits: seq<nat>, w: nat)
    ensures AllBelow(Decode(digits, w), 8)
  {
    var s := Expand(digits, w);
    GroupBelow(s[..8 * (|s| / 8)], 8);
  }

  // ---------------- symbols ----------------

  ghost predicate InRange(alphabet: string, digits: seq<nat>) {
    forall i :: 0 <= i < |digits| ==> digits[i] < |alphabet|
  }

  function Symbols(alphabet: string, digits: seq<nat>): (text: string)
    requires InRange(alphabet, digits)
    ensures |text| == |digits|
    ensures forall i :: 0 <= i < |digits| ==> text[i] == alphabet[digits[i]]
  {
    seq(|digits|, i requires 0 <= i < |digits| => alphabet[digits[i]])
  }

  ghost predicate Distinct(alphabet: string) {
    forall i, j :: 0 <= i < j < |alphabet| ==> alphabet[i] != alphabet[j]
  }

  /** The text of the bytes: one symbol of the alphabet for each `w` bits. */
  ghost function Text(alphabet: string, data: seq<nat>, w: nat): (text: string)
    requires w > 0 && |alphabet| == Pow2(w)
  {
    EncodeShape(data, w);
    Symbols(alphabet, Encode(data, w))
  }

  /** ceil(8n / w) symbols, all of the alphabet. */
  lemma TextShape(alphabet: string, data: seq<nat>, w: nat)
    requires w > 0 && |alphabet| == Pow2(w)
    ensures 8 * |data| <= |Text(alphabet, data, w)| * w < 8 * |data| + w
    ensures forall c :: c in Text(alphabet, data, w) ==> c in alphabet
  {
    EncodeShape(data, w);
  }

  lemma TextInjective(alphabet: string, a: seq<nat>, b: seq<nat>, w: nat)
    requires 0 < w <= 8 && |alphabet| == Pow2(w) && Distinct(alphabet)
    requires AllBelow(a, 8) && AllBelow(b, 8)
    requires Text(alphabet, a, w) == Text(alphabet, b, w)
    ensures a == b
  {
    EncodeShape(a, w);
    EncodeShape(b, w);
    SymbolsInjective(alphabet, Encode(a, w), Encode(b, w));
    EncodeInjective(a, b, w);
  }

  /** Bytes that fill whole groups can be spelled one part after the other. */
  lemma TextConcat(alphabet: string, x: seq<nat>, y: seq<nat>, w: nat, c: nat)
    requires w > 0 && |alphabet| == Pow2(w) && |x| * 8 == c * w
    ensures Text(alphabet, x + y, w) == Text(alphabet, x, w) + Text(alphabet, y, w)
  {
    ExpandLength(x, 8);
    ExpandConcat(x, y, 8);
    GroupConcat(Expand(x, 8), Expand(y, 8), w, c);
    EncodeShape(x, w);
    EncodeShape(y, w);
    EncodeShape(x + y, w);
  }

  lemma SymbolsInjective(alphabet: string, a: seq<nat>, b: seq<nat>)
    requires Distinct(alphabet) && InRange(alphabet, a) && InRange(alphabet, b)
    requires Symbols(alphabet, a) == Symbols(alphabet, b)
    ensures a == b
  {
    var s, t := Symbols(alphabet, a), Symbols(alphabet, b);
    assert |a| == |s| == |t| == |b|;
    forall i | 0 <= i < |a|
      ensures a[i] == b[i]
    {
      assert s[i] == t[i];
    }
  }

  // ---------------- decoding ----------------

  lemma WholeBitsConcat(s: seq<bool>, t: seq<bool>, c: nat)
    requires |s| == 8 * c
    ensures WholeBits(s) == s
    ensures WholeBits(s + t) == s + WholeBits(t)
  {
    assert 8 * (|s + t| / 8) == |s| + 8 * (|t| / 8);
  }

  lemma WholeBitsOf(s: seq<bool>, n: nat, k: nat)
    requires k < 8 && |s| == n * 8 + k
    ensures WholeBits(s) == s[..n * 8]
  {
  }

  /** Digits that fill whole bytes can be decoded one part after the other. */
  lemma DecodeConcat(x: seq<nat>, y: seq<nat>, w: nat, c: nat)
    requires |x| * w == c * 8
    ensures Decode(x + y, w) == Decode(x, w) + Decode(y, w)
    ensures |Decode(x, w)| == c
  {
    var s, t := Expand(x, w), Expand(y, w);
    ExpandLength(x, w);
    ExpandConcat(x, y, w);
    WholeBitsConcat(s, t, c);
    GroupConcat(s, WholeBits(t), 8, c);
    GroupConcat(s, [], 8, c);
    assert s + [] == s;
  }

  lemma WholeBytes(x: seq<nat>, w: nat, n: nat, k: nat)
    requires k < 8 && |x| * w == n * 8 + k
    ensures |Expand(x, w)| == n * 8 + k
    ensures Decode(x, w) == Group(Expand(x, w)[..n * 8], 8)
  {
    ExpandLength(x, w);
    WholeBitsOf(Expand(x, w), n, k);
  }

  /** The bytes of a partial group: what remains when the `k` left-over bits go. */
  lemma DecodePartial(x: seq<nat>, w: nat, ys: seq<nat>, k: nat)
    requires AllBelow(x, w) && AllBelow(ys, 8)
    requires k < 8 && |x| * w == |ys| * 8 + k
    requires Number(ys, 8) == Number(x, w) / Pow2(k)
    ensures Decode(x, w) == ys
  {
    WholeBytes(x, w, |ys|, k);
    ExpandNumber(x, w);
    PartialBits(Expand(x, w), ys, k);
  }

  lemma PartialBits(s: seq<bool>, ys: seq<nat>, k: nat)
    requires AllBelow(ys, 8) && |s| == |ys| * 8 + k
    requires Number(ys, 8) == FromBits(s) / Pow2(k)
    ensures Group(s[..|ys| * 8], 8) == ys
  {
    var kept := s[..|s| - k];
    DropLow(s, k);
    BitsOfBytes(kept, ys);
    assert s[..|ys| * 8] == kept;
  }

  lemma BitsOfBytes(s: seq<bool>, ys: seq<nat>)
    requires AllBelow(ys, 8) && |s| == |ys| * 8
    requires FromBits(s) == Number(ys, 8)
    ensures Group(s, 8) == ys
  {
    ExpandNumber(ys, 8);
    ExpandLength(ys, 8);
    SameBits(s, Expand(ys, 8));
    GroupExpand(ys, 8);
  }

  lemma DropLow(s: seq<bool>, k: nat)
    requires k <= |s|
    ensures FromBits(s[..|s| - k]) == FromBits(s) / Pow2(k)
  {
    var kept, rest := s[..|s| - k], s[|s| - k..];
    assert s == kept + rest;
    FromBitsConcat(kept, rest);
    FromBitsBound(rest);
    DivModUnique(FromBits(s), Pow2(k), FromBits(kept), FromBits(rest));
  }

  lemma ClearLow(v: nat, w: nat, k: nat)
    requires v < Pow2(w) && k <= w
    ensures ToBits(v, w)[..w - k] + Zeros(k) == ToBits(Cleared(v, k), w)
  {
    var s := ToBits(v, w);
    var head, rest := s[..w - k], s[w - k..];
    assert s == head + rest;
    FromToBits(v, w);
    FromBitsConcat(head, rest);
    FromBitsBound(rest);
    DivModUnique(v, Pow2(k), FromBits(head), FromBits(rest));
    FromBitsConcat(head, Zeros(k));
    FromBitsZeros(k);
    ToFromBits(head + Zeros(k));
  }

  /** The bits kept by a decoder, filled up again, are those of the digits with the left-over
      bits of the last one cleared. */
  lemma KeptBits(init: seq<nat>, last: nat, w: nat, k: nat)
    requires last < Pow2(w) && k <= w
    ensures k <= |Expand(init + [last], w)|
    ensures Expand(init + [last], w)[..|Expand(init + [last], w)| - k] + Zeros(k)
         == Expand(init + [Cleared(last, k)], w)
  {
    ExpandLast(init, last, w);
    ExpandLast(init, Cleared(last, k), w);
    ClearLow(last, w, k);
    var s := Expand(init, w) + ToBits(last, w);
    assert s[..|s| - k] == Expand(init, w) + ToBits(last, w)[..w - k];
  }

  /** Re-encoding what was decoded gives the digits back, the left-over bits of the last one
      cleared. */
  lemma EncodeDecode(init: seq<nat>, last: nat, w: nat, k: nat, c: nat)
    requires 0 < w <= 8 && AllBelow(init, w) && last < Pow2(w)
    requires |init + [last]| * w == c * 8 + k && k < w
    ensures Encode(Decode(init + [last], w), w) == init + [Cleared(last, k)]
  {
    var digits := init + [last];
    WholeBytes(digits, w, c, k);
    var kept := Expand(digits, w)[..c * 8];
    assert Expand(Decode(digits, w), 8) == kept by {
      ExpandGroup(kept, 8);
      PadUnique(c * 8, 8, c, 0);
      assert kept + Zeros(0) == kept;
    }
    KeptBits(init, last, w, k);
    PadUnique(c * 8, w, |digits|, k);
    GroupPad(kept, w, k);
    GroupExpand(init + [Cleared(last, k)], w);
  }

  /** As many whole bytes as the bits of the digits make; bit `j` of digit `i` is bit `w * i + j`
      of the bytes. */
  lemma DecodeBit(digits: seq<nat>, w: nat, i: nat, j: nat, m: nat)
    requires w > 0 && i < |digits| && j < w && m == w * i + j
    ensures |digits| * w >= 0 && |Decode(digits, w)| == |digits| * w / 8
    ensures m < 8 * |Decode(digits, w)| ==> BitAt(Decode(digits, w), m) == Shr(digits[i], w - 1 - j) % 2
  {
    var s := Expand(digits, w);
    var kept, data := WholeBits(s), Decode(digits, w);
    ExpandLength(digits, w);
    GroupConcat(kept, [], 8, |s| / 8);
    assert kept + [] == kept;
    ExpandGroup(kept, 8);
    if m < 8 * |data| {
      ExpandedBit(data, m, 0);
      ExpandLength(data, 8);
      ExpandAt(digits, w, i, j);
      ToBitsAt(digits[i], w, j);
    }
  }
}
