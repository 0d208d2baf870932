/** The unpadded base64url codec of src/base64url.cpp, against the RFC 4648 regrouping of six
bits (sections 3.5 and 5). */
module Base64Url {
  import opened Bits
  import opened Radix
  import opened Results

  const ALPHABET := "ABCDEFGHIJKLMNOPQRSTUVWXYZ" + "abcdefghijklmnopqrstuvwxyz" + "0123456789-_"
  const INVALID: byte := 0xFF

  /** The value RFC 4648 section 5 gives to a character, or INVALID. */
  function Value(c: char): byte {
    if 'A' <= c <= 'Z' then c as int - 'A' as int
    else if 'a' <= c <= 'z' then c as int - 'a' as int + 26
    else if '0' <= c <= '9' then c as int - '0' as int + 52
    else if c == '-' then 62
    else if c == '_' then 63
    else INVALID
  }

  predicate Valid(s: string) {
    forall i :: 0 <= i < |s| ==> Value(s[i]) < 64
  }

  lemma AlphabetUpper(i: nat)
    requires i < 26
    ensures |ALPHABET| == 64 && ALPHABET[i] as int == 'A' as int + i
  {
  }

  lemma AlphabetLower(i: nat)
    requires 26 <= i < 52
    ensures |ALPHABET| == 64 && ALPHABET[i] as int == 'a' as int + i - 26
  {
  }

  lemma AlphabetAt(i: nat)
    requires i < 64
    ensures |ALPHABET| == 64 && Value(ALPHABET[i]) == i
  {
    if i < 26 {
      AlphabetUpper(i);
    } else if i < 52 {
      AlphabetLower(i);
    }
  }

  /** A character with a value is the alphabet's character at that value. */
  lemma ValueInverse(c: char)
    requires Value(c) < 64
    ensures |ALPHABET| == 64 && ALPHABET[Value(c)] == c
  {
    AlphabetAt(Value(c));
  }

  lemma AlphabetSize()
    ensures |ALPHABET| == Pow2(6) == 64
  {
    Pow2Small();
  }

  /** The text RFC 4648 section 5 assigns to the bytes, without padding. */
  ghost function Spelled(data: seq<byte>): (text: string) {
    AlphabetSize();
    Text(ALPHABET, data, 6)
  }

  function Digits(s: string): (digits: seq<nat>)
    ensures |digits| == |s|
  {
    seq(|s|, i requires 0 <= i < |s| => Value(s[i]) as nat)
  }

  function AsBytes(values: seq<nat>): (data: seq<byte>)
    requires forall i :: 0 <= i < |values| ==> values[i] < 256
    ensures data == values
  {
    seq(|values|, i requires 0 <= i < |values| => values[i] as byte)
  }

  /** The bytes of an unpadded base64url text: the whole bytes among the bits of its digits. */
  ghost function Bytes(text: string): (r: Result<seq<byte>>) {
    if Valid(text) && |text| % 4 != 1 then
      DecodeBelow(Digits(text), 6);
      Pow2Small();
      Ok(AsBytes(Decode(Digits(text), 6)))
    else
      Err(Malformed)
  }

  // ---------------- encoding ----------------

  /** The six bits of a word above its `shift` low ones. */
  function Sextet(word: nat, shift: nat): nat {
    Shr(word, shift) % 64
  }

  /** `(a << 16) | (b << 8) | c`; see MachineForms for the operators. */
  function Triple(a: byte, b: byte, c: byte): nat {
    a * 0x1_0000 + b * 0x100 + c
  }

  /** The shifts, `|` and `&` of the encoder compute Triple and Sextet, without wrapping. */
  lemma MachineForms(a: byte, b: byte, c: byte, word: nat, shift: nat)
    ensures Or(Or(Shl32(a, 16), Shl32(b, 8)), c) == Triple(a, b, c)
    ensures Or(Shl32(a, 16), Shl32(b, 8)) == Triple(a, b, 0)
    ensures Shl32(a, 16) == Triple(a, 0, 0)
    ensures And(Shr(word, shift), 0x3F) == Sextet(word, shift)
  {
    Pow2Small();
    Shl32Fits(a, 16);
    Shl32Fits(b, 8);
    OrDisjoint(a, 16, b * 0x100);
    OrDisjoint(a * 0x100 + b, 8, c);
    AndMask(Shr(word, shift), 6, 64);
  }

  lemma TripleSextets(a: byte, b: byte, c: byte, t: nat)
    requires t == Triple(a, b, c)
    ensures Sextet(t, 18) == a / 4
    ensures Sextet(t, 12) == a % 4 * 16 + b / 16
    ensures Sextet(t, 6) == b % 16 * 4 + c / 64
    ensures Sextet(t, 0) == c % 64
  {
    Pow2Small();
    assert t / 0x4_0000 == a / 4;
    assert t / 0x1000 == a * 16 + b / 16;
    assert t / 64 == a * 1024 + b * 4 + c / 64;
  }

  lemma EncodeOne(a: byte, t: nat)
    requires t == Triple(a, 0, 0)
    ensures Encode([a], 6) == [Sextet(t, 18), Sextet(t, 12)]
  {
    TripleSextets(a, 0, 0, t);
    Pow2Small();
    assert Number([a], 8) * 16 == Number([a / 4, a % 4 * 16], 6) by {
      NumberUpTo4(a, 0, 0, 0, 8, 256);
      NumberUpTo4(a / 4, a % 4 * 16, 0, 0, 6, 64);
    }
    Regroup([a], 8, [a / 4, a % 4 * 16], 6);
  }

  lemma EncodeTwo(a: byte, b: byte, t: nat)
    requires t == Triple(a, b, 0)
    ensures Encode([a, b], 6) == [Sextet(t, 18), Sextet(t, 12), Sextet(t, 6)]
  {
    var x0, x1, x2 := a / 4, a % 4 * 16 + b / 16, b % 16 * 4;
    TripleSextets(a, b, 0, t);
    Pow2Small();
    assert Number([a, b], 8) * 4 == Number([x0, x1, x2], 6) by {
      NumberUpTo4(a, b, 0, 0, 8, 256);
      NumberUpTo4(x0, x1, x2, 0, 6, 64);
    }
    Regroup([a, b], 8, [x0, x1, x2], 6);
  }

  lemma SameNumber(a: byte, b: byte, c: byte)
    ensures (a * 256 + b) * 256 + c
         == ((a / 4 * 64 + (a % 4 * 16 + b / 16)) * 64 + (b % 16 * 4 + c / 64)) * 64 + c % 64
  {
    assert a == a / 4 * 4 + a % 4 && b == b / 16 * 16 + b % 16 && c == c / 64 * 64 + c % 64;
  }

  /** Three bytes and four sextets of the same value. */
  lemma ThreeBytes(a: byte, b: byte, c: byte, x0: nat, x1: nat, x2: nat, x3: nat)
    requires x0 < 64 && x1 < 64 && x2 < 64 && x3 < 64
    requires (a * 256 + b) * 256 + c == ((x0 * 64 + x1) * 64 + x2) * 64 + x3
    ensures Encode([a, b, c], 6) == [x0, x1, x2, x3]
  {
    Pow2Small();
    var xs, ys: seq<nat> := [a, b, c], [x0, x1, x2, x3];
    NumberUpTo4(a, b, c, 0, 8, 256);
    NumberUpTo4(x0, x1, x2, x3, 6, 64);
    assert AllBelow(xs, 8) && AllBelow(ys, 6);
    assert |xs| * 8 == 24 && |ys| * 6 == 24 && Pow2(0) == 1;
    Regroup(xs, 8, ys, 6);
  }

  lemma EncodeThree(a: byte, b: byte, c: byte, t: nat)
    requires t == Triple(a, b, c)
    ensures Encode([a, b, c], 6) == [Sextet(t, 18), Sextet(t, 12), Sextet(t, 6), Sextet(t, 0)]
  {
    TripleSextets(a, b, c, t);
    SameNumber(a, b, c);
    ThreeBytes(a, b, c, a / 4, a % 4 * 16 + b / 16, b % 16 * 4 + c / 64, c % 64);
  }

  lemma LowSextet(x: nat)
    ensures And(x, 0x3F) == x % 64
  {
    Pow2Small();
    AndMask(x, 6, 64);
  }

  /** `alphabet[(word >> shift) & 0x3F]`. */
  method Symbol(alphabet: string, word: nat, shift: nat) returns (c: char)
    requires |alphabet| == 64
    ensures c == alphabet[Sextet(word, shift)]
  {
    var shifted := Shr(word, shift);
    LowSextet(shifted);
    c := alphabet[And(shifted, 0x3F)];
  }

  /** `(a << 16) | (b << 8) | c`. */
  method PackBytes(a: byte, b: byte, c: byte) returns (word: nat)
    ensures word == Triple(a, b, c)
  {
    MachineForms(a, b, c, 0, 0);
    word := Or(Or(Shl32(a, 16), Shl32(b, 8)), c);
  }

  /** `(a << 16)`, then `|= b << 8`. */
  method PackTwo(a: byte, b: byte, first: nat) returns (word: nat)
    requires first == Triple(a, 0, 0)
    ensures word == Triple(a, b, 0)
  {
    MachineForms(a, b, 0, 0, 0);
    word := Or(first, Shl32(b, 8));
  }

  method PackOne(a: byte) returns (word: nat)
    ensures word == Triple(a, 0, 0)
  {
    MachineForms(a, 0, 0, 0, 0);
    word := Shl32(a, 16);
  }

  /** The encoder of the source, for any alphabet of 64 symbols. */
  method EncodeWith(alphabet: string, data: seq<byte>) returns (result: string)
    requires |alphabet| == Pow2(6) == 64
    ensures result == Text(alphabet, data, 6)
  {
    if data == [] {
      return "";
    }
    result := "";
    var i := 0;
    while i + 2 < |data|
      invariant i <= |data| && i % 3 == 0
      invariant result == Text(alphabet, data[..i], 6)
    {
      var triple := PackBytes(data[i], data[i + 1], data[i + 2]);
      EncodeThree(data[i], data[i + 1], data[i + 2], triple);
      TextConcat(alphabet, data[..i], [data[i], data[i + 1], data[i + 2]], 6, i / 3 * 4);
      assert data[..i + 3] == data[..i] + [data[i], data[i + 1], data[i + 2]];
      var w := Symbol(alphabet, triple, 18);
      var x := Symbol(alphabet, triple, 12);
      var y := Symbol(alphabet, triple, 6);
      var z := Symbol(alphabet, triple, 0);
      result := result + [w, x, y, z];
      i := i + 3;
    }
    TextConcat(alphabet, data[..i], data[i..], 6, i / 3 * 4);
    assert data == data[..i] + data[i..];
    if i < |data| {
      var rest := EncodeRest(alphabet, data[i..]);
      result := result + rest;
    }
  }

  /** The remaining one or two bytes, without padding. */
  method EncodeRest(alphabet: string, data: seq<byte>) returns (result: string)
    requires |alphabet| == Pow2(6) == 64 && 1 <= |data| <= 2
    ensures result == Text(alphabet, data, 6)
  {
    var remaining := PackOne(data[0]);
    var first := Symbol(alphabet, remaining, 18);
    if |data| == 2 {
      TripleSextets(data[0], 0, 0, remaining);
      remaining := PackTwo(data[0], data[1], remaining);
      TripleSextets(data[0], data[1], 0, remaining);
      EncodeTwo(data[0], data[1], remaining);
      assert data == [data[0], data[1]];
      var second := Symbol(alphabet, remaining, 12);
      var third := Symbol(alphabet, remaining, 6);
      return [first, second, third];
    }
    EncodeOne(data[0], remaining);
    assert data == [data[0]];
    var second := Symbol(alphabet, remaining, 12);
    return [first, second];
  }

  method EncodeText(data: seq<byte>) returns (result: string)
    ensures result == Spelled(data)
  {
    AlphabetSize();
    result := EncodeWith(ALPHABET, data);
  }

  // ---------------- decoding ----------------

  /** Code `c` of the lookup table: the value of the character with that code. */
  ghost predicate IsLookup(table: seq<byte>) {
    |table| == 256 && forall c: char :: c as int < 256 ==> table[c as int] == Value(c)
  }

  /** The table is filled with INVALID, then each symbol of the alphabet gets its index. */
  method CreateDecodeLookup() returns (table: seq<byte>)
    ensures IsLookup(table)
  {
    var lookup := new byte[256];
    for c := 0 to 256
      invariant forall k :: 0 <= k < c ==> lookup[k] == INVALID
    {
      lookup[c] := INVALID;
    }
    AlphabetSize();
    for i := 0 to 64
      invariant forall c: char :: c as int < 256 ==>
        lookup[c as int] == if Value(c) < i then Value(c) else INVALID
    {
      var symbol := ALPHABET[i];
      AlphabetAt(i);
      OnlySymbol(symbol, i);
      lookup[symbol as int] := i;
    }
    table := lookup[..];
  }

  lemma OnlySymbol(symbol: char, i: nat)
    requires i < 64 && Value(symbol) == i
    ensures symbol as int < 256
    ensures forall c: char :: Value(c) == i ==> c == symbol
  {
    forall c: char | Value(c) == i
      ensures c == symbol
    {
      ValueInverse(c);
      ValueInverse(symbol);
    }
  }

  /** `decode_lookup[static_cast<uint8_t>(c)]`; a C++ string has no character above 255. */
  method LookUp(table: seq<byte>, c: char) returns (value: byte)
    requires IsLookup(table)
    ensures value == Value(c) && (value < 64 || value == INVALID)
  {
    value := if c as int < 256 then table[c as int] else INVALID;
  }

  lemma BadCharacter(input: string, k: nat)
    requires k < |input| && Value(input[k]) >= 64
    ensures Bytes(input) == Err(Malformed)
  {
  }

  /** `(a << 18) | (b << 12) | (c << 6) | d`. */
  function Quad(a: nat, b: nat, c: nat, d: nat): nat {
    a * 0x4_0000 + b * 0x1000 + c * 0x40 + d
  }

  /** Byte of a word above its `shift` low bits: `(word >> shift) & 0xFF`. */
  function Octet(word: nat, shift: nat): byte {
    Shr(word, shift) % 256
  }

  lemma TwoJoined(a: nat, b: nat)
    requires a < 64 && b < 64
    ensures Or(Shl32(a, 18), Shl32(b, 12)) == Quad(a, b, 0, 0)
  {
    Pow2Small();
    Shl32Fits(a, 18);
    Shl32Fits(b, 12);
    OrDisjoint(a, 18, b * 0x1000);
  }

  lemma ThreeJoined(a: nat, b: nat, c: nat, two: nat)
    requires a < 64 && b < 64 && c < 64 && two == Quad(a, b, 0, 0)
    ensures Or(two, Shl32(c, 6)) == Quad(a, b, c, 0)
  {
    Pow2Small();
    Shl32Fits(c, 6);
    assert two == (a * 64 + b) * 0x1000;
    OrDisjoint(a * 64 + b, 12, c * 64);
  }

  lemma FourJoined(a: nat, b: nat, c: nat, d: nat, three: nat)
    requires a < 64 && b < 64 && c < 64 && d < 64 && three == Quad(a, b, c, 0)
    ensures Or(three, d) == Quad(a, b, c, d)
  {
    Pow2Small();
    assert three == ((a * 64 + b) * 64 + c) * 64;
    OrDisjoint((a * 64 + b) * 64 + c, 6, d);
  }

  /** The shifts, `|` and `&` of the decoder compute Quad and Octet, without wrapping. */
  lemma DecoderMachineForms(a: nat, b: nat, c: nat, d: nat, word: nat, shift: nat)
    requires a < 64 && b < 64 && c < 64 && d < 64
    ensures Or(Or(Or(Shl32(a, 18), Shl32(b, 12)), Shl32(c, 6)), d) == Quad(a, b, c, d)
    ensures Or(Or(Shl32(a, 18), Shl32(b, 12)), Shl32(c, 6)) == Quad(a, b, c, 0)
    ensures Or(Shl32(a, 18), Shl32(b, 12)) == Quad(a, b, 0, 0)
    ensures And(Shr(word, shift), 0xFF) == Octet(word, shift)
  {
    TwoJoined(a, b);
    ThreeJoined(a, b, c, Quad(a, b, 0, 0));
    FourJoined(a, b, c, d, Quad(a, b, c, 0));
    LowOctet(Shr(word, shift));
  }

  lemma LowOctet(x: nat)
    ensures And(x, 0xFF) == x % 256
  {
    Pow2Small();
    AndMask(x, 8, 256);
  }

  lemma ThreeOctets(x: byte, y: byte, z: byte, q: nat)
    requires q == x * 0x1_0000 + y * 0x100 + z
    ensures Octet(q, 16) == x && Octet(q, 8) == y && Octet(q, 0) == z
  {
    Pow2Small();
    assert q / 0x1_0000 == x;
    assert q / 0x100 == x * 0x100 + y;
  }

  lemma QuadOctets(a: nat, b: nat, c: nat, d: nat, q: nat)
    requires a < 64 && b < 64 && c < 64 && d < 64 && q == Quad(a, b, c, d)
    ensures Octet(q, 16) == a * 4 + b / 16
    ensures Octet(q, 8) == b % 16 * 16 + c / 4
    ensures Octet(q, 0) == c % 4 * 64 + d
  {
    ThreeOctets(a * 4 + b / 16, b % 16 * 16 + c / 4, c % 4 * 64 + d, q);
  }

  lemma DecodeFour(a: nat, b: nat, c: nat, d: nat, q: nat)
    requires a < 64 && b < 64 && c < 64 && d < 64 && q == Quad(a, b, c, d)
    ensures Decode([a, b, c, d], 6) == [Octet(q, 16), Octet(q, 8), Octet(q, 0)]
  {
    var y0, y1, y2 := a * 4 + b / 16, b % 16 * 16 + c / 4, c % 4 * 64 + d;
    QuadOctets(a, b, c, d, q);
    Pow2Small();
    assert Number([y0, y1, y2], 8) == Number([a, b, c, d], 6) by {
      NumberUpTo4(a, b, c, d, 6, 64);
      NumberUpTo4(y0, y1, y2, 0, 8, 256);
    }
    DecodePartial([a, b, c, d], 6, [y0, y1, y2], 0);
  }

  lemma DecodeTwo(a: nat, b: nat, q: nat)
    requires a < 64 && b < 64 && q == Quad(a, b, 0, 0)
    ensures Decode([a, b], 6) == [Octet(q, 16)]
  {
    QuadOctets(a, b, 0, 0, q);
    Pow2Small();
    NumberUpTo4(a, b, 0, 0, 6, 64);
    NumberUpTo4(a * 4 + b / 16, 0, 0, 0, 8, 256);
    DecodePartial([a, b], 6, [a * 4 + b / 16], 4);
  }

  lemma DecodeThree(a: nat, b: nat, c: nat, q: nat)
    requires a < 64 && b < 64 && c < 64 && q == Quad(a, b, c, 0)
    ensures Decode([a, b, c], 6) == [Octet(q, 16), Octet(q, 8)]
  {
    var y0, y1 := a * 4 + b / 16, b % 16 * 16 + c / 4;
    QuadOctets(a, b, c, 0, q);
    Pow2Small();
    assert Number([y0, y1], 8) == Number([a, b, c], 6) / 4 by {
      NumberUpTo4(a, b, c, 0, 6, 64);
      NumberUpTo4(y0, y1, 0, 0, 8, 256);
    }
    DecodePartial([a, b, c], 6, [y0, y1], 2);
  }

  ghost predicate DecodedTo(input: string, i: nat, result: seq<byte>) {
    && i <= |input| && i % 4 == 0
    && Valid(input[..i])
    && result == Decode(Digits(input[..i]), 6)
  }

  /** The bytes of the next characters follow those of the first `i`, a multiple of four. */
  lemma NextGroup(input: string, i: nat, n: nat, result: seq<byte>, bytes: seq<byte>)
    requires DecodedTo(input, i, result) && i + n <= |input|
    requires Valid(input[i..i + n]) && Decode(Digits(input[i..i + n]), 6) == bytes
    ensures Valid(input[..i + n]) && Decode(Digits(input[..i + n]), 6) == result + bytes
  {
    var x, y := input[..i], input[i..i + n];
    assert input[..i + n] == x + y;
    assert Digits(x + y) == Digits(x) + Digits(y);
    DecodeConcat(Digits(x), Digits(y), 6, i / 4 * 3);
  }

  lemma LastGroup(input: string, i: nat, result: seq<byte>, bytes: seq<byte>)
    requires DecodedTo(input, i, result) && i <= |input| && |input| % 4 != 1
    requires Valid(input[i..]) && Decode(Digits(input[i..]), 6) == bytes
    ensures Bytes(input) == Ok(result + bytes)
  {
    assert input[i..i + (|input| - i)] == input[i..] && input[..i + (|input| - i)] == input;
    NextGroup(input, i, |input| - i, result, bytes);
  }

  lemma NextFour(input: string, i: nat, result: seq<byte>, q: nat)
    requires DecodedTo(input, i, result) && i + 4 <= |input|
    requires forall k :: i <= k < i + 4 ==> Value(input[k]) < 64
    requires q == Quad(Value(input[i]), Value(input[i + 1]), Value(input[i + 2]), Value(input[i + 3]))
    ensures DecodedTo(input, i + 4, result + [Octet(q, 16), Octet(q, 8), Octet(q, 0)])
  {
    var a, b, c, d := Value(input[i]), Value(input[i + 1]), Value(input[i + 2]), Value(input[i + 3]);
    DecodeFour(a, b, c, d, q);
    assert Digits(input[i..i + 4]) == [a, b, c, d];
    NextGroup(input, i, 4, result, [Octet(q, 16), Octet(q, 8), Octet(q, 0)]);
  }

  lemma LastTwo(input: string, i: nat, result: seq<byte>, a: nat, b: nat, q: nat)
    requires DecodedTo(input, i, result) && i + 2 == |input|
    requires Digits(input[i..]) == [a, b] && a < 64 && b < 64 && Valid(input[i..])
    requires q == Quad(a, b, 0, 0)
    ensures Bytes(input) == Ok(result + [Octet(q, 16)])
  {
    DecodeTwo(a, b, q);
    LastGroup(input, i, result, [Octet(q, 16)]);
  }

  lemma LastThree(input: string, i: nat, result: seq<byte>, a: nat, b: nat, c: nat, q: nat)
    requires DecodedTo(input, i, result) && i + 3 == |input|
    requires Digits(input[i..]) == [a, b, c] && a < 64 && b < 64 && c < 64 && Valid(input[i..])
    requires q == Quad(a, b, c, 0)
    ensures Bytes(input) == Ok(result + [Octet(q, 16), Octet(q, 8)])
  {
    DecodeThree(a, b, c, q);
    LastGroup(input, i, result, [Octet(q, 16), Octet(q, 8)]);
  }

  lemma TwoDigits(s: string)
    requires |s| == 2 && Value(s[0]) < 64 && Value(s[1]) < 64
    ensures Digits(s) == [Value(s[0]) as nat, Value(s[1])] && Valid(s)
  {
  }

  lemma ThreeDigits(s: string)
    requires |s| == 3 && Value(s[0]) < 64 && Value(s[1]) < 64 && Value(s[2]) < 64
    ensures Digits(s) == [Value(s[0]) as nat, Value(s[1]), Value(s[2])] && Valid(s)
  {
  }

  lemma NoneLeft(input: string, result: seq<byte>)
    requires DecodedTo(input, |input|, result)
    ensures Bytes(input) == Ok(result)
  {
    assert input[..|input|] == input;
  }

  lemma SameFirstOctet(a: nat, b: nat, c: nat)
    requires a < 64 && b < 64 && c < 64
    ensures Octet(Quad(a, b, 0, 0), 16) == Octet(Quad(a, b, c, 0), 16)
  {
    QuadOctets(a, b, 0, 0, Quad(a, b, 0, 0));
    QuadOctets(a, b, c, 0, Quad(a, b, c, 0));
  }

  /** `(word >> shift) & 0xFF`. */
  method LowByte(word: nat, shift: nat) returns (b: byte)
    ensures b == Octet(word, shift)
  {
    var shifted := Shr(word, shift);
    LowOctet(shifted);
    b := And(shifted, 0xFF);
  }

  /** `(a << 18) | (b << 12) | (c << 6) | d`. */
  method PackFour(a: nat, b: nat, c: nat, d: nat) returns (word: nat)
    requires a < 64 && b < 64 && c < 64 && d < 64
    ensures word == Quad(a, b, c, d)
  {
    DecoderMachineForms(a, b, c, d, 0, 0);
    word := Or(Or(Or(Shl32(a, 18), Shl32(b, 12)), Shl32(c, 6)), d);
  }

  /** `(a << 18) | (b << 12)`. */
  method PackPair(a: nat, b: nat) returns (word: nat)
    requires a < 64 && b < 64
    ensures word == Quad(a, b, 0, 0)
  {
    DecoderMachineForms(a, b, 0, 0, 0, 0);
    word := Or(Shl32(a, 18), Shl32(b, 12));
  }

  /** `partial |= c << 6`. */
  method PackThird(partial: nat, a: nat, b: nat, c: nat) returns (word: nat)
    requires a < 64 && b < 64 && c < 64 && partial == Quad(a, b, 0, 0)
    ensures word == Quad(a, b, c, 0)
  {
    ThreeJoined(a, b, c, partial);
    word := Or(partial, Shl32(c, 6));
  }

  method DecodeText(input: string) returns (r: Result<seq<byte>>)
    ensures r == Bytes(input)
  {
    if input == "" {
      NoneLeft(input, []);
      return Ok([]);
    }
    var table := CreateDecodeLookup();
    var result: seq<byte> := [];
    var i := 0;
    while i + 3 < |input|
      invariant DecodedTo(input, i, result)
    {
      var group := DecodeGroup(table, input, i, result);
      if group.Err? {
        return Err(group.error);
      }
      result := result + group.value;
      i := i + 4;
    }
    r := DecodeRest(table, input, i, result);
  }

  /** The three bytes of four characters. */
  method DecodeGroup(table: seq<byte>, input: string, i: nat, ghost result: seq<byte>) returns (r: Result<seq<byte>>)
    requires IsLookup(table) && DecodedTo(input, i, result) && i + 3 < |input|
    ensures r.Err? ==> r == Bytes(input)
    ensures r.Ok? ==> DecodedTo(input, i + 4, result + r.value)
  {
    var a := LookUp(table, input[i]);
    var b := LookUp(table, input[i + 1]);
    var c := LookUp(table, input[i + 2]);
    var d := LookUp(table, input[i + 3]);
    if a == INVALID || b == INVALID || c == INVALID || d == INVALID {
      BadCharacter(input, if a == INVALID then i else if b == INVALID then i + 1
      else if c == INVALID then i + 2 else i + 3);
      return Err(Malformed);
    }
    var quad := PackFour(a, b, c, d);
    NextFour(input, i, result, quad);
    var x := LowByte(quad, 16);
    var y := LowByte(quad, 8);
    var z := LowByte(quad, 0);
    return Ok([x, y, z]);
  }

  /** What is left after the groups of four characters. */
  method DecodeRest(table: seq<byte>, input: string, i: nat, result: seq<byte>) returns (r: Result<seq<byte>>)
    requires IsLookup(table) && DecodedTo(input, i, result) && |input| < i + 4
    ensures r == Bytes(input)
  {
    var remaining := |input| - i;
    if remaining == 0 {
      NoneLeft(input, result);
      return Ok(result);
    }
    if remaining == 1 {
      assert |input| % 4 == 1;
      return Err(Malformed);
    }
    var a := LookUp(table, input[i]);
    var b := LookUp(table, input[i + 1]);
    if a == INVALID || b == INVALID {
      BadCharacter(input, if a == INVALID then i else i + 1);
      return Err(Malformed);
    }
    var partial := PackPair(a, b);
    var first := LowByte(partial, 16);
    if remaining == 2 {
      TwoDigits(input[i..]);
      LastTwo(input, i, result, a, b, partial);
      return Ok(result + [first]);
    }
    var c := LookUp(table, input[i + 2]);
    if c == INVALID {
      BadCharacter(input, i + 2);
      return Err(Malformed);
    }
    partial := PackThird(partial, a, b, c);
    SameFirstOctet(a, b, c);
    ThreeDigits(input[i..]);
    LastThree(input, i, result, a, b, c, partial);
    var second := LowByte(partial, 8);
    assert result + [first, second] == result + [first] + [second];
    return Ok(result + [first] + [second]);
  }

  // ---------------- the codec as a whole ----------------

  lemma SpelledDigits(data: seq<byte>)
    ensures Valid(Spelled(data)) && Digits(Spelled(data)) == Encode(data, 6)
  {
    var s := Spelled(data);
    AlphabetSize();
    EncodeShape(data, 6);
    forall i | 0 <= i < |s|
      ensures Value(s[i]) == Encode(data, 6)[i] < 64
    {
      AlphabetAt(Encode(data, 6)[i]);
    }
  }

  /** Decoding undoes encoding, for every byte string. */
  lemma RoundTrip(data: seq<byte>)
    ensures Bytes(Spelled(data)) == Ok(data)
  {
    AlphabetSize();
    Pow2Small();
    SpelledDigits(data);
    SpelledShape(data);
    DecodeEncode(data, 6);
  }

  /** ceil(4n / 3) characters, none of them `.` or `=`. */
  lemma SpelledShape(data: seq<byte>)
    ensures |Spelled(data)| == (4 * |data| + 2) / 3
    ensures |Spelled(data)| % 4 != 1
    ensures '.' !in Spelled(data) && '=' !in Spelled(data)
  {
    AlphabetSize();
    TextShape(ALPHABET, data, 6);
    SpelledDigits(data);
  }

  /** Number of bits of the last character that belong to no byte. */
  function UnusedBits(length: nat): nat {
    if length % 4 == 2 then 4 else if length % 4 == 3 then 2 else 0
  }

  /** The unused bits of the last character are zero (RFC 4648 section 3.5). */
  predicate Canonical(text: string) {
    text == "" || Value(text[|text| - 1]) % Pow2(UnusedBits(|text|)) == 0
  }

  /** The text with the unused bits of its last character cleared. */
  function Canonicalized(text: string): string
    requires Valid(text)
  {
    if text == "" then "" else
      AlphabetSize();
      text[|text| - 1 := ALPHABET[Cleared(Value(text[|text| - 1]), UnusedBits(|text|))]]
  }

  lemma UnusedBitsExactly(length: nat)
    requires length % 4 != 1
    ensures 6 * length == (6 * length - UnusedBits(length)) / 8 * 8 + UnusedBits(length)
  {
    var q, r := length / 4, length % 4;
    assert length == 4 * q + r;
    if r == 0 {
      Eighths(6 * length, 3 * q);
    } else if r == 2 {
      Eighths(6 * length - 4, 3 * q + 1);
    } else {
      Eighths(6 * length - 2, 3 * q + 2);
    }
  }

  lemma Eighths(n: nat, c: nat)
    requires n == 8 * c
    ensures n / 8 * 8 == n
  {
  }

  /** Encoding what was decoded gives the digits again, the unused bits of the last one cleared. */
  lemma ReEncodeDigits(text: string, d: seq<nat>, k: nat, n: nat)
    requires Bytes(text).Ok? && text != ""
    requires d == Digits(text) && k == UnusedBits(|text|) && n == |text| - 1
    ensures Encode(Bytes(text).value, 6) == d[n := Cleared(d[n], k)]
    ensures Cleared(d[n], k) < 64
  {
    Pow2Small();
    assert d == d[..n] + [d[n]];
    UnusedBitsExactly(|text|);
    EncodeDecode(d[..n], d[n], 6, k, (6 * |text| - k) / 8);
    EncodeShape(Bytes(text).value, 6);
    assert d[n := Cleared(d[n], k)] == d[..n] + [Cleared(d[n], k)];
    assert d[n := Cleared(d[n], k)][n] == Cleared(d[n], k);
  }

  /** Spelled digits, one of them replaced. */
  lemma Respell(alphabet: string, text: string, d: seq<nat>, n: nat, x: nat)
    requires n < |text| == |d| && x < |alphabet| && InRange(alphabet, d)
    requires forall i :: 0 <= i < |d| ==> alphabet[d[i]] == text[i]
    ensures Symbols(alphabet, d[n := x]) == text[n := alphabet[x]]
  {
  }

  /** Encoding what was decoded spells the text again, its unused bits cleared. */
  lemma ReEncode(text: string)
    requires Bytes(text).Ok?
    ensures Spelled(Bytes(text).value) == Canonicalized(text)
  {
    AlphabetSize();
    if text != "" {
      var d, k, n := Digits(text), UnusedBits(|text|), |text| - 1;
      ReEncodeDigits(text, d, k, n);
      forall i | 0 <= i < |d|
        ensures ALPHABET[d[i]] == text[i]
      {
        ValueInverse(text[i]);
      }
      Respell(ALPHABET, text, d, n, Cleared(d[n], k));
    }
  }

  /** A decodable text is what its bytes encode to if and only if it is canonical. */
  lemma CanonicalExactly(text: string)
    requires Bytes(text).Ok?
    ensures Spelled(Bytes(text).value) == text <==> Canonical(text)
  {
    ReEncode(text);
    if text != "" {
      var c := text[|text| - 1];
      ValueInverse(c);
      AlphabetAt(Cleared(Value(c), UnusedBits(|text|)));
    }
  }

  /** Two texts decode to the same bytes if and only if they differ at most in unused bits;
      so a byte string has exactly one canonical spelling. */
  lemma SameBytesExactly(a: string, b: string)
    requires Bytes(a).Ok? && Bytes(b).Ok?
    ensures Bytes(a) == Bytes(b) <==> Canonicalized(a) == Canonicalized(b)
    ensures Canonical(a) && Canonical(b) && Bytes(a) == Bytes(b) ==> a == b
  {
    ReEncode(a);
    ReEncode(b);
    RoundTrip(Bytes(a).value);
    RoundTrip(Bytes(b).value);
    CanonicalExactly(a);
    CanonicalExactly(b);
  }

  // ---------------- symbol by symbol ----------------

  /** `c` is the symbol of `v` in table 2 of RFC 4648: A to Z, a to z, 0 to 9, then - and _. */
  predicate SymbolOf(c: char, v: nat) {
    if v < 26 then c as int == 'A' as int + v
    else if v < 52 then c as int == 'a' as int + (v - 26)
    else if v < 62 then c as int == '0' as int + (v - 52)
    else if v == 62 then c == '-'
    else v == 63 && c == '_'
  }

  /** The value of a character is that of its symbol, and INVALID for any other character. */
  lemma ValueExactly(c: char)
    ensures forall v: nat :: v < 64 ==> (SymbolOf(c, v) <==> Value(c) == v)
    ensures Value(c) == INVALID <==> forall v: nat :: v < 64 ==> !SymbolOf(c, v)
  {
    if Value(c) < 64 {
      assert SymbolOf(c, Value(c));
    }
  }

  ghost predicate IsSymbol(c: char) {
    exists v: nat :: v < 64 && SymbolOf(c, v)
  }

  /** A text decodes if and only if it consists of symbols and its length is not 1 modulo 4. */
  lemma DecodesExactly(text: string)
    ensures Bytes(text).Ok? <==>
      |text| % 4 != 1
      && forall i :: 0 <= i < |text| ==> IsSymbol(text[i])
  {
    forall i | 0 <= i < |text|
      ensures Value(text[i]) < 64 <==> IsSymbol(text[i])
    {
      ValueExactly(text[i]);
      if Value(text[i]) < 64 {
        assert SymbolOf(text[i], Value(text[i]));
      }
    }
  }

  /** Six bits of the bytes, read from left to right from bit `m` on, as a number. */
  function Six(data: seq<byte>, m: nat): nat {
    32 * BitAt(data, m) + 16 * BitAt(data, m + 1) + 8 * BitAt(data, m + 2) + 4 * BitAt(data, m + 3)
      + 2 * BitAt(data, m + 4) + BitAt(data, m + 5)
  }

  /** Symbol `k` is that of the six bits from bit 6k on. */
  lemma SpelledAt(data: seq<byte>, k: nat)
    requires k < |Spelled(data)|
    ensures SymbolOf(Spelled(data)[k], Six(data, 6 * k))
  {
    SpelledDigits(data);
    AlphabetSize();
    EncodeShape(data, 6);
    var v := Encode(data, 6)[k];
    EncodeBit(data, 6, k, 0, 6 * k);
    EncodeBit(data, 6, k, 1, 6 * k + 1);
    EncodeBit(data, 6, k, 2, 6 * k + 2);
    EncodeBit(data, 6, k, 3, 6 * k + 3);
    EncodeBit(data, 6, k, 4, 6 * k + 4);
    EncodeBit(data, 6, k, 5, 6 * k + 5);
    SixBits(v);
    ValueExactly(Spelled(data)[k]);
  }

  /** Three bytes for four characters; bit `j` of character `i` is bit 6i + j of the bytes. */
  lemma BytesAt(text: string, i: nat, j: nat, v: nat)
    requires Bytes(text).Ok? && i < |text| && j < 6
    requires v < 64 && SymbolOf(text[i], v)
    ensures |Bytes(text).value| == 6 * |text| / 8
    ensures 6 * i + j < 8 * |Bytes(text).value| ==>
      BitAt(Bytes(text).value, 6 * i + j) == Shr(v, 5 - j) % 2
  {
    ValueExactly(text[i]);
    DecodeBit(Digits(text), 6, i, j, 6 * i + j);
  }

  lemma SixBits(v: nat)
    requires v < 64
    ensures v == 32 * (Shr(v, 5) % 2) + 16 * (Shr(v, 4) % 2) + 8 * (Shr(v, 3) % 2) + 4 * (Shr(v, 2) % 2)
               + 2 * (Shr(v, 1) % 2) + Shr(v, 0) % 2
  {
    Pow2Small();
    Halves(v, Shr(v, 1), Shr(v, 2), Shr(v, 3), Shr(v, 4), Shr(v, 5));
  }

  lemma Halves(v: nat, v1: nat, v2: nat, v3: nat, v4: nat, v5: nat)
    requires v1 == v / 2 && v2 == v / 4 && v3 == v / 8 && v4 == v / 16 && v5 == v / 32 && v < 64
    ensures v == 2 * v1 + v % 2 && v1 == 2 * v2 + v1 % 2 && v2 == 2 * v3 + v2 % 2
    ensures v3 == 2 * v4 + v3 % 2 && v4 == 2 * v5 + v4 % 2 && v5 == v5 % 2
  {
  }
}
