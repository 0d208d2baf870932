/** The compact form of a token (`parseJwt`, `signAndAssemble` and `verifySignature` of
src/jwt_utils.cpp; RFC 7515 section 7.1). */
module Tokenization {
  import opened Bits
  import opened Results
  import opened Tokens
  import opened Json
  import Base64Url

  /** What other libraries decide: JSON text, public keys and their kinds (`O`, `A`, `U`), signatures. */
  datatype World = World(
    parse: seq<byte> -> Option<Json>,
    dump: Json -> seq<byte>,
    keyValid: string -> bool,
    isKind: (char, string) -> bool,
    verifies: (string, seq<byte>, seq<byte>) -> bool)

  /** A signature that verifies is not empty. */
  ghost predicate ChecksLength(w: World) {
    forall k, m, s :: w.verifies(k, m, s) ==> s != []
  }

  const MAX_JWT_SIZE := 1024 * 1024

  datatype JwtParts = JwtParts(header: string, payload: string, signature: string, signingInput: string)

  // ---------------- parsing ----------------

  /** Three non-empty parts between two dots, within the size limit. */
  function Parts(jwt: string): Result<JwtParts> {
    var tokens := Split(jwt, '.');
    if |jwt| <= MAX_JWT_SIZE && |tokens| == 3 && tokens[0] != "" && tokens[1] != "" && tokens[2] != "" then
      Ok(JwtParts(tokens[0], tokens[1], tokens[2], tokens[0] + "." + tokens[1]))
    else Err(Malformed)
  }

  /** `parseJwt`: three searches for a dot, then the three substrings. */
  method ParseJwt(jwt: string) returns (r: Result<JwtParts>)
    ensures r == Parts(jwt)
  {
    if |jwt| > MAX_JWT_SIZE {
      return Err(Malformed);
    }
    var firstDot := Find(jwt, '.', 0);
    if firstDot == |jwt| {
      return Err(Malformed);
    }
    ghost var rest := jwt[firstDot + 1..];
    assert Split(jwt, '.') == [jwt[..firstDot]] + Split(rest, '.');
    var secondDot := Find(jwt, '.', firstDot + 1);
    FindShift(jwt, '.', firstDot + 1);
    if secondDot == |jwt| {
      return Err(Malformed);
    }
    ghost var last := jwt[secondDot + 1..];
    assert rest[secondDot - firstDot - 1 + 1..] == last;
    assert rest[..secondDot - firstDot - 1] == jwt[firstDot + 1..secondDot];
    assert Split(rest, '.') == [jwt[firstDot + 1..secondDot]] + Split(last, '.');
    var thirdDot := Find(jwt, '.', secondDot + 1);
    FindShift(jwt, '.', secondDot + 1);
    if thirdDot != |jwt| {
      return Err(Malformed);
    }
    assert Split(last, '.') == [last];
    var header := jwt[..firstDot];
    var payload := jwt[firstDot + 1..secondDot];
    var signature := jwt[secondDot + 1..];
    if header == "" || payload == "" || signature == "" {
      return Err(Malformed);
    }
    return Ok(JwtParts(header, payload, signature, header + "." + payload));
  }

  /** The parts, joined by dots, are the token; and every such join within the limit parses. */
  lemma PartsExactly(jwt: string, p: JwtParts)
    ensures Parts(jwt) == Ok(p) <==>
      && |jwt| <= 0x10_0000
      && p.header != "" && p.payload != "" && p.signature != ""
      && '.' !in p.header && '.' !in p.payload && '.' !in p.signature
      && p.signingInput == p.header + "." + p.payload
      && jwt == p.header + "." + p.payload + "." + p.signature
  {
    SplitThree(p.header, p.payload, p.signature, jwt);
  }

  /** Three tokens without a dot are the tokens of their dotted join, and of nothing else. */
  lemma SplitThree(a: string, b: string, c: string, jwt: string)
    ensures Split(jwt, '.') == [a, b, c] <==>
      '.' !in a && '.' !in b && '.' !in c && jwt == a + "." + b + "." + c
  {
    var tokens := [a, b, c];
    JoinThree(a, b, c);
    if Split(jwt, '.') == tokens {
      JoinSplit(jwt, '.');
      assert '.' !in tokens[0] && '.' !in tokens[1] && '.' !in tokens[2];
    }
    if '.' !in a && '.' !in b && '.' !in c && jwt == a + "." + b + "." + c {
      SplitJoin(tokens, '.');
    }
  }

  lemma JoinThree(a: string, b: string, c: string)
    ensures Join([a, b, c], '.') == a + "." + b + "." + c
  {
    assert [a, b, c][1..] == [b, c] && [b, c][1..] == [c];
    assert Join([b, c], '.') == b + "." + c;
    assert a + "." + (b + "." + c) == a + "." + b + "." + c;
  }

  // ---------------- signatures ----------------

  /** The bytes of a text; a C++ string has no character above 255. */
  function TextBytes(s: string): (bytes: seq<byte>)
    ensures |bytes| == |s|
    ensures forall i :: 0 <= i < |s| && s[i] as int < 256 ==> bytes[i] == s[i] as int
  {
    seq(|s|, i requires 0 <= i < |s| => s[i] as int % 256)
  }

  /** `verifySignature`: malformed input is just "no". */
  ghost predicate VerifySignature(w: World, issuer: string, signingInput: string, signature: string) {
    && Base64Url.Bytes(signature).Ok?
    && w.keyValid(issuer)
    && w.verifies(issuer, TextBytes(signingInput), Base64Url.Bytes(signature).value)
  }

  method CheckSignature(w: World, issuer: string, signingInput: string, signature: string) returns (r: bool)
    ensures r == VerifySignature(w, issuer, signingInput, signature)
  {
    var bytes := Base64Url.DecodeText(signature);
    if bytes.Err? || !w.keyValid(issuer) {
      return false;
    }
    r := w.verifies(issuer, TextBytes(signingInput), bytes.value);
  }

  // ---------------- assembling ----------------

  ghost function SigningInput(header: seq<byte>, payload: seq<byte>): string {
    Base64Url.Spelled(header) + "." + Base64Url.Spelled(payload)
  }

  /** `signAndAssemble`: never a token whose signature does not verify against its issuer. */
  method SignAndAssemble(w: World, header: seq<byte>, payload: seq<byte>, issuer: string,
                         sign: (string, seq<byte>) -> seq<byte>)
    returns (r: Result<string>)
    ensures r.Ok? ==>
      var signature := sign(issuer, TextBytes(SigningInput(header, payload)));
      && w.keyValid(issuer)
      && w.verifies(issuer, TextBytes(SigningInput(header, payload)), signature)
      && r.value == SigningInput(header, payload) + "." + Base64Url.Spelled(signature)
    ensures r.Err? <==>
      !w.keyValid(issuer)
      || !w.verifies(issuer, TextBytes(SigningInput(header, payload)),
                     sign(issuer, TextBytes(SigningInput(header, payload))))
  {
    var h := Base64Url.EncodeText(header);
    var p := Base64Url.EncodeText(payload);
    var signingInput := h + "." + p;
    var signature := sign(issuer, TextBytes(signingInput));
    if !w.keyValid(issuer) {
      return Err(BadKey);
    }
    if !w.verifies(issuer, TextBytes(signingInput), signature) {
      return Err(BadSignature);
    }
    var s := Base64Url.EncodeText(signature);
    return Ok(signingInput + "." + s);
  }

  /** A token of three encoded parts, within the size limit, parses into them. */
  lemma AssembledParts(header: seq<byte>, payload: seq<byte>, signature: seq<byte>, token: string)
    requires token == SigningInput(header, payload) + "." + Base64Url.Spelled(signature)
    requires |token| <= MAX_JWT_SIZE && header != [] && payload != [] && signature != []
    ensures Parts(token) == Ok(JwtParts(
      Base64Url.Spelled(header), Base64Url.Spelled(payload), Base64Url.Spelled(signature),
      SigningInput(header, payload)))
    ensures Base64Url.Bytes(Base64Url.Spelled(header)) == Ok(header)
    ensures Base64Url.Bytes(Base64Url.Spelled(payload)) == Ok(payload)
    ensures Base64Url.Bytes(Base64Url.Spelled(signature)) == Ok(signature)
  {
    Base64Url.SpelledShape(header);
    Base64Url.SpelledShape(payload);
    Base64Url.SpelledShape(signature);
    Base64Url.RoundTrip(header);
    Base64Url.RoundTrip(payload);
    Base64Url.RoundTrip(signature);
    PartsExactly(token, JwtParts(Base64Url.Spelled(header), Base64Url.Spelled(payload),
                                 Base64Url.Spelled(signature), SigningInput(header, payload)));
  }

  /** A token that was assembled, within the size limit, parses into the encoded parts; its parts
      decode to the bytes they were made of, and its signature verifies. */
  lemma AssembledParses(w: World, header: seq<byte>, payload: seq<byte>, signature: seq<byte>, issuer: string,
                        token: string)
    requires token == SigningInput(header, payload) + "." + Base64Url.Spelled(signature)
    requires |token| <= MAX_JWT_SIZE && header != [] && payload != [] && ChecksLength(w)
    requires w.keyValid(issuer) && w.verifies(issuer, TextBytes(SigningInput(header, payload)), signature)
    ensures Parts(token) == Ok(JwtParts(
      Base64Url.Spelled(header), Base64Url.Spelled(payload), Base64Url.Spelled(signature),
      SigningInput(header, payload)))
    ensures Base64Url.Bytes(Base64Url.Spelled(header)) == Ok(header)
    ensures Base64Url.Bytes(Base64Url.Spelled(payload)) == Ok(payload)
    ensures VerifySignature(w, issuer, SigningInput(header, payload), Base64Url.Spelled(signature))
  {
    assert signature != [];
    AssembledParts(header, payload, signature, token);
  }
}
