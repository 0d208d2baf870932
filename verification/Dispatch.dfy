/** Which decoder a token goes to (`decode` and `verify` of src/jwt.cpp, `decodeGeneric` of
src/generic_claims.cpp), and how that agrees with the envelope. */
module Dispatch {
  import opened Bits
  import opened Results
  import opened Json
  import opened Tokenization
  import opened Envelopes
  import Base64Url
  import UserWire
  import AccountWire

  /** What `decode` hands to a reader of claims: a verified envelope of a known type, or a payload of
      any other type. */
  datatype Outcome =
    | OfType(kind: string, envelope: Envelope)
    | Untyped(payload: Obj, algorithm: string)

  const TYPED := {"operator", "account", "user", "activation",
                  "authorization_request", "authorization_response"}

  const REFUSED := {"cluster", "server"}

  // ---------------- the type ----------------

  /** The non-empty top-level type, else the type of `nats`, else nothing. */
  function KindOf(payload: Json): Result<string> {
    if !payload.JObj? then Ok("")
    else
      var top :- OptionalString(payload.members, "type");
      if top != "" then Ok(top) else OptionalString(NatsOf(payload.members), "type")
  }

  method ClaimType(payload: Json) returns (r: Result<string>)
    ensures r == KindOf(payload)
  {
    var kind := "";
    if payload.JObj? {
      var o := payload.members;
      if "type" in o {
        if !o["type"].JStr? {
          return Err(Malformed);
        }
        kind := o["type"].s;
      }
      if kind == "" && "nats" in o && o["nats"].JObj? && "type" in o["nats"].members {
        if !o["nats"].members["type"].JStr? {
          return Err(Malformed);
        }
        kind := o["nats"].members["type"].s;
      }
    }
    return Ok(kind);
  }

  /** The type a token is dispatched on. */
  ghost function DispatchType(w: World, token: string): Result<string> {
    var parts :- Parts(token);
    var bytes :- Base64Url.Bytes(parts.payload);
    match w.parse(bytes)
    case None => Err(Malformed)
    case Some(payload) => KindOf(payload)
  }

  // ---------------- decoding ----------------

  /** A decoder of one type, up to the reading of its claims. */
  ghost function DecodeTyped(w: World, token: string, kind: string): Result<Outcome> {
    var env :- Decode(w, token);
    var _ :- CheckType(NatsOf(env.payload), kind);
    Ok(OfType(kind, env))
  }

  /** `decodeGeneric`: here the header decides what is signed. */
  ghost function DecodeGeneric(w: World, token: string): Result<Outcome> {
    var parts :- Parts(token);
    var headerBytes :- Base64Url.Bytes(parts.header);
    var algorithm :- ValidateHeader(w, headerBytes);
    var payloadBytes :- Base64Url.Bytes(parts.payload);
    var payload :- ParseObject(w, payloadBytes);
    var issuer :- RequiredString(payload, "iss");
    var _ :- RequiredString(payload, "sub");
    if VerifySignature(w, issuer, Signed(parts, if algorithm == "ed25519" then 1 else 2), parts.signature) then
      Ok(Untyped(payload, algorithm))
    else Err(BadSignature)
  }

  /** `decode`, up to the reading of claims. */
  ghost function DecodeToken(w: World, token: string): Result<Outcome> {
    var kind :- DispatchType(w, token);
    if kind in TYPED then DecodeTyped(w, token, kind)
    else if kind in REFUSED then Err(InvalidClaims)
    else DecodeGeneric(w, token)
  }

  /** `verify`. */
  ghost predicate Verify(w: World, token: string) {
    Decode(w, token).Ok?
  }

  method DecodeGenericToken(w: World, token: string) returns (r: Result<Outcome>)
    ensures r == DecodeGeneric(w, token)
  {
    var parts :- ParseJwt(token);
    var headerBytes :- Base64Url.DecodeText(parts.header);
    var algorithm :- ValidateHeader(w, headerBytes);
    var payloadBytes :- Base64Url.DecodeText(parts.payload);
    var payload :- ParseObject(w, payloadBytes);
    var issuer :- RequiredString(payload, "iss");
    var _ :- RequiredString(payload, "sub");
    var v1 := algorithm == "ed25519";
    var verified := CheckSignature(w, issuer, if v1 then parts.payload else parts.signingInput, parts.signature);
    return if verified then Ok(Untyped(payload, algorithm)) else Err(BadSignature);
  }

  method DecodeJwt(w: World, token: string) returns (r: Result<Outcome>)
    ensures r == DecodeToken(w, token)
  {
    var parts :- ParseJwt(token);
    var bytes :- Base64Url.DecodeText(parts.payload);
    var payload := w.parse(bytes);
    if payload.None? {
      return Err(Malformed);
    }
    var kind :- ClaimType(payload.value);
    if kind in TYPED {
      var env :- DecodeEnvelope(w, token);
      var _ :- CheckType(NatsOf(env.payload), kind);
      return Ok(OfType(kind, env));
    }
    if kind in REFUSED {
      return Err(InvalidClaims);
    }
    r := DecodeGenericToken(w, token);
  }

  method VerifyJwt(w: World, token: string) returns (r: bool)
    ensures r == Verify(w, token)
  {
    var env := DecodeEnvelope(w, token);
    r := env.Ok?;
  }

  // ---------------- the two readings of a type agree ----------------

  /** The type the envelope carries, nothing when it carries none. */
  function TypeOf(env: Envelope): Result<string> {
    OptionalString(NatsOf(env.payload), "type")
  }

  /** A version 1 outside the v1 layout whose `nats` has a type of its own, which the empty top-level
      type replaces. */
  predicate Displaced(raw: Obj) {
    && !V1Layout(raw)
    && Get(NatsOf(raw), "version") == Some(JInt(1))
    && "type" in NatsOf(raw)
    && Get(NatsOf(raw), "type") != Some(JStr(""))
  }

  lemma DispatchOfRead(w: World, token: string, raw: Obj)
    requires RawPayload(w, token) == Ok(raw)
    ensures DispatchType(w, token) == KindOf(JObj(raw))
  {
  }

  /** Outside the v1 layout a supported version is the one `nats` declares. */
  lemma SupportedByNats(raw: Obj, version: int64)
    requires SupportedVersion(raw) == Ok(version)
    ensures V1Layout(raw) ==> version == 1
    ensures !V1Layout(raw) ==> Get(raw, "nats") == Some(JObj(NatsOf(raw)))
    ensures !V1Layout(raw) ==> Get(NatsOf(raw), "version") == Some(JInt(version))
    ensures !V1Layout(raw) ==> OptionalString(raw, "type") == Ok("")
    ensures !V1Layout(raw) ==> OptionalString(NatsOf(raw), "type").Ok?
  {
  }

  lemma TypeOfMigrated(raw: Obj, claimType: string, algorithm: string)
    ensures TypeOf(Envelope(Migrated(raw, claimType), 1, algorithm)) == Ok(claimType)
  {
    MigratedTop(raw, claimType);
    NatsMigratedBy(raw, claimType);
  }

  /** `decode` dispatches on the type the envelope carries, except when that type was displaced. */
  lemma TypeAgreesExactly(w: World, token: string, env: Envelope, raw: Obj)
    requires Decode(w, token) == Ok(env) && RawPayload(w, token) == Ok(raw)
    ensures DispatchType(w, token).Ok? && TypeOf(env).Ok?
    ensures DispatchType(w, token) == TypeOf(env) <==> !Displaced(raw)
    ensures Displaced(raw) ==> TypeOf(env) == Ok("")
    ensures env.version == 2 || V1Layout(raw) ==> !Displaced(raw)
  {
    var u := Read(w, token).value;
    ReadExactly(w, token, u);
    DispatchOfRead(w, token, raw);
    SupportedByNats(raw, u.version);
    if u.version == 1 {
      TypeOfMigrated(raw, raw["type"].s, u.algorithm);
    }
  }

  lemma CheckTypeExactly(o: Obj, kind: string)
    requires kind != "" && OptionalString(o, "type").Ok?
    ensures CheckType(o, kind) == if OptionalString(o, "type").value == kind then Ok(true) else Err(InvalidClaims)
  {
  }

  /** The decoder a token is dispatched to refuses a verified envelope if and only if its type was
      displaced, for every type: outside that there is no mismatch. */
  lemma MismatchExactly(w: World, token: string, kind: string)
    requires DispatchType(w, token) == Ok(kind) && kind in TYPED
    ensures Verify(w, token) ==>
      (DecodeToken(w, token) == if Displaced(RawPayload(w, token).value) then Err(InvalidClaims)
                                else Ok(OfType(kind, Decode(w, token).value)))
    ensures !Verify(w, token) ==> DecodeToken(w, token) == Err(Decode(w, token).error)
  {
    if Verify(w, token) {
      var env := Decode(w, token).value;
      ReadExactly(w, token, Read(w, token).value);
      TypeAgreesExactly(w, token, env, RawPayload(w, token).value);
      TypedIsNamed(kind);
      CheckTypeExactly(NatsOf(env.payload), kind);
    }
  }

  lemma TypedIsNamed(kind: string)
    requires kind in TYPED
    ensures kind != ""
  {
  }

  lemma DecodedTyped(w: World, token: string, kind: string)
    requires DecodeTyped(w, token, kind).Ok?
    ensures Verify(w, token) && DecodeTyped(w, token, kind).value == OfType(kind, Decode(w, token).value)
    ensures TypeOf(Decode(w, token).value) == Ok(kind)
  {
  }

  /** Claims of a known type come out of `decode` only for tokens that `verify` accepts. */
  lemma TypedIsVerified(w: World, token: string)
    requires DecodeToken(w, token).Ok? && DecodeToken(w, token).value.OfType?
    ensures Verify(w, token)
    ensures DecodeToken(w, token).value.envelope == Decode(w, token).value
    ensures TypeOf(DecodeToken(w, token).value.envelope) == Ok(DecodeToken(w, token).value.kind)
  {
    DecodedTyped(w, token, DispatchType(w, token).value);
  }

  /** What such a payload reads as. */
  lemma DisplacedPayload(payload: Obj, nats: Obj, issuer: string)
    requires nats == map["type" := JStr("user"), "version" := JInt(1)]
    requires payload == map["iss" := JStr(issuer), "sub" := JStr(issuer), "type" := JStr(""), "nats" := JObj(nats)]
    ensures SupportedVersion(payload) == Ok(1) && Displaced(payload) && KindOf(JObj(payload)) == Ok("user")
    ensures RequiredString(payload, "iss") == Ok(issuer) && RequiredString(payload, "sub") == Ok(issuer)
    ensures Modernized(payload, 1) == Ok(Migrated(payload, ""))
  {
    assert Get(payload, "nats") == Some(JObj(nats)) && Get(payload, "type") == Some(JStr(""));
    assert Get(nats, "version") == Some(JInt(1)) && Get(nats, "type") == Some(JStr("user"));
  }

  /** A version 1 token with an empty top-level type, signed over its payload: `verify` says yes, the
      type it is dispatched on is that of `nats`, and `decode` refuses it. */
  lemma DisplacedToken(w: World, header: seq<byte>, bytes: seq<byte>, signature: seq<byte>,
                       payload: Obj, nats: Obj, issuer: string, token: string)
    requires token == SigningInput(header, bytes) + "." + Base64Url.Spelled(signature)
    requires |token| <= MAX_JWT_SIZE && header != [] && bytes != [] && signature != []
    requires w.keyValid(issuer) && w.verifies(issuer, TextBytes(Base64Url.Spelled(bytes)), signature)
    requires w.parse(header) == Some(JObj(HEADER)) && w.parse(bytes) == Some(JObj(payload))
    requires nats == map["type" := JStr("user"), "version" := JInt(1)]
    requires payload == map["iss" := JStr(issuer), "sub" := JStr(issuer), "type" := JStr(""), "nats" := JObj(nats)]
    ensures Verify(w, token) && DispatchType(w, token) == Ok("user")
    ensures DecodeToken(w, token) == Err(InvalidClaims)
  {
    DisplacedPayload(payload, nats, issuer);
    AssembledRead(w, header, bytes, signature, payload, 1, issuer, token);
    DispatchOfRead(w, token, payload);
    assert Verify(w, token);
    MismatchExactly(w, token, "user");
  }

  // ---------------- which token goes where ----------------

  /** The type of a payload: the top-level one unless it is absent or empty, else that of `nats`. */
  lemma KindExactly(payload: Obj, kind: string)
    ensures KindOf(JObj(payload)) == Ok(kind) <==>
      && !NotText(payload, "type")
      && (if "type" in payload && payload["type"] != JStr("") then payload["type"] == JStr(kind)
          else if "nats" in payload && payload["nats"].JObj? then TextMember(payload["nats"].members, "type", kind)
          else kind == "")
    ensures KindOf(JObj(payload)).Err? ==> KindOf(JObj(payload)) == Err(Malformed)
  {
  }

  lemma NoObjectNoKind(payload: Json)
    requires !payload.JObj?
    ensures KindOf(payload) == Ok("")
  {
  }

  lemma TypedExactly(kind: string)
    ensures kind in TYPED <==>
      || kind == "operator" || kind == "account" || kind == "user" || kind == "activation"
      || kind == "authorization_request" || kind == "authorization_response"
  {
  }

  lemma RefusedExactly(kind: string)
    ensures kind in REFUSED <==> kind == "cluster" || kind == "server"
    ensures kind in REFUSED ==> kind !in TYPED
  {
  }

  lemma TypedOnly(w: World, token: string, kind: string)
    requires DispatchType(w, token) == Ok(kind) && kind in TYPED
    ensures Decode(w, token).Err? ==> DecodeToken(w, token) == Err(Decode(w, token).error)
    ensures DecodeToken(w, token).Ok? ==> DecodeToken(w, token) == Ok(OfType(kind, Decode(w, token).value))
  {
  }

  /** Six types have a decoder of their own, which takes verified envelopes only. */
  lemma OwnDecoder(w: World, token: string, kind: string)
    requires DispatchType(w, token) == Ok(kind)
    requires || kind == "operator" || kind == "account" || kind == "user" || kind == "activation"
             || kind == "authorization_request" || kind == "authorization_response"
    ensures Decode(w, token).Err? ==> DecodeToken(w, token) == Err(Decode(w, token).error)
    ensures DecodeToken(w, token).Ok? ==> DecodeToken(w, token) == Ok(OfType(kind, Decode(w, token).value))
  {
    TypedExactly(kind);
    TypedOnly(w, token, kind);
  }

  lemma NotTyped(w: World, token: string, kind: string)
    requires DispatchType(w, token) == Ok(kind) && kind !in TYPED
    ensures DecodeToken(w, token) == if kind in REFUSED then Err(InvalidClaims) else DecodeGeneric(w, token)
  {
  }

  /** Two types are refused; every other type, none at all included, is read as generic claims. */
  lemma OtherTypes(w: World, token: string, kind: string)
    requires DispatchType(w, token) == Ok(kind)
    requires && kind != "operator" && kind != "account" && kind != "user" && kind != "activation"
             && kind != "authorization_request" && kind != "authorization_response"
    ensures DecodeToken(w, token)
         == if kind == "cluster" || kind == "server" then Err(InvalidClaims) else DecodeGeneric(w, token)
  {
    TypedExactly(kind);
    RefusedExactly(kind);
    NotTyped(w, token, kind);
  }

  lemma GenericPartsExactly(w: World, token: string, parts: JwtParts, algorithm: string, payload: Obj)
    requires Parts(token) == Ok(parts) && Base64Url.Bytes(parts.header).Ok?
    requires ValidateHeader(w, Base64Url.Bytes(parts.header).value) == Ok(algorithm)
    requires RawPayload(w, token) == Ok(payload)
    ensures DecodeGeneric(w, token) == Ok(Untyped(payload, algorithm)) <==>
      && "iss" in payload && payload["iss"].JStr? && "sub" in payload && payload["sub"].JStr?
      && Base64Url.Bytes(parts.signature).Ok? && w.keyValid(payload["iss"].s)
      && w.verifies(payload["iss"].s,
                    TextBytes(if algorithm == "ed25519" then parts.payload else parts.header + "." + parts.payload),
                    Base64Url.Bytes(parts.signature).value)
    ensures DecodeGeneric(w, token).Ok? ==> DecodeGeneric(w, token) == Ok(Untyped(payload, algorithm))
  {
    SigningInputOf(token);
  }

  /** A token whose parts can be read gives generic claims if and only if its header is supported,
      its issuer and subject are strings, and the issuer's key verifies the signature; the header's
      algorithm decides over what. */
  lemma GenericExactly(w: World, token: string, parts: JwtParts, headerBytes: seq<byte>, header: Obj,
                       typ: string, alg: string, payload: Obj, a: string)
    requires Parts(token) == Ok(parts) && Base64Url.Bytes(parts.header) == Ok(headerBytes)
    requires w.parse(headerBytes) == Some(JObj(header)) && RawPayload(w, token) == Ok(payload)
    requires TextMember(header, "typ", typ) && TextMember(header, "alg", alg)
    ensures DecodeGeneric(w, token) == Ok(Untyped(payload, a)) <==>
      && SameText(typ, "JWT") && SameText(alg, a) && (a == "ed25519" || a == "ed25519-nkey")
      && "iss" in payload && payload["iss"].JStr? && "sub" in payload && payload["sub"].JStr?
      && Base64Url.Bytes(parts.signature).Ok? && w.keyValid(payload["iss"].s)
      && w.verifies(payload["iss"].s,
                    TextBytes(if a == "ed25519" then parts.payload else parts.header + "." + parts.payload),
                    Base64Url.Bytes(parts.signature).value)
  {
    HeaderExactly(w, headerBytes, header, typ, alg, a);
    if ValidateHeader(w, headerBytes).Ok? {
      GenericPartsExactly(w, token, parts, ValidateHeader(w, headerBytes).value, payload);
    }
  }

  // ---------------- nothing comes out unsigned ----------------

  function PayloadOf(outcome: Outcome): Obj {
    match outcome
    case OfType(_, env) => env.payload
    case Untyped(payload, _) => payload
  }

  /** The token's signature verifies under a key, over what one of the two versions signs. */
  ghost predicate SignedBy(w: World, token: string, key: string) {
    && Parts(token).Ok? && Base64Url.Bytes(Parts(token).value.signature).Ok? && w.keyValid(key)
    && var parts, signature := Parts(token).value, Base64Url.Bytes(Parts(token).value.signature).value;
      || w.verifies(key, TextBytes(parts.payload), signature)
      || w.verifies(key, TextBytes(parts.header + "." + parts.payload), signature)
  }

  /** Whatever `decode` returns names the issuer whose key signed it. */
  lemma DecodedIsSigned(w: World, token: string)
    requires DecodeToken(w, token).Ok?
    ensures RequiredString(PayloadOf(DecodeToken(w, token).value), "iss").Ok?
    ensures SignedBy(w, token, RequiredString(PayloadOf(DecodeToken(w, token).value), "iss").value)
  {
    var outcome := DecodeToken(w, token).value;
    if outcome.OfType? {
      TypedIsVerified(w, token);
      EnvelopeIsSigned(w, token, outcome.envelope);
    }
  }

  lemma EnvelopeIsSigned(w: World, token: string, env: Envelope)
    requires Decode(w, token) == Ok(env)
    ensures RequiredString(env.payload, "iss").Ok?
    ensures SignedBy(w, token, RequiredString(env.payload, "iss").value)
  {
    EnvelopeIsAuthentic(w, token, env);
    ReadExactly(w, token, Read(w, token).value);
    SigningInputOf(token);
  }

  lemma SigningInputOf(token: string)
    requires Parts(token).Ok?
    ensures Parts(token).value.signingInput == Parts(token).value.header + "." + Parts(token).value.payload
  {
  }

  lemma EnvelopeKeepsIssuer(w: World, token: string, env: Envelope)
    requires Decode(w, token) == Ok(env)
    ensures RawPayload(w, token).Ok?
    ensures RequiredString(env.payload, "iss") == RequiredString(RawPayload(w, token).value, "iss")
  {
    var u := Read(w, token).value;
    ReadExactly(w, token, u);
    ModernizedKeeps(u.payload, u.version, "iss");
  }

  lemma UntypedIsRaw(w: World, token: string)
    requires DecodeGeneric(w, token).Ok?
    ensures RawPayload(w, token) == Ok(PayloadOf(DecodeGeneric(w, token).value))
  {
  }

  /** The envelope of a token and what `decode` returns for it name the same issuer. */
  lemma EnvelopeIssuer(w: World, token: string, env: Envelope)
    requires Decode(w, token) == Ok(env) && DecodeToken(w, token).Ok?
    ensures RequiredString(PayloadOf(DecodeToken(w, token).value), "iss") == RequiredString(env.payload, "iss")
  {
    if DecodeToken(w, token).value.OfType? {
      TypedIsVerified(w, token);
    } else {
      GenericOutcome(w, token);
      UntypedIsRaw(w, token);
      EnvelopeKeepsIssuer(w, token, env);
    }
  }

  lemma GenericOutcome(w: World, token: string)
    requires DecodeToken(w, token).Ok? && DecodeToken(w, token).value.Untyped?
    ensures DecodeToken(w, token) == DecodeGeneric(w, token)
  {
  }

  // ---------------- generic claims ----------------

  /** The header claims the algorithm of the version the payload declares. */
  predicate RulesAgree(algorithm: string, payload: Obj) {
    SupportedVersion(payload) == Ok(if algorithm == "ed25519" then 1 else 2)
  }

  /** Generic claims are claims that `verify` accepts when the header's algorithm is that of the
      payload's version, save for a version 1 without a top-level type. */
  lemma GenericIsVerified(w: World, token: string, payload: Obj, algorithm: string)
    requires DecodeGeneric(w, token) == Ok(Untyped(payload, algorithm)) && RulesAgree(algorithm, payload)
    ensures Verify(w, token) <==> algorithm != "ed25519" || "type" in payload
  {
    GenericVerifiedExactly(w, token, payload, algorithm);
  }

  /** When they differ, `verify` asks for a signature over the other text. */
  lemma GenericVerifiedExactly(w: World, token: string, payload: Obj, algorithm: string)
    requires DecodeGeneric(w, token) == Ok(Untyped(payload, algorithm))
    ensures Verify(w, token) <==>
      && SupportedVersion(payload).Ok?
      && (SupportedVersion(payload) == Ok(1) ==> "type" in payload)
      && (!RulesAgree(algorithm, payload) ==>
            VerifySignature(w, RequiredString(payload, "iss").value,
                            Signed(Parts(token).value, if algorithm == "ed25519" then 2 else 1),
                            Parts(token).value.signature))
  {
  }

  /** A signed payload with neither a type nor a `nats` object: `decode` gives generic claims,
      `verify` says no. */
  lemma GenericUnverified(w: World, header: seq<byte>, bytes: seq<byte>, signature: seq<byte>,
                          payload: Obj, issuer: string, token: string)
    requires Assembled(w, header, bytes, signature, payload, issuer, token)
    requires payload == map["iss" := JStr(issuer), "sub" := JStr(issuer)]
    ensures DecodeToken(w, token) == Ok(Untyped(payload, "ed25519-nkey"))
    ensures !Verify(w, token)
  {
    AssembledParses(w, header, bytes, signature, issuer, token);
    assert signature != [];
    Base64Url.RoundTrip(signature);
    HeaderIsValid(w, header);
    BarePayload(payload, issuer);
    var parts := Parts(token).value;
    assert RawPayload(w, token) == Ok(payload);
    DispatchOfRead(w, token, payload);
    OtherTypes(w, token, "");
    GenericPartsExactly(w, token, parts, "ed25519-nkey", payload);
    PayloadFailure(w, token, parts, header, payload);
  }

  lemma BarePayload(payload: Obj, issuer: string)
    requires payload == map["iss" := JStr(issuer), "sub" := JStr(issuer)]
    ensures RequiredString(payload, "iss") == Ok(issuer) && RequiredString(payload, "sub") == Ok(issuer)
    ensures KindOf(JObj(payload)) == Ok("") && SupportedVersion(payload) == Err(InvalidClaims)
  {
    assert Get(payload, "type") == None && Get(payload, "nats") == None;
  }

  // ---------------- from encoder to decoder ----------------

  lemma IssuedDispatch(w: World, token: string, payload: Obj, issuer: string, claimType: string)
    requires RawPayload(w, token) == Ok(payload) && Issued(payload, issuer, claimType)
    requires Decode(w, token) == Ok(Envelope(payload, 2, "ed25519-nkey")) && claimType in TYPED
    ensures DecodeToken(w, token) == Ok(OfType(claimType, Envelope(payload, 2, "ed25519-nkey")))
  {
    DispatchOfRead(w, token, payload);
    assert Get(payload, "type") == None;
    MismatchExactly(w, token, claimType);
    TypeAgreesExactly(w, token, Envelope(payload, 2, "ed25519-nkey"), payload);
  }

  predicate TypedNats(nats: Obj, claimType: string) {
    Get(nats, "type") == Some(JStr(claimType)) && Get(nats, "version") == Some(JInt(2))
  }

  lemma UserIsTyped(raw: Obj, user: UserWire.User)
    ensures TypedNats(UserWire.EncodeNats(raw, user), "user")
  {
    UserWire.NatsHoldsRest(raw, user);
  }

  lemma AccountIsTyped(raw: Obj, account: AccountWire.Account)
    ensures TypedNats(AccountWire.EncodeNats(raw, account), "account")
  {
    AccountWire.NatsHolds(raw, account, AccountWire.Write(account));
  }

  lemma IssuedTyped(w: World, header: seq<byte>, bytes: seq<byte>, signature: seq<byte>,
                    payload: Obj, issuer: string, token: string, nats: Obj, claimType: string)
    requires Assembled(w, header, bytes, signature, payload, issuer, token)
    requires Named(payload, issuer) && Get(payload, "nats") == Some(JObj(nats))
    requires TypedNats(nats, claimType) && claimType in TYPED
    ensures DecodeToken(w, token) == Ok(OfType(claimType, Envelope(payload, 2, "ed25519-nkey")))
    ensures NatsOf(payload) == nats
  {
    IssuedDecodes(w, header, bytes, signature, payload, issuer, claimType, token);
    IssuedDispatch(w, token, payload, issuer, claimType);
  }

  /** The top-level members every encoder writes. */
  predicate Named(payload: Obj, issuer: string) {
    Get(payload, "iss") == Some(JStr(issuer)) && RequiredString(payload, "sub").Ok? && "type" !in payload
  }
}
