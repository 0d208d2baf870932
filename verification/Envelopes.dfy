/** The authenticated, migrated payload of a token (`validateHeader` and `decodeEnvelope` of
src/jwt_utils.cpp). */
module Envelopes {
  import opened Bits
  import opened Results
  import opened Json
  import opened Tokens
  import opened Tokenization
  import Base64Url

  // ---------------- header ----------------

  function Lower(s: string): (r: string)
    ensures |r| == |s|
  {
    seq(|s|, i requires 0 <= i < |s| => ToLower(s[i]))
  }

  function Upper(s: string): (r: string)
    ensures |r| == |s|
  {
    seq(|s|, i requires 0 <= i < |s| => if 'a' <= s[i] <= 'z' then (s[i] as int - 32) as char else s[i])
  }

  /** A member that is absent or a string. */
  function OptionalString(o: Obj, k: string): Result<string> {
    match Get(o, k)
    case None => Ok("")
    case Some(JStr(s)) => Ok(s)
    case Some(_) => Err(Malformed)
  }

  function ParseObject(w: World, bytes: seq<byte>): Result<Obj> {
    match w.parse(bytes)
    case Some(JObj(o)) => Ok(o)
    case _ => Err(Malformed)
  }

  /** `validateHeader`: the algorithm, in lower case. */
  function ValidateHeader(w: World, bytes: seq<byte>): Result<string> {
    var header :- ParseObject(w, bytes);
    var typ :- OptionalString(header, "typ");
    var alg :- OptionalString(header, "alg");
    if Upper(typ) != "JWT" then Err(InvalidClaims)
    else if Lower(alg) != "ed25519" && Lower(alg) != "ed25519-nkey" then Err(InvalidClaims)
    else Ok(Lower(alg))
  }

  /** The same character, or the same letter in the other case. */
  predicate SameLetter(a: char, b: char) {
    || a == b
    || ('A' <= a <= 'Z' && b as int - a as int == 'a' as int - 'A' as int)
    || ('A' <= b <= 'Z' && a as int - b as int == 'a' as int - 'A' as int)
  }

  predicate SameText(s: string, t: string) {
    |s| == |t| && forall i :: 0 <= i < |s| ==> SameLetter(s[i], t[i])
  }

  /** A member that is absent, or a string. */
  predicate TextMember(o: Obj, k: string, s: string) {
    if k in o then o[k] == JStr(s) else s == ""
  }

  predicate NotText(o: Obj, k: string) {
    k in o && !o[k].JStr?
  }

  lemma LowerExactly(s: string, t: string)
    requires forall i :: 0 <= i < |t| ==> !('A' <= t[i] <= 'Z')
    ensures Lower(s) == t <==> SameText(s, t)
  {
    if SameText(s, t) {
      assert forall i :: 0 <= i < |s| ==> Lower(s)[i] == t[i];
    }
    if Lower(s) == t {
      forall i | 0 <= i < |s|
        ensures SameLetter(s[i], t[i])
      {
        assert Lower(s)[i] == t[i];
      }
    }
  }

  lemma UpperExactly(s: string, t: string)
    requires forall i :: 0 <= i < |t| ==> !('a' <= t[i] <= 'z')
    ensures Upper(s) == t <==> SameText(s, t)
  {
    if SameText(s, t) {
      assert forall i :: 0 <= i < |s| ==> Upper(s)[i] == t[i];
    }
    if Upper(s) == t {
      forall i | 0 <= i < |s|
        ensures SameLetter(s[i], t[i])
      {
        assert Upper(s)[i] == t[i];
      }
    }
  }

  /** A header is supported if and only if its type is JWT and its algorithm one of two, letters
      compared without regard to case; the algorithm that comes out is that one of the two. */
  lemma HeaderExactly(w: World, bytes: seq<byte>, header: Obj, typ: string, alg: string, a: string)
    requires w.parse(bytes) == Some(JObj(header))
    requires TextMember(header, "typ", typ) && TextMember(header, "alg", alg)
    ensures ValidateHeader(w, bytes) == Ok(a) <==>
      SameText(typ, "JWT") && SameText(alg, a) && (a == "ed25519" || a == "ed25519-nkey")
    ensures ValidateHeader(w, bytes).Err? ==> ValidateHeader(w, bytes) == Err(InvalidClaims)
  {
    UpperExactly(typ, "JWT");
    LowerExactly(alg, "ed25519");
    LowerExactly(alg, "ed25519-nkey");
  }

  lemma HeaderSupported(w: World, bytes: seq<byte>, header: Obj, typ: string, alg: string)
    requires w.parse(bytes) == Some(JObj(header))
    requires TextMember(header, "typ", typ) && TextMember(header, "alg", alg)
    ensures ValidateHeader(w, bytes).Ok? <==>
      SameText(typ, "JWT") && (SameText(alg, "ed25519") || SameText(alg, "ed25519-nkey"))
  {
    HeaderExactly(w, bytes, header, typ, alg, "ed25519");
    HeaderExactly(w, bytes, header, typ, alg, "ed25519-nkey");
    if ValidateHeader(w, bytes).Ok? {
      HeaderExactly(w, bytes, header, typ, alg, ValidateHeader(w, bytes).value);
    }
  }

  /** It is malformed if and only if it is not an object, or its type or algorithm is no string. */
  lemma HeaderMalformed(w: World, bytes: seq<byte>)
    ensures ValidateHeader(w, bytes) == Err(Malformed) <==>
      || w.parse(bytes).None?
      || !w.parse(bytes).value.JObj?
      || NotText(w.parse(bytes).value.members, "typ")
      || NotText(w.parse(bytes).value.members, "alg")
  {
  }

  // ---------------- version ----------------

  /** A non-empty top-level type marks the v1 layout. */
  predicate V1Layout(payload: Obj) {
    Get(payload, "type").Some? && Get(payload, "type").value.JStr? && Get(payload, "type").value.s != ""
  }

  /** The version the payload declares, 1 for the v1 layout. */
  function DeclaredVersion(payload: Obj): Result<int64> {
    var _ :- OptionalString(payload, "type");
    if V1Layout(payload) then Ok(1)
    else
      var nats :- ObjectField(payload, "nats");
      match nats
      case None => Ok(0)
      case Some(n) =>
        var _ :- OptionalString(n, "type");
        IntField(n, "version", 0)
  }

  function SupportedVersion(payload: Obj): Result<int64> {
    var version :- DeclaredVersion(payload);
    if version == 1 || version == 2 then Ok(version) else Err(InvalidClaims)
  }

  /** `nats` is an object that declares version `v`. */
  predicate NatsDeclares(payload: Obj, v: int64) {
    && "nats" in payload && payload["nats"].JObj?
    && !NotText(payload["nats"].members, "type")
    && "version" in payload["nats"].members
    && payload["nats"].members["version"] == JInt(v)
  }

  /** Version 1 is declared by a non-empty top-level type, or by `nats` without one; version 2 by
      `nats` alone; no other version is supported. */
  lemma VersionExactly(payload: Obj, v: int64)
    ensures SupportedVersion(payload) == Ok(v) <==>
      && (v == 1 || v == 2)
      && !NotText(payload, "type")
      && (if "type" in payload && payload["type"] != JStr("") then v == 1 else NatsDeclares(payload, v))
  {
  }

  /** A version that cannot be read is malformed; any other failure is an unsupported version. */
  lemma VersionMalformed(payload: Obj)
    ensures SupportedVersion(payload) == Err(Malformed) <==>
      || NotText(payload, "type")
      || (("type" in payload ==> payload["type"] == JStr("")) && !Missing(payload, "nats") &&
            (|| !payload["nats"].JObj?
             || NotText(payload["nats"].members, "type")
             || (!Missing(payload["nats"].members, "version")
                 && IntValue(payload["nats"].members["version"]).Err?)))
    ensures SupportedVersion(payload).Err? ==>
      SupportedVersion(payload) == Err(Malformed) || SupportedVersion(payload) == Err(InvalidClaims)
  {
  }

  function RequiredString(o: Obj, k: string): Result<string> {
    match Get(o, k)
    case Some(JStr(s)) => Ok(s)
    case _ => Err(Malformed)
  }

  // ---------------- migration ----------------

  /** A member that is an object, or an empty object. */
  function NatsOf(payload: Obj): Obj {
    match Get(payload, "nats")
    case Some(JObj(n)) => n
    case _ => map[]
  }

  /** Every `nats` member the migration may drop, rename or preset. */
  const LISTED := {"type", "version", "tags", "issuer_account", "identity",
                   "kind", "max", "payload", "src", "times", "subs", "data"}

  /** Listed member `k` of the migrated `nats` object. */
  function MigratedMember(payload: Obj, claimType: string, k: string): Option<Json> {
    if k == "type" then Some(JStr(claimType))
    else if k == "version" then Some(JInt(1))
    else if (k == "tags" || k == "issuer_account") && k in payload then Get(payload, k)
    else if k == "identity" then None
    else AdaptedMember(NatsOf(payload), claimType, k)
  }

  function MigratedNats(payload: Obj, claimType: string): Obj {
    Overwrite(NatsOf(payload), LISTED, k => MigratedMember(payload, claimType, k))
  }

  lemma UnlistedMember(payload: Obj, claimType: string, k: string)
    requires k !in LISTED
    ensures MigratedMember(payload, claimType, k) == Get(NatsOf(payload), k)
  {
  }

  lemma MigratedNatsMember(payload: Obj, claimType: string, k: string)
    ensures Get(MigratedNats(payload, claimType), k) == MigratedMember(payload, claimType, k)
  {
    if k !in LISTED {
      UnlistedMember(payload, claimType, k);
    }
  }

  /** The top-level members the migration leaves alone. */
  predicate Untouched(k: string) {
    k != "nats" && k != "type" && k != "tags" && k != "issuer_account"
  }

  function TopMember(nats: Obj, k: string): Option<Json> {
    if k == "nats" then Some(JObj(nats)) else None
  }

  /** The payload with `nats` in its new form and what moved there gone. */
  function Migrated(payload: Obj, claimType: string): Obj {
    Overwrite(payload, {"nats", "type", "tags", "issuer_account"}, k => TopMember(MigratedNats(payload, claimType), k))
  }

  /** What the claim type drops, renames and presets. */
  function AdaptedMember(nats: Obj, claimType: string, k: string): Option<Json> {
    if claimType == "activation" && (k == "max" || k == "payload" || k == "src" || k == "times") then None
    else if claimType == "activation" && k == "kind" && "type" in nats then Get(nats, "type")
    else if claimType == "user" && k == "max" then None
    else if claimType == "user" && (k == "subs" || k == "data" || k == "payload") && k !in nats then Some(JInt(-1))
    else Get(nats, k)
  }

  method AdaptNats(nats: Obj, claimType: string) returns (r: Obj)
    ensures forall k :: Get(r, k) == AdaptedMember(nats, claimType, k)
  {
    r := nats;
    if claimType == "activation" {
      if "type" in r {
        r := r["kind" := r["type"]];
      }
      r := EraseAll(r, ["max", "payload", "src", "times"]);
    } else if claimType == "user" {
      r := r - {"max"};
      r := PresetAll(r, ["subs", "data", "payload"]);
    }
  }

  /** What moves down from the top level. */
  method TakeFromTop(nats: Obj, payload: Obj) returns (r: Obj)
    ensures forall k ::
      Get(r, k) == (if (k == "tags" || k == "issuer_account") && k in payload then Get(payload, k) else Get(nats, k))
  {
    r := nats;
    if "tags" in payload {
      r := r["tags" := payload["tags"]];
    }
    if "issuer_account" in payload {
      r := r["issuer_account" := payload["issuer_account"]];
    }
  }

  /** The steps of the migration, seen at one key. */
  lemma MigratedInSteps(payload: Obj, claimType: string, adapted: Obj, taken: Obj, nats: Obj, k: string)
    requires Get(adapted, k) == AdaptedMember(NatsOf(payload), claimType, k)
    requires Get(taken, k) ==
      (if (k == "tags" || k == "issuer_account") && k in payload then Get(payload, k)
       else Get((adapted - {"identity"})["type" := JStr(claimType)], k))
    requires nats == taken["version" := JInt(1)]
    ensures Get(nats, k) == MigratedMember(payload, claimType, k)
  {
  }

  /** `nats` with one key after the other assigned or erased. */
  method MigrateNats(payload: Obj, claimType: string) returns (nats: Obj)
    ensures nats == MigratedNats(payload, claimType)
  {
    nats := AdaptNats(NatsOf(payload), claimType);
    ghost var adapted := nats;
    nats := nats - {"identity"};
    nats := nats["type" := JStr(claimType)];
    nats := TakeFromTop(nats, payload);
    ghost var taken := nats;
    nats := nats["version" := JInt(1)];
    forall k
      ensures Get(nats, k) == Get(MigratedNats(payload, claimType), k)
    {
      MigratedInSteps(payload, claimType, adapted, taken, nats, k);
      MigratedNatsMember(payload, claimType, k);
    }
    SameMembers(nats, MigratedNats(payload, claimType));
  }

  /** The payload, rewritten step by step. */
  method Migrate(payload: Obj, claimType: string) returns (r: Obj)
    ensures r == Migrated(payload, claimType)
  {
    var nats := MigrateNats(payload, claimType);
    r := payload["nats" := JObj(nats)];
    r := EraseAll(r, ["type", "tags", "issuer_account"]);
    SameMembers(r, Migrated(payload, claimType));
  }

  /** `for (k : keys) o.erase(k);` */
  method EraseAll(o: Obj, keys: seq<string>) returns (r: Obj)
    ensures forall k :: Get(r, k) == if k in keys then None else Get(o, k)
  {
    r := o;
    for i := 0 to |keys|
      invariant forall k :: Get(r, k) == if k in keys[..i] then None else Get(o, k)
    {
      r := r - {keys[i]};
      assert keys[..i + 1] == keys[..i] + [keys[i]];
    }
  }

  /** `for (k : keys) if (!o.contains(k)) o[k] = -1;` */
  method PresetAll(o: Obj, keys: seq<string>) returns (r: Obj)
    ensures forall k :: Get(r, k) == if k in keys && k !in o then Some(JInt(-1)) else Get(o, k)
  {
    r := o;
    for i := 0 to |keys|
      invariant forall k :: Get(r, k) == if k in keys[..i] && k !in o then Some(JInt(-1)) else Get(o, k)
    {
      assert keys[..i + 1] == keys[..i] + [keys[i]];
      if keys[i] !in r {
        r := r[keys[i] := JInt(-1)];
      }
    }
  }

  // ---------------- the envelope ----------------

  datatype Envelope = Envelope(payload: Obj, version: int64, algorithm: string)

  /** What is signed: the payload part alone in version 1, header and payload in version 2. */
  function Signed(parts: JwtParts, version: int64): string {
    if version <= 1 then parts.payload else parts.signingInput
  }

  /** What the envelope says of itself, before anything of it is trusted. */
  datatype Unverified = Unverified(
    parts: JwtParts, algorithm: string, payload: Obj, version: int64, issuer: string)

  ghost function Read(w: World, token: string): Result<Unverified> {
    var parts :- Parts(token);
    var headerBytes :- Base64Url.Bytes(parts.header);
    var algorithm :- ValidateHeader(w, headerBytes);
    var payloadBytes :- Base64Url.Bytes(parts.payload);
    var payload :- ParseObject(w, payloadBytes);
    var version :- SupportedVersion(payload);
    var issuer :- RequiredString(payload, "iss");
    var _ :- RequiredString(payload, "sub");
    Ok(Unverified(parts, algorithm, payload, version, issuer))
  }

  /** The payload as version 2 has it; a version 1 without a top-level type reads an absent string. */
  function Modernized(payload: Obj, version: int64): Result<Obj> {
    if version != 1 then Ok(payload)
    else match Get(payload, "type")
      case Some(JStr(claimType)) => Ok(Migrated(payload, claimType))
      case _ => Err(JsonLibrary)
  }

  /** `decodeEnvelope`, with its failures in the source's order. */
  ghost function Decode(w: World, token: string): Result<Envelope> {
    var u :- Read(w, token);
    if !VerifySignature(w, u.issuer, Signed(u.parts, u.version), u.parts.signature) then Err(BadSignature)
    else
      var payload :- Modernized(u.payload, u.version);
      Ok(Envelope(payload, u.version, u.algorithm))
  }

  method DecodeEnvelope(w: World, token: string) returns (r: Result<Envelope>)
    ensures r == Decode(w, token)
  {
    var parts :- ParseJwt(token);
    var headerBytes :- Base64Url.DecodeText(parts.header);
    var algorithm :- ValidateHeader(w, headerBytes);
    var payloadBytes :- Base64Url.DecodeText(parts.payload);
    var payload :- ParseObject(w, payloadBytes);
    var version :- SupportedVersion(payload);
    var issuer :- RequiredString(payload, "iss");
    var _ :- RequiredString(payload, "sub");
    var verified := CheckSignature(w, issuer, Signed(parts, version), parts.signature);
    if !verified {
      return Err(BadSignature);
    }
    if version == 1 {
      match Get(payload, "type") {
        case Some(JStr(claimType)) => payload := Migrate(payload, claimType);
        case _ => return Err(JsonLibrary);
      }
    }
    return Ok(Envelope(payload, version, algorithm));
  }

  /** The bytes of the payload part of a token, read as an object. */
  ghost function RawPayload(w: World, token: string): Result<Obj> {
    var parts :- Parts(token);
    var payloadBytes :- Base64Url.Bytes(parts.payload);
    ParseObject(w, payloadBytes)
  }

  /** The issuer an envelope names is the one whose key verified it, over the payload part alone if
      and only if the version is 1; there is no other version than 1 and 2. */
  lemma EnvelopeIsAuthentic(w: World, token: string, env: Envelope)
    requires Decode(w, token) == Ok(env)
    ensures env.version == 1 || env.version == 2
    ensures RequiredString(env.payload, "iss").Ok? && RequiredString(env.payload, "sub").Ok?
    ensures Parts(token).Ok? && Base64Url.Bytes(Parts(token).value.signature).Ok?
    ensures w.keyValid(RequiredString(env.payload, "iss").value)
    ensures var parts := Parts(token).value;
      w.verifies(RequiredString(env.payload, "iss").value,
                 TextBytes(if env.version == 1 then parts.payload else parts.header + "." + parts.payload),
                 Base64Url.Bytes(parts.signature).value)
  {
    var u := Read(w, token).value;
    ReadExactly(w, token, u);
    ModernizedKeeps(u.payload, u.version, "iss");
    ModernizedKeeps(u.payload, u.version, "sub");
  }

  /** What was read, and what it takes to read it. */
  lemma ReadExactly(w: World, token: string, u: Unverified)
    requires Read(w, token) == Ok(u)
    ensures Parts(token) == Ok(u.parts) && RawPayload(w, token) == Ok(u.payload)
    ensures SupportedVersion(u.payload) == Ok(u.version)
    ensures u.version == 1 || u.version == 2
    ensures RequiredString(u.payload, "iss") == Ok(u.issuer) && RequiredString(u.payload, "sub").Ok?
  {
    SupportedOnly(u.payload);
  }

  lemma ModernizedKeeps(payload: Obj, version: int64, k: string)
    requires Modernized(payload, version).Ok?
    requires Untouched(k)
    ensures Get(Modernized(payload, version).value, k) == Get(payload, k)
  {
    if version == 1 {
      MigratedKeeps(payload, payload["type"].s, k);
    }
  }

  lemma SupportedOnly(payload: Obj)
    ensures SupportedVersion(payload).Ok? ==> SupportedVersion(payload).value == 1 || SupportedVersion(payload).value == 2
  {
  }

  lemma MigratedKeeps(payload: Obj, claimType: string, k: string)
    requires Untouched(k)
    ensures Get(Migrated(payload, claimType), k) == Get(payload, k)
  {
  }

  /** A token whose three parts can be read decodes if and only if its header is supported, its
      version is, its issuer and subject are strings, and the issuer's key verifies the signature,
      over the payload part in version 1 and over both in version 2; a version 1 also needs a
      top-level type. */
  lemma DecodesExactly(w: World, token: string, parts: JwtParts, headerBytes: seq<byte>, header: Obj,
                       typ: string, alg: string, payloadBytes: seq<byte>, payload: Obj, signature: seq<byte>)
    requires Parts(token) == Ok(parts) && Base64Url.Bytes(parts.header) == Ok(headerBytes)
    requires Base64Url.Bytes(parts.payload) == Ok(payloadBytes) && Base64Url.Bytes(parts.signature) == Ok(signature)
    requires w.parse(headerBytes) == Some(JObj(header)) && w.parse(payloadBytes) == Some(JObj(payload))
    requires TextMember(header, "typ", typ) && TextMember(header, "alg", alg)
    ensures Decode(w, token).Ok? <==>
      && SameText(typ, "JWT") && (SameText(alg, "ed25519") || SameText(alg, "ed25519-nkey"))
      && SupportedVersion(payload).Ok?
      && "iss" in payload && payload["iss"].JStr? && "sub" in payload && payload["sub"].JStr?
      && w.keyValid(payload["iss"].s)
      && w.verifies(payload["iss"].s,
                    TextBytes(if SupportedVersion(payload) == Ok(1) then parts.payload
                              else parts.header + "." + parts.payload), signature)
      && (SupportedVersion(payload) == Ok(1) ==> "type" in payload)
  {
    HeaderSupported(w, headerBytes, header, typ, alg);
    PartsExactly(token, parts);
    ReadDecodes(w, token, parts, headerBytes, payloadBytes, payload, signature);
  }

  lemma ReadDecodes(w: World, token: string, parts: JwtParts, headerBytes: seq<byte>,
                    payloadBytes: seq<byte>, payload: Obj, signature: seq<byte>)
    requires Parts(token) == Ok(parts) && Base64Url.Bytes(parts.header) == Ok(headerBytes)
    requires Base64Url.Bytes(parts.payload) == Ok(payloadBytes) && Base64Url.Bytes(parts.signature) == Ok(signature)
    requires w.parse(payloadBytes) == Some(JObj(payload))
    ensures Decode(w, token).Ok? <==>
      && ValidateHeader(w, headerBytes).Ok? && SupportedVersion(payload).Ok?
      && RequiredString(payload, "iss").Ok? && RequiredString(payload, "sub").Ok?
      && w.keyValid(RequiredString(payload, "iss").value)
      && w.verifies(RequiredString(payload, "iss").value,
                    TextBytes(Signed(parts, SupportedVersion(payload).value)), signature)
      && Modernized(payload, SupportedVersion(payload).value).Ok?
    ensures SupportedVersion(payload).Ok? ==> SupportedVersion(payload) == Ok(1) || SupportedVersion(payload) == Ok(2)
    ensures SupportedVersion(payload).Ok? ==>
      (SupportedVersion(payload) == Ok(1) && "type" !in payload <==>
         Modernized(payload, SupportedVersion(payload).value).Err?)
  {
    SupportedOnly(payload);
    if SupportedVersion(payload).Ok? && "type" in payload {
      TypeIsString(payload);
    }
  }

  /** Which failure comes first: the parts, the header, the payload, its version, its issuer and
      subject, the signature. */
  lemma DecodeFailures(w: World, token: string)
    ensures Parts(token).Err? ==> Decode(w, token) == Err(Malformed)
    ensures Parts(token).Ok? && Base64Url.Bytes(Parts(token).value.header).Err? ==>
      Decode(w, token) == Err(Malformed)
  {
    PartsFail(token);
  }

  lemma HeaderFailure(w: World, token: string, parts: JwtParts, bytes: seq<byte>)
    requires Parts(token) == Ok(parts) && Base64Url.Bytes(parts.header) == Ok(bytes)
    ensures ValidateHeader(w, bytes).Err? ==> Decode(w, token) == Err(ValidateHeader(w, bytes).error)
    ensures ValidateHeader(w, bytes).Ok? && RawPayload(w, token).Err? ==> Decode(w, token) == Err(Malformed)
  {
  }

  lemma PayloadFailure(w: World, token: string, parts: JwtParts, bytes: seq<byte>, payload: Obj)
    requires Parts(token) == Ok(parts) && Base64Url.Bytes(parts.header) == Ok(bytes)
    requires ValidateHeader(w, bytes).Ok? && RawPayload(w, token) == Ok(payload)
    ensures SupportedVersion(payload).Err? ==> Decode(w, token) == Err(SupportedVersion(payload).error)
    ensures SupportedVersion(payload).Ok? && (RequiredString(payload, "iss").Err? || RequiredString(payload, "sub").Err?) ==>
      Decode(w, token) == Err(Malformed)
    ensures SupportedVersion(payload).Ok? && RequiredString(payload, "iss").Ok? && RequiredString(payload, "sub").Ok? ==>
      Read(w, token).Ok? && (Decode(w, token).Err? ==>
        Decode(w, token) == Err(BadSignature) || Decode(w, token) == Err(JsonLibrary))
  {
  }

  lemma PartsFail(token: string)
    ensures Parts(token).Err? ==> Parts(token) == Err(Malformed)
  {
  }

  // ---------------- the payload that comes out ----------------

  /** A version 2 payload is returned as it was signed. */
  lemma Version2Unchanged(w: World, token: string, env: Envelope)
    requires Decode(w, token) == Ok(env)
    ensures env.version == 2 <==> SupportedVersion(RawPayload(w, token).value) == Ok(2)
    ensures env.version == 2 ==> Ok(env.payload) == RawPayload(w, token)
  {
    ReadExactly(w, token, Read(w, token).value);
  }

  /** What the old and the new `nats` of a v1 payload have to do with each other. */
  ghost predicate NatsMigrated(raw: Obj, before: Obj, after: Obj, claimType: string) {
    && Get(after, "type") == Some(JStr(claimType))
    && Get(after, "version") == Some(JInt(1))
    && Get(after, "tags") == (if "tags" in raw then Get(raw, "tags") else Get(before, "tags"))
    && Get(after, "issuer_account")
       == (if "issuer_account" in raw then Get(raw, "issuer_account") else Get(before, "issuer_account"))
    && Get(after, "identity") == None
    && (forall k :: k !in LISTED ==> Get(after, k) == Get(before, k))
  }

  /** Of an activation: the old type becomes the kind, the limits go. */
  predicate ActivationMigrated(before: Obj, after: Obj) {
    && Get(after, "kind") == (if "type" in before then Get(before, "type") else Get(before, "kind"))
    && Get(after, "max") == None && Get(after, "payload") == None
    && Get(after, "src") == None && Get(after, "times") == None
    && Get(after, "subs") == Get(before, "subs") && Get(after, "data") == Get(before, "data")
  }

  /** Of a user: an absent limit becomes -1, no limit. */
  predicate UserMigrated(before: Obj, after: Obj) {
    && Get(after, "max") == None
    && Get(after, "subs") == (if "subs" in before then Get(before, "subs") else Some(JInt(-1)))
    && Get(after, "data") == (if "data" in before then Get(before, "data") else Some(JInt(-1)))
    && Get(after, "payload") == (if "payload" in before then Get(before, "payload") else Some(JInt(-1)))
    && Get(after, "kind") == Get(before, "kind")
    && Get(after, "src") == Get(before, "src") && Get(after, "times") == Get(before, "times")
  }

  /** Of every other claim type nothing more changes. */
  predicate OtherMigrated(before: Obj, after: Obj) {
    && Get(after, "kind") == Get(before, "kind") && Get(after, "max") == Get(before, "max")
    && Get(after, "payload") == Get(before, "payload") && Get(after, "src") == Get(before, "src")
    && Get(after, "times") == Get(before, "times") && Get(after, "subs") == Get(before, "subs")
    && Get(after, "data") == Get(before, "data")
  }

  lemma NatsMigratedBy(raw: Obj, claimType: string)
    ensures NatsMigrated(raw, NatsOf(raw), MigratedNats(raw, claimType), claimType)
  {
  }

  lemma ActivationMigratedBy(raw: Obj)
    ensures ActivationMigrated(NatsOf(raw), MigratedNats(raw, "activation"))
  {
  }

  lemma UserMigratedBy(raw: Obj)
    ensures UserMigrated(NatsOf(raw), MigratedNats(raw, "user"))
  {
  }

  lemma OtherMigratedBy(raw: Obj, claimType: string)
    requires claimType != "activation" && claimType != "user"
    ensures OtherMigrated(NatsOf(raw), MigratedNats(raw, claimType))
  {
  }

  lemma V1Modernized(raw: Obj)
    requires V1Layout(raw)
    ensures SupportedVersion(raw) == Ok(1)
    ensures Modernized(raw, 1) == Ok(Migrated(raw, raw["type"].s))
  {
  }

  lemma NatsOfMigrated(raw: Obj, claimType: string)
    ensures NatsOf(Migrated(raw, claimType)) == MigratedNats(raw, claimType)
  {
    MigratedTop(raw, claimType);
  }

  lemma DecodedIsModernized(w: World, token: string, env: Envelope, raw: Obj)
    requires Decode(w, token) == Ok(env) && RawPayload(w, token) == Ok(raw)
    ensures SupportedVersion(raw) == Ok(env.version) && Modernized(raw, env.version) == Ok(env.payload)
  {
    ReadExactly(w, token, Read(w, token).value);
  }

  lemma V1Decoded(w: World, token: string, env: Envelope, raw: Obj)
    requires Decode(w, token) == Ok(env) && RawPayload(w, token) == Ok(raw) && V1Layout(raw)
    ensures env.version == 1 && env.payload == Migrated(raw, raw["type"].s)
    ensures NatsOf(env.payload) == MigratedNats(raw, raw["type"].s)
  {
    DecodedIsModernized(w, token, env, raw);
    V1Modernized(raw);
    NatsOfMigrated(raw, raw["type"].s);
  }

  /** A payload in the v1 layout keeps its other top-level members, loses `type`, `tags` and
      `issuer_account` there and carries them in `nats`. */
  lemma V1Migration(w: World, token: string, env: Envelope, raw: Obj)
    requires Decode(w, token) == Ok(env) && RawPayload(w, token) == Ok(raw) && V1Layout(raw)
    ensures env.version == 1
    ensures forall k :: Untouched(k) ==> Get(env.payload, k) == Get(raw, k)
    ensures Get(env.payload, "type") == None && Get(env.payload, "tags") == None
    ensures Get(env.payload, "issuer_account") == None
    ensures Get(env.payload, "nats") == Some(JObj(NatsOf(env.payload)))
    ensures NatsMigrated(raw, NatsOf(raw), NatsOf(env.payload), raw["type"].s)
    ensures raw["type"].s == "activation" ==> ActivationMigrated(NatsOf(raw), NatsOf(env.payload))
    ensures raw["type"].s == "user" ==> UserMigrated(NatsOf(raw), NatsOf(env.payload))
    ensures raw["type"].s != "activation" && raw["type"].s != "user" ==>
      OtherMigrated(NatsOf(raw), NatsOf(env.payload))
  {
    V1Decoded(w, token, env, raw);
    if raw["type"].s != "activation" && raw["type"].s != "user" {
      OtherMigratedBy(raw, raw["type"].s);
    }
    NatsMigratedBy(raw, raw["type"].s);
    ActivationMigratedBy(raw);
    UserMigratedBy(raw);
    MigratedTop(raw, raw["type"].s);
    forall k | Untouched(k)
      ensures Get(env.payload, k) == Get(raw, k)
    {
      MigratedKeeps(raw, raw["type"].s, k);
    }
  }

  lemma MigratedTop(raw: Obj, claimType: string)
    ensures Get(Migrated(raw, claimType), "type") == None
    ensures Get(Migrated(raw, claimType), "tags") == None
    ensures Get(Migrated(raw, claimType), "issuer_account") == None
    ensures Get(Migrated(raw, claimType), "nats") == Some(JObj(MigratedNats(raw, claimType)))
  {
  }

  /** A payload that was read and verified is refused if and only if it is a version 1 outside the
      v1 layout that has no top-level type at all. */
  lemma AbsentTypeExactly(w: World, token: string, u: Unverified)
    requires Read(w, token) == Ok(u)
    requires VerifySignature(w, u.issuer, Signed(u.parts, u.version), u.parts.signature)
    ensures Decode(w, token).Err? <==> u.version == 1 && "type" !in u.payload
    ensures Decode(w, token).Err? ==> Decode(w, token) == Err(JsonLibrary)
  {
    ReadExactly(w, token, u);
    if "type" in u.payload {
      TypeIsString(u.payload);
    }
  }

  lemma TypeIsString(payload: Obj)
    requires SupportedVersion(payload).Ok? && "type" in payload
    ensures payload["type"].JStr?
  {
  }

  /** Without a top-level type, the version is what `nats` says. */
  lemma DeclaredByNats(payload: Obj, nats: Obj, claimType: string, version: int64)
    requires Get(payload, "type") == None && Get(payload, "nats") == Some(JObj(nats))
    requires Get(nats, "type") == Some(JStr(claimType)) && Get(nats, "version") == Some(JInt(version))
    requires version == 1 || version == 2
    ensures SupportedVersion(payload) == Ok(version)
  {
  }

  /** A migrated payload is not a payload to decode: it declares version 1 and has no top-level type. */
  lemma MigratedNotAgain(raw: Obj, claimType: string)
    ensures SupportedVersion(Migrated(raw, claimType)) == Ok(1)
    ensures Modernized(Migrated(raw, claimType), 1) == Err(JsonLibrary)
  {
    MigratedTop(raw, claimType);
    NatsMigratedBy(raw, claimType);
    DeclaredByNats(Migrated(raw, claimType), MigratedNats(raw, claimType), claimType, 1);
  }

  // ---------------- tokens the library issues ----------------

  const HEADER: Obj := map["typ" := JStr("JWT"), "alg" := JStr("ed25519-nkey")]

  /** The members the encoders write that a decoder looks at. */
  predicate Issued(payload: Obj, issuer: string, claimType: string) {
    && Get(payload, "iss") == Some(JStr(issuer))
    && RequiredString(payload, "sub").Ok?
    && "type" !in payload
    && Get(payload, "nats") == Some(JObj(NatsOf(payload)))
    && Get(NatsOf(payload), "type") == Some(JStr(claimType))
    && Get(NatsOf(payload), "version") == Some(JInt(2))
  }

  lemma LowerUnchanged(s: string)
    requires forall i :: 0 <= i < |s| ==> !('A' <= s[i] <= 'Z')
    ensures Lower(s) == s
  {
  }

  lemma UpperUnchanged(s: string)
    requires forall i :: 0 <= i < |s| ==> !('a' <= s[i] <= 'z')
    ensures Upper(s) == s
  {
  }

  lemma HeaderIsValid(w: World, bytes: seq<byte>)
    requires w.parse(bytes) == Some(JObj(HEADER))
    ensures ValidateHeader(w, bytes) == Ok("ed25519-nkey")
  {
    LowerUnchanged("ed25519-nkey");
    UpperUnchanged("JWT");
  }

  /** What is read of a token of three encoded parts. */
  lemma ReadAssembled(w: World, header: seq<byte>, bytes: seq<byte>, signature: seq<byte>, algorithm: string,
                      payload: Obj, version: int64, issuer: string, token: string)
    requires token == SigningInput(header, bytes) + "." + Base64Url.Spelled(signature)
    requires |token| <= MAX_JWT_SIZE && header != [] && bytes != [] && signature != []
    requires ValidateHeader(w, header) == Ok(algorithm) && w.parse(bytes) == Some(JObj(payload))
    requires SupportedVersion(payload) == Ok(version)
    requires RequiredString(payload, "iss") == Ok(issuer) && RequiredString(payload, "sub").Ok?
    ensures Read(w, token) == Ok(Unverified(
      JwtParts(Base64Url.Spelled(header), Base64Url.Spelled(bytes), Base64Url.Spelled(signature),
               SigningInput(header, bytes)),
      algorithm, payload, version, issuer))
    ensures RawPayload(w, token) == Ok(payload)
    ensures Base64Url.Bytes(Base64Url.Spelled(signature)) == Ok(signature)
  {
    AssembledParts(header, bytes, signature, token);
  }

  /** The same with the header the library writes. */
  lemma AssembledRead(w: World, header: seq<byte>, bytes: seq<byte>, signature: seq<byte>,
                      payload: Obj, version: int64, issuer: string, token: string)
    requires token == SigningInput(header, bytes) + "." + Base64Url.Spelled(signature)
    requires |token| <= MAX_JWT_SIZE && header != [] && bytes != [] && signature != []
    requires w.parse(header) == Some(JObj(HEADER)) && w.parse(bytes) == Some(JObj(payload))
    requires SupportedVersion(payload) == Ok(version)
    requires RequiredString(payload, "iss") == Ok(issuer) && RequiredString(payload, "sub").Ok?
    ensures Read(w, token) == Ok(Unverified(
      JwtParts(Base64Url.Spelled(header), Base64Url.Spelled(bytes), Base64Url.Spelled(signature),
               SigningInput(header, bytes)),
      "ed25519-nkey", payload, version, issuer))
    ensures RawPayload(w, token) == Ok(payload)
    ensures Base64Url.Bytes(Base64Url.Spelled(signature)) == Ok(signature)
  {
    HeaderIsValid(w, header);
    ReadAssembled(w, header, bytes, signature, "ed25519-nkey", payload, version, issuer, token);
  }

  /** A token in the v1 layout with either algorithm, in letters of any case, signed over its payload
      part, decodes to the migrated payload (V1Migration says what that is). */
  lemma V1Decodes(w: World, header: seq<byte>, bytes: seq<byte>, signature: seq<byte>, headerObj: Obj,
                  typ: string, alg: string, a: string, payload: Obj, issuer: string, subject: string,
                  claimType: string, token: string)
    requires token == Base64Url.Spelled(header) + "." + Base64Url.Spelled(bytes) + "." + Base64Url.Spelled(signature)
    requires |token| <= 0x10_0000 && header != [] && bytes != [] && signature != []
    requires w.parse(header) == Some(JObj(headerObj)) && w.parse(bytes) == Some(JObj(payload))
    requires Get(headerObj, "typ") == Some(JStr(typ)) && SameText(typ, "JWT")
    requires Get(headerObj, "alg") == Some(JStr(alg)) && SameText(alg, a) && (a == "ed25519" || a == "ed25519-nkey")
    requires Get(payload, "type") == Some(JStr(claimType)) && claimType != ""
    requires Get(payload, "iss") == Some(JStr(issuer)) && Get(payload, "sub") == Some(JStr(subject))
    requires w.keyValid(issuer) && w.verifies(issuer, TextBytes(Base64Url.Spelled(bytes)), signature)
    ensures RawPayload(w, token) == Ok(payload) && V1Layout(payload)
    ensures Decode(w, token) == Ok(Envelope(Migrated(payload, claimType), 1, a))
  {
    HeaderExactly(w, header, headerObj, typ, alg, a);
    VersionExactly(payload, 1);
    ReadAssembled(w, header, bytes, signature, a, payload, 1, issuer, token);
  }

  /** A token within the size limit that `SignAndAssemble` made of a payload. */
  ghost predicate Assembled(w: World, header: seq<byte>, bytes: seq<byte>, signature: seq<byte>,
                            payload: Obj, issuer: string, token: string) {
    && token == SigningInput(header, bytes) + "." + Base64Url.Spelled(signature)
    && |token| <= MAX_JWT_SIZE && header != [] && bytes != [] && ChecksLength(w)
    && w.keyValid(issuer) && w.verifies(issuer, TextBytes(SigningInput(header, bytes)), signature)
    && w.parse(header) == Some(JObj(HEADER)) && w.parse(bytes) == Some(JObj(payload))
  }

  /** A token that is `SignAndAssemble`d from a payload decodes to that payload. */
  lemma IssuedDecodes(w: World, header: seq<byte>, bytes: seq<byte>, signature: seq<byte>,
                      payload: Obj, issuer: string, claimType: string, token: string)
    requires Assembled(w, header, bytes, signature, payload, issuer, token)
    requires Issued(payload, issuer, claimType)
    ensures Decode(w, token) == Ok(Envelope(payload, 2, "ed25519-nkey"))
    ensures RawPayload(w, token) == Ok(payload)
  {
    AssembledParses(w, header, bytes, signature, issuer, token);
    HeaderIsValid(w, header);
    IssuedVersion(payload, issuer, claimType);
  }

  lemma IssuedVersion(payload: Obj, issuer: string, claimType: string)
    requires Issued(payload, issuer, claimType)
    ensures SupportedVersion(payload) == Ok(2)
    ensures RequiredString(payload, "iss") == Ok(issuer)
  {
    assert Get(payload, "type") == None;
    DeclaredByNats(payload, NatsOf(payload), claimType, 2);
  }

  /** The header the library writes. */
  lemma HeaderWritten()
    ensures Get(HEADER, "typ") == Some(JStr("JWT")) && Get(HEADER, "alg") == Some(JStr("ed25519-nkey"))
    ensures forall k :: k in HEADER ==> k == "typ" || k == "alg"
  {
  }
}
