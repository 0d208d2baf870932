/** Account and user claims from object to token and back (`encodeWithSigner`, `checkStructure` and the
decoders of src/account_claims.cpp and src/user_claims.cpp; `decode` of src/jwt.cpp). */
module Claims {
  import opened Bits
  import opened Results
  import opened Json
  import opened Types
  import opened Findings
  import opened Ordering
  import opened Tokenization
  import opened Envelopes
  import opened Dispatch
  import opened ExportChecks
  import Parts = AccountParts
  import Account = AccountWire
  import User = UserWire
  import Base64Url
  import Sha2Variants
  import opened Containment
  import Overlaps
  import Weights
  import Writing
  import Chain

  /** The standard claims of every type. */
  datatype Standard = Standard(
    subject: string, issuer: string, issuedAt: int64, name: Option<string>,
    expires: int64, audience: string, notBefore: int64)

  // ---------------- writing the standard claims ----------------

  function OmitNotPositive(n: int): Option<Json> {
    if n > 0 then Some(JInt(n)) else None
  }

  function OmitNoName(name: Option<string>): Option<Json> {
    if name.Some? then OmitEmpty(name.value) else None
  }

  function StandardMember(s: Standard, nats: Obj, k: string): Option<Json> {
    if k == "iat" then Some(JInt(s.issuedAt))
    else if k == "iss" then Some(JStr(s.issuer))
    else if k == "sub" then Some(JStr(s.subject))
    else if k == "name" then OmitNoName(s.name)
    else if k == "exp" then OmitNotPositive(s.expires)
    else if k == "aud" then OmitEmpty(s.audience)
    else if k == "nbf" then OmitNotPositive(s.notBefore)
    else if k == "nats" then Some(JObj(nats))
    else None
  }

  const STANDARD_KEYS := {"iat", "iss", "sub", "name", "exp", "aud", "nbf", "nats"}

  /** The payload before its identifier is known. */
  function Unsealed(s: Standard, nats: Obj): Obj {
    Build(STANDARD_KEYS, k => StandardMember(s, nats, k))
  }

  /** The payload with the identifier computed over its text without one. */
  ghost function Payload(w: World, s: Standard, nats: Obj): Obj {
    Unsealed(s, nats)["jti" := JStr(Sha2Variants.Jti(w.dump(JObj(Unsealed(s, nats)))))]
  }

  lemma StandardMembers(s: Standard, nats: Obj)
    ensures StandardMember(s, nats, "iat") == Some(JInt(s.issuedAt))
    ensures StandardMember(s, nats, "iss") == Some(JStr(s.issuer))
    ensures StandardMember(s, nats, "sub") == Some(JStr(s.subject))
    ensures StandardMember(s, nats, "name") == OmitNoName(s.name)
    ensures StandardMember(s, nats, "exp") == OmitNotPositive(s.expires)
    ensures StandardMember(s, nats, "aud") == OmitEmpty(s.audience)
    ensures StandardMember(s, nats, "nbf") == OmitNotPositive(s.notBefore)
    ensures StandardMember(s, nats, "nats") == Some(JObj(nats))
  {
  }

  /** The members, one after the other. */
  method AssignStandard(s: Standard, nats: Obj, ghost value: string -> Option<Json>) returns (o: Obj)
    requires value("iat") == Some(JInt(s.issuedAt)) && value("iss") == Some(JStr(s.issuer))
    requires value("sub") == Some(JStr(s.subject)) && value("name") == OmitNoName(s.name)
    requires value("exp") == OmitNotPositive(s.expires) && value("aud") == OmitEmpty(s.audience)
    requires value("nbf") == OmitNotPositive(s.notBefore) && value("nats") == Some(JObj(nats))
    ensures o == Overwrite(map[], STANDARD_KEYS, value)
  {
    o := Put(map[], "iat", Some(JInt(s.issuedAt)));
    PutFirst(map[], value, "iat");
    o := Put(o, "iss", Some(JStr(s.issuer)));
    PutNext(map[], {"iat"}, value, "iss");
    o := Put(o, "sub", Some(JStr(s.subject)));
    PutNext(map[], {"iat"} + {"iss"}, value, "sub");
    o := Put(o, "name", OmitNoName(s.name));
    PutNext(map[], {"iat"} + {"iss"} + {"sub"}, value, "name");
    o := Put(o, "exp", OmitNotPositive(s.expires));
    PutNext(map[], {"iat"} + {"iss"} + {"sub"} + {"name"}, value, "exp");
    ghost var done := {"iat"} + {"iss"} + {"sub"} + {"name"} + {"exp"};
    o := Put(o, "aud", OmitEmpty(s.audience));
    PutNext(map[], done, value, "aud");
    o := Put(o, "nbf", OmitNotPositive(s.notBefore));
    PutNext(map[], done + {"aud"}, value, "nbf");
    o := Put(o, "nats", Some(JObj(nats)));
    PutNext(map[], done + {"aud"} + {"nbf"}, value, "nats");
    Gathered("iat", "iss", "sub", "name", "exp", "aud", "nbf", "nats");
  }

  lemma Gathered(a: string, b: string, c: string, d: string, e: string, f: string, g: string, h: string)
    ensures {a} + {b} + {c} + {d} + {e} + {f} + {g} + {h} == {a, b, c, d, e, f, g, h}
  {
  }

  method WritePayload(w: World, s: Standard, nats: Obj) returns (payload: Obj)
    ensures payload == Payload(w, s, nats)
  {
    ghost var value := k => StandardMember(s, nats, k);
    StandardMembers(s, nats);
    payload := AssignStandard(s, nats, value);
    OverwriteNothing(STANDARD_KEYS, value);
    SameMembers(payload, Unsealed(s, nats));
    payload := Seal(w, payload);
  }

  method Seal(w: World, payload: Obj) returns (sealed: Obj)
    ensures sealed == payload["jti" := JStr(Sha2Variants.Jti(w.dump(JObj(payload))))]
  {
    var jti := Sha2Variants.ComputeJti(w.dump(JObj(payload)));
    sealed := payload["jti" := JStr(jti)];
  }

  lemma NoIdentifierYet(s: Standard, nats: Obj)
    ensures "jti" !in Unsealed(s, nats)
  {
    assert Get(Unsealed(s, nats), "jti") == None;
  }

  lemma AddedAndTaken(o: Obj, k: string, v: Json)
    requires k !in o
    ensures o[k := v] - {k} == o && Get(o[k := v], k) == Some(v)
  {
  }

  /** The identifier is that of the text without one. */
  lemma SealedExactly(w: World, s: Standard, nats: Obj, payload: Obj)
    requires payload == Payload(w, s, nats)
    ensures Get(payload, "jti") == Some(JStr(Sha2Variants.Jti(w.dump(JObj(payload - {"jti"})))))
  {
    NoIdentifierYet(s, nats);
    AddedAndTaken(Unsealed(s, nats), "jti", payload["jti"]);
  }

  // ---------------- reading the standard claims ----------------

  function ReadName(o: Obj): Result<Option<string>> {
    match Get(o, "name")
    case None => Ok(None)
    case Some(JStr(s)) => Ok(Some(s))
    case Some(_) => Err(Malformed)
  }

  function ReadStandard(o: Obj): Result<Standard> {
    var subject :- RequiredString(o, "sub");
    var issuer :- RequiredString(o, "iss");
    var issuedAt :- IntField(o, "iat", 0);
    var name :- ReadName(o);
    var expires :- IntField(o, "exp", 0);
    var audience :- StringValue(o, "aud");
    var notBefore :- IntField(o, "nbf", 0);
    Ok(Standard(subject, issuer, issuedAt, name, expires, audience, notBefore))
  }

  function Positive(n: int64): int64 {
    if n > 0 then n else 0
  }

  /** What becomes of standard claims: an empty name is none, a time that is not positive is 0. */
  function RereadStandard(s: Standard): Standard {
    s.(name := if s.name == Some("") then None else s.name,
       expires := Positive(s.expires), notBefore := Positive(s.notBefore))
  }

  predicate HoldsStandard(o: Obj, s: Standard, nats: Obj) {
    && Get(o, "iat") == Some(JInt(s.issuedAt))
    && Get(o, "iss") == Some(JStr(s.issuer))
    && Get(o, "sub") == Some(JStr(s.subject))
    && Get(o, "name") == OmitNoName(s.name)
    && Get(o, "exp") == OmitNotPositive(s.expires)
    && Get(o, "aud") == OmitEmpty(s.audience)
    && Get(o, "nbf") == OmitNotPositive(s.notBefore)
    && Get(o, "nats") == Some(JObj(nats))
    && Get(o, "type") == None
  }

  lemma SealedHolds(s: Standard, nats: Obj, jti: Json)
    ensures HoldsStandard(Unsealed(s, nats)["jti" := jti], s, nats)
  {
  }

  lemma StandardReads(o: Obj, s: Standard, nats: Obj)
    requires HoldsStandard(o, s, nats)
    ensures ReadStandard(o) == Ok(RereadStandard(s))
  {
    StringReads(o, "aud", s.audience);
  }

  // ---------------- structure and validation ----------------

  /** `checkStructure`: both keys are there and of the right kinds. */
  predicate StructureOk(w: World, s: Standard, kind: char, issuerKinds: string) {
    && s.subject != "" && s.issuer != "" && w.isKind(kind, s.subject)
    && exists i :: 0 <= i < |issuerKinds| && w.isKind(issuerKinds[i], s.issuer)
  }

  /** `throwFirstBlocking`. */
  method ThrowsBlocking(vr: ValidationResults) returns (throws: bool)
    ensures throws <==> exists i :: 0 <= i < |vr.issues| && vr.issues[i].blocking
  {
    for n := 0 to |vr.issues|
      invariant forall i :: 0 <= i < n ==> !vr.issues[i].blocking
    {
      if vr.issues[n].blocking {
        return true;
      }
    }
    return false;
  }

  /** The checks on limits and mappings find nothing. */
  predicate ConfigOk(a: Account.Account) {
    && TierFindings(a.limits) == []
    && forall from :: from in a.mappings ==> Weights.WeightFindings(a.mappings[from]) == []
  }

  /** The checks on exports, each and among each other, find nothing. */
  predicate ExportsOk(exports: seq<Export>, info: InfoCheck) {
    && Overlaps.OwnFindings(exports, info) == []
    && Overlaps.ContainedExports(exports, true) == map[]
    && Overlaps.ContainedExports(exports, false) == map[]
  }

  /** What the modelled part of an account's own validation demands. */
  predicate Acceptable(a: Account.Account, info: InfoCheck) {
    ConfigOk(a) && ExportsOk(a.exports, info) && !Overlaps.Noticed(a.imports, |a.imports|)
  }

  lemma ReportedNothing(service: bool, m: map<string, string>, found: seq<Finding>)
    requires Overlaps.Reported(service, m, found)
    ensures found == [] <==> m == map[]
  {
    var keys :| Overlaps.Enumerates(keys, m) && found == Overlaps.ExportIssues(service, keys, m);
    assert keys != [] ==> keys[0] in m;
    assert forall k :: k in m ==> k in keys;
  }

  method ValidateMappings(mappings: map<string, seq<WeightedMapping>>) returns (ok: bool)
    ensures ok <==> forall from :: from in mappings ==> Weights.WeightFindings(mappings[from]) == []
  {
    var rest := mappings.Keys;
    while rest != {}
      invariant rest <= mappings.Keys
      invariant forall from :: from in mappings && from !in rest ==> Weights.WeightFindings(mappings[from]) == []
      decreases |rest|
    {
      var from :| from in rest;
      var vr := new ValidationResults();
      Weights.ValidateWeights(mappings[from], vr);
      ErrorsBlock(Weights.WeightFindings(mappings[from]), vr.issues);
      var throws := ThrowsBlocking(vr);
      if throws {
        return false;
      }
      rest := rest - {from};
    }
    return true;
  }

  /** Issues made of findings block, so there is none to throw if and only if nothing was found. */
  lemma ErrorsBlock(found: seq<Finding>, issues: seq<Issue>)
    requires issues == [] + Errors(found)
    ensures (exists i :: 0 <= i < |issues| && issues[i].blocking) <==> found != []
  {
    assert issues != [] ==> issues[0].blocking;
  }

  method ValidateConfig(a: Account.Account) returns (ok: bool)
    ensures ok <==> ConfigOk(a)
  {
    var vr := new ValidationResults();
    CheckTiers(a.limits, vr);
    ErrorsBlock(TierFindings(a.limits), vr.issues);
    var throws := ThrowsBlocking(vr);
    if throws {
      return false;
    }
    ok := ValidateMappings(a.mappings);
  }

  method ValidateExports(exports: seq<Export>, info: InfoCheck) returns (ok: bool)
    ensures ok <==> ExportsOk(exports, info)
  {
    var vr := new ValidationResults();
    Overlaps.CheckExports(exports, info, vr);
    ghost var own := Overlaps.OwnFindings(exports, info);
    ghost var services, streams :|
      && Overlaps.Reported(true, Overlaps.ContainedExports(exports, true), services)
      && Overlaps.Reported(false, Overlaps.ContainedExports(exports, false), streams)
      && vr.issues == [] + Errors(own) + Errors(services) + Errors(streams);
    ReportedNothing(true, Overlaps.ContainedExports(exports, true), services);
    ReportedNothing(false, Overlaps.ContainedExports(exports, false), streams);
    AllBlocking(own, services, streams, vr.issues);
    var throws := ThrowsBlocking(vr);
    ok := !throws;
  }

  method ValidateImports(imports: seq<Import>) returns (ok: bool)
    ensures ok <==> !Overlaps.Noticed(imports, |imports|)
  {
    var vr := new ValidationResults();
    Overlaps.CheckImports(imports, vr);
    ErrorsBlock(Overlaps.ImportFindings(imports, |imports|), vr.issues);
    var throws := ThrowsBlocking(vr);
    ok := !throws;
  }

  /** That part of `validate`, up to the throw: whichever issue comes first, any of them throws. */
  method ValidateAccount(a: Account.Account, info: InfoCheck) returns (ok: bool)
    ensures ok <==> Acceptable(a, info)
  {
    var config := ValidateConfig(a);
    var exports := ValidateExports(a.exports, info);
    var imports := ValidateImports(a.imports);
    ok := config && exports && imports;
  }

  lemma AllBlocking(a: seq<Finding>, b: seq<Finding>, c: seq<Finding>, issues: seq<Issue>)
    requires issues == [] + Errors(a) + Errors(b) + Errors(c)
    ensures (exists i :: 0 <= i < |issues| && issues[i].blocking) <==> !(a == b == c == [])
  {
    assert forall i :: 0 <= i < |issues| ==> issues[i].blocking;
    assert issues != [] ==> issues[0].blocking;
  }

  lemma NoFindingsOne(e: Export, info: InfoCheck)
    requires ExportFindings(e, info) == []
    ensures Parts.SamplingOk(e)
  {
    assert LatencyFindings(e) == [];
    SamplingExactly(e);
  }

  lemma NoFindingsParts(exports: seq<Export>, info: InfoCheck)
    requires exports != [] && Overlaps.OwnFindings(exports, info) == []
    ensures Overlaps.OwnFindings(exports[..|exports| - 1], info) == []
    ensures ExportFindings(exports[|exports| - 1], info) == []
  {
  }

  lemma {:induction false} NoFindingsAt(exports: seq<Export>, info: InfoCheck, i: nat)
    requires i < |exports| && Overlaps.OwnFindings(exports, info) == []
    ensures Parts.SamplingOk(exports[i])
  {
    NoFindingsParts(exports, info);
    if i == |exports| - 1 {
      NoFindingsOne(exports[i], info);
    } else {
      NoFindingsAt(exports[..|exports| - 1], info, i);
    }
  }

  /** Exports without findings of their own have percentages for sampling rates. */
  lemma NoFindingsSampling(exports: seq<Export>, info: InfoCheck)
    requires Overlaps.OwnFindings(exports, info) == []
    ensures Account.AllSamplingOk(exports)
  {
    forall i | 0 <= i < |exports|
      ensures Parts.SamplingOk(exports[i])
    {
      NoFindingsAt(exports, info, i);
    }
  }

  /** An account that is let through holds one kind of JetStream limits. */
  lemma NoTierFindings(l: AccountLimits)
    requires TierFindings(l) == []
    ensures Parts.RereadTiers(l) == l
  {
  }

  /** What the modelled part of an account's own validation demands, said of the account itself. */
  ghost predicate Fit(a: Account.Account, info: InfoCheck) {
    && (|| a.limits.tieredLimits == map[]
        || ("" !in a.limits.tieredLimits && a.limits.jetStream == JetStreamLimits(0, 0, 0, 0, 0, 0, 0, false)))
    && (forall from :: from in a.mappings ==> Weights.Balanced(a.mappings[from]))
    && (forall i :: 0 <= i < |a.exports| ==>
          Sound(a.exports[i]) && info(a.exports[i].description, a.exports[i].infoURL) == [])
    && (forall i, j :: 0 <= i < |a.exports| && 0 <= j < |a.exports| ==> !Overlaps.NestedExports(a.exports, i, j))
    && (forall i, j :: 0 <= i < j < |a.imports| ==> !Overlaps.Nested(a.imports[i], a.imports[j]))
  }

  lemma ConfigExactly(a: Account.Account)
    ensures ConfigOk(a) <==>
      && (|| a.limits.tieredLimits == map[]
          || ("" !in a.limits.tieredLimits && a.limits.jetStream == JetStreamLimits(0, 0, 0, 0, 0, 0, 0, false)))
      && (forall from :: from in a.mappings ==> Weights.Balanced(a.mappings[from]))
  {
    TiersExactly(a.limits);
    forall from | from in a.mappings
      ensures Weights.WeightFindings(a.mappings[from]) == [] <==> Weights.Balanced(a.mappings[from])
    {
      Weights.BalancedExactly(a.mappings[from]);
    }
  }

  lemma ExportsExactly(exports: seq<Export>, info: InfoCheck)
    ensures ExportsOk(exports, info) <==>
      && (forall i :: 0 <= i < |exports| ==> Sound(exports[i]) && info(exports[i].description, exports[i].infoURL) == [])
      && (forall i, j :: 0 <= i < |exports| && 0 <= j < |exports| ==> !Overlaps.NestedExports(exports, i, j))
  {
    Overlaps.OwnFindingsSilent(exports, info);
    Overlaps.ExportsReportedExactly(exports);
    forall i | 0 <= i < |exports|
      ensures Overlaps.Silent(exports[i], info) <==>
        Sound(exports[i]) && info(exports[i].description, exports[i].infoURL) == []
    {
      ExportExactly(exports[i], info);
    }
  }

  /** The modelled checks let an account through if and only if its tiers stand alone and are named,
      its mappings are balanced, its exports are sound and apart from each other, and no two service
      imports of one account occupy nested subjects. */
  lemma AcceptableExactly(a: Account.Account, info: InfoCheck)
    ensures Acceptable(a, info) <==> Fit(a, info)
  {
    ConfigExactly(a);
    ExportsExactly(a.exports, info);
    Overlaps.OccupiedExactly(a.imports);
  }

  /** What an account satisfies that was let through: no cluster has more than 100 destinations, named
      ones sum to at most 100, exports and service imports keep apart, sampling rates are percentages. */
  lemma AcceptableGuarantees(a: Account.Account, info: InfoCheck)
    requires Acceptable(a, info)
    ensures forall from, c :: from in a.mappings && c != "" ==>
      Weights.Within(a.mappings[from], c) && Weights.Destinations(a.mappings[from], c) <= 100
    ensures forall from, c :: from in a.mappings && |a.mappings[from]| <= Weights.SHORT_LIST ==>
      Weights.Within(a.mappings[from], c) && Weights.Destinations(a.mappings[from], c) <= 100
    ensures forall i, j :: 0 <= i < |a.exports| && 0 <= j < |a.exports| ==> !Overlaps.NestedExports(a.exports, i, j)
    ensures forall i, j :: 0 <= i < j < |a.imports| ==> !Overlaps.Nested(a.imports[i], a.imports[j])
    ensures Account.AllSamplingOk(a.exports)
  {
    forall from, c | from in a.mappings && (c != "" || |a.mappings[from]| <= Weights.SHORT_LIST)
      ensures Weights.Within(a.mappings[from], c) && Weights.Destinations(a.mappings[from], c) <= 100
    {
      MappingWithin(a.mappings[from], c);
    }
    Overlaps.ExportsReportedExactly(a.exports);
    Overlaps.OccupiedExactly(a.imports);
    NoFindingsSampling(a.exports, info);
  }

  lemma MappingWithin(wms: seq<WeightedMapping>, c: string)
    requires Weights.WeightFindings(wms) == [] && (c != "" || |wms| <= Weights.SHORT_LIST)
    ensures Weights.Within(wms, c) && Weights.Destinations(wms, c) <= 100
  {
    Weights.WeightFindingsExactly(wms);
    Weights.AtMost100Destinations(wms, c);
    if |wms| <= Weights.SHORT_LIST {
      Weights.ShortListExactly(wms);
    }
  }

  /** The decoder's view of an account: sorted, its keys re-read. */
  function Resorted(a: Account.Account): Account.Account {
    a.(exports := Sort(a.exports, Account.SubjectOfExport),
       imports := Sort(a.imports, Account.SubjectOfImport),
       keys := Account.RereadKeys(a.keys))
  }

  /** Every account the encoder lets through decodes, to itself up to sorting and keys. */
  lemma AcceptableRoundTrip(raw: Obj, a: Account.Account, info: InfoCheck)
    requires Acceptable(a, info)
    ensures Account.DecodeNats(Account.EncodeNats(raw, a)) == Ok(Resorted(a))
  {
    NoFindingsSampling(a.exports, info);
    NoTierFindings(a.limits);
    Account.AccountRoundTripExactly(raw, a);
  }

  // ---------------- decoding ----------------

  /** Claims as `decode` returns them; those of other types stop at their envelope or payload. */
  datatype Decoded =
    | AccountToken(standard: Standard, account: Account.Account, raw: Obj)
    | UserToken(standard: Standard, user: User.User, raw: Obj)
    | OtherToken(outcome: Outcome)

  function ReadAccount(w: World, payload: Obj): Result<Decoded> {
    var nats := NatsOf(payload);
    var _ :- CheckType(nats, "account");
    var s :- ReadStandard(payload);
    var a :- Account.DecodeNats(nats);
    if StructureOk(w, s, 'A', "OA") then Ok(AccountToken(s, a, nats)) else Err(InvalidClaims)
  }

  function ReadUser(w: World, payload: Obj): Result<Decoded> {
    var nats := NatsOf(payload);
    var _ :- CheckType(nats, "user");
    var s :- ReadStandard(payload);
    var u :- User.DecodeNats(nats);
    if StructureOk(w, s, 'U', "A") then Ok(UserToken(s, u, nats)) else Err(InvalidClaims)
  }

  function ReadClaims(w: World, outcome: Outcome): Result<Decoded> {
    if outcome.OfType? && outcome.kind == "account" then ReadAccount(w, outcome.envelope.payload)
    else if outcome.OfType? && outcome.kind == "user" then ReadUser(w, outcome.envelope.payload)
    else Ok(OtherToken(outcome))
  }

  /** `decode`, with accounts and users read. */
  ghost function DecodeClaims(w: World, token: string): Result<Decoded> {
    var outcome :- DecodeToken(w, token);
    ReadClaims(w, outcome)
  }

  method DecodeToClaims(w: World, token: string) returns (r: Result<Decoded>)
    ensures r == DecodeClaims(w, token)
  {
    var outcome :- DecodeJwt(w, token);
    r := ReadClaims(w, outcome);
  }

  // ---------------- encoding ----------------

  /** The standard claims as they are stamped. */
  function Stamped(s: Standard, issuer: string, now: int64): Standard {
    s.(issuer := issuer, issuedAt := now)
  }

  /** What has to hold of an account before it is written; `others` is the answer of the checks outside
      this model. */
  predicate AccountAdmitted(w: World, s: Standard, a: Account.Account, info: InfoCheck, others: bool) {
    StructureOk(w, s, 'A', "OA") && Acceptable(a, info) && others
  }

  method AdmitAccount(w: World, s: Standard, a: Account.Account, info: InfoCheck, others: bool) returns (ok: bool)
    ensures ok == AccountAdmitted(w, s, a, info, others)
  {
    if !(w.isKind('O', s.issuer) || w.isKind('A', s.issuer)) {
      return false;
    }
    if !StructureOk(w, s, 'A', "OA") {
      return false;
    }
    var valid := ValidateAccount(a, info);
    return valid && others;
  }

  /** `encodeWithSigner` of accounts. */
  method EncodeAccount(w: World, s: Standard, raw: Obj, a: Account.Account, issuer: string, now: int64,
                       info: InfoCheck, others: bool, sign: (string, seq<byte>) -> seq<byte>)
    returns (r: Result<string>, nats: Obj)
    ensures nats == Account.EncodeNats(raw, a)
    ensures r.Err? <==>
      || !AccountAdmitted(w, Stamped(s, issuer, now), a, info, others)
      || SignerFails(w, Payload(w, Stamped(s, issuer, now), nats), issuer, sign)
    ensures r.Ok? ==> exists signature ::
      IssuedAs(w, Payload(w, Stamped(s, issuer, now), nats), issuer, signature, r.value)
  {
    var admitted := AdmitAccount(w, Stamped(s, issuer, now), a, info, others);
    nats := Writing.WriteAccount(raw, a);
    r := EncodeAdmitted(w, Stamped(s, issuer, now), admitted, nats, sign);
  }

  method EncodeAdmitted(w: World, s: Standard, admitted: bool, nats: Obj,
                        sign: (string, seq<byte>) -> seq<byte>)
    returns (r: Result<string>)
    ensures r.Err? <==> !admitted || SignerFails(w, Payload(w, s, nats), s.issuer, sign)
    ensures r.Ok? ==> exists signature :: IssuedAs(w, Payload(w, s, nats), s.issuer, signature, r.value)
  {
    if !admitted {
      return Err(InvalidClaims);
    }
    r := EncodeStamped(w, s, nats, sign);
  }

  /** The tail of every encoder: payload, identifier, signature. */
  method EncodeStamped(w: World, s: Standard, nats: Obj, sign: (string, seq<byte>) -> seq<byte>)
    returns (r: Result<string>)
    ensures r.Err? <==> SignerFails(w, Payload(w, s, nats), s.issuer, sign)
    ensures r.Ok? ==> exists signature :: IssuedAs(w, Payload(w, s, nats), s.issuer, signature, r.value)
  {
    var payload := WritePayload(w, s, nats);
    r := Issue(w, payload, s.issuer, sign);
  }

  /** The token is the assembled payload with a signature that verifies. */
  ghost predicate IssuedAs(w: World, payload: Obj, issuer: string, signature: seq<byte>, token: string) {
    var input := SigningInput(w.dump(JObj(HEADER)), w.dump(JObj(payload)));
    && w.keyValid(issuer) && w.verifies(issuer, TextBytes(input), signature)
    && token == input + "." + Base64Url.Spelled(signature)
  }

  /** The signer's answer is no signature of the issuer's. */
  ghost predicate SignerFails(w: World, payload: Obj, issuer: string, sign: (string, seq<byte>) -> seq<byte>) {
    var input := TextBytes(SigningInput(w.dump(JObj(HEADER)), w.dump(JObj(payload))));
    !w.keyValid(issuer) || !w.verifies(issuer, input, sign(issuer, input))
  }

  method Issue(w: World, payload: Obj, issuer: string, sign: (string, seq<byte>) -> seq<byte>)
    returns (r: Result<string>)
    ensures r.Err? <==> SignerFails(w, payload, issuer, sign)
    ensures r.Ok? ==> exists signature :: IssuedAs(w, payload, issuer, signature, r.value)
  {
    var header, bytes := w.dump(JObj(HEADER)), w.dump(JObj(payload));
    r := SignAndAssemble(w, header, bytes, issuer, sign);
    if r.Ok? {
      ghost var signature := sign(issuer, TextBytes(SigningInput(header, bytes)));
      assert IssuedAs(w, payload, issuer, signature, r.value);
    }
  }

  /** A user's issuer account is an account key. */
  predicate IssuerAccountOk(w: World, u: User.User) {
    u.issuerAccount.Some? ==> w.isKind('A', u.issuerAccount.value)
  }

  predicate UserAdmitted(w: World, s: Standard, u: User.User, others: bool) {
    StructureOk(w, s, 'U', "A") && IssuerAccountOk(w, u) && others
  }

  method AdmitUser(w: World, s: Standard, u: User.User, others: bool) returns (ok: bool)
    ensures ok == UserAdmitted(w, s, u, others)
  {
    if !w.isKind('A', s.issuer) || !StructureOk(w, s, 'U', "A") {
      return false;
    }
    return IssuerAccountOk(w, u) && others;
  }

  /** `encodeWithSigner` of users. */
  method EncodeUser(w: World, s: Standard, raw: Obj, u: User.User, issuer: string, now: int64,
                    others: bool, sign: (string, seq<byte>) -> seq<byte>)
    returns (r: Result<string>, nats: Obj)
    ensures nats == User.EncodeNats(raw, u)
    ensures r.Err? <==>
      || !UserAdmitted(w, Stamped(s, issuer, now), u, others)
      || SignerFails(w, Payload(w, Stamped(s, issuer, now), nats), issuer, sign)
    ensures r.Ok? ==> exists signature ::
      IssuedAs(w, Payload(w, Stamped(s, issuer, now), nats), issuer, signature, r.value)
  {
    var admitted := AdmitUser(w, Stamped(s, issuer, now), u, others);
    nats := Writing.WriteUser(raw, u);
    r := EncodeAdmitted(w, Stamped(s, issuer, now), admitted, nats, sign);
  }

  // ---------------- from object to token and back ----------------

  /** The JSON library reads back what it wrote, and writes something. */
  predicate ReadsBack(w: World, o: Obj) {
    w.dump(JObj(o)) != [] && w.parse(w.dump(JObj(o))) == Some(JObj(o))
  }

  /** What a token issued for a payload decodes to, given what its claims are read as. */
  lemma IssuedReads(w: World, payload: Obj, s: Standard, nats: Obj, issuer: string, signature: seq<byte>,
                    token: string, kind: string)
    requires IssuedAs(w, payload, issuer, signature, token) && |token| <= MAX_JWT_SIZE && ChecksLength(w)
    requires ReadsBack(w, HEADER) && ReadsBack(w, payload)
    requires HoldsStandard(payload, s, nats) && s.issuer == issuer
    requires TypedNats(nats, kind) && kind in TYPED
    ensures DecodeToken(w, token) == Ok(OfType(kind, Envelope(payload, 2, "ed25519-nkey")))
    ensures NatsOf(payload) == nats
  {
    IssuedTyped(w, w.dump(JObj(HEADER)), w.dump(JObj(payload)), signature, payload, issuer, token, nats, kind);
  }

  lemma AccountReads(w: World, payload: Obj, nats: Obj, s: Standard, a: Account.Account)
    requires NatsOf(payload) == nats && TypedNats(nats, "account")
    requires ReadStandard(payload) == Ok(s) && Account.DecodeNats(nats) == Ok(a)
    requires StructureOk(w, s, 'A', "OA")
    ensures ReadAccount(w, payload) == Ok(AccountToken(s, a, nats))
  {
  }

  lemma AccountTokenDecodes(w: World, payload: Obj, s: Standard, nats: Obj, a: Account.Account,
                            signature: seq<byte>, token: string)
    requires IssuedAs(w, payload, s.issuer, signature, token) && |token| <= MAX_JWT_SIZE && ChecksLength(w)
    requires ReadsBack(w, HEADER) && ReadsBack(w, payload)
    requires HoldsStandard(payload, s, nats) && StructureOk(w, s, 'A', "OA")
    requires TypedNats(nats, "account") && Account.DecodeNats(nats) == Ok(a)
    ensures DecodeClaims(w, token) == Ok(AccountToken(RereadStandard(s), a, nats))
  {
    IssuedReads(w, payload, s, nats, s.issuer, signature, token, "account");
    StandardReads(payload, s, nats);
    AccountReads(w, payload, nats, RereadStandard(s), a);
  }

  lemma PayloadHolds(w: World, s: Standard, nats: Obj, payload: Obj)
    requires payload == Payload(w, s, nats)
    ensures HoldsStandard(payload, s, nats)
  {
    SealedHolds(s, nats, payload["jti"]);
  }

  lemma AccountNatsRead(raw: Obj, a: Account.Account, info: InfoCheck, nats: Obj)
    requires Acceptable(a, info) && nats == Account.EncodeNats(raw, a)
    ensures TypedNats(nats, "account") && Account.DecodeNats(nats) == Ok(Resorted(a))
  {
    AccountIsTyped(raw, a);
    AcceptableRoundTrip(raw, a, info);
  }

  /** An account that was encoded decodes to itself: its standard claims re-read, its lists sorted, its
      keys as the decoder restores them, and the object that was written carried along. */
  lemma EncodedAccountDecodes(w: World, s: Standard, raw: Obj, a: Account.Account, info: InfoCheck,
                              nats: Obj, payload: Obj, signature: seq<byte>, token: string)
    requires Acceptable(a, info) && StructureOk(w, s, 'A', "OA")
    requires nats == Account.EncodeNats(raw, a) && payload == Payload(w, s, nats)
    requires IssuedAs(w, payload, s.issuer, signature, token) && |token| <= MAX_JWT_SIZE && ChecksLength(w)
    requires ReadsBack(w, HEADER) && ReadsBack(w, payload)
    ensures DecodeClaims(w, token) == Ok(AccountToken(RereadStandard(s), Resorted(a), nats))
  {
    PayloadHolds(w, s, nats, payload);
    AccountNatsRead(raw, a, info, nats);
    AccountTokenDecodes(w, payload, s, nats, Resorted(a), signature, token);
  }

  lemma UserReads(w: World, payload: Obj, nats: Obj, s: Standard, u: User.User)
    requires NatsOf(payload) == nats && TypedNats(nats, "user")
    requires ReadStandard(payload) == Ok(s) && User.DecodeNats(nats) == Ok(u)
    requires StructureOk(w, s, 'U', "A")
    ensures ReadUser(w, payload) == Ok(UserToken(s, u, nats))
  {
  }

  lemma UserTokenDecodes(w: World, payload: Obj, s: Standard, nats: Obj, u: User.User,
                         signature: seq<byte>, token: string)
    requires IssuedAs(w, payload, s.issuer, signature, token) && |token| <= MAX_JWT_SIZE && ChecksLength(w)
    requires ReadsBack(w, HEADER) && ReadsBack(w, payload)
    requires HoldsStandard(payload, s, nats) && StructureOk(w, s, 'U', "A")
    requires TypedNats(nats, "user") && User.DecodeNats(nats) == Ok(u)
    ensures DecodeClaims(w, token) == Ok(UserToken(RereadStandard(s), u, nats))
  {
    IssuedReads(w, payload, s, nats, s.issuer, signature, token, "user");
    StandardReads(payload, s, nats);
    UserReads(w, payload, nats, RereadStandard(s), u);
  }

  /** A user that was encoded decodes to itself, its standard claims re-read. */
  lemma EncodedUserDecodes(w: World, s: Standard, raw: Obj, u: User.User,
                           nats: Obj, payload: Obj, signature: seq<byte>, token: string)
    requires StructureOk(w, s, 'U', "A") && u.issuerAccount != Some("")
    requires nats == User.EncodeNats(raw, u) && payload == Payload(w, s, nats)
    requires IssuedAs(w, payload, s.issuer, signature, token) && |token| <= MAX_JWT_SIZE && ChecksLength(w)
    requires ReadsBack(w, HEADER) && ReadsBack(w, payload)
    ensures DecodeClaims(w, token) == Ok(UserToken(RereadStandard(s), u, nats))
  {
    PayloadHolds(w, s, nats, payload);
    UserIsTyped(raw, u);
    User.UserRoundTrip(raw, u);
    UserTokenDecodes(w, payload, s, nats, u, signature, token);
  }

  /** What is left of a standard claim after encoding with `issuer` at `now`: the issuer is the signing
      key and the time of issue is now, whatever they were; an empty name is none. */
  lemma StampedExactly(s: Standard, issuer: string, now: int64)
    ensures RereadStandard(Stamped(s, issuer, now))
         == Standard(s.subject, issuer, now, if s.name == Some("") then None else s.name,
                     if s.expires > 0 then s.expires else 0, s.audience,
                     if s.notBefore > 0 then s.notBefore else 0)
  {
  }

  /** From `encodeWithSigner` to `decode`, for accounts. */
  lemma AccountThereAndBack(w: World, s: Standard, raw: Obj, a: Account.Account, info: InfoCheck, others: bool,
                            issuer: string, now: int64, nats: Obj, payload: Obj, signature: seq<byte>, token: string)
    requires AccountAdmitted(w, Stamped(s, issuer, now), a, info, others)
    requires nats == Account.EncodeNats(raw, a) && payload == Payload(w, Stamped(s, issuer, now), nats)
    requires IssuedAs(w, payload, issuer, signature, token) && |token| <= 0x10_0000 && ChecksLength(w)
    requires ReadsBack(w, HEADER) && ReadsBack(w, payload)
    ensures DecodeClaims(w, token) == Ok(AccountToken(
      Standard(s.subject, issuer, now, if s.name == Some("") then None else s.name,
               if s.expires > 0 then s.expires else 0, s.audience, if s.notBefore > 0 then s.notBefore else 0),
      Resorted(a), nats))
  {
    StampedExactly(s, issuer, now);
    EncodedAccountDecodes(w, Stamped(s, issuer, now), raw, a, info, nats, payload, signature, token);
  }

  /** And for users. */
  lemma UserThereAndBack(w: World, s: Standard, raw: Obj, u: User.User, others: bool, issuer: string,
                         now: int64, nats: Obj, payload: Obj, signature: seq<byte>, token: string)
    requires UserAdmitted(w, Stamped(s, issuer, now), u, others) && u.issuerAccount != Some("")
    requires nats == User.EncodeNats(raw, u) && payload == Payload(w, Stamped(s, issuer, now), nats)
    requires IssuedAs(w, payload, issuer, signature, token) && |token| <= 0x10_0000 && ChecksLength(w)
    requires ReadsBack(w, HEADER) && ReadsBack(w, payload)
    ensures DecodeClaims(w, token) == Ok(UserToken(
      Standard(s.subject, issuer, now, if s.name == Some("") then None else s.name,
               if s.expires > 0 then s.expires else 0, s.audience, if s.notBefore > 0 then s.notBefore else 0),
      u, nats))
  {
    StampedExactly(s, issuer, now);
    EncodedUserDecodes(w, Stamped(s, issuer, now), raw, u, nats, payload, signature, token);
  }

  /** An admitted account is subject to an account key and signed by an operator or account key; an
      admitted user to a user key, signed by an account key, its issuer account an account key. */
  lemma AdmittedKinds(w: World, s: Standard, a: Account.Account, info: InfoCheck, u: User.User, others: bool)
    ensures AccountAdmitted(w, s, a, info, others) ==>
      && s.subject != "" && s.issuer != "" && w.isKind('A', s.subject)
      && (w.isKind('O', s.issuer) || w.isKind('A', s.issuer))
    ensures UserAdmitted(w, s, u, others) ==>
      && s.subject != "" && s.issuer != "" && w.isKind('U', s.subject) && w.isKind('A', s.issuer)
      && (u.issuerAccount.Some? ==> w.isKind('A', u.issuerAccount.value))
  {
  }

  lemma AccountOfPayload(w: World, payload: Obj, s: Standard, a: Account.Account, raw: Obj)
    requires ReadAccount(w, payload) == Ok(AccountToken(s, a, raw))
    ensures ReadStandard(payload) == Ok(s) && raw == NatsOf(payload) && Account.DecodeNats(raw) == Ok(a)
    ensures StructureOk(w, s, 'A', "OA")
  {
  }

  lemma UserOfPayload(w: World, payload: Obj, s: Standard, u: User.User, raw: Obj)
    requires ReadUser(w, payload) == Ok(UserToken(s, u, raw))
    ensures ReadStandard(payload) == Ok(s) && raw == NatsOf(payload) && User.DecodeNats(raw) == Ok(u)
    ensures StructureOk(w, s, 'U', "A")
  {
  }

  lemma ReadersOf(w: World, outcome: Outcome, d: Decoded)
    requires ReadClaims(w, outcome) == Ok(d) && !d.OtherToken?
    ensures outcome.OfType?
    ensures d.AccountToken? ==> ReadAccount(w, outcome.envelope.payload) == Ok(d)
    ensures d.UserToken? ==> ReadUser(w, outcome.envelope.payload) == Ok(d)
  {
  }

  /** Whoever wrote the token: a decoded account is an account by its keys, and its standard claims and
      configuration are read from the payload that was verified. */
  lemma DecodedAccount(w: World, token: string, s: Standard, a: Account.Account, raw: Obj)
    requires DecodeClaims(w, token) == Ok(AccountToken(s, a, raw))
    ensures s.subject != "" && s.issuer != "" && w.isKind('A', s.subject)
    ensures w.isKind('O', s.issuer) || w.isKind('A', s.issuer)
    ensures Decode(w, token).Ok?
    ensures ReadStandard(Decode(w, token).value.payload) == Ok(s)
    ensures raw == NatsOf(Decode(w, token).value.payload) && Account.DecodeNats(raw) == Ok(a)
  {
    DecodedOutcome(w, token);
    AccountOfPayload(w, Decode(w, token).value.payload, s, a, raw);
  }

  /** The same for a user. */
  lemma DecodedUser(w: World, token: string, s: Standard, u: User.User, raw: Obj)
    requires DecodeClaims(w, token) == Ok(UserToken(s, u, raw))
    ensures s.subject != "" && s.issuer != "" && w.isKind('U', s.subject) && w.isKind('A', s.issuer)
    ensures Decode(w, token).Ok?
    ensures ReadStandard(Decode(w, token).value.payload) == Ok(s)
    ensures raw == NatsOf(Decode(w, token).value.payload) && User.DecodeNats(raw) == Ok(u)
  {
    DecodedOutcome(w, token);
    UserOfPayload(w, Decode(w, token).value.payload, s, u, raw);
  }

  lemma DecodedOutcome(w: World, token: string)
    requires DecodeClaims(w, token).Ok? && !DecodeClaims(w, token).value.OtherToken?
    ensures Decode(w, token).Ok?
    ensures DecodeClaims(w, token).value.AccountToken? ==>
      ReadAccount(w, Decode(w, token).value.payload) == DecodeClaims(w, token)
    ensures DecodeClaims(w, token).value.UserToken? ==>
      ReadUser(w, Decode(w, token).value.payload) == DecodeClaims(w, token)
  {
    ReadersOf(w, DecodeToken(w, token).value, DecodeClaims(w, token).value);
    TypedIsVerified(w, token);
  }

  /** The names of the standard claims; a missing time is 0. */
  lemma StandardExactly(o: Obj, s: Standard)
    ensures ReadStandard(o) == Ok(s) <==>
      && "sub" in o && o["sub"] == JStr(s.subject)
      && "iss" in o && o["iss"] == JStr(s.issuer)
      && (if Missing(o, "iat") then s.issuedAt == 0 else o["iat"] == JInt(s.issuedAt))
      && (if "name" in o then s.name.Some? && o["name"] == JStr(s.name.value) else s.name == None)
      && (if Missing(o, "exp") then s.expires == 0 else o["exp"] == JInt(s.expires))
      && (if "aud" in o then o["aud"] == JStr(s.audience) else s.audience == "")
      && (if Missing(o, "nbf") then s.notBefore == 0 else o["nbf"] == JInt(s.notBefore))
  {
  }

  // ---------------- the claims of a chain ----------------

  /** What a chain sees of decoded claims; `view` reads the types that are not modelled further. */
  function ViewOf(d: Decoded, view: Outcome -> Option<Chain.Claims>): Option<Chain.Claims> {
    match d
    case AccountToken(s, a, _) =>
      Some(Chain.Claims(s.subject, s.issuer, s.expires, s.notBefore, Chain.Account(a.keys)))
    case UserToken(s, u, _) =>
      Some(Chain.Claims(s.subject, s.issuer, s.expires, s.notBefore, Chain.User(u)))
    case OtherToken(outcome) => view(outcome)
  }

  ghost function ChainView(w: World, view: Outcome -> Option<Chain.Claims>, token: string): Option<Chain.Claims> {
    match DecodeClaims(w, token)
    case Ok(d) => ViewOf(d, view)
    case Err(_) => None
  }

  /** The reading of the other types keeps the issuer. */
  ghost predicate KeepsIssuer(view: Outcome -> Option<Chain.Claims>) {
    forall outcome :: view(outcome).Some? ==>
      RequiredString(PayloadOf(outcome), "iss") == Ok(view(outcome).value.issuer)
  }

  lemma StandardIssuer(o: Obj, s: Standard)
    requires ReadStandard(o) == Ok(s)
    ensures RequiredString(o, "iss") == Ok(s.issuer)
  {
  }

  lemma ReadKeepsIssuer(w: World, outcome: Outcome, d: Decoded)
    requires ReadClaims(w, outcome) == Ok(d)
    ensures d.OtherToken? ==> d.outcome == outcome
    ensures !d.OtherToken? ==> RequiredString(PayloadOf(outcome), "iss") == Ok(d.standard.issuer)
  {
    if !d.OtherToken? {
      StandardIssuer(PayloadOf(outcome), d.standard);
    }
  }

  lemma ViewKeepsIssuer(w: World, view: Outcome -> Option<Chain.Claims>, outcome: Outcome, d: Decoded)
    requires KeepsIssuer(view) && ReadClaims(w, outcome) == Ok(d) && ViewOf(d, view).Some?
    ensures RequiredString(PayloadOf(outcome), "iss") == Ok(ViewOf(d, view).value.issuer)
  {
    ReadKeepsIssuer(w, outcome, d);
  }

  /** Decoding as it is done meets what the theorem on signed chains asks of it. */
  lemma DecodingIsAuthentic(w: World, checks: Chain.Checks, view: Outcome -> Option<Chain.Claims>)
    requires KeepsIssuer(view) && forall t :: checks.decode(t) == ChainView(w, view, t)
    ensures Chain.Authentic(w, checks)
  {
    forall t | checks.decode(t).Some?
      ensures DecodeToken(w, t).Ok?
      ensures RequiredString(PayloadOf(DecodeToken(w, t).value), "iss") == Ok(checks.decode(t).value.issuer)
    {
      assert checks.decode(t) == ChainView(w, view, t);
      ViewKeepsIssuer(w, view, DecodeToken(w, t).value, DecodeClaims(w, t).value);
    }
  }

  /** What a chain sees of an account or user that was encoded. */
  lemma EncodedInChain(w: World, view: Outcome -> Option<Chain.Claims>, token: string, s: Standard,
                       a: Account.Account, u: User.User, raw: Obj)
    ensures DecodeClaims(w, token) == Ok(AccountToken(s, a, raw)) ==>
      ChainView(w, view, token)
        == Some(Chain.Claims(s.subject, s.issuer, s.expires, s.notBefore, Chain.Body.Account(a.keys)))
    ensures DecodeClaims(w, token) == Ok(UserToken(s, u, raw)) ==>
      ChainView(w, view, token)
        == Some(Chain.Claims(s.subject, s.issuer, s.expires, s.notBefore, Chain.Body.User(u)))
  {
  }
}
