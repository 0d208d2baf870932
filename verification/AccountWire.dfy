/** The `nats` object of an account (`AccountClaims::encodeWithSigner` and `decodeAccountClaims`
of src/account_claims.cpp): what a decoder gets back from what an encoder wrote, exactly. */
module AccountWire {
  import opened Results
  import opened Json
  import opened Types
  import opened Ordering
  import opened AccountState
  import ScopeWire
  import Parts = AccountParts

  /** The typed configuration of an account. */
  datatype Account = Account(
    limits: AccountLimits, defaultPermissions: Permissions,
    mappings: map<string, seq<WeightedMapping>>, exports: seq<Export>, imports: seq<Import>,
    revocations: map<string, int64>, authorization: ExternalAuthorization,
    description: string, infoURL: string, keys: Keys, tags: seq<string>)

  // ---------------- signing keys: one array of strings and scope objects ----------------

  /** A listed key as the encoder writes it, and what it means to the decoder. */
  function KeyToJson(k: string, scopes: map<string, UserScope>): Json {
    if k in scopes then JObj(ScopeWire.ScopeToJson(scopes[k])) else JStr(k)
  }

  function KeysToJson(st: Keys): seq<Json> {
    var sorted := Sort(st.listed, Self);
    seq(|sorted|, i requires 0 <= i < |sorted| => KeyToJson(sorted[i], st.scopes))
  }

  /** One entry of `signing_keys`, as the call the decoder makes for it. */
  function ReadKey(v: Json): Result<KeyCall> {
    match v
    case JStr(k) => Ok(AddKey(k))
    case JObj(o) =>
      var kind :- StringValue(o, "kind");
      if kind == "user_scope" then
        var s :- ScopeWire.ScopeFromJson(o);
        Ok(SetScope(s))
      else Err(InvalidClaims)
    case _ => Err(InvalidClaims)
  }

  function ReadKeys(o: Obj): Result<Keys> {
    var member :- ArrayField(o, "signing_keys");
    match member
    case None => Ok(Keys([], map[]))
    case Some(items) =>
      var calls :- ReadAll(ReadKey, items);
      Ok(RunKeys(calls))
  }

  function CallFor(k: string, scopes: map<string, UserScope>): KeyCall {
    if k in scopes then SetScope(ScopeWire.RereadScope(scopes[k])) else AddKey(k)
  }

  function CallsFor(listed: seq<string>, scopes: map<string, UserScope>): (calls: seq<KeyCall>)
    ensures |calls| == |listed|
  {
    seq(|listed|, i requires 0 <= i < |listed| => CallFor(listed[i], scopes))
  }

  /** What becomes of the keys: sorted, a scoped key listed once, its zero limits lifted. */
  function RereadKeys(st: Keys): Keys {
    RunKeys(CallsFor(Sort(st.listed, Self), st.scopes))
  }

  lemma KeyReads(k: string, scopes: map<string, UserScope>)
    ensures ReadKey(KeyToJson(k, scopes)) == Ok(CallFor(k, scopes))
  {
    if k in scopes {
      var s := scopes[k];
      ScopeWire.ScopeRoundTrip(s);
      ScopeWire.ScopeHolds(s, ScopeWire.TemplateToJson(s));
    }
  }

  function OmitNoKeys(st: Keys): Option<Json> {
    if st.listed != [] then Some(JArr(KeysToJson(st))) else None
  }

  lemma KeyItemsRead(st: Keys)
    ensures ReadAll(ReadKey, KeysToJson(st)) == Ok(CallsFor(Sort(st.listed, Self), st.scopes))
  {
    var sorted := Sort(st.listed, Self);
    var items, calls := KeysToJson(st), CallsFor(sorted, st.scopes);
    forall i | 0 <= i < |items|
      ensures ReadKey(items[i]) == Ok(calls[i])
    {
      KeyReads(sorted[i], st.scopes);
    }
    ReadAllItems(ReadKey, items, calls);
  }

  lemma KeysRead(o: Obj, st: Keys)
    requires Get(o, "signing_keys") == OmitNoKeys(st)
    ensures ReadKeys(o) == Ok(RereadKeys(st))
  {
    if st.listed != [] {
      KeyItemsRead(st);
    }
  }

  /** The run over the calls of a key list: every listed key is there, in the same order, scoped
      keys once; a scope is there exactly for each listed scoped key. */
  lemma {:induction false} CallsRun(listed: seq<string>, scopes: map<string, UserScope>)
    requires forall k :: k in scopes ==> scopes[k].key == k
    ensures var r := RunKeys(CallsFor(listed, scopes));
      && (forall k :: k in r.listed <==> k in listed)
      && (forall k :: k in r.scopes <==> k in listed && k in scopes)
      && (forall k :: k in r.scopes ==> r.scopes[k] == ScopeWire.RereadScope(scopes[k]))
  {
    if listed != [] {
      var n := |listed| - 1;
      CallsRun(listed[..n], scopes);
      assert CallsFor(listed, scopes)[..n] == CallsFor(listed[..n], scopes);
      assert listed == listed[..n] + [listed[n]];
    }
  }

  /** No scoped key is listed twice. */
  predicate NoScopedRepeat(listed: seq<string>, scopes: map<string, UserScope>) {
    forall i, j :: 0 <= i < j < |listed| && listed[i] == listed[j] ==> listed[i] !in scopes
  }

  /** One more listed key. */
  lemma RunNext(init: seq<string>, k: string, scopes: map<string, UserScope>)
    requires forall k :: k in scopes ==> scopes[k].key == k
    ensures RunKeys(CallsFor(init + [k], scopes)) == ApplyKey(RunKeys(CallsFor(init, scopes)), CallFor(k, scopes))
    ensures RunKeys(CallsFor(init + [k], scopes)).listed
         == RunKeys(CallsFor(init, scopes)).listed + if k in scopes && k in init then [] else [k]
  {
    var calls := CallsFor(init + [k], scopes);
    assert calls[..|init|] == CallsFor(init, scopes);
    CallsRun(init, scopes);
  }

  lemma RepeatNext(init: seq<string>, k: string, scopes: map<string, UserScope>)
    ensures NoScopedRepeat(init + [k], scopes) <==> NoScopedRepeat(init, scopes) && !(k in scopes && k in init)
  {
    var listed := init + [k];
    assert forall i :: 0 <= i < |init| ==> listed[i] == init[i];
    assert listed[|init|] == k;
  }

  lemma {:induction false} CallsRunListed(listed: seq<string>, scopes: map<string, UserScope>)
    requires forall k :: k in scopes ==> scopes[k].key == k
    ensures |RunKeys(CallsFor(listed, scopes)).listed| <= |listed|
    ensures NoScopedRepeat(listed, scopes) <==> |RunKeys(CallsFor(listed, scopes)).listed| == |listed|
    ensures NoScopedRepeat(listed, scopes) ==> RunKeys(CallsFor(listed, scopes)).listed == listed
  {
    if listed != [] {
      var n := |listed| - 1;
      var init, k := listed[..n], listed[n];
      assert listed == init + [k];
      CallsRunListed(init, scopes);
      RunNext(init, k, scopes);
      RepeatNext(init, k, scopes);
    }
  }

  /** The same in terms of how often keys are listed. */
  lemma {:induction false} NoScopedRepeatExactly(listed: seq<string>, scopes: map<string, UserScope>)
    ensures NoScopedRepeat(listed, scopes) <==> forall k :: k in scopes ==> multiset(listed)[k] <= 1
  {
    if listed != [] {
      var n := |listed| - 1;
      var init, last := listed[..n], listed[n];
      NoScopedRepeatExactly(init, scopes);
      assert listed == init + [last];
      assert forall i :: 0 <= i < n ==> init[i] == listed[i];
      assert last in init <==> multiset(init)[last] > 0;
    }
  }

  lemma {:induction false} CallsRunSorted(listed: seq<string>, scopes: map<string, UserScope>)
    requires Sorted(listed, Self) && forall k :: k in scopes ==> scopes[k].key == k
    ensures Sorted(RunKeys(CallsFor(listed, scopes)).listed, Self)
  {
    if listed != [] {
      var n := |listed| - 1;
      var init, k := listed[..n], listed[n];
      CallsRunSorted(init, scopes);
      CallsRun(init, scopes);
      assert CallsFor(listed, scopes)[..n] == CallsFor(init, scopes);
      var before := RunKeys(CallsFor(init, scopes)).listed;
      forall i | 0 <= i < |before|
        ensures AtMost(Self(before[i]), Self(k))
      {
        assert before[i] in init;
        var j :| 0 <= j < n && init[j] == before[i];
        assert AtMost(Self(listed[j]), Self(listed[n]));
      }
    }
  }

  /** Re-read keys: the same keys and scopes, in order, scoped keys once, zero limits lifted. */
  lemma RereadKeysExactly(st: Keys)
    requires Consistent(st)
    ensures var r := RereadKeys(st);
      && Consistent(r)
      && Sorted(r.listed, Self)
      && (forall k :: k in r.listed <==> k in st.listed)
      && r.scopes == map k | k in st.scopes :: ScopeWire.RereadScope(st.scopes[k])
  {
    var sorted := Sort(st.listed, Self);
    SortSorted(st.listed, Self);
    SortMembers(st.listed);
    CallsRun(sorted, st.scopes);
    CallsRunSorted(sorted, st.scopes);
    KeysConsistent(CallsFor(sorted, st.scopes));
  }

  lemma SortMembers(listed: seq<string>)
    ensures forall k :: k in Sort(listed, Self) <==> k in listed
  {
    forall k
      ensures k in Sort(listed, Self) <==> k in listed
    {
      assert k in Sort(listed, Self) <==> k in multiset(Sort(listed, Self));
      assert k in listed <==> k in multiset(listed);
    }
  }

  /** Reading what was re-read changes nothing more. */
  lemma RereadKeysTwice(st: Keys)
    requires Consistent(st)
    ensures RereadKeys(RereadKeys(st)) == RereadKeys(st)
  {
    RereadKeysExactly(st);
    RereadListedTwice(st);
    RereadScopesTwice(st);
  }

  lemma RereadListedTwice(st: Keys)
    requires Consistent(st)
    ensures RereadKeys(RereadKeys(st)).listed == RereadKeys(st).listed
  {
    var r := RereadKeys(st);
    RereadKeysExactly(st);
    RunHasNoRepeat(Sort(st.listed, Self), st.scopes);
    SortOfSorted(r.listed, Self);
    CallsRunListed(r.listed, r.scopes);
  }

  lemma RereadScopesTwice(st: Keys)
    requires Consistent(st)
    ensures RereadKeys(RereadKeys(st)).scopes == RereadKeys(st).scopes
  {
    var r := RereadKeys(st);
    RereadKeysExactly(st);
    RereadKeysExactly(r);
    RereadScopesStable(st.scopes, r.scopes, RereadKeys(r).scopes);
  }

  lemma RereadScopesStable(a: map<string, UserScope>, b: map<string, UserScope>, c: map<string, UserScope>)
    requires b == map k | k in a :: ScopeWire.RereadScope(a[k])
    requires c == map k | k in b :: ScopeWire.RereadScope(b[k])
    ensures c == b
  {
    forall k | k in b
      ensures c[k] == b[k]
    {
      ScopeWire.RereadTwice(a[k]);
    }
  }

  lemma {:induction false} RunHasNoRepeat(listed: seq<string>, scopes: map<string, UserScope>)
    requires forall k :: k in scopes ==> scopes[k].key == k
    ensures NoScopedRepeat(RunKeys(CallsFor(listed, scopes)).listed, scopes)
  {
    if listed != [] {
      var n := |listed| - 1;
      RunHasNoRepeat(listed[..n], scopes);
      assert CallsFor(listed, scopes)[..n] == CallsFor(listed[..n], scopes);
    }
  }

  // ---------------- the account object ----------------

  const MANAGED := {
    "limits", "default_permissions", "mappings", "exports", "imports", "revocations", "authorization",
    "description", "info_url", "signing_keys", "tags", "type", "version"}

  /** The members that are objects or arrays themselves, as they are written. */
  datatype Written = Written(
    limits: Obj, permissions: Obj, mappings: Option<Json>, exports: Option<Json>,
    imports: Option<Json>, revocations: Option<Json>, authorization: Obj, keys: Option<Json>)

  function SubjectOfExport(e: Export): string {
    e.subject
  }

  function SubjectOfImport(i: Import): string {
    i.subject
  }

  function ExportItems(exports: seq<Export>): (items: seq<Json>)
    ensures |items| == |exports|
    ensures forall i :: 0 <= i < |exports| ==> items[i] == Parts.ExportToJson(exports[i])
  {
    seq(|exports|, i requires 0 <= i < |exports| => Parts.ExportToJson(exports[i]))
  }

  function ImportItems(imports: seq<Import>): (items: seq<Json>)
    ensures |items| == |imports|
    ensures forall i :: 0 <= i < |imports| ==> items[i] == Parts.ImportToJson(imports[i])
  {
    seq(|imports|, i requires 0 <= i < |imports| => Parts.ImportToJson(imports[i]))
  }

  function ExportsToJson(exports: seq<Export>): Option<Json> {
    if exports != [] then Some(JArr(ExportItems(Sort(exports, SubjectOfExport)))) else None
  }

  function ImportsToJson(imports: seq<Import>): Option<Json> {
    if imports != [] then Some(JArr(ImportItems(Sort(imports, SubjectOfImport)))) else None
  }

  function PermissionsToJson(p: Permissions): Obj {
    Build({"pub", "sub", "resp"}, k => ScopeWire.PermissionsMember(p, k))
  }

  function Write(a: Account): Written {
    Written(
      Parts.LimitsToJson(a.limits),
      PermissionsToJson(a.defaultPermissions),
      if a.mappings != map[] then Some(JObj(Parts.MappingsToJson(a.mappings))) else None,
      ExportsToJson(a.exports),
      ImportsToJson(a.imports),
      Parts.OmitNoNumbers(a.revocations),
      Parts.AuthorizationToJson(a.authorization),
      OmitNoKeys(a.keys))
  }

  function NatsMember(a: Account, w: Written, k: string): Option<Json> {
    if k == "limits" then Some(JObj(w.limits))
    else if k == "default_permissions" then Some(JObj(w.permissions))
    else if k == "mappings" then w.mappings
    else if k == "exports" then w.exports
    else if k == "imports" then w.imports
    else if k == "revocations" then w.revocations
    else if k == "authorization" then Some(JObj(w.authorization))
    else if k == "description" then OmitEmpty(a.description)
    else if k == "info_url" then OmitEmpty(a.infoURL)
    else if k == "signing_keys" then w.keys
    else if k == "tags" then OmitNoStrings(a.tags)
    else if k == "type" then Some(JStr("account"))
    else if k == "version" then Some(JInt(2))
    else None
  }

  predicate HoldsAccount(o: Obj, a: Account, w: Written) {
    && Get(o, "limits") == Some(JObj(w.limits))
    && Get(o, "default_permissions") == Some(JObj(w.permissions))
    && Get(o, "mappings") == w.mappings
    && Get(o, "exports") == w.exports
    && Get(o, "imports") == w.imports
    && Get(o, "revocations") == w.revocations
    && Get(o, "authorization") == Some(JObj(w.authorization))
    && Get(o, "description") == OmitEmpty(a.description)
    && Get(o, "info_url") == OmitEmpty(a.infoURL)
    && Get(o, "signing_keys") == w.keys
    && Get(o, "tags") == OmitNoStrings(a.tags)
    && Get(o, "type") == Some(JStr("account"))
    && Get(o, "version") == Some(JInt(2))
  }

  /** The carried object with the managed members written over it. */
  function NatsObject(raw: Obj, a: Account, w: Written): Obj {
    Overwrite(raw, MANAGED, k => NatsMember(a, w, k))
  }

  /** The `nats` object `encodeWithSigner` writes. */
  function EncodeNats(raw: Obj, a: Account): Obj {
    NatsObject(raw, a, Write(a))
  }

  // ---------------- decoding ----------------

  function ReadLimits(o: Obj): Result<AccountLimits> {
    var member :- ObjectField(o, "limits");
    match member
    case None => Ok(AccountLimits(0, 0, 0, 0, 0, false, false, 0, 0, NO_JETSTREAM, map[]))
    case Some(l) => Parts.LimitsFromJson(l)
  }

  function ReadDefaultPermissions(o: Obj): Result<Permissions> {
    var member :- ObjectField(o, "default_permissions");
    match member
    case None => Ok(NO_PERMISSIONS)
    case Some(p) => ScopeWire.ReadPermissions(p)
  }

  function ReadMappings(o: Obj): Result<map<string, seq<WeightedMapping>>> {
    var member :- ObjectField(o, "mappings");
    match member
    case None => Ok(map[])
    case Some(m) => ReadMembers(Parts.DestinationsFromJson, m)
  }

  function ReadList<T>(read: Json -> Result<T>, o: Obj, k: string): Result<seq<T>> {
    var member :- ArrayField(o, k);
    match member
    case None => Ok([])
    case Some(items) => ReadAll(read, items)
  }

  function ReadAuthorization(o: Obj): Result<ExternalAuthorization> {
    var member :- ObjectField(o, "authorization");
    match member
    case None => Ok(NO_AUTHORIZATION)
    case Some(a) => Parts.AuthorizationFromJson(a)
  }

  /** What the readers gave, put together; the first failure is the outcome. */
  function Assemble(
    kind: Result<bool>, limits: Result<AccountLimits>, permissions: Result<Permissions>,
    mappings: Result<map<string, seq<WeightedMapping>>>, exports: Result<seq<Export>>,
    imports: Result<seq<Import>>, revocations: Result<map<string, int64>>,
    authorization: Result<ExternalAuthorization>, description: Result<string>, infoURL: Result<string>,
    tags: Result<seq<string>>, keys: Result<Keys>): Result<Account>
  {
    var _ :- kind;
    var limits :- limits;
    var permissions :- permissions;
    var mappings :- mappings;
    var exports :- exports;
    var imports :- imports;
    var revocations :- revocations;
    var authorization :- authorization;
    var description :- description;
    var infoURL :- infoURL;
    var tags :- tags;
    var keys :- keys;
    Ok(Account(limits, permissions, mappings, exports, imports, revocations, authorization,
               description, infoURL, keys, tags))
  }

  /** What `decodeAccountClaims` reads from the `nats` object, in its order. */
  function DecodeNats(o: Obj): Result<Account> {
    Assemble(
      CheckType(o, "account"), ReadLimits(o), ReadDefaultPermissions(o), ReadMappings(o),
      ReadList(Parts.ExportFromJson, o, "exports"), ReadList(Parts.ImportFromJson, o, "imports"),
      Parts.ReadRevocations(o), ReadAuthorization(o), StringValue(o, "description"),
      StringValue(o, "info_url"), StringsField(o, "tags"), ReadKeys(o))
  }

  // ---------------- the round trip ----------------

  lemma NatsHolds(raw: Obj, a: Account, w: Written)
    ensures HoldsAccount(NatsObject(raw, a, w), a, w)
  {
  }

  /** Members the account does not manage survive; managed ones depend on the typed fields only. */
  lemma CarryLayer(raw: Obj, raw': Obj, a: Account, k: string)
    ensures k !in MANAGED ==> Get(EncodeNats(raw, a), k) == Get(raw, k)
    ensures k in MANAGED ==> Get(EncodeNats(raw, a), k) == Get(EncodeNats(raw', a), k)
  {
  }

  /** The account that comes back: exports and imports sorted, flat JetStream limits zeroed next to
      tiers, keys re-read. */
  function RereadAccount(a: Account): Account {
    a.(limits := Parts.RereadTiers(a.limits),
       exports := Sort(a.exports, SubjectOfExport),
       imports := Sort(a.imports, SubjectOfImport),
       keys := RereadKeys(a.keys))
  }

  predicate AllSamplingOk(exports: seq<Export>) {
    forall i :: 0 <= i < |exports| ==> Parts.SamplingOk(exports[i])
  }

  lemma SortedSamplingOk(exports: seq<Export>)
    ensures AllSamplingOk(Sort(exports, SubjectOfExport)) <==> AllSamplingOk(exports)
  {
    var sorted := Sort(exports, SubjectOfExport);
    forall e
      ensures e in sorted <==> e in exports
    {
      assert e in sorted <==> e in multiset(sorted);
      assert e in exports <==> e in multiset(exports);
    }
    assert AllSamplingOk(exports) <==> forall e :: e in exports ==> Parts.SamplingOk(e);
    assert AllSamplingOk(sorted) <==> forall e :: e in sorted ==> Parts.SamplingOk(e);
  }

  lemma ExportItemsRead(exports: seq<Export>)
    ensures ReadAll(Parts.ExportFromJson, ExportItems(exports))
         == if AllSamplingOk(exports) then Ok(exports) else Err(Malformed)
  {
    var items := ExportItems(exports);
    forall i | 0 <= i < |items|
      ensures Parts.ExportFromJson(items[i])
           == if Parts.SamplingOk(exports[i]) then Ok(exports[i]) else Err(Malformed)
    {
      Parts.ExportRoundTripExactly(exports[i]);
    }
    if AllSamplingOk(exports) {
      ReadAllItems(Parts.ExportFromJson, items, exports);
    } else {
      var bad :| 0 <= bad < |exports| && !Parts.SamplingOk(exports[bad]);
      ReadAllFails(Parts.ExportFromJson, items, bad);
    }
  }

  lemma ImportItemsRead(imports: seq<Import>)
    ensures ReadAll(Parts.ImportFromJson, ImportItems(imports)) == Ok(imports)
  {
    var items := ImportItems(imports);
    forall i | 0 <= i < |items|
      ensures Parts.ImportFromJson(items[i]) == Ok(imports[i])
    {
      Parts.ImportRoundTrip(imports[i]);
    }
    ReadAllItems(Parts.ImportFromJson, items, imports);
  }

  lemma ListReads<T>(read: Json -> Result<T>, o: Obj, k: string, items: seq<Json>)
    requires Get(o, k) == Some(JArr(items))
    ensures ReadList(read, o, k) == ReadAll(read, items)
  {
  }

  lemma ExportsRead(o: Obj, exports: seq<Export>)
    requires Get(o, "exports") == ExportsToJson(exports)
    ensures ReadList(Parts.ExportFromJson, o, "exports")
         == if AllSamplingOk(exports) then Ok(Sort(exports, SubjectOfExport)) else Err(Malformed)
  {
    if exports != [] {
      var sorted := Sort(exports, SubjectOfExport);
      SortedSamplingOk(exports);
      ExportItemsRead(sorted);
      ListReads(Parts.ExportFromJson, o, "exports", ExportItems(sorted));
    }
  }

  lemma ImportsRead(o: Obj, imports: seq<Import>)
    requires Get(o, "imports") == ImportsToJson(imports)
    ensures ReadList(Parts.ImportFromJson, o, "imports") == Ok(Sort(imports, SubjectOfImport))
  {
    if imports != [] {
      var sorted := Sort(imports, SubjectOfImport);
      ImportItemsRead(sorted);
      ListReads(Parts.ImportFromJson, o, "imports", ImportItems(sorted));
    }
  }

  lemma LimitsReadBack(o: Obj, l: AccountLimits)
    requires Get(o, "limits") == Some(JObj(Parts.LimitsToJson(l)))
    ensures ReadLimits(o) == Ok(Parts.RereadTiers(l))
  {
    Parts.LimitsRoundTrip(l);
  }

  lemma PermissionsHold(p: Permissions)
    ensures ScopeWire.HoldsPermissions(PermissionsToJson(p), p)
  {
  }

  lemma PermissionsReadBack(o: Obj, p: Permissions)
    requires Get(o, "default_permissions") == Some(JObj(PermissionsToJson(p)))
    ensures ReadDefaultPermissions(o) == Ok(p)
  {
    PermissionsHold(p);
    ScopeWire.PermissionsRead(PermissionsToJson(p), p);
  }

  lemma MappingsReadBack(o: Obj, m: map<string, seq<WeightedMapping>>)
    requires Get(o, "mappings") == if m != map[] then Some(JObj(Parts.MappingsToJson(m))) else None
    ensures ReadMappings(o) == Ok(m)
  {
    Parts.MappingsRoundTrip(m);
  }

  lemma AuthorizationReadBack(o: Obj, a: ExternalAuthorization)
    requires Get(o, "authorization") == Some(JObj(Parts.AuthorizationToJson(a)))
    ensures ReadAuthorization(o) == Ok(a)
  {
    Parts.AuthorizationRoundTrip(a);
  }

  /** What each reader gives, together. */
  predicate ReadsObjects(o: Obj, r: Account) {
    && ReadLimits(o) == Ok(r.limits)
    && ReadDefaultPermissions(o) == Ok(r.defaultPermissions)
    && ReadMappings(o) == Ok(r.mappings)
    && ReadList(Parts.ImportFromJson, o, "imports") == Ok(r.imports)
    && Parts.ReadRevocations(o) == Ok(r.revocations)
    && ReadAuthorization(o) == Ok(r.authorization)
    && ReadKeys(o) == Ok(r.keys)
  }

  predicate ReadsDetails(o: Obj, r: Account) {
    && CheckType(o, "account").Ok?
    && StringValue(o, "description") == Ok(r.description)
    && StringValue(o, "info_url") == Ok(r.infoURL)
    && StringsField(o, "tags") == Ok(r.tags)
  }

  predicate Reads(o: Obj, r: Account) {
    ReadsObjects(o, r) && ReadsDetails(o, r)
  }

  lemma ReadsDecode(o: Obj, r: Account)
    requires Reads(o, r)
    ensures ReadList(Parts.ExportFromJson, o, "exports") == Ok(r.exports) ==> DecodeNats(o) == Ok(r)
    ensures ReadList(Parts.ExportFromJson, o, "exports") == Err(Malformed) ==> DecodeNats(o) == Err(Malformed)
  {
  }

  /** Everything but the exports reads back. */
  lemma AccountReads(o: Obj, a: Account, w: Written)
    requires HoldsAccount(o, a, w) && w == Write(a)
    ensures Reads(o, RereadAccount(a))
  {
    AccountObjectsRead(o, a, w);
    AccountDetailsRead(o, a, w);
  }

  lemma AccountObjectsRead(o: Obj, a: Account, w: Written)
    requires HoldsAccount(o, a, w) && w == Write(a)
    ensures ReadsObjects(o, RereadAccount(a))
  {
    LimitsReadBack(o, a.limits);
    PermissionsReadBack(o, a.defaultPermissions);
    MappingsReadBack(o, a.mappings);
    ImportsRead(o, a.imports);
    Parts.RevocationsRead(o, a.revocations);
    AuthorizationReadBack(o, a.authorization);
    KeysRead(o, a.keys);
  }

  lemma AccountDetailsRead(o: Obj, a: Account, w: Written)
    requires HoldsAccount(o, a, w)
    ensures ReadsDetails(o, RereadAccount(a))
  {
    StringReads(o, "description", a.description);
    StringReads(o, "info_url", a.infoURL);
    StringsFieldReads(o, "tags", a.tags);
  }

  /** Decoding what was encoded succeeds if and only if every sampling rate is a percentage, and
      then gives the re-read account. */
  lemma AccountRoundTripExactly(raw: Obj, a: Account)
    ensures DecodeNats(EncodeNats(raw, a))
         == if AllSamplingOk(a.exports) then Ok(RereadAccount(a)) else Err(Malformed)
  {
    var o := EncodeNats(raw, a);
    NatsHolds(raw, a, Write(a));
    ExportsRead(o, a.exports);
    AccountReads(o, a, Write(a));
    ReadsDecode(o, RereadAccount(a));
  }

  // ---------------- decode, then encode ----------------

  /** What is read back is read back unchanged from then on. */
  lemma RereadAccountTwice(a: Account)
    requires Consistent(a.keys)
    ensures RereadAccount(RereadAccount(a)) == RereadAccount(a)
    ensures AllSamplingOk(RereadAccount(a).exports) <==> AllSamplingOk(a.exports)
  {
    SortSorted(a.exports, SubjectOfExport);
    SortOfSorted(Sort(a.exports, SubjectOfExport), SubjectOfExport);
    SortSorted(a.imports, SubjectOfImport);
    SortOfSorted(Sort(a.imports, SubjectOfImport), SubjectOfImport);
    RereadKeysTwice(a.keys);
    SortedSamplingOk(a.exports);
  }

  /** The account an encoder's own output decodes to comes back as it is. */
  lemma DecodedAccountIsStable(raw: Obj, a: Account)
    requires Consistent(a.keys) && AllSamplingOk(a.exports)
    ensures DecodeNats(EncodeNats(raw, RereadAccount(a))) == Ok(RereadAccount(a))
  {
    RereadAccountTwice(a);
    AccountRoundTripExactly(raw, RereadAccount(a));
  }

  /** The cases in which decoding and encoding again changes the object: flat JetStream limits
      next to tiers, a scoped key listed twice, a zero limit in the scope of a listed key. */
  predicate FixedPoint(a: Account) {
    && Parts.OneJetStream(a.limits)
    && NoScopedRepeat(a.keys.listed, a.keys.scopes)
    && forall k :: k in a.keys.scopes ==> ScopeWire.NoZeroLimit(a.keys.scopes[k])
  }

  lemma ListedOnceSorted(st: Keys)
    ensures NoScopedRepeat(Sort(st.listed, Self), st.scopes) <==> NoScopedRepeat(st.listed, st.scopes)
  {
    NoScopedRepeatExactly(st.listed, st.scopes);
    NoScopedRepeatExactly(Sort(st.listed, Self), st.scopes);
  }

  lemma ScopesKept(st: Keys)
    requires Consistent(st) && forall k :: k in st.scopes ==> ScopeWire.NoZeroLimit(st.scopes[k])
    ensures RereadKeys(st).scopes == st.scopes
  {
    RereadKeysExactly(st);
    var r := RereadKeys(st).scopes;
    forall k | k in st.scopes
      ensures k in r && r[k] == st.scopes[k]
    {
      assert ScopeWire.NoZeroLimit(st.scopes[k]);
    }
  }

  /** Keys that come back as they were, up to order. */
  lemma KeysKept(st: Keys)
    requires Consistent(st) && NoScopedRepeat(st.listed, st.scopes)
    requires forall k :: k in st.scopes ==> ScopeWire.NoZeroLimit(st.scopes[k])
    ensures RereadKeys(st) == st.(listed := Sort(st.listed, Self))
  {
    ListedOnceSorted(st);
    CallsRunListed(Sort(st.listed, Self), st.scopes);
    ScopesKept(st);
  }

  lemma KeysRewritten(st: Keys)
    requires Consistent(st) && NoScopedRepeat(st.listed, st.scopes)
    requires forall k :: k in st.scopes ==> ScopeWire.NoZeroLimit(st.scopes[k])
    ensures OmitNoKeys(RereadKeys(st)) == OmitNoKeys(st)
  {
    KeysKept(st);
    SortSorted(st.listed, Self);
    SortOfSorted(Sort(st.listed, Self), Self);
  }

  lemma KeysRewrittenOnly(st: Keys)
    requires Consistent(st) && OmitNoKeys(RereadKeys(st)) == OmitNoKeys(st)
    ensures NoScopedRepeat(st.listed, st.scopes)
    ensures forall k :: k in st.scopes ==> ScopeWire.NoZeroLimit(st.scopes[k])
  {
    var r, sorted := RereadKeys(st), Sort(st.listed, Self);
    RereadKeysExactly(st);
    SortOfSorted(r.listed, Self);
    assert |KeysToJson(r)| == |KeysToJson(st)|;
    CallsRunListed(sorted, st.scopes);
    ListedOnceSorted(st);
    SortMembers(st.listed);
    forall k | k in st.scopes
      ensures ScopeWire.NoZeroLimit(st.scopes[k])
    {
      var i :| 0 <= i < |sorted| && sorted[i] == k;
      SameKeyItem(r, st, i);
    }
  }

  /** A scope written the same way again has no zero limit. */
  lemma SameKeyItem(r: Keys, st: Keys, i: nat)
    requires i < |Sort(st.listed, Self)| == |Sort(r.listed, Self)| && KeysToJson(r) == KeysToJson(st)
    requires var k := Sort(st.listed, Self)[i];
      Sort(r.listed, Self)[i] == k && k in st.scopes && k in r.scopes
      && r.scopes[k] == ScopeWire.RereadScope(st.scopes[k])
    ensures ScopeWire.NoZeroLimit(st.scopes[Sort(st.listed, Self)[i]])
  {
    var k := Sort(st.listed, Self)[i];
    assert KeysToJson(r)[i] == KeysToJson(st)[i];
    ScopeWire.ScopeRewrittenExactly(st.scopes[k]);
  }

  /** Encoding the decoded account over the decoded object gives the object back if and only if
      none of those cases applies. */
  lemma ReencodedExactly(raw: Obj, a: Account)
    requires Consistent(a.keys)
    ensures EncodeNats(EncodeNats(raw, a), RereadAccount(a)) == EncodeNats(raw, a) <==> FixedPoint(a)
  {
    if FixedPoint(a) {
      SameWritten(a);
      SameObject(raw, a, RereadAccount(a), Write(a));
    }
    if EncodeNats(EncodeNats(raw, a), RereadAccount(a)) == EncodeNats(raw, a) {
      ReencodedOnly(raw, a);
    }
  }

  lemma ReencodedOnly(raw: Obj, a: Account)
    requires Consistent(a.keys)
    requires EncodeNats(EncodeNats(raw, a), RereadAccount(a)) == EncodeNats(raw, a)
    ensures FixedPoint(a)
  {
    var r := RereadAccount(a);
    SameParts(raw, EncodeNats(raw, a), a, r, Write(a), Write(r));
    Parts.LimitsRewrittenExactly(a.limits);
    KeysRewrittenOnly(a.keys);
  }

  lemma SameParts(raw: Obj, raw': Obj, a: Account, a': Account, w: Written, w': Written)
    requires NatsObject(raw', a', w') == NatsObject(raw, a, w)
    ensures w'.limits == w.limits && w'.keys == w.keys
  {
    NatsHolds(raw, a, w);
    NatsHolds(raw', a', w');
  }

  lemma SameWritten(a: Account)
    requires Consistent(a.keys) && FixedPoint(a)
    ensures Write(RereadAccount(a)) == Write(a)
  {
    Parts.LimitsRewrittenExactly(a.limits);
    SortSorted(a.exports, SubjectOfExport);
    SortOfSorted(Sort(a.exports, SubjectOfExport), SubjectOfExport);
    SortSorted(a.imports, SubjectOfImport);
    SortOfSorted(Sort(a.imports, SubjectOfImport), SubjectOfImport);
    KeysRewritten(a.keys);
  }

  lemma SameMember(a: Account, r: Account, w: Written, k: string)
    requires r.description == a.description && r.infoURL == a.infoURL && r.tags == a.tags
    ensures NatsMember(r, w, k) == NatsMember(a, w, k)
  {
  }

  /** Writing the same members again changes nothing. */
  lemma SameObject(raw: Obj, a: Account, r: Account, w: Written)
    requires r.description == a.description && r.infoURL == a.infoURL && r.tags == a.tags
    ensures NatsObject(NatsObject(raw, a, w), r, w) == NatsObject(raw, a, w)
  {
    var o := NatsObject(raw, a, w);
    var o' := NatsObject(o, r, w);
    forall k
      ensures Get(o', k) == Get(o, k)
    {
      SameMember(a, r, w, k);
    }
    SameMembers(o, o');
  }

  // ---------------- accounts that were decoded ----------------

  lemma DecodedParts(o: Obj, a: Account)
    requires DecodeNats(o) == Ok(a)
    ensures ReadLimits(o) == Ok(a.limits) && ReadKeys(o) == Ok(a.keys)
    ensures ReadList(Parts.ExportFromJson, o, "exports") == Ok(a.exports)
  {
    DecodedReaders(o, a);
  }

  lemma DecodedSampling(o: Obj, exports: seq<Export>)
    requires ReadList(Parts.ExportFromJson, o, "exports") == Ok(exports)
    ensures AllSamplingOk(exports)
  {
    var member := ArrayField(o, "exports").value;
    if member.Some? {
      ReadAllRead(Parts.ExportFromJson, member.value, exports);
      forall i | 0 <= i < |exports|
        ensures Parts.SamplingOk(exports[i])
      {
        Parts.ReadSamplingOk(member.value[i], exports[i]);
      }
    }
  }

  lemma DecodedKeys(o: Obj, st: Keys)
    requires ReadKeys(o) == Ok(st)
    ensures Consistent(st)
  {
    var member := ArrayField(o, "signing_keys").value;
    if member.Some? {
      KeysConsistent(ReadAll(ReadKey, member.value).value);
    }
  }

  lemma DecodedLimits(o: Obj, l: AccountLimits)
    requires ReadLimits(o) == Ok(l)
    ensures Parts.OneJetStream(l)
  {
    var member := ObjectField(o, "limits").value;
    if member.Some? {
      Parts.ReadLimitsOnce(member.value, l);
    }
  }

  /** Whoever wrote the object: a decoded account has consistent keys, percentages for sampling
      rates, and no flat JetStream limits next to tiers. */
  lemma DecodedIsFit(o: Obj, a: Account)
    requires DecodeNats(o) == Ok(a)
    ensures Consistent(a.keys) && AllSamplingOk(a.exports) && Parts.OneJetStream(a.limits)
  {
    DecodedParts(o, a);
    DecodedSampling(o, a.exports);
    DecodedKeys(o, a.keys);
    DecodedLimits(o, a.limits);
  }

  /** So it can be encoded and decoded again, which re-reads it; and from then on nothing changes. */
  lemma DecodedRoundTrip(o: Obj, a: Account, raw: Obj)
    requires DecodeNats(o) == Ok(a)
    ensures DecodeNats(EncodeNats(o, a)) == Ok(RereadAccount(a))
    ensures DecodeNats(EncodeNats(raw, RereadAccount(a))) == Ok(RereadAccount(a))
  {
    DecodedIsFit(o, a);
    AccountRoundTripExactly(o, a);
    RereadAccountTwice(a);
    AccountRoundTripExactly(raw, RereadAccount(a));
  }

  /** An account whose exports, imports and keys are in order, scoped keys listed once, no limit of
      a scope 0. */
  ghost predicate Settled(a: Account) {
    && Sorted(a.exports, SubjectOfExport) && Sorted(a.imports, SubjectOfImport)
    && Sorted(a.keys.listed, Self)
    && NoScopedRepeat(a.keys.listed, a.keys.scopes)
    && forall k :: k in a.keys.scopes ==> ScopeWire.NoZeroLimit(a.keys.scopes[k])
  }

  /** The first round trip changes a decoded account if and only if it is not settled: a foreign
      encoder need not sort. */
  lemma DecodedUnchangedExactly(o: Obj, a: Account)
    requires DecodeNats(o) == Ok(a)
    ensures DecodeNats(EncodeNats(o, a)) == Ok(a) <==> Settled(a)
  {
    DecodedIsFit(o, a);
    AccountRoundTripExactly(o, a);
    SortedUnchangedExactly(a.exports, SubjectOfExport);
    SortedUnchangedExactly(a.imports, SubjectOfImport);
    KeysUnchangedExactly(a.keys);
    Parts.LimitsRoundTrip(a.limits);
  }

  lemma SortedUnchangedExactly<T>(xs: seq<T>, key: T -> string)
    ensures Sort(xs, key) == xs <==> Sorted(xs, key)
  {
    SortSorted(xs, key);
    if Sorted(xs, key) {
      SortOfSorted(xs, key);
    }
  }

  lemma KeysUnchangedExactly(st: Keys)
    requires Consistent(st)
    ensures RereadKeys(st) == st <==>
      && Sorted(st.listed, Self)
      && NoScopedRepeat(st.listed, st.scopes)
      && forall k :: k in st.scopes ==> ScopeWire.NoZeroLimit(st.scopes[k])
  {
    RereadKeysExactly(st);
    if RereadKeys(st) == st {
      SortOfSorted(st.listed, Self);
      CallsRunListed(st.listed, st.scopes);
      forall k | k in st.scopes
        ensures ScopeWire.NoZeroLimit(st.scopes[k])
      {
        assert ScopeWire.RereadScope(st.scopes[k]) == st.scopes[k];
        ScopeWire.RereadTwice(st.scopes[k]);
      }
    } else if NoScopedRepeat(st.listed, st.scopes)
      && forall k :: k in st.scopes ==> ScopeWire.NoZeroLimit(st.scopes[k]) {
      KeysKept(st);
      SortedUnchangedExactly(st.listed, Self);
    }
  }

  /** Encoding what was decoded, over the object it was decoded from: a second time gives the same
      object again if and only if no scoped key is repeated and no limit of a scope is 0; from then
      on always. */
  lemma DecodedReencodedExactly(o: Obj, a: Account)
    requires DecodeNats(o) == Ok(a)
    ensures EncodeNats(EncodeNats(o, a), RereadAccount(a)) == EncodeNats(o, a) <==>
      && NoScopedRepeat(a.keys.listed, a.keys.scopes)
      && forall k :: k in a.keys.scopes ==> ScopeWire.NoZeroLimit(a.keys.scopes[k])
    ensures var o' := EncodeNats(EncodeNats(o, a), RereadAccount(a));
      EncodeNats(o', RereadAccount(a)) == o'
  {
    DecodedIsFit(o, a);
    ReencodedExactly(o, a);
    SameObject(EncodeNats(o, a), RereadAccount(a), RereadAccount(a), Write(RereadAccount(a)));
  }

  /** Through decoding and encoding, members the account does not manage survive. */
  lemma CarriedThrough(o: Obj, a: Account)
    requires DecodeNats(o) == Ok(a)
    ensures forall k :: k !in MANAGED ==> Get(EncodeNats(o, a), k) == Get(o, k)
    ensures forall k :: k !in MANAGED ==>
      Get(EncodeNats(EncodeNats(o, a), RereadAccount(a)), k) == Get(o, k)
    ensures DecodeNats(EncodeNats(o, a)) == Ok(RereadAccount(a))
  {
    DecodedRoundTrip(o, a, o);
    forall k | k !in MANAGED
      ensures Get(EncodeNats(o, a), k) == Get(o, k)
      ensures Get(EncodeNats(EncodeNats(o, a), RereadAccount(a)), k) == Get(o, k)
    {
      CarryLayer(o, o, a, k);
      CarryLayer(EncodeNats(o, a), o, RereadAccount(a), k);
    }
  }

  // ---------------- an account that is not settled ----------------

  function BareExport(subject: string): Export {
    Export("", subject, Unknown, false, map[], "", 0, None, 0, false, false, "", "")
  }

  lemma BareExportReads(subject: string, v: Json)
    requires v == JObj(map["subject" := JStr(subject)])
    ensures Parts.ExportFromJson(v) == Ok(BareExport(subject))
  {
    assert forall k :: k != "subject" ==> Get(v.members, k) == None;
  }

  /** An object with exports and nothing else. */
  lemma OnlyExportsRead(o: Obj, exports: seq<Export>)
    requires Get(o, "type") == Some(JStr("account"))
    requires forall k :: k != "type" && k != "exports" ==> Get(o, k) == None
    requires ReadList(Parts.ExportFromJson, o, "exports") == Ok(exports)
    ensures DecodeNats(o) == Ok(Account(
      AccountLimits(0, 0, 0, 0, 0, false, false, 0, 0, NO_JETSTREAM, map[]), NO_PERMISSIONS, map[], exports,
      [], map[], NO_AUTHORIZATION, "", "", Keys([], map[]), []))
  {
  }

  /** A foreign object that lists export `b` before `a` is read in that order, so the first round
      trip changes the account. */
  lemma UnsortedExports(o: Obj, b: Json, a: Json)
    requires b == JObj(map["subject" := JStr("b")]) && a == JObj(map["subject" := JStr("a")])
    requires o == map["type" := JStr("account"), "exports" := JArr([b, a])]
    ensures DecodeNats(o).Ok? && DecodeNats(o).value.exports == [BareExport("b"), BareExport("a")]
    ensures DecodeNats(EncodeNats(o, DecodeNats(o).value)) != DecodeNats(o)
  {
    var items, exports := [b, a], [BareExport("b"), BareExport("a")];
    BareExportReads("b", b);
    BareExportReads("a", a);
    ReadAllItems(Parts.ExportFromJson, items, exports);
    assert forall k :: k != "type" && k != "exports" ==> Get(o, k) == None;
    OnlyExportsRead(o, exports);
    UnsortedChanged(o, DecodeNats(o).value);
  }

  lemma UnsortedChanged(o: Obj, a: Account)
    requires DecodeNats(o) == Ok(a) && a.exports == [BareExport("b"), BareExport("a")]
    ensures DecodeNats(EncodeNats(o, a)) != Ok(a)
  {
    DecodedUnchangedExactly(o, a);
    assert !AtMost(SubjectOfExport(a.exports[0]), SubjectOfExport(a.exports[1]));
  }

  // ---------------- names, order, and what is left out ----------------

  /** The members of `nats` that belong to the typed account; all others are carried. */
  lemma ManagedExactly(k: string)
    ensures k in MANAGED <==>
      || k == "limits" || k == "default_permissions" || k == "mappings" || k == "exports" || k == "imports"
      || k == "revocations" || k == "authorization" || k == "description" || k == "info_url"
      || k == "signing_keys" || k == "tags" || k == "type" || k == "version"
  {
  }

  /** The names under which an account is written over any object, and what is left out: empty lists
      and maps, but neither limits nor permissions nor authorization. */
  lemma WrittenExactly(raw: Obj, a: Account)
    ensures var o := EncodeNats(raw, a);
      && Get(o, "type") == Some(JStr("account")) && Get(o, "version") == Some(JInt(2))
      && "limits" in o && "default_permissions" in o && "authorization" in o
      && ("mappings" in o <==> a.mappings != map[])
      && ("exports" in o <==> a.exports != [])
      && ("imports" in o <==> a.imports != [])
      && ("revocations" in o <==> a.revocations != map[])
      && ("signing_keys" in o <==> a.keys.listed != [])
  {
    NatsHolds(raw, a, Write(a));
    WrittenParts(a);
    HeldExactly(EncodeNats(raw, a), a, Write(a));
  }

  lemma HeldExactly(o: Obj, a: Account, w: Written)
    requires HoldsAccount(o, a, w)
    ensures Get(o, "type") == Some(JStr("account")) && Get(o, "version") == Some(JInt(2))
    ensures "limits" in o && "default_permissions" in o && "authorization" in o
    ensures ("mappings" in o <==> w.mappings.Some?) && ("exports" in o <==> w.exports.Some?)
    ensures ("imports" in o <==> w.imports.Some?) && ("revocations" in o <==> w.revocations.Some?)
    ensures "signing_keys" in o <==> w.keys.Some?
  {
  }

  lemma WrittenParts(a: Account)
    ensures Write(a).mappings == None <==> a.mappings == map[]
    ensures Write(a).exports == None <==> a.exports == []
    ensures Write(a).imports == None <==> a.imports == []
    ensures Write(a).revocations == None <==> a.revocations == map[]
    ensures Write(a).keys == None <==> a.keys.listed == []
  {
  }

  /** An entry of the key array: a text is a plain key, an object of kind user_scope a scope filed under
      its key; any other entry is refused, and a kind that is no text is malformed. */
  lemma KeyEntryExactly(v: Json, k: string, s: UserScope)
    ensures ReadKey(v) == Ok(AddKey(k)) <==> v == JStr(k)
    ensures ReadKey(v) == Ok(SetScope(s)) <==>
      v.JObj? && Get(v.members, "kind") == Some(JStr("user_scope")) && ScopeWire.ScopeFromJson(v.members) == Ok(s)
    ensures !v.JStr? && !v.JObj? ==> ReadKey(v) == Err(InvalidClaims)
    ensures v.JObj? && "kind" in v.members && !v.members["kind"].JStr? ==> ReadKey(v) == Err(Malformed)
    ensures v.JObj? && ("kind" in v.members ==> v.members["kind"].JStr? && v.members["kind"].s != "user_scope") ==>
      ReadKey(v) == Err(InvalidClaims)
  {
  }

  /** Exports and imports come back in the order of their subjects, the same ones. */
  lemma RereadSorted(a: Account)
    ensures var r := RereadAccount(a);
      && multiset(r.exports) == multiset(a.exports) && multiset(r.imports) == multiset(a.imports)
      && (forall i, j :: 0 <= i < j < |r.exports| ==> !Less(r.exports[j].subject, r.exports[i].subject))
      && (forall i, j :: 0 <= i < j < |r.imports| ==> !Less(r.imports[j].subject, r.imports[i].subject))
  {
    SortSorted(a.exports, SubjectOfExport);
    SortSorted(a.imports, SubjectOfImport);
    BySubject(Sort(a.exports, SubjectOfExport), Sort(a.imports, SubjectOfImport));
  }

  lemma BySubject(exports: seq<Export>, imports: seq<Import>)
    requires Sorted(exports, SubjectOfExport) && Sorted(imports, SubjectOfImport)
    ensures forall i, j :: 0 <= i < j < |exports| ==> !Less(exports[j].subject, exports[i].subject)
    ensures forall i, j :: 0 <= i < j < |imports| ==> !Less(imports[j].subject, imports[i].subject)
  {
    forall i, j | 0 <= i < j < |exports|
      ensures !Less(exports[j].subject, exports[i].subject)
    {
      assert AtMost(SubjectOfExport(exports[i]), SubjectOfExport(exports[j]));
    }
    forall i, j | 0 <= i < j < |imports|
      ensures !Less(imports[j].subject, imports[i].subject)
    {
      assert AtMost(SubjectOfImport(imports[i]), SubjectOfImport(imports[j]));
    }
  }

  /** What is read of an object is what the readers give of its members, under these names. */
  lemma DecodedExactly(o: Obj, a: Account)
    ensures DecodeNats(o) == Ok(a) <==>
      Reads(o, a) && ReadList(Parts.ExportFromJson, o, "exports") == Ok(a.exports)
  {
    if DecodeNats(o) == Ok(a) {
      DecodedReaders(o, a);
    }
    if Reads(o, a) {
      ReadsDecode(o, a);
    }
  }

  lemma AssembledOf(
    kind: Result<bool>, limits: Result<AccountLimits>, permissions: Result<Permissions>,
    mappings: Result<map<string, seq<WeightedMapping>>>, exports: Result<seq<Export>>,
    imports: Result<seq<Import>>, revocations: Result<map<string, int64>>,
    authorization: Result<ExternalAuthorization>, description: Result<string>, infoURL: Result<string>,
    tags: Result<seq<string>>, keys: Result<Keys>, a: Account)
    requires Assemble(kind, limits, permissions, mappings, exports, imports, revocations, authorization,
                      description, infoURL, tags, keys) == Ok(a)
    ensures kind.Ok? && limits == Ok(a.limits) && permissions == Ok(a.defaultPermissions)
    ensures mappings == Ok(a.mappings) && exports == Ok(a.exports) && imports == Ok(a.imports)
    ensures revocations == Ok(a.revocations) && authorization == Ok(a.authorization)
    ensures description == Ok(a.description) && infoURL == Ok(a.infoURL) && tags == Ok(a.tags) && keys == Ok(a.keys)
  {
  }

  lemma DecodedReaders(o: Obj, a: Account)
    requires DecodeNats(o) == Ok(a)
    ensures Reads(o, a) && ReadList(Parts.ExportFromJson, o, "exports") == Ok(a.exports)
  {
    AssembledOf(
      CheckType(o, "account"), ReadLimits(o), ReadDefaultPermissions(o), ReadMappings(o),
      ReadList(Parts.ExportFromJson, o, "exports"), ReadList(Parts.ImportFromJson, o, "imports"),
      Parts.ReadRevocations(o), ReadAuthorization(o), StringValue(o, "description"),
      StringValue(o, "info_url"), StringsField(o, "tags"), ReadKeys(o), a);
  }

  /** Absent configuration: limits of 0, no permissions, no keys. */
  lemma AbsentConfiguration(o: Obj, a: Account)
    requires DecodeNats(o) == Ok(a)
    ensures Get(o, "type") == Some(JStr("account"))
    ensures Missing(o, "limits") ==>
      a.limits == AccountLimits(0, 0, 0, 0, 0, false, false, 0, 0, NO_JETSTREAM, map[])
    ensures Missing(o, "default_permissions") ==> a.defaultPermissions == NO_PERMISSIONS
    ensures Missing(o, "signing_keys") ==> a.keys == Keys([], map[])
    ensures Missing(o, "authorization") ==> a.authorization == NO_AUTHORIZATION
  {
    DecodedReaders(o, a);
  }
}
