/** The encoders and decoders as they work, member by member and item by item
(src/scope_serialization.hpp, src/user_claims.cpp, src/account_claims.cpp). */
module Writing {
  import opened Results
  import opened Json
  import opened Types
  import opened Ordering
  import opened AccountState
  import Scopes = ScopeWire
  import Parts = AccountParts
  import User = UserWire
  import Account = AccountWire

  // ---------------- permissions and limits ----------------

  /** The values of the members of permissions and limits. */
  datatype LimitValues = LimitValues(
    pub: Option<Json>, sub: Option<Json>, resp: Option<Json>,
    subs: Option<Json>, data: Option<Json>, payload: Option<Json>,
    src: Option<Json>, times: Option<Json>, locale: Option<Json>,
    bearer: Option<Json>, proxy: Option<Json>, connTypes: Option<Json>)

  predicate Values(value: string -> Option<Json>, v: LimitValues) {
    && value("pub") == v.pub && value("sub") == v.sub && value("resp") == v.resp
    && value("subs") == v.subs && value("data") == v.data && value("payload") == v.payload
    && value("src") == v.src && value("times") == v.times && value("times_location") == v.locale
    && value("bearer_token") == v.bearer && value("proxy_required") == v.proxy
    && value("allowed_connection_types") == v.connTypes
  }

  method AssignPermissions(raw: Obj, v: LimitValues, ghost value: string -> Option<Json>) returns (o: Obj)
    requires Values(value, v)
    ensures o == Overwrite(raw, {"pub", "sub", "resp", "subs", "data", "payload"}, value)
  {
    o := Put(raw, "pub", v.pub);
    PutFirst(raw, value, "pub");
    o := Put(o, "sub", v.sub);
    PutNext(raw, {"pub"}, value, "sub");
    o := Put(o, "resp", v.resp);
    PutNext(raw, {"pub"} + {"sub"}, value, "resp");
    o := Put(o, "subs", v.subs);
    PutNext(raw, {"pub"} + {"sub"} + {"resp"}, value, "subs");
    o := Put(o, "data", v.data);
    PutNext(raw, {"pub"} + {"sub"} + {"resp"} + {"subs"}, value, "data");
    o := Put(o, "payload", v.payload);
    PutNext(raw, {"pub"} + {"sub"} + {"resp"} + {"subs"} + {"data"}, value, "payload");
    Gathered("pub", "sub", "resp", "subs", "data", "payload");
  }

  lemma Gathered(a: string, b: string, c: string, d: string, e: string, f: string)
    ensures {a} + {b} + {c} + {d} + {e} + {f} == {a, b, c, d, e, f}
  {
  }

  method AssignRest(raw: Obj, v: LimitValues, ghost value: string -> Option<Json>) returns (o: Obj)
    requires Values(value, v)
    ensures o == Overwrite(raw, {"src", "times", "times_location", "bearer_token", "proxy_required",
                                 "allowed_connection_types"}, value)
  {
    o := Put(raw, "src", v.src);
    PutFirst(raw, value, "src");
    o := Put(o, "times", v.times);
    PutNext(raw, {"src"}, value, "times");
    o := Put(o, "times_location", v.locale);
    PutNext(raw, {"src"} + {"times"}, value, "times_location");
    o := Put(o, "bearer_token", v.bearer);
    PutNext(raw, {"src"} + {"times"} + {"times_location"}, value, "bearer_token");
    o := Put(o, "proxy_required", v.proxy);
    PutNext(raw, {"src"} + {"times"} + {"times_location"} + {"bearer_token"}, value, "proxy_required");
    o := Put(o, "allowed_connection_types", v.connTypes);
    PutNext(raw, {"src"} + {"times"} + {"times_location"} + {"bearer_token"} + {"proxy_required"}, value,
            "allowed_connection_types");
    Gathered("src", "times", "times_location", "bearer_token", "proxy_required", "allowed_connection_types");
  }

  method AssignLimits(raw: Obj, v: LimitValues, ghost value: string -> Option<Json>) returns (o: Obj)
    requires Values(value, v)
    ensures o == Overwrite(raw, Scopes.LIMIT_KEYS, value)
  {
    o := AssignPermissions(raw, v, value);
    o := AssignRest(o, v, value);
    OverwriteTwice(raw,
      {"pub", "sub", "resp", "subs", "data", "payload"},
      {"src", "times", "times_location", "bearer_token", "proxy_required", "allowed_connection_types"}, value);
    Joined("pub", "sub", "resp", "subs", "data", "payload",
           "src", "times", "times_location", "bearer_token", "proxy_required", "allowed_connection_types");
  }

  lemma Joined(a: string, b: string, c: string, d: string, e: string, f: string,
               g: string, h: string, i: string, j: string, k: string, l: string)
    ensures {a, b, c, d, e, f} + {g, h, i, j, k, l} == {a, b, c, d, e, f, g, h, i, j, k, l}
  {
  }

  // ---------------- templates and users ----------------

  function LimitValuesOf(p: Permissions, l: UserLimits, bearer: bool, proxy: bool, connTypes: seq<string>)
    : LimitValues
  {
    LimitValues(
      Some(JObj(Scopes.PermissionToJson(p.pub))), Some(JObj(Scopes.PermissionToJson(p.sub))),
      if p.resp.Some? then Some(JObj(Scopes.ResponseToJson(p.resp.value))) else None,
      OmitZero(l.subs), OmitZero(l.data), OmitZero(l.payload),
      OmitNoStrings(l.src), Scopes.OmitNoTimes(l.times), OmitEmpty(l.locale),
      OmitFalse(bearer), OmitFalse(proxy), OmitNoStrings(connTypes))
  }

  /** Each value is that of its member. */
  lemma LimitMembers(value: string -> Option<Json>, p: Permissions, l: UserLimits, bearer: bool, proxy: bool,
                     connTypes: seq<string>)
    requires forall k :: value(k) == Scopes.LimitMember(p, l, bearer, proxy, connTypes, k)
    ensures Values(value, LimitValuesOf(p, l, bearer, proxy, connTypes))
  {
    PermissionMembers(p, l, bearer, proxy, connTypes);
    NumberMembers(p, l, bearer, proxy, connTypes);
    FlagMembers(p, l, bearer, proxy, connTypes);
    SameValues(value, k => Scopes.LimitMember(p, l, bearer, proxy, connTypes, k),
               LimitValuesOf(p, l, bearer, proxy, connTypes));
  }

  lemma SameValues(value: string -> Option<Json>, value': string -> Option<Json>, v: LimitValues)
    requires forall k :: value(k) == value'(k)
    requires Values(value', v)
    ensures Values(value, v)
  {
  }

  lemma PermissionMembers(p: Permissions, l: UserLimits, bearer: bool, proxy: bool, connTypes: seq<string>)
    ensures var v := LimitValuesOf(p, l, bearer, proxy, connTypes);
      && Scopes.LimitMember(p, l, bearer, proxy, connTypes, "pub") == v.pub
      && Scopes.LimitMember(p, l, bearer, proxy, connTypes, "sub") == v.sub
      && Scopes.LimitMember(p, l, bearer, proxy, connTypes, "resp") == v.resp
  {
  }

  lemma NumberMembers(p: Permissions, l: UserLimits, bearer: bool, proxy: bool, connTypes: seq<string>)
    ensures var v := LimitValuesOf(p, l, bearer, proxy, connTypes);
      && Scopes.LimitMember(p, l, bearer, proxy, connTypes, "subs") == v.subs
      && Scopes.LimitMember(p, l, bearer, proxy, connTypes, "data") == v.data
      && Scopes.LimitMember(p, l, bearer, proxy, connTypes, "payload") == v.payload
      && Scopes.LimitMember(p, l, bearer, proxy, connTypes, "src") == v.src
      && Scopes.LimitMember(p, l, bearer, proxy, connTypes, "times") == v.times
  {
  }

  lemma FlagMembers(p: Permissions, l: UserLimits, bearer: bool, proxy: bool, connTypes: seq<string>)
    ensures var v := LimitValuesOf(p, l, bearer, proxy, connTypes);
      && Scopes.LimitMember(p, l, bearer, proxy, connTypes, "times_location") == v.locale
      && Scopes.LimitMember(p, l, bearer, proxy, connTypes, "bearer_token") == v.bearer
      && Scopes.LimitMember(p, l, bearer, proxy, connTypes, "proxy_required") == v.proxy
      && Scopes.LimitMember(p, l, bearer, proxy, connTypes, "allowed_connection_types") == v.connTypes
  {
  }

  /** `userPermissionLimitsToJson`, starting from nothing. */
  method WriteTemplate(s: UserScope) returns (o: Obj)
    ensures o == Scopes.TemplateToJson(s)
  {
    ghost var value := k => Scopes.LimitMember(s.permissions, s.limits, s.bearerToken, s.proxyRequired, s.connTypes, k);
    LimitMembers(value, s.permissions, s.limits, s.bearerToken, s.proxyRequired, s.connTypes);
    o := AssignLimits(map[], LimitValuesOf(s.permissions, s.limits, s.bearerToken, s.proxyRequired, s.connTypes), value);
    OverwriteNothing(Scopes.LIMIT_KEYS, value);
    SameMembers(o, Scopes.TemplateToJson(s));
  }

  /** A user's other members, and that they are written the same in a user and in a template. */
  lemma UserMembers(u: User.User)
    ensures User.UserMember(u, "issuer_account")
         == if u.issuerAccount.Some? then Some(JStr(u.issuerAccount.value)) else None
    ensures User.UserMember(u, "tags") == OmitNoStrings(u.tags)
    ensures User.UserMember(u, "type") == Some(JStr("user"))
    ensures User.UserMember(u, "version") == Some(JInt(2))
    ensures forall k :: k != "issuer_account" && k != "tags" && k != "type" && k != "version" ==>
      User.UserMember(u, k) == Scopes.LimitMember(u.permissions, u.limits, u.bearerToken, u.proxyRequired, u.connTypes, k)
  {
  }

  predicate OwnMember(k: string) {
    k == "issuer_account" || k == "tags" || k == "type" || k == "version"
  }

  lemma UserValues(u: User.User, value: string -> Option<Json>)
    requires forall k :: !OwnMember(k) ==>
      value(k) == Scopes.LimitMember(u.permissions, u.limits, u.bearerToken, u.proxyRequired, u.connTypes, k)
    ensures Values(value, LimitValuesOf(u.permissions, u.limits, u.bearerToken, u.proxyRequired, u.connTypes))
  {
    var value' := k => Scopes.LimitMember(u.permissions, u.limits, u.bearerToken, u.proxyRequired, u.connTypes, k);
    LimitMembers(value', u.permissions, u.limits, u.bearerToken, u.proxyRequired, u.connTypes);
    OtherValues(value, value', LimitValuesOf(u.permissions, u.limits, u.bearerToken, u.proxyRequired, u.connTypes));
  }

  lemma OtherValues(value: string -> Option<Json>, value': string -> Option<Json>, v: LimitValues)
    requires forall k :: !OwnMember(k) ==> value(k) == value'(k)
    requires Values(value', v)
    ensures Values(value, v)
  {
    NoOwnMembers();
  }

  lemma NoOwnMembers()
    ensures !OwnMember("pub") && !OwnMember("sub") && !OwnMember("resp") && !OwnMember("subs")
    ensures !OwnMember("data") && !OwnMember("payload") && !OwnMember("src") && !OwnMember("times")
    ensures !OwnMember("times_location") && !OwnMember("bearer_token") && !OwnMember("proxy_required")
    ensures !OwnMember("allowed_connection_types")
  {
  }

  /** The `nats` object of a user, written over the carried one. */
  method WriteUser(raw: Obj, u: User.User) returns (nats: Obj)
    ensures nats == User.EncodeNats(raw, u)
    ensures forall k :: k !in User.MANAGED ==> Get(nats, k) == Get(raw, k)
  {
    ghost var value := k => User.UserMember(u, k);
    UserMembers(u);
    UserValues(u, value);
    nats := AssignUser(raw, LimitValuesOf(u.permissions, u.limits, u.bearerToken, u.proxyRequired, u.connTypes),
                       u.issuerAccount, OmitNoStrings(u.tags), value);
    SameMembers(nats, User.EncodeNats(raw, u));
  }

  method AssignUser(raw: Obj, v: LimitValues, issuerAccount: Option<string>, tags: Option<Json>,
                    ghost value: string -> Option<Json>)
    returns (nats: Obj)
    requires Values(value, v)
    requires value("issuer_account") == if issuerAccount.Some? then Some(JStr(issuerAccount.value)) else None
    requires value("tags") == tags && value("type") == Some(JStr("user")) && value("version") == Some(JInt(2))
    ensures nats == Overwrite(raw, User.MANAGED, value)
  {
    if issuerAccount.Some? {
      nats := raw["issuer_account" := JStr(issuerAccount.value)];
    } else {
      nats := raw - {"issuer_account"};
    }
    PutFirst(raw, value, "issuer_account");
    nats := AssignLimits(nats, v, value);
    ghost var done := {"issuer_account"} + Scopes.LIMIT_KEYS;
    OverwriteTwice(raw, {"issuer_account"}, Scopes.LIMIT_KEYS, value);
    nats := Put(nats, "tags", tags);
    PutNext(raw, done, value, "tags");
    nats := nats["type" := JStr("user")];
    PutNext(raw, done + {"tags"}, value, "type");
    nats := nats["version" := JInt(2)];
    PutNext(raw, done + {"tags"} + {"type"}, value, "version");
    Around("issuer_account", Scopes.LIMIT_KEYS, "tags", "type", "version");
  }

  lemma Around(a: string, s: set<string>, b: string, c: string, d: string)
    ensures {a} + s + {b} + {c} + {d} == s + {a, b, c, d}
  {
  }

  // ---------------- accounts ----------------

  /** A plain key as a string, a scoped key as an object. */
  method WriteKey(key: string, scopes: map<string, UserScope>) returns (v: Json)
    ensures v == Account.KeyToJson(key, scopes)
  {
    if key !in scopes {
      return JStr(key);
    }
    var template := WriteTemplate(scopes[key]);
    v := JObj(Scopes.ScopeObject(scopes[key], template));
  }

  /** The array of signing keys: sorted, plain keys as strings, scoped keys as objects. */
  method WriteKeys(st: Keys) returns (keys: seq<Json>)
    ensures keys == Account.KeysToJson(st)
  {
    var sorted := Sort(st.listed, Self);
    keys := [];
    ghost var write := k => Account.KeyToJson(k, st.scopes);
    for i := 0 to |sorted|
      invariant Written(sorted, write, keys, i)
    {
      var v := WriteKey(sorted[i], st.scopes);
      WrittenNext(sorted, write, keys, i, v);
      keys := keys + [v];
    }
  }

  /** The first `n` items are written. */
  ghost predicate Written<T>(items: seq<T>, write: T -> Json, arr: seq<Json>, n: nat) {
    n == |arr| <= |items| && forall j :: 0 <= j < n ==> arr[j] == write(items[j])
  }

  lemma WrittenNext<T>(items: seq<T>, write: T -> Json, arr: seq<Json>, n: nat, v: Json)
    requires Written(items, write, arr, n) && n < |items| && v == write(items[n])
    ensures Written(items, write, arr + [v], n + 1)
  {
  }

  /** `for (const auto& e : sorted) arr.push_back(toJson(e));` */
  method WriteEach<T>(sorted: seq<T>, write: T -> Json) returns (arr: seq<Json>)
    ensures |arr| == |sorted| && forall i :: 0 <= i < |sorted| ==> arr[i] == write(sorted[i])
  {
    arr := [];
    for i := 0 to |sorted|
      invariant |arr| == i && forall j :: 0 <= j < i ==> arr[j] == write(sorted[j])
    {
      arr := arr + [write(sorted[i])];
    }
  }

  /** What is written of an account's lists. */
  method WriteParts(a: Account.Account) returns (w: Account.Written)
    ensures w == Account.Write(a)
  {
    var exports, imports, keys := None, None, None;
    if a.exports != [] {
      var arr := WriteEach(Sort(a.exports, Account.SubjectOfExport), Parts.ExportToJson);
      assert arr == Account.ExportItems(Sort(a.exports, Account.SubjectOfExport));
      exports := Some(JArr(arr));
    }
    if a.imports != [] {
      var arr := WriteEach(Sort(a.imports, Account.SubjectOfImport), Parts.ImportToJson);
      assert arr == Account.ImportItems(Sort(a.imports, Account.SubjectOfImport));
      imports := Some(JArr(arr));
    }
    if a.keys.listed != [] {
      var arr := WriteKeys(a.keys);
      keys := Some(JArr(arr));
    }
    w := Account.Written(
      Parts.LimitsToJson(a.limits), Account.PermissionsToJson(a.defaultPermissions),
      if a.mappings != map[] then Some(JObj(Parts.MappingsToJson(a.mappings))) else None,
      exports, imports, Parts.OmitNoNumbers(a.revocations), Parts.AuthorizationToJson(a.authorization), keys);
  }

  /** The `nats` object of an account, written over the carried one. */
  method WriteAccount(raw: Obj, a: Account.Account) returns (nats: Obj)
    ensures nats == Account.EncodeNats(raw, a)
    ensures forall k :: k !in Account.MANAGED ==> Get(nats, k) == Get(raw, k)
  {
    var w := WriteParts(a);
    ghost var value := k => Account.NatsMember(a, w, k);
    AccountMembers(a, w);
    nats := AssignObjects(raw, w, value);
    nats := AssignDetails(nats, w, OmitEmpty(a.description), OmitEmpty(a.infoURL), OmitNoStrings(a.tags), value);
    OverwriteTwice(raw, {"limits", "default_permissions", "mappings", "exports", "imports", "revocations"},
      {"authorization", "description", "info_url", "signing_keys", "tags", "type", "version"}, value);
    JoinedUp("limits", "default_permissions", "mappings", "exports", "imports", "revocations",
           "authorization", "description", "info_url", "signing_keys", "tags", "type", "version");
    SameMembers(nats, Account.NatsObject(raw, a, w));
  }

  lemma JoinedUp(a: string, b: string, c: string, d: string, e: string, f: string,
                 g: string, h: string, i: string, j: string, k: string, l: string, m: string)
    ensures {a, b, c, d, e, f} + {g, h, i, j, k, l, m} == {a, b, c, d, e, f, g, h, i, j, k, l, m}
  {
  }

  lemma AccountMembers(a: Account.Account, w: Account.Written)
    ensures Account.NatsMember(a, w, "limits") == Some(JObj(w.limits))
    ensures Account.NatsMember(a, w, "default_permissions") == Some(JObj(w.permissions))
    ensures Account.NatsMember(a, w, "mappings") == w.mappings
    ensures Account.NatsMember(a, w, "exports") == w.exports
    ensures Account.NatsMember(a, w, "imports") == w.imports
    ensures Account.NatsMember(a, w, "revocations") == w.revocations
    ensures Account.NatsMember(a, w, "authorization") == Some(JObj(w.authorization))
    ensures Account.NatsMember(a, w, "description") == OmitEmpty(a.description)
    ensures Account.NatsMember(a, w, "info_url") == OmitEmpty(a.infoURL)
    ensures Account.NatsMember(a, w, "signing_keys") == w.keys
    ensures Account.NatsMember(a, w, "tags") == OmitNoStrings(a.tags)
    ensures Account.NatsMember(a, w, "type") == Some(JStr("account"))
    ensures Account.NatsMember(a, w, "version") == Some(JInt(2))
  {
  }

  method AssignObjects(raw: Obj, w: Account.Written, ghost value: string -> Option<Json>) returns (o: Obj)
    requires value("limits") == Some(JObj(w.limits)) && value("default_permissions") == Some(JObj(w.permissions))
    requires value("mappings") == w.mappings && value("exports") == w.exports && value("imports") == w.imports
    requires value("revocations") == w.revocations
    ensures o == Overwrite(raw, {"limits", "default_permissions", "mappings", "exports", "imports", "revocations"}, value)
  {
    o := raw["limits" := JObj(w.limits)];
    PutFirst(raw, value, "limits");
    o := o["default_permissions" := JObj(w.permissions)];
    PutNext(raw, {"limits"}, value, "default_permissions");
    o := Put(o, "mappings", w.mappings);
    PutNext(raw, {"limits"} + {"default_permissions"}, value, "mappings");
    o := Put(o, "exports", w.exports);
    PutNext(raw, {"limits"} + {"default_permissions"} + {"mappings"}, value, "exports");
    o := Put(o, "imports", w.imports);
    PutNext(raw, {"limits"} + {"default_permissions"} + {"mappings"} + {"exports"}, value, "imports");
    o := Put(o, "revocations", w.revocations);
    PutNext(raw, {"limits"} + {"default_permissions"} + {"mappings"} + {"exports"} + {"imports"}, value, "revocations");
    Gathered("limits", "default_permissions", "mappings", "exports", "imports", "revocations");
  }

  method AssignDetails(raw: Obj, w: Account.Written, description: Option<Json>, infoURL: Option<Json>,
                       tags: Option<Json>, ghost value: string -> Option<Json>)
    returns (o: Obj)
    requires value("authorization") == Some(JObj(w.authorization)) && value("description") == description
    requires value("info_url") == infoURL && value("signing_keys") == w.keys && value("tags") == tags
    requires value("type") == Some(JStr("account")) && value("version") == Some(JInt(2))
    ensures o == Overwrite(raw, {"authorization", "description", "info_url", "signing_keys", "tags", "type", "version"},
                           value)
  {
    o := raw["authorization" := JObj(w.authorization)];
    PutFirst(raw, value, "authorization");
    o := Put(o, "description", description);
    PutNext(raw, {"authorization"}, value, "description");
    o := Put(o, "info_url", infoURL);
    PutNext(raw, {"authorization"} + {"description"}, value, "info_url");
    o := Put(o, "signing_keys", w.keys);
    PutNext(raw, {"authorization"} + {"description"} + {"info_url"}, value, "signing_keys");
    o := Put(o, "tags", tags);
    PutNext(raw, {"authorization"} + {"description"} + {"info_url"} + {"signing_keys"}, value, "tags");
    ghost var done := {"authorization"} + {"description"} + {"info_url"} + {"signing_keys"} + {"tags"};
    o := o["type" := JStr("account")];
    PutNext(raw, done, value, "type");
    o := o["version" := JInt(2)];
    PutNext(raw, done + {"type"}, value, "version");
    GatheredMore("authorization", "description", "info_url", "signing_keys", "tags", "type", "version");
  }

  lemma GatheredMore(a: string, b: string, c: string, d: string, e: string, f: string, g: string)
    ensures {a} + {b} + {c} + {d} + {e} + {f} + {g} == {a, b, c, d, e, f, g}
  {
  }

  // ---------------- reading lists ----------------

  /** What is read so far, followed by the rest. */
  function After<T>(out: seq<T>, rest: Result<seq<T>>): Result<seq<T>> {
    if rest.Ok? then Ok(out + rest.value) else rest
  }

  lemma ReadBounds<T>(read: Json -> Result<T>, items: seq<Json>, out: seq<T>)
    ensures After([], ReadAll(read, items[0..])) == ReadAll(read, items)
    ensures After(out, ReadAll(read, items[|items|..])) == Ok(out)
  {
    assert items[0..] == items && items[|items|..] == [] && out + [] == out;
    if ReadAll(read, items).Ok? {
      assert [] + ReadAll(read, items).value == ReadAll(read, items).value;
    }
  }

  lemma ReadNext<T>(read: Json -> Result<T>, items: seq<Json>, i: nat, out: seq<T>)
    requires i < |items|
    ensures After(out, ReadAll(read, items[i..]))
         == if read(items[i]).Ok? then After(out + [read(items[i]).value], ReadAll(read, items[i + 1..]))
            else Err(read(items[i]).error)
  {
    assert items[i..][0] == items[i] && items[i..][1..] == items[i + 1..];
    var rest := ReadAll(read, items[i + 1..]);
    if read(items[i]).Ok? && rest.Ok? {
      assert out + ([read(items[i]).value] + rest.value) == out + [read(items[i]).value] + rest.value;
    }
  }

  /** `for (const auto& e : *a) out.push_back(fromJson(e));`, which throws at the first bad item. */
  method ReadEach<T>(read: Json -> Result<T>, items: seq<Json>) returns (r: Result<seq<T>>)
    ensures r == ReadAll(read, items)
  {
    var out: seq<T> := [];
    ReadBounds(read, items, out);
    for i := 0 to |items|
      invariant ReadAll(read, items) == After(out, ReadAll(read, items[i..]))
    {
      ReadNext(read, items, i, out);
      var item := read(items[i]);
      if item.Err? {
        return Err(item.error);
      }
      out := out + [item.value];
    }
    ReadBounds(read, items, out);
    return Ok(out);
  }

  /** The decoder's loop over `signing_keys`: every entry is a call on the claims. */
  method ReadKeysInto(claims: AccountClaims, items: seq<Json>) returns (r: Result<bool>)
    requires claims.Valid() && claims.keyCalls == []
    modifies claims
    ensures claims.Valid() && claims.revocationCalls == old(claims.revocationCalls)
    ensures ReadAll(Account.ReadKey, items) == if r.Ok? then Ok(claims.keyCalls) else Err(r.error)
  {
    ReadBounds(Account.ReadKey, items, claims.keyCalls);
    for i := 0 to |items|
      invariant claims.Valid() && claims.revocationCalls == old(claims.revocationCalls)
      invariant ReadAll(Account.ReadKey, items) == After(claims.keyCalls, ReadAll(Account.ReadKey, items[i..]))
    {
      ReadNext(Account.ReadKey, items, i, claims.keyCalls);
      var call := Account.ReadKey(items[i]);
      if call.Err? {
        return Err(call.error);
      }
      ApplyTo(claims, call.value);
    }
    ReadBounds(Account.ReadKey, items, claims.keyCalls);
    return Ok(true);
  }

  method ApplyTo(claims: AccountClaims, call: KeyCall)
    requires claims.Valid()
    modifies claims
    ensures claims.Valid() && claims.revocationCalls == old(claims.revocationCalls)
    ensures claims.keyCalls == old(claims.keyCalls) + [call]
  {
    match call {
      case AddKey(k) => claims.AddSigningKey(k);
      case SetScope(s) => claims.SetScopeOf(s);
    }
  }

  /** Keys that were written and read into fresh claims are the re-read keys. */
  method RoundTripKeys(st: Keys) returns (claims: AccountClaims)
    ensures claims.Valid() && Keys(claims.signingKeys, claims.scopes) == Account.RereadKeys(st)
  {
    var items := WriteKeys(st);
    claims := new AccountClaims();
    Account.KeyItemsRead(st);
    var r := ReadKeysInto(claims, items);
  }
}
