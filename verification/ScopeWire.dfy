/** Permissions, limits and scopes on the wire (src/scope_serialization.hpp). */
module ScopeWire {
  import opened Results
  import opened Json
  import opened Types

  // ---------------- permissions ----------------

  function PermissionMember(p: Permission, k: string): Option<Json> {
    if k == "allow" then OmitNoStrings(p.allow)
    else if k == "deny" then OmitNoStrings(p.deny)
    else None
  }

  /** `permissionToJson`. */
  function PermissionToJson(p: Permission): Obj {
    Build({"allow", "deny"}, k => PermissionMember(p, k))
  }

  /** `permissionFromJson`. */
  function PermissionFromJson(o: Obj): Result<Permission> {
    var allow :- StringsField(o, "allow");
    var deny :- StringsField(o, "deny");
    Ok(Permission(allow, deny))
  }

  lemma PermissionRoundTrip(p: Permission)
    ensures PermissionFromJson(PermissionToJson(p)) == Ok(p)
  {
    StringsFieldReads(PermissionToJson(p), "allow", p.allow);
    StringsFieldReads(PermissionToJson(p), "deny", p.deny);
  }

  function ResponseMember(r: ResponsePermission, k: string): Option<Json> {
    if k == "max" then Some(JInt(r.maxMsgs))
    else if k == "ttl" then Some(JInt(r.ttlNanos))
    else None
  }

  function ResponseToJson(r: ResponsePermission): Obj {
    Build({"max", "ttl"}, k => ResponseMember(r, k))
  }

  /** `static_cast<int>`: the low 32 bits, signed. */
  function ToInt32(n: int): int32 {
    var low := n % 0x1_0000_0000;
    if low < 0x8000_0000 then low else low - 0x1_0000_0000
  }

  function ResponseFromJson(o: Obj): Result<ResponsePermission> {
    var max :- IntField(o, "max", 0);
    var ttl :- IntField(o, "ttl", 0);
    Ok(ResponsePermission(ToInt32(max), ttl))
  }

  lemma ResponseRoundTrip(r: ResponsePermission)
    ensures ResponseFromJson(ResponseToJson(r)) == Ok(r)
  {
  }

  /** The members `pub`, `sub` and `resp` of an object. */
  function PermissionsMember(p: Permissions, k: string): Option<Json> {
    if k == "pub" then Some(JObj(PermissionToJson(p.pub)))
    else if k == "sub" then Some(JObj(PermissionToJson(p.sub)))
    else if k == "resp" then if p.resp.Some? then Some(JObj(ResponseToJson(p.resp.value))) else None
    else None
  }

  function ReadPermission(o: Obj, k: string): Result<Permission> {
    var member :- ObjectField(o, k);
    match member
    case None => Ok(NO_PERMISSION)
    case Some(p) => PermissionFromJson(p)
  }

  function ReadResponse(o: Obj): Result<Option<ResponsePermission>> {
    var member :- ObjectField(o, "resp");
    match member
    case None => Ok(None)
    case Some(r) =>
      var resp :- ResponseFromJson(r);
      Ok(Some(resp))
  }

  function ReadPermissions(o: Obj): Result<Permissions> {
    var pub :- ReadPermission(o, "pub");
    var sub :- ReadPermission(o, "sub");
    var resp :- ReadResponse(o);
    Ok(Permissions(pub, sub, resp))
  }

  /** The object holds exactly these permissions. */
  predicate HoldsPermissions(o: Obj, p: Permissions) {
    && Get(o, "pub") == Some(JObj(PermissionToJson(p.pub)))
    && Get(o, "sub") == Some(JObj(PermissionToJson(p.sub)))
    && Get(o, "resp") == if p.resp.Some? then Some(JObj(ResponseToJson(p.resp.value))) else None
  }

  lemma PermissionReads(o: Obj, k: string, p: Permission)
    requires Get(o, k) == Some(JObj(PermissionToJson(p)))
    ensures ReadPermission(o, k) == Ok(p)
  {
    PermissionRoundTrip(p);
  }

  lemma ResponseReads(o: Obj, r: Option<ResponsePermission>)
    requires Get(o, "resp") == if r.Some? then Some(JObj(ResponseToJson(r.value))) else None
    ensures ReadResponse(o) == Ok(r)
  {
    if r.Some? {
      ResponseRoundTrip(r.value);
    }
  }

  lemma PermissionsRead(o: Obj, p: Permissions)
    requires HoldsPermissions(o, p)
    ensures ReadPermissions(o) == Ok(p)
  {
    PermissionReads(o, "pub", p.pub);
    PermissionReads(o, "sub", p.sub);
    ResponseReads(o, p.resp);
  }

  // ---------------- daily windows ----------------

  function TimeMember(t: TimeRange, k: string): Option<Json> {
    if k == "start" then Some(JStr(t.start))
    else if k == "end" then Some(JStr(t.end))
    else None
  }

  function TimeToJson(t: TimeRange): Json {
    JObj(Build({"start", "end"}, k => TimeMember(t, k)))
  }

  function TimeFromJson(v: Json): Result<TimeRange> {
    var o :- AsObject(v);
    var start :- StringValue(o, "start");
    var end :- StringValue(o, "end");
    Ok(TimeRange(start, end))
  }

  function OmitNoTimes(ts: seq<TimeRange>): Option<Json> {
    if ts != [] then Some(JArr(seq(|ts|, i requires 0 <= i < |ts| => TimeToJson(ts[i])))) else None
  }

  function TimesField(o: Obj): Result<seq<TimeRange>> {
    var items :- ArrayField(o, "times");
    match items
    case None => Ok([])
    case Some(a) => ReadAll(TimeFromJson, a)
  }

  lemma TimeRoundTrip(t: TimeRange)
    ensures TimeFromJson(TimeToJson(t)) == Ok(t)
  {
  }

  lemma TimesRead(o: Obj, ts: seq<TimeRange>)
    requires Get(o, "times") == OmitNoTimes(ts)
    ensures TimesField(o) == Ok(ts)
  {
    if ts != [] {
      var items := OmitNoTimes(ts).value.items;
      forall i | 0 <= i < |ts|
        ensures TimeFromJson(items[i]) == Ok(ts[i])
      {
        TimeRoundTrip(ts[i]);
      }
      ReadAllItems(TimeFromJson, items, ts);
    }
  }

  // ---------------- templates and scopes ----------------

  const LIMIT_KEYS := {
    "pub", "sub", "resp", "subs", "data", "payload", "src", "times",
    "times_location", "bearer_token", "proxy_required", "allowed_connection_types"}

  /** The members of `UserPermissionLimits`. */
  function LimitMember(p: Permissions, l: UserLimits, bearer: bool, proxy: bool, connTypes: seq<string>, k: string)
    : Option<Json>
  {
    if k == "subs" then OmitZero(l.subs)
    else if k == "data" then OmitZero(l.data)
    else if k == "payload" then OmitZero(l.payload)
    else if k == "src" then OmitNoStrings(l.src)
    else if k == "times" then OmitNoTimes(l.times)
    else if k == "times_location" then OmitEmpty(l.locale)
    else if k == "bearer_token" then OmitFalse(bearer)
    else if k == "proxy_required" then OmitFalse(proxy)
    else if k == "allowed_connection_types" then OmitNoStrings(connTypes)
    else PermissionsMember(p, k)
  }

  /** `userPermissionLimitsToJson` of a scope's template. */
  function TemplateToJson(s: UserScope): Obj {
    Build(LIMIT_KEYS, k =>
      LimitMember(s.permissions, s.limits, s.bearerToken, s.proxyRequired, s.connTypes, k))
  }

  function ScopeMember(s: UserScope, template: Obj, k: string): Option<Json> {
    if k == "kind" then Some(JStr("user_scope"))
    else if k == "key" then Some(JStr(s.key))
    else if k == "role" then Some(JStr(s.role))
    else if k == "template" then Some(JObj(template))
    else if k == "description" then Some(JStr(s.description))
    else None
  }

  function ScopeObject(s: UserScope, template: Obj): Obj {
    Build({"kind", "key", "role", "template", "description"}, k => ScopeMember(s, template, k))
  }

  /** `userScopeToJson`. */
  function ScopeToJson(s: UserScope): Obj {
    ScopeObject(s, TemplateToJson(s))
  }

  datatype LimitFields = LimitFields(
    permissions: Permissions, limits: UserLimits, bearerToken: bool, proxyRequired: bool,
    connTypes: seq<string>)

  /** `userPermissionLimitsFromJson`, with the limits that stand for absent ones. */
  function ReadLimits(o: Obj, absent: int64): Result<LimitFields> {
    var permissions :- ReadPermissions(o);
    var subs :- IntField(o, "subs", absent);
    var data :- IntField(o, "data", absent);
    var payload :- IntField(o, "payload", absent);
    var src :- StringsField(o, "src");
    var times :- TimesField(o);
    var locale :- StringValue(o, "times_location");
    var bearer :- BoolValue(o, "bearer_token");
    var proxy :- BoolValue(o, "proxy_required");
    var connTypes :- StringsField(o, "allowed_connection_types");
    Ok(LimitFields(permissions, UserLimits(subs, data, payload, src, times, locale), bearer, proxy, connTypes))
  }

  /** `userScopeFromJson`. */
  function ScopeFromJson(o: Obj): Result<UserScope> {
    var key :- StringValue(o, "key");
    var role :- StringValue(o, "role");
    var description :- StringValue(o, "description");
    var member :- ObjectField(o, "template");
    match member
    case None =>
      Ok(UserScope(key, role, description, NO_PERMISSIONS, UserLimits(-1, -1, -1, [], [], ""), false, false, []))
    case Some(t) =>
      var t :- ReadLimits(t, -1);
      Ok(UserScope(key, role, description, t.permissions, t.limits, t.bearerToken, t.proxyRequired, t.connTypes))
  }

  function RereadLimits(l: UserLimits, absent: int64): UserLimits {
    l.(subs := Reread(l.subs, absent), data := Reread(l.data, absent), payload := Reread(l.payload, absent))
  }

  predicate HoldsLimits(o: Obj, l: UserLimits) {
    && Get(o, "subs") == OmitZero(l.subs)
    && Get(o, "data") == OmitZero(l.data)
    && Get(o, "payload") == OmitZero(l.payload)
    && Get(o, "src") == OmitNoStrings(l.src)
    && Get(o, "times") == OmitNoTimes(l.times)
    && Get(o, "times_location") == OmitEmpty(l.locale)
  }

  predicate HoldsFlags(o: Obj, bearer: bool, proxy: bool, connTypes: seq<string>) {
    && Get(o, "bearer_token") == OmitFalse(bearer)
    && Get(o, "proxy_required") == OmitFalse(proxy)
    && Get(o, "allowed_connection_types") == OmitNoStrings(connTypes)
  }

  /** What is read back from an object that holds the limit members. */
  lemma LimitsRead(o: Obj, f: LimitFields, absent: int64)
    requires HoldsPermissions(o, f.permissions) && HoldsLimits(o, f.limits)
    requires HoldsFlags(o, f.bearerToken, f.proxyRequired, f.connTypes)
    ensures ReadLimits(o, absent) == Ok(f.(limits := RereadLimits(f.limits, absent)))
  {
    PermissionsRead(o, f.permissions);
    IntReads(o, "subs", f.limits.subs, absent);
    IntReads(o, "data", f.limits.data, absent);
    IntReads(o, "payload", f.limits.payload, absent);
    StringsFieldReads(o, "src", f.limits.src);
    TimesRead(o, f.limits.times);
    StringReads(o, "times_location", f.limits.locale);
    BoolReads(o, "bearer_token", f.bearerToken);
    BoolReads(o, "proxy_required", f.proxyRequired);
    StringsFieldReads(o, "allowed_connection_types", f.connTypes);
  }

  /** The scope that is read back: its limits of 0 have become -1, which means no limit. */
  function RereadScope(s: UserScope): UserScope {
    s.(limits := RereadLimits(s.limits, -1))
  }

  function FieldsOf(s: UserScope): LimitFields {
    LimitFields(s.permissions, s.limits, s.bearerToken, s.proxyRequired, s.connTypes)
  }

  lemma TemplateHolds(s: UserScope)
    ensures HoldsPermissions(TemplateToJson(s), s.permissions) && HoldsLimits(TemplateToJson(s), s.limits)
    ensures HoldsFlags(TemplateToJson(s), s.bearerToken, s.proxyRequired, s.connTypes)
  {
  }

  predicate HoldsScope(o: Obj, s: UserScope, template: Obj) {
    && Get(o, "kind") == Some(JStr("user_scope"))
    && Get(o, "key") == Some(JStr(s.key))
    && Get(o, "role") == Some(JStr(s.role))
    && Get(o, "template") == Some(JObj(template))
    && Get(o, "description") == Some(JStr(s.description))
  }

  lemma ScopeHolds(s: UserScope, template: Obj)
    ensures HoldsScope(ScopeObject(s, template), s, template)
  {
  }

  /** What is read back from a scope object. */
  lemma ScopeReads(o: Obj, s: UserScope, template: Obj, f: LimitFields)
    requires HoldsScope(o, s, template) && ReadLimits(template, -1) == Ok(f)
    ensures ScopeFromJson(o) == Ok(UserScope(s.key, s.role, s.description, f.permissions, f.limits,
                                             f.bearerToken, f.proxyRequired, f.connTypes))
  {
  }

  lemma ScopeRoundTrip(s: UserScope)
    ensures ScopeFromJson(ScopeToJson(s)) == Ok(RereadScope(s))
  {
    var t, f := TemplateToJson(s), FieldsOf(s);
    TemplateHolds(s);
    LimitsRead(t, f, -1);
    ScopeHolds(s, t);
    ScopeReads(ScopeToJson(s), s, t, f.(limits := RereadLimits(f.limits, -1)));
  }

  /** A scope comes back unchanged if and only if no limit of its template is 0. */
  predicate NoZeroLimit(s: UserScope) {
    s.limits.subs != 0 && s.limits.data != 0 && s.limits.payload != 0
  }

  lemma ScopeUnchangedExactly(s: UserScope)
    ensures ScopeFromJson(ScopeToJson(s)) == Ok(s) <==> NoZeroLimit(s)
  {
    ScopeRoundTrip(s);
  }

  /** And only then is it written the same way again. */
  lemma ScopeRewrittenExactly(s: UserScope)
    ensures ScopeToJson(RereadScope(s)) == ScopeToJson(s) <==> NoZeroLimit(s)
  {
    if ScopeToJson(RereadScope(s)) == ScopeToJson(s) {
      SameTemplate(s, RereadScope(s));
      TemplateHolds(s);
      TemplateHolds(RereadScope(s));
    }
  }

  lemma SameTemplate(s: UserScope, t: UserScope)
    requires ScopeToJson(s) == ScopeToJson(t)
    ensures TemplateToJson(s) == TemplateToJson(t)
  {
    ScopeHolds(s, TemplateToJson(s));
    ScopeHolds(t, TemplateToJson(t));
  }

  /** Reading again changes nothing more. */
  lemma RereadTwice(s: UserScope)
    ensures RereadScope(RereadScope(s)) == RereadScope(s) && NoZeroLimit(RereadScope(s))
  {
  }

  // ---------------- absent members ----------------

  /** The low 32 bits are kept. */
  lemma ToInt32Exactly(n: int, m: int32)
    ensures ToInt32(n) == m <==> (n - m) % 0x1_0000_0000 == 0
  {
  }

  /** Whoever wrote the scope: an absent limit of its template, or an absent template, means -1. */
  lemma AbsentLimits(o: Obj, s: UserScope)
    requires ScopeFromJson(o) == Ok(s)
    ensures Missing(o, "template") ==> s.limits == UserLimits(-1, -1, -1, [], [], "")
    ensures Missing(o, "template") ==> s.permissions == NO_PERMISSIONS && !s.bearerToken && !s.proxyRequired
    ensures !Missing(o, "template") ==> o["template"].JObj? && LimitsAre(o["template"].members, s.limits)
  {
    if !Missing(o, "template") {
      ReadLimitsAre(o["template"].members, -1, ReadLimits(o["template"].members, -1).value);
    }
  }

  predicate LimitsAre(t: Obj, l: UserLimits) {
    && (if Missing(t, "subs") then l.subs == -1 else t["subs"] == JInt(l.subs))
    && (if Missing(t, "data") then l.data == -1 else t["data"] == JInt(l.data))
    && (if Missing(t, "payload") then l.payload == -1 else t["payload"] == JInt(l.payload))
  }

  lemma ReadLimitsAre(t: Obj, absent: int64, f: LimitFields)
    requires ReadLimits(t, absent) == Ok(f) && absent == -1
    ensures LimitsAre(t, f.limits)
  {
    IntFieldExactly(t, "subs", -1, f.limits.subs);
    IntFieldExactly(t, "data", -1, f.limits.data);
    IntFieldExactly(t, "payload", -1, f.limits.payload);
  }

  /** The names of the members of permissions, response permissions and daily windows. */
  lemma PartNames(p: Permission, r: ResponsePermission, t: TimeRange)
    ensures Get(PermissionToJson(p), "allow") == OmitNoStrings(p.allow)
    ensures Get(PermissionToJson(p), "deny") == OmitNoStrings(p.deny)
    ensures Get(ResponseToJson(r), "max") == Some(JInt(r.maxMsgs))
    ensures Get(ResponseToJson(r), "ttl") == Some(JInt(r.ttlNanos))
    ensures TimeToJson(t).JObj? && Get(TimeToJson(t).members, "start") == Some(JStr(t.start))
    ensures TimeToJson(t).JObj? && Get(TimeToJson(t).members, "end") == Some(JStr(t.end))
  {
  }
}
