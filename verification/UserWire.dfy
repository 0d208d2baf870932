/** Users (src/user_claims.cpp): the `nats` object written over the carried one, what is read back,
and scoped users. */
module UserWire {
  import opened Results
  import opened Json
  import opened Types
  import opened Tokens
  import ScopeWire

  datatype User = User(
    permissions: Permissions, limits: UserLimits, bearerToken: bool, proxyRequired: bool,
    connTypes: seq<string>, tags: seq<string>, issuerAccount: Option<string>)

  // ---------------- encoding ----------------

  const MANAGED := ScopeWire.LIMIT_KEYS + {"issuer_account", "tags", "type", "version"}

  function UserMember(u: User, k: string): Option<Json> {
    if k == "issuer_account" then (if u.issuerAccount.Some? then Some(JStr(u.issuerAccount.value)) else None)
    else if k == "tags" then OmitNoStrings(u.tags)
    else if k == "type" then Some(JStr("user"))
    else if k == "version" then Some(JInt(2))
    else ScopeWire.LimitMember(u.permissions, u.limits, u.bearerToken, u.proxyRequired, u.connTypes, k)
  }

  /** The `nats` object `encodeWithSigner` writes over the carried one. */
  function EncodeNats(raw: Obj, u: User): Obj {
    Overwrite(raw, MANAGED, k => UserMember(u, k))
  }

  // ---------------- decoding ----------------

  predicate IsBlank(c: char) {
    c == ' ' || c == '\t' || c == '\r' || c == '\n'
  }

  /** `normalizeTag`: trimmed and in lower case. */
  function NormalizeTag(t: string): string
    decreases |t|
  {
    if t == "" then ""
    else if IsBlank(t[0]) then NormalizeTag(t[1..])
    else if IsBlank(t[|t| - 1]) then NormalizeTag(t[..|t| - 1])
    else seq(|t|, i requires 0 <= i < |t| => ToLower(t[i]))
  }

  /** `addTags`: normalized, without empty or repeated ones. */
  function AddTags(tags: seq<string>, more: seq<string>): seq<string>
    decreases more
  {
    if more == [] then tags
    else
      var t := NormalizeTag(more[0]);
      AddTags(if t != "" && t !in tags then tags + [t] else tags, more[1..])
  }

  /** `src` is an array, or a comma-separated string; anything else, null too, is malformed. */
  function ReadSrc(o: Obj): Result<seq<string>> {
    match Get(o, "src")
    case None => Ok([])
    case Some(JArr(items)) => ReadAll(AsString, items)
    case Some(JStr(s)) => Ok(AddTags([], Split(s, ',')))
    case Some(_) => Err(Malformed)
  }

  /** An empty `issuer_account` is an absent one. */
  function ReadIssuerAccount(o: Obj): Result<Option<string>> {
    match Get(o, "issuer_account")
    case None => Ok(None)
    case Some(JStr(s)) => Ok(if s == "" then None else Some(s))
    case Some(_) => Err(Malformed)
  }

  /** What `decodeUserClaims` reads from the `nats` object: an absent limit is 0. */
  function DecodeNats(o: Obj): Result<User> {
    var _ :- CheckType(o, "user");
    var permissions :- ScopeWire.ReadPermissions(o);
    var subs :- IntField(o, "subs", 0);
    var data :- IntField(o, "data", 0);
    var payload :- IntField(o, "payload", 0);
    var src :- ReadSrc(o);
    var times :- ScopeWire.TimesField(o);
    var locale :- StringValue(o, "times_location");
    var bearer :- BoolValue(o, "bearer_token");
    var proxy :- BoolValue(o, "proxy_required");
    var connTypes :- StringsField(o, "allowed_connection_types");
    var tags :- StringsField(o, "tags");
    var issuerAccount :- ReadIssuerAccount(o);
    Ok(User(permissions, UserLimits(subs, data, payload, src, times, locale), bearer, proxy, connTypes,
            tags, issuerAccount))
  }

  // ---------------- the round trip ----------------

  predicate HoldsUser(o: Obj, u: User) {
    && ScopeWire.HoldsPermissions(o, u.permissions)
    && ScopeWire.HoldsLimits(o, u.limits)
    && ScopeWire.HoldsFlags(o, u.bearerToken, u.proxyRequired, u.connTypes)
  }

  predicate HoldsRest(o: Obj, u: User) {
    && Get(o, "issuer_account") == (if u.issuerAccount.Some? then Some(JStr(u.issuerAccount.value)) else None)
    && Get(o, "tags") == OmitNoStrings(u.tags)
    && Get(o, "type") == Some(JStr("user"))
    && Get(o, "version") == Some(JInt(2))
  }

  lemma NatsHoldsPermissions(raw: Obj, u: User)
    ensures ScopeWire.HoldsPermissions(EncodeNats(raw, u), u.permissions)
  {
  }

  lemma NatsHoldsLimits(raw: Obj, u: User)
    ensures ScopeWire.HoldsLimits(EncodeNats(raw, u), u.limits)
  {
  }

  lemma NatsHoldsFlags(raw: Obj, u: User)
    ensures ScopeWire.HoldsFlags(EncodeNats(raw, u), u.bearerToken, u.proxyRequired, u.connTypes)
  {
  }

  lemma NatsHoldsUser(raw: Obj, u: User)
    ensures HoldsUser(EncodeNats(raw, u), u)
  {
    NatsHoldsPermissions(raw, u);
    NatsHoldsLimits(raw, u);
    NatsHoldsFlags(raw, u);
  }

  lemma NatsHoldsRest(raw: Obj, u: User)
    ensures HoldsRest(EncodeNats(raw, u), u)
  {
  }

  /** Members the user does not manage survive; managed ones depend on the typed fields only. */
  lemma CarryLayer(raw: Obj, raw': Obj, u: User, k: string)
    ensures k !in MANAGED ==> Get(EncodeNats(raw, u), k) == Get(raw, k)
    ensures k in MANAGED ==> Get(EncodeNats(raw, u), k) == Get(EncodeNats(raw', u), k)
  {
  }

  lemma SrcReads(o: Obj, src: seq<string>)
    requires Get(o, "src") == OmitNoStrings(src)
    ensures ReadSrc(o) == Ok(src)
  {
    ReadStrings(src);
  }

  /** What the readers of permissions and limits give. */
  predicate ReadsLimits(o: Obj, u: User) {
    && ScopeWire.ReadPermissions(o) == Ok(u.permissions)
    && IntField(o, "subs", 0) == Ok(u.limits.subs)
    && IntField(o, "data", 0) == Ok(u.limits.data)
    && IntField(o, "payload", 0) == Ok(u.limits.payload)
    && ReadSrc(o) == Ok(u.limits.src)
    && ScopeWire.TimesField(o) == Ok(u.limits.times)
    && StringValue(o, "times_location") == Ok(u.limits.locale)
  }

  /** What the other readers give. */
  predicate ReadsRest(o: Obj, u: User) {
    && CheckType(o, "user").Ok?
    && BoolValue(o, "bearer_token") == Ok(u.bearerToken)
    && BoolValue(o, "proxy_required") == Ok(u.proxyRequired)
    && StringsField(o, "allowed_connection_types") == Ok(u.connTypes)
    && StringsField(o, "tags") == Ok(u.tags)
    && ReadIssuerAccount(o) == Ok(u.issuerAccount)
  }

  lemma LimitsReadBack(o: Obj, u: User)
    requires HoldsUser(o, u)
    ensures ReadsLimits(o, u)
  {
    ScopeWire.PermissionsRead(o, u.permissions);
    IntReads(o, "subs", u.limits.subs, 0);
    IntReads(o, "data", u.limits.data, 0);
    IntReads(o, "payload", u.limits.payload, 0);
    SrcReads(o, u.limits.src);
    ScopeWire.TimesRead(o, u.limits.times);
    StringReads(o, "times_location", u.limits.locale);
  }

  lemma RestReadsBack(o: Obj, u: User)
    requires HoldsUser(o, u) && HoldsRest(o, u) && u.issuerAccount != Some("")
    ensures ReadsRest(o, u)
  {
    BoolReads(o, "bearer_token", u.bearerToken);
    BoolReads(o, "proxy_required", u.proxyRequired);
    StringsFieldReads(o, "allowed_connection_types", u.connTypes);
    StringsFieldReads(o, "tags", u.tags);
  }

  lemma ReadsDecode(o: Obj, u: User)
    requires ReadsLimits(o, u) && ReadsRest(o, u)
    ensures DecodeNats(o) == Ok(u)
  {
  }

  lemma UserReads(o: Obj, u: User)
    requires HoldsUser(o, u) && HoldsRest(o, u) && u.issuerAccount != Some("")
    ensures DecodeNats(o) == Ok(u)
  {
    LimitsReadBack(o, u);
    RestReadsBack(o, u);
    ReadsDecode(o, u);
  }

  /** A user comes back exactly as it was: an absent limit reads as the 0 it stands for.  The
      setter never leaves an empty issuer account. */
  lemma UserRoundTrip(raw: Obj, u: User)
    requires u.issuerAccount != Some("")
    ensures DecodeNats(EncodeNats(raw, u)) == Ok(u)
  {
    NatsHoldsUser(raw, u);
    NatsHoldsRest(raw, u);
    UserReads(EncodeNats(raw, u), u);
  }

  /** So encoding the decoded user over the decoded object gives the object back. */
  lemma UserReencoded(raw: Obj, u: User)
    requires u.issuerAccount != Some("")
    ensures DecodeNats(EncodeNats(raw, u)).Ok?
    ensures EncodeNats(EncodeNats(raw, u), DecodeNats(EncodeNats(raw, u)).value) == EncodeNats(raw, u)
  {
    UserRoundTrip(raw, u);
    SameMembers(EncodeNats(EncodeNats(raw, u), u), EncodeNats(raw, u));
  }

  // ---------------- users that were decoded ----------------

  lemma DecodedIssuerAccount(o: Obj, u: User)
    requires DecodeNats(o) == Ok(u)
    ensures u.issuerAccount != Some("")
  {
  }

  /** Whoever wrote the object: a decoded user, encoded again, decodes to itself, and the members it
      does not manage survive. */
  lemma DecodedRoundTrip(o: Obj, u: User)
    requires DecodeNats(o) == Ok(u)
    ensures DecodeNats(EncodeNats(o, u)) == Ok(u)
    ensures EncodeNats(EncodeNats(o, u), u) == EncodeNats(o, u)
    ensures forall k :: k !in MANAGED ==> Get(EncodeNats(o, u), k) == Get(o, k)
  {
    DecodedIssuerAccount(o, u);
    UserRoundTrip(o, u);
    UserReencoded(o, u);
    forall k | k !in MANAGED
      ensures Get(EncodeNats(o, u), k) == Get(o, k)
    {
      CarryLayer(o, o, u, k);
    }
  }

  // ---------------- scoped users ----------------

  predicate IsEmptyPermission(p: Permission) {
    p.allow == [] && p.deny == []
  }

  /** `hasEmptyPermissions`. */
  predicate HasEmptyPermissions(u: User) {
    && IsEmptyPermission(u.permissions.pub) && IsEmptyPermission(u.permissions.sub)
    && u.permissions.resp == None
    && u.limits.subs == 0 && u.limits.data == 0 && u.limits.payload == 0
    && u.limits.src == [] && u.limits.times == [] && u.limits.locale == ""
    && !u.bearerToken && !u.proxyRequired && u.connTypes == []
  }

  class UserClaims {
    var permissions: Permissions
    var limits: UserLimits
    var bearerToken: bool
    var proxyRequired: bool
    var connTypes: seq<string>
    var tags: seq<string>
    var issuerAccount: Option<string>

    /** Fresh claims: no permissions, no limits. */
    constructor ()
      ensures Value() == User(NO_PERMISSIONS, UserLimits(-1, -1, -1, [], [], ""), false, false, [], [], None)
    {
      permissions := NO_PERMISSIONS;
      limits := UserLimits(-1, -1, -1, [], [], "");
      bearerToken := false;
      proxyRequired := false;
      connTypes := [];
      tags := [];
      issuerAccount := None;
    }

    function Value(): User
      reads this
    {
      User(permissions, limits, bearerToken, proxyRequired, connTypes, tags, issuerAccount)
    }

    /** A scoped user carries nothing of its own; unscoping resets the limits only. */
    method SetScoped(scoped: bool)
      modifies this
      ensures tags == old(tags) && issuerAccount == old(issuerAccount)
      ensures scoped ==> HasEmptyPermissions(Value())
      ensures !scoped ==> Value() == old(Value()).(limits := UserLimits(-1, -1, -1, [], [], ""))
    {
      if scoped {
        permissions := NO_PERMISSIONS;
        limits := UserLimits(0, 0, 0, [], [], "");
        bearerToken := false;
        proxyRequired := false;
        connTypes := [];
      } else {
        limits := UserLimits(-1, -1, -1, [], [], "");
      }
    }

    method SetIssuerAccount(account: string)
      modifies this
      ensures issuerAccount == if account == "" then None else Some(account)
      ensures Value() == old(Value()).(issuerAccount := issuerAccount)
    {
      if account == "" {
        issuerAccount := None;
      } else {
        issuerAccount := Some(account);
      }
    }
  }

  /** The object holds two empty permission objects and no other limit member. */
  predicate NoLimitMembers(o: Obj) {
    && Get(o, "pub") == Some(JObj(map[])) && Get(o, "sub") == Some(JObj(map[]))
    && Get(o, "resp") == None && Get(o, "subs") == None && Get(o, "data") == None
    && Get(o, "payload") == None && Get(o, "src") == None && Get(o, "times") == None
    && Get(o, "times_location") == None && Get(o, "bearer_token") == None
    && Get(o, "proxy_required") == None && Get(o, "allowed_connection_types") == None
  }

  /** A user has empty permissions if and only if nothing of them shows on the wire. */
  lemma EmptyOnTheWireExactly(raw: Obj, u: User)
    ensures HasEmptyPermissions(u) <==> NoLimitMembers(EncodeNats(raw, u))
  {
    NatsHoldsUser(raw, u);
    EmptyPermissionExactly(u.permissions.pub);
    EmptyPermissionExactly(u.permissions.sub);
    EmptyHeldExactly(EncodeNats(raw, u), u);
  }

  lemma EmptyHeldExactly(o: Obj, u: User)
    requires HoldsUser(o, u)
    requires ScopeWire.PermissionToJson(u.permissions.pub) == map[] <==> IsEmptyPermission(u.permissions.pub)
    requires ScopeWire.PermissionToJson(u.permissions.sub) == map[] <==> IsEmptyPermission(u.permissions.sub)
    ensures HasEmptyPermissions(u) <==> NoLimitMembers(o)
  {
  }

  lemma EmptyPermissionExactly(p: Permission)
    ensures ScopeWire.PermissionToJson(p) == map[] <==> IsEmptyPermission(p)
  {
    var o := ScopeWire.PermissionToJson(p);
    assert Get(o, "allow") == OmitNoStrings(p.allow);
    assert Get(o, "deny") == OmitNoStrings(p.deny);
  }

  // ---------------- tags and the source list ----------------

  /** Blanks only: space, tab, carriage return, line feed. */
  predicate AllBlank(s: string) {
    forall i :: 0 <= i < |s| ==> s[i] == ' ' || s[i] == '\t' || s[i] == '\r' || s[i] == '\n'
  }

  /** `r` is `s` with A to Z in lower case. */
  predicate Lowered(r: string, s: string) {
    && |r| == |s|
    && forall i :: 0 <= i < |s| ==>
      r[i] as int == if 'A' <= s[i] <= 'Z' then s[i] as int - 'A' as int + 'a' as int else s[i] as int
  }

  /** A tag is trimmed of the blanks around it, and put in lower case. */
  lemma {:induction false} NormalizeExactly(before: string, core: string, after: string)
    requires AllBlank(before) && AllBlank(after)
    requires core != "" ==> !IsBlank(core[0]) && !IsBlank(core[|core| - 1])
    ensures Lowered(NormalizeTag(before + core + after), core)
    decreases |before| + |after|
  {
    var t := before + core + after;
    if before != "" {
      NormalizeExactly(before[1..], core, after);
      assert t[1..] == before[1..] + core + after;
    } else if core == "" {
      if after != "" {
        NormalizeExactly("", "", after[1..]);
        assert t == after && t[1..] == "" + "" + after[1..];
      }
    } else if after != "" {
      NormalizeExactly("", core, after[..|after| - 1]);
      assert t[..|t| - 1] == "" + core + after[..|after| - 1];
      assert t[0] == core[0] && t[|t| - 1] == after[|after| - 1];
    } else {
      assert t == core;
    }
  }

  lemma {:induction false} NormalizedShape(t: string)
    ensures var r := NormalizeTag(t);
      && (r != "" ==> !IsBlank(r[0]) && !IsBlank(r[|r| - 1]))
      && forall i :: 0 <= i < |r| ==> !('A' <= r[i] <= 'Z')
    decreases |t|
  {
    if t == "" {
    } else if IsBlank(t[0]) {
      NormalizedShape(t[1..]);
    } else if IsBlank(t[|t| - 1]) {
      NormalizedShape(t[..|t| - 1]);
    }
  }

  /** Normalizing again changes nothing: `tagsContain` may compare with the tag as it is. */
  lemma NormalizedTwice(t: string)
    ensures NormalizeTag(NormalizeTag(t)) == NormalizeTag(t)
  {
    var r := NormalizeTag(t);
    NormalizedShape(t);
    NormalizeExactly("", r, "");
    assert "" + r + "" == r;
    assert forall i :: 0 <= i < |r| ==> NormalizeTag(r)[i] == r[i];
  }

  /** Some item is normalized to `t`. */
  ghost predicate Normalizes(items: seq<string>, t: string) {
    exists i :: 0 <= i < |items| && NormalizeTag(items[i]) == t
  }

  predicate NoRepeat(ts: seq<string>) {
    forall i, j :: 0 <= i < j < |ts| ==> ts[i] != ts[j]
  }

  lemma NormalizesNext(items: seq<string>, t: string)
    requires items != []
    ensures Normalizes(items, t) <==> NormalizeTag(items[0]) == t || Normalizes(items[1..], t)
  {
    if i :| 0 <= i < |items| && NormalizeTag(items[i]) == t {
      assert i > 0 ==> items[1..][i - 1] == items[i];
    }
    if i :| 0 <= i < |items| - 1 && NormalizeTag(items[1..][i]) == t {
      assert items[i + 1] == items[1..][i];
    }
  }

  /** Added are the normalized items that are not empty, each once, behind those that were there. */
  lemma {:induction false} AddTagsExactly(tags: seq<string>, items: seq<string>, t: string)
    ensures tags <= AddTags(tags, items)
    ensures t in AddTags(tags, items) <==> t in tags || (t != "" && Normalizes(items, t))
    ensures NoRepeat(tags) ==> NoRepeat(AddTags(tags, items))
    decreases items
  {
    if items != [] {
      var first := NormalizeTag(items[0]);
      AddTagsExactly(if first != "" && first !in tags then tags + [first] else tags, items[1..], t);
      NormalizesNext(items, t);
    }
  }

  /** They come in the order of the items: what a shorter list adds is a prefix. */
  lemma {:induction false} AddTagsInOrder(tags: seq<string>, items: seq<string>, n: nat)
    requires n <= |items|
    ensures AddTags(tags, items[..n]) <= AddTags(tags, items)
    decreases items
  {
    if n == 0 {
      AddTagsExactly(tags, items, "");
    } else {
      var first := NormalizeTag(items[0]);
      AddTagsInOrder(if first != "" && first !in tags then tags + [first] else tags, items[1..], n - 1);
      assert items[..n][1..] == items[1..][..n - 1];
    }
  }

  /** A source list given as a text: the parts between commas, trimmed, in lower case, without empty
      and repeated ones. */
  lemma SrcTextExactly(o: Obj, s: string, t: string)
    requires Get(o, "src") == Some(JStr(s))
    ensures ReadSrc(o).Ok? && NoRepeat(ReadSrc(o).value)
    ensures t in ReadSrc(o).value <==> t != "" && Normalizes(Split(s, ','), t)
  {
    AddTagsExactly([], Split(s, ','), t);
  }

  /** As an array, it is read as it is; anything else that is there fails. */
  lemma SrcArrayExactly(o: Obj, src: seq<string>)
    ensures "src" !in o ==> ReadSrc(o) == Ok([])
    ensures "src" in o && o["src"].JArr? ==> (ReadSrc(o) == Ok(src) <==> IsStrings(o["src"], src))
    ensures "src" in o && !o["src"].JArr? && !o["src"].JStr? ==> ReadSrc(o) == Err(Malformed)
  {
    if "src" in o && o["src"].JArr? {
      ReadAllExactly(AsString, o["src"].items, src);
    }
  }

  // ---------------- names ----------------

  /** The members of `nats` that belong to the typed user; all others are carried. */
  lemma ManagedExactly(k: string)
    ensures k in MANAGED <==>
      || k == "pub" || k == "sub" || k == "resp" || k == "subs" || k == "data" || k == "payload"
      || k == "src" || k == "times" || k == "times_location" || k == "bearer_token"
      || k == "proxy_required" || k == "allowed_connection_types"
      || k == "issuer_account" || k == "tags" || k == "type" || k == "version"
  {
  }

  /** What is read of an object is what the readers give of its members, under these names. */
  lemma DecodedExactly(o: Obj, u: User)
    ensures DecodeNats(o) == Ok(u) <==> ReadsLimits(o, u) && ReadsRest(o, u)
  {
    if ReadsLimits(o, u) && ReadsRest(o, u) {
      ReadsDecode(o, u);
    }
  }

  /** An absent limit of a user is 0, an empty issuer account is none. */
  lemma DecodedUser(o: Obj, u: User)
    requires DecodeNats(o) == Ok(u)
    ensures Get(o, "type") == Some(JStr("user"))
    ensures if Missing(o, "subs") then u.limits.subs == 0 else o["subs"] == JInt(u.limits.subs)
    ensures if Missing(o, "data") then u.limits.data == 0 else o["data"] == JInt(u.limits.data)
    ensures if Missing(o, "payload") then u.limits.payload == 0 else o["payload"] == JInt(u.limits.payload)
    ensures if "issuer_account" in o && o["issuer_account"] != JStr("")
            then u.issuerAccount.Some? && o["issuer_account"] == JStr(u.issuerAccount.value)
            else u.issuerAccount == None
  {
    DecodedExactly(o, u);
    IntFieldExactly(o, "subs", 0, u.limits.subs);
    IntFieldExactly(o, "data", 0, u.limits.data);
    IntFieldExactly(o, "payload", 0, u.limits.payload);
  }
}
