/** The parts of an account on the wire: limits, exports, imports, mappings, authorization
(src/account_claims.cpp).  Each part has a writer, a reader, and the exact round trip. */
module AccountParts {
  import opened Results
  import opened Json
  import opened Types

  // ---------------- limits ----------------

  const JETSTREAM_KEYS := {
    "mem_storage", "disk_storage", "streams", "consumer", "max_ack_pending",
    "mem_max_stream_bytes", "disk_max_stream_bytes", "max_bytes_required"}

  function JetStreamMember(j: JetStreamLimits, k: string): Option<Json> {
    if k == "mem_storage" then OmitZero(j.memStorage)
    else if k == "disk_storage" then OmitZero(j.diskStorage)
    else if k == "streams" then OmitZero(j.streams)
    else if k == "consumer" then OmitZero(j.consumer)
    else if k == "max_ack_pending" then OmitZero(j.maxAckPending)
    else if k == "mem_max_stream_bytes" then OmitZero(j.memoryMaxStreamBytes)
    else if k == "disk_max_stream_bytes" then OmitZero(j.diskMaxStreamBytes)
    else if k == "max_bytes_required" then OmitFalse(j.maxBytesRequired)
    else None
  }

  predicate HoldsJetStream(o: Obj, j: JetStreamLimits) {
    && Get(o, "mem_storage") == OmitZero(j.memStorage)
    && Get(o, "disk_storage") == OmitZero(j.diskStorage)
    && Get(o, "streams") == OmitZero(j.streams)
    && Get(o, "consumer") == OmitZero(j.consumer)
    && Get(o, "max_ack_pending") == OmitZero(j.maxAckPending)
    && Get(o, "mem_max_stream_bytes") == OmitZero(j.memoryMaxStreamBytes)
    && Get(o, "disk_max_stream_bytes") == OmitZero(j.diskMaxStreamBytes)
    && Get(o, "max_bytes_required") == OmitFalse(j.maxBytesRequired)
  }

  /** `jetStreamLimitsInto` a fresh object. */
  function JetStreamToJson(j: JetStreamLimits): Obj {
    Build(JETSTREAM_KEYS, k => JetStreamMember(j, k))
  }

  /** `jetStreamLimitsFrom`. */
  function JetStreamFromJson(o: Obj): Result<JetStreamLimits> {
    var memStorage :- IntField(o, "mem_storage", 0);
    var diskStorage :- IntField(o, "disk_storage", 0);
    var streams :- IntField(o, "streams", 0);
    var consumer :- IntField(o, "consumer", 0);
    var maxAckPending :- IntField(o, "max_ack_pending", 0);
    var memoryMax :- IntField(o, "mem_max_stream_bytes", 0);
    var diskMax :- IntField(o, "disk_max_stream_bytes", 0);
    var required :- BoolValue(o, "max_bytes_required");
    Ok(JetStreamLimits(memStorage, diskStorage, streams, consumer, maxAckPending, memoryMax, diskMax, required))
  }

  lemma JetStreamHolds(j: JetStreamLimits)
    ensures HoldsJetStream(JetStreamToJson(j), j)
  {
  }

  lemma JetStreamReads(o: Obj, j: JetStreamLimits)
    requires HoldsJetStream(o, j)
    ensures JetStreamFromJson(o) == Ok(j)
  {
    IntReads(o, "mem_storage", j.memStorage, 0);
    IntReads(o, "disk_storage", j.diskStorage, 0);
    IntReads(o, "streams", j.streams, 0);
    IntReads(o, "consumer", j.consumer, 0);
    IntReads(o, "max_ack_pending", j.maxAckPending, 0);
    IntReads(o, "mem_max_stream_bytes", j.memoryMaxStreamBytes, 0);
    IntReads(o, "disk_max_stream_bytes", j.diskMaxStreamBytes, 0);
    BoolReads(o, "max_bytes_required", j.maxBytesRequired);
  }

  /** A tier of `tiered_limits`. */
  function ReadTier(v: Json): Result<JetStreamLimits> {
    var o :- AsObject(v);
    JetStreamFromJson(o)
  }

  function TiersToJson(tiers: map<string, JetStreamLimits>): Obj {
    map n | n in tiers :: JObj(JetStreamToJson(tiers[n]))
  }

  lemma TiersRoundTrip(tiers: map<string, JetStreamLimits>)
    ensures ReadMembers(ReadTier, TiersToJson(tiers)) == Ok(tiers)
  {
    var o := TiersToJson(tiers);
    forall n | n in o
      ensures ReadTier(o[n]) == Ok(tiers[n])
    {
      JetStreamHolds(tiers[n]);
      JetStreamReads(JetStreamToJson(tiers[n]), tiers[n]);
    }
    ReadMembersOf(ReadTier, o, tiers);
  }

  const LIMITS_KEYS := {
    "subs", "data", "payload", "imports", "exports", "wildcards", "disallow_bearer", "conn", "leaf",
    "tiered_limits"}

  function AccountLimitMember(l: AccountLimits, tiers: Obj, k: string): Option<Json> {
    if k == "subs" then OmitZero(l.subs)
    else if k == "data" then OmitZero(l.data)
    else if k == "payload" then OmitZero(l.payload)
    else if k == "imports" then OmitZero(l.imports)
    else if k == "exports" then OmitZero(l.exports)
    else if k == "wildcards" then OmitFalse(l.wildcardExports)
    else if k == "disallow_bearer" then OmitFalse(l.disallowBearer)
    else if k == "conn" then OmitZero(l.conn)
    else if k == "leaf" then OmitZero(l.leafNodeConn)
    else if k == "tiered_limits" then (if tiers != map[] then Some(JObj(tiers)) else None)
    else JetStreamMember(l.jetStream, k)
  }

  predicate HoldsAccountLimits(o: Obj, l: AccountLimits, tiers: Obj) {
    && Get(o, "subs") == OmitZero(l.subs)
    && Get(o, "data") == OmitZero(l.data)
    && Get(o, "payload") == OmitZero(l.payload)
    && Get(o, "imports") == OmitZero(l.imports)
    && Get(o, "exports") == OmitZero(l.exports)
    && Get(o, "wildcards") == OmitFalse(l.wildcardExports)
    && Get(o, "disallow_bearer") == OmitFalse(l.disallowBearer)
    && Get(o, "conn") == OmitZero(l.conn)
    && Get(o, "leaf") == OmitZero(l.leafNodeConn)
    && Get(o, "tiered_limits") == if tiers != map[] then Some(JObj(tiers)) else None
  }

  function LimitsObject(l: AccountLimits, tiers: Obj): Obj {
    Build(LIMITS_KEYS + JETSTREAM_KEYS, k => AccountLimitMember(l, tiers, k))
  }

  /** `accountLimitsToJson`. */
  function LimitsToJson(l: AccountLimits): Obj {
    LimitsObject(l, TiersToJson(l.tieredLimits))
  }

  function ReadTiers(o: Obj): Result<map<string, JetStreamLimits>> {
    var member :- ObjectField(o, "tiered_limits");
    match member
    case None => Ok(map[])
    case Some(tiers) => ReadMembers(ReadTier, tiers)
  }

  /** `accountLimitsFromJson`: with tiers present the flat JetStream limits are zeroed. */
  function LimitsFromJson(o: Obj): Result<AccountLimits> {
    var subs :- IntField(o, "subs", 0);
    var data :- IntField(o, "data", 0);
    var payload :- IntField(o, "payload", 0);
    var imports :- IntField(o, "imports", 0);
    var exports :- IntField(o, "exports", 0);
    var wildcards :- BoolValue(o, "wildcards");
    var disallow :- BoolValue(o, "disallow_bearer");
    var conn :- IntField(o, "conn", 0);
    var leaf :- IntField(o, "leaf", 0);
    var jetStream :- JetStreamFromJson(o);
    var tiers :- ReadTiers(o);
    Ok(AccountLimits(subs, data, payload, imports, exports, wildcards, disallow, conn, leaf,
                     if tiers == map[] then jetStream else NO_JETSTREAM, tiers))
  }

  lemma LimitsHold(l: AccountLimits, tiers: Obj)
    ensures HoldsAccountLimits(LimitsObject(l, tiers), l, tiers)
  {
  }

  lemma LimitsHoldJetStream(l: AccountLimits, tiers: Obj)
    ensures HoldsJetStream(LimitsObject(l, tiers), l.jetStream)
  {
  }

  function RereadTiers(l: AccountLimits): AccountLimits {
    if l.tieredLimits == map[] then l else l.(jetStream := NO_JETSTREAM)
  }

  lemma LimitsRead(o: Obj, l: AccountLimits, tiers: Obj)
    requires HoldsAccountLimits(o, l, tiers) && HoldsJetStream(o, l.jetStream)
    requires ReadMembers(ReadTier, tiers) == Ok(l.tieredLimits)
    ensures LimitsFromJson(o) == Ok(RereadTiers(l))
  {
    IntReads(o, "subs", l.subs, 0);
    IntReads(o, "data", l.data, 0);
    IntReads(o, "payload", l.payload, 0);
    IntReads(o, "imports", l.imports, 0);
    IntReads(o, "exports", l.exports, 0);
    BoolReads(o, "wildcards", l.wildcardExports);
    BoolReads(o, "disallow_bearer", l.disallowBearer);
    IntReads(o, "conn", l.conn, 0);
    IntReads(o, "leaf", l.leafNodeConn, 0);
    JetStreamReads(o, l.jetStream);
    assert ReadTiers(o) == Ok(l.tieredLimits);
  }

  lemma LimitsRoundTrip(l: AccountLimits)
    ensures LimitsFromJson(LimitsToJson(l)) == Ok(RereadTiers(l))
  {
    var tiers := TiersToJson(l.tieredLimits);
    TiersRoundTrip(l.tieredLimits);
    LimitsHold(l, tiers);
    LimitsHoldJetStream(l, tiers);
    LimitsRead(LimitsToJson(l), l, tiers);
  }

  /** Limits come back unchanged if and only if there are no tiers or no flat JetStream limits. */
  predicate OneJetStream(l: AccountLimits) {
    l.tieredLimits == map[] || l.jetStream == NO_JETSTREAM
  }

  /** Limits that were read never hold both. */
  lemma ReadLimitsOnce(o: Obj, l: AccountLimits)
    requires LimitsFromJson(o) == Ok(l)
    ensures OneJetStream(l)
  {
  }

  lemma LimitsUnchangedExactly(l: AccountLimits)
    ensures LimitsFromJson(LimitsToJson(l)) == Ok(l) <==> OneJetStream(l)
  {
    LimitsRoundTrip(l);
  }

  /** And only then are they written the same way again. */
  lemma LimitsRewrittenExactly(l: AccountLimits)
    ensures LimitsToJson(RereadTiers(l)) == LimitsToJson(l) <==> OneJetStream(l)
  {
    if LimitsToJson(RereadTiers(l)) == LimitsToJson(l) {
      var tiers := TiersToJson(l.tieredLimits);
      LimitsHoldJetStream(l, tiers);
      LimitsHoldJetStream(RereadTiers(l), tiers);
      JetStreamReads(LimitsToJson(l), l.jetStream);
      JetStreamReads(LimitsToJson(l), RereadTiers(l).jetStream);
    }
  }

  // ---------------- exports ----------------

  function KindText(t: ExportType): string {
    match t
    case Stream => "stream"
    case Service => "service"
    case Unknown => ""
  }

  /** `exportTypeFrom`. */
  function KindFrom(s: string): Result<ExportType> {
    if s == "stream" then Ok(Stream)
    else if s == "service" then Ok(Service)
    else if s == "" then Ok(Unknown)
    else Err(Malformed)
  }

  function ReadKind(o: Obj): Result<ExportType> {
    var s :- StringValue(o, "type");
    KindFrom(s)
  }

  function NumbersToJson(m: map<string, int64>): Obj {
    map k | k in m :: JInt(m[k])
  }

  lemma NumbersRoundTrip(m: map<string, int64>)
    ensures ReadMembers(IntValue, NumbersToJson(m)) == Ok(m)
  {
    ReadMembersOf(IntValue, NumbersToJson(m), m);
  }

  function OmitNoNumbers(m: map<string, int64>): Option<Json> {
    if m != map[] then Some(JObj(NumbersToJson(m))) else None
  }

  /** `revocations` of an account or of an export. */
  function ReadRevocations(o: Obj): Result<map<string, int64>> {
    var member :- ObjectField(o, "revocations");
    match member
    case None => Ok(map[])
    case Some(r) => ReadMembers(IntValue, r)
  }

  lemma RevocationsRead(o: Obj, m: map<string, int64>)
    requires Get(o, "revocations") == OmitNoNumbers(m)
    ensures ReadRevocations(o) == Ok(m)
  {
    NumbersRoundTrip(m);
  }

  function LatencyMember(l: ServiceLatency, k: string): Option<Json> {
    if k == "sampling" then Some(if l.sampling == 0 then JStr("headers") else JInt(l.sampling))
    else if k == "results" then Some(JStr(l.results))
    else None
  }

  function LatencyToJson(l: ServiceLatency): Obj {
    Build({"sampling", "results"}, k => LatencyMember(l, k))
  }

  function LatencyFromJson(o: Obj): Result<ServiceLatency> {
    var sampling :- if Get(o, "sampling").Some? && Get(o, "sampling").value.JStr? then Ok(0)
                    else UintField(o, "sampling", 0, 100);
    var results :- StringValue(o, "results");
    Ok(ServiceLatency(sampling, results))
  }

  /** A sampling rate survives if and only if it is a percentage. */
  lemma LatencyRoundTripExactly(l: ServiceLatency)
    ensures LatencyFromJson(LatencyToJson(l)) == if 0 <= l.sampling <= 100 then Ok(l) else Err(Malformed)
  {
    var o := LatencyToJson(l);
    assert Get(o, "sampling") == Some(if l.sampling == 0 then JStr("headers") else JInt(l.sampling));
    assert Get(o, "results") == Some(JStr(l.results));
  }

  function ReadLatency(o: Obj): Result<Option<ServiceLatency>> {
    var member :- ObjectField(o, "service_latency");
    match member
    case None => Ok(None)
    case Some(lat) =>
      var l :- LatencyFromJson(lat);
      Ok(Some(l))
  }

  const EXPORT_KEYS := {
    "name", "subject", "type", "token_req", "revocations", "response_type", "response_threshold",
    "service_latency", "account_token_position", "advertise", "allow_trace", "description", "info_url"}

  function ExportMember(e: Export, revocations: Option<Json>, latency: Option<Json>, k: string): Option<Json> {
    if k == "name" then OmitEmpty(e.name)
    else if k == "subject" then OmitEmpty(e.subject)
    else if k == "type" then OmitEmpty(KindText(e.kind))
    else if k == "token_req" then OmitFalse(e.tokenReq)
    else if k == "revocations" then revocations
    else if k == "response_type" then OmitEmpty(e.responseType)
    else if k == "response_threshold" then OmitZero(e.responseThresholdNanos)
    else if k == "service_latency" then latency
    else if k == "account_token_position" then OmitZero(e.accountTokenPosition)
    else if k == "advertise" then OmitFalse(e.advertise)
    else if k == "allow_trace" then OmitFalse(e.allowTrace)
    else if k == "description" then OmitEmpty(e.description)
    else if k == "info_url" then OmitEmpty(e.infoURL)
    else None
  }

  predicate HoldsExport(o: Obj, e: Export, revocations: Option<Json>, latency: Option<Json>) {
    && Get(o, "name") == OmitEmpty(e.name)
    && Get(o, "subject") == OmitEmpty(e.subject)
    && Get(o, "type") == OmitEmpty(KindText(e.kind))
    && Get(o, "token_req") == OmitFalse(e.tokenReq)
    && Get(o, "revocations") == revocations
    && Get(o, "response_type") == OmitEmpty(e.responseType)
    && Get(o, "response_threshold") == OmitZero(e.responseThresholdNanos)
    && Get(o, "service_latency") == latency
    && Get(o, "account_token_position") == OmitZero(e.accountTokenPosition)
    && Get(o, "advertise") == OmitFalse(e.advertise)
    && Get(o, "allow_trace") == OmitFalse(e.allowTrace)
    && Get(o, "description") == OmitEmpty(e.description)
    && Get(o, "info_url") == OmitEmpty(e.infoURL)
  }

  function ExportObject(e: Export, revocations: Option<Json>, latency: Option<Json>): Obj {
    Build(EXPORT_KEYS, k => ExportMember(e, revocations, latency, k))
  }

  function OmitNoLatency(l: Option<ServiceLatency>): Option<Json> {
    if l.Some? then Some(JObj(LatencyToJson(l.value))) else None
  }

  /** `exportToJson`. */
  function ExportToJson(e: Export): Json {
    JObj(ExportObject(e, OmitNoNumbers(e.revocations), OmitNoLatency(e.latency)))
  }

  /** `exportFromJson`. */
  function ExportFromJson(v: Json): Result<Export> {
    var o :- AsObject(v);
    var name :- StringValue(o, "name");
    var subject :- StringValue(o, "subject");
    var kind :- ReadKind(o);
    var tokenReq :- BoolValue(o, "token_req");
    var revocations :- ReadRevocations(o);
    var responseType :- StringValue(o, "response_type");
    var threshold :- IntField(o, "response_threshold", 0);
    var latency :- ReadLatency(o);
    var position :- UintField(o, "account_token_position", 0, 0xFFFF_FFFF);
    var advertise :- BoolValue(o, "advertise");
    var allowTrace :- BoolValue(o, "allow_trace");
    var description :- StringValue(o, "description");
    var infoURL :- StringValue(o, "info_url");
    Ok(Export(name, subject, kind, tokenReq, revocations, responseType, threshold, latency, position,
              advertise, allowTrace, description, infoURL))
  }

  lemma ExportHolds(e: Export, revocations: Option<Json>, latency: Option<Json>)
    ensures HoldsExport(ExportObject(e, revocations, latency), e, revocations, latency)
  {
  }

  /** The sampling rates `validate` lets through. */
  predicate SamplingOk(e: Export) {
    e.latency.Some? ==> 0 <= e.latency.value.sampling <= 100
  }

  lemma ExportReads(o: Obj, e: Export, revocations: Option<Json>, latency: Option<Json>)
    requires HoldsExport(o, e, revocations, latency)
    requires ReadRevocations(o) == Ok(e.revocations)
    requires ReadLatency(o) == if SamplingOk(e) then Ok(e.latency) else Err(Malformed)
    ensures ExportFromJson(JObj(o)) == if SamplingOk(e) then Ok(e) else Err(Malformed)
  {
    StringReads(o, "name", e.name);
    StringReads(o, "subject", e.subject);
    StringReads(o, "type", KindText(e.kind));
    BoolReads(o, "token_req", e.tokenReq);
    StringReads(o, "response_type", e.responseType);
    IntReads(o, "response_threshold", e.responseThresholdNanos, 0);
    BoolReads(o, "advertise", e.advertise);
    BoolReads(o, "allow_trace", e.allowTrace);
    StringReads(o, "description", e.description);
    StringReads(o, "info_url", e.infoURL);
    assert UintField(o, "account_token_position", 0, 0xFFFF_FFFF) == Ok(e.accountTokenPosition);
    assert ReadKind(o) == Ok(e.kind);
  }

  /** No export that was read has any other rate. */
  lemma ReadSamplingOk(v: Json, e: Export)
    requires ExportFromJson(v) == Ok(e)
    ensures SamplingOk(e)
  {
    assert ReadLatency(v.members) == Ok(e.latency);
  }

  /** An export survives if and only if its sampling rate is a percentage. */
  lemma ExportRoundTripExactly(e: Export)
    ensures ExportFromJson(ExportToJson(e)) == if SamplingOk(e) then Ok(e) else Err(Malformed)
  {
    var r, l := OmitNoNumbers(e.revocations), OmitNoLatency(e.latency);
    var o := ExportObject(e, r, l);
    ExportHolds(e, r, l);
    RevocationsRead(o, e.revocations);
    if e.latency.Some? {
      LatencyRoundTripExactly(e.latency.value);
    }
    ExportReads(o, e, r, l);
  }

  // ---------------- imports ----------------

  const IMPORT_KEYS := {
    "name", "subject", "account", "token", "to", "local_subject", "type", "share", "allow_trace"}

  function ImportMember(i: Import, k: string): Option<Json> {
    if k == "name" then OmitEmpty(i.name)
    else if k == "subject" then OmitEmpty(i.subject)
    else if k == "account" then OmitEmpty(i.account)
    else if k == "token" then OmitEmpty(i.token)
    else if k == "to" then OmitEmpty(i.to)
    else if k == "local_subject" then OmitEmpty(i.localSubject)
    else if k == "type" then OmitEmpty(KindText(i.kind))
    else if k == "share" then OmitFalse(i.share)
    else if k == "allow_trace" then OmitFalse(i.allowTrace)
    else None
  }

  predicate HoldsImport(o: Obj, i: Import) {
    && Get(o, "name") == OmitEmpty(i.name)
    && Get(o, "subject") == OmitEmpty(i.subject)
    && Get(o, "account") == OmitEmpty(i.account)
    && Get(o, "token") == OmitEmpty(i.token)
    && Get(o, "to") == OmitEmpty(i.to)
    && Get(o, "local_subject") == OmitEmpty(i.localSubject)
    && Get(o, "type") == OmitEmpty(KindText(i.kind))
    && Get(o, "share") == OmitFalse(i.share)
    && Get(o, "allow_trace") == OmitFalse(i.allowTrace)
  }

  function ImportObject(i: Import): Obj {
    Build(IMPORT_KEYS, k => ImportMember(i, k))
  }

  /** `importToJson`. */
  function ImportToJson(i: Import): Json {
    JObj(ImportObject(i))
  }

  /** `importFromJson`. */
  function ImportFromJson(v: Json): Result<Import> {
    var o :- AsObject(v);
    var name :- StringValue(o, "name");
    var subject :- StringValue(o, "subject");
    var account :- StringValue(o, "account");
    var token :- StringValue(o, "token");
    var to :- StringValue(o, "to");
    var localSubject :- StringValue(o, "local_subject");
    var kind :- ReadKind(o);
    var share :- BoolValue(o, "share");
    var allowTrace :- BoolValue(o, "allow_trace");
    Ok(Import(name, subject, account, token, to, localSubject, kind, share, allowTrace))
  }

  lemma ImportHolds(i: Import)
    ensures HoldsImport(ImportObject(i), i)
  {
  }

  lemma ImportReads(o: Obj, i: Import)
    requires HoldsImport(o, i)
    ensures ImportFromJson(JObj(o)) == Ok(i)
  {
    StringReads(o, "name", i.name);
    StringReads(o, "subject", i.subject);
    StringReads(o, "account", i.account);
    StringReads(o, "token", i.token);
    StringReads(o, "to", i.to);
    StringReads(o, "local_subject", i.localSubject);
    StringReads(o, "type", KindText(i.kind));
    BoolReads(o, "share", i.share);
    BoolReads(o, "allow_trace", i.allowTrace);
    assert ReadKind(o) == Ok(i.kind);
  }

  lemma ImportRoundTrip(i: Import)
    ensures ImportFromJson(ImportToJson(i)) == Ok(i)
  {
    ImportHolds(i);
    ImportReads(ImportObject(i), i);
  }

  // ---------------- mappings ----------------

  function DestinationMember(wm: WeightedMapping, k: string): Option<Json> {
    if k == "subject" then Some(JStr(wm.subject))
    else if k == "weight" then OmitZero(wm.weight)
    else if k == "cluster" then OmitEmpty(wm.cluster)
    else None
  }

  function DestinationToJson(wm: WeightedMapping): Json {
    JObj(Build({"subject", "weight", "cluster"}, k => DestinationMember(wm, k)))
  }

  function DestinationFromJson(v: Json): Result<WeightedMapping> {
    var o :- AsObject(v);
    var subject :- StringValue(o, "subject");
    var weight :- UintField(o, "weight", 0, 255);
    var cluster :- StringValue(o, "cluster");
    Ok(WeightedMapping(subject, weight, cluster))
  }

  lemma DestinationRoundTrip(wm: WeightedMapping)
    ensures DestinationFromJson(DestinationToJson(wm)) == Ok(wm)
  {
    var o := DestinationToJson(wm).members;
    assert Get(o, "subject") == Some(JStr(wm.subject));
    assert Get(o, "weight") == OmitZero(wm.weight);
    assert Get(o, "cluster") == OmitEmpty(wm.cluster);
  }

  function DestinationsToJson(wms: seq<WeightedMapping>): seq<Json> {
    seq(|wms|, i requires 0 <= i < |wms| => DestinationToJson(wms[i]))
  }

  function DestinationsFromJson(v: Json): Result<seq<WeightedMapping>> {
    if v.JArr? then ReadAll(DestinationFromJson, v.items) else Err(Malformed)
  }

  function MappingsToJson(m: map<string, seq<WeightedMapping>>): Obj {
    map from | from in m :: JArr(DestinationsToJson(m[from]))
  }

  lemma MappingsRoundTrip(m: map<string, seq<WeightedMapping>>)
    ensures ReadMembers(DestinationsFromJson, MappingsToJson(m)) == Ok(m)
  {
    var o := MappingsToJson(m);
    forall from | from in o
      ensures DestinationsFromJson(o[from]) == Ok(m[from])
    {
      var items := DestinationsToJson(m[from]);
      forall i | 0 <= i < |items|
        ensures DestinationFromJson(items[i]) == Ok(m[from][i])
      {
        DestinationRoundTrip(m[from][i]);
      }
      ReadAllItems(DestinationFromJson, items, m[from]);
    }
    ReadMembersOf(DestinationsFromJson, o, m);
  }

  // ---------------- external authorization ----------------

  function AuthorizationMember(a: ExternalAuthorization, k: string): Option<Json> {
    if k == "auth_users" then OmitNoStrings(a.authUsers)
    else if k == "allowed_accounts" then OmitNoStrings(a.allowedAccounts)
    else if k == "xkey" then OmitEmpty(a.xkey)
    else None
  }

  function AuthorizationToJson(a: ExternalAuthorization): Obj {
    Build({"auth_users", "allowed_accounts", "xkey"}, k => AuthorizationMember(a, k))
  }

  function AuthorizationFromJson(o: Obj): Result<ExternalAuthorization> {
    var users :- StringsField(o, "auth_users");
    var accounts :- StringsField(o, "allowed_accounts");
    var xkey :- StringValue(o, "xkey");
    Ok(ExternalAuthorization(users, accounts, xkey))
  }

  predicate HoldsAuthorization(o: Obj, a: ExternalAuthorization) {
    && Get(o, "auth_users") == OmitNoStrings(a.authUsers)
    && Get(o, "allowed_accounts") == OmitNoStrings(a.allowedAccounts)
    && Get(o, "xkey") == OmitEmpty(a.xkey)
  }

  lemma AuthorizationHolds(a: ExternalAuthorization)
    ensures HoldsAuthorization(AuthorizationToJson(a), a)
  {
  }

  lemma AuthorizationReads(o: Obj, a: ExternalAuthorization)
    requires HoldsAuthorization(o, a)
    ensures AuthorizationFromJson(o) == Ok(a)
  {
    StringsFieldReads(o, "auth_users", a.authUsers);
    StringsFieldReads(o, "allowed_accounts", a.allowedAccounts);
    StringReads(o, "xkey", a.xkey);
  }

  lemma AuthorizationRoundTrip(a: ExternalAuthorization)
    ensures AuthorizationFromJson(AuthorizationToJson(a)) == Ok(a)
  {
    AuthorizationHolds(a);
    AuthorizationReads(AuthorizationToJson(a), a);
  }

  // ---------------- what is left out, and how kinds and rates are named ----------------

  /** An empty map and an absent latency leave no member. */
  lemma PartsOmitted(numbers: map<string, int64>, latency: Option<ServiceLatency>)
    ensures OmitNoNumbers(numbers) == None <==> numbers == map[]
    ensures OmitNoLatency(latency) == None <==> latency == None
  {
  }

  /** The names of the kinds; any other name is malformed. */
  lemma KindNames(k: ExportType, s: string)
    ensures KindText(k) == s <==>
      (k == Stream && s == "stream") || (k == Service && s == "service") || (k == Unknown && s == "")
    ensures KindFrom(s) == Ok(k) <==> KindText(k) == s
    ensures KindFrom(s) == Err(Malformed) <==> s != "stream" && s != "service" && s != ""
  {
  }

  /** A rate of 0 is written as the word "headers", any other as the number; of a rate that is read,
      every string means 0. */
  lemma LatencyNames(l: ServiceLatency, o: Obj, s: string)
    requires Get(o, "sampling") == Some(JStr(s)) && "results" !in o
    ensures l.sampling == 0 ==> Get(LatencyToJson(l), "sampling") == Some(JStr("headers"))
    ensures l.sampling != 0 ==> Get(LatencyToJson(l), "sampling") == Some(JInt(l.sampling))
    ensures Get(LatencyToJson(l), "results") == Some(JStr(l.results))
    ensures LatencyFromJson(o) == Ok(ServiceLatency(0, ""))
  {
  }

  /** The names of the members of a weighted destination. */
  lemma DestinationNames(wm: WeightedMapping)
    ensures DestinationToJson(wm).JObj?
    ensures Get(DestinationToJson(wm).members, "subject") == Some(JStr(wm.subject))
    ensures Get(DestinationToJson(wm).members, "weight") == OmitZero(wm.weight)
    ensures Get(DestinationToJson(wm).members, "cluster") == OmitEmpty(wm.cluster)
  {
  }
}
