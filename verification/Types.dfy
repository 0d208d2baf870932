/** The data types of include/jwt/permissions.hpp and include/jwt/account_claims.hpp. */
module Types {
  import opened Json
  import opened Results

  datatype Permission = Permission(allow: seq<string>, deny: seq<string>)

  datatype ResponsePermission = ResponsePermission(maxMsgs: int32, ttlNanos: int64)

  datatype Permissions = Permissions(pub: Permission, sub: Permission, resp: Option<ResponsePermission>)

  datatype TimeRange = TimeRange(start: string, end: string)

  datatype UserLimits = UserLimits(
    subs: int64, data: int64, payload: int64,
    src: seq<string>, times: seq<TimeRange>, locale: string)

  datatype UserScope = UserScope(
    key: string, role: string, description: string,
    permissions: Permissions, limits: UserLimits,
    bearerToken: bool, proxyRequired: bool, connTypes: seq<string>)

  datatype JetStreamLimits = JetStreamLimits(
    memStorage: int64, diskStorage: int64, streams: int64, consumer: int64, maxAckPending: int64,
    memoryMaxStreamBytes: int64, diskMaxStreamBytes: int64, maxBytesRequired: bool)

  datatype AccountLimits = AccountLimits(
    subs: int64, data: int64, payload: int64, imports: int64, exports: int64,
    wildcardExports: bool, disallowBearer: bool, conn: int64, leafNodeConn: int64,
    jetStream: JetStreamLimits, tieredLimits: map<string, JetStreamLimits>)

  datatype WeightedMapping = WeightedMapping(subject: string, weight: uint8, cluster: string)

  datatype ExportType = Unknown | Stream | Service

  datatype ServiceLatency = ServiceLatency(sampling: int32, results: string)

  datatype Export = Export(
    name: string, subject: string, kind: ExportType, tokenReq: bool, revocations: map<string, int64>,
    responseType: string, responseThresholdNanos: int64, latency: Option<ServiceLatency>,
    accountTokenPosition: uint32, advertise: bool, allowTrace: bool,
    description: string, infoURL: string)

  datatype Import = Import(
    name: string, subject: string, account: string, token: string, to: string,
    localSubject: string, kind: ExportType, share: bool, allowTrace: bool)

  datatype ExternalAuthorization = ExternalAuthorization(
    authUsers: seq<string>, allowedAccounts: seq<string>, xkey: string)

  const NO_PERMISSION := Permission([], [])
  const NO_PERMISSIONS := Permissions(NO_PERMISSION, NO_PERMISSION, None)
  const NO_JETSTREAM := JetStreamLimits(0, 0, 0, 0, 0, 0, 0, false)
  const NO_AUTHORIZATION := ExternalAuthorization([], [], "")
}
