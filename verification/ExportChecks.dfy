/** What an export must satisfy on its own (`validateExportsImports` of src/account_claims.cpp). */
module ExportChecks {
  import opened Json
  import opened Types
  import opened Findings
  import opened Tokens
  import opened Subjects

  /** The answer of `validateInfo`, which is foreign. */
  type InfoCheck = (string, string) -> seq<Finding>

  predicate KnownResponse(responseType: string) {
    responseType == "" || responseType == "Singleton" || responseType == "Stream" || responseType == "Chunked"
  }

  function TypeFindings(e: Export): seq<Finding> {
    (if e.kind.Unknown? then [InvalidExportType] else [])
    + (if e.kind.Service? && !KnownResponse(e.responseType) then [InvalidResponseType] else [])
    + (if e.kind.Stream? && e.responseType != "" then [InvalidResponseType] else [])
    + (if e.kind.Stream? && e.allowTrace then [AllowTraceOnStream] else [])
  }

  function RateFindings(service: bool, sampling: int32): seq<Finding> {
    (if !service then [LatencyNotService] else [])
    + (if sampling != 0 && (sampling < 1 || sampling > 100) then [SamplingOutOfRange] else [])
  }

  function LatencyFindings(e: Export): seq<Finding> {
    if e.latency.None? then []
    else RateFindings(e.kind.Service?, e.latency.value.sampling) + ResultsFindings(e.latency.value.results)
  }

  function ResultsFindings(results: string): seq<Finding> {
    SubjectFindings(results) + if HasWildcards(results) then [ResultsHaveWildcards] else []
  }

  function ThresholdFindings(e: Export): seq<Finding> {
    (if e.responseThresholdNanos < 0 then [NegativeThreshold] else [])
    + (if e.responseThresholdNanos > 0 && !e.kind.Service? then [ThresholdNotService] else [])
  }

  function PositionFindings(e: Export): seq<Finding> {
    var tokens := Split(e.subject, '.');
    if e.accountTokenPosition == 0 then []
    else if !HasWildcards(e.subject) then [PositionWithoutWildcard]
    else if e.accountTokenPosition > |tokens| then [PositionTooLarge]
    else if tokens[e.accountTokenPosition - 1] != "*" then [PositionNotStar]
    else []
  }

  function ExportFindings(e: Export, info: InfoCheck): seq<Finding> {
    TypeFindings(e) + LatencyFindings(e) + ThresholdFindings(e) + SubjectFindings(e.subject)
    + PositionFindings(e) + info(e.description, e.infoURL)
  }

  // ---------------- the checks of the source ----------------

  method CheckKind(e: Export, vr: ValidationResults)
    modifies vr
    ensures vr.issues == old(vr.issues) + Errors(TypeFindings(e))
  {
    ghost var before := vr.issues;
    ghost var found := AddErrorIf(e.kind.Unknown?, InvalidExportType, vr, before, []);
    found := AddErrorIf(e.kind.Service? && !KnownResponse(e.responseType), InvalidResponseType, vr, before, found);
    found := AddErrorIf(e.kind.Stream? && e.responseType != "", InvalidResponseType, vr, before, found);
    found := AddErrorIf(e.kind.Stream? && e.allowTrace, AllowTraceOnStream, vr, before, found);
  }

  method CheckResults(results: string, vr: ValidationResults)
    modifies vr
    ensures vr.issues == old(vr.issues) + Errors(ResultsFindings(results))
  {
    ghost var before := vr.issues;
    ValidateSubject(results, vr);
    ghost var found := AddErrorIf(HasWildcards(results), ResultsHaveWildcards, vr, before, SubjectFindings(results));
  }

  method CheckRate(service: bool, sampling: int32, vr: ValidationResults)
    modifies vr
    ensures vr.issues == old(vr.issues) + Errors(RateFindings(service, sampling))
  {
    ghost var before := vr.issues;
    ghost var found := AddErrorIf(!service, LatencyNotService, vr, before, []);
    found := AddErrorIf(sampling != 0 && (sampling < 1 || sampling > 100), SamplingOutOfRange, vr, before, found);
  }

  method CheckLatency(e: Export, vr: ValidationResults)
    modifies vr
    ensures vr.issues == old(vr.issues) + Errors(LatencyFindings(e))
  {
    if e.latency.Some? {
      var l := e.latency.value;
      Accumulate(vr.issues, RateFindings(e.kind.Service?, l.sampling), ResultsFindings(l.results));
      CheckRate(e.kind.Service?, l.sampling, vr);
      CheckResults(l.results, vr);
    }
  }

  method CheckThreshold(e: Export, vr: ValidationResults)
    modifies vr
    ensures vr.issues == old(vr.issues) + Errors(ThresholdFindings(e))
  {
    ghost var before := vr.issues;
    ghost var found := AddErrorIf(e.responseThresholdNanos < 0, NegativeThreshold, vr, before, []);
    found := AddErrorIf(e.responseThresholdNanos > 0 && !e.kind.Service?, ThresholdNotService, vr, before, found);
  }

  method CheckPosition(e: Export, vr: ValidationResults)
    modifies vr
    ensures vr.issues == old(vr.issues) + Errors(PositionFindings(e))
  {
    if e.accountTokenPosition > 0 {
      if !HasWildcards(e.subject) {
        vr.AddError(PositionWithoutWildcard);
        return;
      }
      var tokens := SplitOn(e.subject, '.');
      if e.accountTokenPosition > |tokens| {
        vr.AddError(PositionTooLarge);
      } else if tokens[e.accountTokenPosition - 1] != "*" {
        vr.AddError(PositionNotStar);
      }
    }
  }

  /** The findings of one export, in the order of the source. */
  method CheckExport(e: Export, info: InfoCheck, vr: ValidationResults)
    modifies vr
    ensures vr.issues == old(vr.issues) + Errors(ExportFindings(e, info))
  {
    ghost var before := vr.issues;
    ghost var found := TypeFindings(e);
    CheckKind(e, vr);
    CheckLatency(e, vr);
    Accumulate(before, found, LatencyFindings(e));
    found := found + LatencyFindings(e);
    CheckThreshold(e, vr);
    Accumulate(before, found, ThresholdFindings(e));
    found := found + ThresholdFindings(e);
    ValidateSubject(e.subject, vr);
    Accumulate(before, found, SubjectFindings(e.subject));
    found := found + SubjectFindings(e.subject);
    CheckPosition(e, vr);
    Accumulate(before, found, PositionFindings(e));
    found := found + PositionFindings(e);
    vr.AddErrors(info(e.description, e.infoURL));
    Accumulate(before, found, info(e.description, e.infoURL));
  }

  // ---------------- what silence means ----------------

  /** The token position is 0 or that of a `*`. */
  lemma PositionExactly(e: Export)
    ensures PositionFindings(e) == [] <==>
      || e.accountTokenPosition == 0
      || (e.accountTokenPosition <= |Split(e.subject, '.')|
          && Split(e.subject, '.')[e.accountTokenPosition - 1] == "*")
  {
    WildcardsExactly(e.subject);
  }

  /** An export without findings has a percentage for its sampling rate. */
  lemma SamplingExactly(e: Export)
    ensures SamplingOutOfRange !in LatencyFindings(e) <==>
      (e.latency.Some? ==> 0 <= e.latency.value.sampling <= 100)
  {
    assert SamplingOutOfRange !in SubjectFindings(if e.latency.Some? then e.latency.value.results else "");
  }

  /** Limits with tiers have no flat JetStream limits and no blank tier. */
  function TierFindings(l: AccountLimits): seq<Finding> {
    if l.tieredLimits == map[] then []
    else
      (if l.jetStream != NO_JETSTREAM then [MixedJetStream] else [])
      + (if "" in l.tieredLimits then [BlankTier] else [])
  }

  method CheckTiers(l: AccountLimits, vr: ValidationResults)
    modifies vr
    ensures vr.issues == old(vr.issues) + Errors(TierFindings(l))
  {
    if l.tieredLimits != map[] {
      ghost var before := vr.issues;
      ghost var found := AddErrorIf(l.jetStream != NO_JETSTREAM, MixedJetStream, vr, before, []);
      found := AddErrorIf("" in l.tieredLimits, BlankTier, vr, before, found);
    }
  }

  /** A percentage, or nothing, and a literal subject for the results. */
  predicate SoundLatency(l: ServiceLatency) {
    && 0 <= l.sampling <= 100
    && ValidTokens(Split(l.results, '.'))
    && "*" !in Split(l.results, '.') && Last(Split(l.results, '.')) != ">"
  }

  /** What an export must be on its own. */
  predicate Sound(e: Export) {
    && !e.kind.Unknown?
    && (e.kind.Service? ==>
          e.responseType == "" || e.responseType == "Singleton" || e.responseType == "Stream"
          || e.responseType == "Chunked")
    && (e.kind.Stream? ==> e.responseType == "" && !e.allowTrace)
    && (e.latency.Some? ==> e.kind.Service? && SoundLatency(e.latency.value))
    && e.responseThresholdNanos >= 0
    && (e.responseThresholdNanos > 0 ==> e.kind.Service?)
    && ValidTokens(Split(e.subject, '.'))
    && (e.accountTokenPosition == 0
        || (e.accountTokenPosition <= |Split(e.subject, '.')|
            && Split(e.subject, '.')[e.accountTokenPosition - 1] == "*"))
  }

  lemma LatencyExactly(e: Export)
    ensures LatencyFindings(e) == [] <==> (e.latency.Some? ==> e.kind.Service? && SoundLatency(e.latency.value))
  {
    if e.latency.Some? {
      SubjectFindingsExactly(e.latency.value.results);
      WildcardsExactly(e.latency.value.results);
    }
  }

  lemma TypeExactly(e: Export)
    ensures TypeFindings(e) == [] <==>
      && !e.kind.Unknown?
      && (e.kind.Service? ==>
            e.responseType == "" || e.responseType == "Singleton" || e.responseType == "Stream"
            || e.responseType == "Chunked")
      && (e.kind.Stream? ==> e.responseType == "" && !e.allowTrace)
  {
  }

  /** An export has no findings if and only if it is sound and the check of its description and link
      has none. */
  lemma ExportExactly(e: Export, info: InfoCheck)
    ensures ExportFindings(e, info) == [] <==> Sound(e) && info(e.description, e.infoURL) == []
  {
    TypeExactly(e);
    LatencyExactly(e);
    SubjectFindingsExactly(e.subject);
    PositionExactly(e);
  }

  /** Limits have no findings if and only if there are no tiers, or no flat JetStream limit is set and
      no tier has an empty name. */
  lemma TiersExactly(l: AccountLimits)
    ensures TierFindings(l) == [] <==>
      || l.tieredLimits == map[]
      || ("" !in l.tieredLimits
          && l.jetStream.memStorage == 0 && l.jetStream.diskStorage == 0 && l.jetStream.streams == 0
          && l.jetStream.consumer == 0 && l.jetStream.maxAckPending == 0
          && l.jetStream.memoryMaxStreamBytes == 0 && l.jetStream.diskMaxStreamBytes == 0
          && !l.jetStream.maxBytesRequired)
  {
  }
}
