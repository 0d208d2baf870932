/** Validation reports: what `ValidationResults` collects, with a kind in place of each text. */
module Findings {
  datatype Finding =
    | SubjectEmpty
    | SubjectHasSpaces
    | SubjectDotAtEnd
    | SubjectDoubleDot
    | SuffixMismatch
    | BadReference(index: nat)
    | WildcardCountMismatch
    | OverlappingImport(subject: string, other: string, account: string)
    | RepeatedImport(subject: string, account: string)
    | OverlappingExport(service: bool, container: string, contained: string)
    | InvalidExportType
    | InvalidResponseType
    | AllowTraceOnStream
    | LatencyNotService
    | SamplingOutOfRange
    | ResultsHaveWildcards
    | NegativeThreshold
    | ThresholdNotService
    | PositionWithoutWildcard
    | PositionTooLarge
    | PositionNotStar
    | MixedJetStream
    | BlankTier
    | Foreign(text: string)
    | WeightTooBig(weight: nat)
    | ClusterOver100(cluster: string)
    | DefaultOver100

  datatype Issue = Issue(finding: Finding, blocking: bool, timeCheck: bool)

  /** The issues `addError` makes of findings. */
  function Errors(findings: seq<Finding>): (issues: seq<Issue>)
    ensures |issues| == |findings|
    ensures forall i :: 0 <= i < |findings| ==> issues[i] == Issue(findings[i], true, false)
  {
    seq(|findings|, i requires 0 <= i < |findings| => Issue(findings[i], true, false))
  }

  lemma ErrorsConcat(a: seq<Finding>, b: seq<Finding>)
    ensures Errors(a + b) == Errors(a) + Errors(b)
  {
  }

  lemma Accumulate(before: seq<Issue>, a: seq<Finding>, b: seq<Finding>)
    ensures before + Errors(a) + Errors(b) == before + Errors(a + b)
  {
    ErrorsConcat(a, b);
  }

  class ValidationResults {
    var issues: seq<Issue>

    constructor ()
      ensures issues == []
    {
      issues := [];
    }

    method Add(issue: Issue)
      modifies this
      ensures issues == old(issues) + [issue]
    {
      issues := issues + [issue];
    }

    method AddErrors(findings: seq<Finding>)
      modifies this
      ensures issues == old(issues) + Errors(findings)
    {
      issues := issues + Errors(findings);
    }

    method AddError(finding: Finding)
      modifies this
      ensures issues == old(issues) + [Issue(finding, true, false)]
      ensures issues == old(issues) + Errors([finding])
    {
      Add(Issue(finding, true, false));
    }
  }

  /** `if (condition) vr.addError(...)`, keeping account of what was found so far. */
  method AddErrorIf(condition: bool, finding: Finding, vr: ValidationResults,
                    ghost before: seq<Issue>, ghost found: seq<Finding>)
    returns (ghost all: seq<Finding>)
    requires vr.issues == before + Errors(found)
    modifies vr
    ensures all == found + (if condition then [finding] else [])
    ensures vr.issues == before + Errors(all)
  {
    all := found;
    if condition {
      Accumulate(before, found, [finding]);
      vr.AddError(finding);
      all := found + [finding];
    }
  }
}
