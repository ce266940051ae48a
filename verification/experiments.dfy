/** Recording research events: exposures (a reviewer saw a case) and outcomes (a reviewer
    decided), mapped from the API's review shapes into the experiment tables' enums. */
module Experiments {
  import opened Common
  import opened Json
  import Models

  datatype ReviewType = Blind | Final

  /** The stored decision; a blind "decline maybe" is recorded as "decline likely". */
  datatype Decision = Charge | Decline | ChargeLikely | ChargeMaybe | DeclineLikely | Disqualify

  datatype Disqualifier =
    | AssignedToUnblind
    | CaseTypeIneligible
    | PriorKnowledgeBias
    | NarrativeIncomplete
    | RedactionMissing
    | RedactionIllegible
    | Other

  function ProtocolToReviewType(p: Models.ReviewProtocol): (t: ReviewType)
    ensures t == Blind <==> p == Models.BlindReview
  {
    match p
    case BlindReview => Blind
    case FinalReview => Final
  }

  function FinalDecisionToDecision(d: Models.FinalChargingDecision): (r: Decision)
    ensures r in {Charge, Decline}
    ensures r == Charge <==> d == Models.Charge
  {
    match d
    case Charge => Charge
    case Decline => Decline
  }

  function BlindDecisionToDecision(d: Models.BlindChargingDecision): (r: Decision)
    ensures r in {ChargeLikely, ChargeMaybe, DeclineLikely}
  {
    match d
    case ChargeLikely => ChargeLikely
    case ChargeMaybe => ChargeMaybe
    case DeclineMaybe => DeclineLikely
    case DeclineLikely => DeclineLikely
  }

  /** The blind mapping merges exactly the two "decline" answers. */
  lemma BlindDecisionPreimages(a: Models.BlindChargingDecision, b: Models.BlindChargingDecision)
    ensures (BlindDecisionToDecision(a) == BlindDecisionToDecision(b))
            <==> (a == b || (a in {Models.DeclineMaybe, Models.DeclineLikely} && b in {Models.DeclineMaybe, Models.DeclineLikely}))
    ensures BlindDecisionToDecision(a) == DeclineLikely <==> a in {Models.DeclineMaybe, Models.DeclineLikely}
  {
  }

  function ReasonToDisqualifier(r: Models.DisqualifyingReason): Disqualifier {
    match r
    case AssignedToUnblind => AssignedToUnblind
    case CaseTypeIneligible => CaseTypeIneligible
    case PriorKnowledgeBias => PriorKnowledgeBias
    case NarrativeIncomplete => NarrativeIncomplete
    case RedactionMissing => RedactionMissing
    case RedactionIllegible => RedactionIllegible
    case OtherReason => Other
  }

  /** The inverse of the reason mapping. */
  function DisqualifierToReason(d: Disqualifier): Models.DisqualifyingReason {
    match d
    case AssignedToUnblind => Models.AssignedToUnblind
    case CaseTypeIneligible => Models.CaseTypeIneligible
    case PriorKnowledgeBias => Models.PriorKnowledgeBias
    case NarrativeIncomplete => Models.NarrativeIncomplete
    case RedactionMissing => Models.RedactionMissing
    case RedactionIllegible => Models.RedactionIllegible
    case Other => Models.OtherReason
  }

  /** The seven reasons and the seven disqualifiers correspond one to one. */
  lemma ReasonsOneToOne(r: Models.DisqualifyingReason, d: Disqualifier)
    ensures DisqualifierToReason(ReasonToDisqualifier(r)) == r
    ensures ReasonToDisqualifier(DisqualifierToReason(d)) == d
    ensures ReasonToDisqualifier(r) == d <==> DisqualifierToReason(d) == r
  {
  }

  /** A single reason becomes a one-element list; a list is mapped element by element. */
  function ReasonsToDisqualifiers(rs: Models.Reasons): (ds: seq<Disqualifier>)
    ensures rs.OneReason? ==> ds == [ReasonToDisqualifier(rs.reason)]
    ensures rs.ReasonList? ==> |ds| == |rs.reasons|
    ensures rs.ReasonList? ==> forall k :: 0 <= k < |ds| ==> DisqualifierToReason(ds[k]) == rs.reasons[k]
  {
    match rs
    case OneReason(r) => [ReasonToDisqualifier(r)]
    case ReasonList(xs) => seq(|xs|, k requires 0 <= k < |xs| => ReasonToDisqualifier(xs[k]))
  }

  /** The decision columns of an outcome record. */
  datatype OutcomeDecision = OutcomeDecision(
    reviewType: ReviewType, decision: Decision, explanation: Option<string>,
    disqualifiers: seq<Disqualifier>, additionalEvidence: Option<string>)

  function FormatBlindOutcome(o: Models.BlindOutcome): (r: Result<OutcomeDecision, Exception>)
    ensures r.Ok? ==> r.value.reviewType == Blind
    ensures o.BlindDecision? ==> r == Ok(OutcomeDecision(Blind, BlindDecisionToDecision(o.decision),
                                                           o.explanation, [], o.additionalEvidence))
    ensures o.Disqualify? ==> (r.Err? <==> ReasonsToDisqualifiers(o.reasons) == [])
    ensures o.Disqualify? && r.Ok? ==> r.value.decision == Disqualify && |r.value.disqualifiers| >= 1
                                       && r.value.disqualifiers == ReasonsToDisqualifiers(o.reasons)
                                       && r.value.explanation == o.reasonExplanation
    ensures r.Err? ==> r.error == ValueError("DisqualifyOutcome must have at least one disqualifier")
  {
    match o
    case BlindDecision(d, e, a) => Ok(OutcomeDecision(Blind, BlindDecisionToDecision(d), e, [], a))
    case Disqualify(rs, e) =>
      var ds := ReasonsToDisqualifiers(rs);
      if |ds| == 0 then Err(ValueError("DisqualifyOutcome must have at least one disqualifier"))
      else Ok(OutcomeDecision(Blind, Disqualify, e, ds, None))
  }

  function InferReviewType(d: Models.ReviewDecision): ReviewType {
    if d.BlindReviewDecision? then Blind else Final
  }

  function FormatDecision(d: Models.ReviewDecision): (r: Result<OutcomeDecision, Exception>)
    ensures r.Ok? ==> r.value.reviewType == InferReviewType(d)
    ensures d.FinalReviewDecision? ==> r.Ok? && r.value.disqualifiers == [] && r.value.additionalEvidence.None?
                                       && r.value.decision == FinalDecisionToDecision(d.finalDecision)
                                       && r.value.explanation == d.finalExplanation
    ensures d.BlindReviewDecision? ==> r == FormatBlindOutcome(d.outcome)
  {
    match d
    case BlindReviewDecision(o) => FormatBlindOutcome(o)
    case FinalReviewDecision(f, e) => Ok(OutcomeDecision(Final, FinalDecisionToDecision(f), e, [], None))
  }

  /** Only a disqualification with an empty reason list is refused. */
  lemma FormatDecisionFails(d: Models.ReviewDecision)
    ensures FormatDecision(d).Err?
            <==> d.BlindReviewDecision? && d.outcome.Disqualify? && d.outcome.reasons == Models.ReasonList([])
  {
  }

  // ---------------------------------------------------------------------------
  // Recording
  // ---------------------------------------------------------------------------

  function SubjectIdList(s: Models.SubjectIds): (ids: seq<string>)
    ensures s.OneSubject? ==> ids == [s.id]
    ensures s.SubjectList? ==> ids == s.ids
  {
    match s
    case OneSubject(id) => [id]
    case SubjectList(ids) => ids
  }

  datatype ExposureRecord = ExposureRecord(
    jurisdictionId: string, caseId: string, subjectId: string, extra: Option<string>,
    documentIds: string, reviewerId: string, reviewType: ReviewType)

  /** The rows `log_exposure` adds to the session. */
  function LogExposure(enabled: bool, body: Models.Exposure): (rows: seq<ExposureRecord>)
    ensures !enabled ==> rows == []
    ensures enabled ==> |rows| == |SubjectIdList(body.subjectIds)|
    ensures enabled ==> forall k :: 0 <= k < |rows| ==>
      rows[k] == ExposureRecord(body.jurisdictionId, body.caseId, SubjectIdList(body.subjectIds)[k], body.extra,
                                Dumps(StrList(body.documentIds)), body.reviewer, ProtocolToReviewType(body.protocol))
  {
    if !enabled then []
    else
      var ids := SubjectIdList(body.subjectIds);
      seq(|ids|, k requires 0 <= k < |ids| =>
        ExposureRecord(body.jurisdictionId, body.caseId, ids[k], body.extra, Dumps(StrList(body.documentIds)),
                       body.reviewer, ProtocolToReviewType(body.protocol)))
  }

  datatype OutcomeRecord = OutcomeRecord(
    jurisdictionId: string, caseId: string, subjectId: string, reviewerId: string, documentIds: string,
    pageOpen: string, decisionTime: string, decision: OutcomeDecision)

  /** The rows `log_outcome` adds, or the 422 response a formatting error becomes. */
  function LogOutcome(enabled: bool, body: Models.Review): (r: Result<seq<OutcomeRecord>, HttpError>)
    ensures !enabled ==> r == Ok([])
    ensures enabled && FormatDecision(body.decision).Err? ==>
      r == Err(HttpError(422, FormatDecision(body.decision).error.message))
    ensures r.Err? ==> r.error.status == 422
    ensures enabled && r.Ok? ==> FormatDecision(body.decision).Ok?
                                 && |r.value| == |SubjectIdList(body.subjectIds)|
    ensures enabled && r.Ok? ==> forall k :: 0 <= k < |r.value| ==>
      r.value[k].subjectId == SubjectIdList(body.subjectIds)[k]
      && r.value[k].decision == FormatDecision(body.decision).value
      && r.value[k].documentIds == Dumps(StrList(body.documentIds))
  {
    if !enabled then Ok([])
    else
      match FormatDecision(body.decision)
      case Err(e) => Err(HttpError(422, e.message))
      case Ok(params) =>
        var ids := SubjectIdList(body.subjectIds);
        Ok(seq(|ids|, k requires 0 <= k < |ids| =>
          OutcomeRecord(body.jurisdictionId, body.caseId, ids[k], body.reviewer, Dumps(StrList(body.documentIds)),
                        body.pageOpen, body.decisionTime, params)))
  }

  /** The stored ids of a one-document exposure, as the test suite expects them. */
  lemma ExposureOfOneDocument(body: Models.Exposure)
    requires body.documentIds == ["doc1"] && body.subjectIds.OneSubject?
    ensures LogExposure(true, body) == [ExposureRecord(body.jurisdictionId, body.caseId, body.subjectIds.id, body.extra,
                                                       "[\"doc1\"]", body.reviewer, ProtocolToReviewType(body.protocol))]
  {
    var id := "doc1";
    assert Plain(id) by {
      assert id[0] == 'd' && id[1] == 'o' && id[2] == 'c' && id[3] == '1';
    }
    OneIdList(id);
    assert "[\"" + id + "\"]" == "[\"doc1\"]";
  }
}
