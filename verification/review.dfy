/** The blind-review information of a case: whether the case is blinded, and its masked
    subjects only when it is. */
module Review {
  import opened Common
  import opened Case
  import Models

  /** The entity the experiment gater decides on. */
  datatype CaseEntity = CaseEntity(jurisdictionId: string, caseId: string, subjectId: Option<string>)

  /** `jurisdiction:case`. */
  function Id(e: CaseEntity): (id: string)
    ensures |id| == |e.jurisdictionId| + 1 + |e.caseId|
    ensures id[..|e.jurisdictionId|] == e.jurisdictionId && id[|e.jurisdictionId|] == ':'
    ensures id[|e.jurisdictionId| + 1..] == e.caseId
  {
    e.jurisdictionId + ":" + e.caseId
  }

  /** The entity id is the prefix of every one of the case's store keys. */
  lemma IdPrefixesKeys(e: CaseEntity, category: string)
    ensures Key(e.jurisdictionId, e.caseId, category) == Id(e) + ":" + category
  {
  }

  /** Ids without colons name distinct cases by distinct entity ids. */
  lemma IdInjective(a: CaseEntity, b: CaseEntity)
    requires ':' !in a.jurisdictionId && ':' !in b.jurisdictionId
    requires Id(a) == Id(b)
    ensures a.jurisdictionId == b.jurisdictionId && a.caseId == b.caseId
  {
    SplitAtColon(a.jurisdictionId, a.caseId, b.jurisdictionId, b.caseId);
  }

  datatype BlindReviewInfo = BlindReviewInfo(jurisdictionId: string, caseId: string, blindReviewRequired: bool,
                                             maskedSubjects: seq<Models.MaskedSubject>)

  /** `get_blind_review_info`, given the gater's decision for an entity and the masked names the
      case store holds. */
  function GetBlindReviewInfo(jurisdictionId: string, caseId: string, subjectId: Option<string>,
                              gate: CaseEntity -> bool, maskedNames: seq<Models.MaskedSubject>): (r: BlindReviewInfo)
    ensures r.jurisdictionId == jurisdictionId && r.caseId == caseId
    ensures r.blindReviewRequired == gate(CaseEntity(jurisdictionId, caseId, subjectId))
    ensures r.blindReviewRequired ==> r.maskedSubjects == maskedNames
    ensures !r.blindReviewRequired ==> r.maskedSubjects == []
  {
    var blinded := gate(CaseEntity(jurisdictionId, caseId, subjectId));
    BlindReviewInfo(jurisdictionId, caseId, blinded, if blinded then maskedNames else [])
  }

  /** An unblinded case reveals no masked names, whatever the store holds. */
  lemma UnblindedRevealsNothing(jurisdictionId: string, caseId: string, subjectId: Option<string>,
                                gate: CaseEntity -> bool, m1: seq<Models.MaskedSubject>, m2: seq<Models.MaskedSubject>)
    requires !gate(CaseEntity(jurisdictionId, caseId, subjectId))
    ensures GetBlindReviewInfo(jurisdictionId, caseId, subjectId, gate, m1) == GetBlindReviewInfo(jurisdictionId, caseId, subjectId, gate, m2)
  {
  }
}
