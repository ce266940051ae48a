/** The last task of the chain: record the document's final status for research and hand the
    formatted document on. */
module Finalize {
  import opened Common
  import Models

  /** The formatted redaction as the callback task passes it on (the callback task's result
      type is not part of this model; its shape is taken from how it is used here). */
  datatype Formatted = Formatted(jurisdictionId: string, caseId: string, document: Models.Document, redactError: Option<string>)

  datatype CallbackResult = CallbackResult(formatted: Formatted)

  /** A row of the research database's document-status table. */
  datatype DocumentStatus = DocumentStatus(
    jurisdictionId: string, caseId: string, documentId: string, status: string, error: Option<string>)

  /** The task's result and the rows it committed. */
  datatype Finalized = Finalized(document: Models.Document, records: seq<DocumentStatus>)

  function StatusOf(f: Formatted): (r: DocumentStatus)
    ensures r.status == "ERROR" <==> Truthy(f.redactError)
    ensures r.status in {"ERROR", "COMPLETE"}
    ensures r.error == f.redactError && r.documentId == f.document.documentId
    ensures r.jurisdictionId == f.jurisdictionId && r.caseId == f.caseId
  {
    DocumentStatus(f.jurisdictionId, f.caseId, f.document.documentId,
                   if Truthy(f.redactError) then "ERROR" else "COMPLETE", f.redactError)
  }

  /** As written: the local `format_result` is only bound inside the experiments branch, so
      the closing `return` raises when experiments are disabled. */
  function FinalizeAsWritten(experimentsEnabled: bool, cb: CallbackResult): (r: Result<Finalized, Exception>)
    ensures experimentsEnabled ==> r == Ok(Finalized(cb.formatted.document, [StatusOf(cb.formatted)]))
  {
    if experimentsEnabled then Ok(Finalized(cb.formatted.document, [StatusOf(cb.formatted)]))
    else Err(Exception("UnboundLocalError",
                       "cannot access local variable 'format_result' where it is not associated with a value"))
  }

  /** With experiments disabled the task as written fails on every input. */
  lemma FinalizeAsWrittenFailsWhenDisabled(cb: CallbackResult)
    ensures FinalizeAsWritten(false, cb).Err?
    ensures FinalizeAsWritten(false, cb).error.kind == "UnboundLocalError"
  {
  }

  /** The evident intent: always return the formatted document, and record its status only
      when experiments are enabled. */
  function Finalize(experimentsEnabled: bool, cb: CallbackResult): (r: Finalized)
    ensures r.document == cb.formatted.document
    ensures |r.records| == (if experimentsEnabled then 1 else 0)
    ensures experimentsEnabled ==> r.records[0].documentId == cb.formatted.document.documentId
                                   && (r.records[0].status == "ERROR" <==> Truthy(cb.formatted.redactError))
  {
    var format := cb.formatted;
    Finalized(format.document, if experimentsEnabled then [StatusOf(format)] else [])
  }

  /** Where the written task does not fail, it agrees with the corrected one. */
  lemma FinalizeAgrees(experimentsEnabled: bool, cb: CallbackResult)
    ensures FinalizeAsWritten(experimentsEnabled, cb).Ok? <==> experimentsEnabled
    ensures FinalizeAsWritten(experimentsEnabled, cb).Ok? ==>
              FinalizeAsWritten(experimentsEnabled, cb).value == Finalize(experimentsEnabled, cb)
  {
  }
}
