/** The redaction chain built for one requested document, and how an early error travels
    down it. */
module Controller {
  import opened Common
  import opened Tasks
  import Json
  import Models
  import Fetch
  import Redact
  import Format

  /** The callback task's parameters (the task itself is not part of this model). */
  datatype CallbackTask = CallbackTask(callbackUrl: Option<string>)

  datatype FinalizeTask = FinalizeTask(jurisdictionId: string, caseId: string, subjectIds: seq<string>, renderer: OutputFormat)

  /** One task signature of the chain. */
  datatype Signature =
    | FetchSig(document: Models.Document)
    | RedactSig(redaction: Redact.RedactionTask)
    | FormatSig(format: Format.FormatTask)
    | CallbackSig(callback: CallbackTask)
    | FinalizeSig(finalize: FinalizeTask)

  /** `str(url) if url else None`, where the request reader already holds `url` in its
      normal form, the text `str` gives. */
  function UrlOrNone(url: Option<string>): (r: Option<string>)
    ensures r.Some? <==> Truthy(url)
    ensures r.Some? ==> r == url
  {
    if Truthy(url) then url else None
  }

  function CreateChain(jurisdictionId: string, caseId: string, subjectIds: seq<string>,
                       target: Models.RedactionTarget, renderer: OutputFormat): (chain: seq<Signature>)
    ensures |chain| == 5
    ensures chain[0].FetchSig? && chain[1].RedactSig? && chain[2].FormatSig?
    ensures chain[3].CallbackSig? && chain[4].FinalizeSig?
    ensures chain[0].document == target.document
    ensures chain[1].redaction.documentId == target.document.documentId
    ensures chain[1].redaction.jurisdictionId == jurisdictionId == chain[4].finalize.jurisdictionId
    ensures chain[1].redaction.caseId == caseId == chain[4].finalize.caseId
    ensures chain[1].redaction.renderer == renderer == chain[4].finalize.renderer
    ensures chain[2].format.targetBlobUrl.Some? <==> Truthy(target.targetBlobUrl)
    ensures chain[2].format.targetBlobUrl.Some? ==> chain[2].format.targetBlobUrl == target.targetBlobUrl
    ensures chain[3].callback.callbackUrl == (if target.callbackUrl == "" then None else Some(target.callbackUrl))
    ensures chain[4].finalize.subjectIds == subjectIds
  {
    [ FetchSig(target.document),
      RedactSig(Redact.RedactionTask(target.document.documentId, jurisdictionId, caseId, renderer)),
      FormatSig(Format.FormatTask(UrlOrNone(target.targetBlobUrl))),
      CallbackSig(CallbackTask(UrlOrNone(Some(target.callbackUrl)))),
      FinalizeSig(FinalizeTask(jurisdictionId, caseId, subjectIds, renderer)) ]
  }

  /** The one object of the unit test's request, as the JSON it sends. */
  function TestObject(): Json.Json {
    Json.Object([
      ("document", Json.Object([("attachmentType", Json.Str("LINK")), ("documentId", Json.Str("doc1")),
                                ("url", Json.Str("https://test_document.pdf"))])),
      ("callbackUrl", Json.Str("https://echo"))])
  }

  /** The chain of the test request: read through the URL check, the callback reaches its task
      in normal form, and with no blob target and the default renderer the five signatures are
      exactly the ones the unit test expects. */
  lemma ChainOfTestRequest(normUrl: Models.UrlCheck, docUrl: string)
    requires normUrl("https://echo") == Ok("https://echo/")
    requires normUrl("https://test_document.pdf") == Ok(docUrl)
    ensures Models.ParseTarget(TestObject(), normUrl).Ok?
    ensures CreateChain("jur1", "case1", ["sub1"], Models.ParseTarget(TestObject(), normUrl).value, DefaultRenderer) == [
      FetchSig(Models.LinkDoc("doc1", docUrl)),
      RedactSig(Redact.RedactionTask("doc1", "jur1", "case1", Pdf)),
      FormatSig(Format.FormatTask(None)),
      CallbackSig(CallbackTask(Some("https://echo/"))),
      FinalizeSig(FinalizeTask("jur1", "case1", ["sub1"], Pdf))]
  {
    var j := TestObject();
    var dj := j.fields[0].1;
    Json.GetAt(j.fields, 0);
    Json.GetAt(j.fields, 1);
    Json.GetAbsent(j.fields, "targetBlobUrl");
    Json.GetAt(dj.fields, 0);
    Json.GetAt(dj.fields, 1);
    Json.GetAt(dj.fields, 2);
    assert Models.ParseDocument(dj, false, normUrl) == Ok(Models.LinkDoc("doc1", docUrl));
    assert Models.ParseTarget(j, normUrl) == Ok(Models.RedactionTarget(Models.LinkDoc("doc1", docUrl), "https://echo/", None));
  }

  /** A failed fetch reaches the callback unchanged: redaction and formatting pass its errors
      through without running, whatever their services would do. */
  lemma FetchErrorsPassThrough(f: Fetch.FetchResult, chain: seq<Signature>, retries: nat,
                               redactEnv: Redact.Env, formatEnv: Format.Env)
    requires |chain| == 5 && chain[1].RedactSig? && chain[2].FormatSig?
    requires |f.errors| > 0
    ensures var r := Redact.Redact(f, chain[1].redaction, retries, redactEnv);
      r.Done? && r.result.errors == f.errors
      && var g := Format.Format(r.result, chain[2].format, retries, formatEnv);
         g.Done? && g.result.errors == f.errors && g.result.documentId == chain[1].redaction.documentId
  {
  }
}
