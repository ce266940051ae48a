/** The third task of the chain: turn the stored redaction into the API's output document,
    either a link to an uploaded blob, a JSON document, or inline base64. */
module Format {
  import opened Common
  import opened Json
  import opened Tasks
  import Models
  import Base64
  import Redact

  datatype FormatTask = FormatTask(targetBlobUrl: Option<string>)

  datatype FormatResult = FormatResult(jurisdictionId: string, caseId: string, documentId: string, errors: seq<ProcessingError>)

  /** The services the task calls; each may raise. */
  datatype Env = Env(
    load: Option<string> -> Result<bytes, Exception>,
    parseJson: bytes -> Result<Json, Exception>,
    upload: (string, bytes) -> Result<(), Exception>,
    save: (Redact.RedactionResult, Models.Document) -> Result<(), Exception>)

  /** `json_content[key]` on a parsed JSON value: a dict looks the key up, and every other type
      raises the TypeError Python words after it. */
  function Subscript(j: Json, key: string): (r: Result<Json, Exception>)
    ensures r.Ok? <==> j.Object? && Get(j.fields, key).Some?
    ensures r.Ok? ==> r.value == Get(j.fields, key).value
    ensures j.Object? && Get(j.fields, key).None? ==> r == Err(Exception("KeyError", "'" + key + "'"))
    ensures j.Array? ==> r == Err(Exception("TypeError", "list indices must be integers or slices, not str"))
    ensures j.Str? ==> r == Err(Exception("TypeError", "string indices must be integers, not 'str'"))
    ensures j.Int? ==> r == Err(Exception("TypeError", "'int' object is not subscriptable"))
    ensures j.Bool? ==> r == Err(Exception("TypeError", "'bool' object is not subscriptable"))
    ensures j.Null? ==> r == Err(Exception("TypeError", "'NoneType' object is not subscriptable"))
  {
    match j
    case Object(fields) =>
      (match Get(fields, key)
       case None => Err(Exception("KeyError", "'" + key + "'"))
       case Some(v) => Ok(v))
    case Array(_) => Err(Exception("TypeError", "list indices must be integers or slices, not str"))
    case Str(_) => Err(Exception("TypeError", "string indices must be integers, not 'str'"))
    case Int(_) => Err(Exception("TypeError", "'int' object is not subscriptable"))
    case Bool(_) => Err(Exception("TypeError", "'bool' object is not subscriptable"))
    case Null => Err(Exception("TypeError", "'NoneType' object is not subscriptable"))
  }

  /** `format_document`: the output document for a redaction. */
  function FormatDocument(task: FormatTask, redaction: Redact.RedactionResult, env: Env): (r: Result<Models.Document, Exception>)
    ensures Truthy(task.targetBlobUrl) ==> r == Ok(Models.LinkDoc(redaction.documentId, task.targetBlobUrl.value))
    ensures !Truthy(task.targetBlobUrl) && env.load(redaction.fileStorageId) == Ok([]) ==>
              r == Err(ValueError("No redacted content"))
    ensures !Truthy(task.targetBlobUrl) && redaction.renderer != JsonFormat && env.load(redaction.fileStorageId).Ok?
            && env.load(redaction.fileStorageId).value != [] ==>
              r == Ok(Models.Base64Doc(redaction.documentId, Base64.Encode(env.load(redaction.fileStorageId).value)))
    ensures r.Ok? ==> r.value.documentId == redaction.documentId
    ensures r.Ok? && redaction.renderer == JsonFormat && !Truthy(task.targetBlobUrl) ==> r.value.JsonDoc?
  {
    if Truthy(task.targetBlobUrl) then Ok(Models.LinkDoc(redaction.documentId, task.targetBlobUrl.value))
    else
      var content :- env.load(redaction.fileStorageId);
      if |content| == 0 then Err(ValueError("No redacted content"))
      else if redaction.renderer == JsonFormat then
        var j :- env.parseJson(content);
        var original :- Subscript(j, "original");
        var redacted :- Subscript(j, "redacted");
        var annotations := if j.Object? then Get(j.fields, "annotations").GetOr(Array([])) else Array([]);
        Ok(Models.JsonDoc(redaction.documentId, Models.Content(original, redacted, annotations)))
      else Ok(Models.Base64Doc(redaction.documentId, Base64.Encode(content)))
  }

  /** A JSON rendering yields its `original` and `redacted` members, and `annotations`
      defaults to an empty list. */
  lemma FormatJsonDocument(task: FormatTask, redaction: Redact.RedactionResult, env: Env, content: bytes,
                           fields: seq<(string, Json)>, original: Json, redacted: Json)
    requires !Truthy(task.targetBlobUrl) && redaction.renderer == JsonFormat
    requires env.load(redaction.fileStorageId) == Ok(content) && |content| > 0
    requires env.parseJson(content) == Ok(Object(fields))
    requires Get(fields, "original") == Some(original) && Get(fields, "redacted") == Some(redacted)
    ensures FormatDocument(task, redaction, env) == Ok(Models.JsonDoc(redaction.documentId, Models.Content(
              original, redacted, if Get(fields, "annotations").Some? then Get(fields, "annotations").value else Array([]))))
  {
  }

  /** A JSON rendering without an `original` or a `redacted` member is refused. */
  lemma FormatJsonMissingKey(task: FormatTask, redaction: Redact.RedactionResult, env: Env, content: bytes, fields: seq<(string, Json)>)
    requires !Truthy(task.targetBlobUrl) && redaction.renderer == JsonFormat
    requires env.load(redaction.fileStorageId) == Ok(content) && |content| > 0
    requires env.parseJson(content) == Ok(Object(fields))
    requires Get(fields, "original").None? || Get(fields, "redacted").None?
    ensures FormatDocument(task, redaction, env).Err?
    ensures FormatDocument(task, redaction, env).error.kind == "KeyError"
  {
  }

  /** The inline base64 document carries exactly the stored bytes. */
  lemma FormatBase64RoundTrip(task: FormatTask, redaction: Redact.RedactionResult, env: Env, content: bytes)
    requires !Truthy(task.targetBlobUrl) && redaction.renderer != JsonFormat
    requires env.load(redaction.fileStorageId) == Ok(content) && |content| > 0
    ensures FormatDocument(task, redaction, env).Ok?
    ensures FormatDocument(task, redaction, env).value.Base64Doc?
    ensures Base64.Decode(FormatDocument(task, redaction, env).value.content) == Ok(content)
  {
    Base64.DecodeEncode(content);
  }

  /** The body of the `try`: build the output document (uploading a blob first when a target
      URL is given), then save it. */
  function Attempt(task: FormatTask, redaction: Redact.RedactionResult, env: Env): (r: Result<Models.Document, Exception>)
    ensures Truthy(task.targetBlobUrl) && env.load(redaction.fileStorageId) == Ok([]) ==>
              r == Err(ValueError("Missing redacted content"))
    ensures r.Ok? && Truthy(task.targetBlobUrl) ==>
              r.value == Models.LinkDoc(redaction.documentId, task.targetBlobUrl.value)
              && env.load(redaction.fileStorageId).Ok? && env.load(redaction.fileStorageId).value != []
              && env.upload(task.targetBlobUrl.value, env.load(redaction.fileStorageId).value) == Ok(())
    ensures r.Ok? && !Truthy(task.targetBlobUrl) ==> FormatDocument(task, redaction, env) == Ok(r.value)
    ensures r.Ok? ==> env.save(redaction, r.value) == Ok(())
  {
    var document :-
      if Truthy(task.targetBlobUrl) then
        var content :- env.load(redaction.fileStorageId);
        if |content| == 0 then Err(ValueError("Missing redacted content"))
        else
          var _ :- env.upload(task.targetBlobUrl.value, content);
          Ok(Models.LinkDoc(redaction.documentId, task.targetBlobUrl.value))
      else FormatDocument(task, redaction, env);
    var _ :- env.save(redaction, document);
    Ok(document)
  }

  function Format(redaction: Redact.RedactionResult, task: FormatTask, retries: nat, env: Env): (s: Step<FormatResult>)
    ensures s.Done? ==> s.result.jurisdictionId == redaction.jurisdictionId && s.result.caseId == redaction.caseId
                        && s.result.documentId == redaction.documentId
    ensures |redaction.errors| > 0 ==> s.Done? && s.result.errors == redaction.errors
    ensures |redaction.errors| == 0 && Attempt(task, redaction, env).Ok? ==> s.Done? && s.result.errors == []
    ensures |redaction.errors| == 0 && Attempt(task, redaction, env).Err? ==>
      (s.Retry? <==> retries < MaxRetries)
      && (s.Done? ==> s.result.errors == [FromException("format", Attempt(task, redaction, env).error)])
  {
    if |redaction.errors| > 0 then
      Done(FormatResult(redaction.jurisdictionId, redaction.caseId, redaction.documentId, redaction.errors))
    else
      match Attempt(task, redaction, env)
      case Ok(_) => Done(FormatResult(redaction.jurisdictionId, redaction.caseId, redaction.documentId, redaction.errors))
      case Err(e) =>
        OnFailure(retries, e, FormatResult(redaction.jurisdictionId, redaction.caseId, redaction.documentId,
                                           redaction.errors + [FromException("format", e)]))
  }
}
