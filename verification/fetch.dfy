/** The first task of the chain: obtain a document's bytes, by download (LINK), by UTF-8
    encoding of inline text (TEXT) or by base64 decoding (BASE64). */
module Fetch {
  import opened Common
  import opened Tasks
  import Models
  import Base64
  import Utf8

  /** The document as the task sees it at run time: its attachment type is a plain string
      (the match falls through to an error for a type it does not know). */
  datatype RawDocument = RawDocument(documentId: string, attachmentType: string, payload: string)

  function Raw(d: Models.Document): (r: RawDocument)
    ensures r.documentId == d.documentId && r.attachmentType == Models.AttachmentType(d)
  {
    match d
    case LinkDoc(id, url) => RawDocument(id, "LINK", url)
    case TextDoc(id, c) => RawDocument(id, "TEXT", c)
    case Base64Doc(id, c) => RawDocument(id, "BASE64", c)
    case JsonDoc(id, _) => RawDocument(id, "JSON", "")
  }

  datatype FetchResult = FetchResult(documentId: string, fileBytes: bytes, errors: seq<ProcessingError>)

  /** An HTTP GET of `url` that raises for a non-2xx status; the network is not modelled. */
  type Download = string -> Result<bytes, Exception>

  /** The body of the `try`: the document's content, or the exception it raised. */
  function Content(d: RawDocument, download: Download): (r: Result<bytes, Exception>)
    ensures d.attachmentType == "LINK" ==> r == download(d.payload)
    ensures d.attachmentType == "TEXT" ==> r == Ok(Utf8.Encode(d.payload))
    ensures d.attachmentType == "BASE64" ==> r == Base64.Decode(d.payload)
    ensures d.attachmentType !in {"LINK", "TEXT", "BASE64"} ==>
              r == Err(ValueError("Unsupported attachment type: " + d.attachmentType))
  {
    if d.attachmentType == "LINK" then download(d.payload)
    else if d.attachmentType == "TEXT" then Ok(Utf8.Encode(d.payload))
    else if d.attachmentType == "BASE64" then Base64.Decode(d.payload)
    else Err(ValueError("Unsupported attachment type: " + d.attachmentType))
  }

  /** One invocation of the task, already `retries` times retried. */
  function Fetch(d: RawDocument, retries: nat, download: Download): (s: Step<FetchResult>)
    ensures Content(d, download).Ok? ==> s == Done(FetchResult(d.documentId, Content(d, download).value, []))
    ensures Content(d, download).Err? && retries < MaxRetries ==> s == Retry(Content(d, download).error)
    ensures Content(d, download).Err? && retries >= MaxRetries ==>
              s == Done(FetchResult(d.documentId, [], [FromException("fetch", Content(d, download).error)]))
  {
    match Content(d, download)
    case Ok(b) => Done(FetchResult(d.documentId, b, []))
    case Err(e) => OnFailure(retries, e, FetchResult(d.documentId, [], [FromException("fetch", e)]))
  }

  /** A settled fetch either carries bytes and no error, or no bytes and exactly one error
      tagged "fetch". */
  lemma FetchSettles(d: RawDocument, retries: nat, download: Download)
    requires Fetch(d, retries, download).Done?
    ensures var r := Fetch(d, retries, download).result;
      r.documentId == d.documentId
      && (r.errors == [] || (r.fileBytes == [] && |r.errors| == 1 && r.errors[0].task == "fetch"))
  {
  }

  /** Inline text is fetched as its UTF-8 bytes, which decode back to the text. */
  lemma FetchText(id: string, text: string, retries: nat, download: Download)
    ensures Fetch(Raw(Models.TextDoc(id, text)), retries, download).Done?
    ensures var r := Fetch(Raw(Models.TextDoc(id, text)), retries, download).result;
      r.errors == [] && Utf8.Decode(r.fileBytes) == Some(text)
  {
    Utf8.DecodeEncode(text);
  }

  /** Inline base64 content is fetched as the bytes it encodes. */
  lemma FetchBase64(id: string, b: bytes, retries: nat, download: Download)
    ensures Fetch(Raw(Models.Base64Doc(id, Base64.Encode(b))), retries, download) == Done(FetchResult(id, b, []))
  {
    Base64.DecodeEncode(b);
  }

  /** The inline document "aGVsbG8gd29ybGQ=" is fetched as the bytes of "hello world". */
  lemma FetchHelloWorld(d: RawDocument, hello: bytes, download: Download)
    requires d == RawDocument("doc1", "BASE64", "aGVsbG8gd29ybGQ=")
    requires hello == [104, 101, 108, 108, 111, 32, 119, 111, 114, 108, 100]
    ensures Fetch(d, 0, download) == Done(FetchResult("doc1", hello, []))
  {
    Base64.HelloWorld(d.payload, hello);
  }

  /** Without its pad the same content fails with "Incorrect padding" once retries are spent. */
  lemma FetchUnpadded(d: RawDocument, hello: bytes, download: Download)
    requires d == RawDocument("doc1", "BASE64", "aGVsbG8gd29ybGQ")
    requires hello == [104, 101, 108, 108, 111, 32, 119, 111, 114, 108, 100]
    ensures Fetch(d, MaxRetries, download) == Done(FetchResult("doc1", [], [ProcessingError("Incorrect padding", "fetch", "Error")]))
  {
    Base64.HelloWorldUnpadded(d.payload, hello);
  }

  /** An attachment type other than LINK, TEXT and BASE64 ends, once retries are spent, in a
      single ValueError naming that type. */
  lemma FetchUnsupported(d: RawDocument, download: Download)
    requires d.attachmentType !in {"LINK", "TEXT", "BASE64"}
    ensures Fetch(d, MaxRetries, download) == Done(FetchResult(d.documentId, [], [
              ProcessingError("Unsupported attachment type: " + d.attachmentType, "fetch", "ValueError")]))
  {
  }
}
