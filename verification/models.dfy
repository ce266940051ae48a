/** The API's request and response shapes, with the validation the generated pydantic
    models apply when they read a JSON value: discriminated unions, enumerations, required
    and optional fields, and minimum list lengths. Each shape has a writer (`...Json`)
    and a reader (`Parse...`), and reading what was written gives the value back. */
module Models {
  import opened Common
  import opened Json

  // ---------------------------------------------------------------------------
  // Reading fields
  // ---------------------------------------------------------------------------

  function Invalid(message: string): Exception {
    Exception("ValidationError", message)
  }

  function Field(j: Json, key: string): (r: Option<Json>)
    ensures !j.Object? ==> r.None?
  {
    if j.Object? then Get(j.fields, key) else None
  }

  /** A required string field. */
  function StrField(j: Json, key: string): (r: Result<string, Exception>)
    ensures r.Ok? <==> Field(j, key).Some? && Field(j, key).value.Str?
    ensures r.Ok? ==> Field(j, key) == Some(Str(r.value))
  {
    match Field(j, key)
    case None => Err(Invalid(key + ": Field required"))
    case Some(Str(s)) => Ok(s)
    case Some(_) => Err(Invalid(key + ": Input should be a valid string"))
  }

  /** An optional string field: absent and `null` both read as `None`. */
  function OptStrField(j: Json, key: string): (r: Result<Option<string>, Exception>)
    ensures r.Ok? <==> Field(j, key) in {None, Some(Null)} || (Field(j, key).Some? && Field(j, key).value.Str?)
    ensures r == Ok(None) <==> Field(j, key) in {None, Some(Null)}
  {
    match Field(j, key)
    case None => Ok(None)
    case Some(Null) => Ok(None)
    case Some(Str(s)) => Ok(Some(s))
    case Some(_) => Err(Invalid(key + ": Input should be a valid string"))
  }

  function OptStrJson(s: Option<string>): Json {
    match s
    case None => Null
    case Some(v) => Str(v)
  }

  /** pydantic's `AnyUrl`, which the caller supplies: either why a text is not a URL, or the
      URL's normal form, the text `str(url)` gives (such as "https://echo/" for "https://echo"). */
  type UrlCheck = string -> Result<string, string>

  /** A URL already in normal form: checking it gives it back. */
  predicate NormalUrl(normUrl: UrlCheck, u: string) {
    normUrl(u) == Ok(u)
  }

  /** A required `AnyUrl` field: a string the check accepts, kept in its normal form. */
  function UrlField(j: Json, key: string, normUrl: UrlCheck): (r: Result<string, Exception>)
    ensures r.Ok? <==> StrField(j, key).Ok? && normUrl(StrField(j, key).value).Ok?
    ensures r.Ok? ==> normUrl(StrField(j, key).value) == Ok(r.value)
  {
    var s :- StrField(j, key);
    match normUrl(s)
    case Ok(u) => Ok(u)
    case Err(why) => Err(Invalid(key + ": " + why))
  }

  /** An optional `AnyUrl` field: absent and `null` read as `None`, any string must pass the check. */
  function OptUrlField(j: Json, key: string, normUrl: UrlCheck): (r: Result<Option<string>, Exception>)
    ensures r == Ok(None) <==> Field(j, key) in {None, Some(Null)}
    ensures r.Ok? && r.value.Some? ==>
      StrField(j, key).Ok? && normUrl(StrField(j, key).value) == Ok(r.value.value)
    ensures StrField(j, key).Ok? && normUrl(StrField(j, key).value).Err? ==> r.Err?
  {
    var s :- OptStrField(j, key);
    match s
    case None => Ok(None)
    case Some(text) =>
      match normUrl(text)
      case Ok(u) => Ok(Some(u))
      case Err(why) => Err(Invalid(key + ": " + why))
  }

  /** Every element read with `parse`; the first failure is the result. */
  function ParseEach<T>(items: seq<Json>, parse: Json -> Result<T, Exception>): (r: Result<seq<T>, Exception>)
    ensures r.Ok? ==> |r.value| == |items|
    ensures r.Ok? ==> forall k :: 0 <= k < |items| ==> parse(items[k]) == Ok(r.value[k])
    ensures r.Err? <==> exists k :: 0 <= k < |items| && parse(items[k]).Err?
    decreases |items|
  {
    if |items| == 0 then Ok([])
    else
      match parse(items[0])
      case Err(e) => Err(e)
      case Ok(x) =>
        match ParseEach(items[1..], parse)
        case Err(e) => assert items[1..][0] == items[1]; Err(e)
        case Ok(xs) => Ok([x] + xs)
  }

  lemma {:induction false} ParseEachMap<T>(xs: seq<T>, write: T -> Json, parse: Json -> Result<T, Exception>)
    requires forall x :: parse(write(x)) == Ok(x)
    ensures ParseEach(Seqs.Map(write, xs), parse) == Ok(xs)
    decreases |xs|
  {
    if |xs| > 0 {
      ParseEachMap(xs[1..], write, parse);
      assert Seqs.Map(write, xs)[1..] == Seqs.Map(write, xs[1..]);
      assert [xs[0]] + xs[1..] == xs;
    }
  }

  /** A list of strings. */
  function StrListField(j: Json, key: string): (r: Result<seq<string>, Exception>)
    ensures r.Ok? ==> Field(j, key) == Some(StrList(r.value))
  {
    match Field(j, key)
    case None => Err(Invalid(key + ": Field required"))
    case Some(Array(items)) =>
      var ss :- ParseEach(items, AsStr);
      assert StrList(ss).items == items;
      Ok(ss)
    case Some(_) => Err(Invalid(key + ": Input should be a valid list"))
  }

  function AsStr(j: Json): Result<string, Exception> {
    if j.Str? then Ok(j.s) else Err(Invalid("Input should be a valid string"))
  }

  /** A list of strings with pydantic's `min_length=1`. */
  function NonEmptyStrListField(j: Json, key: string): (r: Result<seq<string>, Exception>)
    ensures r.Ok? ==> |r.value| >= 1 && Field(j, key) == Some(StrList(r.value))
    ensures StrListField(j, key).Ok? && |StrListField(j, key).value| == 0 ==> r.Err?
    ensures StrListField(j, key).Ok? && |StrListField(j, key).value| >= 1 ==> r == StrListField(j, key)
  {
    var ss :- StrListField(j, key);
    if |ss| == 0 then Err(Invalid(key + ": List should have at least 1 item after validation, not 0"))
    else Ok(ss)
  }

  lemma StrListRoundTrip(ss: seq<string>)
    ensures ParseEach(StrList(ss).items, AsStr) == Ok(ss)
  {
    ParseEachMap(ss, s => Str(s), AsStr);
    assert Seqs.Map(s => Str(s), ss) == StrList(ss).items;
  }

  // ---------------------------------------------------------------------------
  // Documents
  // ---------------------------------------------------------------------------

  /** The body of a JSON-rendered redaction. */
  datatype Content = Content(original: Json, redacted: Json, annotations: Json)

  /** `Document` (LINK, TEXT, BASE64) and the output-only `DocumentJSON` variant. */
  datatype Document =
    | LinkDoc(documentId: string, url: string)
    | TextDoc(documentId: string, content: string)
    | Base64Doc(documentId: string, content: string)
    | JsonDoc(documentId: string, body: Content)

  function AttachmentType(d: Document): string {
    match d
    case LinkDoc(_, _) => "LINK"
    case TextDoc(_, _) => "TEXT"
    case Base64Doc(_, _) => "BASE64"
    case JsonDoc(_, _) => "JSON"
  }

  /** The variants a request may carry; JSON documents are only ever produced. */
  predicate IsInputDocument(d: Document) {
    !d.JsonDoc?
  }

  /** A document whose URL, if it has one, is already in normal form. */
  predicate NormalDocument(normUrl: UrlCheck, d: Document) {
    d.LinkDoc? ==> NormalUrl(normUrl, d.url)
  }

  function ContentJson(c: Content): Json {
    Object([("original", c.original), ("redacted", c.redacted), ("annotations", c.annotations)])
  }

  function DocumentJson(d: Document): Json {
    match d
    case LinkDoc(id, url) => Object([("attachmentType", Str("LINK")), ("documentId", Str(id)), ("url", Str(url))])
    case TextDoc(id, c) => Object([("attachmentType", Str("TEXT")), ("documentId", Str(id)), ("content", Str(c))])
    case Base64Doc(id, c) => Object([("attachmentType", Str("BASE64")), ("documentId", Str(id)), ("content", Str(c))])
    case JsonDoc(id, c) => Object([("attachmentType", Str("JSON")), ("documentId", Str(id)), ("content", ContentJson(c))])
  }

  function ParseContent(j: Json): (r: Result<Content, Exception>)
    ensures r.Ok? ==> Field(j, "original") == Some(r.value.original)
    ensures r.Ok? ==> Field(j, "redacted") == Some(r.value.redacted)
    ensures r.Ok? ==> r.value.annotations == Field(j, "annotations").GetOr(Array([]))
  {
    match (Field(j, "original"), Field(j, "redacted"))
    case (Some(o), Some(red)) => Ok(Content(o, red, Field(j, "annotations").GetOr(Array([]))))
    case (None, _) => Err(Invalid("original: Field required"))
    case (_, None) => Err(Invalid("redacted: Field required"))
  }

  /** A union discriminated by `attachmentType`; `output` admits the JSON variant too. A LINK
      document's `url` must pass the URL check and is kept in normal form. */
  function ParseDocument(j: Json, output: bool, normUrl: UrlCheck): (r: Result<Document, Exception>)
    ensures r.Ok? ==> Field(j, "attachmentType") == Some(Str(AttachmentType(r.value)))
    ensures r.Ok? ==> Field(j, "documentId") == Some(Str(r.value.documentId))
    ensures r.Ok? && !output ==> IsInputDocument(r.value)
    ensures r.Ok? && r.value.LinkDoc? ==> StrField(j, "url").Ok? && normUrl(StrField(j, "url").value) == Ok(r.value.url)
    ensures Field(j, "attachmentType") == Some(Str("LINK")) && StrField(j, "url").Ok? && normUrl(StrField(j, "url").value).Err? ==> r.Err?
    ensures Field(j, "attachmentType") !in {Some(Str("LINK")), Some(Str("TEXT")), Some(Str("BASE64")), Some(Str("JSON"))} ==> r.Err?
  {
    match Field(j, "attachmentType")
    case None => Err(Invalid("Unable to extract tag using discriminator 'attachmentType'"))
    case Some(tag) =>
      if tag == Str("LINK") then
        var id :- StrField(j, "documentId");
        var url :- UrlField(j, "url", normUrl);
        Ok(LinkDoc(id, url))
      else if tag == Str("TEXT") then
        var id :- StrField(j, "documentId");
        var c :- StrField(j, "content");
        Ok(TextDoc(id, c))
      else if tag == Str("BASE64") then
        var id :- StrField(j, "documentId");
        var c :- StrField(j, "content");
        Ok(Base64Doc(id, c))
      else if output && tag == Str("JSON") then
        var id :- StrField(j, "documentId");
        var c :- (match Field(j, "content")
                  case None => Err(Invalid("content: Field required"))
                  case Some(cj) => ParseContent(cj));
        Ok(JsonDoc(id, c))
      else Err(Invalid("Input tag does not match any of the expected tags"))
  }

  lemma DocumentRoundTrip(d: Document, output: bool, normUrl: UrlCheck)
    requires output || IsInputDocument(d)
    requires NormalDocument(normUrl, d)
    ensures ParseDocument(DocumentJson(d), output, normUrl) == Ok(d)
  {
    var j := DocumentJson(d);
    GetAt(j.fields, 0);
    GetAt(j.fields, 1);
    GetAt(j.fields, 2);
    if d.JsonDoc? {
      var cj := ContentJson(d.body);
      GetAt(cj.fields, 0);
      GetAt(cj.fields, 1);
      GetAt(cj.fields, 2);
    }
  }

  // ---------------------------------------------------------------------------
  // Redaction requests and results
  // ---------------------------------------------------------------------------

  datatype MaskedSubject = MaskedSubject(subjectId: string, alias: string)

  function MaskedSubjectJson(m: MaskedSubject): Json {
    Object([("subjectId", Str(m.subjectId)), ("alias", Str(m.alias))])
  }

  function ParseMaskedSubject(j: Json): (r: Result<MaskedSubject, Exception>)
    ensures r.Ok? ==> Field(j, "subjectId") == Some(Str(r.value.subjectId))
    ensures r.Ok? ==> Field(j, "alias") == Some(Str(r.value.alias))
  {
    var id :- StrField(j, "subjectId");
    var alias :- StrField(j, "alias");
    Ok(MaskedSubject(id, alias))
  }

  lemma MaskedSubjectRoundTrip(m: MaskedSubject)
    ensures ParseMaskedSubject(MaskedSubjectJson(m)) == Ok(m)
  {
    var j := MaskedSubjectJson(m);
    GetAt(j.fields, 0);
    GetAt(j.fields, 1);
  }

  /** A document to redact, where to call back, and optionally where to upload the result. */
  datatype RedactionTarget = RedactionTarget(document: Document, callbackUrl: string, targetBlobUrl: Option<string>)

  function TargetJson(t: RedactionTarget): Json {
    Object([("document", DocumentJson(t.document)), ("callbackUrl", Str(t.callbackUrl)),
            ("targetBlobUrl", OptStrJson(t.targetBlobUrl))])
  }

  /** Both URLs of a target are `AnyUrl`s: each must pass the check and is kept in normal form. */
  function ParseTarget(j: Json, normUrl: UrlCheck): (r: Result<RedactionTarget, Exception>)
    ensures r.Ok? ==> IsInputDocument(r.value.document)
    ensures r.Ok? ==> Field(j, "document").Some? && ParseDocument(Field(j, "document").value, false, normUrl) == Ok(r.value.document)
    ensures r.Ok? ==> StrField(j, "callbackUrl").Ok? && normUrl(StrField(j, "callbackUrl").value) == Ok(r.value.callbackUrl)
    ensures r.Ok? ==> OptUrlField(j, "targetBlobUrl", normUrl) == Ok(r.value.targetBlobUrl)
    ensures Field(j, "document").None? || Field(j, "callbackUrl").None? ==> r.Err?
    ensures StrField(j, "callbackUrl").Ok? && normUrl(StrField(j, "callbackUrl").value).Err? ==> r.Err?
    ensures StrField(j, "targetBlobUrl").Ok? && normUrl(StrField(j, "targetBlobUrl").value).Err? ==> r.Err?
  {
    var dj :- (match Field(j, "document")
               case None => Err(Invalid("document: Field required"))
               case Some(dj) => Ok(dj));
    var doc :- ParseDocument(dj, false, normUrl);
    var cb :- UrlField(j, "callbackUrl", normUrl);
    var blob :- OptUrlField(j, "targetBlobUrl", normUrl);
    Ok(RedactionTarget(doc, cb, blob))
  }

  /** A target whose URLs are all in normal form. */
  predicate NormalTarget(normUrl: UrlCheck, t: RedactionTarget) {
    && NormalDocument(normUrl, t.document)
    && NormalUrl(normUrl, t.callbackUrl)
    && (t.targetBlobUrl.Some? ==> NormalUrl(normUrl, t.targetBlobUrl.value))
  }

  lemma TargetRoundTrip(t: RedactionTarget, normUrl: UrlCheck)
    requires IsInputDocument(t.document) && NormalTarget(normUrl, t)
    ensures ParseTarget(TargetJson(t), normUrl) == Ok(t)
  {
    var j := TargetJson(t);
    GetAt(j.fields, 0);
    GetAt(j.fields, 1);
    GetAt(j.fields, 2);
    DocumentRoundTrip(t.document, false, normUrl);
  }

  /** The reader behind a request's `objects` list. */
  function TargetReader(normUrl: UrlCheck): Json -> Result<RedactionTarget, Exception> {
    j => ParseTarget(j, normUrl)
  }

  /** A subject with its role; the person record itself is kept as the JSON it came in. */
  datatype Subject = Subject(role: string, subject: Json)

  function SubjectJson(s: Subject): Json {
    Object([("role", Str(s.role)), ("subject", s.subject)])
  }

  function ParseSubject(j: Json): (r: Result<Subject, Exception>)
    ensures r.Ok? ==> Field(j, "role") == Some(Str(r.value.role)) && Field(j, "subject") == Some(r.value.subject)
  {
    var role :- StrField(j, "role");
    match Field(j, "subject")
    case None => Err(Invalid("subject: Field required"))
    case Some(p) => Ok(Subject(role, p))
  }

  datatype RedactionRequest = RedactionRequest(
    jurisdictionId: string, caseId: string, subjects: seq<Subject>, objects: seq<RedactionTarget>)

  function RequestJson(q: RedactionRequest): Json {
    Object([("jurisdictionId", Str(q.jurisdictionId)), ("caseId", Str(q.caseId)),
            ("subjects", Array(Seqs.Map(SubjectJson, q.subjects))),
            ("objects", Array(Seqs.Map(TargetJson, q.objects)))])
  }

  /** A list field whose elements are read with `parse`, with `min_length=1`. */
  function NonEmptyListField<T>(j: Json, key: string, parse: Json -> Result<T, Exception>): (r: Result<seq<T>, Exception>)
    ensures r.Ok? ==> |r.value| >= 1
    ensures r.Ok? ==> exists items :: Field(j, key) == Some(Array(items)) && ParseEach(items, parse) == Ok(r.value)
    ensures (exists items :: Field(j, key) == Some(Array(items)) && ParseEach(items, parse).Ok? && |items| >= 1) <==> r.Ok?
  {
    match Field(j, key)
    case None => Err(Invalid(key + ": Field required"))
    case Some(Array(items)) =>
      var xs :- ParseEach(items, parse);
      if |xs| == 0 then Err(Invalid(key + ": List should have at least 1 item after validation, not 0"))
      else Ok(xs)
    case Some(_) => Err(Invalid(key + ": Input should be a valid list"))
  }

  /** Every object is read as a target, so an invalid URL in any of them refuses the request. */
  function ParseRequest(j: Json, normUrl: UrlCheck): (r: Result<RedactionRequest, Exception>)
    ensures r.Ok? ==> |r.value.subjects| >= 1 && |r.value.objects| >= 1
    ensures r.Ok? ==> forall k :: 0 <= k < |r.value.objects| ==> IsInputDocument(r.value.objects[k].document)
    ensures r.Ok? ==> exists items :: Field(j, "objects") == Some(Array(items)) && ParseEach(items, TargetReader(normUrl)) == Ok(r.value.objects)
    ensures Field(j, "subjects") == Some(Array([])) || Field(j, "objects") == Some(Array([])) ==> r.Err?
  {
    var jur :- StrField(j, "jurisdictionId");
    var c :- StrField(j, "caseId");
    var subjects :- NonEmptyListField(j, "subjects", ParseSubject);
    var objects :- NonEmptyListField(j, "objects", TargetReader(normUrl));
    Ok(RedactionRequest(jur, c, subjects, objects))
  }

  lemma RequestKeysDistinct(q: RedactionRequest)
    ensures forall a, b :: 0 <= a < b < |RequestJson(q).fields| ==> RequestJson(q).fields[a].0 != RequestJson(q).fields[b].0
  {
    var f := RequestJson(q).fields;
    assert f[0].0[0] == 'j' && f[1].0[0] == 'c' && f[2].0[0] == 's' && f[3].0[0] == 'o';
  }

  lemma RequestRoundTrip(q: RedactionRequest, normUrl: UrlCheck)
    requires |q.subjects| >= 1 && |q.objects| >= 1
    requires forall k :: 0 <= k < |q.objects| ==> IsInputDocument(q.objects[k].document)
    requires forall k :: 0 <= k < |q.objects| ==> NormalTarget(normUrl, q.objects[k])
    ensures ParseRequest(RequestJson(q), normUrl) == Ok(q)
  {
    var j := RequestJson(q);
    var f := j.fields;
    RequestKeysDistinct(q);
    GetAt(f, 0);
    assert StrField(j, "jurisdictionId") == Ok(q.jurisdictionId);
    GetAt(f, 1);
    assert StrField(j, "caseId") == Ok(q.caseId);
    GetAt(f, 2);
    SubjectsRoundTrip(q.subjects);
    assert NonEmptyListField(j, "subjects", ParseSubject) == Ok(q.subjects);
    GetAt(f, 3);
    ParseEachTargets(q.objects, normUrl);
    assert NonEmptyListField(j, "objects", TargetReader(normUrl)) == Ok(q.objects);
  }

  lemma SubjectsRoundTrip(ss: seq<Subject>)
    ensures ParseEach(Seqs.Map(SubjectJson, ss), ParseSubject) == Ok(ss)
  {
    forall s: Subject
      ensures ParseSubject(SubjectJson(s)) == Ok(s)
    {
      GetAt(SubjectJson(s).fields, 0);
      GetAt(SubjectJson(s).fields, 1);
    }
    ParseEachMap(ss, SubjectJson, ParseSubject);
  }

  lemma {:induction false} ParseEachTargets(ts: seq<RedactionTarget>, normUrl: UrlCheck)
    requires forall k :: 0 <= k < |ts| ==> IsInputDocument(ts[k].document)
    requires forall k :: 0 <= k < |ts| ==> NormalTarget(normUrl, ts[k])
    ensures ParseEach(Seqs.Map(TargetJson, ts), TargetReader(normUrl)) == Ok(ts)
    decreases |ts|
  {
    if |ts| > 0 {
      TargetRoundTrip(ts[0], normUrl);
      ParseEachTargets(ts[1..], normUrl);
      assert Seqs.Map(TargetJson, ts)[1..] == Seqs.Map(TargetJson, ts[1..]);
      assert [ts[0]] + ts[1..] == ts;
    }
  }

  /** One object whose callback the URL check refuses makes the whole request fail: the
      program answers such a request with a validation error instead of queueing anything. */
  lemma BadCallbackRefused(q: RedactionRequest, normUrl: UrlCheck, k: nat, cb: string)
    requires k < |q.objects| && normUrl(cb).Err?
    ensures ParseRequest(RequestJson(q.(objects := q.objects[k := q.objects[k].(callbackUrl := cb)])), normUrl).Err?
  {
    var bad := q.objects[k].(callbackUrl := cb);
    var q' := q.(objects := q.objects[k := bad]);
    var j := RequestJson(q');
    var items := Seqs.Map(TargetJson, q'.objects);
    var tj := TargetJson(bad);
    GetAt(tj.fields, 1);
    assert StrField(tj, "callbackUrl") == Ok(cb);
    assert items[k] == tj;
    assert TargetReader(normUrl)(items[k]).Err?;
    assert ParseEach(items, TargetReader(normUrl)).Err?;
    RequestKeysDistinct(q');
    GetAt(j.fields, 3);
    assert Field(j, "objects") == Some(Array(items));
  }

  /** The status of a job that has not finished. */
  datatype PendingStatus = Queued | Processing

  /** `RedactionResult`: a union discriminated by `status`. */
  datatype RedactionResult =
    | ResultSuccess(jurisdictionId: string, caseId: string, inputDocumentId: string,
                    maskedSubjects: seq<MaskedSubject>, redactedDocument: Document)
    | ResultError(jurisdictionId: string, caseId: string, inputDocumentId: string,
                  maskedSubjects: seq<MaskedSubject>, error: string)
    | ResultPending(jurisdictionId: string, caseId: string, inputDocumentId: string,
                    maskedSubjects: seq<MaskedSubject>, pending: PendingStatus)

  function StatusName(r: RedactionResult): string {
    match r
    case ResultSuccess(_, _, _, _, _) => "COMPLETE"
    case ResultError(_, _, _, _, _) => "ERROR"
    case ResultPending(_, _, _, _, Queued) => "QUEUED"
    case ResultPending(_, _, _, _, Processing) => "PROCESSING"
  }

  /** The fields in the order the model declares them. */
  function ResultJson(r: RedactionResult): Json {
    var jur, c, doc := ("jurisdictionId", Str(r.jurisdictionId)), ("caseId", Str(r.caseId)),
                       ("inputDocumentId", Str(r.inputDocumentId));
    var masked := ("maskedSubjects", Array(Seqs.Map(MaskedSubjectJson, r.maskedSubjects)));
    var status := ("status", Str(StatusName(r)));
    match r
    case ResultSuccess(_, _, _, _, d) => Object([jur, c, doc, masked, ("redactedDocument", DocumentJson(d)), status])
    case ResultError(_, _, _, _, e) => Object([jur, c, doc, masked, ("error", Str(e)), status])
    case ResultPending(_, _, _, _, _) => Object([jur, c, doc, masked, status])
  }

  function MaskedSubjectsField(j: Json): (r: Result<seq<MaskedSubject>, Exception>) {
    match Field(j, "maskedSubjects")
    case None => Err(Invalid("maskedSubjects: Field required"))
    case Some(Array(items)) => ParseEach(items, ParseMaskedSubject)
    case Some(_) => Err(Invalid("maskedSubjects: Input should be a valid list"))
  }

  /** Reads a `RedactionResult`, or with `completedOnly` a `RedactionResultCompleted`,
      which has no pending variant. */
  function ParseResult(j: Json, completedOnly: bool, normUrl: UrlCheck): (r: Result<RedactionResult, Exception>)
    ensures r.Ok? ==> Field(j, "status") == Some(Str(StatusName(r.value)))
    ensures r.Ok? && completedOnly ==> Field(j, "status") in {Some(Str("COMPLETE")), Some(Str("ERROR"))}
    ensures r.Ok? && r.value.ResultSuccess? ==> exists dj :: Field(j, "redactedDocument") == Some(dj)
    ensures r.Ok? && r.value.ResultError? ==> Field(j, "error") == Some(Str(r.value.error))
  {
    var jur :- StrField(j, "jurisdictionId");
    var c :- StrField(j, "caseId");
    var doc :- StrField(j, "inputDocumentId");
    var masked :- MaskedSubjectsField(j);
    match Field(j, "status")
    case None => Err(Invalid("Unable to extract tag using discriminator 'status'"))
    case Some(tag) =>
      if tag == Str("COMPLETE") then
        match Field(j, "redactedDocument")
        case None => Err(Invalid("redactedDocument: Field required"))
        case Some(dj) =>
          var d :- ParseDocument(dj, true, normUrl);
          Ok(ResultSuccess(jur, c, doc, masked, d))
      else if tag == Str("ERROR") then
        var e :- StrField(j, "error");
        Ok(ResultError(jur, c, doc, masked, e))
      else if !completedOnly && tag == Str("QUEUED") then Ok(ResultPending(jur, c, doc, masked, Queued))
      else if !completedOnly && tag == Str("PROCESSING") then Ok(ResultPending(jur, c, doc, masked, Processing))
      else Err(Invalid("Input tag does not match any of the expected tags"))
  }

  lemma {:induction false} MaskedSubjectsRoundTrip(ms: seq<MaskedSubject>)
    ensures ParseEach(Seqs.Map(MaskedSubjectJson, ms), ParseMaskedSubject) == Ok(ms)
  {
    forall m: MaskedSubject
      ensures ParseMaskedSubject(MaskedSubjectJson(m)) == Ok(m)
    {
      MaskedSubjectRoundTrip(m);
    }
    ParseEachMap(ms, MaskedSubjectJson, ParseMaskedSubject);
  }

  lemma ResultRoundTrip(r: RedactionResult, completedOnly: bool, normUrl: UrlCheck)
    requires completedOnly ==> !r.ResultPending?
    requires r.ResultSuccess? ==> NormalDocument(normUrl, r.redactedDocument)
    ensures ParseResult(ResultJson(r), completedOnly, normUrl) == Ok(r)
  {
    var j := ResultJson(r);
    ResultKeysDistinct(r);
    ResultCommonFields(r);
    if r.ResultSuccess? {
      GetAt(j.fields, 4);
      GetAt(j.fields, 5);
      DocumentRoundTrip(r.redactedDocument, true, normUrl);
    } else if r.ResultError? {
      GetAt(j.fields, 4);
      GetAt(j.fields, 5);
    } else {
      GetAt(j.fields, 4);
    }
  }

  lemma ResultKeysDistinct(r: RedactionResult)
    ensures forall a, b :: 0 <= a < b < |ResultJson(r).fields| ==> ResultJson(r).fields[a].0 != ResultJson(r).fields[b].0
  {
    var f := ResultJson(r).fields;
    assert f[0].0[0] == 'j' && f[1].0[0] == 'c' && f[2].0[0] == 'i' && f[3].0[0] == 'm';
    assert f[|f| - 1].0[0] == 's';
    if |f| == 6 {
      assert f[4].0[0] == 'r' || f[4].0[0] == 'e';
    }
  }

  /** The fields every variant shares read back as written. */
  lemma ResultCommonFields(r: RedactionResult)
    ensures StrField(ResultJson(r), "jurisdictionId") == Ok(r.jurisdictionId)
    ensures StrField(ResultJson(r), "caseId") == Ok(r.caseId)
    ensures StrField(ResultJson(r), "inputDocumentId") == Ok(r.inputDocumentId)
    ensures MaskedSubjectsField(ResultJson(r)) == Ok(r.maskedSubjects)
  {
    ResultKeysDistinct(r);
    ResultFieldAt(r, 0, "jurisdictionId", Str(r.jurisdictionId));
    ResultFieldAt(r, 1, "caseId", Str(r.caseId));
    ResultFieldAt(r, 2, "inputDocumentId", Str(r.inputDocumentId));
    ResultFieldAt(r, 3, "maskedSubjects", Array(Seqs.Map(MaskedSubjectJson, r.maskedSubjects)));
    MaskedSubjectsRoundTrip(r.maskedSubjects);
  }

  lemma ResultFieldAt(r: RedactionResult, i: nat, key: string, v: Json)
    requires i < 4
    requires forall a, b :: 0 <= a < b < |ResultJson(r).fields| ==> ResultJson(r).fields[a].0 != ResultJson(r).fields[b].0
    requires ResultJson(r).fields[i] == (key, v)
    ensures Field(ResultJson(r), key) == Some(v)
  {
    GetAt(ResultJson(r).fields, i);
  }

  // ---------------------------------------------------------------------------
  // Enumerations
  // ---------------------------------------------------------------------------

  datatype ReviewProtocol = BlindReview | FinalReview

  function ProtocolName(p: ReviewProtocol): string {
    match p
    case BlindReview => "BLIND_REVIEW"
    case FinalReview => "FINAL_REVIEW"
  }

  function ParseProtocol(s: string): (r: Option<ReviewProtocol>)
    ensures r.Some? <==> s in {"BLIND_REVIEW", "FINAL_REVIEW"}
    ensures r.Some? ==> ProtocolName(r.value) == s
  {
    if s == "BLIND_REVIEW" then Some(BlindReview)
    else if s == "FINAL_REVIEW" then Some(FinalReview)
    else None
  }

  datatype FinalChargingDecision = Charge | Decline

  function FinalDecisionName(d: FinalChargingDecision): string {
    match d
    case Charge => "CHARGE"
    case Decline => "DECLINE"
  }

  function ParseFinalDecision(s: string): (r: Option<FinalChargingDecision>)
    ensures r.Some? <==> s in {"CHARGE", "DECLINE"}
    ensures r.Some? ==> FinalDecisionName(r.value) == s
  {
    if s == "CHARGE" then Some(Charge)
    else if s == "DECLINE" then Some(Decline)
    else None
  }

  datatype BlindChargingDecision = ChargeLikely | ChargeMaybe | DeclineMaybe | DeclineLikely

  function BlindDecisionName(d: BlindChargingDecision): string {
    match d
    case ChargeLikely => "CHARGE_LIKELY"
    case ChargeMaybe => "CHARGE_MAYBE"
    case DeclineMaybe => "DECLINE_MAYBE"
    case DeclineLikely => "DECLINE_LIKELY"
  }

  function ParseBlindDecision(s: string): (r: Option<BlindChargingDecision>)
    ensures r.Some? <==> s in {"CHARGE_LIKELY", "CHARGE_MAYBE", "DECLINE_MAYBE", "DECLINE_LIKELY"}
    ensures r.Some? ==> BlindDecisionName(r.value) == s
  {
    if s == "CHARGE_LIKELY" then Some(ChargeLikely)
    else if s == "CHARGE_MAYBE" then Some(ChargeMaybe)
    else if s == "DECLINE_MAYBE" then Some(DeclineMaybe)
    else if s == "DECLINE_LIKELY" then Some(DeclineLikely)
    else None
  }

  datatype DisqualifyingReason =
    | AssignedToUnblind
    | CaseTypeIneligible
    | PriorKnowledgeBias
    | NarrativeIncomplete
    | RedactionMissing
    | RedactionIllegible
    | OtherReason

  function ReasonName(r: DisqualifyingReason): string {
    match r
    case AssignedToUnblind => "ASSIGNED_TO_UNBLIND"
    case CaseTypeIneligible => "CASE_TYPE_INELIGIBLE"
    case PriorKnowledgeBias => "PRIOR_KNOWLEDGE_BIAS"
    case NarrativeIncomplete => "NARRATIVE_INCOMPLETE"
    case RedactionMissing => "REDACTION_MISSING"
    case RedactionIllegible => "REDACTION_ILLEGIBLE"
    case OtherReason => "OTHER"
  }

  function ParseReason(s: string): (r: Option<DisqualifyingReason>)
    ensures r.Some? ==> ReasonName(r.value) == s
    ensures forall x :: ReasonName(x) == s ==> r == Some(x)
  {
    if s == "ASSIGNED_TO_UNBLIND" then Some(AssignedToUnblind)
    else if s == "CASE_TYPE_INELIGIBLE" then Some(CaseTypeIneligible)
    else if s == "PRIOR_KNOWLEDGE_BIAS" then Some(PriorKnowledgeBias)
    else if s == "NARRATIVE_INCOMPLETE" then Some(NarrativeIncomplete)
    else if s == "REDACTION_MISSING" then Some(RedactionMissing)
    else if s == "REDACTION_ILLEGIBLE" then Some(RedactionIllegible)
    else if s == "OTHER" then Some(OtherReason)
    else None
  }

  /** Each enumeration's reader inverts its writer. */
  lemma EnumRoundTrips(p: ReviewProtocol, f: FinalChargingDecision, b: BlindChargingDecision, d: DisqualifyingReason)
    ensures ParseProtocol(ProtocolName(p)) == Some(p)
    ensures ParseFinalDecision(FinalDecisionName(f)) == Some(f)
    ensures ParseBlindDecision(BlindDecisionName(b)) == Some(b)
    ensures ParseReason(ReasonName(d)) == Some(d)
  {
  }

  // ---------------------------------------------------------------------------
  // Review decisions
  // ---------------------------------------------------------------------------

  /** One disqualifying reason, or a list of them. */
  datatype Reasons = OneReason(reason: DisqualifyingReason) | ReasonList(reasons: seq<DisqualifyingReason>)

  /** A blind review outcome, discriminated by `outcomeType`. */
  datatype BlindOutcome =
    | BlindDecision(decision: BlindChargingDecision, explanation: Option<string>, additionalEvidence: Option<string>)
    | Disqualify(reasons: Reasons, reasonExplanation: Option<string>)

  /** `ReviewDecision`, discriminated by `protocol`. */
  datatype ReviewDecision =
    | BlindReviewDecision(outcome: BlindOutcome)
    | FinalReviewDecision(finalDecision: FinalChargingDecision, finalExplanation: Option<string>)

  function ReasonJson(r: DisqualifyingReason): Json {
    Str(ReasonName(r))
  }

  function ReasonsJson(r: Reasons): Json {
    match r
    case OneReason(x) => ReasonJson(x)
    case ReasonList(xs) => Array(Seqs.Map(ReasonJson, xs))
  }

  function OutcomeJson(o: BlindOutcome): Json {
    match o
    case BlindDecision(d, e, a) =>
      Object([("outcomeType", Str("BLIND_DECISION")), ("blindChargingDecision", Str(BlindDecisionName(d))),
              ("blindChargingDecisionExplanation", OptStrJson(e)), ("additionalEvidence", OptStrJson(a))])
    case Disqualify(r, e) =>
      Object([("outcomeType", Str("DISQUALIFICATION")), ("disqualifyingReason", ReasonsJson(r)),
              ("disqualifyingReasonExplanation", OptStrJson(e))])
  }

  function DecisionJson(d: ReviewDecision): Json {
    match d
    case BlindReviewDecision(o) => Object([("protocol", Str("BLIND_REVIEW")), ("outcome", OutcomeJson(o))])
    case FinalReviewDecision(f, e) =>
      Object([("protocol", Str("FINAL_REVIEW")),
              ("outcome", Object([("finalChargingDecision", Str(FinalDecisionName(f))),
                                  ("finalChargingDecisionExplanation", OptStrJson(e))]))])
  }

  function EnumField<T>(j: Json, key: string, parse: string -> Option<T>): (r: Result<T, Exception>)
    ensures r.Ok? ==> exists s :: Field(j, key) == Some(Str(s)) && parse(s) == Some(r.value)
  {
    var s :- StrField(j, key);
    match parse(s)
    case None => Err(Invalid(key + ": Input should be a valid enumeration member"))
    case Some(x) => Ok(x)
  }

  function ParseReasonJson(j: Json): (r: Result<DisqualifyingReason, Exception>)
    ensures r.Ok? ==> j == ReasonJson(r.value)
  {
    match j
    case Str(s) =>
      (match ParseReason(s)
       case None => Err(Invalid("disqualifyingReason: Input should be a valid enumeration member"))
       case Some(x) => Ok(x))
    case _ => Err(Invalid("disqualifyingReason: Input should be a valid enumeration member"))
  }

  function ParseReasons(j: Json): (r: Result<Reasons, Exception>)
    ensures r.Ok? && r.value.OneReason? ==> j == ReasonJson(r.value.reason)
    ensures r.Ok? && r.value.ReasonList? ==> j.Array? && |j.items| == |r.value.reasons|
  {
    if j.Array? then
      var xs :- ParseEach(j.items, ParseReasonJson);
      Ok(ReasonList(xs))
    else
      var x :- ParseReasonJson(j);
      Ok(OneReason(x))
  }

  function ParseOutcome(j: Json): (r: Result<BlindOutcome, Exception>)
    ensures r.Ok? && r.value.BlindDecision? ==> Field(j, "outcomeType") == Some(Str("BLIND_DECISION"))
    ensures r.Ok? && r.value.Disqualify? ==> Field(j, "outcomeType") == Some(Str("DISQUALIFICATION"))
  {
    match Field(j, "outcomeType")
    case None => Err(Invalid("Unable to extract tag using discriminator 'outcomeType'"))
    case Some(tag) =>
      if tag == Str("BLIND_DECISION") then
        var d :- EnumField(j, "blindChargingDecision", ParseBlindDecision);
        var e :- OptStrField(j, "blindChargingDecisionExplanation");
        var a :- OptStrField(j, "additionalEvidence");
        Ok(BlindDecision(d, e, a))
      else if tag == Str("DISQUALIFICATION") then
        var rj :- (match Field(j, "disqualifyingReason")
                   case None => Err(Invalid("disqualifyingReason: Field required"))
                   case Some(rj) => Ok(rj));
        var rs :- ParseReasons(rj);
        var e :- OptStrField(j, "disqualifyingReasonExplanation");
        Ok(Disqualify(rs, e))
      else Err(Invalid("Input tag does not match any of the expected tags"))
  }

  function ParseDecision(j: Json): (r: Result<ReviewDecision, Exception>)
    ensures r.Ok? && r.value.BlindReviewDecision? ==> Field(j, "protocol") == Some(Str("BLIND_REVIEW"))
    ensures r.Ok? && r.value.FinalReviewDecision? ==> Field(j, "protocol") == Some(Str("FINAL_REVIEW"))
    ensures Field(j, "protocol") !in {Some(Str("BLIND_REVIEW")), Some(Str("FINAL_REVIEW"))} ==> r.Err?
  {
    match Field(j, "protocol")
    case None => Err(Invalid("Unable to extract tag using discriminator 'protocol'"))
    case Some(tag) =>
      var oj :- (match Field(j, "outcome")
                 case None => Err(Invalid("outcome: Field required"))
                 case Some(oj) => Ok(oj));
      if tag == Str("BLIND_REVIEW") then
        var o :- ParseOutcome(oj);
        Ok(BlindReviewDecision(o))
      else if tag == Str("FINAL_REVIEW") then
        var f :- EnumField(oj, "finalChargingDecision", ParseFinalDecision);
        var e :- OptStrField(oj, "finalChargingDecisionExplanation");
        Ok(FinalReviewDecision(f, e))
      else Err(Invalid("Input tag does not match any of the expected tags"))
  }

  lemma ReasonsRoundTrip(r: Reasons)
    ensures ParseReasons(ReasonsJson(r)) == Ok(r)
  {
    forall x: DisqualifyingReason
      ensures ParseReasonJson(ReasonJson(x)) == Ok(x)
    {
      var _ := ParseReason(ReasonName(x));
    }
    if r.ReasonList? {
      ParseEachMap(r.reasons, ReasonJson, ParseReasonJson);
    }
  }

  lemma OutcomeRoundTrip(o: BlindOutcome)
    ensures ParseOutcome(OutcomeJson(o)) == Ok(o)
  {
    var j := OutcomeJson(o);
    GetAt(j.fields, 0);
    if o.BlindDecision? {
      BlindDecisionFields(o);
    } else {
      GetAt(j.fields, 1);
      GetAt(j.fields, 2);
      ReasonsRoundTrip(o.reasons);
    }
  }

  lemma BlindDecisionFields(o: BlindOutcome)
    requires o.BlindDecision?
    ensures EnumField(OutcomeJson(o), "blindChargingDecision", ParseBlindDecision) == Ok(o.decision)
    ensures OptStrField(OutcomeJson(o), "blindChargingDecisionExplanation") == Ok(o.explanation)
    ensures OptStrField(OutcomeJson(o), "additionalEvidence") == Ok(o.additionalEvidence)
  {
    var j := OutcomeJson(o);
    GetAt(j.fields, 1);
    GetAt(j.fields, 2);
    GetAt(j.fields, 3);
    assert ParseBlindDecision(BlindDecisionName(o.decision)) == Some(o.decision);
  }

  lemma DecisionRoundTrip(d: ReviewDecision)
    ensures ParseDecision(DecisionJson(d)) == Ok(d)
  {
    var j := DecisionJson(d);
    GetAt(j.fields, 0);
    GetAt(j.fields, 1);
    if d.BlindReviewDecision? {
      OutcomeRoundTrip(d.outcome);
    } else {
      var oj := j.fields[1].1;
      GetAt(oj.fields, 0);
      GetAt(oj.fields, 1);
      assert ParseFinalDecision(FinalDecisionName(d.finalDecision)) == Some(d.finalDecision);
    }
  }

  // ---------------------------------------------------------------------------
  // Exposures and reviews
  // ---------------------------------------------------------------------------

  /** `subjectId`: the handlers accept one id or a list of ids. */
  datatype SubjectIds = OneSubject(id: string) | SubjectList(ids: seq<string>)

  function SubjectIdsJson(s: SubjectIds): Json {
    match s
    case OneSubject(id) => Str(id)
    case SubjectList(ids) => StrList(ids)
  }

  function ParseSubjectIds(j: Json): (r: Result<SubjectIds, Exception>)
    ensures r.Ok? ==> SubjectIdsJson(r.value) == j
  {
    match j
    case Str(s) => Ok(OneSubject(s))
    case Array(items) =>
      var ids :- ParseEach(items, AsStr);
      assert StrList(ids).items == items;
      Ok(SubjectList(ids))
    case _ => Err(Invalid("subjectId: Input should be a valid string"))
  }

  lemma SubjectIdsRoundTrip(s: SubjectIds)
    ensures ParseSubjectIds(SubjectIdsJson(s)) == Ok(s)
  {
    if s.SubjectList? {
      StrListRoundTrip(s.ids);
    }
  }

  function SubjectIdsField(j: Json): Result<SubjectIds, Exception> {
    match Field(j, "subjectId")
    case None => Err(Invalid("subjectId: Field required"))
    case Some(sj) => ParseSubjectIds(sj)
  }

  /** Someone was shown a case's documents under a review protocol. */
  datatype Exposure = Exposure(
    jurisdictionId: string, caseId: string, subjectIds: SubjectIds, reviewer: string,
    documentIds: seq<string>, protocol: ReviewProtocol, extra: Option<string>)

  function ExposureJson(x: Exposure): Json {
    Object([("jurisdictionId", Str(x.jurisdictionId)), ("caseId", Str(x.caseId)),
            ("subjectId", SubjectIdsJson(x.subjectIds)), ("reviewingAttorneyMaskedId", Str(x.reviewer)),
            ("documentIds", StrList(x.documentIds)), ("protocol", Str(ProtocolName(x.protocol))),
            ("extra", OptStrJson(x.extra))])
  }

  function ParseExposure(j: Json): (r: Result<Exposure, Exception>)
    ensures r.Ok? ==> |r.value.documentIds| >= 1
    ensures r.Ok? ==> Field(j, "documentIds") == Some(StrList(r.value.documentIds))
    ensures Field(j, "documentIds") == Some(Array([])) ==> r.Err?
  {
    var jur :- StrField(j, "jurisdictionId");
    var c :- StrField(j, "caseId");
    var subjects :- SubjectIdsField(j);
    var reviewer :- StrField(j, "reviewingAttorneyMaskedId");
    var docs :- NonEmptyStrListField(j, "documentIds");
    var p :- EnumField(j, "protocol", ParseProtocol);
    var extra :- OptStrField(j, "extra");
    Ok(Exposure(jur, c, subjects, reviewer, docs, p, extra))
  }

  lemma ExposureRoundTrip(x: Exposure)
    requires |x.documentIds| >= 1
    ensures ParseExposure(ExposureJson(x)) == Ok(x)
  {
    var j := ExposureJson(x);
    GetAt(j.fields, 0);
    GetAt(j.fields, 1);
    GetAt(j.fields, 2);
    GetAt(j.fields, 3);
    GetAt(j.fields, 4);
    GetAt(j.fields, 5);
    GetAt(j.fields, 6);
    SubjectIdsRoundTrip(x.subjectIds);
    StrListRoundTrip(x.documentIds);
    assert ParseProtocol(ProtocolName(x.protocol)) == Some(x.protocol);
  }

  /** A recorded review; the two timestamps are kept as the text the datetime reader gives. */
  datatype Review = Review(
    jurisdictionId: string, caseId: string, subjectIds: SubjectIds, reviewer: string,
    documentIds: seq<string>, decision: ReviewDecision, pageOpen: string, decisionTime: string)

  function ReviewJson(x: Review): Json {
    Object([("jurisdictionId", Str(x.jurisdictionId)), ("caseId", Str(x.caseId)),
            ("subjectId", SubjectIdsJson(x.subjectIds)), ("reviewingAttorneyMaskedId", Str(x.reviewer)),
            ("documentIds", StrList(x.documentIds)), ("decision", DecisionJson(x.decision)),
            ("timestamps", Object([("pageOpen", Str(x.pageOpen)), ("decision", Str(x.decisionTime))]))])
  }

  /** pydantic's `AwareDatetime`, which the caller supplies: either why a JSON value is not a
      timezone-aware datetime (a naive or malformed one), or the datetime's ISO text. */
  type TimeCheck = Json -> Result<string, string>

  /** A required `AwareDatetime` field: a value the check accepts, kept as its ISO text. */
  function TimeField(j: Json, key: string, readTime: TimeCheck): (r: Result<string, Exception>)
    ensures r.Ok? <==> Field(j, key).Some? && readTime(Field(j, key).value).Ok?
    ensures r.Ok? ==> readTime(Field(j, key).value) == Ok(r.value)
  {
    match Field(j, key)
    case None => Err(Invalid(key + ": Field required"))
    case Some(v) =>
      match readTime(v)
      case Ok(t) => Ok(t)
      case Err(why) => Err(Invalid(key + ": " + why))
  }

  /** Both timestamps are `AwareDatetime`s: a value the datetime check refuses refuses the review. */
  function ParseReview(j: Json, readTime: TimeCheck): (r: Result<Review, Exception>)
    ensures r.Ok? ==> |r.value.documentIds| >= 1
    ensures r.Ok? ==> Field(j, "documentIds") == Some(StrList(r.value.documentIds))
    ensures Field(j, "documentIds") == Some(Array([])) ==> r.Err?
    ensures r.Ok? ==> Field(j, "timestamps").Some?
    ensures r.Ok? ==> TimeField(Field(j, "timestamps").value, "pageOpen", readTime) == Ok(r.value.pageOpen)
    ensures r.Ok? ==> TimeField(Field(j, "timestamps").value, "decision", readTime) == Ok(r.value.decisionTime)
    ensures Field(j, "timestamps").Some? && TimeField(Field(j, "timestamps").value, "pageOpen", readTime).Err? ==> r.Err?
    ensures Field(j, "timestamps").Some? && TimeField(Field(j, "timestamps").value, "decision", readTime).Err? ==> r.Err?
  {
    var jur :- StrField(j, "jurisdictionId");
    var c :- StrField(j, "caseId");
    var subjects :- SubjectIdsField(j);
    var reviewer :- StrField(j, "reviewingAttorneyMaskedId");
    var docs :- NonEmptyStrListField(j, "documentIds");
    var dj :- (match Field(j, "decision")
               case None => Err(Invalid("decision: Field required"))
               case Some(dj) => Ok(dj));
    var d :- ParseDecision(dj);
    var tj :- (match Field(j, "timestamps")
               case None => Err(Invalid("timestamps: Field required"))
               case Some(tj) => Ok(tj));
    var pageOpen :- TimeField(tj, "pageOpen", readTime);
    var decided :- TimeField(tj, "decision", readTime);
    Ok(Review(jur, c, subjects, reviewer, docs, d, pageOpen, decided))
  }

  lemma ReviewRoundTrip(x: Review, readTime: TimeCheck)
    requires |x.documentIds| >= 1
    requires readTime(Str(x.pageOpen)) == Ok(x.pageOpen) && readTime(Str(x.decisionTime)) == Ok(x.decisionTime)
    ensures ParseReview(ReviewJson(x), readTime) == Ok(x)
  {
    var j := ReviewJson(x);
    ReviewHeadFields(x);
    GetAt(j.fields, 5);
    GetAt(j.fields, 6);
    var tj := j.fields[6].1;
    GetAt(tj.fields, 0);
    GetAt(tj.fields, 1);
    DecisionRoundTrip(x.decision);
  }

  lemma ReviewHeadFields(x: Review)
    requires |x.documentIds| >= 1
    ensures StrField(ReviewJson(x), "jurisdictionId") == Ok(x.jurisdictionId)
    ensures StrField(ReviewJson(x), "caseId") == Ok(x.caseId)
    ensures SubjectIdsField(ReviewJson(x)) == Ok(x.subjectIds)
    ensures StrField(ReviewJson(x), "reviewingAttorneyMaskedId") == Ok(x.reviewer)
    ensures NonEmptyStrListField(ReviewJson(x), "documentIds") == Ok(x.documentIds)
  {
    var j := ReviewJson(x);
    GetAt(j.fields, 0);
    GetAt(j.fields, 1);
    GetAt(j.fields, 2);
    GetAt(j.fields, 3);
    GetAt(j.fields, 4);
    SubjectIdsRoundTrip(x.subjectIds);
    StrListRoundTrip(x.documentIds);
  }
}
