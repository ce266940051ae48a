/** The second task of the chain: run the redaction pipeline over the fetched bytes. The
    pipeline's stages are opaque; what is modelled is the stage list the task assembles,
    the quality gate, and the task's error and retry handling. */
module Redact {
  import opened Common
  import opened Tasks
  import Fetch

  datatype RedactionTask = RedactionTask(documentId: string, jurisdictionId: string, caseId: string, renderer: OutputFormat)

  datatype RedactionResult = RedactionResult(
    jurisdictionId: string, caseId: string, documentId: string, errors: seq<ProcessingError>,
    fileStorageId: Option<string>, renderer: OutputFormat)

  datatype RenderConfig = PdfRender | TextRender | HtmlRender | JsonRender

  /** A pipeline stage: the memory I/O engines, a stage taken from the configuration, the
      embedding inspector, or a renderer. */
  datatype Stage = InMemory | OutMemory | Configured(name: string) | Embedder | Renderer(config: RenderConfig)

  function RendererFor(f: OutputFormat): (r: Result<RenderConfig, Exception>)
    ensures r.Err? <==> f.OtherFormat?
    ensures r.Err? ==> r.error == ValueError("Unsupported output format: " + FormatName(f))
  {
    match f
    case Pdf => Ok(PdfRender)
    case Text => Ok(TextRender)
    case Html => Ok(HtmlRender)
    case JsonFormat => Ok(JsonRender)
    case OtherFormat(_) => Err(ValueError("Unsupported output format: " + FormatName(f)))
  }

  /** The output format a renderer produces. */
  function FormatOf(r: RenderConfig): OutputFormat {
    match r
    case PdfRender => Pdf
    case TextRender => Text
    case HtmlRender => Html
    case JsonRender => JsonFormat
  }

  /** Each of the four formats has its own renderer, and every renderer is reached. */
  lemma RendererRoundTrip(f: OutputFormat, r: RenderConfig)
    ensures RendererFor(f).Ok? ==> FormatOf(RendererFor(f).value) == f
    ensures RendererFor(FormatOf(r)) == Ok(r)
  {
  }

  /** Python's slice assignment `pipe[at:at] = ins`. */
  function SpliceAt<T>(pipe: seq<T>, at: nat, ins: seq<T>): (r: seq<T>)
    requires at <= |pipe|
    ensures |r| == |pipe| + |ins|
    ensures r[..at] == pipe[..at] && r[at..at + |ins|] == ins && r[at + |ins|..] == pipe[at..]
  {
    pipe[..at] + ins + pipe[at..]
  }

  /** The stage list of the pipeline: memory input and output around the configured stages
      and the tail (the embedder when enabled, then the renderer). */
  function Pipe(configured: seq<string>, embed: bool, renderer: RenderConfig): (r: seq<Stage>)
    ensures |r| == |configured| + (if embed then 4 else 3)
    ensures r[0] == InMemory && r[|r| - 1] == OutMemory
    ensures forall k :: 0 <= k < |configured| ==> r[1 + k] == Configured(configured[k])
    ensures r[|r| - 2] == Renderer(renderer)
    ensures Embedder in r <==> embed
    ensures embed ==> r[|r| - 3] == Embedder
  {
    var tail := if embed then [Embedder, Renderer(renderer)] else [Renderer(renderer)];
    var stages := seq(|configured|, k requires 0 <= k < |configured| => Configured(configured[k]));
    SpliceAt([InMemory, OutMemory], 1, stages + tail)
  }

  /** `check_quality`: a report below the threshold is rejected. Reals stand for the
      floats; `show` renders them in the message. */
  function CheckQuality(pValid: real, threshold: real, show: real -> string): (r: Result<(), Exception>)
    ensures r.Err? <==> pValid < threshold
    ensures r.Err? ==> r.error.kind == "LowQualityError"
  {
    if pValid < threshold then
      Err(Exception("LowQualityError", "Quality too low (" + show(pValid) + " < " + show(threshold) + ")"))
    else Ok(())
  }

  /** The default threshold of `check_quality`. */
  const DefaultThreshold: real := 0.995

  /** What a pipeline run leaves in its context: the rendered bytes, the quality report's
      share of valid characters if there is one, and whether an embedding was produced. */
  datatype RunContext = RunContext(output: bytes, quality: Option<real>, embedding: bool)

  /** The configuration and the services the task calls; each service may raise. */
  datatype Env = Env(
    experimentsEnabled: bool,
    embeddingConfigured: bool,
    stages: seq<string>,
    maxRedactionErrorRate: real,
    show: real -> string,
    input: Fetch.FetchResult -> Result<bytes, Exception>,
    run: (seq<Stage>, bytes, RedactionTask) -> Result<RunContext, Exception>,
    saveCaseData: (RedactionTask, RunContext) -> Result<(), Exception>,
    saveEmbedding: RedactionTask -> Result<(), Exception>,
    saveDocument: bytes -> Result<string, Exception>)

  /** The body of the `try`: the storage id of the rendered document, or the exception. */
  function Attempt(f: Fetch.FetchResult, p: RedactionTask, env: Env): (r: Result<string, Exception>)
    ensures RendererFor(p.renderer).Err? ==> r == Err(RendererFor(p.renderer).error)
    ensures r.Ok? ==> RendererFor(p.renderer).Ok? && env.input(f).Ok?
    ensures r.Ok? ==>
      var ctx := env.run(Pipe(env.stages, env.experimentsEnabled && env.embeddingConfigured, RendererFor(p.renderer).value),
                         env.input(f).value, p);
      ctx.Ok? && env.saveDocument(ctx.value.output) == Ok(r.value)
      && (ctx.value.quality.Some? ==> ctx.value.quality.value >= 1.0 - env.maxRedactionErrorRate)
  {
    var renderer :- RendererFor(p.renderer);
    var pipe := Pipe(env.stages, env.experimentsEnabled && env.embeddingConfigured, renderer);
    var input :- env.input(f);
    var ctx :- env.run(pipe, input, p);
    var _ :- if ctx.quality.Some? then CheckQuality(ctx.quality.value, 1.0 - env.maxRedactionErrorRate, env.show) else Ok(());
    var _ :- env.saveCaseData(p, ctx);
    var _ :- if ctx.embedding then env.saveEmbedding(p) else Ok(());
    env.saveDocument(ctx.output)
  }

  function Redact(f: Fetch.FetchResult, p: RedactionTask, retries: nat, env: Env): (s: Step<RedactionResult>)
    ensures s.Done? ==> s.result.jurisdictionId == p.jurisdictionId && s.result.caseId == p.caseId
                        && s.result.documentId == p.documentId && s.result.renderer == p.renderer
    ensures |f.errors| > 0 ==> s.Done? && s.result.errors == f.errors && s.result.fileStorageId.None?
    ensures |f.errors| == 0 && Attempt(f, p, env).Ok? ==>
      s.Done? && s.result.errors == [] && s.result.fileStorageId == Some(Attempt(f, p, env).value)
    ensures |f.errors| == 0 && Attempt(f, p, env).Err? ==>
      (s.Retry? <==> retries < MaxRetries)
      && (s.Done? ==> s.result.errors == [FromException("redact", Attempt(f, p, env).error)]
                      && s.result.fileStorageId.None?)
  {
    if |f.errors| > 0 then
      Done(RedactionResult(p.jurisdictionId, p.caseId, p.documentId, f.errors, None, p.renderer))
    else
      match Attempt(f, p, env)
      case Ok(id) => Done(RedactionResult(p.jurisdictionId, p.caseId, p.documentId, [], Some(id), p.renderer))
      case Err(e) =>
        OnFailure(retries, e, RedactionResult(p.jurisdictionId, p.caseId, p.documentId,
                                              f.errors + [FromException("redact", e)], None, p.renderer))
  }

  /** A settled redaction has a stored document exactly when it has no errors. */
  lemma RedactStoresIffClean(f: Fetch.FetchResult, p: RedactionTask, retries: nat, env: Env)
    requires Redact(f, p, retries, env).Done?
    ensures var r := Redact(f, p, retries, env).result;
      r.fileStorageId.Some? <==> r.errors == []
  {
  }

  // ---------------------------------------------------------------------------
  // The input the task reads
  // ---------------------------------------------------------------------------

  /** As written, the task reads `fetch_result.file_storage_id`, which the fetch result does
      not have: the attribute access raises before the pipeline runs. */
  function InputAsWritten(f: Fetch.FetchResult): Result<bytes, Exception> {
    Err(Exception("AttributeError", "'FetchTaskResult' object has no attribute 'file_storage_id'"))
  }

  /** The input the chain evidently means: the bytes the fetch task produced. */
  function FetchedBytes(f: Fetch.FetchResult): Result<bytes, Exception> {
    Ok(f.fileBytes)
  }

  /** With the input read as written, no clean fetch is ever redacted: every run retries and
      then settles for a "redact" error. */
  lemma RedactAsWrittenNeverSucceeds(f: Fetch.FetchResult, p: RedactionTask, retries: nat, env: Env)
    requires env.input == InputAsWritten && |f.errors| == 0
    ensures Redact(f, p, retries, env).Done? ==>
      Redact(f, p, retries, env).result.errors == [ProcessingError(
        if RendererFor(p.renderer).Err? then RendererFor(p.renderer).error.message
        else "'FetchTaskResult' object has no attribute 'file_storage_id'",
        "redact",
        if RendererFor(p.renderer).Err? then "ValueError" else "AttributeError")]
  {
  }

  /** Reading the fetched bytes, a clean fetch whose services all succeed is redacted: the
      pipeline receives exactly the fetched bytes and the stored output's id is returned. */
  lemma RedactFetchedBytes(f: Fetch.FetchResult, p: RedactionTask, retries: nat, env: Env, ctx: RunContext, id: string)
    requires env.input == FetchedBytes && |f.errors| == 0 && !p.renderer.OtherFormat?
    requires env.run(Pipe(env.stages, env.experimentsEnabled && env.embeddingConfigured, RendererFor(p.renderer).value),
                     f.fileBytes, p) == Ok(ctx)
    requires ctx.quality.None? && !ctx.embedding
    requires env.saveCaseData(p, ctx) == Ok(())
    requires env.saveDocument(ctx.output) == Ok(id)
    ensures Redact(f, p, retries, env) == Done(RedactionResult(p.jurisdictionId, p.caseId, p.documentId, [], Some(id), p.renderer))
  {
  }
}
