/** What the five redaction tasks share: the error record each appends, the retry rule of
    their task decorators, and the output formats a redaction may be rendered to. */
module Tasks {
  import opened Common

  /** `max_retries=3` on every task decorator of the chain. */
  const MaxRetries: nat := 3

  /** An error recorded by a task: the exception's text, the task's tag, the exception class. */
  datatype ProcessingError = ProcessingError(message: string, task: string, exception: string)

  function FromException(task: string, e: Exception): (p: ProcessingError)
    ensures p.task == task && p.message == e.message && p.exception == e.kind
  {
    ProcessingError(e.message, task, e.kind)
  }

  /** What a task invocation ends in: a request to run again, or a result for the next task. */
  datatype Step<+T> = Retry(cause: Exception) | Done(result: T)

  /** The shared failure rule: retry while the budget lasts, then settle for `fallback`. */
  function OnFailure<T>(retries: nat, cause: Exception, fallback: T): (s: Step<T>)
    ensures s.Retry? <==> retries < MaxRetries
    ensures s.Retry? ==> s.cause == cause
    ensures s.Done? ==> s.result == fallback
  {
    if retries < MaxRetries then Retry(cause) else Done(fallback)
  }

  /** Whether a task is retried depends only on how often it already ran, so the chain settles
      after at most `MaxRetries` repeats. */
  lemma RetriesAreBounded<T>(retries: nat, cause: Exception, fallback: T)
    requires retries >= MaxRetries
    ensures OnFailure(retries, cause, fallback) == Done(fallback)
  {
  }

  /** The output formats of a redaction; `OtherFormat` stands for any value outside the enum. */
  datatype OutputFormat = Pdf | Text | Html | JsonFormat | OtherFormat(name: string)

  /** `OutputFormat.PDF`, the default renderer of a redaction request. */
  const DefaultRenderer: OutputFormat := Pdf

  function FormatName(f: OutputFormat): string {
    match f
    case Pdf => "PDF"
    case Text => "TEXT"
    case Html => "HTML"
    case JsonFormat => "JSON"
    case OtherFormat(n) => n
  }
}
