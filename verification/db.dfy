/** The task / job / callback tables and their state transitions, as one immutable
    database value. Row ids are naturals; times are whole seconds. */
module Db {
  import opened Common

  datatype JobStatus = Queued | Processing | JobSuccess | JobError

  datatype CallbackStatus = Pending | CallbackSuccess | CallbackError

  datatype TaskState = Unclaimed | Claimed

  type Id = nat

  type Time = int

  datatype Task = Task(
    state: TaskState,
    callbackUrl: Option<string>,
    createdAt: Time,
    retryAfter: Option<Time>)

  datatype Job = Job(taskId: Id, status: JobStatus, error: Option<string>, createdAt: Time)

  datatype Callback = Callback(
    taskId: Id,
    status: CallbackStatus,
    response: Option<string>,
    responseCode: Option<int>,
    createdAt: Time)

  datatype Redaction = Redaction(fileId: Id, createdAt: Time)

  datatype Db = Db(
    tasks: map<Id, Task>,
    jobs: map<Id, Job>,
    callbacks: map<Id, Callback>,
    redactions: map<Id, Redaction>)

  /** `config.task.max_retries` and `config.task.retry_interval` (seconds) as shipped. */
  const MaxRetries: nat := 3
  const RetryInterval: nat := 60

  /** The foreign keys: every job and callback belongs to a task that exists. */
  predicate Valid(db: Db) {
    && (forall j :: j in db.jobs ==> db.jobs[j].taskId in db.tasks)
    && (forall c :: c in db.callbacks ==> db.callbacks[c].taskId in db.tasks)
  }

  // ---------------------------------------------------------------------------
  // Rows as created (column defaults)
  // ---------------------------------------------------------------------------

  function NewTask(callbackUrl: Option<string>, now: Time): (t: Task)
    ensures t.state == Unclaimed && t.retryAfter.None?
    ensures t.callbackUrl == callbackUrl && t.createdAt == now
  {
    Task(Unclaimed, callbackUrl, now, None)
  }

  function NewJob(taskId: Id, now: Time): (j: Job)
    ensures j.status == Queued && j.error.None? && j.taskId == taskId
  {
    Job(taskId, Queued, None, now)
  }

  function NewCallback(taskId: Id, now: Time): (c: Callback)
    ensures c.status == Pending && c.response.None? && c.responseCode.None? && c.taskId == taskId
  {
    Callback(taskId, Pending, None, None, now)
  }

  /** Inserting a row under a fresh id; a job or callback must point at an existing task. */
  function AddJob(db: Db, id: Id, job: Job): (r: Db)
    requires id !in db.jobs && job.taskId in db.tasks
    ensures Valid(db) ==> Valid(r)
    ensures r.jobs == db.jobs[id := job] && r.tasks == db.tasks && r.callbacks == db.callbacks
  {
    db.(jobs := db.jobs[id := job])
  }

  function AddCallback(db: Db, id: Id, cb: Callback): (r: Db)
    requires id !in db.callbacks && cb.taskId in db.tasks
    ensures Valid(db) ==> Valid(r)
    ensures r.callbacks == db.callbacks[id := cb] && r.tasks == db.tasks && r.jobs == db.jobs
  {
    db.(callbacks := db.callbacks[id := cb])
  }

  function AddTask(db: Db, id: Id, task: Task): (r: Db)
    requires id !in db.tasks
    ensures Valid(db) ==> Valid(r)
    ensures r.tasks == db.tasks[id := task] && r.jobs == db.jobs && r.callbacks == db.callbacks
  {
    db.(tasks := db.tasks[id := task])
  }

  // ---------------------------------------------------------------------------
  // Transitions
  // ---------------------------------------------------------------------------

  /** `Job.start`: an UPDATE by id, so an unknown id silently changes nothing. */
  function Start(db: Db, jobId: Id): (r: Db)
    ensures jobId !in db.jobs ==> r == db
    ensures jobId in db.jobs ==> && jobId in r.jobs
                                 && r.jobs[jobId].status == Processing
                                 && r.jobs[jobId].error.None?
                                 && r.jobs[jobId].taskId == db.jobs[jobId].taskId
                                 && r.jobs[jobId].createdAt == db.jobs[jobId].createdAt
    ensures r.jobs.Keys == db.jobs.Keys
    ensures forall j :: j in db.jobs && j != jobId ==> r.jobs[j] == db.jobs[j]
    ensures r.tasks == db.tasks && r.callbacks == db.callbacks && r.redactions == db.redactions
    ensures Valid(db) ==> Valid(r)
  {
    if jobId in db.jobs then
      db.(jobs := db.jobs[jobId := db.jobs[jobId].(status := Processing, error := None)])
    else db
  }

  /** `Job.success`: the job succeeds with no error and its task is released. */
  function Success(db: Db, jobId: Id): (r: Result<Db, Exception>)
    requires Valid(db)
    ensures r.Err? <==> jobId !in db.jobs
    ensures r.Err? ==> r.error == ValueError("Job not found.")
    ensures r.Ok? ==> && Valid(r.value)
                      && var t := db.jobs[jobId].taskId;
                      && jobId in r.value.jobs && t in r.value.tasks
                      && r.value.jobs[jobId].status == JobSuccess
                      && r.value.jobs[jobId].error.None?
                      && r.value.jobs[jobId].taskId == t
                      && r.value.tasks[t].state == Unclaimed
                      && r.value.tasks[t].retryAfter == db.tasks[t].retryAfter
                      && r.value.jobs.Keys == db.jobs.Keys && r.value.tasks.Keys == db.tasks.Keys
                      && (forall j :: j in db.jobs && j != jobId ==> r.value.jobs[j] == db.jobs[j])
                      && (forall u :: u in db.tasks && u != t ==> r.value.tasks[u] == db.tasks[u])
                      && r.value.callbacks == db.callbacks
  {
    if jobId !in db.jobs then Err(ValueError("Job not found."))
    else
      var job := db.jobs[jobId];
      var t := job.taskId;
      Ok(db.(jobs := db.jobs[jobId := job.(status := JobSuccess, error := None)],
             tasks := db.tasks[t := db.tasks[t].(state := Unclaimed)]))
  }

  /** `Job.set_error`: the job fails with the message, its task is released and may not be
      retried before `now + RetryInterval`. */
  function SetError(db: Db, jobId: Id, error: string, now: Time): (r: Result<Db, Exception>)
    requires Valid(db)
    ensures r.Err? <==> jobId !in db.jobs
    ensures r.Err? ==> r.error == ValueError("Job not found.")
    ensures r.Ok? ==> && Valid(r.value)
                      && var t := db.jobs[jobId].taskId;
                      && jobId in r.value.jobs && t in r.value.tasks
                      && r.value.jobs[jobId].status == JobError
                      && r.value.jobs[jobId].error == Some(error)
                      && r.value.jobs[jobId].taskId == t
                      && r.value.tasks[t].state == Unclaimed
                      && r.value.tasks[t].retryAfter == Some(now + RetryInterval)
                      && r.value.jobs.Keys == db.jobs.Keys && r.value.tasks.Keys == db.tasks.Keys
                      && (forall j :: j in db.jobs && j != jobId ==> r.value.jobs[j] == db.jobs[j])
                      && (forall u :: u in db.tasks && u != t ==> r.value.tasks[u] == db.tasks[u])
                      && r.value.callbacks == db.callbacks
  {
    if jobId !in db.jobs then Err(ValueError("Job not found."))
    else
      var job := db.jobs[jobId];
      var t := job.taskId;
      Ok(db.(jobs := db.jobs[jobId := job.(status := JobError, error := Some(error))],
             tasks := db.tasks[t := db.tasks[t].(state := Unclaimed, retryAfter := Some(now + RetryInterval))]))
  }

  /** A 2xx code (section 15.3 of RFC 9110). */
  predicate IsSuccessCode(code: int) {
    200 <= code < 300
  }

  /** `Callback.complete`: the outcome follows the response code; code and body are kept and
      the task is released. */
  function CallbackComplete(db: Db, cbId: Id, code: int, body: string): (r: Result<Db, Exception>)
    requires Valid(db)
    ensures r.Err? <==> cbId !in db.callbacks
    ensures r.Err? ==> r.error == ValueError("Callback not found.")
    ensures r.Ok? ==> && Valid(r.value)
                      && var t := db.callbacks[cbId].taskId;
                      && cbId in r.value.callbacks && t in r.value.tasks
                      && (r.value.callbacks[cbId].status == CallbackSuccess <==> IsSuccessCode(code))
                      && (r.value.callbacks[cbId].status == CallbackError <==> !IsSuccessCode(code))
                      && r.value.callbacks[cbId].responseCode == Some(code)
                      && r.value.callbacks[cbId].response == Some(body)
                      && r.value.callbacks[cbId].taskId == t
                      && r.value.tasks[t].state == Unclaimed
                      && r.value.callbacks.Keys == db.callbacks.Keys && r.value.tasks.Keys == db.tasks.Keys
                      && (forall c :: c in db.callbacks && c != cbId ==> r.value.callbacks[c] == db.callbacks[c])
                      && (forall u :: u in db.tasks && u != t ==> r.value.tasks[u] == db.tasks[u])
                      && r.value.jobs == db.jobs
  {
    if cbId !in db.callbacks then Err(ValueError("Callback not found."))
    else
      var cb := db.callbacks[cbId];
      var t := cb.taskId;
      var status := if code >= 200 && code < 300 then CallbackSuccess else CallbackError;
      Ok(db.(callbacks := db.callbacks[cbId := cb.(status := status, responseCode := Some(code), response := Some(body))],
             tasks := db.tasks[t := db.tasks[t].(state := Unclaimed)]))
  }

  /** `Task.claim`: a compare-and-set from unclaimed to claimed; any other row count raises. */
  function Claim(db: Db, taskId: Id): (r: Result<Db, Exception>)
    ensures r.Ok? <==> taskId in db.tasks && db.tasks[taskId].state == Unclaimed
    ensures r.Err? ==> r.error == ValueError("Task already claimed.")
    ensures r.Ok? ==> && taskId in r.value.tasks
                      && r.value.tasks[taskId] == db.tasks[taskId].(state := Claimed)
                      && r.value.tasks.Keys == db.tasks.Keys
                      && (forall u :: u in db.tasks && u != taskId ==> r.value.tasks[u] == db.tasks[u])
                      && r.value.jobs == db.jobs && r.value.callbacks == db.callbacks
    ensures r.Ok? && Valid(db) ==> Valid(r.value)
  {
    var rowcount := if taskId in db.tasks && db.tasks[taskId].state == Unclaimed then 1 else 0;
    if rowcount != 1 then Err(ValueError("Task already claimed."))
    else Ok(db.(tasks := db.tasks[taskId := db.tasks[taskId].(state := Claimed)]))
  }

  // ---------------------------------------------------------------------------
  // Selecting work
  // ---------------------------------------------------------------------------

  function JobsOf(db: Db, taskId: Id): set<Id> {
    set j | j in db.jobs && db.jobs[j].taskId == taskId
  }

  function CallbacksOf(db: Db, taskId: Id): set<Id> {
    set c | c in db.callbacks && db.callbacks[c].taskId == taskId
  }

  /** Unclaimed, and either never backed off or past its back-off time. */
  predicate Ready(t: Task, now: Time) {
    t.state == Unclaimed && (t.retryAfter.None? || t.retryAfter.value <= now)
  }

  /** The filter of `next_pending_task`. */
  predicate PendingEligible(db: Db, taskId: Id, now: Time) {
    && taskId in db.tasks
    && Ready(db.tasks[taskId], now)
    && |JobsOf(db, taskId)| < MaxRetries
    && !(exists j :: j in JobsOf(db, taskId) && db.jobs[j].status == JobSuccess)
  }

  /** The filter of `next_callback_task`. */
  predicate CallbackEligible(db: Db, taskId: Id, now: Time) {
    && taskId in db.tasks
    && Ready(db.tasks[taskId], now)
    && db.tasks[taskId].callbackUrl.Some?
    && |CallbacksOf(db, taskId)| < MaxRetries
    && !(exists c :: c in CallbacksOf(db, taskId) && db.callbacks[c].status == CallbackSuccess)
  }

  /** `ORDER BY key ASC LIMIT 1`: some id whose key is least, or None for no rows. */
  method Oldest(keys: map<Id, Time>) returns (r: Option<Id>)
    ensures r.None? <==> |keys| == 0
    ensures r.Some? ==> r.value in keys && forall k :: k in keys ==> keys[r.value] <= keys[k]
  {
    r := None;
    var rest := keys.Keys;
    while rest != {}
      invariant rest <= keys.Keys
      invariant r.None? ==> rest == keys.Keys
      invariant r.Some? ==> r.value in keys && forall k :: k in keys && k !in rest ==> keys[r.value] <= keys[k]
      decreases |rest|
    {
      var k :| k in rest;
      if r.None? || keys[k] < keys[r.value] {
        r := Some(k);
      }
      rest := rest - {k};
    }
  }

  /** `ORDER BY key DESC LIMIT 1`. */
  method Newest(keys: map<Id, Time>) returns (r: Option<Id>)
    ensures r.None? <==> |keys| == 0
    ensures r.Some? ==> r.value in keys && forall k :: k in keys ==> keys[r.value] >= keys[k]
  {
    var negated := map k | k in keys :: -keys[k];
    assert negated.Keys == keys.Keys;
    r := Oldest(negated);
  }

  /** `Task.next_pending_task`: the oldest eligible task, None when there is none. */
  method NextPendingTask(db: Db, now: Time) returns (r: Option<Id>)
    ensures r.None? <==> forall t :: t in db.tasks ==> !PendingEligible(db, t, now)
    ensures r.Some? ==> && PendingEligible(db, r.value, now)
                        && forall t :: PendingEligible(db, t, now) ==> db.tasks[r.value].createdAt <= db.tasks[t].createdAt
  {
    var eligible := map t | t in db.tasks && PendingEligible(db, t, now) :: db.tasks[t].createdAt;
    assert forall t :: PendingEligible(db, t, now) ==> t in eligible && eligible[t] == db.tasks[t].createdAt;
    r := Oldest(eligible);
  }

  /** `Task.next_callback_task`: the oldest task with a callback still to deliver. */
  method NextCallbackTask(db: Db, now: Time) returns (r: Option<Id>)
    ensures r.None? <==> forall t :: t in db.tasks ==> !CallbackEligible(db, t, now)
    ensures r.Some? ==> && CallbackEligible(db, r.value, now)
                        && forall t :: CallbackEligible(db, t, now) ==> db.tasks[r.value].createdAt <= db.tasks[t].createdAt
  {
    var eligible := map t | t in db.tasks && CallbackEligible(db, t, now) :: db.tasks[t].createdAt;
    assert forall t :: CallbackEligible(db, t, now) ==> t in eligible && eligible[t] == db.tasks[t].createdAt;
    r := Oldest(eligible);
  }

  /** `Task.latest_job`: the task's most recently created job. */
  method LatestJob(db: Db, taskId: Id) returns (r: Option<Id>)
    ensures r.None? <==> JobsOf(db, taskId) == {}
    ensures r.Some? ==> && r.value in JobsOf(db, taskId)
                        && forall j :: j in JobsOf(db, taskId) ==> db.jobs[r.value].createdAt >= db.jobs[j].createdAt
  {
    var mine := map j | j in JobsOf(db, taskId) :: db.jobs[j].createdAt;
    assert mine.Keys == JobsOf(db, taskId);
    r := Newest(mine);
  }

  /** `File.latest_redaction`: the file's most recently created redaction. */
  method LatestRedaction(db: Db, fileId: Id) returns (r: Option<Id>)
    ensures r.None? <==> forall x :: x in db.redactions ==> db.redactions[x].fileId != fileId
    ensures r.Some? ==> && r.value in db.redactions && db.redactions[r.value].fileId == fileId
                        && forall x :: x in db.redactions && db.redactions[x].fileId == fileId ==>
                             db.redactions[r.value].createdAt >= db.redactions[x].createdAt
  {
    var mine := map x | x in db.redactions && db.redactions[x].fileId == fileId :: db.redactions[x].createdAt;
    assert forall x :: x in db.redactions && db.redactions[x].fileId == fileId ==> x in mine;
    r := Newest(mine);
  }

  // ---------------------------------------------------------------------------
  // Properties across transitions
  // ---------------------------------------------------------------------------

  /** Right after a job succeeds, its task is not eligible for processing at any time; only a
      later transition of one of its jobs (such as `Start`) can change that. */
  lemma SucceededTaskNotPending(db: Db, jobId: Id, now: Time)
    requires Valid(db) && jobId in db.jobs
    ensures !PendingEligible(Success(db, jobId).value, db.jobs[jobId].taskId, now)
  {
    var r := Success(db, jobId).value;
    assert jobId in JobsOf(r, db.jobs[jobId].taskId);
  }

  /** After a failure the task waits out the retry interval before it is eligible again. */
  lemma FailedTaskBacksOff(db: Db, jobId: Id, error: string, now: Time, later: Time)
    requires Valid(db) && jobId in db.jobs
    requires later < now + RetryInterval
    ensures !PendingEligible(SetError(db, jobId, error, now).value, db.jobs[jobId].taskId, later)
    ensures !CallbackEligible(SetError(db, jobId, error, now).value, db.jobs[jobId].taskId, later)
  {
  }

  /** A claimed task is never selected, and a second claim of it fails. */
  lemma ClaimIsExclusive(db: Db, taskId: Id, now: Time)
    requires taskId in db.tasks && db.tasks[taskId].state == Unclaimed
    ensures !PendingEligible(Claim(db, taskId).value, taskId, now)
    ensures !CallbackEligible(Claim(db, taskId).value, taskId, now)
    ensures Claim(Claim(db, taskId).value, taskId).Err?
  {
  }

  /** A task runs at most `MaxRetries` jobs: one with that many jobs is no longer selected. */
  lemma RetryBudgetExhausted(db: Db, taskId: Id, now: Time)
    requires |JobsOf(db, taskId)| >= MaxRetries
    ensures !PendingEligible(db, taskId, now)
  {
  }

  /** Right after a 2xx response completes the callback, the task is not eligible for callbacks
      at any time; only a later transition of its rows can change that. */
  lemma DeliveredCallbackNotRetried(db: Db, cbId: Id, code: int, body: string, now: Time)
    requires Valid(db) && cbId in db.callbacks && IsSuccessCode(code)
    ensures !CallbackEligible(CallbackComplete(db, cbId, code, body).value, db.callbacks[cbId].taskId, now)
  {
    var r := CallbackComplete(db, cbId, code, body).value;
    assert cbId in CallbacksOf(r, db.callbacks[cbId].taskId);
  }
}
