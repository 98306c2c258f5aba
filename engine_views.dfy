/**
 * The engine endpoints of the Django backend: the health check, the task
 * result lookup and the code-execution request. Redis, the Celery control
 * channel, the result backend and the task queue are inputs: what each call
 * answered (or raised) is a parameter. A response whose body is None is the
 * framework's own error page for an exception the view lets through.
 */
module EngineViews {

  import opened Wrappers
  import opened Json
  import opened Http

  /** What `redis.Redis(...).ping()` did. */
  datatype RedisPing = Pong | RedisConnectionError(message: string) | RedisRaised(message: string)

  /** What `Control(celery_app).ping(timeout=1)` did: the number of workers that replied, or an exception. */
  datatype CeleryPing = Replies(workers: nat) | CeleryRaised(message: string)

  /** A service check: whether it is up, and the message that goes with it. */
  datatype Check = Check(up: bool, message: string)

  /**
   * `ServiceStatus.check_redis`: up on a reply, down with the error text on
   * a connection error; any other exception is not caught (None).
   */
  function CheckRedis(p: RedisPing): (c: Option<Check>)
    ensures c.None? <==> p.RedisRaised?
    ensures c.Some? ==> (c.value.up <==> p.Pong?)
    ensures p.RedisConnectionError? ==> c == Some(Check(false, p.message))
  {
    match p
    case Pong => Some(Check(true, "Connected"))
    case RedisConnectionError(m) => Some(Check(false, m))
    case RedisRaised(_) => None
  }

  /** `ServiceStatus.check_celery`: up when some worker replied; "No workers available" when none did. */
  function CheckCelery(p: CeleryPing): (c: Check)
    ensures c.up <==> (p.Replies? && p.workers > 0)
    ensures p == Replies(0) ==> c.message == "No workers available"
    ensures p.CeleryRaised? ==> c.message == p.message
  {
    match p
    case Replies(n) => if n == 0 then Check(false, "No workers available") else Check(true, "Workers active")
    case CeleryRaised(m) => Check(false, m)
  }

  function Label(up: bool): string
  {
    if up then "healthy" else "unhealthy"
  }

  function ServiceReport(c: Check): Json
  {
    JObj(map["status" := JStr(Label(c.up)), "message" := JStr(c.message)])
  }

  /** An error response body `{"error": message}`. */
  function ErrorBody(message: string): Json
  {
    JObj(map["error" := JStr(message)])
  }

  /** The response to an exception the view does not catch. */
  const Unhandled := HttpResponse(500, None)

  /**
   * `HealthCheckView.get`: a report per service, each labelled on its own
   * check, with 200 only when both are up and 503 otherwise.
   */
  function HealthCheck(redis: RedisPing, celery: CeleryPing): (r: HttpResponse)
    ensures redis.RedisRaised? ==> r == Unhandled
    ensures !redis.RedisRaised? ==>
      && (r.status == 200 <==> (redis.Pong? && celery.Replies? && celery.workers > 0))
      && (r.status != 200 ==> r.status == 503)
      && r.body.Some?
      && Get(r.body.value, "redis") == Some(ServiceReport(CheckRedis(redis).value))
      && Get(r.body.value, "celery") == Some(ServiceReport(CheckCelery(celery)))
  {
    var rc := CheckRedis(redis);
    if rc.None? then Unhandled
    else
      var cc := CheckCelery(celery);
      var info := JObj(map["redis" := ServiceReport(rc.value), "celery" := ServiceReport(cc)]);
      HttpResponse(if rc.value.up && cc.up then 200 else 503, Some(info))
  }

  /** Each service's label depends on its own check only. */
  lemma HealthLabelsIndependent(redis: RedisPing, c1: CeleryPing, c2: CeleryPing)
    requires !redis.RedisRaised?
    ensures Get(HealthCheck(redis, c1).body.value, "redis") == Get(HealthCheck(redis, c2).body.value, "redis")
  {
  }

  /** What the result backend says of a task. */
  datatype TaskState = Ready(result: Json) | NotReady | Failed

  /**
   * `TaskResultView.get`: "completed" with the result once ready, else
   * "pending"; a task that failed makes `get()` re-raise, so no status is
   * ever "error".
   */
  function TaskResult(t: TaskState): (r: HttpResponse)
    ensures t.Failed? <==> r == Unhandled
    ensures !t.Failed? ==> r.status == 200 && r.body.Some?
    ensures t.Ready? ==> Get(r.body.value, "status") == Some(JStr("completed")) && Get(r.body.value, "result") == Some(t.result)
    ensures t.NotReady? ==> Get(r.body.value, "status") == Some(JStr("pending"))
  {
    match t
    case Ready(res) => HttpResponse(200, Some(JObj(map["status" := JStr("completed"), "result" := res])))
    case NotReady => HttpResponse(200, Some(JObj(map["status" := JStr("pending"), "message" := JStr("Task is still processing")])))
    case Failed => Unhandled
  }

  /** The task status the endpoint reports is never "error". */
  lemma TaskStatusNeverError(t: TaskState)
    ensures TaskResult(t).body.Some? ==> Get(TaskResult(t).body.value, "status") != Some(JStr("error"))
  {
  }

  /**
   * `CodeExecutionView.check_services`: the redis failure is reported first,
   * then the celery failure; None when the redis check raises.
   */
  function CheckServices(redis: RedisPing, celery: CeleryPing): (c: Option<Check>)
    ensures c.None? <==> redis.RedisRaised?
    ensures c.Some? ==> (c.value.up <==> (redis.Pong? && CheckCelery(celery).up))
    ensures redis.RedisConnectionError? ==> c == Some(Check(false, "Redis service unavailable: " + redis.message))
    ensures redis.Pong? && !CheckCelery(celery).up ==>
      c == Some(Check(false, "Celery service unavailable: " + CheckCelery(celery).message))
  {
    var rc := CheckRedis(redis);
    var cc := CheckCelery(celery);
    if rc.None? then None
    else if !rc.value.up then Some(Check(false, "Redis service unavailable: " + rc.value.message))
    else if !cc.up then Some(Check(false, "Celery service unavailable: " + cc.message))
    else Some(Check(true, "Services operational"))
  }

  /** What `execute_code.apply_async(...)` did: queued a task, or raised. */
  datatype Enqueue = Queued(taskId: string) | QueueOperationalError | QueueRaised

  const NoCodeMessage := "No code provided"
  const QueueDownMessage := "Task queue is currently unavailable. Please try again later."
  const UnexpectedMessage := "An unexpected error occurred"
  const QueuedMessage := "Code execution task has been queued"

  function StatusUrl(taskId: string): (u: string)
    ensures |u| == |taskId| + 14
    ensures u[..13] == "/engine/task/" && u[13..|u| - 1] == taskId && u[|u| - 1] == '/'
  {
    "/engine/task/" + taskId + "/"
  }

  /**
   * `CodeExecutionView.post` on the request's parsed body `data`: 503 when a
   * service is down, before the body is read; a body that is not an object
   * has no `get` (500); a missing or falsy `code` gives 400; then the
   * enqueue's outcome decides 202, 503 or 500.
   */
  function Execute(redis: RedisPing, celery: CeleryPing, data: Json, enqueue: Enqueue): (r: HttpResponse)
    ensures redis.RedisRaised? ==> r == Unhandled
    ensures CheckServices(redis, celery).Some? && !CheckServices(redis, celery).value.up ==>
      r == HttpResponse(503, Some(ErrorBody(CheckServices(redis, celery).value.message)))
    ensures r.status == 202 <==>
      CheckServices(redis, celery) == Some(Check(true, "Services operational"))
      && data.JObj? && Get(data, "code").Some? && PyTruthy(Get(data, "code").value) && enqueue.Queued?
    ensures r.status == 202 ==>
      r.body == Some(JObj(map["task_id" := JStr(enqueue.taskId), "message" := JStr(QueuedMessage),
                              "status_url" := JStr(StatusUrl(enqueue.taskId))]))
  {
    var services := CheckServices(redis, celery);
    if services.None? then Unhandled
    else if !services.value.up then HttpResponse(503, Some(ErrorBody(services.value.message)))
    else if !data.JObj? then Unhandled
    else
      var code := Get(data, "code");
      if code.None? || !PyTruthy(code.value) then HttpResponse(400, Some(ErrorBody(NoCodeMessage)))
      else
        match enqueue
        case Queued(id) =>
          HttpResponse(202, Some(JObj(map["task_id" := JStr(id), "message" := JStr(QueuedMessage),
                                          "status_url" := JStr(StatusUrl(id))])))
        case QueueOperationalError => HttpResponse(503, Some(ErrorBody(QueueDownMessage)))
        case QueueRaised => HttpResponse(500, Some(ErrorBody(UnexpectedMessage)))
  }

  /** With a service down the body is never read: the answer is the same whatever was sent. */
  lemma ServicesDownIgnoresRequest(redis: RedisPing, celery: CeleryPing, d1: Json, d2: Json, e1: Enqueue, e2: Enqueue)
    requires !(redis.Pong? && CheckCelery(celery).up)
    ensures Execute(redis, celery, d1, e1) == Execute(redis, celery, d2, e2)
    ensures Execute(redis, celery, d1, e1).status in {500, 503}
  {
  }

  /** With both services up, an object body without a truthy `code` is refused with 400 "No code provided", whatever the queue would do. */
  lemma MissingCodeRefused(celery: CeleryPing, data: Json, e: Enqueue)
    requires CheckCelery(celery).up && data.JObj?
    requires Get(data, "code").None? || !PyTruthy(Get(data, "code").value)
    ensures Execute(Pong, celery, data, e) == HttpResponse(400, Some(ErrorBody(NoCodeMessage)))
  {
  }

  /** An enqueue failure is 503 for an operational error and 500 for anything else. */
  lemma EnqueueFailures(celery: CeleryPing, data: Json)
    requires CheckCelery(celery).up && data.JObj? && Get(data, "code").Some? && PyTruthy(Get(data, "code").value)
    ensures Execute(Pong, celery, data, QueueOperationalError) == HttpResponse(503, Some(ErrorBody(QueueDownMessage)))
    ensures Execute(Pong, celery, data, QueueRaised) == HttpResponse(500, Some(ErrorBody(UnexpectedMessage)))
  {
  }
}
