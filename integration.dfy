/**
 * The browser client against the engine endpoints: the submission body the
 * client builds is what the execute view reads, and the task-result view's
 * answers are what the poll loop classifies.
 */
module Integration {

  import opened Wrappers
  import opened Json
  import opened Http
  import opened Polling
  import opened EngineViews

  /**
   * The client's body nests the code under `backtest`, while the view reads
   * a top-level `code`: with both services up the view always answers 400
   * "No code provided", whatever the queue would have done.
   */
  lemma SubmissionLacksCode(celery: CeleryPing, code: string, name: string, e: Enqueue)
    requires CheckCelery(celery).up
    ensures Execute(Pong, celery, SubmitBody(code, name), e) == HttpResponse(400, Some(ErrorBody(NoCodeMessage)))
  {
    MissingCodeRefused(celery, SubmitBody(code, name), e);
  }

  /** The view never accepts the client's submission: its answer is 400, 500 or 503. */
  lemma SubmissionNeverAccepted(redis: RedisPing, celery: CeleryPing, code: string, name: string, e: Enqueue)
    ensures !IsOk(Execute(redis, celery, SubmitBody(code, name), e))
    ensures Execute(redis, celery, SubmitBody(code, name), e).status in {400, 500, 503}
  {
    if redis.Pong? && CheckCelery(celery).up {
      SubmissionLacksCode(celery, code, name, e);
    }
  }

  /**
   * `executeCode` run against the execute view: one POST and no poll at all;
   * the client swallows "Failed to execute code: <reason>".
   */
  method SubmitToBackend(code: string, name: string, redis: RedisPing, celery: CeleryPing, e: Enqueue, pollReplies: seq<HttpResponse>)
    returns (events: seq<Event>, swallowed: Option<string>)
    ensures events == [Post(ExecuteUrl, SubmitBody(code, name))]
    ensures var reply := Execute(redis, celery, SubmitBody(code, name), e);
      swallowed == Some("Failed to execute code: " + ReasonPhrase(reply.status))
  {
    var reply := Execute(redis, celery, SubmitBody(code, name), e);
    SubmissionNeverAccepted(redis, celery, code, name, e);
    events, swallowed := ExecuteCode(code, name, reply, pollReplies);
  }

  /**
   * How the poll loop reads the task-result view: a ready task stops it with
   * the "completed" body, a pending one makes it poll again, and a failed one
   * (a 500, "Internal Server Error") makes it throw; the "error" status it also waits for never comes.
   */
  lemma TaskResultAsPolled(t: TaskState)
    ensures t.Ready? ==> Classify(TaskResult(t)) == Stop(TaskResult(t).body.value)
    ensures t.NotReady? ==> Classify(TaskResult(t)) == Again
    ensures t.Failed? ==> Classify(TaskResult(t)) == Throw("Failed to poll task status: " + ReasonPhrase(500))
    ensures Classify(TaskResult(t)).Stop? ==> Get(Classify(TaskResult(t)).data, "status") == Some(JStr("completed"))
  {
    match t
    case Ready(_) =>
      assert IsTerminal(TaskResult(t).body.value);
    case NotReady =>
      assert !IsTerminal(TaskResult(t).body.value);
    case Failed =>
  }

  /** The replies of the task-result view for a run of task states. */
  function Replies(states: seq<TaskState>): (rs: seq<HttpResponse>)
    ensures |rs| == |states| && forall j :: 0 <= j < |states| ==> rs[j] == TaskResult(states[j])
  {
    seq(|states|, j requires 0 <= j < |states| => TaskResult(states[j]))
  }

  /** Polling the view ends at the first state that is ready or failed; pending states never end it. */
  lemma {:induction false} PollingStopsAtFirstSettled(states: seq<TaskState>)
    ensures var k := FirstStop(Replies(states));
      && (forall j :: 0 <= j < k ==> states[j].NotReady?)
      && (k < |states| ==> !states[k].NotReady?)
  {
    var rs := Replies(states);
    var k := FirstStop(rs);
    forall j | 0 <= j < k ensures states[j].NotReady? {
      TaskResultAsPolled(states[j]);
    }
    if k < |states| {
      TaskResultAsPolled(states[k]);
    }
  }
}
