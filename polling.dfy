/**
 * The browser's submit-then-poll client (`executeCode` and `pollTaskStatus`).
 * The network is replaced by the responses the server gives, in order: one for
 * the submission and a finite sequence for the polls. When that sequence runs
 * out while the status is still not terminal, the client would go on polling;
 * the model reports that as `StillPolling`.
 */
module Polling {
  import opened Wrappers
  import opened Strings
  import opened Json
  import opened Http

  const Host := "http://localhost:8000"
  const ExecuteUrl := Host + "/engine/execute/"
  const PollIntervalMs: nat := 1000

  /** What the client does, in order: requests and waits. */
  datatype Event = Post(url: string, body: Json) | Fetch(url: string) | Sleep(ms: nat)

  /** What one poll response makes the loop do. */
  datatype PollStep = Again | Stop(data: Json) | Throw(message: string)

  /** How a run of the poll loop ends. */
  datatype PollOutcome = Finished(data: Json) | Raised(message: string) | StillPolling

  /** The submission body: code and name nested under a single `backtest` key. */
  function SubmitBody(code: string, name: string): (body: Json)
    ensures body.JObj? && body.fields.Keys == {"backtest"}
    ensures Get(body, "code") == None
    ensures Get(body, "backtest") == Some(JObj(map["code" := JStr(code), "name" := JStr(name)]))
  {
    JObj(map["backtest" := JObj(map["code" := JStr(code), "name" := JStr(name)])])
  }

  /** The poll URL: the fixed host followed by the server-supplied status path. */
  function PollUrl(statusUrl: string): (url: string)
    ensures StartsWith(url, Host) && url[|Host|..] == statusUrl
  {
    Host + statusUrl
  }

  /** `data.status === "completed" || data.status === "error"`. */
  predicate IsTerminal(data: Json): (b: bool)
    ensures b ==> Get(data, "status").Some? && Get(data, "status").value.JStr?
    ensures Get(data, "status") == Some(JStr("pending")) ==> !b
  {
    Get(data, "status") == Some(JStr("completed")) || Get(data, "status") == Some(JStr("error"))
  }

  /**
   * One iteration of the loop after its fetch: a non-ok response throws, a body
   * that is not JSON throws while parsing, a `null` body throws on `.status`,
   * a terminal status breaks out, anything else waits and polls again.
   */
  function Classify(r: HttpResponse): (step: PollStep)
    ensures !IsOk(r) ==> step.Throw?
    ensures step.Stop? <==> (IsOk(r) && r.body.Some? && IsTerminal(r.body.value))
    ensures step.Again? <==> (IsOk(r) && r.body.Some? && !r.body.value.JNull? && !IsTerminal(r.body.value))
  {
    if !IsOk(r) then Throw("Failed to poll task status: " + ReasonPhrase(r.status))
    else match r.body
      case None => Throw("Unexpected token in JSON")
      case Some(data) =>
        if data.JNull? then Throw("Cannot read properties of null (reading 'status')")
        else if IsTerminal(data) then Stop(data)
        else Again
  }

  /** The position of the first response that ends the loop, or |replies| if none does. */
  function FirstStop(replies: seq<HttpResponse>): (k: nat)
    ensures k <= |replies|
    ensures forall j :: 0 <= j < k ==> Classify(replies[j]) == Again
    ensures k < |replies| ==> Classify(replies[k]) != Again
  {
    if replies == [] then 0
    else if Classify(replies[0]) != Again then 0
    else 1 + FirstStop(replies[1..])
  }

  /** `n` rounds of fetching the poll URL and then waiting the poll interval. */
  function PollCycles(url: string, n: nat): (events: seq<Event>)
    ensures |events| == 2 * n
    ensures forall j :: 0 <= j < 2 * n ==>
      events[j] == if j % 2 == 0 then Fetch(url) else Sleep(PollIntervalMs)
  {
    if n == 0 then [] else PollCycles(url, n - 1) + [Fetch(url), Sleep(PollIntervalMs)]
  }

  function Ending(step: PollStep): PollOutcome {
    match step
    case Again => StillPolling
    case Stop(data) => Finished(data)
    case Throw(message) => Raised(message)
  }

  /**
   * `pollTaskStatus`: fetch, and either stop (terminal status), throw (failed
   * or unreadable response) or wait 1000 ms and fetch again; one request at a
   * time, with no cap on the number of polls.
   */
  method PollTaskStatus(statusUrl: string, replies: seq<HttpResponse>)
    returns (events: seq<Event>, outcome: PollOutcome)
    ensures FirstStop(replies) < |replies| ==>
      events == PollCycles(PollUrl(statusUrl), FirstStop(replies)) + [Fetch(PollUrl(statusUrl))]
    ensures FirstStop(replies) < |replies| ==> outcome == Ending(Classify(replies[FirstStop(replies)]))
    ensures FirstStop(replies) == |replies| ==>
      events == PollCycles(PollUrl(statusUrl), |replies|) && outcome == StillPolling
  {
    var url := PollUrl(statusUrl);
    events := [];
    outcome := StillPolling;
    var i := 0;
    while i < |replies|
      invariant i <= FirstStop(replies)
      invariant events == PollCycles(url, i)
      invariant outcome == StillPolling
    {
      events := events + [Fetch(url)];
      var step := Classify(replies[i]);
      if step.Again? {
        events := events + [Sleep(PollIntervalMs)];
        i := i + 1;
      } else {
        outcome := Ending(step);
        break;
      }
    }
  }

  /**
   * The submission response handled before polling: a non-ok response throws,
   * an unreadable body throws, destructuring a `null` body throws; otherwise
   * the `status_url` field as a template literal renders it.
   */
  function Submitted(r: HttpResponse): (res: Result<string, string>)
    ensures !IsOk(r) ==> res.Err?
    ensures res.Ok? <==> (IsOk(r) && r.body.Some? && !r.body.value.JNull?)
  {
    if !IsOk(r) then Err("Failed to execute code: " + ReasonPhrase(r.status))
    else match r.body
      case None => Err("Unexpected token in JSON")
      case Some(data) =>
        if data.JNull? then Err("Cannot destructure 'null'")
        else Ok(TemplateText(Get(data, "status_url")))
  }

  /**
   * `executeCode`: post once, then poll. Every error thrown on the way is
   * caught by the empty catch, so the call always returns normally; `swallowed`
   * is the error that catch absorbed, if any.
   */
  method ExecuteCode(code: string, name: string, submitReply: HttpResponse, pollReplies: seq<HttpResponse>)
    returns (events: seq<Event>, swallowed: Option<string>)
    ensures |events| >= 1 && events[0] == Post(ExecuteUrl, SubmitBody(code, name))
    ensures Submitted(submitReply).Err? ==>
      events == [Post(ExecuteUrl, SubmitBody(code, name))] && swallowed == Some(Submitted(submitReply).error)
    ensures Submitted(submitReply).Ok? ==>
      var url := PollUrl(Submitted(submitReply).value); var k := FirstStop(pollReplies);
      && events[1..] == PollCycles(url, k) + (if k < |pollReplies| then [Fetch(url)] else [])
      && swallowed == (if k < |pollReplies| && Classify(pollReplies[k]).Throw?
                       then Some(Classify(pollReplies[k]).message) else None)
  {
    events := [Post(ExecuteUrl, SubmitBody(code, name))];
    var submitted := Submitted(submitReply);
    if submitted.Err? {
      swallowed := Some(submitted.error);
      return;
    }
    var pollEvents, outcome := PollTaskStatus(submitted.value, pollReplies);
    events := events + pollEvents;
    swallowed := if outcome.Raised? then Some(outcome.message) else None;
  }

  /** A status that is never terminal keeps the client polling: no finite run of such replies ends it. */
  lemma {:induction false} PendingForever(replies: seq<HttpResponse>)
    requires forall j :: 0 <= j < |replies| ==> replies[j] == HttpResponse(200, Some(JObj(map["status" := JStr("pending")])))
    ensures FirstStop(replies) == |replies|
  {
    if replies != [] {
      assert Get(replies[0].body.value, "status") == Some(JStr("pending"));
      PendingForever(replies[1..]);
    }
  }
}
