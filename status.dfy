/** The `/status/<task_id>` resource: it turns the Celery state of a delivery
    task, and the Celery task's info, into the response body. */
module Status {
  import opened Common
  import opened Json
  import InfluxDb

  /** The states Celery reports for a task. */
  datatype TaskState = Pending | Started | Retry | Failure | Success | Revoked

  /** `AsyncResult.info`: nothing yet (PENDING), the value the Celery task returned,
      or the exception it raised. */
  datatype TaskInfo = NoInfo | Value(v: Json) | Exception(name: string)

  /** The response body: only the state, the delivery's message and status
      code, or an exception the handler does not catch (a 500 response). */
  datatype StatusResponse =
    | StateOnly(status: string)
    | Detail(message: Json, statusCode: Json)
    | Unhandled(exception: string)

  function StateName(s: TaskState): string {
    match s
    case Pending => "PENDING"
    case Started => "STARTED"
    case Retry => "RETRY"
    case Failure => "FAILURE"
    case Success => "SUCCESS"
    case Revoked => "REVOKED"
  }

  /** `result.info["message"]` and `result.info["status_code"]`: a KeyError
      when either key is missing, a TypeError when info is not a dict. */
  function ReadInfo(info: TaskInfo): (r: StatusResponse)
    ensures r.Detail? <==> info.Value? && info.v.Obj? && HasKey(info.v.fields, "message") && HasKey(info.v.fields, "status_code")
    ensures r.Detail? ==> Get(info.v.fields, "message") == Some(r.message)
    ensures r.Detail? ==> Get(info.v.fields, "status_code") == Some(r.statusCode)
    ensures !r.Detail? ==> r.Unhandled?
  {
    match info
    case Value(Obj(fields)) =>
      var message := Get(fields, "message");
      var code := Get(fields, "status_code");
      if message.None? || code.None? then Unhandled("KeyError")
      else Detail(message.value, code.value)
    case _ => Unhandled("TypeError")
  }

  /** `Status.get` as written: the PENDING test is followed by a separate
      `if`/`elif`/`else` chain, so its assignment is always overwritten and a
      PENDING task falls into the `else` branch, which reads the Celery task's info. */
  function StatusGet(state: TaskState, info: TaskInfo): (r: StatusResponse)
    ensures r.StateOnly? <==> state == Started || state == Failure
    ensures r.StateOnly? ==> r.status == StateName(state)
    ensures r.Detail? ==>
      && info.Value? && info.v.Obj?
      && Get(info.v.fields, "message") == Some(r.message)
      && Get(info.v.fields, "status_code") == Some(r.statusCode)
  {
    if state == Started then StateOnly(StateName(state))
    else if state == Failure then StateOnly(StateName(state))
    else ReadInfo(info)
  }

  /** STARTED and FAILURE answer with only the state; every other state,
      PENDING included, answers with the message and code read from info. */
  lemma StatusGetCases(state: TaskState, info: TaskInfo)
    ensures state == Started ==> StatusGet(state, info) == StateOnly("STARTED")
    ensures state == Failure ==> StatusGet(state, info) == StateOnly("FAILURE")
    ensures state != Started && state != Failure ==>
      (StatusGet(state, info).Detail? <==>
        info.Value? && info.v.Obj? && HasKey(info.v.fields, "message") && HasKey(info.v.fields, "status_code"))
    ensures StatusGet(Pending, info) == StatusGet(Success, info)
  {
  }

  /** The state and info Celery records when a delivery run ends: the
      returned dict under SUCCESS, the exception under FAILURE. */
  function Finished(result: InfluxDb.TaskResult): (TaskState, TaskInfo) {
    match result
    case Returned(message, code) =>
      (Success, Value(Obj([("message", Str(message)), ("status_code", Num(code))])))
    case Raised(e) => (Failure, Exception(e))
  }

  /** Polling a finished delivery run reports exactly the message and code
      that `job_to_influxdb` returned, or only FAILURE when it raised. */
  lemma StatusReportsDelivery(
    cfg: InfluxDb.Config, jobId: nat, create: InfluxDb.HttpOutcome, fetch: InfluxDb.HttpOutcome,
    lines: seq<string>, writes: seq<InfluxDb.HttpOutcome>)
    requires |writes| == |lines|
    ensures var result := InfluxDb.Deliver(cfg, jobId, create, fetch, lines, writes).result;
      var (state, info) := Finished(result);
      StatusGet(state, info) ==
        if result.Returned? then Detail(Str(result.message), Num(result.statusCode))
        else StateOnly("FAILURE")
  {
    var result := InfluxDb.Deliver(cfg, jobId, create, fetch, lines, writes).result;
    if result.Returned? {
      var fields := [("message", Str(result.message)), ("status_code", Num(result.statusCode))];
      assert fields[0].0 == "message" && fields[1].0 == "status_code";
      assert Get(fields, "message") == Some(Str(result.message));
      assert Get(fields[1..], "status_code") == Some(Num(result.statusCode));
    }
  }

  /** Celery has no info for a task that has not started, so polling a
      PENDING task raises instead of answering `{"status": "PENDING"}`. */
  lemma PendingWithoutInfoCrashes()
    ensures StatusGet(Pending, NoInfo).Unhandled?
  {
  }

  /** `Status.get` as its docstring describes it: PENDING, STARTED and FAILURE
      answer with the state alone. */
  function StatusGetIntended(state: TaskState, info: TaskInfo): (r: StatusResponse)
    ensures state in {Pending, Started, Failure} ==> r == StateOnly(StateName(state))
    ensures state !in {Pending, Started, Failure} ==> r == StatusGet(state, info)
  {
    if state == Pending || state == Started || state == Failure then StateOnly(StateName(state))
    else ReadInfo(info)
  }
}
