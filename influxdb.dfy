/** The Celery task that forwards a stored job to InfluxDB, and its two HTTP
    helpers. The HTTP calls are collaborators: the caller supplies what each
    call produced, and the model records every call it makes, in order. */
module InfluxDb {
  import opened Common

  /** What a call through `requests` produced: a response with its status code,
      or a RequestException raised before any response (connection refused,
      timeout, malformed URL). */
  datatype HttpOutcome = Responded(code: int) | RequestFailed

  /** `Response.raise_for_status()` raises exactly for the client-error and
      server-error classes, 4xx and 5xx (sections 15.5 and 15.6 of RFC 9110). */
  predicate RaisesForStatus(code: int) {
    400 <= code < 600
  }

  datatype Credentials = Credentials(username: Option<string>, password: Option<string>)

  const NoCredentials: Credentials := Credentials(None, None)

  /** One outgoing HTTP request. */
  datatype Call =
    | CreateDatabase(url: string, query: string, credentials: Credentials)
    | GetJob(url: string)
    | WriteLine(url: string, database: string, credentials: Credentials, line: string)

  /** A request together with the status code the Celery task took from it. */
  datatype Attempt = Attempt(call: Call, status: int)

  /** The deployment settings the Celery task reads; `environment` holds the values of
      INFLUXDB_USERNAME and INFLUXDB_PASSWORD, `None` when a variable is unset. */
  datatype Config = Config(
    influxDatabase: string,
    influxApiUrl: string,
    squashApiUrl: string,
    environment: Credentials)

  /** How a Celery task run ends: the dict it returns, or an exception. */
  datatype TaskResult = Returned(message: string, statusCode: int) | Raised(exception: string)

  /** The Celery task's result together with every request it made. */
  datatype Run = Run(result: TaskResult, attempts: seq<Attempt>)

  const CouldNotCreateMessage: string := "Could not create InfluxDB database."
  const UnboundLocalError: string := "UnboundLocalError"

  function ConnectionMessage(cfg: Config): string {
    "Failed to establish connection with " + cfg.squashApiUrl + "."
  }

  function WriteFailedMessage(jobId: nat): string {
    "Failed to write Job " + NatToString(jobId) + " to InfluxDB."
  }

  function SuccessMessage(jobId: nat): string {
    "Job " + NatToString(jobId) + " sucessfully written to InfluxDB."
  }

  function JobUrl(cfg: Config, jobId: nat): string {
    cfg.squashApiUrl + "/job/" + NatToString(jobId)
  }

  /** The code both helpers keep: 500 unless a response came back and
      `raise_for_status` let it through. */
  function StatusOf(o: HttpOutcome): int {
    if o.Responded? && !RaisesForStatus(o.code) then o.code else 500
  }

  /** A variable from the environment, when set, wins over the passed value. */
  function EnvironmentFirst(fromEnvironment: Option<string>, passed: Option<string>): Option<string> {
    if fromEnvironment.Some? then fromEnvironment else passed
  }

  /** `create_influxdb_database`: the CREATE DATABASE query it sends and the
      status code it returns. Contrary to its docstring it never returns 400
      or 401: every 4xx and 5xx response is reported as 500. */
  function CreateInfluxDbDatabase(
    database: string, apiUrl: string, passed: Credentials, environment: Credentials, o: HttpOutcome
  ): (a: Attempt)
    ensures a.call.CreateDatabase? && a.call.url == apiUrl + "/query"
    ensures a.call.query == "CREATE DATABASE \"" + database + "\""
    ensures environment.username.Some? ==> a.call.credentials.username == environment.username
    ensures environment.username.None? ==> a.call.credentials.username == passed.username
    ensures environment.password.Some? ==> a.call.credentials.password == environment.password
    ensures environment.password.None? ==> a.call.credentials.password == passed.password
    ensures !(400 <= a.status < 500)
    ensures RaisesForStatus(a.status) ==> a.status == 500
    ensures o.Responded? && !RaisesForStatus(o.code) ==> a.status == o.code
    ensures (o.RequestFailed? || RaisesForStatus(o.code)) ==> a.status == 500
  {
    var credentials := Credentials(
      EnvironmentFirst(environment.username, passed.username),
      EnvironmentFirst(environment.password, passed.password));
    Attempt(CreateDatabase(apiUrl + "/query", "CREATE DATABASE \"" + database + "\"", credentials), StatusOf(o))
  }

  /** `write_influxdb_line`: it sends the passed credentials as they are (no
      environment override) and reduces every failure to 500, like the other
      helper. */
  function WriteInfluxDbLine(
    line: string, database: string, apiUrl: string, passed: Credentials, o: HttpOutcome
  ): (a: Attempt)
    ensures a.call.WriteLine? && a.call.line == line && a.call.database == database
    ensures a.call.url == apiUrl + "/write"
    ensures a.call.credentials == passed
    ensures !(400 <= a.status < 500)
    ensures RaisesForStatus(a.status) ==> a.status == 500
    ensures o.Responded? && !RaisesForStatus(o.code) ==> a.status == o.code
    ensures (o.RequestFailed? || RaisesForStatus(o.code)) ==> a.status == 500
  {
    Attempt(WriteLine(apiUrl + "/write", database, passed, line), StatusOf(o))
  }

  /** The write requests for every line, the `i`-th answered by `writes[i]`. */
  function Writes(cfg: Config, lines: seq<string>, writes: seq<HttpOutcome>): (ws: seq<Attempt>)
    requires |writes| == |lines|
    ensures |ws| == |lines|
  {
    seq(|lines|, i requires 0 <= i < |lines| =>
      WriteInfluxDbLine(lines[i], cfg.influxDatabase, cfg.influxApiUrl, NoCredentials, writes[i]))
  }

  /** Which of the writes the database accepted (204). */
  function Accepted(ws: seq<Attempt>): (ok: seq<bool>)
    ensures |ok| == |ws|
  {
    seq(|ws|, i requires 0 <= i < |ws| => ws[i].status == 204)
  }

  /** Reference definition of `job_to_influxdb`, in closed form: create the
      database, fetch the job, then write the transformer's `lines` up to and
      including the first write that is not answered 204. A fetch whose code is
      not 200 but passed `raise_for_status` leaves `message` unbound, so the
      task raises instead of returning. */
  function Deliver(
    cfg: Config, jobId: nat, create: HttpOutcome, fetch: HttpOutcome,
    lines: seq<string>, writes: seq<HttpOutcome>
  ): (r: Run)
    requires |writes| == |lines|
    ensures 1 <= |r.attempts| <= |lines| + 2
    ensures r.attempts[0].call.CreateDatabase?
    ensures |r.attempts| > 1 ==> r.attempts[1].call.GetJob?
    ensures forall k :: 2 <= k < |r.attempts| ==> r.attempts[k].call.WriteLine?
  {
    var creation := CreateInfluxDbDatabase(cfg.influxDatabase, cfg.influxApiUrl, NoCredentials, cfg.environment, create);
    if creation.status != 200 then
      Run(Returned(CouldNotCreateMessage, creation.status), [creation])
    else
      var fetching := Attempt(GetJob(JobUrl(cfg, jobId)), StatusOf(fetch));
      if fetching.status != 200 then
        var result :=
          if fetch.RequestFailed? || RaisesForStatus(fetch.code)
          then Returned(ConnectionMessage(cfg), 500)
          else Raised(UnboundLocalError);
        Run(result, [creation, fetching])
      else
        var ws := Writes(cfg, lines, writes);
        var k := FirstFalse(Accepted(ws));
        if k < |lines| then
          Run(Returned(WriteFailedMessage(jobId), ws[k].status), [creation, fetching] + ws[..k + 1])
        else
          Run(Returned(SuccessMessage(jobId), if |lines| == 0 then 200 else 204), [creation, fetching] + ws)
  }

  /** `job_to_influxdb`, step by step: `statusCode` is overwritten after every
      call and the write loop returns at the first code that is not 204. */
  method JobToInfluxDb(
    cfg: Config, jobId: nat, create: HttpOutcome, fetch: HttpOutcome,
    lines: seq<string>, writes: seq<HttpOutcome>
  ) returns (result: TaskResult, attempts: seq<Attempt>)
    requires |writes| == |lines|
    ensures Run(result, attempts) == Deliver(cfg, jobId, create, fetch, lines, writes)
  {
    var creation := CreateInfluxDbDatabase(cfg.influxDatabase, cfg.influxApiUrl, NoCredentials, cfg.environment, create);
    var statusCode := creation.status;
    attempts := [creation];
    if statusCode != 200 {
      result := Returned(CouldNotCreateMessage, statusCode);
      return;
    }

    // `message` is bound only when the request raises
    var message: Option<string> := None;
    statusCode := 500;
    if fetch.Responded? && !RaisesForStatus(fetch.code) {
      statusCode := fetch.code;
    } else {
      message := Some(ConnectionMessage(cfg));
    }
    var fetching := Attempt(GetJob(JobUrl(cfg, jobId)), statusCode);
    attempts := attempts + [fetching];
    if statusCode != 200 {
      result := if message.Some? then Returned(message.value, statusCode) else Raised(UnboundLocalError);
      return;
    }

    ghost var ws := Writes(cfg, lines, writes);
    var i := 0;
    while i < |lines|
      invariant 0 <= i <= |lines|
      invariant attempts == [creation, fetching] + ws[..i]
      invariant forall j :: 0 <= j < i ==> Accepted(ws)[j]
      invariant statusCode == if i == 0 then 200 else 204
    {
      var writing := WriteInfluxDbLine(lines[i], cfg.influxDatabase, cfg.influxApiUrl, NoCredentials, writes[i]);
      statusCode := writing.status;
      attempts := attempts + [writing];
      assert ws[..i + 1] == ws[..i] + [writing];
      if statusCode != 204 {
        assert ws[i] == writing && !Accepted(ws)[i];
        assert FirstFalse(Accepted(ws)) == i;
        result := Returned(WriteFailedMessage(jobId), statusCode);
        return;
      }
      i := i + 1;
    }
    assert ws[..i] == ws;
    result := Returned(SuccessMessage(jobId), statusCode);
  }

  /** The lines a run sent to InfluxDB, in the order it sent them. */
  function WrittenLines(attempts: seq<Attempt>): seq<string> {
    if |attempts| == 0 then []
    else
      var rest := WrittenLines(attempts[..|attempts| - 1]);
      var last := attempts[|attempts| - 1].call;
      if last.WriteLine? then rest + [last.line] else rest
  }

  lemma {:induction false} WrittenLinesOfWrites(cfg: Config, lines: seq<string>, writes: seq<HttpOutcome>, n: nat)
    requires |writes| == |lines| && n <= |lines|
    ensures WrittenLines(Writes(cfg, lines, writes)[..n]) == lines[..n]
  {
    if n > 0 {
      var ws := Writes(cfg, lines, writes);
      assert ws[..n][..n - 1] == ws[..n - 1];
      WrittenLinesOfWrites(cfg, lines, writes, n - 1);
      assert lines[..n] == lines[..n - 1] + [lines[n - 1]];
    }
  }

  lemma {:induction false} WrittenLinesAfterPrefix(prefix: seq<Attempt>, ws: seq<Attempt>)
    requires forall a :: a in prefix ==> !a.call.WriteLine?
    ensures WrittenLines(prefix + ws) == WrittenLines(ws)
    decreases |ws|
  {
    if |ws| == 0 {
      assert prefix + ws == prefix;
      NoWritesInPrefix(prefix);
    } else {
      var all := prefix + ws;
      assert all[..|all| - 1] == prefix + ws[..|ws| - 1];
      WrittenLinesAfterPrefix(prefix, ws[..|ws| - 1]);
    }
  }

  lemma {:induction false} NoWritesInPrefix(prefix: seq<Attempt>)
    requires forall a :: a in prefix ==> !a.call.WriteLine?
    ensures WrittenLines(prefix) == []
  {
    if |prefix| > 0 {
      assert prefix[..|prefix| - 1] <= prefix;
      NoWritesInPrefix(prefix[..|prefix| - 1]);
    }
  }

  /** Database creation that does not report 200 ends the run at once: the
      task returns that code and neither fetches the job nor writes a line. */
  lemma CreationFailureStopsRun(
    cfg: Config, jobId: nat, create: HttpOutcome, fetch: HttpOutcome,
    lines: seq<string>, writes: seq<HttpOutcome>)
    requires |writes| == |lines|
    requires StatusOf(create) != 200
    ensures Deliver(cfg, jobId, create, fetch, lines, writes).result == Returned(CouldNotCreateMessage, StatusOf(create))
    ensures |Deliver(cfg, jobId, create, fetch, lines, writes).attempts| == 1
  {
  }

  /** A job fetch that raises ends the run with 500 after two calls; one whose
      code passes `raise_for_status` but is not 200 makes the Celery task raise. */
  lemma FetchFailureStopsRun(
    cfg: Config, jobId: nat, create: HttpOutcome, fetch: HttpOutcome,
    lines: seq<string>, writes: seq<HttpOutcome>)
    requires |writes| == |lines|
    requires StatusOf(create) == 200 && StatusOf(fetch) != 200
    ensures |Deliver(cfg, jobId, create, fetch, lines, writes).attempts| == 2
    ensures WrittenLines(Deliver(cfg, jobId, create, fetch, lines, writes).attempts) == []
    ensures (fetch.RequestFailed? || RaisesForStatus(fetch.code)) ==>
      Deliver(cfg, jobId, create, fetch, lines, writes).result == Returned(ConnectionMessage(cfg), 500)
    ensures fetch.Responded? && !RaisesForStatus(fetch.code) ==>
      Deliver(cfg, jobId, create, fetch, lines, writes).result.Raised?
  {
    var run := Deliver(cfg, jobId, create, fetch, lines, writes);
    NoWritesInPrefix(run.attempts);
  }

  /** When the `k`-th write is the first one not answered 204, the run returns
      that write's code after exactly `k + 1` writes: the lines `0..k`, in
      order; no later line is attempted. */
  lemma FirstRejectedWriteStopsRun(
    cfg: Config, jobId: nat, create: HttpOutcome, fetch: HttpOutcome,
    lines: seq<string>, writes: seq<HttpOutcome>, k: nat)
    requires |writes| == |lines|
    requires StatusOf(create) == 200 && StatusOf(fetch) == 200
    requires k < |lines|
    requires forall j :: 0 <= j < k ==> StatusOf(writes[j]) == 204
    requires StatusOf(writes[k]) != 204
    ensures Deliver(cfg, jobId, create, fetch, lines, writes).result == Returned(WriteFailedMessage(jobId), StatusOf(writes[k]))
    ensures |Deliver(cfg, jobId, create, fetch, lines, writes).attempts| == k + 3
    ensures WrittenLines(Deliver(cfg, jobId, create, fetch, lines, writes).attempts) == lines[..k + 1]
  {
    var ws := Writes(cfg, lines, writes);
    var n := FirstFalse(Accepted(ws));
    forall j | 0 <= j < k ensures Accepted(ws)[j] {
    }
    assert !Accepted(ws)[k];
    assert n == k;
    var run := Deliver(cfg, jobId, create, fetch, lines, writes);
    var prefix := run.attempts[..2];
    assert run.attempts == prefix + ws[..k + 1];
    WrittenLinesAfterPrefix(prefix, ws[..k + 1]);
    WrittenLinesOfWrites(cfg, lines, writes, k + 1);
  }

  /** When every write is answered 204 the run reports success, with 204, or
      with the fetch's 200 when the transformer produced no line, after
      writing every line in order. */
  lemma AllWritesAcceptedIsSuccess(
    cfg: Config, jobId: nat, create: HttpOutcome, fetch: HttpOutcome,
    lines: seq<string>, writes: seq<HttpOutcome>)
    requires |writes| == |lines|
    requires StatusOf(create) == 200 && StatusOf(fetch) == 200
    requires forall j :: 0 <= j < |lines| ==> StatusOf(writes[j]) == 204
    ensures Deliver(cfg, jobId, create, fetch, lines, writes).result ==
      Returned(SuccessMessage(jobId), if |lines| == 0 then 200 else 204)
    ensures |Deliver(cfg, jobId, create, fetch, lines, writes).attempts| == |lines| + 2
    ensures WrittenLines(Deliver(cfg, jobId, create, fetch, lines, writes).attempts) == lines
  {
    var ws := Writes(cfg, lines, writes);
    var run := Deliver(cfg, jobId, create, fetch, lines, writes);
    var prefix := run.attempts[..2];
    assert run.attempts == prefix + ws;
    WrittenLinesAfterPrefix(prefix, ws);
    assert ws[..|lines|] == ws;
    assert lines[..|lines|] == lines;
    WrittenLinesOfWrites(cfg, lines, writes, |lines|);
  }

  /** The run reports success only when creation and fetch both gave 200 and
      every write gave 204. */
  lemma SuccessMeansEverythingWritten(
    cfg: Config, jobId: nat, create: HttpOutcome, fetch: HttpOutcome,
    lines: seq<string>, writes: seq<HttpOutcome>)
    requires |writes| == |lines|
    requires Deliver(cfg, jobId, create, fetch, lines, writes).result.Returned?
    requires Deliver(cfg, jobId, create, fetch, lines, writes).result.message == SuccessMessage(jobId)
    ensures StatusOf(create) == 200 && StatusOf(fetch) == 200
    ensures forall j :: 0 <= j < |lines| ==> StatusOf(writes[j]) == 204
  {
    var m := SuccessMessage(jobId);
    assert m[0] == 'J';
    assert CouldNotCreateMessage[0] == 'C';
    assert ConnectionMessage(cfg)[0] == 'F';
    assert WriteFailedMessage(jobId)[0] == 'F';
    var ws := Writes(cfg, lines, writes);
    forall j | 0 <= j < |lines| ensures StatusOf(writes[j]) == 204 {
      assert Accepted(ws)[j];
    }
  }

  /** The reported `status_code` is always the code of the last request made,
      and is never a 4xx code, although the docstrings promise 400 and 401. */
  lemma ReportedStatusIsLastCall(
    cfg: Config, jobId: nat, create: HttpOutcome, fetch: HttpOutcome,
    lines: seq<string>, writes: seq<HttpOutcome>)
    requires |writes| == |lines|
    requires Deliver(cfg, jobId, create, fetch, lines, writes).result.Returned?
    ensures var run := Deliver(cfg, jobId, create, fetch, lines, writes);
      |run.attempts| > 0 && run.result.statusCode == run.attempts[|run.attempts| - 1].status
    ensures !(400 <= Deliver(cfg, jobId, create, fetch, lines, writes).result.statusCode < 500)
  {
    var run := Deliver(cfg, jobId, create, fetch, lines, writes);
    var ws := Writes(cfg, lines, writes);
    if StatusOf(create) == 200 && StatusOf(fetch) == 200 && FirstFalse(Accepted(ws)) == |lines| && |lines| > 0 {
      assert Accepted(ws)[|lines| - 1];
    }
  }

  /** Only database creation honours the environment's credentials; every
      line is written without credentials. */
  lemma WritesCarryNoCredentials(
    cfg: Config, jobId: nat, create: HttpOutcome, fetch: HttpOutcome,
    lines: seq<string>, writes: seq<HttpOutcome>)
    requires |writes| == |lines|
    ensures var run := Deliver(cfg, jobId, create, fetch, lines, writes);
      run.attempts[0].call.CreateDatabase? && run.attempts[0].call.credentials == cfg.environment
    ensures var run := Deliver(cfg, jobId, create, fetch, lines, writes);
      forall a :: a in run.attempts && a.call.WriteLine? ==> a.call.credentials == NoCredentials
  {
  }
}
