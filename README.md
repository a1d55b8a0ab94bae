# SQuaSH API core, modelled in Dafny

SQuaSH stores the results of science-pipeline verification jobs. This project
models the part of its API service that decides things, and proves properties
of it:

- **Delivery to InfluxDB** (`InfluxDb`, influxdb.dfy). The Celery task
  `job_to_influxdb` creates the database, fetches the job from the API, then
  writes one line-protocol line per request and stops at the first write that
  is not answered 204. It is modelled as a method with the same variable
  overwriting and early returns (`JobToInfluxDb`). The method is proved equal
  to a closed-form reference `Deliver`. Lemmas about `Deliver` cover
  short-circuiting, call counts, the lines written and the reported code.
  The HTTP calls are inputs: each one is a status code or a `RequestException`.
  `raise_for_status` rejects exactly the 4xx and 5xx classes (sections 15.5 and
  15.6 of RFC 9110).
- **Task status** (`Status`, status.dfy). `Status.get` maps a Celery state and
  the Celery task's info to the response body. The PENDING quirk is listed under
  Findings.
- **Metric catalog** (`Metric`, metric.dfy). The class `MetricCatalog` holds
  the metric table as a map from qualified name to record, plus an id counter.
  Its methods model `Metric.post`, `put` and `delete` and `MetricList.post`.
  The bulk create is specified by the function `CreateAll`, and lemmas relate
  its outcome to the list.
- **Specification catalog** (`Specification`, specification.dfy). The same
  design for specifications. Each specification is linked to the metric named
  by everything before its last dot. The bulk create skips unknown metrics
  silently.
- **Job ingestion** (`Job`, job.dfy). The class `JobResource` holds the
  request (`self.data`), the env, job, package and measurement tables, and the
  queue of delivery tasks. It runs `check_or_create_env`, `create_job`,
  `insert_packages` and `insert_measurements` in order. Each method is proved
  equal to a function on a `Tables` value: `ResolveEnv`, `NewJob`,
  `AddPackages`, `AddMeasurements` and, for the whole handler, `Ingest`.
  Request bodies are JSON values (`Json`, json.dfy). Python's `in`,
  subscripting and iteration on them are written out, including the
  `KeyError`/`TypeError` they raise.

Shared conventions (common.dfy):

- A handler's answer is a `Reply`: a message with a status code, a record
  with a status code, or an exception the handler does not catch, which Flask
  turns into a 500.
- A bare dict return gets Flask-RESTful's default code 200.
- Whether each `save_to_db` commits is an input. It is a `bool` for a single
  save, or a `seq<bool>` for a loop, where a missing entry means the save
  commits.

## Model

| member | source | states |
|---|---|---|
| InfluxDb.CreateInfluxDbDatabase | src/squash/tasks/influxdb.py:25-73 | sends `CREATE DATABASE "<db>"` to `<url>/query`, with environment credentials taking precedence over passed ones; returns the response code when `raise_for_status` lets it through and 500 otherwise, so never a 4xx |
| InfluxDb.WriteInfluxDbLine | src/squash/tasks/influxdb.py:76-115 | sends the line to `<url>/write` with the passed credentials unchanged; returns the response code when not rejected and 500 otherwise, never a 4xx |
| InfluxDb.JobToInfluxDb | src/squash/tasks/influxdb.py:118-174 | the step-by-step task (status code overwritten after each call, early return in the write loop) yields exactly the result and call sequence of the reference `Deliver` |
| InfluxDb.Deliver | src/squash/tasks/influxdb.py:118-174 | the reference run calls creation first, then at most the fetch, then only writes, at most one per line; `JobToInfluxDb` is proved equal to it, and `CreationFailureStopsRun`, `FetchFailureStopsRun`, `FirstRejectedWriteStopsRun` and `AllWritesAcceptedIsSuccess` give its result case by case |
| InfluxDb.CreationFailureStopsRun | src/squash/tasks/influxdb.py:135-141 | creation not answering 200 returns "Could not create InfluxDB database." with that code after one call |
| InfluxDb.FetchFailureStopsRun | src/squash/tasks/influxdb.py:143-157 | a failed fetch ends the run after two calls with no line written; a raised request gives 500 with the connection message, a non-raising non-200 code makes the Celery task raise |
| InfluxDb.FirstRejectedWriteStopsRun | src/squash/tasks/influxdb.py:164-171 | when write `k` is the first not answered 204, the Celery task returns the write-failure message with that code after `k + 3` calls, having written exactly lines `0..k` in order |
| InfluxDb.AllWritesAcceptedIsSuccess | src/squash/tasks/influxdb.py:164-174 | when every write gets 204, the Celery task returns the success message with 204, or 200 for zero lines, after writing every line in order |
| InfluxDb.SuccessMeansEverythingWritten | src/squash/tasks/influxdb.py:135-174 | the success message implies creation and fetch gave 200 and every write gave 204 |
| InfluxDb.ReportedStatusIsLastCall | src/squash/tasks/influxdb.py:135-174 | a returned `status_code` is the code of the last call made, and is never a 4xx |
| InfluxDb.WritesCarryNoCredentials | src/squash/tasks/influxdb.py:164-167 | database creation uses the environment's credentials, while every line write is sent without credentials |
| Status.ReadInfo | src/squash/api_v1/status.py:46-50 | answers with info's "message" and "status_code" exactly when info is a dict holding both, and raises otherwise |
| Status.StatusGet | src/squash/api_v1/status.py:32-50 | the body holds only the state exactly for STARTED and FAILURE, and then it is the state's name; a message-and-code body needs info to be a dict and carries exactly its "message" and "status_code" values; `StatusGetCases` splits the states |
| Status.StatusGetCases | src/squash/api_v1/status.py:32-50 | STARTED and FAILURE answer with only the state; every other state, PENDING included, answers with the message and code read from info, or raises |
| Status.StatusReportsDelivery | src/squash/api_v1/status.py:30-50 | polling a finished delivery run reports exactly the message and code the Celery task returned, or only FAILURE when it raised |
| Status.PendingWithoutInfoCrashes | src/squash/api_v1/status.py:32-50 | as written, a PENDING task, whose info is None, makes the handler raise |
| Status.StatusGetIntended | src/squash/api_v1/status.py:32-45 | corrected mapping: PENDING, STARTED and FAILURE answer with the state alone, and every other state is answered as the code does |
| Metric.SplitName | src/squash/api_v1/metric.py:91-92 | no dot iff `NoDot`; exactly one dot gives dot-free package and display name that join back to the name; two or more dots iff `TooManyParts` (ValueError) |
| Metric.SplitNameJoin | src/squash/api_v1/metric.py:91-92 | `p.m` with dot-free `p` and `m` splits into package `p` and display name `m` |
| Metric.InsertKeepsWellFormed | src/squash/api_v1/metric.py:101-109 | storing a new metric under a fresh, well-split name with the next id keeps names, splits and distinct ids consistent |
| Metric.UpdateKeepsWellFormed | src/squash/api_v1/metric.py:165-171 | replacing a metric by one with the same id, name, package and display name keeps the catalog well formed |
| Metric.MetricCatalog.Post | src/squash/api_v1/metric.py:89-114 | no dot gives the full-name message (code 200) and two dots a ValueError, both leaving the catalog unchanged; an existing name gives 400, a failed save 500, both unchanged; otherwise exactly the new metric is added with the next id and returned with 201 |
| Metric.MetricCatalog.Put | src/squash/api_v1/metric.py:157-176 | absent name gives 404 and a failed save 500, both unchanged; otherwise only description, unit, tags and reference change, id, name, package and display name stay, other metrics are untouched, 200 |
| Metric.MetricCatalog.Delete | src/squash/api_v1/metric.py:202-207 | absent name gives 404 and changes nothing; otherwise exactly that metric is removed and "Metric deleted." is returned |
| Metric.MetricCatalog.PostList | src/squash/api_v1/metric.py:261-291 | the loop ends with the reply, table and counter of `CreateAll` and keeps the catalog well formed |
| Metric.CreateAllOnlyAdds | src/squash/api_v1/metric.py:263-289 | bulk create never alters or removes an existing metric, and adds only names from the list |
| Metric.CreateAll | src/squash/api_v1/metric.py:261-291 | the bulk create looks at the elements in order, never past the list's end, and a 201 reply means it looked at every element; `CreateAllStopsAtFirstFailure`, `CreatableCreatesAll` and `CreateAllSuccessNeedsCreatable` give its outcome |
| Metric.CreatedRecords | src/squash/api_v1/metric.py:263-283 | storing a run of creatable elements keeps every earlier metric unchanged, stores the `j`-th element as the record built from its name and fields with id `nextId + (j - i)`, and adds no other name |
| Metric.CreateAllAfterCreated | src/squash/api_v1/metric.py:263-283 | over a run of creatable elements the loop stores them one by one and goes on after the run with exactly those records and the counter advanced by the run's length |
| Metric.CreateAllStopsAtFirstFailure | src/squash/api_v1/metric.py:263-289 | when element `k` is the first that cannot be created, the loop looks at `k + 1` elements, the metrics stored for the elements before it stay, and the reply is that element's own error: KeyError without a name, the full-name message with code 200 without a dot, ValueError with more than one dot, "already exist" with 400 for a stored name, the insert message with 500 for a failed save |
| Metric.CreateAllRepeatedNameFails | src/squash/api_v1/metric.py:276-278 | a name repeated within the list is refused at its second occurrence with "already exist" and 400, after `k + 1` elements |
| Metric.CreateAllSuccessNeedsCreatable | src/squash/api_v1/metric.py:263-291 | a 201 reply implies every element had a one-dot name, new to the catalog, not repeated later in the list, with a committing save |
| Metric.CreatableCreatesAll | src/squash/api_v1/metric.py:263-291 | when every element is creatable, the reply is 201, all elements are looked at, the catalog gains exactly the listed names, each stored as `CreatedRecords` describes, and the counter advances by the list's length |
| Metric.CreateAllIgnoresRest | src/squash/api_v1/metric.py:263-289 | elements after the one the bulk create stopped at are never looked at; cutting them off gives the same outcome |
| Specification.MetricNameOf | src/squash/api_v1/specification.py:82-83 | None iff the name has no dot; otherwise a proper prefix followed by a dot, with no dot after it (everything before the last dot) |
| Specification.MetricNameOfJoin | src/squash/api_v1/specification.py:82-83 | for a dot-free last part, `metric.spec` gives back `metric`, whatever dots `metric` holds |
| Specification.MetricNameOfExample | src/squash/api_v1/specification.py:82-88 | `validate_drp.AM1.minimum_gri` is linked to metric `validate_drp.AM1` |
| Specification.SpecificationCatalog.Post | src/squash/api_v1/specification.py:80-121 | no dot gives the full-name message (200), an unknown metric 404, an existing name 400, a failed save 500, all unchanged; otherwise exactly the new spec, linked to the metric's id, is added and returned with 201 |
| Specification.SpecificationCatalog.Put | src/squash/api_v1/specification.py:162-180 | absent spec gives 404 and a failed save 500, both unchanged; otherwise only threshold, tags and metadata query change, id, name and metric stay, 200 |
| Specification.SpecificationCatalog.Delete | src/squash/api_v1/specification.py:207-214 | absent spec gives 404 and changes nothing; otherwise exactly that spec is removed |
| Specification.SpecificationCatalog.PostList | src/squash/api_v1/specification.py:266-318 | the loop, with its `continue` for unknown metrics, ends with the reply, table and counter of `CreateAll` and keeps the catalog well formed |
| Specification.CreateAllOnlyAdds | src/squash/api_v1/specification.py:268-313 | bulk create never alters existing specs; each added name is from the list, has a known metric and is linked to that metric's id |
| Specification.CreateAll | src/squash/api_v1/specification.py:266-318 | the bulk create looks at the elements in order, never past the list's end, and a 201 reply means it looked at every element; `CreateAllStopsAtFirstFailure`, `CreatableCreatesAll` and `CreateAllSuccessNeedsCreatable` give its outcome |
| Specification.CreatedRecords | src/squash/api_v1/specification.py:268-306 | storing a run of passing elements keeps every earlier spec unchanged and stores each element whose metric exists as the record linked to that metric's id, with id `nextId` plus the number of such elements before it |
| Specification.CreatedOnlyListed | src/squash/api_v1/specification.py:268-306 | the run adds only listed names whose metric exists, and the counter advances by exactly their number: skipped elements take no id |
| Specification.CreateAllAfterCreated | src/squash/api_v1/specification.py:268-306 | over a run of passing elements the loop stores those whose metric exists one by one and goes on after the run with exactly those records and that counter |
| Specification.CreateAllStopsAtFirstFailure | src/squash/api_v1/specification.py:268-313 | when element `k` is the first that does not pass, the loop looks at `k + 1` elements, the specs stored before it stay, and the reply is that element's own error: KeyError without a name, the full-name message with code 200 without a dot, "already exist" with 400 for a stored name, the creation message with 500 for a failed save |
| Specification.CreateAllRepeatedNameFails | src/squash/api_v1/specification.py:295-301 | a name whose metric exists, repeated within the list, is refused at its second occurrence with "already exist" and 400, after `k + 1` elements |
| Specification.CreateAllSuccessNeedsCreatable | src/squash/api_v1/specification.py:268-318 | a 201 reply implies every element had a dotted name and, unless its metric is unknown, a new, unrepeated name with a committing save |
| Specification.CreatableCreatesAll | src/squash/api_v1/specification.py:268-318 | when every element passes, the reply is 201 and the catalog gains exactly the listed names whose metric exists, each stored as `CreatedRecords` describes; the others are skipped silently and take no id |
| Specification.CreateAllIgnoresRest | src/squash/api_v1/specification.py:268-313 | elements after the one the bulk create stopped at are never looked at |
| Job.EnvNameOf | src/squash/api_v1/job.py:187-200 | no "env" gives the name "unknown"; an env dict gives its "env_name" when present and 400 "Missing `env_name` in env metadata." otherwise; a non-dict env never yields a name |
| Job.ResolveEnv | src/squash/api_v1/job.py:183-213 | find-or-create: a stored env is reused unchanged, a new one is stored with the next id only when none exists and the save commits, a failed save gives 500 and changes nothing; no other table changes |
| Job.JobMeta | src/squash/api_v1/job.py:232-242 | the stored job metadata lacks "env" and "packages" and agrees with the request meta on every other key |
| Job.NewJob | src/squash/api_v1/job.py:216-256 | missing "packages" gives 400 and a failed save 500, both unchanged; otherwise the job is stored under the next id with the env id, the env dict (or `{}`) and the remaining metadata |
| Job.AddPackages | src/squash/api_v1/job.py:259-278 | only the package table changes, by appending records of this job; refusals are the missing-packages 400 or the save 500; missing "packages" leaves everything unchanged |
| Job.PackagesFromRecords | src/squash/api_v1/job.py:271-278 | the package loop saves at most one record per element of `meta["packages"]`, each of this job, and refuses only with the packages error |
| Job.PackagesFrom | src/squash/api_v1/job.py:273-278 | the package loop saves at most one record per remaining entry; `PackagesFromRecords` adds that a completed loop saves exactly one per entry, each of this job, and `PackagesFromOnePerKey` gives their contents |
| Job.PackagesFromOnePerKey | src/squash/api_v1/job.py:273-278 | for a dict of dicts whose saves commit, the loop succeeds with one record per entry, in entry order, holding that entry's fields (one per key, as the keys of a Python dict are distinct) |
| Job.PackagesOnePerKey | src/squash/api_v1/job.py:267-278 | `insert_packages` then appends exactly one record per entry of `meta["packages"]` (one per key, as dict keys are distinct) and changes nothing else |
| Job.BlobsFor | src/squash/api_v1/job.py:306-315 | attaching yields at most one blob per request blob; `BlobsForSound`, `BlobsForComplete`, `BlobsForMembers`, `BlobsForAppend` and `BlobsForRaisesIff` say which blobs and when it raises |
| Job.BlobsForRaiseSticks | src/squash/api_v1/job.py:306-313 | once a blob raises, later blobs do not change the outcome |
| Job.BlobsForRaisesIff | src/squash/api_v1/job.py:306-313 | attaching raises exactly when some blob with "identifier" and "name" cannot be tested against the measurement's `blob_refs` |
| Job.MissingBlobRefsRaisesKeyError | src/squash/api_v1/job.py:306-312 | `blob_refs` is required as soon as one blob has both "identifier" and "name": without it attaching raises KeyError |
| Job.BlobsForWithoutRefs | src/squash/api_v1/job.py:306-312 | without `blob_refs`, attaching either finds no qualifying blob and attaches nothing, or raises KeyError |
| Job.BlobsForSound | src/squash/api_v1/job.py:306-313 | every attached blob comes from a qualifying request blob whose identifier is in `blob_refs` |
| Job.BlobsForComplete | src/squash/api_v1/job.py:306-313 | every qualifying request blob whose identifier is in `blob_refs` is attached |
| Job.BlobsForMembers | src/squash/api_v1/job.py:306-313 | a measurement gets exactly the qualifying blobs its `blob_refs` names |
| Job.BlobsForAppend | src/squash/api_v1/job.py:306-313 | blobs are attached in request order: attaching for `a + b` gives the blobs for `a` followed by those for `b` |
| Job.AttachBlobs | src/squash/api_v1/job.py:304-313 | the blob loop building `m.blobs` by `append` returns exactly `BlobsFor` |
| Job.MeasurementsFrom | src/squash/api_v1/job.py:289-329 | the measurement loop saves at most one record per remaining measurement; `MeasurementsFromCount`, `MeasurementsFromSaves` and `MeasurementsFromStopsAtInvalid` say exactly which |
| Job.MeasurementsFromRecords | src/squash/api_v1/job.py:289-329 | every saved measurement belongs to this job and is linked to the id of the catalog metric it names; refusals are the 400 or the save 500 |
| Job.MeasurementsFromCount | src/squash/api_v1/job.py:289-329 | a completed loop means every measurement was named and, when its metric is in the catalog, had attachable blobs and a committing save; the records saved are exactly one per such measurement, in order, each with the measurement's fields, the metric's id and its blobs (`SavedRecords`) |
| Job.MeasurementsFromSaves | src/squash/api_v1/job.py:289-329 | conversely, when every measurement passes, the loop completes and saves exactly those records |
| Job.MeasurementsOnePerKnownMetric | src/squash/api_v1/job.py:281-329 | `insert_measurements` on measurements that all pass appends exactly those records to the measurement table and changes nothing else |
| Job.MeasurementsFromStopsAtInvalid | src/squash/api_v1/job.py:289-299 | an empty measurement or one without "metric" aborts the loop with 400 when the measurements before it pass; the records saved for those stay and are exactly one per catalog-metric measurement before it, in order, with their fields, metric ids and blobs |
| Job.AddMeasurements | src/squash/api_v1/job.py:281-329 | only the measurement table changes, by appending records of this job; refusals are the invalid-measurement 400 or the save 500 |
| Job.ResolveEnvPreserves | src/squash/api_v1/job.py:183-213 | env resolution keeps the tables consistent and only adds to them |
| Job.NewJobPreserves | src/squash/api_v1/job.py:216-256 | job creation on a stored env keeps the tables consistent and only adds to them |
| Job.AddPackagesPreserves | src/squash/api_v1/job.py:259-278 | package insertion for a stored job keeps the tables consistent and only adds to them |
| Job.AddMeasurementsPreserves | src/squash/api_v1/job.py:281-329 | measurement insertion for a stored job keeps the tables consistent and only adds to them |
| Job.InsertAndQueuePreserves | src/squash/api_v1/job.py:156-170 | the inserts and the enqueue for a stored job keep the tables consistent and only add to them |
| Job.CreateAndInsertPreserves | src/squash/api_v1/job.py:150-170 | job creation, inserts and enqueue on a stored env keep the tables consistent and only add to them |
| Job.Ingest | src/squash/api_v1/job.py:142-180 | the handler queues at most the new job's id; `IngestAcceptedIffQueued`, `IngestReplies` and `IngestPreservesConsistency` give its reply and tables |
| Job.IngestPreservesConsistency | src/squash/api_v1/job.py:142-180 | ingestion keeps every job on a stored env and every package, measurement and queued task on a stored job; it never removes or alters earlier records, even when it fails (no rollback) |
| Job.InsertAndQueueReplies | src/squash/api_v1/job.py:156-180 | after job creation, the reply is 202 exactly when the job is queued; otherwise it is one of the inserts' messages or an exception |
| Job.IngestAcceptedIffQueued | src/squash/api_v1/job.py:142-180 | the reply is 202 exactly when the new job's id is queued; then the reply names that id, and the job is stored with the resolved env's id, the env dict and the remaining metadata |
| Job.IngestReplies | src/squash/api_v1/job.py:142-180 | every reply is 202, one of the steps' 400 and 500 messages in their wording, or an uncaught exception, never a record |
| Job.EnvKeptWhenPackagesMissing | src/squash/api_v1/job.py:144-160 | a request without "packages" is refused with 400, yet the env it names has been stored and no job was created |
| Job.JobResource.CheckOrCreateEnv | src/squash/api_v1/job.py:183-213 | the method's result and new tables are exactly those of `ResolveEnv` on `self.data["meta"]` |
| Job.JobResource.CreateJob | src/squash/api_v1/job.py:216-256 | the method's result and new tables are exactly those of `NewJob` |
| Job.JobResource.InsertPackages | src/squash/api_v1/job.py:259-278 | the loop over `meta["packages"]`, saving record by record, yields exactly the result and tables of `AddPackages` |
| Job.JobResource.InsertMeasurements | src/squash/api_v1/job.py:281-329 | the loop over the measurements, saving record by record, yields exactly the result and tables of `AddMeasurements` |
| Job.JobResource.Post | src/squash/api_v1/job.py:142-180 | stores the request, runs the four steps in order, answering the first refusal with its message and code, and queues the job with 202 on success; the reply and tables equal `Ingest`'s, and consistency is kept |

## Left out

- The transformer that turns a job into InfluxDB lines is an uninterpreted input (`lines`); its line-protocol encoding is not modelled.
- HTTP I/O, Celery scheduling, `AsyncResult`, JWT checks and `reqparse` parsing are inputs: a status code or exception per call, a task state and info, and the parsed request.
- ORM internals are maps plus an id counter. Not modelled: `find_by_name` itself, session state after a failed commit, and a failing `delete_from_db`.
- Numbers in JSON are integers; floating-point values are not modelled.
- Python's `True == 1` when a boolean is compared with an integer key is not modelled; `Num` and `Bool` never compare equal.
- The enqueue error path at src/squash/api_v1/job.py:169-173 refers to undefined names and is not modelled; enqueueing always succeeds and appends the job id to the queue.
- The 202 reply's "status" URL is not modelled; the reply carries the message only.
- Job.JobResource.InsertPackages: a `TypeError` from `PackageModel(job_id, **fields)` for keyword names the model does not accept is not modelled; any dict of fields is stored.
- Job.JobResource.InsertMeasurements: the same for `MeasurementModel` keyword arguments.
- Specification.SpecificationCatalog.Post: the same for `SpecificationModel` keyword arguments.
- Metric.MetricCatalog.PostList: a `TypeError` from `MetricModel(**data)` for keys the model does not accept is not modelled; any fields are stored.
- Metric.MetricCatalog.PostList: the 500 reply's "error" field, the text of the exception the save raised (src/squash/api_v1/metric.py:289), is not modelled; the reply carries the message and code only.
- Metric.MetricCatalog.PostList: a request without "metrics" parses to `None`, and iterating it raises `TypeError` (src/squash/api_v1/metric.py:261-263); the model takes the parsed list as its input.
- Metric.MetricCatalog.PostList: a "name" that is not a string makes `"." in name` raise `TypeError`; names are strings or missing in the model.
- Specification.SpecificationCatalog.PostList: a `TypeError` from `SpecificationModel(name, metric_id, **data)` for keys the model does not accept is not modelled; any fields are stored.
- Specification.SpecificationCatalog.PostList: a request without "specs" parses to `None`, and iterating it raises `TypeError` (src/squash/api_v1/specification.py:266-268); the model takes the parsed list as its input.
- Specification.SpecificationCatalog.PostList: a "name" that is not a string makes `"." in name` raise `TypeError`; names are strings or missing in the model.
- Json.PyIn: dicts are compared as ordered lists of entries, so two dicts with the same entries in a different order are unequal, where Python's dict equality ignores order.
- Job.MeasuredMetric: a "metric" value that is not a string is treated as a name not in the catalog (skipped); the model does not distinguish what `find_by_name` would do with it.
- `JobWithArg`, `JobList`, `MetricList.get`, `SpecificationList.get` and `Metric.get`/`Specification.get` are pass-through queries and are not modelled.
- jenkins.py is not part of this model; its behaviour lies in ORM finders.
- Flask application wiring (app.py) and configuration (config.py) are not part of this model.
- Logging and `warnings.warn` calls have no effect in the model.

## Findings

| source | as written | input that shows it | evidently intended | confidence | as-written member | corrected member |
|---|---|---|---|---|---|---|
| src/squash/api_v1/status.py:32-50 | the PENDING branch is a separate `if`, followed by an `if`/`elif`/`else` whose `else` overwrites the response, so PENDING reads `result.info["message"]` | a PENDING task (info `None`) | PENDING answers `{"status": "PENDING"}`, as the docstring says | high; not executed | Status.PendingWithoutInfoCrashes | Status.StatusGetIntended |
