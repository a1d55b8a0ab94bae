/** Job ingestion, `POST /job`: the request body of a verification job is
    checked and stored step by step (environment, job, packages,
    measurements with their data blobs), and the job is then queued for
    delivery to InfluxDB. */
module Job {
  import opened Common
  import opened Json
  import Metric

  /** How one step of `Job.post` ends: with a value, with an `ApiError`
      (message and status code, caught by `post`), or with any other Python
      exception, which `post` does not catch (Flask answers 500). */
  datatype Step<+T> = Ok(value: T) | Refused(message: string, code: int) | Threw(exception: string)

  /** A Python expression that evaluates to a value or raises. */
  datatype Py<+T> = Val(v: T) | Exc(name: string)

  /** The parsed request body: `measurements` and `blobs` default to `[]`,
      `meta` to `{}`. */
  datatype Request = Request(measurements: seq<Dict>, meta: Dict, blobs: seq<Dict>)

  datatype JobRecord = JobRecord(envId: nat, env: Json, meta: Dict)
  datatype PackageRecord = PackageRecord(jobId: nat, fields: Dict)
  datatype Blob = Blob(identifier: Json, name: Json)
  datatype MeasurementRecord = MeasurementRecord(jobId: nat, metricId: nat, fields: Dict, blobs: seq<Blob>)

  /** Whether each `save_to_db` commits: one flag for the env, one for the
      job, and one per package and per measurement, by position (a position
      past the end commits). */
  datatype Saves = Saves(env: bool, job: bool, packages: seq<bool>, measurements: seq<bool>)

  /** The database tables ingestion writes, and the queue of delivery tasks. */
  datatype Tables = Tables(
    envs: map<Json, nat>,
    nextEnvId: nat,
    jobs: map<nat, JobRecord>,
    nextJobId: nat,
    packages: seq<PackageRecord>,
    measurements: seq<MeasurementRecord>,
    enqueued: seq<nat>)

  const TypeError: string := "TypeError"
  const KeyError: string := "KeyError"
  const IndexError: string := "IndexError"

  const MissingEnvName: string := "Missing `env_name` " + "in env metadata."
  const EnvError: string := "An error ocurred creating " + "the env object."
  const MissingPackages: string := "Missing packages " + "metadata."
  const JobError: string := "An error occurred creating " + "the job object."
  const PackagesError: string := "An error occurred " + "inserting packages"
  const MeasurementsInvalid: string :=
    "You must provide a list " + "of measurements " + "and the associated " + "metric name."
  const MeasurementsError: string := "An error occurred inserting " + "measurements"

  function Received(jobId: nat): string {
    "Request for creating Job `" + NatToString(jobId) + "` received"
  }

  /** The reply `post` sends for a step that did not end with a value. */
  function ReplyOf<T>(s: Step<T>): Reply<()>
    requires !s.Ok?
  {
    if s.Refused? then Message(s.message, s.code) else Crashed(s.exception)
  }

  /** The same failure, as a step of another result type. */
  function Propagate<T, U>(s: Step<T>): Step<U>
    requires !s.Ok?
  {
    if s.Refused? then Refused(s.message, s.code) else Threw(s.exception)
  }

  // ---------------------------------------------------------------------
  // The Python operations the handlers apply to request data.

  function KeysOf(d: Dict): (ks: seq<Json>)
    ensures |ks| == |d|
    ensures forall i :: 0 <= i < |d| ==> ks[i] == Str(d[i].0)
  {
    if |d| == 0 then [] else [Str(d[0].0)] + KeysOf(d[1..])
  }

  function CharsOf(s: string): (cs: seq<Json>)
    ensures |cs| == |s|
    ensures forall i :: 0 <= i < |s| ==> cs[i] == Str([s[i]])
  {
    if |s| == 0 then [] else [Str([s[0]])] + CharsOf(s[1..])
  }

  /** What `for x in c` goes through: a dict's keys, a list's items, a
      string's characters; `None` when `c` is not iterable. */
  function PyIter(c: Json): Option<seq<Json>> {
    match c
    case Obj(fields) => Some(KeysOf(fields))
    case Arr(items) => Some(items)
    case Str(s) => Some(CharsOf(s))
    case _ => None
  }

  /** An integer index: Python's `True` and `False` index as 1 and 0. */
  function IntIndex(x: Json): Option<int> {
    match x
    case Num(n) => Some(n)
    case Bool(b) => Some(if b then 1 else 0)
    case _ => None
  }

  /** `c[x]`. A list or string takes an integer index, negative ones counting
      from the end; a dict with string keys takes a string. */
  function PyIndex(c: Json, x: Json): Py<Json> {
    match c
    case Obj(fields) =>
      if x.Str? then (if HasKey(fields, x.s) then Val(Get(fields, x.s).value) else Exc(KeyError))
      else if x.Arr? || x.Obj? then Exc(TypeError)
      else Exc(KeyError)
    case Arr(items) =>
      var k := IntIndex(x);
      if k.None? then Exc(TypeError)
      else if -|items| <= k.value < 0 then Val(items[k.value + |items|])
      else if 0 <= k.value < |items| then Val(items[k.value])
      else Exc(IndexError)
    case Str(s) =>
      var k := IntIndex(x);
      if k.None? then Exc(TypeError)
      else if -|s| <= k.value < 0 then Val(Str([s[k.value + |s|]]))
      else if 0 <= k.value < |s| then Val(Str([s[k.value]]))
      else Exc(IndexError)
    case _ => Exc(TypeError)
  }

  /** A dict key is always found by indexing the dict with it. */
  lemma PyIndexOfKey(fields: Dict, i: nat)
    requires i < |fields|
    ensures PyIndex(Obj(fields), Str(fields[i].0)) == Val(Get(fields, fields[i].0).value)
  {
    assert HasKey(fields, fields[i].0);
  }

  // ---------------------------------------------------------------------
  // check_or_create_env

  /** The environment name `check_or_create_env` looks up. */
  function EnvNameOf(meta: Dict): (r: Step<Json>)
    ensures !HasKey(meta, "env") ==> r == Ok(Str("unknown"))
    ensures r.Refused? ==> r == Refused(MissingEnvName, 400)
    ensures HasKey(meta, "env") && Get(meta, "env").value.Obj? ==>
      var env := Get(meta, "env").value.fields;
      && (r.Ok? <==> HasKey(env, "env_name"))
      && (r.Ok? ==> Get(env, "env_name") == Some(r.value))
      && (!r.Ok? ==> r == Refused(MissingEnvName, 400))
    ensures HasKey(meta, "env") && !Get(meta, "env").value.Obj? ==> !r.Ok?
  {
    if !HasKey(meta, "env") then Ok(Str("unknown"))
    else
      var env := Get(meta, "env").value;
      match PyIn(Str("env_name"), env)
      case None => Threw(TypeError)
      case Some(false) => Refused(MissingEnvName, 400)
      case Some(true) =>
        var name := PyIndex(env, Str("env_name"));
        if name.Val? then Ok(name.v) else Threw(name.name)
  }

  /** Find-or-create of the environment: an env already stored under the
      name is reused, a new one is stored only when there is none, and a
      failed save leaves the table as it was. */
  function ResolveEnv(t: Tables, meta: Dict, saveOk: bool): (r: (Step<nat>, Tables))
    ensures r.1.(envs := t.envs, nextEnvId := t.nextEnvId) == t
    ensures forall n :: n in t.envs ==> n in r.1.envs && r.1.envs[n] == t.envs[n]
    ensures !r.0.Ok? ==> r.1 == t
    ensures !EnvNameOf(meta).Ok? ==> r.0 == Propagate(EnvNameOf(meta))
    ensures EnvNameOf(meta).Ok? ==>
      var name := EnvNameOf(meta).value;
      && (name in t.envs ==> r == (Ok(t.envs[name]), t))
      && (name !in t.envs && !saveOk ==> r.0 == Refused(EnvError, 500))
      && (name !in t.envs && saveOk ==>
            r.0 == Ok(t.nextEnvId) && r.1.envs == t.envs[name := t.nextEnvId] && r.1.nextEnvId == t.nextEnvId + 1)
    ensures r.0.Ok? ==> r.0.value in r.1.envs.Values
  {
    var name := EnvNameOf(meta);
    if !name.Ok? then (Propagate(name), t)
    else if name.value in t.envs then (Ok(t.envs[name.value]), t)
    else if !saveOk then (Refused(EnvError, 500), t)
    else
      var t' := t.(envs := t.envs[name.value := t.nextEnvId], nextEnvId := t.nextEnvId + 1);
      assert t'.envs[name.value] == t.nextEnvId;
      (Ok(t.nextEnvId), t')
  }

  // ---------------------------------------------------------------------
  // create_job

  /** The env metadata stored with the job: `meta["env"]`, or `{}`. */
  function JobEnv(meta: Dict): Json {
    if HasKey(meta, "env") then Get(meta, "env").value else Obj([])
  }

  /** The job's own metadata: the request's meta without "env" and
      "packages", every other entry as it was. */
  function JobMeta(meta: Dict): (r: Dict)
    ensures !HasKey(r, "env") && !HasKey(r, "packages")
    ensures forall k :: k != "env" && k != "packages" ==> Get(r, k) == Get(meta, k)
    ensures UniqueKeys(meta) ==> UniqueKeys(r)
  {
    var withoutEnv := if HasKey(meta, "env") then Remove(meta, "env") else meta;
    Remove(withoutEnv, "packages")
  }

  /** `create_job`: the job is stored under a fresh id with the env id, the
      env metadata and the remaining metadata; "packages" must be present. */
  function NewJob(t: Tables, envId: nat, meta: Dict, saveOk: bool): (r: (Step<nat>, Tables))
    ensures !HasKey(meta, "packages") ==> r == (Refused(MissingPackages, 400), t)
    ensures HasKey(meta, "packages") && !saveOk ==> r == (Refused(JobError, 500), t)
    ensures HasKey(meta, "packages") && saveOk ==>
      && r.0 == Ok(t.nextJobId)
      && r.1 == t.(jobs := t.jobs[t.nextJobId := JobRecord(envId, JobEnv(meta), JobMeta(meta))],
                   nextJobId := t.nextJobId + 1)
  {
    if !HasKey(meta, "packages") then (Refused(MissingPackages, 400), t)
    else if !saveOk then (Refused(JobError, 500), t)
    else
      (Ok(t.nextJobId),
       t.(jobs := t.jobs[t.nextJobId := JobRecord(envId, JobEnv(meta), JobMeta(meta))],
          nextJobId := t.nextJobId + 1))
  }

  // ---------------------------------------------------------------------
  // insert_packages

  /** `**c[key]`: the keyword arguments of one package record. */
  function PackageFields(c: Json, key: Json): Py<Dict> {
    var v := PyIndex(c, key);
    if v.Exc? then Exc(v.name)
    else if !v.v.Obj? then Exc(TypeError)
    else Val(v.v.fields)
  }

  /** The package loop from the `i`-th element of `keys` (what iterating
      `meta["packages"]`, here `c`, goes through) on: how it ends, and the
      records it saves on the way, each `c[key]` unpacked into one record of
      this job. */
  function PackagesFrom(jobId: nat, c: Json, keys: seq<Json>, oks: seq<bool>, i: nat): (r: (Step<()>, seq<PackageRecord>))
    requires i <= |keys|
    ensures |r.1| <= |keys| - i
    decreases |keys| - i
  {
    if i == |keys| then (Ok(()), [])
    else
      var fields := PackageFields(c, keys[i]);
      if fields.Exc? then (Threw(fields.name), [])
      else if !Succeeds(oks, i) then (Refused(PackagesError, 500), [])
      else
        var rest := PackagesFrom(jobId, c, keys, oks, i + 1);
        (rest.0, [PackageRecord(jobId, fields.v)] + rest.1)
  }

  /** The loop saves at most one record per element, each belonging to this
      job, and refuses only with the packages error. */
  lemma {:induction false} PackagesFromRecords(jobId: nat, c: Json, keys: seq<Json>, oks: seq<bool>, i: nat)
    requires i <= |keys|
    ensures var r := PackagesFrom(jobId, c, keys, oks, i);
      && |r.1| <= |keys| - i
      && (forall k :: 0 <= k < |r.1| ==> r.1[k].jobId == jobId)
      && (r.0.Refused? ==> r.0 == Refused(PackagesError, 500))
      && (r.0.Ok? ==> |r.1| == |keys| - i)
    decreases |keys| - i
  {
    if i < |keys| {
      PackagesFromRecords(jobId, c, keys, oks, i + 1);
    }
  }

  /** One turn of the package loop, for a loop that has saved `added` so
      far: it either ends the loop the way `PackagesFrom` says or saves one
      more record. */
  lemma PackagesFromStep(jobId: nat, c: Json, keys: seq<Json>, oks: seq<bool>, i: nat, added: seq<PackageRecord>)
    requires i < |keys|
    requires PackagesFrom(jobId, c, keys, oks, 0).0 == PackagesFrom(jobId, c, keys, oks, i).0
    requires PackagesFrom(jobId, c, keys, oks, 0).1 == added + PackagesFrom(jobId, c, keys, oks, i).1
    ensures var fields := PackageFields(c, keys[i]);
      && (fields.Exc? ==> PackagesFrom(jobId, c, keys, oks, 0) == (Threw(fields.name), added))
      && (fields.Val? && !Succeeds(oks, i) ==> PackagesFrom(jobId, c, keys, oks, 0) == (Refused(PackagesError, 500), added))
      && (fields.Val? && Succeeds(oks, i) ==>
            && PackagesFrom(jobId, c, keys, oks, 0).0 == PackagesFrom(jobId, c, keys, oks, i + 1).0
            && PackagesFrom(jobId, c, keys, oks, 0).1
               == (added + [PackageRecord(jobId, fields.v)]) + PackagesFrom(jobId, c, keys, oks, i + 1).1)
  {
    var fields := PackageFields(c, keys[i]);
    if fields.Val? && Succeeds(oks, i) {
      var rest := PackagesFrom(jobId, c, keys, oks, i + 1).1;
      assert added + ([PackageRecord(jobId, fields.v)] + rest) == (added + [PackageRecord(jobId, fields.v)]) + rest;
    } else {
      assert added + [] == added;
    }
  }

  /** `insert_packages`: the loop's records are appended to the package
      table, nothing else changes. */
  function AddPackages(t: Tables, jobId: nat, meta: Dict, oks: seq<bool>): (r: (Step<()>, Tables))
    ensures r.1.(packages := t.packages) == t
    ensures t.packages <= r.1.packages
    ensures forall k :: |t.packages| <= k < |r.1.packages| ==> r.1.packages[k].jobId == jobId
    ensures r.0.Refused? ==> r.0 == Refused(MissingPackages, 400) || r.0 == Refused(PackagesError, 500)
    ensures !HasKey(meta, "packages") ==> r == (Refused(MissingPackages, 400), t)
  {
    if !HasKey(meta, "packages") then (Refused(MissingPackages, 400), t)
    else
      var c := Get(meta, "packages").value;
      var keys := PyIter(c);
      if keys.None? then (Threw(TypeError), t)
      else
        PackagesFromRecords(jobId, c, keys.value, oks, 0);
        var loop := PackagesFrom(jobId, c, keys.value, oks, 0);
        (loop.0, t.(packages := t.packages + loop.1))
  }

  /** A dict whose every value is a dict, as `**` needs it. */
  predicate DictOfDicts(fields: Dict) {
    forall j :: 0 <= j < |fields| ==> fields[j].1.Obj?
  }

  /** The package record the `j`-th key of `fields` yields. */
  function KeyRecord(jobId: nat, fields: Dict, j: nat): PackageRecord
    requires j < |fields| && DictOfDicts(fields)
  {
    var value := Get(fields, fields[j].0).value;
    assert value.Obj? by {
      var k :| 0 <= k < |fields| && fields[k] == (fields[j].0, value);
    }
    PackageRecord(jobId, value.fields)
  }

  /** The records of the keys from the `i`-th on, in key order. */
  function KeyRecords(jobId: nat, fields: Dict, i: nat): (rs: seq<PackageRecord>)
    requires i <= |fields| && DictOfDicts(fields)
    ensures |rs| == |fields| - i
    decreases |fields| - i
  {
    if i == |fields| then [] else [KeyRecord(jobId, fields, i)] + KeyRecords(jobId, fields, i + 1)
  }

  /** Every save from the `i`-th to the `n`-th (excluded) commits. */
  predicate AllCommit(oks: seq<bool>, i: nat, n: nat)
    decreases n - i
  {
    i >= n || (Succeeds(oks, i) && AllCommit(oks, i + 1, n))
  }

  /** For a dict of dicts whose saves all commit, the loop saves exactly one
      record per key, in key order. */
  lemma {:induction false} PackagesFromOnePerKey(jobId: nat, fields: Dict, oks: seq<bool>, i: nat)
    requires i <= |fields| && DictOfDicts(fields)
    requires AllCommit(oks, i, |fields|)
    ensures PackagesFrom(jobId, Obj(fields), KeysOf(fields), oks, i) == (Ok(()), KeyRecords(jobId, fields, i))
    decreases |fields| - i
  {
    if i < |fields| {
      PyIndexOfKey(fields, i);
      PackagesFromOnePerKey(jobId, fields, oks, i + 1);
    }
  }

  /** `insert_packages` on a dict of dicts whose saves all commit appends one
      record per key of `meta["packages"]`, in key order, and nothing else. */
  lemma PackagesOnePerKey(t: Tables, jobId: nat, meta: Dict, oks: seq<bool>)
    requires HasKey(meta, "packages") && Get(meta, "packages").value.Obj?
    requires DictOfDicts(Get(meta, "packages").value.fields)
    requires AllCommit(oks, 0, |Get(meta, "packages").value.fields|)
    ensures AddPackages(t, jobId, meta, oks)
         == (Ok(()), t.(packages := t.packages + KeyRecords(jobId, Get(meta, "packages").value.fields, 0)))
  {
    PackagesFromOnePerKey(jobId, Get(meta, "packages").value.fields, oks, 0);
  }

  // ---------------------------------------------------------------------
  // Data blobs of a measurement

  /** A blob that is a non-empty dict with an "identifier" and a "name". */
  predicate Qualifies(b: Dict) {
    |b| > 0 && HasKey(b, "identifier") && HasKey(b, "name")
  }

  function BlobOf(b: Dict): Blob
    requires Qualifies(b)
  {
    Blob(Get(b, "identifier").value, Get(b, "name").value)
  }

  /** `identifier in measurement["blob_refs"]`. */
  function Referenced(m: Dict, identifier: Json): Py<bool> {
    if !HasKey(m, "blob_refs") then Exc(KeyError)
    else
      match PyIn(identifier, Get(m, "blob_refs").value)
      case None => Exc(TypeError)
      case Some(b) => Val(b)
  }

  /** The blobs attached to measurement `m`, going through the request's blobs
      in order (defined on the prefix the loop has seen). */
  function BlobsFor(m: Dict, blobs: seq<Dict>): (r: Py<seq<Blob>>)
    ensures r.Val? ==> |r.v| <= |blobs|
    decreases |blobs|
  {
    if |blobs| == 0 then Val([])
    else
      var before := BlobsFor(m, blobs[..|blobs| - 1]);
      var b := blobs[|blobs| - 1];
      if before.Exc? || !Qualifies(b) then before
      else
        match Referenced(m, BlobOf(b).identifier)
        case Exc(e) => Exc(e)
        case Val(false) => before
        case Val(true) => Val(before.v + [BlobOf(b)])
  }

  /** Once a blob raises, the rest of the blobs do not change the outcome. */
  lemma {:induction false} BlobsForRaiseSticks(m: Dict, blobs: seq<Dict>, k: nat)
    requires k <= |blobs|
    requires BlobsFor(m, blobs[..k]).Exc?
    ensures BlobsFor(m, blobs) == BlobsFor(m, blobs[..k])
    decreases |blobs| - k
  {
    if k < |blobs| {
      assert blobs[..k + 1][..k] == blobs[..k];
      BlobsForRaiseSticks(m, blobs, k + 1);
    } else {
      assert blobs[..k] == blobs;
    }
  }

  /** Attaching raises exactly when some qualifying blob's identifier cannot
      be tested against the measurement's `blob_refs` (missing: KeyError; a
      value Python cannot search: TypeError). */
  lemma {:induction false} BlobsForRaisesIff(m: Dict, blobs: seq<Dict>)
    ensures BlobsFor(m, blobs).Exc? <==>
      exists j :: 0 <= j < |blobs| && Qualifies(blobs[j]) && Referenced(m, BlobOf(blobs[j]).identifier).Exc?
    decreases |blobs|
  {
    if |blobs| > 0 {
      var init := blobs[..|blobs| - 1];
      BlobsForRaisesIff(m, init);
      if exists j :: 0 <= j < |init| && Qualifies(init[j]) && Referenced(m, BlobOf(init[j]).identifier).Exc? {
        var j :| 0 <= j < |init| && Qualifies(init[j]) && Referenced(m, BlobOf(init[j]).identifier).Exc?;
        assert blobs[j] == init[j];
      }
      forall j | 0 <= j < |init| ensures blobs[j] == init[j] {}
    }
  }

  /** Without `blob_refs`, attaching either finds no qualifying blob or
      raises KeyError. */
  lemma {:induction false} BlobsForWithoutRefs(m: Dict, blobs: seq<Dict>)
    requires !HasKey(m, "blob_refs")
    ensures BlobsFor(m, blobs) == Val([]) || BlobsFor(m, blobs) == Exc(KeyError)
    decreases |blobs|
  {
    if |blobs| > 0 {
      BlobsForWithoutRefs(m, blobs[..|blobs| - 1]);
    }
  }

  /** A measurement without `blob_refs` raises KeyError as soon as one blob
      qualifies. */
  lemma MissingBlobRefsRaisesKeyError(m: Dict, blobs: seq<Dict>, j: nat)
    requires !HasKey(m, "blob_refs")
    requires j < |blobs| && Qualifies(blobs[j])
    ensures BlobsFor(m, blobs) == Exc(KeyError)
  {
    BlobsForRaisesIff(m, blobs);
    BlobsForWithoutRefs(m, blobs);
  }

  /** Blob `b` is attached to measurement `m`. */
  predicate Attaches(m: Dict, b: Dict) {
    Qualifies(b) && Referenced(m, BlobOf(b).identifier) == Val(true)
  }

  /** Every attached blob comes from a request blob the measurement refers
      to. */
  lemma {:induction false} BlobsForSound(m: Dict, blobs: seq<Dict>)
    requires BlobsFor(m, blobs).Val?
    ensures forall x :: x in BlobsFor(m, blobs).v ==>
      exists j :: 0 <= j < |blobs| && Attaches(m, blobs[j]) && x == BlobOf(blobs[j])
    decreases |blobs|
  {
    if |blobs| > 0 {
      var init := blobs[..|blobs| - 1];
      var before := BlobsFor(m, init);
      assert before.Val?;
      BlobsForSound(m, init);
      forall x | x in BlobsFor(m, blobs).v
        ensures exists j :: 0 <= j < |blobs| && Attaches(m, blobs[j]) && x == BlobOf(blobs[j])
      {
        if x in before.v {
          var j :| 0 <= j < |init| && Attaches(m, init[j]) && x == BlobOf(init[j]);
          assert blobs[j] == init[j];
        } else {
          assert blobs[|blobs| - 1] == blobs[|blobs| - 1];
        }
      }
    }
  }

  /** Every request blob the measurement refers to is attached. */
  lemma {:induction false} BlobsForComplete(m: Dict, blobs: seq<Dict>)
    requires BlobsFor(m, blobs).Val?
    ensures forall j :: 0 <= j < |blobs| && Attaches(m, blobs[j]) ==> BlobOf(blobs[j]) in BlobsFor(m, blobs).v
    decreases |blobs|
  {
    if |blobs| > 0 {
      var init := blobs[..|blobs| - 1];
      assert BlobsFor(m, init).Val?;
      BlobsForComplete(m, init);
      forall j | 0 <= j < |init| ensures blobs[j] == init[j] {}
    }
  }

  /** A measurement gets exactly the qualifying blobs its `blob_refs`
      contains. */
  lemma BlobsForMembers(m: Dict, blobs: seq<Dict>)
    requires BlobsFor(m, blobs).Val?
    ensures forall x :: x in BlobsFor(m, blobs).v <==>
      exists j :: 0 <= j < |blobs| && Attaches(m, blobs[j]) && x == BlobOf(blobs[j])
  {
    BlobsForSound(m, blobs);
    BlobsForComplete(m, blobs);
  }

  /** Blobs are attached in request order: the blobs attached for a list
      are those attached for its first part followed by those for the rest. */
  lemma {:induction false} BlobsForAppend(m: Dict, a: seq<Dict>, b: seq<Dict>)
    requires BlobsFor(m, a).Val? && BlobsFor(m, b).Val?
    ensures BlobsFor(m, a + b) == Val(BlobsFor(m, a).v + BlobsFor(m, b).v)
    decreases |b|
  {
    if |b| == 0 {
      assert a + b == a;
      assert BlobsFor(m, a).v + BlobsFor(m, b).v == BlobsFor(m, a).v;
    } else {
      var init := b[..|b| - 1];
      var last := b[|b| - 1];
      assert (a + b)[..|a + b| - 1] == a + init;
      assert (a + b)[|a + b| - 1] == last;
      assert BlobsFor(m, init).Val?;
      BlobsForAppend(m, a, init);
      if Attaches(m, last) {
        var x, y := BlobsFor(m, a).v, BlobsFor(m, init).v;
        assert x + (y + [BlobOf(last)]) == (x + y) + [BlobOf(last)];
      }
    }
  }

  /** The blob loop of `insert_measurements`. */
  method AttachBlobs(m: Dict, blobs: seq<Dict>) returns (r: Py<seq<Blob>>)
    ensures r == BlobsFor(m, blobs)
  {
    var attached: seq<Blob> := [];
    var i := 0;
    while i < |blobs|
      invariant 0 <= i <= |blobs|
      invariant BlobsFor(m, blobs[..i]) == Val(attached)
    {
      var blob := blobs[i];
      assert blobs[..i + 1][..i] == blobs[..i];
      assert blobs[..i + 1][i] == blob;
      if |blob| > 0 && HasKey(blob, "identifier") && HasKey(blob, "name") {
        var identifier := Get(blob, "identifier").value;
        if !HasKey(m, "blob_refs") {
          BlobsForRaiseSticks(m, blobs, i + 1);
          return Exc(KeyError);
        }
        var found := PyIn(identifier, Get(m, "blob_refs").value);
        if found.None? {
          BlobsForRaiseSticks(m, blobs, i + 1);
          return Exc(TypeError);
        }
        if found.value {
          attached := attached + [Blob(identifier, Get(blob, "name").value)];
        }
      }
      i := i + 1;
    }
    assert blobs[..i] == blobs;
    r := Val(attached);
  }

  // ---------------------------------------------------------------------
  // insert_measurements

  /** A measurement the loop accepts: a non-empty dict with a "metric". */
  predicate Named(m: Dict) {
    |m| > 0 && HasKey(m, "metric")
  }

  /** The catalog name a measurement refers to, when its "metric" is a
      string. */
  function MeasuredMetric(m: Dict): Option<string> {
    if HasKey(m, "metric") && Get(m, "metric").value.Str? then Some(Get(m, "metric").value.s) else None
  }

  predicate KnownMetric(metrics: map<string, Metric.MetricRecord>, m: Dict) {
    MeasuredMetric(m).Some? && MeasuredMetric(m).value in metrics
  }

  /** How many measurements from the `i`-th on name a metric of the catalog. */
  function KnownCount(metrics: map<string, Metric.MetricRecord>, ms: seq<Dict>, i: nat): nat
    requires i <= |ms|
    decreases |ms| - i
  {
    if i == |ms| then 0
    else (if KnownMetric(metrics, ms[i]) then 1 else 0) + KnownCount(metrics, ms, i + 1)
  }

  /** The measurement loop from the `i`-th measurement on: how it ends, and
      the records it saves. A measurement whose metric is not in the catalog
      is skipped. */
  function MeasurementsFrom(
    jobId: nat, metrics: map<string, Metric.MetricRecord>,
    ms: seq<Dict>, blobs: seq<Dict>, oks: seq<bool>, i: nat
  ): (r: (Step<()>, seq<MeasurementRecord>))
    requires i <= |ms|
    ensures |r.1| <= |ms| - i
    decreases |ms| - i
  {
    if i == |ms| then (Ok(()), [])
    else
      var m := ms[i];
      if !Named(m) then (Refused(MeasurementsInvalid, 400), [])
      else if !KnownMetric(metrics, m) then MeasurementsFrom(jobId, metrics, ms, blobs, oks, i + 1)
      else
        var attached := BlobsFor(m, blobs);
        if attached.Exc? then (Threw(attached.name), [])
        else if !Succeeds(oks, i) then (Refused(MeasurementsError, 500), [])
        else
          var record := MeasurementRecord(jobId, metrics[MeasuredMetric(m).value].id, m, attached.v);
          var rest := MeasurementsFrom(jobId, metrics, ms, blobs, oks, i + 1);
          (rest.0, [record] + rest.1)
  }

  /** Each record the loop saves belongs to this job and is linked to the
      catalog metric its measurement names; the loop refuses only with the
      two measurement errors. */
  lemma {:induction false} MeasurementsFromRecords(
    jobId: nat, metrics: map<string, Metric.MetricRecord>,
    ms: seq<Dict>, blobs: seq<Dict>, oks: seq<bool>, i: nat)
    requires i <= |ms|
    ensures var r := MeasurementsFrom(jobId, metrics, ms, blobs, oks, i);
      && (forall k :: 0 <= k < |r.1| ==>
            && r.1[k].jobId == jobId
            && KnownMetric(metrics, r.1[k].fields)
            && r.1[k].metricId == metrics[MeasuredMetric(r.1[k].fields).value].id)
      && (r.0.Refused? ==> r.0 == Refused(MeasurementsInvalid, 400) || r.0 == Refused(MeasurementsError, 500))
    decreases |ms| - i
  {
    if i < |ms| {
      MeasurementsFromRecords(jobId, metrics, ms, blobs, oks, i + 1);
    }
  }

  /** Measurement `j` lets the loop go on: it is named, and when its metric
      is in the catalog its blobs attach and its save commits. */
  predicate Passes(
    metrics: map<string, Metric.MetricRecord>, ms: seq<Dict>, blobs: seq<Dict>, oks: seq<bool>, j: nat)
    requires j < |ms|
  {
    Named(ms[j]) && (KnownMetric(metrics, ms[j]) ==> BlobsFor(ms[j], blobs).Val? && Succeeds(oks, j))
  }

  /** The records saved for `ms[i..k]` when none of them stops the loop: one
      per measurement whose metric is in the catalog, in order, each with the
      measurement's fields, the metric's id and the blobs attached to it. */
  function SavedRecords(
    jobId: nat, metrics: map<string, Metric.MetricRecord>, ms: seq<Dict>, blobs: seq<Dict>, i: nat, k: nat
  ): seq<MeasurementRecord>
    requires i <= k <= |ms|
    decreases k - i
  {
    if i == k then []
    else
      var m := ms[i];
      var attached := BlobsFor(m, blobs);
      var here :=
        if KnownMetric(metrics, m) && attached.Val?
        then [MeasurementRecord(jobId, metrics[MeasuredMetric(m).value].id, m, attached.v)]
        else [];
      here + SavedRecords(jobId, metrics, ms, blobs, i + 1, k)
  }

  /** When the loop completes, every measurement passed, and the records
      saved are exactly one per measurement whose metric is in the catalog,
      in order, as `SavedRecords` builds them. */
  lemma {:induction false} MeasurementsFromCount(
    jobId: nat, metrics: map<string, Metric.MetricRecord>,
    ms: seq<Dict>, blobs: seq<Dict>, oks: seq<bool>, i: nat)
    requires i <= |ms|
    requires MeasurementsFrom(jobId, metrics, ms, blobs, oks, i).0.Ok?
    ensures forall j :: i <= j < |ms| ==> Named(ms[j])
    ensures forall j :: i <= j < |ms| ==> Passes(metrics, ms, blobs, oks, j)
    ensures |MeasurementsFrom(jobId, metrics, ms, blobs, oks, i).1| == KnownCount(metrics, ms, i)
    ensures MeasurementsFrom(jobId, metrics, ms, blobs, oks, i).1 == SavedRecords(jobId, metrics, ms, blobs, i, |ms|)
    decreases |ms| - i
  {
    if i < |ms| {
      MeasurementsFromCount(jobId, metrics, ms, blobs, oks, i + 1);
      assert Passes(metrics, ms, blobs, oks, i);
    }
  }

  /** Conversely, when every measurement passes the loop completes and saves
      exactly `SavedRecords`. */
  lemma {:induction false} MeasurementsFromSaves(
    jobId: nat, metrics: map<string, Metric.MetricRecord>,
    ms: seq<Dict>, blobs: seq<Dict>, oks: seq<bool>, i: nat)
    requires i <= |ms|
    requires forall j :: i <= j < |ms| ==> Passes(metrics, ms, blobs, oks, j)
    ensures MeasurementsFrom(jobId, metrics, ms, blobs, oks, i) == (Ok(()), SavedRecords(jobId, metrics, ms, blobs, i, |ms|))
    decreases |ms| - i
  {
    if i < |ms| {
      assert Passes(metrics, ms, blobs, oks, i);
      MeasurementsFromSaves(jobId, metrics, ms, blobs, oks, i + 1);
      var rest := SavedRecords(jobId, metrics, ms, blobs, i + 1, |ms|);
      assert [] + rest == rest;
    }
  }

  /** A measurement that is empty or has no "metric" aborts the loop with
      400, and the records saved for the measurements before it stay: they
      are exactly `SavedRecords` of those measurements, one per measurement
      when every one of them names a catalog metric. */
  lemma {:induction false} MeasurementsFromStopsAtInvalid(
    jobId: nat, metrics: map<string, Metric.MetricRecord>,
    ms: seq<Dict>, blobs: seq<Dict>, oks: seq<bool>, i: nat, k: nat)
    requires i <= k < |ms| && !Named(ms[k])
    requires forall j :: i <= j < k ==> Passes(metrics, ms, blobs, oks, j)
    ensures MeasurementsFrom(jobId, metrics, ms, blobs, oks, i).0 == Refused(MeasurementsInvalid, 400)
    ensures MeasurementsFrom(jobId, metrics, ms, blobs, oks, i).1 == SavedRecords(jobId, metrics, ms, blobs, i, k)
    ensures (forall j :: i <= j < k ==> KnownMetric(metrics, ms[j])) ==>
      |MeasurementsFrom(jobId, metrics, ms, blobs, oks, i).1| == k - i
    decreases k - i
  {
    if i < k {
      assert Passes(metrics, ms, blobs, oks, i);
      MeasurementsFromStopsAtInvalid(jobId, metrics, ms, blobs, oks, i + 1, k);
    }
  }

  /** One turn of the measurement loop, for a loop that has saved `added`
      so far: it ends the loop the way `MeasurementsFrom` says, skips the
      measurement, or saves one more record. */
  lemma MeasurementsFromStep(
    jobId: nat, metrics: map<string, Metric.MetricRecord>,
    ms: seq<Dict>, blobs: seq<Dict>, oks: seq<bool>, i: nat, added: seq<MeasurementRecord>)
    requires i < |ms|
    requires MeasurementsFrom(jobId, metrics, ms, blobs, oks, 0).0 == MeasurementsFrom(jobId, metrics, ms, blobs, oks, i).0
    requires MeasurementsFrom(jobId, metrics, ms, blobs, oks, 0).1 == added + MeasurementsFrom(jobId, metrics, ms, blobs, oks, i).1
    ensures var m := ms[i];
      var whole := MeasurementsFrom(jobId, metrics, ms, blobs, oks, 0);
      var rest := MeasurementsFrom(jobId, metrics, ms, blobs, oks, i + 1);
      && (!Named(m) ==> whole == (Refused(MeasurementsInvalid, 400), added))
      && (Named(m) && !KnownMetric(metrics, m) ==> whole.0 == rest.0 && whole.1 == added + rest.1)
      && (Named(m) && KnownMetric(metrics, m) ==>
            var attached := BlobsFor(m, blobs);
            && (attached.Exc? ==> whole == (Threw(attached.name), added))
            && (attached.Val? && !Succeeds(oks, i) ==> whole == (Refused(MeasurementsError, 500), added))
            && (attached.Val? && Succeeds(oks, i) ==>
                  var record := MeasurementRecord(jobId, metrics[MeasuredMetric(m).value].id, m, attached.v);
                  whole.0 == rest.0 && whole.1 == (added + [record]) + rest.1))
  {
    var m := ms[i];
    var rest := MeasurementsFrom(jobId, metrics, ms, blobs, oks, i + 1).1;
    if Named(m) && KnownMetric(metrics, m) && BlobsFor(m, blobs).Val? && Succeeds(oks, i) {
      var record := MeasurementRecord(jobId, metrics[MeasuredMetric(m).value].id, m, BlobsFor(m, blobs).v);
      assert added + ([record] + rest) == (added + [record]) + rest;
    } else {
      assert added + [] == added;
    }
  }

  /** `insert_measurements`: the loop's records are appended to the
      measurement table, nothing else changes. */
  function AddMeasurements(
    t: Tables, jobId: nat, metrics: map<string, Metric.MetricRecord>,
    ms: seq<Dict>, blobs: seq<Dict>, oks: seq<bool>
  ): (r: (Step<()>, Tables))
    ensures r.1.(measurements := t.measurements) == t
    ensures t.measurements <= r.1.measurements
    ensures forall k :: |t.measurements| <= k < |r.1.measurements| ==> r.1.measurements[k].jobId == jobId
    ensures r.0.Refused? ==> r.0 == Refused(MeasurementsInvalid, 400) || r.0 == Refused(MeasurementsError, 500)
  {
    MeasurementsFromRecords(jobId, metrics, ms, blobs, oks, 0);
    var loop := MeasurementsFrom(jobId, metrics, ms, blobs, oks, 0);
    (loop.0, t.(measurements := t.measurements + loop.1))
  }

  /** `insert_measurements` on measurements that all pass appends exactly
      `SavedRecords` of them to the measurement table and changes nothing
      else. */
  lemma MeasurementsOnePerKnownMetric(
    t: Tables, jobId: nat, metrics: map<string, Metric.MetricRecord>,
    ms: seq<Dict>, blobs: seq<Dict>, oks: seq<bool>)
    requires forall j :: 0 <= j < |ms| ==> Passes(metrics, ms, blobs, oks, j)
    ensures AddMeasurements(t, jobId, metrics, ms, blobs, oks)
         == (Ok(()), t.(measurements := t.measurements + SavedRecords(jobId, metrics, ms, blobs, 0, |ms|)))
  {
    MeasurementsFromSaves(jobId, metrics, ms, blobs, oks, 0);
  }

  // ---------------------------------------------------------------------
  // Job.post

  /** `Job.post`: the four steps in order, the first failure is the reply;
      on success the job is queued for delivery and the reply is 202. Tables
      written by the steps before a failure keep what they wrote. */
  function Ingest(t: Tables, metrics: map<string, Metric.MetricRecord>, req: Request, saves: Saves): (r: (Reply<()>, Tables))
    ensures r.1.enqueued == t.enqueued || r.1.enqueued == t.enqueued + [t.nextJobId]
  {
    var (env, t1) := ResolveEnv(t, req.meta, saves.env);
    if !env.Ok? then (ReplyOf(env), t1)
    else CreateAndInsert(t1, env.value, metrics, req, saves)
  }

  /** Once the env is known: `create_job`, then the inserts. */
  function CreateAndInsert(
    t: Tables, envId: nat, metrics: map<string, Metric.MetricRecord>, req: Request, saves: Saves
  ): (Reply<()>, Tables) {
    var (job, t1) := NewJob(t, envId, req.meta, saves.job);
    if !job.Ok? then (ReplyOf(job), t1)
    else InsertAndQueue(t1, job.value, metrics, req, saves)
  }

  /** Once the job is stored: the packages, the measurements, then the job
      is queued and the reply is 202. */
  function InsertAndQueue(
    t: Tables, jobId: nat, metrics: map<string, Metric.MetricRecord>, req: Request, saves: Saves
  ): (Reply<()>, Tables) {
    var (pk, t1) := AddPackages(t, jobId, req.meta, saves.packages);
    if !pk.Ok? then (ReplyOf(pk), t1)
    else
      var (ms, t2) := AddMeasurements(t1, jobId, metrics, req.measurements, req.blobs, saves.measurements);
      if !ms.Ok? then (ReplyOf(ms), t2)
      else (Message(Received(jobId), 202), t2.(enqueued := t2.enqueued + [jobId]))
  }

  /** The tables' referential integrity: ids below their counters, every job
      on a stored env, every package, measurement and queued task on a
      stored job. */
  ghost predicate Consistent(t: Tables) {
    && (forall n :: n in t.envs ==> t.envs[n] < t.nextEnvId)
    && (forall id :: id in t.jobs ==> id < t.nextJobId && t.jobs[id].envId in t.envs.Values)
    && (forall k :: 0 <= k < |t.packages| ==> t.packages[k].jobId in t.jobs)
    && (forall k :: 0 <= k < |t.measurements| ==> t.measurements[k].jobId in t.jobs)
    && (forall k :: 0 <= k < |t.enqueued| ==> t.enqueued[k] in t.jobs)
  }

  /** `t2` holds everything `t1` held: stored envs and jobs unchanged, the
      other tables extended at the end. */
  ghost predicate Grows(t1: Tables, t2: Tables) {
    && (forall n :: n in t1.envs ==> n in t2.envs && t2.envs[n] == t1.envs[n])
    && (forall id :: id in t1.jobs ==> id in t2.jobs && t2.jobs[id] == t1.jobs[id])
    && t1.packages <= t2.packages
    && t1.measurements <= t2.measurements
    && t1.enqueued <= t2.enqueued
  }

  lemma GrowsTransitive(t1: Tables, t2: Tables, t3: Tables)
    requires Grows(t1, t2) && Grows(t2, t3)
    ensures Grows(t1, t3)
  {
  }

  /** Each step keeps the tables consistent and only adds to them. */
  lemma ResolveEnvPreserves(t: Tables, meta: Dict, saveOk: bool)
    requires Consistent(t)
    ensures Consistent(ResolveEnv(t, meta, saveOk).1)
    ensures Grows(t, ResolveEnv(t, meta, saveOk).1)
  {
    var t1 := ResolveEnv(t, meta, saveOk).1;
    forall id | id in t1.jobs ensures t1.jobs[id].envId in t1.envs.Values {
      var n :| n in t.envs && t.envs[n] == t.jobs[id].envId;
      assert n in t1.envs && t1.envs[n] == t.envs[n];
    }
  }

  lemma NewJobPreserves(t: Tables, envId: nat, meta: Dict, saveOk: bool)
    requires Consistent(t) && envId in t.envs.Values
    ensures Consistent(NewJob(t, envId, meta, saveOk).1)
    ensures Grows(t, NewJob(t, envId, meta, saveOk).1)
  {
  }

  lemma AddPackagesPreserves(t: Tables, jobId: nat, meta: Dict, oks: seq<bool>)
    requires Consistent(t) && jobId in t.jobs
    ensures Consistent(AddPackages(t, jobId, meta, oks).1)
    ensures Grows(t, AddPackages(t, jobId, meta, oks).1)
  {
    var t' := AddPackages(t, jobId, meta, oks).1;
    forall k | 0 <= k < |t'.packages| ensures t'.packages[k].jobId in t'.jobs {
      if k < |t.packages| {
        assert t'.packages[k] == t.packages[k];
      }
    }
  }

  lemma AddMeasurementsPreserves(
    t: Tables, jobId: nat, metrics: map<string, Metric.MetricRecord>,
    ms: seq<Dict>, blobs: seq<Dict>, oks: seq<bool>)
    requires Consistent(t) && jobId in t.jobs
    ensures Consistent(AddMeasurements(t, jobId, metrics, ms, blobs, oks).1)
    ensures Grows(t, AddMeasurements(t, jobId, metrics, ms, blobs, oks).1)
  {
    var t' := AddMeasurements(t, jobId, metrics, ms, blobs, oks).1;
    forall k | 0 <= k < |t'.measurements| ensures t'.measurements[k].jobId in t'.jobs {
      if k < |t.measurements| {
        assert t'.measurements[k] == t.measurements[k];
      }
    }
  }

  lemma InsertAndQueuePreserves(
    t: Tables, jobId: nat, metrics: map<string, Metric.MetricRecord>, req: Request, saves: Saves)
    requires Consistent(t) && jobId in t.jobs
    ensures Consistent(InsertAndQueue(t, jobId, metrics, req, saves).1)
    ensures Grows(t, InsertAndQueue(t, jobId, metrics, req, saves).1)
  {
    var t' := InsertAndQueue(t, jobId, metrics, req, saves).1;
    var (pk, t1) := AddPackages(t, jobId, req.meta, saves.packages);
    AddPackagesPreserves(t, jobId, req.meta, saves.packages);
    if pk.Ok? {
      var t2 := AddMeasurements(t1, jobId, metrics, req.measurements, req.blobs, saves.measurements).1;
      AddMeasurementsPreserves(t1, jobId, metrics, req.measurements, req.blobs, saves.measurements);
      GrowsTransitive(t, t1, t2);
      assert Grows(t2, t');
      GrowsTransitive(t, t2, t');
    }
  }

  lemma CreateAndInsertPreserves(
    t: Tables, envId: nat, metrics: map<string, Metric.MetricRecord>, req: Request, saves: Saves)
    requires Consistent(t) && envId in t.envs.Values
    ensures Consistent(CreateAndInsert(t, envId, metrics, req, saves).1)
    ensures Grows(t, CreateAndInsert(t, envId, metrics, req, saves).1)
  {
    var (job, t1) := NewJob(t, envId, req.meta, saves.job);
    NewJobPreserves(t, envId, req.meta, saves.job);
    if job.Ok? {
      InsertAndQueuePreserves(t1, job.value, metrics, req, saves);
      GrowsTransitive(t, t1, InsertAndQueue(t1, job.value, metrics, req, saves).1);
    }
  }

  /** Ingestion keeps the tables consistent, and never removes or alters
      what was stored before; a failing request may still leave an env, a
      job, packages or measurements behind. */
  lemma IngestPreservesConsistency(t: Tables, metrics: map<string, Metric.MetricRecord>, req: Request, saves: Saves)
    requires Consistent(t)
    ensures Consistent(Ingest(t, metrics, req, saves).1)
    ensures Grows(t, Ingest(t, metrics, req, saves).1)
  {
    var (env, t1) := ResolveEnv(t, req.meta, saves.env);
    ResolveEnvPreserves(t, req.meta, saves.env);
    if env.Ok? {
      CreateAndInsertPreserves(t1, env.value, metrics, req, saves);
      GrowsTransitive(t, t1, CreateAndInsert(t1, env.value, metrics, req, saves).1);
    }
  }

  /** The reply is 202 exactly when the job was queued; the queued id is the
      new job's, stored with the resolved env and the job metadata. */
  lemma IngestAcceptedIffQueued(t: Tables, metrics: map<string, Metric.MetricRecord>, req: Request, saves: Saves)
    ensures var (reply, t') := Ingest(t, metrics, req, saves);
      (reply.Message? && reply.code == 202) <==> t'.enqueued == t.enqueued + [t.nextJobId]
    ensures var (reply, t') := Ingest(t, metrics, req, saves);
      reply.Message? && reply.code == 202 ==>
        && reply.text == Received(t.nextJobId)
        && t.nextJobId in t'.jobs
        && t'.jobs[t.nextJobId].meta == JobMeta(req.meta)
        && t'.jobs[t.nextJobId].env == JobEnv(req.meta)
        && EnvNameOf(req.meta).Ok? && EnvNameOf(req.meta).value in t'.envs
        && t'.jobs[t.nextJobId].envId == t'.envs[EnvNameOf(req.meta).value]
  {
    var (env, t1) := ResolveEnv(t, req.meta, saves.env);
    if env.Ok? {
      var (job, t2) := NewJob(t1, env.value, req.meta, saves.job);
      if job.Ok? {
        InsertAndQueueReplies(t2, job.value, metrics, req, saves);
      }
    }
  }

  /** The inserts and the queue: 202 exactly when the job is queued, which
      touches neither the envs nor the jobs; otherwise one of the inserts'
      messages or an exception. */
  lemma InsertAndQueueReplies(
    t: Tables, jobId: nat, metrics: map<string, Metric.MetricRecord>, req: Request, saves: Saves)
    ensures var (reply, t') := InsertAndQueue(t, jobId, metrics, req, saves);
      && t'.envs == t.envs && t'.jobs == t.jobs
      && ((reply.Message? && reply.code == 202) <==> t'.enqueued == t.enqueued + [jobId])
      && (reply.Message? ==>
            || reply == Message(Received(jobId), 202)
            || reply == Message(MissingPackages, 400)
            || reply == Message(PackagesError, 500)
            || reply == Message(MeasurementsInvalid, 400)
            || reply == Message(MeasurementsError, 500))
      && !reply.Record?
  {
    var (pk, t1) := AddPackages(t, jobId, req.meta, saves.packages);
    if pk.Ok? {
      var (ms, t2) := AddMeasurements(t1, jobId, metrics, req.measurements, req.blobs, saves.measurements);
      assert t2.enqueued == t.enqueued;
    }
  }

  /** Every reply is 202, one of the steps' 400 and 500 messages, or an
      exception the handler lets through. */
  lemma IngestReplies(t: Tables, metrics: map<string, Metric.MetricRecord>, req: Request, saves: Saves)
    ensures var reply := Ingest(t, metrics, req, saves).0;
      reply.Message? ==>
        || (reply.code == 202 && reply.text == Received(t.nextJobId))
        || reply == Message(MissingEnvName, 400)
        || reply == Message(EnvError, 500)
        || reply == Message(MissingPackages, 400)
        || reply == Message(JobError, 500)
        || reply == Message(PackagesError, 500)
        || reply == Message(MeasurementsInvalid, 400)
        || reply == Message(MeasurementsError, 500)
    ensures !Ingest(t, metrics, req, saves).0.Record?
  {
    var (env, t1) := ResolveEnv(t, req.meta, saves.env);
    if env.Ok? {
      var (job, t2) := NewJob(t1, env.value, req.meta, saves.job);
      if job.Ok? {
        InsertAndQueueReplies(t2, job.value, metrics, req, saves);
      }
    }
  }

  /** No rollback: a request whose meta lacks "packages" is refused with 400,
      but the env it named has been created all the same. */
  lemma EnvKeptWhenPackagesMissing(t: Tables, metrics: map<string, Metric.MetricRecord>, req: Request, saves: Saves)
    requires EnvNameOf(req.meta).Ok? && saves.env
    requires !HasKey(req.meta, "packages")
    ensures var (reply, t') := Ingest(t, metrics, req, saves);
      && reply == Message(MissingPackages, 400)
      && EnvNameOf(req.meta).value in t'.envs
      && t'.jobs == t.jobs
  {
  }

  // ---------------------------------------------------------------------
  // The resource

  /** The `Job` resource handling one request (`self.data`), together with
      the tables it writes and the queue of delivery tasks. */
  class JobResource {
    var data: Request
    var envs: map<Json, nat>
    var nextEnvId: nat
    var jobs: map<nat, JobRecord>
    var nextJobId: nat
    var packages: seq<PackageRecord>
    var measurements: seq<MeasurementRecord>
    var enqueued: seq<nat>
    /** The metric table measurements refer to. */
    const catalog: Metric.MetricCatalog

    function Contents(): Tables
      reads this
    {
      Tables(envs, nextEnvId, jobs, nextJobId, packages, measurements, enqueued)
    }

    ghost predicate Valid()
      reads this
    {
      Consistent(Contents())
    }

    constructor (catalog: Metric.MetricCatalog)
      ensures Valid()
      ensures Contents() == Tables(map[], 0, map[], 0, [], [], [])
      ensures this.catalog == catalog
    {
      data := Request([], [], []);
      envs := map[];
      nextEnvId := 0;
      jobs := map[];
      nextJobId := 0;
      packages := [];
      measurements := [];
      enqueued := [];
      this.catalog := catalog;
    }

    /** `check_or_create_env`. */
    method CheckOrCreateEnv(saveOk: bool) returns (r: Step<nat>)
      modifies this
      ensures data == old(data)
      ensures (r, Contents()) == ResolveEnv(old(Contents()), data.meta, saveOk)
    {
      var name := EnvNameOf(data.meta);
      if !name.Ok? {
        return Propagate(name);
      }
      if name.value in envs {
        return Ok(envs[name.value]);
      }
      if !saveOk {
        return Refused(EnvError, 500);
      }
      var id := nextEnvId;
      envs := envs[name.value := id];
      nextEnvId := nextEnvId + 1;
      r := Ok(id);
    }

    /** `create_job`: pops "env" and deletes "packages" on a copy of meta. */
    method CreateJob(envId: nat, saveOk: bool) returns (r: Step<nat>)
      modifies this
      ensures data == old(data)
      ensures (r, Contents()) == NewJob(old(Contents()), envId, data.meta, saveOk)
    {
      var meta := data.meta;
      var env := Obj([]);
      if HasKey(meta, "env") {
        env := Get(meta, "env").value;
        meta := Remove(meta, "env");
      }
      if !HasKey(meta, "packages") {
        return Refused(MissingPackages, 400);
      }
      meta := Remove(meta, "packages");
      if !saveOk {
        return Refused(JobError, 500);
      }
      var id := nextJobId;
      jobs := jobs[id := JobRecord(envId, env, meta)];
      nextJobId := nextJobId + 1;
      r := Ok(id);
    }

    /** `insert_packages`. */
    method InsertPackages(jobId: nat, oks: seq<bool>) returns (r: Step<()>)
      modifies this
      ensures data == old(data)
      ensures (r, Contents()) == AddPackages(old(Contents()), jobId, data.meta, oks)
    {
      var meta := data.meta;
      if !HasKey(meta, "packages") {
        return Refused(MissingPackages, 400);
      }
      var c := Get(meta, "packages").value;
      var keys := PyIter(c);
      if keys.None? {
        return Threw(TypeError);
      }
      var i := 0;
      ghost var added: seq<PackageRecord> := [];
      while i < |keys.value|
        invariant 0 <= i <= |keys.value|
        invariant data == old(data)
        invariant Contents() == old(Contents()).(packages := old(packages) + added)
        invariant PackagesFrom(jobId, c, keys.value, oks, 0).0 == PackagesFrom(jobId, c, keys.value, oks, i).0
        invariant PackagesFrom(jobId, c, keys.value, oks, 0).1 == added + PackagesFrom(jobId, c, keys.value, oks, i).1
        decreases |keys.value| - i
      {
        var fields := PackageFields(c, keys.value[i]);
        PackagesFromStep(jobId, c, keys.value, oks, i, added);
        if fields.Exc? {
          return Threw(fields.name);
        }
        if !Succeeds(oks, i) {
          return Refused(PackagesError, 500);
        }
        var record := PackageRecord(jobId, fields.v);
        packages := packages + [record];
        added := added + [record];
        i := i + 1;
      }
      assert added + [] == added;
      r := Ok(());
    }

    /** `insert_measurements`. */
    method InsertMeasurements(jobId: nat, oks: seq<bool>) returns (r: Step<()>)
      modifies this
      ensures data == old(data)
      ensures (r, Contents())
           == AddMeasurements(old(Contents()), jobId, catalog.metrics, data.measurements, data.blobs, oks)
    {
      var ms := data.measurements;
      var i := 0;
      ghost var added: seq<MeasurementRecord> := [];
      while i < |ms|
        invariant 0 <= i <= |ms|
        invariant data == old(data)
        invariant Contents() == old(Contents()).(measurements := old(measurements) + added)
        invariant MeasurementsFrom(jobId, catalog.metrics, ms, data.blobs, oks, 0).0
               == MeasurementsFrom(jobId, catalog.metrics, ms, data.blobs, oks, i).0
        invariant MeasurementsFrom(jobId, catalog.metrics, ms, data.blobs, oks, 0).1
               == added + MeasurementsFrom(jobId, catalog.metrics, ms, data.blobs, oks, i).1
        decreases |ms| - i
      {
        var m := ms[i];
        MeasurementsFromStep(jobId, catalog.metrics, ms, data.blobs, oks, i, added);
        if !(|m| > 0 && HasKey(m, "metric")) {
          return Refused(MeasurementsInvalid, 400);
        }
        var metricName := Get(m, "metric").value;
        if metricName.Str? && metricName.s in catalog.metrics {
          var metricId := catalog.metrics[metricName.s].id;
          var attached := AttachBlobs(m, data.blobs);
          if attached.Exc? {
            return Threw(attached.name);
          }
          if !Succeeds(oks, i) {
            return Refused(MeasurementsError, 500);
          }
          var record := MeasurementRecord(jobId, metricId, m, attached.v);
          measurements := measurements + [record];
          added := added + [record];
        }
        i := i + 1;
      }
      assert added + [] == added;
      r := Ok(());
    }

    /** `Job.post`. */
    method Post(request: Request, saves: Saves) returns (reply: Reply<()>)
      requires Valid()
      modifies this
      ensures Valid()
      ensures data == request
      ensures (reply, Contents()) == Ingest(old(Contents()), catalog.metrics, request, saves)
    {
      ghost var t0 := Contents();
      IngestPreservesConsistency(t0, catalog.metrics, request, saves);
      data := request;
      ghost var outcome := Ingest(t0, catalog.metrics, request, saves);
      var env := CheckOrCreateEnv(saves.env);
      if !env.Ok? {
        reply := ReplyOf(env);
        assert (reply, Contents()) == outcome;
      } else {
        ghost var t1 := Contents();
        assert outcome == CreateAndInsert(t1, env.value, catalog.metrics, request, saves);
        var job := CreateJob(env.value, saves.job);
        if !job.Ok? {
          reply := ReplyOf(job);
          assert (reply, Contents()) == outcome;
        } else {
          ghost var t2 := Contents();
          assert outcome == InsertAndQueue(t2, job.value, catalog.metrics, request, saves);
          var pk := InsertPackages(job.value, saves.packages);
          if !pk.Ok? {
            reply := ReplyOf(pk);
            assert (reply, Contents()) == outcome;
          } else {
            ghost var t3 := Contents();
            var ms := InsertMeasurements(job.value, saves.measurements);
            ghost var t4 := Contents();
            assert (ms, t4) == AddMeasurements(t3, job.value, catalog.metrics, request.measurements, request.blobs, saves.measurements);
            if !ms.Ok? {
              reply := ReplyOf(ms);
              assert (reply, Contents()) == outcome;
            } else {
              enqueued := enqueued + [job.value];
              reply := Message(Received(job.value), 202);
              assert Contents() == t4.(enqueued := t4.enqueued + [job.value]);
              assert (reply, Contents()) == outcome;
            }
          }
        }
      }
    }
  }
}
