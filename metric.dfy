/** The metric catalog behind `/metric/<name>` and `/metrics`. The ORM table is
    a map from qualified name to record; whether a `save_to_db` commits is
    supplied by the caller. */
module Metric {
  import opened Common
  import opened Json

  /** How `package, display_name = name.split(".")` unpacks a name: no dot
      leaves one part (the handler answers with a message), more than one dot
      leaves too many parts (Python raises ValueError). */
  datatype QualifiedName = NoDot | Parts(package: string, displayName: string) | TooManyParts

  /** Index of the first `.` in `s`, or `|s|` when there is none. */
  function FirstDot(s: string): (i: nat)
    ensures i <= |s|
    ensures forall j :: 0 <= j < i ==> s[j] != '.'
    ensures i < |s| ==> s[i] == '.'
  {
    if |s| == 0 then 0
    else if s[0] == '.' then 0
    else 1 + FirstDot(s[1..])
  }

  function SplitName(name: string): (q: QualifiedName)
    ensures q.NoDot? <==> '.' !in name
    ensures q.Parts? ==> name == q.package + "." + q.displayName
    ensures q.Parts? ==> '.' !in q.package && '.' !in q.displayName
    ensures q.TooManyParts? <==> exists i, j :: 0 <= i < j < |name| && name[i] == '.' && name[j] == '.'
  {
    var i := FirstDot(name);
    if i == |name| then NoDot
    else if '.' in name[i + 1..] then
      var j :| 0 <= j < |name[i + 1..]| && name[i + 1..][j] == '.';
      assert name[i + 1 + j] == '.';
      TooManyParts
    else
      assert name == name[..i] + "." + name[i + 1..];
      assert forall i', j' :: 0 <= i' < j' < |name| && name[i'] == '.' ==> name[j'] != '.' by {
        forall i', j' | 0 <= i' < j' < |name| && name[i'] == '.' ensures name[j'] != '.' {
          assert i' >= i;
          assert name[i + 1..][j' - i - 1] == name[j'];
        }
      }
      Parts(name[..i], name[i + 1..])
  }

  /** Splitting undoes joining: `p.m` with dot-free `p` and `m` splits into
      package `p` and display name `m`. */
  lemma SplitNameJoin(package: string, displayName: string)
    requires '.' !in package && '.' !in displayName
    ensures SplitName(package + "." + displayName) == Parts(package, displayName)
  {
    var name := package + "." + displayName;
    assert name[|package|] == '.';
    var i := FirstDot(name);
    forall j | 0 <= j < |package| ensures name[j] != '.' {
      assert name[j] == package[j];
    }
    assert i == |package|;
    assert name[..i] == package;
    assert name[i + 1..] == displayName;
  }

  /** The fields the request body may set. */
  datatype MetricArgs = MetricArgs(
    description: Option<string>,
    unit: Option<string>,
    tags: Option<seq<string>>,
    reference: Option<Json>)

  datatype MetricRecord = MetricRecord(
    id: nat,
    name: string,
    package: string,
    displayName: string,
    description: Option<string>,
    unit: Option<string>,
    tags: Option<seq<string>>,
    reference: Option<Json>)

  /** One element of the `/metrics` list; `name` is `None` when the dict has
      no "name" key. */
  datatype MetricItem = MetricItem(name: Option<string>, args: MetricArgs)

  const FullNameRequired: string :=
    "You must provide a full qualified name for" + " the metric, e.g. validate_drp.AM1"
  const ValueError: string := "ValueError"
  const KeyError: string := "KeyError"
  const MetricDeleted: string := "Metric deleted."
  const ListCreated: string := "List of metrics successfully created."

  function AlreadyExists(name: string): string {
    "A metric with name `" + name + "` already exist."
  }

  function CreateError(name: string): string {
    "An error ocurred creating metric `" + name + "`."
  }

  function NotFound(name: string): string {
    "Metric `" + name + "` not found."
  }

  function UpdateError(name: string): string {
    "An error ocurred updating metric `" + name + "`."
  }

  function InsertError(name: string): string {
    "An error occurred inserting metric `" + name + "`."
  }

  /** The record `MetricModel(name, **data)` builds once the name is split. */
  function NewMetric(id: nat, name: string, args: MetricArgs): (m: MetricRecord)
    requires SplitName(name).Parts?
    ensures m.package + "." + m.displayName == name
  {
    var q := SplitName(name);
    MetricRecord(id, name, q.package, q.displayName, args.description, args.unit, args.tags, args.reference)
  }

  /** The catalog invariant: every record sits under its own name, which splits
      into its package and display name, and ids are distinct and below
      `nextId`. */
  ghost predicate WellFormed(metrics: map<string, MetricRecord>, nextId: nat) {
    && (forall n :: n in metrics ==>
          metrics[n].name == n && metrics[n].id < nextId
          && SplitName(n) == Parts(metrics[n].package, metrics[n].displayName))
    && (forall a, b :: a in metrics && b in metrics && a != b ==> metrics[a].id != metrics[b].id)
  }

  /** Storing a new metric under a fresh name with the next id keeps the
      catalog well formed. */
  lemma InsertKeepsWellFormed(metrics: map<string, MetricRecord>, nextId: nat, name: string, args: MetricArgs)
    requires WellFormed(metrics, nextId) && name !in metrics && SplitName(name).Parts?
    ensures WellFormed(metrics[name := NewMetric(nextId, name, args)], nextId + 1)
  {
    var updated := metrics[name := NewMetric(nextId, name, args)];
    forall a, b | a in updated && b in updated && a != b ensures updated[a].id != updated[b].id {
      if a != name && b != name {
        assert updated[a].id == metrics[a].id && updated[b].id == metrics[b].id;
      }
    }
  }

  /** Replacing a stored metric by one with the same identity (id, name,
      package, display name) keeps the catalog well formed. */
  lemma UpdateKeepsWellFormed(metrics: map<string, MetricRecord>, nextId: nat, name: string, metric: MetricRecord)
    requires WellFormed(metrics, nextId) && name in metrics
    requires metric.id == metrics[name].id && metric.name == metrics[name].name
    requires metric.package == metrics[name].package && metric.displayName == metrics[name].displayName
    ensures WellFormed(metrics[name := metric], nextId)
  {
    var updated := metrics[name := metric];
    assert updated.Keys == metrics.Keys;
    forall n | n in updated ensures updated[n].id == metrics[n].id {}
  }

  /** What `MetricList.post` does from the `i`-th element on, with the catalog
      as it stands then: one outcome per element, in order, returning at the
      first element that fails. `attempted` counts the elements looked at. */
  datatype BulkOutcome = BulkOutcome(
    reply: Reply<MetricRecord>,
    metrics: map<string, MetricRecord>,
    nextId: nat,
    attempted: nat)

  function CreateAll(
    metrics: map<string, MetricRecord>, nextId: nat, items: seq<MetricItem>, oks: seq<bool>, i: nat
  ): (r: BulkOutcome)
    requires i <= |items|
    ensures i <= r.attempted <= |items|
    ensures r.reply == Message(ListCreated, 201) ==> r.attempted == |items|
    decreases |items| - i
  {
    if i == |items| then BulkOutcome(Message(ListCreated, 201), metrics, nextId, i)
    else
      var item := items[i];
      if item.name.None? then BulkOutcome(Crashed(KeyError), metrics, nextId, i + 1)
      else
        var name := item.name.value;
        match SplitName(name)
        case NoDot => BulkOutcome(Message(FullNameRequired, DefaultCode), metrics, nextId, i + 1)
        case TooManyParts => BulkOutcome(Crashed(ValueError), metrics, nextId, i + 1)
        case Parts(_, _) =>
          if name in metrics then BulkOutcome(Message(AlreadyExists(name), 400), metrics, nextId, i + 1)
          else if !Succeeds(oks, i) then BulkOutcome(Message(InsertError(name), 500), metrics, nextId, i + 1)
          else CreateAll(metrics[name := NewMetric(nextId, name, item.args)], nextId + 1, items, oks, i + 1)
  }

  /** Element `j` can be created in `metrics`: it has a name with exactly one
      dot, not in the catalog, and its save commits. */
  predicate Creatable(metrics: map<string, MetricRecord>, items: seq<MetricItem>, oks: seq<bool>, j: nat)
    requires j < |items|
  {
    items[j].name.Some? && SplitName(items[j].name.value).Parts?
    && items[j].name.value !in metrics && Succeeds(oks, j)
  }

  /** Every element in `i..k` can be created, and no name repeats among
      them. */
  ghost predicate CreatableBetween(
    metrics: map<string, MetricRecord>, items: seq<MetricItem>, oks: seq<bool>, i: nat, k: nat)
    requires i <= k <= |items|
  {
    && (forall j {:trigger items[j]} :: i <= j < k ==> Creatable(metrics, items, oks, j))
    && (forall j, l :: i <= j < l < k ==> items[j].name != items[l].name)
  }

  /** Every element from `i` on can be created: it has a name with exactly one
      dot, not yet in the catalog, not repeated later in the list, and its save
      commits. */
  ghost predicate AllCreatable(metrics: map<string, MetricRecord>, items: seq<MetricItem>, oks: seq<bool>, i: nat)
    requires i <= |items|
  {
    CreatableBetween(metrics, items, oks, i, |items|)
  }

  /** The catalog once the elements `i..k` have been stored in order, the
      `j`-th with id `nextId + (j - i)`. */
  function Created(metrics: map<string, MetricRecord>, nextId: nat, items: seq<MetricItem>, i: nat, k: nat)
    : map<string, MetricRecord>
    requires i <= k <= |items|
    decreases k - i
  {
    if i == k then metrics
    else
      var item := items[i];
      if item.name.Some? && SplitName(item.name.value).Parts? then
        Created(metrics[item.name.value := NewMetric(nextId, item.name.value, item.args)], nextId + 1, items, i + 1, k)
      else Created(metrics, nextId + 1, items, i + 1, k)
  }

  /** Storing the first of a run of creatable elements leaves the rest
      creatable. */
  lemma CreatableAfterFirst(
    metrics: map<string, MetricRecord>, nextId: nat, items: seq<MetricItem>, oks: seq<bool>, i: nat, k: nat)
    requires i < k <= |items| && CreatableBetween(metrics, items, oks, i, k)
    ensures CreatableBetween(
      metrics[items[i].name.value := NewMetric(nextId, items[i].name.value, items[i].args)], items, oks, i + 1, k)
  {
    var metrics' := metrics[items[i].name.value := NewMetric(nextId, items[i].name.value, items[i].args)];
    forall j | i + 1 <= j < k ensures Creatable(metrics', items, oks, j) {
      assert items[i].name != items[j].name;
    }
  }

  /** What `Created` holds: every earlier metric unchanged, the `j`-th element
      as the record built from it with id `nextId + (j - i)`, and nothing
      else. */
  lemma {:induction false} CreatedRecords(
    metrics: map<string, MetricRecord>, nextId: nat, items: seq<MetricItem>, oks: seq<bool>, i: nat, k: nat)
    requires i <= k <= |items| && CreatableBetween(metrics, items, oks, i, k)
    ensures var c := Created(metrics, nextId, items, i, k);
      forall n :: n in metrics ==> n in c && c[n] == metrics[n]
    ensures var c := Created(metrics, nextId, items, i, k);
      forall j :: i <= j < k ==>
        && items[j].name.value in c
        && c[items[j].name.value] == NewMetric(nextId + (j - i), items[j].name.value, items[j].args)
    ensures var c := Created(metrics, nextId, items, i, k);
      forall n :: n in c ==> n in metrics || exists j :: i <= j < k && items[j].name == Some(n)
    decreases k - i
  {
    if i < k {
      var name := items[i].name.value;
      var metrics' := metrics[name := NewMetric(nextId, name, items[i].args)];
      CreatableAfterFirst(metrics, nextId, items, oks, i, k);
      CreatedStep(metrics, nextId, items, oks, i, k);
      CreatedRecords(metrics', nextId + 1, items, oks, i + 1, k);
    }
  }

  /** A creatable element is stored with the next id and the loop goes on
      with the next element. */
  lemma CreateAllStep(
    metrics: map<string, MetricRecord>, nextId: nat, items: seq<MetricItem>, oks: seq<bool>, i: nat)
    requires i < |items| && Creatable(metrics, items, oks, i)
    ensures CreateAll(metrics, nextId, items, oks, i)
         == CreateAll(metrics[items[i].name.value := NewMetric(nextId, items[i].name.value, items[i].args)],
                      nextId + 1, items, oks, i + 1)
  {
  }

  /** `Created` over `i..k` stores the creatable `i`-th element first. */
  lemma CreatedStep(
    metrics: map<string, MetricRecord>, nextId: nat, items: seq<MetricItem>, oks: seq<bool>, i: nat, k: nat)
    requires i < k <= |items| && Creatable(metrics, items, oks, i)
    ensures Created(metrics, nextId, items, i, k)
         == Created(metrics[items[i].name.value := NewMetric(nextId, items[i].name.value, items[i].args)],
                    nextId + 1, items, i + 1, k)
  {
  }

  /** An element that cannot be created ends the loop there, with the
      catalog and the id counter as they stood. */
  lemma CreateAllStopsHere(
    metrics: map<string, MetricRecord>, nextId: nat, items: seq<MetricItem>, oks: seq<bool>, i: nat)
    requires i < |items| && !Creatable(metrics, items, oks, i)
    ensures var r := CreateAll(metrics, nextId, items, oks, i);
      r.metrics == metrics && r.nextId == nextId && r.attempted == i + 1
  {
  }

  /** Bulk create over a run of creatable elements stores them one by one:
      it then goes on from `k` with the catalog `Created` describes. */
  lemma {:induction false} CreateAllAfterCreated(
    metrics: map<string, MetricRecord>, nextId: nat, items: seq<MetricItem>, oks: seq<bool>, i: nat, k: nat)
    requires i <= k <= |items| && CreatableBetween(metrics, items, oks, i, k)
    ensures CreateAll(metrics, nextId, items, oks, i)
         == CreateAll(Created(metrics, nextId, items, i, k), nextId + (k - i), items, oks, k)
    decreases k - i
  {
    if i < k {
      var name := items[i].name.value;
      var metrics' := metrics[name := NewMetric(nextId, name, items[i].args)];
      CreatableAfterFirst(metrics, nextId, items, oks, i, k);
      assert Creatable(metrics, items, oks, i);
      CreateAllStep(metrics, nextId, items, oks, i);
      CreatedStep(metrics, nextId, items, oks, i, k);
      CreateAllAfterCreated(metrics', nextId + 1, items, oks, i + 1, k);
    }
  }

  /** `MetricList.post` stops at the first element `k` that cannot be
      created: it answers with that element's own error, having looked at
      `k + 1` elements, and the metrics created for the elements before it
      stay. */
  lemma CreateAllStopsAtFirstFailure(
    metrics: map<string, MetricRecord>, nextId: nat, items: seq<MetricItem>, oks: seq<bool>, k: nat)
    requires k < |items| && CreatableBetween(metrics, items, oks, 0, k)
    requires !Creatable(Created(metrics, nextId, items, 0, k), items, oks, k)
    ensures var r := CreateAll(metrics, nextId, items, oks, 0);
      r.attempted == k + 1 && r.metrics == Created(metrics, nextId, items, 0, k) && r.nextId == nextId + k
    ensures items[k].name.None? ==> CreateAll(metrics, nextId, items, oks, 0).reply == Crashed(KeyError)
    ensures items[k].name.Some? ==>
      var name := items[k].name.value;
      var r := CreateAll(metrics, nextId, items, oks, 0);
      var c := Created(metrics, nextId, items, 0, k);
      && (SplitName(name).NoDot? ==> r.reply == Message(FullNameRequired, DefaultCode))
      && (SplitName(name).TooManyParts? ==> r.reply == Crashed(ValueError))
      && (SplitName(name).Parts? && name in c ==> r.reply == Message(AlreadyExists(name), 400))
      && (SplitName(name).Parts? && name !in c ==> r.reply == Message(InsertError(name), 500))
  {
    CreateAllAfterCreated(metrics, nextId, items, oks, 0, k);
  }

  /** A name repeated within the list fails at its second occurrence: the
      first one was stored, so the second is refused as already existing. */
  lemma CreateAllRepeatedNameFails(
    metrics: map<string, MetricRecord>, nextId: nat, items: seq<MetricItem>, oks: seq<bool>, j: nat, k: nat)
    requires j < k < |items| && CreatableBetween(metrics, items, oks, 0, k)
    requires items[k].name == items[j].name
    ensures var r := CreateAll(metrics, nextId, items, oks, 0);
      r.reply == Message(AlreadyExists(items[k].name.value), 400) && r.attempted == k + 1
  {
    CreatedRecords(metrics, nextId, items, oks, 0, k);
    CreateAllStopsAtFirstFailure(metrics, nextId, items, oks, k);
  }

  /** The names of the elements from `i` on. */
  function NamesFrom(items: seq<MetricItem>, i: nat): set<string>
    requires i <= |items|
    decreases |items| - i
  {
    if i == |items| then {}
    else (if items[i].name.Some? then {items[i].name.value} else {}) + NamesFrom(items, i + 1)
  }

  /** Earlier inserts are never undone: the bulk create only adds records, and
      only under names from the list. */
  lemma {:induction false} CreateAllOnlyAdds(
    metrics: map<string, MetricRecord>, nextId: nat, items: seq<MetricItem>, oks: seq<bool>, i: nat)
    requires i <= |items|
    ensures var r := CreateAll(metrics, nextId, items, oks, i);
      forall n :: n in metrics ==> n in r.metrics && r.metrics[n] == metrics[n]
    ensures var r := CreateAll(metrics, nextId, items, oks, i);
      forall n :: n in r.metrics ==> n in metrics || n in NamesFrom(items, i)
    ensures CreateAll(metrics, nextId, items, oks, i).nextId >= nextId
    decreases |items| - i
  {
    if i < |items| {
      if Creatable(metrics, items, oks, i) {
        var name := items[i].name.value;
        CreateAllStep(metrics, nextId, items, oks, i);
        CreateAllOnlyAdds(metrics[name := NewMetric(nextId, name, items[i].args)], nextId + 1, items, oks, i + 1);
      } else {
        CreateAllStopsHere(metrics, nextId, items, oks, i);
      }
    }
  }

  /** The success message differs from every message that reports a failure. */
  lemma ListCreatedIsNoFailure()
    ensures ListCreated != FullNameRequired
    ensures forall name :: ListCreated != AlreadyExists(name) && ListCreated != InsertError(name)
  {
    assert ListCreated[0] == 'L';
    assert FullNameRequired[0] == 'Y';
    forall name ensures ListCreated != AlreadyExists(name) && ListCreated != InsertError(name) {
      assert AlreadyExists(name)[0] == 'A' && InsertError(name)[0] == 'A';
    }
  }

  /** The bulk create answers 201 only when every element can be created; in
      particular a name repeated within the list fails at its second
      occurrence. */
  lemma {:induction false} CreateAllSuccessNeedsCreatable(
    metrics: map<string, MetricRecord>, nextId: nat, items: seq<MetricItem>, oks: seq<bool>, i: nat)
    requires i <= |items|
    requires CreateAll(metrics, nextId, items, oks, i).reply == Message(ListCreated, 201)
    ensures AllCreatable(metrics, items, oks, i)
    decreases |items| - i
  {
    if i < |items| {
      var item := items[i];
      ListCreatedIsNoFailure();
      assert Creatable(metrics, items, oks, i);
      var name := item.name.value;
      var metrics' := metrics[name := NewMetric(nextId, name, item.args)];
      CreateAllStep(metrics, nextId, items, oks, i);
      CreateAllSuccessNeedsCreatable(metrics', nextId + 1, items, oks, i + 1);
      forall l | i < l < |items| ensures items[l].name != item.name {
        assert items[l].name.value !in metrics';
      }
      forall j | i <= j < |items| ensures Creatable(metrics, items, oks, j) {
        if j > i {
          assert Creatable(metrics', items, oks, j);
        }
      }
    }
  }

  /** When every element can be created the bulk create looks at all of them,
      answers 201, and the catalog gains exactly the listed names. */
  lemma {:induction false} CreatableCreatesAll(
    metrics: map<string, MetricRecord>, nextId: nat, items: seq<MetricItem>, oks: seq<bool>, i: nat)
    requires i <= |items|
    requires AllCreatable(metrics, items, oks, i)
    ensures CreateAll(metrics, nextId, items, oks, i).reply == Message(ListCreated, 201)
    ensures CreateAll(metrics, nextId, items, oks, i).metrics.Keys == metrics.Keys + NamesFrom(items, i)
    ensures CreateAll(metrics, nextId, items, oks, i).attempted == |items|
    ensures CreateAll(metrics, nextId, items, oks, i).metrics == Created(metrics, nextId, items, i, |items|)
    ensures CreateAll(metrics, nextId, items, oks, i).nextId == nextId + (|items| - i)
    decreases |items| - i
  {
    CreateAllAfterCreated(metrics, nextId, items, oks, i, |items|);
    if i < |items| {
      var item := items[i];
      var name := item.name.value;
      var metrics' := metrics[name := NewMetric(nextId, name, item.args)];
      CreatableAfterFirst(metrics, nextId, items, oks, i, |items|);
      CreatableCreatesAll(metrics', nextId + 1, items, oks, i + 1);
    }
  }

  /** Elements after the one the bulk create stopped at are never looked at:
      cutting them off changes nothing. */
  lemma {:induction false} CreateAllIgnoresRest(
    metrics: map<string, MetricRecord>, nextId: nat, items: seq<MetricItem>, oks: seq<bool>, i: nat)
    requires i <= |items|
    ensures var r := CreateAll(metrics, nextId, items, oks, i);
      i <= r.attempted <= |items|
      && CreateAll(metrics, nextId, items[..r.attempted], oks, i) == r
    decreases |items| - i
  {
    var r := CreateAll(metrics, nextId, items, oks, i);
    if i < |items| {
      var item := items[i];
      if item.name.Some? && SplitName(item.name.value).Parts? && item.name.value !in metrics && Succeeds(oks, i) {
        var name := item.name.value;
        var metrics' := metrics[name := NewMetric(nextId, name, item.args)];
        CreateAllIgnoresRest(metrics', nextId + 1, items, oks, i + 1);
        assert items[..r.attempted][i] == item;
      } else {
        assert items[..r.attempted][i] == item;
      }
    } else {
      assert items[..r.attempted] == items;
    }
  }

  class MetricCatalog {
    var metrics: map<string, MetricRecord>
    var nextId: nat

    ghost predicate Valid()
      reads this
    {
      WellFormed(metrics, nextId)
    }

    constructor ()
      ensures Valid() && metrics == map[] && nextId == 0
    {
      metrics := map[];
      nextId := 0;
    }

    /** `Metric.post`: create the metric `name` unless the name is not
        qualified, already taken, or the save fails. */
    method Post(name: string, args: MetricArgs, saveOk: bool) returns (reply: Reply<MetricRecord>)
      requires Valid()
      modifies this
      ensures Valid()
      ensures SplitName(name).NoDot? ==>
        reply == Message(FullNameRequired, DefaultCode) && unchanged(this)
      ensures SplitName(name).TooManyParts? ==> reply == Crashed(ValueError) && unchanged(this)
      ensures SplitName(name).Parts? && name in old(metrics) ==>
        reply == Message(AlreadyExists(name), 400) && unchanged(this)
      ensures SplitName(name).Parts? && name !in old(metrics) && !saveOk ==>
        reply == Message(CreateError(name), 500) && unchanged(this)
      ensures SplitName(name).Parts? && name !in old(metrics) && saveOk ==>
        && reply == Record(NewMetric(old(nextId), name, args), 201)
        && metrics == old(metrics)[name := NewMetric(old(nextId), name, args)]
        && nextId == old(nextId) + 1
    {
      var q := SplitName(name);
      if q.NoDot? {
        return Message(FullNameRequired, DefaultCode);
      }
      if q.TooManyParts? {
        return Crashed(ValueError);
      }
      if name in metrics {
        return Message(AlreadyExists(name), 400);
      }
      var metric := NewMetric(nextId, name, args);
      if !saveOk {
        return Message(CreateError(name), 500);
      }
      InsertKeepsWellFormed(metrics, nextId, name, args);
      metrics := metrics[name := metric];
      nextId := nextId + 1;
      reply := Record(metric, 201);
    }

    /** `Metric.put`: replace the description, unit, tags and reference of an
        existing metric; its id, name, package and display name stay. */
    method Put(name: string, args: MetricArgs, saveOk: bool) returns (reply: Reply<MetricRecord>)
      requires Valid()
      modifies this
      ensures Valid()
      ensures nextId == old(nextId)
      ensures name !in old(metrics) ==> reply == Message(NotFound(name), 404) && unchanged(this)
      ensures name in old(metrics) && !saveOk ==> reply == Message(UpdateError(name), 500) && unchanged(this)
      ensures name in old(metrics) && saveOk ==>
        var m := old(metrics)[name];
        && metrics.Keys == old(metrics).Keys
        && (forall n :: n in metrics && n != name ==> metrics[n] == old(metrics)[n])
        && metrics[name].id == m.id && metrics[name].name == m.name
        && metrics[name].package == m.package && metrics[name].displayName == m.displayName
        && metrics[name].description == args.description && metrics[name].unit == args.unit
        && metrics[name].tags == args.tags && metrics[name].reference == args.reference
        && reply == Record(metrics[name], 200)
    {
      if name !in metrics {
        return Message(NotFound(name), 404);
      }
      var metric := metrics[name].(description := args.description, unit := args.unit,
                                   tags := args.tags, reference := args.reference);
      if !saveOk {
        return Message(UpdateError(name), 500);
      }
      UpdateKeepsWellFormed(metrics, nextId, name, metric);
      metrics := metrics[name := metric];
      reply := Record(metric, 200);
    }

    /** `Metric.delete`. */
    method Delete(name: string) returns (reply: Reply<MetricRecord>)
      requires Valid()
      modifies this
      ensures Valid()
      ensures nextId == old(nextId)
      ensures name !in old(metrics) ==> reply == Message(NotFound(name), 404) && unchanged(this)
      ensures name in old(metrics) ==>
        reply == Message(MetricDeleted, DefaultCode) && metrics == old(metrics) - {name}
    {
      if name !in metrics {
        return Message(NotFound(name), 404);
      }
      metrics := metrics - {name};
      reply := Message(MetricDeleted, DefaultCode);
    }

    /** `MetricList.post`: create the listed metrics in order, returning at
        the first element that fails; metrics created before it stay. */
    method PostList(items: seq<MetricItem>, oks: seq<bool>) returns (reply: Reply<MetricRecord>)
      requires Valid()
      modifies this
      ensures Valid()
      ensures var r := CreateAll(old(metrics), old(nextId), items, oks, 0);
        reply == r.reply && metrics == r.metrics && nextId == r.nextId
    {
      var i := 0;
      while i < |items|
        invariant 0 <= i <= |items|
        invariant Valid()
        invariant CreateAll(metrics, nextId, items, oks, i) == CreateAll(old(metrics), old(nextId), items, oks, 0)
        decreases |items| - i
      {
        var item := items[i];
        if item.name.None? {
          return Crashed(KeyError);
        }
        var name := item.name.value;
        var q := SplitName(name);
        if q.NoDot? {
          return Message(FullNameRequired, DefaultCode);
        }
        if q.TooManyParts? {
          return Crashed(ValueError);
        }
        if name in metrics {
          return Message(AlreadyExists(name), 400);
        }
        var metric := NewMetric(nextId, name, item.args);
        if !Succeeds(oks, i) {
          return Message(InsertError(name), 500);
        }
        InsertKeepsWellFormed(metrics, nextId, name, item.args);
        metrics := metrics[name := metric];
        nextId := nextId + 1;
        i := i + 1;
      }
      reply := Message(ListCreated, 201);
    }
  }
}
