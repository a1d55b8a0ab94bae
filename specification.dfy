/** The metric-specification catalog behind `/spec/<name>` and `/specs`. A
    specification is named after its metric plus one more dotted part; the
    metric is looked up in the metric catalog. */
module Specification {
  import opened Common
  import opened Json
  import Metric

  /** Index of the last `.` in `s`, or -1 when there is none. */
  function LastDot(s: string): (i: int)
    ensures -1 <= i < |s|
    ensures i >= 0 ==> s[i] == '.'
    ensures forall j :: i < j < |s| ==> s[j] != '.'
  {
    if |s| == 0 then -1
    else if s[|s| - 1] == '.' then |s| - 1
    else LastDot(s[..|s| - 1])
  }

  /** `name.rsplit(".", 1)[0]`, the associated metric's name: everything before
      the last dot. `None` when the name has no dot. */
  function MetricNameOf(name: string): (m: Option<string>)
    ensures m.None? <==> '.' !in name
    ensures m.Some? ==> |m.value| < |name| && name[..|m.value|] == m.value && name[|m.value|] == '.'
    ensures m.Some? ==> '.' !in name[|m.value| + 1..]
  {
    var i := LastDot(name);
    if i < 0 then None
    else
      var suffix := name[i + 1..];
      assert '.' !in suffix by {
        forall k | 0 <= k < |suffix| ensures suffix[k] != '.' {
          assert suffix[k] == name[i + 1 + k];
        }
      }
      Some(name[..i])
  }

  /** The metric name is recovered from `metric.spec` whatever dots the metric
      name holds, as long as the last part has none. */
  lemma MetricNameOfJoin(metric: string, spec: string)
    requires '.' !in spec
    ensures MetricNameOf(metric + "." + spec) == Some(metric)
  {
    var name := metric + "." + spec;
    assert name[|metric|] == '.';
    forall j | |metric| < j < |name| ensures name[j] != '.' {
      assert name[j] == spec[j - |metric| - 1];
    }
    var i := LastDot(name);
    assert i == |metric|;
    assert name[..i] == metric;
  }

  /** The example of the API's documentation. */
  lemma MetricNameOfExample()
    ensures MetricNameOf("validate_drp.AM1" + "." + "minimum_gri") == Some("validate_drp.AM1")
  {
    MetricNameOfJoin("validate_drp.AM1", "minimum_gri");
  }

  /** The fields the request body may set. */
  datatype SpecArgs = SpecArgs(threshold: Option<Json>, tags: Option<seq<string>>, metadataQuery: Option<Json>)

  datatype SpecRecord = SpecRecord(
    id: nat,
    name: string,
    metricId: nat,
    threshold: Option<Json>,
    tags: Option<seq<string>>,
    metadataQuery: Option<Json>)

  /** One element of the `/specs` list; `name` is `None` when the dict has no
      "name" key (`data.pop("name")` raises KeyError). */
  datatype SpecItem = SpecItem(name: Option<string>, args: SpecArgs)

  const FullNameRequired: string :=
    "You must provide a full " + "qualified name for the" + " specification, e.g. " + "validate_drp.AM1.minimum_gri."
  const KeyError: string := "KeyError"
  const SpecDeleted: string := "Metric specification deleted."
  const ListCreated: string := "List of metric " + "specificationss successfully " + "created."

  function MetricNotFound(metricName: string): string {
    "Metric `" + metricName + "` not found. You must provide a valid "
    + "name for the metric associated with this " + "specification."
  }

  function AlreadyExists(name: string): string {
    "A specification with name `" + name + "` already " + "exist."
  }

  function CreateError(name: string): string {
    "An error ocurred creating `" + name + "`"
  }

  function NotFound(name: string): string {
    "Specification `" + name + "` not found."
  }

  function UpdateError(name: string): string {
    "An error ocurred updating `" + name + "`"
  }

  function InsertError(name: string): string {
    "An error ocurred creating this metric " + "specification `" + name + "`."
  }

  function NewSpec(id: nat, name: string, metricId: nat, args: SpecArgs): SpecRecord {
    SpecRecord(id, name, metricId, args.threshold, args.tags, args.metadataQuery)
  }

  /** The catalog invariant: every record sits under its own name, which has a
      dot, and ids are distinct and below `nextId`. */
  ghost predicate WellFormed(specs: map<string, SpecRecord>, nextId: nat) {
    && (forall n :: n in specs ==> specs[n].name == n && specs[n].id < nextId && '.' in n)
    && (forall a, b :: a in specs && b in specs && a != b ==> specs[a].id != specs[b].id)
  }

  /** The metric an element of the list would be linked to, if it exists. */
  predicate KnownMetric(metrics: map<string, Metric.MetricRecord>, name: string) {
    var m := MetricNameOf(name);
    m.Some? && m.value in metrics
  }

  /** What `SpecificationList.post` does from the `i`-th element on, with the
      catalog as it stands then. An element whose metric is unknown is skipped
      (the `continue` makes the 400 reply after it unreachable). */
  datatype BulkOutcome = BulkOutcome(
    reply: Reply<SpecRecord>,
    specs: map<string, SpecRecord>,
    nextId: nat,
    attempted: nat)

  function CreateAll(
    specs: map<string, SpecRecord>, nextId: nat, metrics: map<string, Metric.MetricRecord>,
    items: seq<SpecItem>, oks: seq<bool>, i: nat
  ): (r: BulkOutcome)
    requires i <= |items|
    ensures i <= r.attempted <= |items|
    ensures r.reply == Message(ListCreated, 201) ==> r.attempted == |items|
    decreases |items| - i
  {
    if i == |items| then BulkOutcome(Message(ListCreated, 201), specs, nextId, i)
    else
      var item := items[i];
      if item.name.None? then BulkOutcome(Crashed(KeyError), specs, nextId, i + 1)
      else
        var name := item.name.value;
        var metricName := MetricNameOf(name);
        if metricName.None? then BulkOutcome(Message(FullNameRequired, DefaultCode), specs, nextId, i + 1)
        else if metricName.value !in metrics then CreateAll(specs, nextId, metrics, items, oks, i + 1)
        else if name in specs then BulkOutcome(Message(AlreadyExists(name), 400), specs, nextId, i + 1)
        else if !Succeeds(oks, i) then BulkOutcome(Message(InsertError(name), 500), specs, nextId, i + 1)
        else
          var spec := NewSpec(nextId, name, metrics[metricName.value].id, item.args);
          CreateAll(specs[name := spec], nextId + 1, metrics, items, oks, i + 1)
  }

  /** The names, from the `i`-th element on, whose metric is in the catalog. */
  function KnownNamesFrom(metrics: map<string, Metric.MetricRecord>, items: seq<SpecItem>, i: nat): set<string>
    requires i <= |items|
    decreases |items| - i
  {
    if i == |items| then {}
    else
      (if items[i].name.Some? && KnownMetric(metrics, items[i].name.value) then {items[i].name.value} else {})
      + KnownNamesFrom(metrics, items, i + 1)
  }

  /** Element `j` passes in `specs`: it has a name with a dot, and unless its
      metric is unknown (then it is skipped) the name is new and its save
      commits. */
  predicate Creatable(
    specs: map<string, SpecRecord>, metrics: map<string, Metric.MetricRecord>,
    items: seq<SpecItem>, oks: seq<bool>, j: nat)
    requires j < |items|
  {
    && items[j].name.Some? && '.' in items[j].name.value
    && (KnownMetric(metrics, items[j].name.value) ==> items[j].name.value !in specs && Succeeds(oks, j))
  }

  /** Every element in `i..k` passes, and no name whose metric exists
      repeats among them. */
  ghost predicate CreatableBetween(
    specs: map<string, SpecRecord>, metrics: map<string, Metric.MetricRecord>,
    items: seq<SpecItem>, oks: seq<bool>, i: nat, k: nat)
    requires i <= k <= |items|
  {
    && (forall j {:trigger items[j]} :: i <= j < k ==> Creatable(specs, metrics, items, oks, j))
    && (forall j, l :: i <= j < l < k && KnownMetric(metrics, items[j].name.value) ==>
          items[j].name != items[l].name)
  }

  /** Every element from `i` on passes: it has a name with a dot, and unless
      its metric is unknown (then it is skipped) the name is new, not repeated
      later, and its save commits. */
  ghost predicate AllCreatable(
    specs: map<string, SpecRecord>, metrics: map<string, Metric.MetricRecord>,
    items: seq<SpecItem>, oks: seq<bool>, i: nat)
    requires i <= |items|
  {
    CreatableBetween(specs, metrics, items, oks, i, |items|)
  }

  /** How many of the elements `i..j` name a metric of the catalog. */
  function KnownBetween(metrics: map<string, Metric.MetricRecord>, items: seq<SpecItem>, i: nat, j: nat): nat
    requires i <= j <= |items|
    decreases j - i
  {
    if i == j then 0
    else
      (if items[i].name.Some? && KnownMetric(metrics, items[i].name.value) then 1 else 0)
      + KnownBetween(metrics, items, i + 1, j)
  }

  /** The catalog after one element has gone through the loop: stored when
      its metric exists, skipped otherwise. */
  function StoreFirst(
    specs: map<string, SpecRecord>, nextId: nat, metrics: map<string, Metric.MetricRecord>, item: SpecItem
  ): map<string, SpecRecord>
  {
    if item.name.Some? && KnownMetric(metrics, item.name.value) then
      specs[item.name.value := NewSpec(nextId, item.name.value, metrics[MetricNameOf(item.name.value).value].id, item.args)]
    else specs
  }

  /** The catalog and the id counter once the elements `i..k` whose metric
      exists have been stored in order; the others are skipped. */
  function Created(
    specs: map<string, SpecRecord>, nextId: nat, metrics: map<string, Metric.MetricRecord>,
    items: seq<SpecItem>, i: nat, k: nat
  ): (map<string, SpecRecord>, nat)
    requires i <= k <= |items|
    decreases k - i
  {
    if i == k then (specs, nextId)
    else
      var stored := items[i].name.Some? && KnownMetric(metrics, items[i].name.value);
      Created(StoreFirst(specs, nextId, metrics, items[i]), if stored then nextId + 1 else nextId, metrics, items, i + 1, k)
  }

  /** Passing the first of a run of passing elements leaves the rest
      passing. */
  lemma CreatableAfterFirst(
    specs: map<string, SpecRecord>, nextId: nat, metrics: map<string, Metric.MetricRecord>,
    items: seq<SpecItem>, oks: seq<bool>, i: nat, k: nat)
    requires i < k <= |items| && CreatableBetween(specs, metrics, items, oks, i, k)
    ensures CreatableBetween(StoreFirst(specs, nextId, metrics, items[i]), metrics, items, oks, i + 1, k)
  {
    var specs' := StoreFirst(specs, nextId, metrics, items[i]);
    forall j | i + 1 <= j < k ensures Creatable(specs', metrics, items, oks, j) {
      if KnownMetric(metrics, items[i].name.value) {
        assert items[i].name != items[j].name;
      }
    }
  }

  /** What `Created` holds: every earlier spec unchanged, and each element
      whose metric exists as the record built from it, linked to that metric
      and numbered in order from `nextId`. */
  lemma {:induction false} CreatedRecords(
    specs: map<string, SpecRecord>, nextId: nat, metrics: map<string, Metric.MetricRecord>,
    items: seq<SpecItem>, oks: seq<bool>, i: nat, k: nat)
    requires i <= k <= |items| && CreatableBetween(specs, metrics, items, oks, i, k)
    ensures var c := Created(specs, nextId, metrics, items, i, k).0;
      forall n :: n in specs ==> n in c && c[n] == specs[n]
    ensures var c := Created(specs, nextId, metrics, items, i, k).0;
      forall j :: i <= j < k && KnownMetric(metrics, items[j].name.value) ==>
        var name := items[j].name.value;
        && name in c
        && c[name] == NewSpec(nextId + KnownBetween(metrics, items, i, j), name,
                              metrics[MetricNameOf(name).value].id, items[j].args)
    decreases k - i
  {
    if i < k {
      var specs' := StoreFirst(specs, nextId, metrics, items[i]);
      CreatableAfterFirst(specs, nextId, metrics, items, oks, i, k);
      var name := items[i].name.value;
      if KnownMetric(metrics, name) {
        assert Created(specs, nextId, metrics, items, i, k) == Created(specs', nextId + 1, metrics, items, i + 1, k);
        assert specs' == specs[name := NewSpec(nextId, name, metrics[MetricNameOf(name).value].id, items[i].args)];
        CreatedRecords(specs', nextId + 1, metrics, items, oks, i + 1, k);
      } else {
        assert Created(specs, nextId, metrics, items, i, k) == Created(specs, nextId, metrics, items, i + 1, k);
        CreatedRecords(specs, nextId, metrics, items, oks, i + 1, k);
      }
    }
  }

  /** `Created` adds only listed names whose metric exists, and advances the
      counter by one per such element. */
  lemma {:induction false} CreatedOnlyListed(
    specs: map<string, SpecRecord>, nextId: nat, metrics: map<string, Metric.MetricRecord>,
    items: seq<SpecItem>, i: nat, k: nat)
    requires i <= k <= |items|
    ensures var c := Created(specs, nextId, metrics, items, i, k).0;
      forall n :: n in c ==>
        n in specs || exists j :: i <= j < k && items[j].name == Some(n) && KnownMetric(metrics, n)
    ensures Created(specs, nextId, metrics, items, i, k).1 == nextId + KnownBetween(metrics, items, i, k)
    decreases k - i
  {
    if i < k {
      var stored := items[i].name.Some? && KnownMetric(metrics, items[i].name.value);
      CreatedOnlyListed(StoreFirst(specs, nextId, metrics, items[i]), if stored then nextId + 1 else nextId,
                        metrics, items, i + 1, k);
    }
  }

  /** Bulk create over a run of passing elements stores those whose metric
      exists one by one: it then goes on from `k` with the catalog and
      counter `Created` describes. */
  lemma {:induction false} CreateAllAfterCreated(
    specs: map<string, SpecRecord>, nextId: nat, metrics: map<string, Metric.MetricRecord>,
    items: seq<SpecItem>, oks: seq<bool>, i: nat, k: nat)
    requires i <= k <= |items| && CreatableBetween(specs, metrics, items, oks, i, k)
    ensures var c := Created(specs, nextId, metrics, items, i, k);
      CreateAll(specs, nextId, metrics, items, oks, i) == CreateAll(c.0, c.1, metrics, items, oks, k)
    decreases k - i
  {
    if i < k {
      var specs' := StoreFirst(specs, nextId, metrics, items[i]);
      CreatableAfterFirst(specs, nextId, metrics, items, oks, i, k);
      if KnownMetric(metrics, items[i].name.value) {
        CreateAllAfterCreated(specs', nextId + 1, metrics, items, oks, i + 1, k);
      } else {
        CreateAllAfterCreated(specs', nextId, metrics, items, oks, i + 1, k);
      }
    }
  }

  /** `SpecificationList.post` stops at the first element `k` that does not
      pass: it answers with that element's own error, having looked at
      `k + 1` elements, and the specifications created before it stay. */
  lemma CreateAllStopsAtFirstFailure(
    specs: map<string, SpecRecord>, nextId: nat, metrics: map<string, Metric.MetricRecord>,
    items: seq<SpecItem>, oks: seq<bool>, k: nat)
    requires k < |items| && CreatableBetween(specs, metrics, items, oks, 0, k)
    requires !Creatable(Created(specs, nextId, metrics, items, 0, k).0, metrics, items, oks, k)
    ensures var r := CreateAll(specs, nextId, metrics, items, oks, 0);
      var c := Created(specs, nextId, metrics, items, 0, k);
      r.attempted == k + 1 && r.specs == c.0 && r.nextId == c.1
    ensures items[k].name.None? ==> CreateAll(specs, nextId, metrics, items, oks, 0).reply == Crashed(KeyError)
    ensures items[k].name.Some? ==>
      var name := items[k].name.value;
      var r := CreateAll(specs, nextId, metrics, items, oks, 0);
      var c := Created(specs, nextId, metrics, items, 0, k).0;
      && ('.' !in name ==> r.reply == Message(FullNameRequired, DefaultCode))
      && (KnownMetric(metrics, name) && name in c ==> r.reply == Message(AlreadyExists(name), 400))
      && (KnownMetric(metrics, name) && name !in c ==> r.reply == Message(InsertError(name), 500))
  {
    CreateAllAfterCreated(specs, nextId, metrics, items, oks, 0, k);
  }

  /** A name whose metric exists and that is repeated within the list fails
      at its second occurrence. */
  lemma CreateAllRepeatedNameFails(
    specs: map<string, SpecRecord>, nextId: nat, metrics: map<string, Metric.MetricRecord>,
    items: seq<SpecItem>, oks: seq<bool>, j: nat, k: nat)
    requires j < k < |items| && CreatableBetween(specs, metrics, items, oks, 0, k)
    requires items[k].name == items[j].name && KnownMetric(metrics, items[j].name.value)
    ensures var r := CreateAll(specs, nextId, metrics, items, oks, 0);
      r.reply == Message(AlreadyExists(items[k].name.value), 400) && r.attempted == k + 1
  {
    CreatedRecords(specs, nextId, metrics, items, oks, 0, k);
    CreateAllStopsAtFirstFailure(specs, nextId, metrics, items, oks, k);
  }

  /** Earlier inserts are never undone, and the only names added are listed
      ones whose metric exists, each linked to that metric's id. */
  lemma {:induction false} CreateAllOnlyAdds(
    specs: map<string, SpecRecord>, nextId: nat, metrics: map<string, Metric.MetricRecord>,
    items: seq<SpecItem>, oks: seq<bool>, i: nat)
    requires i <= |items|
    ensures var r := CreateAll(specs, nextId, metrics, items, oks, i);
      forall n :: n in specs ==> n in r.specs && r.specs[n] == specs[n]
    ensures var r := CreateAll(specs, nextId, metrics, items, oks, i);
      forall n :: n in r.specs && n !in specs ==>
        && n in KnownNamesFrom(metrics, items, i)
        && KnownMetric(metrics, n)
        && r.specs[n].metricId == metrics[MetricNameOf(n).value].id
    decreases |items| - i
  {
    if i < |items| && items[i].name.Some? {
      var name := items[i].name.value;
      var metricName := MetricNameOf(name);
      if metricName.Some? && metricName.value !in metrics {
        CreateAllOnlyAdds(specs, nextId, metrics, items, oks, i + 1);
      } else if metricName.Some? && name !in specs && Succeeds(oks, i) {
        var spec := NewSpec(nextId, name, metrics[metricName.value].id, items[i].args);
        CreateAllOnlyAdds(specs[name := spec], nextId + 1, metrics, items, oks, i + 1);
      }
    }
  }

  /** The success message differs from every message that reports a failure. */
  lemma ListCreatedIsNoFailure()
    ensures ListCreated != FullNameRequired
    ensures forall name :: ListCreated != AlreadyExists(name) && ListCreated != InsertError(name)
  {
    assert ListCreated[0] == 'L';
    assert FullNameRequired[0] == 'Y';
    forall name ensures ListCreated != AlreadyExists(name) && ListCreated != InsertError(name) {
      assert AlreadyExists(name)[1] == ' ' && InsertError(name)[1] == 'n' && ListCreated[1] == 'i';
    }
  }

  /** The bulk create answers 201 only when every element passes. */
  lemma {:induction false} CreateAllSuccessNeedsCreatable(
    specs: map<string, SpecRecord>, nextId: nat, metrics: map<string, Metric.MetricRecord>,
    items: seq<SpecItem>, oks: seq<bool>, i: nat)
    requires i <= |items|
    requires CreateAll(specs, nextId, metrics, items, oks, i).reply == Message(ListCreated, 201)
    ensures AllCreatable(specs, metrics, items, oks, i)
    decreases |items| - i
  {
    if i < |items| {
      var item := items[i];
      ListCreatedIsNoFailure();
      assert item.name.Some? && MetricNameOf(item.name.value).Some?;
      var name := item.name.value;
      var metricName := MetricNameOf(name).value;
      if metricName !in metrics {
        CreateAllSuccessNeedsCreatable(specs, nextId, metrics, items, oks, i + 1);
      } else {
        assert name !in specs && Succeeds(oks, i);
        var specs' := specs[name := NewSpec(nextId, name, metrics[metricName].id, item.args)];
        CreateAllSuccessNeedsCreatable(specs', nextId + 1, metrics, items, oks, i + 1);
        forall l | i < l < |items| ensures items[l].name != item.name {
          assert KnownMetric(metrics, items[l].name.value) ==> items[l].name.value !in specs';
          assert name in specs';
        }
        forall j | i < j < |items| ensures Creatable(specs, metrics, items, oks, j) {
          assert Creatable(specs', metrics, items, oks, j);
        }
      }
      assert Creatable(specs, metrics, items, oks, i);
      assert forall j :: i <= j < |items| ==> Creatable(specs, metrics, items, oks, j);
      assert forall j, l :: i <= j < l < |items| && KnownMetric(metrics, items[j].name.value) ==>
          items[j].name != items[l].name;
    }
  }

  /** When every element passes, the bulk create answers 201 and the catalog
      gains exactly the listed names whose metric exists. */
  lemma {:induction false} CreatableCreatesAll(
    specs: map<string, SpecRecord>, nextId: nat, metrics: map<string, Metric.MetricRecord>,
    items: seq<SpecItem>, oks: seq<bool>, i: nat)
    requires i <= |items|
    requires AllCreatable(specs, metrics, items, oks, i)
    ensures CreateAll(specs, nextId, metrics, items, oks, i).reply == Message(ListCreated, 201)
    ensures CreateAll(specs, nextId, metrics, items, oks, i).specs.Keys == specs.Keys + KnownNamesFrom(metrics, items, i)
    ensures CreateAll(specs, nextId, metrics, items, oks, i).attempted == |items|
    ensures var c := Created(specs, nextId, metrics, items, i, |items|);
      CreateAll(specs, nextId, metrics, items, oks, i).specs == c.0
      && CreateAll(specs, nextId, metrics, items, oks, i).nextId == c.1
    decreases |items| - i
  {
    CreateAllAfterCreated(specs, nextId, metrics, items, oks, i, |items|);
    if i < |items| {
      var specs' := StoreFirst(specs, nextId, metrics, items[i]);
      CreatableAfterFirst(specs, nextId, metrics, items, oks, i, |items|);
      if KnownMetric(metrics, items[i].name.value) {
        CreatableCreatesAll(specs', nextId + 1, metrics, items, oks, i + 1);
      } else {
        CreatableCreatesAll(specs', nextId, metrics, items, oks, i + 1);
      }
    }
  }

  /** Elements after the one the bulk create stopped at are never looked at. */
  lemma {:induction false} CreateAllIgnoresRest(
    specs: map<string, SpecRecord>, nextId: nat, metrics: map<string, Metric.MetricRecord>,
    items: seq<SpecItem>, oks: seq<bool>, i: nat)
    requires i <= |items|
    ensures var r := CreateAll(specs, nextId, metrics, items, oks, i);
      i <= r.attempted <= |items|
      && CreateAll(specs, nextId, metrics, items[..r.attempted], oks, i) == r
    decreases |items| - i
  {
    var r := CreateAll(specs, nextId, metrics, items, oks, i);
    if i < |items| {
      var item := items[i];
      if item.name.Some? && MetricNameOf(item.name.value).Some? {
        var name := item.name.value;
        var metricName := MetricNameOf(name).value;
        if metricName !in metrics {
          CreateAllIgnoresRest(specs, nextId, metrics, items, oks, i + 1);
        } else if name !in specs && Succeeds(oks, i) {
          var specs' := specs[name := NewSpec(nextId, name, metrics[metricName].id, item.args)];
          CreateAllIgnoresRest(specs', nextId + 1, metrics, items, oks, i + 1);
        }
      }
      assert items[..r.attempted][i] == item;
    } else {
      assert items[..r.attempted] == items;
    }
  }

  class SpecificationCatalog {
    var specs: map<string, SpecRecord>
    var nextId: nat
    /** The metric table the specifications refer to. */
    const catalog: Metric.MetricCatalog

    ghost predicate Valid()
      reads this
    {
      WellFormed(specs, nextId)
    }

    constructor (catalog: Metric.MetricCatalog)
      ensures Valid() && specs == map[] && nextId == 0 && this.catalog == catalog
    {
      specs := map[];
      nextId := 0;
      this.catalog := catalog;
    }

    /** `Specification.post`: create the specification `name`, linked to the
        metric named by everything before its last dot. */
    method Post(name: string, args: SpecArgs, saveOk: bool) returns (reply: Reply<SpecRecord>)
      requires Valid()
      modifies this
      ensures Valid()
      ensures MetricNameOf(name).None? ==>
        reply == Message(FullNameRequired, DefaultCode) && unchanged(this)
      ensures MetricNameOf(name).Some? && MetricNameOf(name).value !in catalog.metrics ==>
        reply == Message(MetricNotFound(MetricNameOf(name).value), 404) && unchanged(this)
      ensures KnownMetric(catalog.metrics, name) && name in old(specs) ==>
        reply == Message(AlreadyExists(name), 400) && unchanged(this)
      ensures KnownMetric(catalog.metrics, name) && name !in old(specs) && !saveOk ==>
        reply == Message(CreateError(name), 500) && unchanged(this)
      ensures KnownMetric(catalog.metrics, name) && name !in old(specs) && saveOk ==>
        var spec := NewSpec(old(nextId), name, catalog.metrics[MetricNameOf(name).value].id, args);
        && reply == Record(spec, 201)
        && specs == old(specs)[name := spec]
        && nextId == old(nextId) + 1
    {
      var metricName := MetricNameOf(name);
      if metricName.None? {
        return Message(FullNameRequired, DefaultCode);
      }
      if metricName.value !in catalog.metrics {
        return Message(MetricNotFound(metricName.value), 404);
      }
      var metricId := catalog.metrics[metricName.value].id;
      if name in specs {
        return Message(AlreadyExists(name), 400);
      }
      var spec := NewSpec(nextId, name, metricId, args);
      if !saveOk {
        return Message(CreateError(name), 500);
      }
      specs := specs[name := spec];
      nextId := nextId + 1;
      reply := Record(spec, 201);
    }

    /** `Specification.put`: replace the threshold, tags and metadata query of
        an existing specification; its id, name and metric stay. */
    method Put(name: string, args: SpecArgs, saveOk: bool) returns (reply: Reply<SpecRecord>)
      requires Valid()
      modifies this
      ensures Valid()
      ensures nextId == old(nextId)
      ensures name !in old(specs) ==> reply == Message(NotFound(name), 404) && unchanged(this)
      ensures name in old(specs) && !saveOk ==> reply == Message(UpdateError(name), 500) && unchanged(this)
      ensures name in old(specs) && saveOk ==>
        var s := old(specs)[name];
        && specs.Keys == old(specs).Keys
        && (forall n :: n in specs && n != name ==> specs[n] == old(specs)[n])
        && specs[name].id == s.id && specs[name].name == s.name && specs[name].metricId == s.metricId
        && specs[name].threshold == args.threshold && specs[name].tags == args.tags
        && specs[name].metadataQuery == args.metadataQuery
        && reply == Record(specs[name], 200)
    {
      if name !in specs {
        return Message(NotFound(name), 404);
      }
      var spec := specs[name].(threshold := args.threshold, tags := args.tags, metadataQuery := args.metadataQuery);
      if !saveOk {
        return Message(UpdateError(name), 500);
      }
      specs := specs[name := spec];
      reply := Record(spec, 200);
    }

    /** `Specification.delete`. */
    method Delete(name: string) returns (reply: Reply<SpecRecord>)
      requires Valid()
      modifies this
      ensures Valid()
      ensures nextId == old(nextId)
      ensures name !in old(specs) ==> reply == Message(NotFound(name), 404) && unchanged(this)
      ensures name in old(specs) ==>
        reply == Message(SpecDeleted, DefaultCode) && specs == old(specs) - {name}
    {
      if name !in specs {
        return Message(NotFound(name), 404);
      }
      specs := specs - {name};
      reply := Message(SpecDeleted, DefaultCode);
    }

    /** `SpecificationList.post`: create the listed specifications in order,
        skipping those whose metric is unknown and returning at the first
        element that fails; specifications created before it stay. */
    method PostList(items: seq<SpecItem>, oks: seq<bool>) returns (reply: Reply<SpecRecord>)
      requires Valid()
      modifies this
      ensures Valid()
      ensures var r := CreateAll(old(specs), old(nextId), catalog.metrics, items, oks, 0);
        reply == r.reply && specs == r.specs && nextId == r.nextId
    {
      var i := 0;
      while i < |items|
        invariant 0 <= i <= |items|
        invariant Valid()
        invariant CreateAll(specs, nextId, catalog.metrics, items, oks, i)
               == CreateAll(old(specs), old(nextId), catalog.metrics, items, oks, 0)
        decreases |items| - i
      {
        var item := items[i];
        if item.name.None? {
          return Crashed(KeyError);
        }
        var name := item.name.value;
        var metricName := MetricNameOf(name);
        if metricName.None? {
          return Message(FullNameRequired, DefaultCode);
        }
        if metricName.value !in catalog.metrics {
          i := i + 1;
          continue;
        }
        var metricId := catalog.metrics[metricName.value].id;
        if name in specs {
          return Message(AlreadyExists(name), 400);
        }
        var spec := NewSpec(nextId, name, metricId, item.args);
        if !Succeeds(oks, i) {
          return Message(InsertError(name), 500);
        }
        specs := specs[name := spec];
        nextId := nextId + 1;
        i := i + 1;
      }
      reply := Message(ListCreated, 201);
    }
  }
}
