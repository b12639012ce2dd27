/**
 The Kubernetes watcher of internal/k8s/watcher.go: informer notifications drive the store and the
 gauge. The store follows the informer's objects; the gauge counts them by label.
 */
module Watcher {
  import opened Wrappers
  import opened Json
  import opened Config
  import opened Replication
  import opened Stores
  import opened StoreManager
  import opened Metrics

  /** What the informer hands over; `Foreign` is anything but an unstructured object. */
  datatype Notification =
    | Added(obj: Fields)
    | Updated(oldObj: Fields, newObj: Fields)
    | Deleted(obj: Fields)
    | Foreign

  datatype Watched = Watched(db: Database, gauge: Gauge, crashed: bool)

  /** The store call that a notification leads to; an unchanged resource version leads to none. */
  function CallFor(n: Notification): Option<Call> {
    match n
    case Added(obj) => Some(Create(WithEnvironment(obj)))
    case Updated(oldObj, newObj) =>
      if ResourceVersion(newObj) == ResourceVersion(oldObj) then None
      else Some(Update(oldObj, WithEnvironment(newObj)))
    case Deleted(obj) => Some(Delete(obj))
    case Foreign => None
  }

  /** A resync, which stores nothing, is an update whose `metadata.resourceVersion` is the same; "" when missing. */
  lemma ResyncIffSameVersion(oldObj: Fields, newObj: Fields)
    ensures CallFor(Updated(oldObj, newObj)).None? <==>
            StringAt(Metadata(newObj), "resourceVersion") == StringAt(Metadata(oldObj), "resourceVersion")
    ensures CallFor(Updated(oldObj, newObj)).Some? ==>
              CallFor(Updated(oldObj, newObj)) == Some(Update(oldObj, WithEnvironment(newObj)))
  {
    AccessorsRead(oldObj);
    AccessorsRead(newObj);
  }

  /** For objects that have a version, the strings decide. */
  lemma VersionsDecide(oldObj: Fields, newObj: Fields)
    requires "metadata" in oldObj && oldObj["metadata"].Map? && "metadata" in newObj && newObj["metadata"].Map?
    requires "resourceVersion" in oldObj["metadata"].fields && oldObj["metadata"].fields["resourceVersion"].Str?
    requires "resourceVersion" in newObj["metadata"].fields && newObj["metadata"].fields["resourceVersion"].Str?
    ensures CallFor(Updated(oldObj, newObj)).None? <==>
            oldObj["metadata"].fields["resourceVersion"] == newObj["metadata"].fields["resourceVersion"]
  {
    ResyncIffSameVersion(oldObj, newObj);
  }

  /** The series a successful notification moves, and by how much. */
  function Movement(resource: Resource, n: Notification): Option<(Labels, int)> {
    match n
    case Added(obj) => Some((LabelsOf(resource, WithEnvironment(obj)), 1))
    case Deleted(obj) => Some((LabelsOf(resource, obj), -1))
    case _ => None
  }

  /** A gauge refuses, by panicking, labels other than the configured ones. */
  predicate Countable(resource: Resource, labels: Labels) {
    labels.Keys == resource.labels.Keys
  }

  /** The primary store's kind, the watched resource, and whether its metrics are on. */
  datatype Setup = Setup(kind: StoreKind, resource: Resource, metrics: bool)

  /** The gauge after a call was answered, and whether counting it panicked. */
  function Counted(setup: Setup, gauge: Gauge, labels: Labels, delta: int, answer: Answer): (Gauge, bool) {
    if !answer.Done? || !setup.metrics then (gauge, answer.Panicked?)
    else if !Countable(setup.resource, labels) then (gauge, true)
    else (Metrics.Add(gauge, labels, delta), false)
  }

  function Handle(setup: Setup, w: Watched, n: Notification, answer: Answer): Watched {
    match CallFor(n)
    case None => w
    case Some(call) =>
      var db := After(w.db, OpFor(setup.kind, call), answer);
      match Movement(setup.resource, n)
      case None => Watched(db, w.gauge, answer.Panicked?)
      case Some((labels, delta)) =>
        var (gauge, crashed) := Counted(setup, w.gauge, labels, delta, answer);
        Watched(db, gauge, crashed)
  }

  class ResourceWatcher {
    const store: DualStoreManager
    const resource: Resource
    const metrics: bool
    var gauge: Gauge
    var crashed: bool

    constructor (store: DualStoreManager, resource: Resource, metrics: bool)
      ensures this.store == store && this.resource == resource && this.metrics == metrics
      ensures gauge == map[] && !crashed
    {
      this.store, this.resource, this.metrics := store, resource, metrics;
      this.gauge, this.crashed := map[], false;
    }

    ghost predicate Ready()
      reads this, store
    {
      store.Valid() && store.alive && !crashed
    }

    ghost function View(): Watched
      reads this, store.primary
    {
      Watched(store.primary.db, gauge, crashed)
    }

    ghost function Setting(): Setup {
      Setup(store.primary.kind, resource, metrics)
    }

    /** What follows the store's answer to an add or a delete. */
    method Count(obj: Fields, delta: int, answer: Answer)
      requires !crashed
      modifies this
      ensures (gauge, crashed) == Counted(Setting(), old(gauge), LabelsOf(resource, obj), delta, answer)
    {
      if answer.Panicked? {
        crashed := true;
        return;
      }
      if !answer.Done? {
        return;
      }
      if metrics {
        var labels := GetLabelsForResource(obj, resource);
        if labels.Keys != resource.labels.Keys {
          crashed := true;
        } else {
          gauge := Metrics.Add(gauge, labels, delta);
        }
      }
    }

    /** The informer's own object is normalised in place before it is stored. */
    method Add(obj: Unstructured, remote: Answer) returns (answer: Answer)
      requires Ready()
      modifies this, store, store.primary, obj
      ensures obj.fields == WithEnvironment(old(obj.fields))
      ensures answer == Heard(store.primary.kind, OpFor(store.primary.kind, Call.Create(obj.fields)), remote)
      ensures View() == Handle(Setting(), old(View()), Added(old(obj.fields)), answer)
      ensures store.Valid()
      ensures store.secondary != null ==>
                store.Abstract() == Step(old(store.Abstract()), store.WriteEvent(Call.Create(obj.fields), answer))
    {
      obj.AddMissingEnvironment();
      answer := store.Create(obj.fields, remote);
      Count(obj.fields, 1, answer);
    }

    method Update(oldObj: Unstructured, newObj: Unstructured, remote: Answer) returns (answer: Answer)
      requires Ready()
      modifies this, store, store.primary, newObj
      ensures old(ResourceVersion(newObj.fields)) == old(ResourceVersion(oldObj.fields)) ==>
                newObj.fields == old(newObj.fields)
      ensures old(ResourceVersion(newObj.fields)) != old(ResourceVersion(oldObj.fields)) ==>
                && newObj.fields == WithEnvironment(old(newObj.fields))
                && var op := OpFor(store.primary.kind, Call.Update(oldObj.fields, newObj.fields));
                   answer == Heard(store.primary.kind, op, remote)
      ensures View() == Handle(Setting(), old(View()), Updated(old(oldObj.fields), old(newObj.fields)), answer)
      ensures store.Valid()
      ensures store.secondary != null ==>
                store.Abstract() ==
                if old(ResourceVersion(newObj.fields)) == old(ResourceVersion(oldObj.fields)) then old(store.Abstract())
                else Step(old(store.Abstract()), store.WriteEvent(Call.Update(oldObj.fields, newObj.fields), answer))
    {
      answer := Done;
      if ResourceVersion(newObj.fields) == ResourceVersion(oldObj.fields) {
        return;
      }
      newObj.AddMissingEnvironment();
      answer := store.Update(oldObj.fields, newObj.fields, remote);
      if answer.Panicked? {
        crashed := true;
      }
    }

    method Delete(obj: Unstructured, remote: Answer) returns (answer: Answer)
      requires Ready()
      modifies this, store, store.primary
      ensures answer == Heard(store.primary.kind, OpFor(store.primary.kind, Call.Delete(obj.fields)), remote)
      ensures View() == Handle(Setting(), old(View()), Deleted(old(obj.fields)), answer)
      ensures store.Valid()
      ensures store.secondary != null ==>
                store.Abstract() == Step(old(store.Abstract()), store.WriteEvent(Call.Delete(obj.fields), answer))
    {
      answer := store.Delete(obj.fields, remote);
      Count(obj.fields, -1, answer);
    }
  }

  // ----- Runs of the informer ------------------------------------------------------------

  /** The informer's objects by name, and what the watcher has made of them. */
  datatype World = World(cache: map<string, Fields>, watched: Watched)

  datatype Delivery = Delivery(n: Notification, answer: Answer)

  function NameOf(n: Notification): string {
    match n
    case Added(obj) => Name(obj)
    case Updated(_, newObj) => Name(newObj)
    case Deleted(obj) => Name(obj)
    case Foreign => ""
  }

  /**
   What an informer without tombstones delivers for one dataset with unique names: new objects under
   new names, successors and deletions of the objects it holds, and equal content under an equal version.
   */
  predicate Consistent(dataset: string, cache: map<string, Fields>, n: Notification) {
    match n
    case Added(obj) => GroupVersionId(obj) == dataset && Name(obj) !in cache
    case Updated(oldObj, newObj) =>
      && GroupVersionId(oldObj) == dataset && GroupVersionId(newObj) == dataset
      && Name(newObj) in cache && oldObj == cache[Name(newObj)]
      && (ResourceVersion(newObj) == ResourceVersion(oldObj) ==> WithEnvironment(newObj) == WithEnvironment(oldObj))
    case Deleted(obj) => GroupVersionId(obj) == dataset && Name(obj) in cache && obj == cache[Name(obj)]
    case Foreign => false
  }

  /** The informer's objects are the ones the handlers edit in place. */
  function NextCache(cache: map<string, Fields>, n: Notification): map<string, Fields> {
    match n
    case Added(obj) => cache[Name(obj) := WithEnvironment(obj)]
    case Updated(oldObj, newObj) => cache[Name(newObj) := if CallFor(n).None? then newObj else WithEnvironment(newObj)]
    case Deleted(obj) => cache - {Name(obj)}
    case Foreign => cache
  }

  /** What the informer holds afterwards: objects as the handlers edited them, a resynced one as it came. */
  lemma CacheHoldsEditedObjects(cache: map<string, Fields>, obj: Fields, newObj: Fields)
    ensures NextCache(cache, Added(obj)) == cache[StringAt(Metadata(obj), "name") := WithEnvironment(obj)]
    ensures StringAt(Metadata(newObj), "resourceVersion") != StringAt(Metadata(obj), "resourceVersion") ==>
              NextCache(cache, Updated(obj, newObj)) ==
              cache[StringAt(Metadata(newObj), "name") := WithEnvironment(newObj)]
    ensures StringAt(Metadata(newObj), "resourceVersion") == StringAt(Metadata(obj), "resourceVersion") ==>
              NextCache(cache, Updated(obj, newObj)) == cache[StringAt(Metadata(newObj), "name") := newObj]
    ensures NextCache(cache, Deleted(obj)) == cache - {StringAt(Metadata(obj), "name")}
    ensures NextCache(cache, Foreign) == cache
  {
    AccessorsRead(obj);
    AccessorsRead(newObj);
  }

  function Deliver(setup: Setup, w: World, d: Delivery): World {
    World(NextCache(w.cache, d.n), Handle(setup, w.watched, d.n, d.answer))
  }

  function Exec(setup: Setup, w: World, ds: seq<Delivery>): World {
    if ds == [] then w
    else Deliver(setup, Exec(setup, w, ds[..|ds| - 1]), ds[|ds| - 1])
  }

  ghost predicate Legal(setup: Setup, dataset: string, w: World, ds: seq<Delivery>) {
    ds != [] ==>
      var before := Exec(setup, w, ds[..|ds| - 1]);
      && Legal(setup, dataset, w, ds[..|ds| - 1])
      && !before.watched.crashed
      && Consistent(dataset, before.cache, ds[|ds| - 1].n)
  }

  // ----- The store mirrors the informer ----------------------------------------------------

  /** The normalised form of the informer's object of that name. */
  function Wanted(cache: map<string, Fields>, name: string): Option<Fields> {
    if name in cache then Some(WithEnvironment(cache[name])) else None
  }

  /** The store holds exactly the normalised form of the informer's object of that name. */
  predicate Mirrors(dataset: string, w: World, name: string) {
    At(w.watched.db, Key(dataset, name)) == Wanted(w.cache, name)
  }

  /** The store keys the call by name: Hazelcast always does, MongoDB for objects named by their document id. */
  ghost predicate KeyedByName(kind: StoreKind, n: Notification) {
    kind.Mongo? && CallFor(n).Some? ==> CallNamedById(kind.resources, CallFor(n).value)
  }

  /** The content that a notification brings for its name. */
  function Brought(n: Notification): Option<Fields> {
    match n
    case Added(obj) => Some(WithEnvironment(obj))
    case Updated(_, newObj) => Some(WithEnvironment(newObj))
    case _ => None
  }

  /** What a notification is to the store: its content under its name in the one dataset. */
  lemma DeliveryOp(kind: StoreKind, dataset: string, cache: map<string, Fields>, n: Notification)
    requires Consistent(dataset, cache, n) && KeyedByName(kind, n) && CallFor(n).Some?
    ensures var key := Key(dataset, NameOf(n));
            OpFor(kind, CallFor(n).value) == if Brought(n).Some? then Put(key, Brought(n).value) else Remove(key)
  {
    if kind.Mongo? {
      SameOperationIff(kind.resources, CallFor(n).value);
    }
    match n
    case Added(obj) =>
      EnvironmentKeepsIdentity(obj);
      EnvironmentKeepsDataset(obj);
    case Updated(_, newObj) => EnvironmentKeepsIdentity(newObj);
    case Deleted(_) =>
  }

  /** One delivery changes at most the entry of its name, and only when its call takes effect. */
  lemma DeliveryStores(setup: Setup, dataset: string, w: World, d: Delivery, key: Key)
    requires Consistent(dataset, w.cache, d.n) && KeyedByName(setup.kind, d.n)
    ensures At(Deliver(setup, w, d).watched.db, key) ==
            if key == Key(dataset, NameOf(d.n)) && CallFor(d.n).Some? && d.answer.Applied() then Brought(d.n)
            else At(w.watched.db, key)
  {
    if CallFor(d.n).Some? {
      DeliveryOp(setup.kind, dataset, w.cache, d.n);
    }
  }

  /** A delivery makes its content what is wanted for its name; a resync wants what was wanted before. */
  lemma DeliveryWants(dataset: string, cache: map<string, Fields>, n: Notification, name: string)
    requires Consistent(dataset, cache, n)
    ensures Wanted(NextCache(cache, n), name) ==
            if name == NameOf(n) && CallFor(n).Some? then Brought(n) else Wanted(cache, name)
  {
    if Brought(n).Some? {
      EnvironmentIdempotent(if n.Added? then n.obj else n.newObj);
    }
  }

  /**
   One delivery, with any answer: other names are untouched, a resync changes nothing, an applied
   call makes its name right whatever was there before, and a failed one leaves it right exactly
   when the store happens to hold the new content already.
   */
  lemma DeliveryMirrors(setup: Setup, dataset: string, w: World, d: Delivery, name: string)
    requires Consistent(dataset, w.cache, d.n) && KeyedByName(setup.kind, d.n)
    ensures Mirrors(dataset, Deliver(setup, w, d), name) <==>
            if name != NameOf(d.n) || CallFor(d.n).None? then Mirrors(dataset, w, name)
            else d.answer.Applied() || At(w.watched.db, Key(dataset, name)) == Brought(d.n)
  {
    DeliveryStores(setup, dataset, w, d, Key(dataset, name));
    DeliveryWants(dataset, w.cache, d.n, name);
  }

  /**
   Watcher simulation: over any run of informer notifications whose store calls take effect, in a
   store that keys them by name, every name is mirrored after every delivery, and other datasets are untouched.
   */
  lemma {:induction false} WatcherSimulates(setup: Setup, dataset: string, w: World, ds: seq<Delivery>)
    requires Legal(setup, dataset, w, ds)
    requires forall name :: Mirrors(dataset, w, name)
    requires forall d :: d in ds ==> d.answer.Applied() && KeyedByName(setup.kind, d.n)
    ensures forall name :: Mirrors(dataset, Exec(setup, w, ds), name)
    ensures forall key: Key :: key.dataset != dataset ==>
              At(Exec(setup, w, ds).watched.db, key) == At(w.watched.db, key)
  {
    if ds != [] {
      var front, d := ds[..|ds| - 1], ds[|ds| - 1];
      assert d in ds;
      WatcherSimulates(setup, dataset, w, front);
      var before := Exec(setup, w, front);
      forall name
        ensures Mirrors(dataset, Exec(setup, w, ds), name)
      {
        DeliveryMirrors(setup, dataset, before, d, name);
      }
      forall key: Key | key.dataset != dataset
        ensures At(Exec(setup, w, ds).watched.db, key) == At(w.watched.db, key)
      {
        DeliveryStores(setup, dataset, before, d, key);
      }
    }
  }

  // ----- The gauge counts the informer's objects -------------------------------------------

  /** Successful adds minus successful deletes of a history, as far as they are counted. */
  function AddsMinusDeletes(setup: Setup, w: World, ds: seq<Delivery>): int {
    if ds == [] then 0
    else
      var front, d := ds[..|ds| - 1], ds[|ds| - 1];
      var before := AddsMinusDeletes(setup, w, front);
      if !setup.metrics || !d.answer.Done? || Exec(setup, w, ds).watched.crashed then before
      else match d.n
        case Added(_) => before + 1
        case Deleted(_) => before - 1
        case _ => before
  }

  /** Conservation: the sum over all label series is successful adds minus successful deletes, for any notifications. */
  lemma {:induction false} GaugeConserved(setup: Setup, w: World, ds: seq<Delivery>)
    ensures Sum(Exec(setup, w, ds).watched.gauge) ==
            Sum(w.watched.gauge) + AddsMinusDeletes(setup, w, ds)
  {
    if ds != [] {
      var front, d := ds[..|ds| - 1], ds[|ds| - 1];
      GaugeConserved(setup, w, front);
      var before := Exec(setup, w, front);
      match Movement(setup.resource, d.n)
      case None =>
      case Some((labels, delta)) => SumAfterAdd(before.watched.gauge, labels, delta);
    }
  }

  /** The objects that belong in a series. */
  function Members(resource: Resource, cache: map<string, Fields>, labels: Labels): set<string> {
    set name | name in cache && LabelsOf(resource, WithEnvironment(cache[name])) == labels
  }

  /** Every series counts the informer's objects with its labels. */
  ghost predicate GaugeExact(resource: Resource, cache: map<string, Fields>, gauge: Gauge) {
    forall labels :: Get(gauge, labels) == |Members(resource, cache, labels)|
  }

  function SeriesOf(resource: Resource, obj: Fields): Labels {
    LabelsOf(resource, WithEnvironment(obj))
  }

  lemma MembersAfterPut(resource: Resource, cache: map<string, Fields>, name: string, obj: Fields, labels: Labels)
    ensures var others := Members(resource, cache, labels) - {name};
            Members(resource, cache[name := obj], labels) ==
            if SeriesOf(resource, obj) == labels then others + {name} else others
  {
  }

  lemma ExactAfterAdd(resource: Resource, cache: map<string, Fields>, gauge: Gauge, name: string, obj: Fields)
    requires GaugeExact(resource, cache, gauge) && name !in cache
    ensures GaugeExact(resource, cache[name := obj], Metrics.Add(gauge, SeriesOf(resource, obj), 1))
  {
    forall labels
      ensures Get(Metrics.Add(gauge, SeriesOf(resource, obj), 1), labels) ==
              |Members(resource, cache[name := obj], labels)|
    {
      assert Get(gauge, labels) == |Members(resource, cache, labels)|;
      MembersAfterPut(resource, cache, name, obj, labels);
      assert name !in Members(resource, cache, labels);
    }
  }

  lemma ExactAfterUpdate(resource: Resource, cache: map<string, Fields>, gauge: Gauge, name: string, obj: Fields)
    requires GaugeExact(resource, cache, gauge) && name in cache
    ensures GaugeExact(resource, cache[name := obj], gauge) <==>
            SeriesOf(resource, obj) == SeriesOf(resource, cache[name])
  {
    var was, now := SeriesOf(resource, cache[name]), SeriesOf(resource, obj);
    if was == now {
      forall labels
        ensures Get(gauge, labels) == |Members(resource, cache[name := obj], labels)|
      {
        assert Get(gauge, labels) == |Members(resource, cache, labels)|;
        MembersAfterPut(resource, cache, name, obj, labels);
        assert Members(resource, cache[name := obj], labels) == Members(resource, cache, labels);
      }
    } else {
      MembersAfterPut(resource, cache, name, obj, now);
      assert name !in Members(resource, cache, now);
      assert Get(gauge, now) == |Members(resource, cache, now)|;
      assert |Members(resource, cache[name := obj], now)| == |Members(resource, cache, now)| + 1;
    }
  }

  lemma CountAfterDelete(resource: Resource, cache: map<string, Fields>, name: string, labels: Labels)
    requires name in cache
    ensures |Members(resource, cache - {name}, labels)| ==
            |Members(resource, cache, labels)| - if labels == SeriesOf(resource, cache[name]) then 1 else 0
  {
    var was := Members(resource, cache, labels);
    assert Members(resource, cache - {name}, labels) == was - {name};
    assert name in was <==> labels == SeriesOf(resource, cache[name]);
  }

  lemma ExactAfterDelete(resource: Resource, cache: map<string, Fields>, gauge: Gauge, name: string, moved: Labels)
    requires GaugeExact(resource, cache, gauge) && name in cache
    ensures GaugeExact(resource, cache - {name}, Metrics.Add(gauge, moved, -1)) <==>
            moved == SeriesOf(resource, cache[name])
  {
    var was, after := SeriesOf(resource, cache[name]), Metrics.Add(gauge, moved, -1);
    hide SeriesOf, Members;
    forall labels
      ensures Get(after, labels) == |Members(resource, cache, labels)| - if labels == moved then 1 else 0
    {
      assert Get(gauge, labels) == |Members(resource, cache, labels)|;
    }
    if was == moved {
      forall labels
        ensures Get(after, labels) == |Members(resource, cache - {name}, labels)|
      {
        CountAfterDelete(resource, cache, name, labels);
      }
    } else {
      CountAfterDelete(resource, cache, name, was);
      assert Get(after, was) != |Members(resource, cache - {name}, was)|;
    }
  }

  /** A delivery under which no object changes series. */
  predicate KeepsSeries(resource: Resource, n: Notification) {
    match n
    case Updated(oldObj, newObj) => SeriesOf(resource, newObj) == SeriesOf(resource, oldObj)
    case Deleted(obj) => LabelsOf(resource, obj) == SeriesOf(resource, obj)
    case _ => true
  }

  /**
   A successful delivery that does not crash keeps every series exact exactly when it moves no object
   between series: an update keeps the labels, a deleted object's labels are those it was counted under.
   */
  lemma DeliveryKeepsGauge(setup: Setup, dataset: string, w: World, d: Delivery)
    requires setup.metrics && Consistent(dataset, w.cache, d.n) && d.answer.Done?
    requires GaugeExact(setup.resource, w.cache, w.watched.gauge)
    requires !Deliver(setup, w, d).watched.crashed
    ensures var after := Deliver(setup, w, d);
            GaugeExact(setup.resource, after.cache, after.watched.gauge) <==> KeepsSeries(setup.resource, d.n)
  {
    match d.n
    case Added(obj) =>
      EnvironmentIdempotent(obj);
      ExactAfterAdd(setup.resource, w.cache, w.watched.gauge, Name(obj), WithEnvironment(obj));
    case Updated(oldObj, newObj) =>
      EnvironmentIdempotent(newObj);
      var after := Deliver(setup, w, d);
      ExactAfterUpdate(setup.resource, w.cache, w.watched.gauge, Name(newObj), after.cache[Name(newObj)]);
    case Deleted(obj) =>
      ExactAfterDelete(setup.resource, w.cache, w.watched.gauge, Name(obj), LabelsOf(setup.resource, obj));
  }

  /** Over whole runs without failure: every series counts the live objects with its labels. */
  lemma {:induction false} GaugeCountsObjects(setup: Setup, dataset: string, w: World, ds: seq<Delivery>)
    requires setup.metrics && Legal(setup, dataset, w, ds) && GaugeExact(setup.resource, w.cache, w.watched.gauge)
    requires !Exec(setup, w, ds).watched.crashed
    requires forall d :: d in ds ==> d.answer.Done? && KeepsSeries(setup.resource, d.n)
    ensures var after := Exec(setup, w, ds); GaugeExact(setup.resource, after.cache, after.watched.gauge)
  {
    if ds != [] {
      var front, d := ds[..|ds| - 1], ds[|ds| - 1];
      assert d in ds;
      GaugeCountsObjects(setup, dataset, w, front);
      DeliveryKeepsGauge(setup, dataset, Exec(setup, w, front), d);
    }
  }
}
