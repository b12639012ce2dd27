/**
 What a reconnect sweep achieves: its passes do not disturb each other, so each dataset ends as its
 own pass alone would leave it, restored from what the registered sources hold.
 */
module SweepTheorems {
  import opened Json
  import opened Config
  import opened Replication
  import opened Stores
  import opened Reconciliation
  import opened PassTheorems
  import opened HazelcastClient

  // ----- Passes over different datasets -----------------------------------------------

  /** Every pass writes to the dataset that it counts. */
  ghost predicate WritesAtHome(mode: Mode, passes: seq<PassRecord>) {
    forall pass :: pass in passes ==> WrittenTo(pass.cache, ItemsOf(mode, pass))
  }

  /** None of the objects is filed in the dataset. */
  ghost predicate Elsewhere(dataset: string, items: seq<Fields>) {
    forall item :: item in items ==> GroupVersionId(item) != dataset
  }

  ghost predicate SameIn(a: Database, b: Database, dataset: string) {
    forall id :: At(a, Key(dataset, id)) == At(b, Key(dataset, id))
  }

  lemma PassStaysOut(db: Database, items: seq<Fields>, answers: seq<Answer>, dataset: string)
    requires |answers| <= |items| && Elsewhere(dataset, items)
    ensures SameIn(Upserted(db, items, answers), db, dataset)
  {
    forall id
      ensures At(Upserted(db, items, answers), Key(dataset, id)) == At(db, Key(dataset, id))
    {
      OthersUntouched(db, items, answers, Key(dataset, id));
    }
  }

  lemma PassDependsOnDataset(a: Database, b: Database, items: seq<Fields>, answers: seq<Answer>, dataset: string)
    requires |answers| <= |items| && SameIn(a, b, dataset)
    ensures SameIn(Upserted(a, items, answers), Upserted(b, items, answers), dataset)
  {
    forall id
      ensures At(Upserted(a, items, answers), Key(dataset, id)) == At(Upserted(b, items, answers), Key(dataset, id))
    {
      PassIsExact(a, items, answers, Key(dataset, id));
      PassIsExact(b, items, answers, Key(dataset, id));
    }
  }

  /** A dataset that no pass writes to stays as it is, over any number of passes. */
  lemma {:induction false} UnwrittenStays(mode: Mode, db: Database, passes: seq<PassRecord>, dataset: string)
    requires WellRun(mode, passes)
    requires forall pass :: pass in passes ==> Elsewhere(dataset, ItemsOf(mode, pass))
    ensures SameIn(Replayed(mode, db, passes), db, dataset)
  {
    if passes != [] {
      var front, last := passes[..|passes| - 1], passes[|passes| - 1];
      assert passes == front + [last] && last in passes;
      assert forall pass :: pass in front ==> pass in passes;
      UnwrittenStays(mode, db, front, dataset);
      PassStaysOut(Replayed(mode, db, front), ItemsOf(mode, last), last.answers, dataset);
    }
  }

  /** No pass but the i-th writes to the dataset. */
  ghost predicate OnlyWriter(mode: Mode, passes: seq<PassRecord>, i: nat, dataset: string) {
    forall j :: 0 <= j < |passes| && j != i ==> Elsewhere(dataset, ItemsOf(mode, passes[j]))
  }

  /** A dataset that only one pass of a sweep writes to ends as that pass would leave it had it run alone. */
  lemma {:induction false} SweepIsPassByPass(mode: Mode, db: Database, passes: seq<PassRecord>, i: nat, dataset: string)
    requires WellRun(mode, passes) && i < |passes| && OnlyWriter(mode, passes, i, dataset)
    ensures SameIn(Replayed(mode, db, passes[..i]), db, dataset)
    ensures SameIn(Replayed(mode, db, passes), Upserted(db, ItemsOf(mode, passes[i]), passes[i].answers), dataset)
  {
    var n := |passes| - 1;
    var front, last, pass := passes[..n], passes[n], passes[i];
    if i < n {
      assert front[i] == pass && front[..i] == passes[..i];
      SweepIsPassByPass(mode, db, front, i, dataset);
      PassStaysOut(Replayed(mode, db, front), ItemsOf(mode, last), last.answers, dataset);
    } else {
      UnwrittenStays(mode, db, front, dataset);
      PassDependsOnDataset(Replayed(mode, db, front), db, ItemsOf(mode, last), last.answers, dataset);
    }
  }

  lemma EmptyDatasetHasNoKeys(db: Database, dataset: string, keys: seq<string>)
    requires IdsOf(db, dataset) == {} && Enumerates(db, dataset, keys)
    ensures keys == []
  {
    if keys != [] {
      SomeKey(db, dataset, keys);
    }
  }

  lemma SomeKey(db: Database, dataset: string, keys: seq<string>)
    requires Enumerates(db, dataset, keys) && keys != []
    ensures keys[0] in IdsOf(db, dataset)
  {
    assert keys[0] in keys;
    assert Key(dataset, keys[0]) in db;
  }

  /**
   With a plural that is not the kind with an "s" the counted dataset stays as empty as it was, however
   many incremental passes run: every one of them whose count succeeds upserts its whole listing again.
   */
  lemma MismatchIsForever(db: Database, passes: seq<PassRecord>, dataset: string, items: seq<Fields>, reading: Reading)
    requires WellRun(Incremental, passes)
    requires forall pass :: pass in passes && pass.listed.Some? ==> Elsewhere(dataset, pass.listed.value)
    requires IdsOf(db, dataset) == {} && items != []
    requires ReadFrom(Replayed(Incremental, db, passes), dataset, reading) && reading.count.Some?
    ensures Selected(Incremental, items, reading) == items
  {
    forall pass | pass in passes
      ensures Elsewhere(dataset, ItemsOf(Incremental, pass))
    {
      if pass.listed.Some? {
        SelectedIsListed(Incremental, pass.listed.value, pass.reading);
      }
    }
    UnwrittenStays(Incremental, db, passes, dataset);
    SameReading(Replayed(Incremental, db, passes), db, dataset, reading);
    if reading.keys.Some? {
      EmptyDatasetHasNoKeys(db, dataset, reading.keys.value);
    }
    NothingFiltered(items);
  }

  lemma {:induction false} GenuineAt(mode: Mode, views: map<string, SourceView>, db: Database, passes: seq<PassRecord>,
                                     i: nat)
    requires WellRun(mode, passes) && AllGenuine(mode, views, db, passes) && i < |passes|
    ensures passes[i].cache in views && Genuine(views[passes[i].cache], Replayed(mode, db, passes[..i]), passes[i])
  {
    var n := |passes| - 1;
    if i < n {
      assert passes[..n][..i] == passes[..i];
      GenuineAt(mode, views, db, passes[..n], i);
    }
  }

  // ----- Sources and what the store holds of them ---------------------------------------

  /** The objects of a dataset at a source other than the store itself. */
  ghost function Objects(view: SourceView, dataset: string): set<Fields> {
    match view
    case OwnStore => {}
    case OtherStore(_, db) => set key | key in db && key.dataset == dataset :: db[key]
    case Cluster(objects) => set obj | obj in objects
  }

  /** Sources whose listings leave nothing out. */
  ghost predicate Complete(view: SourceView) {
    view.Cluster? || (view.OtherStore? && view.kind.Mongo?)
  }

  ghost predicate AtHome(dataset: string, objects: set<Fields>) {
    forall obj :: obj in objects ==> GroupVersionId(obj) == dataset
  }

  /** Every object is stored under its name, normalised, and equal up to `_id`. */
  ghost predicate HoldsAll(db: Database, objects: set<Fields>) {
    forall obj :: obj in objects ==>
      KeyOf(obj) in db && WithoutId(db[KeyOf(obj)]) == WithEnvironment(WithoutId(obj))
  }

  /** Objects that Hazelcast keys alike are alike. */
  ghost predicate ToldApart(objects: set<Fields>) {
    forall x, y :: x in objects && y in objects && KeyOf(x) == KeyOf(y) ==>
      WithEnvironment(WithoutId(x)) == WithEnvironment(WithoutId(y))
  }

  /** A listed document is the object at the source, up to `_id`. */
  ghost predicate SameDoc(doc: Fields, obj: Fields) {
    KeyOf(doc) == KeyOf(obj) && WithoutId(doc) == WithoutId(obj)
  }

  /** A listing shows every object and nothing else: `docs` are the objects `listed`, each up to `_id`. */
  ghost predicate Covers(docs: seq<Fields>, listed: seq<Fields>, objects: set<Fields>) {
    && |docs| == |listed| && (forall i :: 0 <= i < |docs| ==> SameDoc(docs[i], listed[i]))
    && (forall obj :: obj in objects <==> obj in listed)
  }

  ghost function Documents(db: Database, dataset: string, ids: seq<string>): (docs: seq<Fields>)
    requires forall id :: id in ids ==> Key(dataset, id) in db
    ensures |docs| == |ids| && forall i :: 0 <= i < |ids| ==> docs[i] == db[Key(dataset, ids[i])]
  {
    seq(|ids|, i requires 0 <= i < |ids| => assert ids[i] in ids; db[Key(dataset, ids[i])])
  }

  lemma ListingCovers(view: SourceView, own: Database, dataset: string, docs: seq<Fields>) returns (listed: seq<Fields>)
    requires Complete(view) && ListedIn(view, own, dataset, docs)
    ensures Covers(docs, listed, Objects(view, dataset))
  {
    match view
    case Cluster(objects) => listed := docs;
    case OtherStore(Mongo(resources), db) =>
      var ids :| Lists(Mongo(resources), db, dataset, ids, docs);
      ListingKeys(resources, db, dataset, ids, docs);
      listed := Documents(db, dataset, ids);
      forall obj
        ensures obj in Objects(view, dataset) <==> obj in listed
      {
        if obj in Objects(view, dataset) {
          var key :| key in db && key.dataset == dataset && db[key] == obj;
          assert key == Key(dataset, key.id) && key.id in ids;
          var i :| 0 <= i < |ids| && ids[i] == key.id;
          assert listed[i] == obj;
        }
        if obj in listed {
          var i :| 0 <= i < |listed| && listed[i] == obj;
          assert ids[i] in ids && db[Key(dataset, ids[i])] == obj;
        }
      }
  }

  /** What a full pass makes of one object of the source: the last listed one of its key. */
  lemma ObjectRestored(db: Database, docs: seq<Fields>, listed: seq<Fields>, objects: set<Fields>, answers: seq<Answer>,
                       obj: Fields)
    returns (winner: Fields)
    requires Covers(docs, listed, objects) && |answers| == |docs| && AllApplied(answers) && obj in objects
    ensures winner in objects && KeyOf(winner) == KeyOf(obj)
    ensures var after := Upserted(db, docs, answers);
            KeyOf(obj) in after && WithoutId(after[KeyOf(obj)]) == WithEnvironment(WithoutId(winner))
  {
    var i :| 0 <= i < |docs| && listed[i] == obj;
    var last := RestoredByLast(db, docs, answers, i);
    winner := listed[last];
    assert SameDoc(docs[i], obj) && SameDoc(docs[last], winner);
    EnvironmentIgnoresId(docs[last]);
  }

  /** A full pass brings every object of its source into the store exactly when keys tell them apart. */
  lemma HoldsAllIffToldApart(db: Database, docs: seq<Fields>, listed: seq<Fields>, objects: set<Fields>,
                             answers: seq<Answer>)
    requires Covers(docs, listed, objects) && |answers| == |docs| && AllApplied(answers)
    ensures HoldsAll(Upserted(db, docs, answers), objects) <==> ToldApart(objects)
  {
    var after := Upserted(db, docs, answers);
    if ToldApart(objects) {
      forall obj | obj in objects
        ensures KeyOf(obj) in after && WithoutId(after[KeyOf(obj)]) == WithEnvironment(WithoutId(obj))
      {
        var winner := ObjectRestored(db, docs, listed, objects, answers, obj);
      }
    }
  }

  lemma HoldsAllIsLocal(a: Database, b: Database, objects: set<Fields>)
    requires forall obj :: obj in objects ==> SameIn(a, b, GroupVersionId(obj))
    ensures HoldsAll(a, objects) <==> HoldsAll(b, objects)
  {
    forall obj | obj in objects
      ensures At(a, KeyOf(obj)) == At(b, KeyOf(obj))
    {
      assert SameIn(a, b, GroupVersionId(obj));
    }
  }

  // ----- The whole sweep ----------------------------------------------------------------

  ghost predicate AllSucceeded(passes: seq<PassRecord>) {
    forall pass :: pass in passes ==> pass.listed.Some? && AllApplied(pass.answers)
  }

  /** Every call of every pass gets through. */
  ghost predicate Healthy(remotes: Remotes, passes: seq<PassRecord>) {
    forall pass :: pass in passes ==>
      && remotes(pass.cache).listing && remotes(pass.cache).count && remotes(pass.cache).keys
      && forall i :: remotes(pass.cache).upserts(i).Applied()
  }

  /** When the remote sides let everything through, all passes of a sweep succeed. */
  lemma HealthySweepSucceeds(mode: Mode, remotes: Remotes, passes: seq<PassRecord>)
    requires AllObeyed(mode, remotes, passes) && Healthy(remotes, passes)
    ensures AllSucceeded(passes)
    ensures mode.Incremental? ==> forall pass :: pass in passes ==> pass.reading.count.Some?
  {
    forall pass | pass in passes
      ensures pass.listed.Some? && AllApplied(pass.answers)
      ensures mode.Incremental? ==> pass.reading.count.Some?
    {
      assert Obeyed(mode, remotes(pass.cache), pass);
      forall answer | answer in pass.answers
        ensures answer.Applied()
      {
        var i :| 0 <= i < |pass.answers| && pass.answers[i] == answer;
        AnswerAt(remotes(pass.cache), |pass.answers|, i);
      }
    }
  }

  /** The sources of a sweep list everything. */
  ghost predicate AllComplete(views: map<string, SourceView>, caches: set<string>) {
    forall cache :: cache in caches && cache in views ==> Complete(views[cache])
  }

  /** The sources of a sweep list everything, and their objects belong to the dataset they are registered for. */
  ghost predicate GoodSources(views: map<string, SourceView>, caches: set<string>) {
    forall cache :: cache in caches && cache in views ==>
      Complete(views[cache]) && AtHome(cache, Objects(views[cache], cache))
  }

  lemma GenuineIsHome(view: SourceView, own: Database, pass: PassRecord)
    requires pass.listed.Some? && Complete(view) && Genuine(view, own, pass)
    requires AtHome(pass.cache, Objects(view, pass.cache))
    ensures WrittenTo(pass.cache, pass.listed.value)
  {
    var docs := pass.listed.value;
    var listed := ListingCovers(view, own, pass.cache, docs);
    forall doc | doc in docs
      ensures GroupVersionId(doc) == pass.cache
    {
      var i :| 0 <= i < |docs| && docs[i] == doc;
      assert listed[i] in listed && SameDoc(doc, listed[i]);
      assert KeyOf(doc).dataset == KeyOf(listed[i]).dataset;
    }
  }

  lemma SelectedIsListed(mode: Mode, items: seq<Fields>, reading: Reading)
    ensures forall item :: item in Selected(mode, items, reading) ==> item in items
  {
    MissingMembers(items, if reading.keys.Some? then reading.keys.value else []);
  }

  lemma SweepWritesAtHome(mode: Mode, views: map<string, SourceView>, before: Database, after: Database,
                          caches: set<string>, passes: seq<PassRecord>)
    requires Swept(mode, views, before, after, caches, passes) && AllSucceeded(passes) && GoodSources(views, caches)
    ensures WritesAtHome(mode, passes)
  {
    forall pass | pass in passes
      ensures WrittenTo(pass.cache, ItemsOf(mode, pass))
    {
      var i :| 0 <= i < |passes| && passes[i] == pass;
      GenuineAt(mode, views, before, passes, i);
      assert pass.cache in caches;
      GenuineIsHome(views[pass.cache], Replayed(mode, before, passes[..i]), pass);
      SelectedIsListed(mode, pass.listed.value, pass.reading);
    }
  }

  lemma HomeIsOnlyWriter(mode: Mode, passes: seq<PassRecord>, i: nat)
    requires DistinctCaches(passes) && WritesAtHome(mode, passes) && i < |passes|
    ensures OnlyWriter(mode, passes, i, passes[i].cache)
  {
    forall j | 0 <= j < |passes| && j != i
      ensures Elsewhere(passes[i].cache, ItemsOf(mode, passes[j]))
    {
      assert passes[j] in passes;
    }
  }

  lemma OneOfTheSweep(mode: Mode, views: map<string, SourceView>, before: Database, after: Database,
                      caches: set<string>, passes: seq<PassRecord>, cache: string)
    returns (i: nat)
    requires Swept(mode, views, before, after, caches, passes) && cache in caches
    ensures i < |passes| && passes[i].cache == cache && passes[i] in passes
    ensures cache in views && Genuine(views[cache], Replayed(mode, before, passes[..i]), passes[i])
  {
    var pass :| pass in passes && pass.cache == cache;
    i :| 0 <= i < |passes| && passes[i] == pass;
    GenuineAt(mode, views, before, passes, i);
  }

  /** The objects of all swept sources. */
  ghost function Union(views: map<string, SourceView>, caches: set<string>): set<Fields> {
    set cache, obj | cache in caches && cache in views && obj in Objects(views[cache], cache) :: obj
  }

  /** The items of a sequence of passes, one pass after the other. */
  function AllItems(mode: Mode, passes: seq<PassRecord>): seq<Fields> {
    if passes == [] then []
    else AllItems(mode, passes[..|passes| - 1]) + ItemsOf(mode, passes[|passes| - 1])
  }

  function AllAnswers(passes: seq<PassRecord>): seq<Answer> {
    if passes == [] then [] else AllAnswers(passes[..|passes| - 1]) + passes[|passes| - 1].answers
  }

  lemma {:induction false} PassAfterPass(db: Database, items: seq<Fields>, answers: seq<Answer>,
                                         items': seq<Fields>, answers': seq<Answer>)
    requires |answers| == |items| && |answers'| <= |items'|
    ensures Upserted(Upserted(db, items, answers), items', answers') == Upserted(db, items + items', answers + answers')
  {
    if answers' == [] {
      assert answers + answers' == answers;
      SameFront(db, items, items', answers);
    } else {
      var m := |answers'| - 1;
      PassAfterPass(db, items, answers, items', answers'[..m]);
      assert answers'[..m] + [answers'[m]] == answers';
      assert answers + answers' == (answers + answers'[..m]) + [answers'[m]];
      assert (items + items')[|answers + answers'[..m]|] == items'[m];
      UpsertedOneMore(Upserted(db, items, answers), items', answers'[..m], answers'[m]);
      UpsertedOneMore(db, items + items', answers + answers'[..m], answers'[m]);
    }
  }

  lemma {:induction false} SameFront(db: Database, items: seq<Fields>, more: seq<Fields>, answers: seq<Answer>)
    requires |answers| <= |items|
    ensures Upserted(db, items + more, answers) == Upserted(db, items, answers)
  {
    if answers != [] {
      SameFront(db, items, more, answers[..|answers| - 1]);
    }
  }

  /** Passes that tried all their items are one long pass. */
  lemma {:induction false} PassesAreOne(mode: Mode, db: Database, passes: seq<PassRecord>)
    requires WellRun(mode, passes)
    requires forall pass :: pass in passes ==> AllApplied(pass.answers)
    ensures |AllAnswers(passes)| == |AllItems(mode, passes)| && AllApplied(AllAnswers(passes))
    ensures Replayed(mode, db, passes) == Upserted(db, AllItems(mode, passes), AllAnswers(passes))
  {
    if passes != [] {
      var front, last := passes[..|passes| - 1], passes[|passes| - 1];
      assert passes == front + [last] && last in passes;
      PassesAreOne(mode, db, front);
      AppliedIsNoPanic(last.answers);
      PassAfterPass(db, AllItems(mode, front), AllAnswers(front), ItemsOf(mode, last), last.answers);
    }
  }

  lemma UnionOneMore(views: map<string, SourceView>, caches: set<string>, cache: string)
    requires cache in views
    ensures Union(views, caches + {cache}) == Union(views, caches) + Objects(views[cache], cache)
  {
  }

  lemma InBoth<T>(xs: seq<T>, ys: seq<T>, a: set<T>, b: set<T>)
    requires (forall x :: x in a <==> x in xs) && (forall y :: y in b <==> y in ys)
    ensures forall z :: z in a + b <==> z in xs + ys
  {
  }

  lemma CoversBoth(docs: seq<Fields>, listed: seq<Fields>, objects: set<Fields>,
                   docs': seq<Fields>, listed': seq<Fields>, objects': set<Fields>)
    requires Covers(docs, listed, objects) && Covers(docs', listed', objects')
    ensures Covers(docs + docs', listed + listed', objects + objects')
  {
    InBoth(listed, listed', objects, objects');
    forall i | 0 <= i < |docs + docs'|
      ensures SameDoc((docs + docs')[i], (listed + listed')[i])
    {
      if i < |docs| {
        assert SameDoc(docs[i], listed[i]);
      } else {
        assert SameDoc(docs'[i - |docs|], listed'[i - |docs|]);
      }
    }
  }

  lemma ItemsOneMore(mode: Mode, front: seq<PassRecord>, last: PassRecord)
    ensures AllItems(mode, front + [last]) == AllItems(mode, front) + ItemsOf(mode, last)
  {
    assert (front + [last])[..|front|] == front;
  }

  /** Every pass of a sweep is known with its source. */
  ghost predicate Sourced(views: map<string, SourceView>, passes: seq<PassRecord>) {
    forall pass :: pass in passes ==>
      && pass.listed.Some? && pass.cache in views && Complete(views[pass.cache])
      && exists own :: ListedIn(views[pass.cache], own, pass.cache, pass.listed.value)
  }

  lemma {:induction false} SweepCovers(views: map<string, SourceView>, passes: seq<PassRecord>)
    returns (listed: seq<Fields>)
    requires Sourced(views, passes)
    ensures Covers(AllItems(Full, passes), listed, Union(views, CachesOf(passes)))
  {
    if passes == [] {
      listed := [];
    } else {
      var front, last := passes[..|passes| - 1], passes[|passes| - 1];
      assert passes == front + [last] && last in passes;
      assert forall pass :: pass in front ==> pass in passes;
      var earlier := SweepCovers(views, front);
      var own :| ListedIn(views[last.cache], own, last.cache, last.listed.value);
      var latest := ListingCovers(views[last.cache], own, last.cache, last.listed.value);
      listed := earlier + latest;
      CachesOneMore(front, last);
      ItemsOneMore(Full, front, last);
      UnionOneMore(views, CachesOf(front), last.cache);
      CoversBoth(AllItems(Full, front), earlier, Union(views, CachesOf(front)),
                 last.listed.value, latest, Objects(views[last.cache], last.cache));
    }
  }

  lemma SweepIsSourced(mode: Mode, views: map<string, SourceView>, before: Database, passes: seq<PassRecord>)
    requires WellRun(mode, passes) && AllGenuine(mode, views, before, passes)
    requires AllSucceeded(passes) && AllComplete(views, CachesOf(passes))
    ensures Sourced(views, passes)
  {
    forall pass | pass in passes
      ensures pass.cache in views && Complete(views[pass.cache])
      ensures exists own :: ListedIn(views[pass.cache], own, pass.cache, pass.listed.value)
    {
      var i :| 0 <= i < |passes| && passes[i] == pass;
      GenuineAt(mode, views, before, passes, i);
      assert ListedIn(views[pass.cache], Replayed(mode, before, passes[..i]), pass.cache, pass.listed.value);
    }
  }

  lemma ItemsAreListed(docs: seq<Fields>, listed: seq<Fields>, objects: set<Fields>, dataset: string)
    requires Covers(docs, listed, objects)
    requires forall obj :: obj in objects ==> GroupVersionId(obj) != dataset
    ensures Elsewhere(dataset, docs)
  {
    forall doc | doc in docs
      ensures GroupVersionId(doc) != dataset
    {
      var i :| 0 <= i < |docs| && docs[i] == doc;
      assert SameDoc(docs[i], listed[i]) && listed[i] in listed;
      assert KeyOf(doc).dataset == GroupVersionId(doc);
    }
  }

  /**
   A reconnect in full mode: after a sweep in which every listing and upsert got through, the store holds
   the objects of all registered sources at once exactly when their keys tell all of them apart, and a
   dataset in which no source has an object is as it was. Nothing is assumed of plurals.
   */
  lemma SweepRestoresAll(views: map<string, SourceView>, before: Database, after: Database,
                         caches: set<string>, passes: seq<PassRecord>)
    requires Swept(Full, views, before, after, caches, passes) && AllSucceeded(passes) && AllComplete(views, caches)
    ensures caches <= views.Keys
    ensures HoldsAll(after, Union(views, caches)) <==> ToldApart(Union(views, caches))
    ensures forall dataset :: (forall obj :: obj in Union(views, caches) ==> GroupVersionId(obj) != dataset) ==>
              SameIn(after, before, dataset)
  {
    forall cache | cache in caches
      ensures cache in views
    {
      var i := OneOfTheSweep(Full, views, before, after, caches, passes, cache);
    }
    SweepIsSourced(Full, views, before, passes);
    var listed := SweepCovers(views, passes);
    PassesAreOne(Full, before, passes);
    HoldsAllIffToldApart(before, AllItems(Full, passes), listed, Union(views, caches), AllAnswers(passes));
    forall dataset | forall obj :: obj in Union(views, caches) ==> GroupVersionId(obj) != dataset
      ensures SameIn(after, before, dataset)
    {
      ItemsAreListed(AllItems(Full, passes), listed, Union(views, caches), dataset);
      PassStaysOut(before, AllItems(Full, passes), AllAnswers(passes), dataset);
    }
  }

  /** No two sources have objects in one dataset. */
  ghost predicate Separate(views: map<string, SourceView>, caches: set<string>) {
    forall a, b, x, y :: a in caches && b in caches && a in views && b in views && a != b
                         && x in Objects(views[a], a) && y in Objects(views[b], b) ==>
      GroupVersionId(x) != GroupVersionId(y)
  }

  lemma OthersElsewhere(views: map<string, SourceView>, before: Database, after: Database,
                        caches: set<string>, passes: seq<PassRecord>, i: nat, obj: Fields)
    requires Swept(Full, views, before, after, caches, passes) && AllSucceeded(passes) && AllComplete(views, caches)
    requires Separate(views, caches) && i < |passes| && passes[i].cache in views
    requires obj in Objects(views[passes[i].cache], passes[i].cache)
    ensures OnlyWriter(Full, passes, i, GroupVersionId(obj))
  {
    forall j | 0 <= j < |passes| && j != i
      ensures Elsewhere(GroupVersionId(obj), ItemsOf(Full, passes[j]))
    {
      GenuineAt(Full, views, before, passes, j);
      assert passes[i] in passes && passes[j] in passes;
      var other := passes[j].cache;
      var listed := ListingCovers(views[other], Replayed(Full, before, passes[..j]), other, passes[j].listed.value);
      ItemsAreListed(passes[j].listed.value, listed, Objects(views[other], other), GroupVersionId(obj));
    }
  }

  /**
   Sources that share no dataset are restored independently: each exactly when its own keys tell its
   objects apart.
   */
  lemma SweepRestoresEach(views: map<string, SourceView>, before: Database, after: Database,
                          caches: set<string>, passes: seq<PassRecord>, cache: string)
    requires Swept(Full, views, before, after, caches, passes) && AllSucceeded(passes) && AllComplete(views, caches)
    requires Separate(views, caches) && cache in caches
    ensures cache in views
    ensures HoldsAll(after, Objects(views[cache], cache)) <==> ToldApart(Objects(views[cache], cache))
  {
    var i := OneOfTheSweep(Full, views, before, after, caches, passes, cache);
    var docs, answers, objects := passes[i].listed.value, passes[i].answers, Objects(views[cache], cache);
    AppliedIsNoPanic(answers);
    var listed := ListingCovers(views[cache], Replayed(Full, before, passes[..i]), cache, docs);
    HoldsAllIffToldApart(before, docs, listed, objects, answers);
    forall obj | obj in objects
      ensures SameIn(after, Upserted(before, docs, answers), GroupVersionId(obj))
    {
      OthersElsewhere(views, before, after, caches, passes, i, obj);
      SweepIsPassByPass(Full, before, passes, i, GroupVersionId(obj));
    }
    HoldsAllIsLocal(after, Upserted(before, docs, answers), objects);
  }

  lemma SameIds(a: Database, b: Database, dataset: string)
    requires SameIn(a, b, dataset)
    ensures IdsOf(a, dataset) == IdsOf(b, dataset)
  {
    forall id
      ensures id in IdsOf(a, dataset) <==> id in IdsOf(b, dataset)
    {
      var key := Key(dataset, id);
      assert At(a, key) == At(b, key);
      assert id in IdsOf(a, dataset) <==> key in a;
      assert id in IdsOf(b, dataset) <==> key in b;
    }
  }

  lemma SameReading(a: Database, b: Database, dataset: string, reading: Reading)
    requires SameIn(a, b, dataset) && ReadFrom(a, dataset, reading)
    ensures ReadFrom(b, dataset, reading)
  {
    SameIds(a, b, dataset);
    if reading.keys.Some? {
      forall id
        ensures id in reading.keys.value <==> Key(dataset, id) in b
      {
        assert At(a, Key(dataset, id)) == At(b, Key(dataset, id));
      }
    }
  }

  /**
   A reconnect in incremental mode: after such a sweep, each registered dataset has all names its pass
   listed exactly when the size it had before the sweep masked no missing name; no pass's count or key
   reading is disturbed by the others.
   */
  lemma SweepCompletesAll(views: map<string, SourceView>, before: Database, after: Database,
                          caches: set<string>, passes: seq<PassRecord>)
    requires Swept(Incremental, views, before, after, caches, passes)
    requires AllSucceeded(passes) && GoodSources(views, caches)
    requires forall pass :: pass in passes ==> DistinctNames(pass.listed.value) && pass.reading.count.Some?
    ensures forall pass :: pass in passes ==>
              var names, present := NamesOf(pass.listed.value), IdsOf(before, pass.cache);
              && (names <= IdsOf(after, pass.cache) <==> |present| < |pass.listed.value| || names <= present)
              && (present <= names ==> IdsOf(after, pass.cache) == names)
  {
    SweepWritesAtHome(Incremental, views, before, after, caches, passes);
    forall pass | pass in passes
      ensures var names, present := NamesOf(pass.listed.value), IdsOf(before, pass.cache);
              && (names <= IdsOf(after, pass.cache) <==> |present| < |pass.listed.value| || names <= present)
              && (present <= names ==> IdsOf(after, pass.cache) == names)
    {
      var i :| 0 <= i < |passes| && passes[i] == pass;
      var cache, midway := pass.cache, Replayed(Incremental, before, passes[..i]);
      GenuineAt(Incremental, views, before, passes, i);
      GenuineIsHome(views[cache], midway, pass);
      HomeIsOnlyWriter(Incremental, passes, i);
      SweepIsPassByPass(Incremental, before, passes, i, cache);
      SameReading(midway, before, cache, pass.reading);
      IncrementalCompleteness(before, cache, pass.listed.value, pass.reading, pass.answers);
      SameIds(after, Upserted(before, ItemsOf(Incremental, pass), pass.answers), cache);
    }
  }
}
