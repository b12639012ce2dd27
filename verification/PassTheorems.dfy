/**
 What reconciliation passes achieve: exact effect, idempotence, repair of a diverged secondary,
 and completeness of the incremental pass.
 */
module PassTheorems {
  import opened Wrappers
  import opened Json
  import opened Config
  import opened Replication
  import opened Stores
  import opened Reconciliation

  // ----- Exact effect and idempotence ------------------------------------------------

  /** The upserts of a pass that took effect, in order. */
  function Effective(items: seq<Fields>, answers: seq<Answer>): seq<StoreOp>
    requires |answers| <= |items|
  {
    if answers == [] then []
    else
      var n := |answers| - 1;
      var before := Effective(items, answers[..n]);
      if answers[n].Applied() then before + [RestoreOp(items[n])] else before
  }

  lemma {:induction false} UpsertedIsFold(db: Database, items: seq<Fields>, answers: seq<Answer>)
    requires |answers| <= |items|
    ensures Upserted(db, items, answers) == ApplyAll(db, Effective(items, answers))
  {
    if answers != [] {
      var n := |answers| - 1;
      UpsertedIsFold(db, items, answers[..n]);
      ApplyOneMore(db, Effective(items, answers[..n]), RestoreOp(items[n]));
    }
  }

  lemma RestoreKey(item: Fields)
    ensures RestoreOp(item) == Put(KeyOf(item), WithEnvironment(item))
  {
    EnvironmentKeepsIdentity(item);
    EnvironmentKeepsDataset(item);
  }

  /** The index of the last item that took effect on `key`, or -1. */
  function LastEffective(items: seq<Fields>, answers: seq<Answer>, key: Key): (i: int)
    requires |answers| <= |items|
    ensures -1 <= i < |answers|
    ensures i >= 0 ==> answers[i].Applied() && KeyOf(items[i]) == key
    ensures forall j :: i < j < |answers| && answers[j].Applied() ==> KeyOf(items[j]) != key
  {
    if answers == [] then -1
    else
      var n := |answers| - 1;
      if answers[n].Applied() && KeyOf(items[n]) == key then n
      else
        var i := LastEffective(items, answers[..n], key);
        assert forall j :: 0 <= j < n ==> answers[..n][j] == answers[j];
        i
  }

  /**
   After a pass a key holds the normalised form of the last item for it that got through, and
   keys that no such item has are as before: an item's error affects no other item.
   */
  lemma {:induction false} PassIsExact(db: Database, items: seq<Fields>, answers: seq<Answer>, key: Key)
    requires |answers| <= |items|
    ensures var i := LastEffective(items, answers, key);
            At(Upserted(db, items, answers), key) == if i >= 0 then Some(WithEnvironment(items[i])) else At(db, key)
  {
    if answers != [] {
      var n := |answers| - 1;
      PassIsExact(db, items, answers[..n], key);
      RestoreKey(items[n]);
    }
  }

  function KeysOf(items: seq<Fields>): set<Key> {
    set item | item in items :: KeyOf(item)
  }

  lemma OthersUntouched(db: Database, items: seq<Fields>, answers: seq<Answer>, key: Key)
    requires |answers| <= |items|
    ensures key in KeysOf(items) || At(Upserted(db, items, answers), key) == At(db, key)
  {
    PassIsExact(db, items, answers, key);
    var i := LastEffective(items, answers, key);
    if i >= 0 {
      assert items[i] in items;
    }
  }

  /** Nothing in a pass removes a key. */
  lemma PassKeepsKeys(db: Database, items: seq<Fields>, answers: seq<Answer>)
    requires |answers| <= |items|
    ensures db.Keys <= Upserted(db, items, answers).Keys
  {
    forall key | key in db
      ensures key in Upserted(db, items, answers)
    {
      PassIsExact(db, items, answers, key);
      assert At(Upserted(db, items, answers), key).Some?;
    }
  }

  function Edited(items: seq<Fields>): (edited: seq<Fields>)
    ensures |edited| == |items|
  {
    seq(|items|, i requires 0 <= i < |items| => WithEnvironment(items[i]))
  }

  predicate AllApplied(answers: seq<Answer>) {
    forall answer :: answer in answers ==> answer.Applied()
  }

  lemma {:induction false} SameOpsAgain(items: seq<Fields>, first: seq<Answer>, second: seq<Answer>)
    requires |first| == |second| <= |items| && AllApplied(first) && AllApplied(second)
    ensures Effective(Edited(items), second) == Effective(items, first)
  {
    if first != [] {
      var n := |first| - 1;
      SameOpsAgain(items, first[..n], second[..n]);
      RestoreOpIdempotent(items[n]);
    }
  }

  /**
   A second failure-free full pass over the same listing changes nothing, although the first one
   has edited the listed objects; names need not be distinct.
   */
  lemma FullPassIdempotent(db: Database, items: seq<Fields>, first: seq<Answer>, second: seq<Answer>)
    requires |first| == |second| == |items| && AllApplied(first) && AllApplied(second)
    ensures var once := Upserted(db, items, first); Upserted(once, Edited(items), second) == once
  {
    var once := Upserted(db, items, first);
    UpsertedIsFold(db, items, first);
    UpsertedIsFold(once, Edited(items), second);
    SameOpsAgain(items, first, second);
    ReplayChangesNothing(db, Effective(items, first));
  }

  // ----- Repair of the secondary from the primary's listing ----------------------------

  ghost predicate Restored(db: Database, docs: seq<Fields>) {
    forall i :: 0 <= i < |docs| ==> At(db, KeyOf(docs[i])) == Some(WithEnvironment(docs[i]))
  }

  /** Listed documents that Hazelcast keys alike are alike. */
  ghost predicate KeysTellApart(docs: seq<Fields>) {
    forall i, j :: 0 <= i < |docs| && 0 <= j < |docs| && KeyOf(docs[i]) == KeyOf(docs[j]) ==>
      WithEnvironment(docs[i]) == WithEnvironment(docs[j])
  }

  lemma RestoredByLast(db: Database, docs: seq<Fields>, answers: seq<Answer>, i: nat) returns (last: nat)
    requires |answers| == |docs| && AllApplied(answers) && i < |docs|
    ensures last < |docs| && KeyOf(docs[last]) == KeyOf(docs[i])
    ensures At(Upserted(db, docs, answers), KeyOf(docs[i])) == Some(WithEnvironment(docs[last]))
    ensures forall j :: last < j < |docs| ==> KeyOf(docs[j]) != KeyOf(docs[i])
  {
    assert answers[i] in answers;
    PassIsExact(db, docs, answers, KeyOf(docs[i]));
    last := LastEffective(docs, answers, KeyOf(docs[i]));
    forall j | last < j < |docs|
      ensures KeyOf(docs[j]) != KeyOf(docs[i])
    {
      assert answers[j] in answers;
    }
  }

  lemma RestoredIffToldApart(db: Database, docs: seq<Fields>, answers: seq<Answer>)
    requires |answers| == |docs| && AllApplied(answers)
    ensures Restored(Upserted(db, docs, answers), docs) <==> KeysTellApart(docs)
  {
    var after := Upserted(db, docs, answers);
    if KeysTellApart(docs) {
      forall i | 0 <= i < |docs|
        ensures At(after, KeyOf(docs[i])) == Some(WithEnvironment(docs[i]))
      {
        var last := RestoredByLast(db, docs, answers, i);
      }
    }
    if Restored(after, docs) {
      forall i, j | 0 <= i < |docs| && 0 <= j < |docs| && KeyOf(docs[i]) == KeyOf(docs[j])
        ensures WithEnvironment(docs[i]) == WithEnvironment(docs[j])
      {
        assert At(after, KeyOf(docs[i])) == Some(WithEnvironment(docs[i]));
        assert At(after, KeyOf(docs[j])) == Some(WithEnvironment(docs[j]));
      }
    }
  }

  /**
   From any diverged secondary, one failure-free full pass restores every listed document exactly
   when the listing's keys tell its documents apart; whatever else the secondary held stays.
   */
  lemma FullPassRepairs(db: Database, docs: seq<Fields>, answers: seq<Answer>)
    requires |answers| == |docs| && AllApplied(answers)
    ensures var after := Upserted(db, docs, answers);
            && (Restored(after, docs) <==> KeysTellApart(docs))
            && (forall key :: key !in KeysOf(docs) ==> At(after, key) == At(db, key))
            && after.Keys - KeysOf(docs) == db.Keys - KeysOf(docs)
            && KeysOf(docs) <= after.Keys
  {
    RestoredIffToldApart(db, docs, answers);
    ListedPresent(db, docs, answers);
    forall key | key !in KeysOf(docs)
      ensures At(Upserted(db, docs, answers), key) == At(db, key)
    {
      OthersUntouched(db, docs, answers, key);
    }
    SameElsewhere(Upserted(db, docs, answers), db, KeysOf(docs));
  }

  lemma ListedPresent(db: Database, docs: seq<Fields>, answers: seq<Answer>)
    requires |answers| == |docs| && AllApplied(answers)
    ensures KeysOf(docs) <= Upserted(db, docs, answers).Keys
  {
    forall key | key in KeysOf(docs)
      ensures key in Upserted(db, docs, answers)
    {
      var doc :| doc in docs && KeyOf(doc) == key;
      var i :| 0 <= i < |docs| && docs[i] == doc;
      var last := RestoredByLast(db, docs, answers, i);
    }
  }

  lemma SameElsewhere(a: Database, b: Database, keys: set<Key>)
    requires forall key :: key !in keys ==> At(a, key) == At(b, key)
    ensures a.Keys - keys == b.Keys - keys
  {
  }

  /** The store holds the normalised documents and nothing else. */
  ghost predicate Mirror(db: Database, docs: seq<Fields>) {
    Restored(db, docs) && db.Keys == KeysOf(docs)
  }

  /** A full pass makes the store a mirror of the listing exactly when there was no stale key to begin with. */
  lemma FullPassMirrorsIff(db: Database, docs: seq<Fields>, answers: seq<Answer>)
    requires |answers| == |docs| && AllApplied(answers)
    ensures Mirror(Upserted(db, docs, answers), docs) <==> KeysTellApart(docs) && db.Keys <= KeysOf(docs)
  {
    FullPassRepairs(db, docs, answers);
    SameRemainder(Upserted(db, docs, answers).Keys, db.Keys, KeysOf(docs));
  }

  lemma SameRemainder<T>(after: set<T>, before: set<T>, listed: set<T>)
    requires after - listed == before - listed && listed <= after
    ensures after == listed <==> before <= listed
  {
    assert forall x :: x in before && x !in listed ==> x in before - listed;
    assert forall x :: x in after && x !in listed ==> x in after - listed;
  }

  lemma EnvironmentIgnoresId(doc: Fields)
    ensures WithoutId(WithEnvironment(doc)) == WithEnvironment(WithoutId(doc))
  {
  }

  lemma IdentityIgnoresId(doc: Fields, id: Json)
    ensures KeyOf(doc["_id" := id]) == KeyOf(doc)
  {
  }

  ghost predicate DistinctInHazelcast(primary: Database, dataset: string) {
    forall a, b :: Key(dataset, a) in primary && Key(dataset, b) in primary ==>
      KeyOf(primary[Key(dataset, a)]) == KeyOf(primary[Key(dataset, b)]) ==> a == b
  }

  lemma ListingKeys(resources: seq<Resource>, primary: Database, dataset: string, ids: seq<string>, docs: seq<Fields>)
    requires Lists(Mongo(resources), primary, dataset, ids, docs)
    ensures forall i :: 0 <= i < |ids| ==>
              && Key(dataset, ids[i]) in primary
              && KeyOf(docs[i]) == KeyOf(primary[Key(dataset, ids[i])])
              && WithoutId(docs[i]) == WithoutId(primary[Key(dataset, ids[i])])
  {
    forall i | 0 <= i < |ids|
      ensures Key(dataset, ids[i]) in primary
      ensures KeyOf(docs[i]) == KeyOf(primary[Key(dataset, ids[i])])
      ensures WithoutId(docs[i]) == WithoutId(primary[Key(dataset, ids[i])])
    {
      assert ids[i] in ids;
      IdentityIgnoresId(primary[Key(dataset, ids[i])], Str(ids[i]));
    }
  }

  lemma ListingToldApart(resources: seq<Resource>, primary: Database, dataset: string, ids: seq<string>,
                         docs: seq<Fields>)
    requires Lists(Mongo(resources), primary, dataset, ids, docs) && DistinctInHazelcast(primary, dataset)
    ensures KeysTellApart(docs)
  {
    ListingKeys(resources, primary, dataset, ids, docs);
    forall i, j | 0 <= i < |docs| && 0 <= j < |docs| && KeyOf(docs[i]) == KeyOf(docs[j])
      ensures docs[i] == docs[j]
    {
      assert ids[i] == ids[j];
    }
  }

  /**
   Provisioning mode: one failure-free full pass over a complete listing of a MongoDB dataset whose
   objects have distinct names leaves each of them in Hazelcast under its name, in normalised form
   and equal to the primary's document up to `_id`, and leaves the stale keys as they were.
   */
  lemma RepairFromPrimary(resources: seq<Resource>, primary: Database, dataset: string, secondary: Database,
                          ids: seq<string>, docs: seq<Fields>, answers: seq<Answer>)
    requires Lists(Mongo(resources), primary, dataset, ids, docs) && DistinctInHazelcast(primary, dataset)
    requires |answers| == |docs| && AllApplied(answers)
    ensures var after := Upserted(secondary, docs, answers);
            var restored := set id | id in ids :: KeyOf(primary[Key(dataset, id)]);
            && (forall id :: Key(dataset, id) in primary ==>
                  var doc := primary[Key(dataset, id)];
                  && KeyOf(doc) in after
                  && WithoutId(after[KeyOf(doc)]) == WithEnvironment(WithoutId(doc)))
            && (forall key :: key !in restored ==> At(after, key) == At(secondary, key))
            && after.Keys - restored == secondary.Keys - restored
  {
    var after := Upserted(secondary, docs, answers);
    ListingKeys(resources, primary, dataset, ids, docs);
    ListingToldApart(resources, primary, dataset, ids, docs);
    FullPassRepairs(secondary, docs, answers);
    SameKeys(primary, dataset, ids, docs);
    forall id | Key(dataset, id) in primary
      ensures var doc := primary[Key(dataset, id)];
              KeyOf(doc) in after && WithoutId(after[KeyOf(doc)]) == WithEnvironment(WithoutId(doc))
    {
      assert id in ids;
      var i :| 0 <= i < |ids| && ids[i] == id;
      assert At(after, KeyOf(docs[i])) == Some(WithEnvironment(docs[i]));
      EnvironmentIgnoresId(docs[i]);
    }
  }

  lemma SameKeys(primary: Database, dataset: string, ids: seq<string>, docs: seq<Fields>)
    requires |docs| == |ids| && forall i :: 0 <= i < |ids| ==> Key(dataset, ids[i]) in primary
    requires forall i :: 0 <= i < |ids| ==> KeyOf(docs[i]) == KeyOf(primary[Key(dataset, ids[i])])
    ensures KeysOf(docs) == set id | id in ids :: KeyOf(primary[Key(dataset, id)])
  {
  }

  // ----- The incremental pass -----------------------------------------------------------

  /** The positions of the resources whose names are not among the keys. */
  function MissingAt(items: seq<Fields>, keys: seq<string>): (at: seq<nat>)
    ensures forall n :: n in at ==> n < |items|
  {
    if items == [] then []
    else
      var n := |items| - 1;
      var before := MissingAt(items[..n], keys);
      if Name(items[n]) in keys then before else before + [n]
  }

  lemma {:induction false} MissingAtIncreases(items: seq<Fields>, keys: seq<string>)
    ensures forall i, j :: 0 <= i < j < |MissingAt(items, keys)| ==>
              MissingAt(items, keys)[i] < MissingAt(items, keys)[j]
  {
    if items != [] {
      var before := MissingAt(items[..|items| - 1], keys);
      MissingAtIncreases(items[..|items| - 1], keys);
      assert forall i :: 0 <= i < |before| ==> before[i] in before;
    }
  }

  lemma {:induction false} MissingAtExact(items: seq<Fields>, keys: seq<string>, n: nat)
    requires n < |items|
    ensures n in MissingAt(items, keys) <==> Name(items[n]) !in keys
  {
    if n < |items| - 1 {
      MissingAtExact(items[..|items| - 1], keys, n);
    }
  }

  lemma {:induction false} SameLength(items: seq<Fields>, keys: seq<string>)
    ensures |Missing(items, keys)| == |MissingAt(items, keys)|
  {
    if items != [] {
      SameLength(items[..|items| - 1], keys);
    }
  }

  lemma {:induction false} MissingByPosition(items: seq<Fields>, keys: seq<string>, i: nat)
    requires i < |MissingAt(items, keys)| == |Missing(items, keys)|
    ensures MissingAt(items, keys)[i] in MissingAt(items, keys)
    ensures Missing(items, keys)[i] == items[MissingAt(items, keys)[i]]
  {
    var n := |items| - 1;
    SameLength(items, keys);
    SameLength(items[..n], keys);
    if i < |MissingAt(items[..n], keys)| {
      MissingByPosition(items[..n], keys, i);
    }
  }

  /** The diff is exactly the order-preserving subsequence of the resources with names outside the keys. */
  lemma DiffIsSubsequence(items: seq<Fields>, keys: seq<string>)
    ensures var diff, at := Missing(items, keys), MissingAt(items, keys);
            && |diff| == |at|
            && (forall i :: 0 <= i < |at| ==> at[i] < |items| && diff[i] == items[at[i]])
            && (forall i, j :: 0 <= i < j < |at| ==> at[i] < at[j])
            && (forall n: nat :: n < |items| ==> (n in at <==> Name(items[n]) !in keys))
  {
    SameLength(items, keys);
    MissingAtIncreases(items, keys);
    forall i | 0 <= i < |MissingAt(items, keys)|
      ensures MissingAt(items, keys)[i] < |items| && Missing(items, keys)[i] == items[MissingAt(items, keys)[i]]
    {
      MissingByPosition(items, keys, i);
    }
    forall n: nat | n < |items|
      ensures n in MissingAt(items, keys) <==> Name(items[n]) !in keys
    {
      MissingAtExact(items, keys, n);
    }
  }

  ghost predicate DistinctNames(items: seq<Fields>) {
    forall i, j :: 0 <= i < j < |items| ==> Name(items[i]) != Name(items[j])
  }

  function NamesOf(items: seq<Fields>): set<string> {
    set item | item in items :: Name(item)
  }

  /** Every item is written to the dataset that the pass counts. */
  ghost predicate WrittenTo(dataset: string, items: seq<Fields>) {
    forall item :: item in items ==> GroupVersionId(item) == dataset
  }

  lemma {:induction false} DistinctNamesSize(items: seq<Fields>)
    requires DistinctNames(items)
    ensures |NamesOf(items)| == |items|
  {
    if items != [] {
      var front, last := items[..|items| - 1], items[|items| - 1];
      DistinctNamesSize(front);
      assert items == front + [last];
      assert NamesOf(items) == NamesOf(front) + {Name(last)};
      assert Name(last) !in NamesOf(front);
    }
  }

  lemma {:induction false} MissingMembers(items: seq<Fields>, keys: seq<string>)
    ensures forall item :: item in Missing(items, keys) <==> item in items && Name(item) !in keys
  {
    if items != [] {
      var n := |items| - 1;
      MissingMembers(items[..n], keys);
      assert items == items[..n] + [items[n]];
    }
  }

  /** The names that count as present: those read, or none when they could not be read. */
  function KeysRead(reading: Reading): seq<string> {
    if reading.keys.Some? then reading.keys.value else []
  }

  /** What a pass leaves of the entries that were there: all of them as they were. */
  ghost predicate KeepsEntries(db: Database, items: seq<Fields>, answers: seq<Answer>)
    requires |answers| <= |items|
  {
    forall key :: key in db ==> At(Upserted(db, items, answers), key) == Some(db[key])
  }

  /** A pass keeps the entries exactly when the last item that got through to each of them was stored already. */
  lemma KeepsEntriesIff(db: Database, items: seq<Fields>, answers: seq<Answer>)
    requires |answers| <= |items|
    ensures KeepsEntries(db, items, answers) <==>
            forall key :: key in db ==>
              var i := LastEffective(items, answers, key); i >= 0 ==> db[key] == WithEnvironment(items[i])
  {
    forall key | key in db
      ensures var i := LastEffective(items, answers, key);
              At(Upserted(db, items, answers), key) == if i >= 0 then Some(WithEnvironment(items[i])) else Some(db[key])
    {
      PassIsExact(db, items, answers, key);
    }
  }

  /** Every item whose key is present is stored already, in normalised form. */
  ghost predicate PresentAreCurrent(db: Database, items: seq<Fields>) {
    forall i :: 0 <= i < |items| && KeyOf(items[i]) in db ==> db[KeyOf(items[i])] == WithEnvironment(items[i])
  }

  /** Only the i-th of `n` calls takes effect. */
  function OnlyAt(n: nat, i: nat): (answers: seq<Answer>)
    ensures |answers| == n
  {
    seq(n, j => if j == i then Done else Refused)
  }

  lemma OnlyAtTakesEffect(db: Database, items: seq<Fields>, i: nat)
    requires i < |items|
    ensures RanThrough(items, OnlyAt(|items|, i))
    ensures At(Upserted(db, items, OnlyAt(|items|, i)), KeyOf(items[i])) == Some(WithEnvironment(items[i]))
  {
    PassIsExact(db, items, OnlyAt(|items|, i), KeyOf(items[i]));
    assert LastEffective(items, OnlyAt(|items|, i), KeyOf(items[i])) == i;
  }

  /**
   A pass is safe for the entries that are there, whatever the remote side answers, exactly when it selects
   none of them anew.
   */
  lemma KeepsEntriesWhateverIff(db: Database, items: seq<Fields>)
    ensures (forall answers :: RanThrough(items, answers) ==> KeepsEntries(db, items, answers)) <==>
            PresentAreCurrent(db, items)
  {
    if PresentAreCurrent(db, items) {
      forall answers | RanThrough(items, answers)
        ensures KeepsEntries(db, items, answers)
      {
        KeepsEntriesIff(db, items, answers);
      }
    }
    if forall answers :: RanThrough(items, answers) ==> KeepsEntries(db, items, answers) {
      forall i | 0 <= i < |items| && KeyOf(items[i]) in db
        ensures db[KeyOf(items[i])] == WithEnvironment(items[i])
      {
        OnlyAtTakesEffect(db, items, i);
      }
    }
  }

  /**
   The frame of an incremental pass, exactly: whatever the remote side answers to its upserts, no entry
   that was there changes, unless the sizes differ and some listed object is stored with another content
   under a key that the pass could not see: because the keys could not be read, or because the object is
   written to another dataset than the counted one.
   */
  lemma IncrementalKeepsEntries(db: Database, dataset: string, items: seq<Fields>, reading: Reading)
    requires ReadFrom(db, dataset, reading)
    ensures var selected := Selected(Incremental, items, reading);
            (forall answers :: RanThrough(selected, answers) ==> KeepsEntries(db, selected, answers)) <==>
            || reading.count.None? || reading.count.value >= |items|
            || UnseenAreCurrent(db, dataset, items, reading)
  {
    var selected := Selected(Incremental, items, reading);
    KeepsEntriesWhateverIff(db, selected);
    if reading.count.Some? && reading.count.value < |items| {
      SelectedAreUnseen(db, dataset, items, reading);
    }
  }

  /** Listed objects whose keys are in the store but were not seen there are stored already, in normalised form. */
  ghost predicate UnseenAreCurrent(db: Database, dataset: string, items: seq<Fields>, reading: Reading) {
    forall item :: item in items && KeyOf(item) in db && Name(item) !in KeysRead(reading)
                   && (reading.keys.None? || GroupVersionId(item) != dataset) ==>
      db[KeyOf(item)] == WithEnvironment(item)
  }

  lemma SelectedAreUnseen(db: Database, dataset: string, items: seq<Fields>, reading: Reading)
    requires ReadFrom(db, dataset, reading)
    ensures PresentAreCurrent(db, Missing(items, KeysRead(reading))) <==> UnseenAreCurrent(db, dataset, items, reading)
  {
    var selected := Missing(items, KeysRead(reading));
    MissingMembers(items, KeysRead(reading));
    if UnseenAreCurrent(db, dataset, items, reading) {
      forall i | 0 <= i < |selected| && KeyOf(selected[i]) in db
        ensures db[KeyOf(selected[i])] == WithEnvironment(selected[i])
      {
        assert selected[i] in selected;
        assert KeyOf(selected[i]) == Key(GroupVersionId(selected[i]), Name(selected[i]));
      }
    }
    if PresentAreCurrent(db, selected) {
      forall item | item in items && KeyOf(item) in db && Name(item) !in KeysRead(reading)
        ensures db[KeyOf(item)] == WithEnvironment(item)
      {
        assert item in selected;
      }
    }
  }

  /** When every object is written to the counted dataset, only a failed key read after a size mismatch can rewrite. */
  lemma HomePassKeepsEntries(db: Database, dataset: string, items: seq<Fields>, reading: Reading)
    requires ReadFrom(db, dataset, reading) && WrittenTo(dataset, items)
    ensures var selected := Selected(Incremental, items, reading);
            (forall answers :: RanThrough(selected, answers) ==> KeepsEntries(db, selected, answers)) <==>
            || reading.count.None? || reading.count.value >= |items|
            || reading.keys.Some?
            || PresentAreCurrent(db, items)
  {
    IncrementalKeepsEntries(db, dataset, items, reading);
    if PresentAreCurrent(db, items) {
      forall item | item in items && KeyOf(item) in db
        ensures db[KeyOf(item)] == WithEnvironment(item)
      {
        var i :| 0 <= i < |items| && items[i] == item;
      }
    }
    if reading.keys.None? && UnseenAreCurrent(db, dataset, items, reading) {
      forall i | 0 <= i < |items| && KeyOf(items[i]) in db
        ensures db[KeyOf(items[i])] == WithEnvironment(items[i])
      {
        assert items[i] in items;
      }
    }
  }

  /**
   A failed key read rewrites entries: one of two listed names is stored with another content, and the
   upsert for it gets through.
   */
  lemma FailedKeysRewrite(dataset: string, present: Fields, absent: Fields, stored: Fields)
    requires GroupVersionId(present) == dataset && stored != WithEnvironment(present)
    ensures var db := map[KeyOf(present) := stored];
            var reading, answers := Reading(Some(1), None), OnlyAt(2, 0);
            var selected := Selected(Incremental, [present, absent], reading);
            && ReadFrom(db, dataset, reading)
            && RanThrough(selected, answers)
            && At(Upserted(db, selected, answers), KeyOf(present)) == Some(WithEnvironment(present))
            && At(db, KeyOf(present)) == Some(stored)
  {
    var db := map[KeyOf(present) := stored];
    assert IdsOf(db, dataset) == {Name(present)};
    FailedKeysMeanFullPass([present, absent], Reading(Some(1), None));
    OnlyAtTakesEffect(db, [present, absent], 0);
  }

  /**
   With every read successful an object that is written to another dataset than the counted one is
   rewritten as well: the counted dataset looks empty, so the object counts as missing.
   */
  lemma ForeignDatasetRewrites(dataset: string, item: Fields, stored: Fields)
    requires GroupVersionId(item) != dataset && stored != WithEnvironment(item)
    ensures var db := map[KeyOf(item) := stored];
            var reading, answers := Reading(Some(0), Some([])), OnlyAt(1, 0);
            var selected := Selected(Incremental, [item], reading);
            && ReadFrom(db, dataset, reading)
            && RanThrough(selected, answers)
            && At(Upserted(db, selected, answers), KeyOf(item)) == Some(WithEnvironment(item))
            && At(db, KeyOf(item)) == Some(stored)
  {
    var db := map[KeyOf(item) := stored];
    assert IdsOf(db, dataset) == {};
    NothingFiltered([item]);
    OnlyAtTakesEffect(db, [item], 0);
  }

  /**
   A pass whose objects are all written elsewhere never changes the keys that it counts, so the size check
   never closes.
   */
  lemma ForeignPassNeverCloses(db: Database, dataset: string, items: seq<Fields>, reading: Reading,
                               answers: seq<Answer>)
    requires forall item :: item in items ==> GroupVersionId(item) != dataset
    requires RanThrough(Selected(Incremental, items, reading), answers)
    ensures var after := Upserted(db, Selected(Incremental, items, reading), answers);
            && IdsOf(after, dataset) == IdsOf(db, dataset)
            && forall later :: ReadFrom(after, dataset, later) <==> ReadFrom(db, dataset, later)
  {
    var selected := Selected(Incremental, items, reading);
    var after := Upserted(db, selected, answers);
    MissingMembers(items, KeysRead(reading));
    forall id
      ensures Key(dataset, id) in after <==> Key(dataset, id) in db
    {
      OthersUntouched(db, selected, answers, Key(dataset, id));
      assert At(after, Key(dataset, id)) == At(db, Key(dataset, id));
    }
    forall id
      ensures id in IdsOf(after, dataset) <==> id in IdsOf(db, dataset)
    {
      assert id in IdsOf(after, dataset) <==> Key(dataset, id) in after;
      assert id in IdsOf(db, dataset) <==> Key(dataset, id) in db;
    }
  }

  lemma SelectedKeys(db: Database, dataset: string, selected: seq<Fields>, answers: seq<Answer>)
    requires WrittenTo(dataset, selected) && |answers| == |selected| && AllApplied(answers)
    ensures IdsOf(Upserted(db, selected, answers), dataset) == IdsOf(db, dataset) + NamesOf(selected)
  {
    var after := Upserted(db, selected, answers);
    FullPassRepairs(db, selected, answers);
    forall id
      ensures id in IdsOf(after, dataset) <==> id in IdsOf(db, dataset) + NamesOf(selected)
    {
      var key := Key(dataset, id);
      assert id in IdsOf(after, dataset) <==> key in after;
      assert id in IdsOf(db, dataset) <==> key in db;
      assert id in NamesOf(selected) <==> key in KeysOf(selected) by {
        if id in NamesOf(selected) {
          var item :| item in selected && Name(item) == id;
          assert KeyOf(item) == key;
        }
        if key in KeysOf(selected) {
          var item :| item in selected && KeyOf(item) == key;
          assert Name(item) == id;
        }
      }
      if key !in KeysOf(selected) {
        assert At(after, key) == At(db, key);
      }
    }
  }

  lemma AppliedIsNoPanic(answers: seq<Answer>)
    requires AllApplied(answers)
    ensures !PanickedAtLast(answers)
  {
    assert answers != [] ==> answers[|answers| - 1] in answers;
  }

  lemma AllNamesPresent(db: Database, dataset: string, items: seq<Fields>, reading: Reading)
    requires ReadFrom(db, dataset, reading) && reading.count.Some? && reading.count.value < |items|
    ensures NamesOf(items) <= IdsOf(db, dataset) + NamesOf(Selected(Incremental, items, reading))
  {
    MissingMembers(items, KeysRead(reading));
    forall name | name in NamesOf(items)
      ensures name in IdsOf(db, dataset) + NamesOf(Selected(Incremental, items, reading))
    {
      var item :| item in items && Name(item) == name;
      if name in KeysRead(reading) {
        assert Key(dataset, name) in db;
      }
    }
  }

  /**
   After a failure-free incremental pass the keys are those there were and all names of the source,
   exactly when the size check did not mask a missing name behind stale ones.
   */
  lemma IncrementalCompleteness(db: Database, dataset: string, items: seq<Fields>, reading: Reading,
                                answers: seq<Answer>)
    requires DistinctNames(items) && WrittenTo(dataset, items)
    requires ReadFrom(db, dataset, reading) && reading.count.Some?
    requires RanThrough(Selected(Incremental, items, reading), answers) && AllApplied(answers)
    ensures var after := Upserted(db, Selected(Incremental, items, reading), answers);
            && (NamesOf(items) <= IdsOf(after, dataset) <==>
                  |IdsOf(db, dataset)| < |items| || NamesOf(items) <= IdsOf(db, dataset))
            && (IdsOf(db, dataset) <= NamesOf(items) ==> IdsOf(after, dataset) == NamesOf(items))
  {
    var selected := Selected(Incremental, items, reading);
    MissingMembers(items, KeysRead(reading));
    AppliedIsNoPanic(answers);
    SelectedKeys(db, dataset, selected, answers);
    assert NamesOf(selected) <= NamesOf(items);
    if |IdsOf(db, dataset)| < |items| {
      AllNamesPresent(db, dataset, items, reading);
    } else {
      assert selected == [] && NamesOf(selected) == {};
      if IdsOf(db, dataset) <= NamesOf(items) {
        DistinctNamesSize(items);
        SubsetSize(IdsOf(db, dataset), NamesOf(items));
      }
    }
  }

  /** The pigeonhole step: a subset that is no smaller is the whole set. */
  lemma {:induction false} SubsetSize<T>(part: set<T>, whole: set<T>)
    requires part <= whole
    ensures |part| <= |whole|
    ensures |part| == |whole| ==> part == whole
    decreases part
  {
    if part == {} {
      assert |whole| == 0 ==> whole == {};
    } else {
      var x :| x in part;
      SubsetSize(part - {x}, whole - {x});
      assert |part - {x}| == |whole - {x}| ==> part == whole by {
        if |part - {x}| == |whole - {x}| {
          assert part == (part - {x}) + {x} && whole == (whole - {x}) + {x};
        }
      }
    }
  }

  /** A stale key can mask a missing one: sizes agree, and the missing name stays missing. */
  lemma StaleKeyMasksMissingName(dataset: string, stale: string, item: Fields, leftover: Fields)
    requires stale != Name(item) && GroupVersionId(item) == dataset
    ensures var db := map[Key(dataset, stale) := leftover];
            var reading := Reading(Some(1), Some([stale]));
            && ReadFrom(db, dataset, reading)
            && Selected(Incremental, [item], reading) == []
            && KeyOf(item) !in Upserted(db, [], [])
  {
    var db := map[Key(dataset, stale) := leftover];
    assert IdsOf(db, dataset) == {stale};
  }

  lemma {:induction false} NothingFiltered(items: seq<Fields>)
    ensures Missing(items, []) == items
  {
    if items != [] {
      var n := |items| - 1;
      NothingFiltered(items[..n]);
      assert items[..n] + [items[n]] == items;
    }
  }

  /** When the keys cannot be read after a size mismatch, the incremental pass is a full one. */
  lemma FailedKeysMeanFullPass(items: seq<Fields>, reading: Reading)
    requires reading.count.Some? && reading.count.value < |items| && reading.keys.None?
    ensures Selected(Incremental, items, reading) == Selected(Full, items, reading)
  {
    NothingFiltered(items);
  }
}
