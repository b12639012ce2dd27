/**
 Reconciliation passes: internal/reconciliation/reconciliation.go and its data sources.

 A pass lists the source of truth, chooses the items to restore (all of them, or those whose
 names the store lacks), defaults their environment in place and upserts them one by one.
 */
module Reconciliation {
  import opened Wrappers
  import opened Json
  import opened Config
  import opened Replication
  import opened Stores
  import opened StoreManager

  datatype Mode = Full | Incremental | Unknown

  // ----- What a pass computes, on values -----------------------------------------

  /** The key under which Hazelcast holds an object. */
  function KeyOf(item: Fields): Key {
    Key(GroupVersionId(item), Name(item))
  }

  function RestoreOp(item: Fields): StoreOp {
    HazelcastOp(Create(WithEnvironment(item)))
  }

  /** The store after the first `|answers|` items of a pass have been tried. */
  function Upserted(db: Database, items: seq<Fields>, answers: seq<Answer>): Database
    requires |answers| <= |items|
  {
    if answers == [] then db
    else
      var n := |answers| - 1;
      After(Upserted(db, items, answers[..n]), RestoreOp(items[n]), answers[n])
  }

  predicate PanickedAtLast(answers: seq<Answer>) {
    answers != [] && answers[|answers| - 1].Panicked?
  }

  ghost predicate NoPanicBeforeLast(answers: seq<Answer>) {
    forall i :: 0 <= i < |answers| - 1 ==> !answers[i].Panicked?
  }

  /** A pass goes on whatever an item's error is; only a panic ends it before the last item. */
  ghost predicate RanThrough(items: seq<Fields>, answers: seq<Answer>) {
    && |answers| <= |items|
    && NoPanicBeforeLast(answers)
    && (|answers| == |items| || PanickedAtLast(answers))
  }

  /** The resources whose names are not among the keys, in their order. */
  function Missing(items: seq<Fields>, keys: seq<string>): seq<Fields> {
    if items == [] then []
    else
      var n := |items| - 1;
      var before := Missing(items[..n], keys);
      if Name(items[n]) in keys then before else before + [items[n]]
  }

  /** What an incremental pass reads from the store; `None` stands for a failed read. */
  datatype Reading = Reading(count: Option<nat>, keys: Option<seq<string>>)

  ghost predicate ReadFrom(db: Database, dataset: string, reading: Reading) {
    && (reading.count.Some? ==> reading.count.value == |IdsOf(db, dataset)|)
    && (reading.keys.Some? ==> Enumerates(db, dataset, reading.keys.value))
  }

  /** The items a pass upserts. A failed key read counts as an empty store. */
  function Selected(mode: Mode, items: seq<Fields>, reading: Reading): seq<Fields> {
    match mode
    case Full => items
    case Unknown => []
    case Incremental =>
      if reading.count.None? || reading.count.value >= |items| then []
      else Missing(items, if reading.keys.Some? then reading.keys.value else [])
  }

  /** What the remote sides do to the calls of a pass: which reads get through, and what happens to the upserts. */
  datatype Remote = Remote(listing: bool, unreadable: set<string>, count: bool, keys: bool, upserts: nat -> Answer)

  /** The reads of a pass got through exactly as the remote sides let them; a full pass makes none. */
  ghost predicate ReadAsLet(mode: Mode, size: nat, remote: Remote, reading: Reading) {
    && (mode.Incremental? || reading == Reading(None, None))
    && (mode.Incremental? ==> (reading.count.Some? <==> remote.count))
    && (reading.keys.Some? <==> reading.count.Some? && reading.count.value < size && remote.keys)
  }

  /** The answers to the first `n` upserts. */
  ghost function AnswersTo(remote: Remote, n: nat): (answers: seq<Answer>)
    ensures |answers| == n
  {
    if n == 0 then [] else AnswersTo(remote, n - 1) + [remote.upserts(n - 1)]
  }

  ghost predicate AnsweredAsLet(remote: Remote, answers: seq<Answer>) {
    answers == AnswersTo(remote, |answers|)
  }

  lemma {:induction false} AnswerAt(remote: Remote, n: nat, i: nat)
    requires i < n
    ensures AnswersTo(remote, n)[i] == remote.upserts(i)
  {
    if i < n - 1 {
      AnswerAt(remote, n - 1, i);
    }
  }

  // ----- Data sources -------------------------------------------------------------

  class KubernetesSource {
    var objects: seq<Fields>  // what the API server lists for the configured resource
  }

  datatype DataSource = FromStore(manager: DualStoreManager) | FromKubernetes(cluster: KubernetesSource)

  ghost function Contents(resources: seq<Unstructured>): (contents: seq<Fields>)
    reads resources
    ensures |contents| == |resources|
    ensures forall i :: 0 <= i < |resources| ==> contents[i] == resources[i].fields
  {
    seq(|resources|, i requires 0 <= i < |resources| reads resources => resources[i].fields)
  }

  /** `docs` is a listing of the resource's dataset in the primary store, or of the cluster. */
  ghost predicate ListedBy(source: DataSource, resource: Resource, unreadable: set<string>, docs: seq<Fields>)
    reads if source.FromStore? then {source.manager.primary} else {source.cluster}
  {
    match source
    case FromStore(manager) =>
      exists ids ::
        && Lists(manager.primary.kind, manager.primary.db, GroupVersionName(resource), ids, docs)
        && ListsAllBut(unreadable, manager.primary.kind, manager.primary.db, GroupVersionName(resource), ids)
    case FromKubernetes(cluster) => docs == cluster.objects
  }

  method ListResources(source: DataSource, resource: Resource, reachable: bool, unreadable: set<string>)
    returns (resources: Option<seq<Unstructured>>)
    ensures resources.Some? <==> reachable
    ensures resources.Some? ==>
              && (forall i :: 0 <= i < |resources.value| ==> fresh(resources.value[i]))
              && ListedBy(source, resource, unreadable, Contents(resources.value))
  {
    var docs: seq<Fields>;
    ghost var ids: seq<string> := [];
    match source {
      case FromStore(manager) =>
        var listed, names := manager.List(GroupVersionName(resource), reachable, unreadable);
        if listed.None? {
          return None;
        }
        docs, ids := listed.value, names;
      case FromKubernetes(cluster) =>
        if !reachable {
          return None;
        }
        docs := cluster.objects;
    }
    var found: seq<Unstructured> := [];
    for i := 0 to |docs|
      invariant |found| == i
      invariant forall j :: 0 <= j < i ==> fresh(found[j])
      invariant forall j :: 0 <= j < i ==> found[j].fields == docs[j]
    {
      var obj := new Unstructured(docs[i]);
      found := found + [obj];
    }
    assert Contents(found) == docs;
    resources := Some(found);
  }

  // ----- The passes ----------------------------------------------------------------

  /** Editing the k-th listed object edits it wherever it is listed. */
  ghost function EditedBy(items: seq<Unstructured>, now: seq<Fields>, k: nat): (after: seq<Fields>)
    requires |now| == |items| && k < |items|
    ensures |after| == |now|
  {
    seq(|items|, j requires 0 <= j < |items| => if items[j] == items[k] then WithEnvironment(now[j]) else now[j])
  }

  /** The contents of the listed objects after the first `n` were edited in turn; two of them may be one object. */
  ghost function EditedContents(items: seq<Unstructured>, before: seq<Fields>, n: nat): (now: seq<Fields>)
    requires |before| == |items| && n <= |items|
    ensures |now| == |before|
  {
    if n == 0 then before else EditedBy(items, EditedContents(items, before, n - 1), n - 1)
  }

  /** An object is edited, once, as soon as the loop came to it or to another listing of it. */
  lemma {:induction false} EditedOnce(items: seq<Unstructured>, before: seq<Fields>, n: nat, j: nat)
    requires |before| == |items| && n <= |items| && j < |items|
    ensures EditedContents(items, before, n)[j] ==
            if items[j] in items[..n] then WithEnvironment(before[j]) else before[j]
  {
    if n > 0 {
      EditedOnce(items, before, n - 1, j);
      EnvironmentIdempotent(before[j]);
      assert items[..n] == items[..n - 1] + [items[n - 1]];
    }
  }

  lemma UpsertedOneMore(db: Database, items: seq<Fields>, answers: seq<Answer>, answer: Answer)
    requires |answers| < |items|
    ensures Upserted(db, items, answers + [answer]) ==
            After(Upserted(db, items, answers), RestoreOp(items[|answers|]), answer)
    ensures NoPanicBeforeLast(answers) && !PanickedAtLast(answers) ==> NoPanicBeforeLast(answers + [answer])
  {
  }

  lemma RestoreOpIdempotent(item: Fields)
    ensures RestoreOp(WithEnvironment(item)) == RestoreOp(item)
  {
    EnvironmentIdempotent(item);
  }

  /** A pass listed, read and upserted as far as the remote sides let it. */
  ghost predicate ObeysRemote(mode: Mode, remote: Remote, listed: Option<seq<Fields>>, reading: Reading,
                              answers: seq<Answer>)
  {
    && (listed.Some? <==> remote.listing)
    && (if listed.Some? then ReadAsLet(mode, |listed.value|, remote, reading) else reading == Reading(None, None))
    && AnsweredAsLet(remote, answers)
  }

  class Reconciliation {
    const source: DataSource
    const resource: Resource
    var locked: bool

    constructor (source: DataSource, resource: Resource)
      ensures this.source == source && this.resource == resource && !locked
    {
      this.source, this.resource, this.locked := source, resource, false;
    }

    /** Compares every resource with every key. */
    method GenerateDiff(resources: seq<Unstructured>, storeKeys: seq<string>) returns (diff: seq<Unstructured>)
      ensures forall i :: 0 <= i < |diff| ==> diff[i] in resources
      ensures Contents(diff) == Missing(Contents(resources), storeKeys)
    {
      diff := [];
      ghost var all := Contents(resources);
      for i := 0 to |resources|
        invariant forall j :: 0 <= j < |diff| ==> diff[j] in resources
        invariant Contents(diff) == Missing(all[..i], storeKeys)
      {
        var found := false;
        for j := 0 to |storeKeys|
          invariant found <==> Name(resources[i].fields) in storeKeys[..j]
        {
          if Name(resources[i].fields) == storeKeys[j] {
            found := true;
            break;
          }
        }
        assert found <==> Name(resources[i].fields) in storeKeys;
        assert all[..i + 1][..i] == all[..i];
        if !found {
          diff := diff + [resources[i]];
          assert diff[..|diff| - 1] + [resources[i]] == diff;
        }
      }
      assert all[..|resources|] == all;
    }

    /** One item of a pass: the environment is defaulted in the listed object itself. */
    method RestoreOne(store: Store, items: seq<Unstructured>, k: nat, remote: Answer) returns (answer: Answer)
      requires store.kind.Hazelcast? && k < |items|
      modifies store, items[k]
      ensures answer == remote && Contents(items) == EditedBy(items, old(Contents(items)), k)
      ensures store.answers == old(store.answers) + [answer]
      ensures store.db == After(old(store.db), RestoreOp(old(items[k].fields)), answer)
    {
      items[k].AddMissingEnvironment();
      answer := store.Create(items[k].fields, remote);
    }

    /**
     The upsert loop that both kinds of pass share. Every listed object it came to is edited, the one
     it panicked on included; an object behind it is untouched, unless it is listed a second time.
     */
    method Restore(store: Store, items: seq<Unstructured>, remote: Remote)
      returns (panicked: bool, ghost given: seq<Answer>)
      requires store.kind.Hazelcast?
      modifies store, items
      ensures store.answers == old(store.answers) + given
      ensures AnsweredAsLet(remote, given)
      ensures RanThrough(old(Contents(items)), given) && panicked == PanickedAtLast(given)
      ensures store.db == Upserted(old(store.db), old(Contents(items)), given)
      ensures Contents(items) == EditedContents(items, old(Contents(items)), |given|)
    {
      ghost var all := Contents(items);
      panicked, given := false, [];
      var i := 0;
      while i < |items| && !panicked
        invariant i == |given| <= |items|
        invariant AnsweredAsLet(remote, given)
        invariant NoPanicBeforeLast(given) && panicked == PanickedAtLast(given)
        invariant store.answers == old(store.answers) + given
        invariant store.db == Upserted(old(store.db), all, given)
        invariant Contents(items) == EditedContents(items, all, i)
      {
        EditedOnce(items, all, i, i);
        RestoreOpIdempotent(all[i]);
        var answer := RestoreOne(store, items, i, remote.upserts(i));
        UpsertedOneMore(old(store.db), all, given, answer);
        given, i := given + [answer], i + 1;
        panicked := answer.Panicked?;
      }
    }

    method FullyReconcile(store: Store, resources: seq<Unstructured>, remote: Remote)
      returns (panicked: bool, ghost given: seq<Answer>)
      requires store.kind.Hazelcast?
      modifies store, resources
      ensures store.answers == old(store.answers) + given
      ensures AnsweredAsLet(remote, given)
      ensures RanThrough(old(Contents(resources)), given) && panicked == PanickedAtLast(given)
      ensures store.db == Upserted(old(store.db), old(Contents(resources)), given)
      ensures Contents(resources) == EditedContents(resources, old(Contents(resources)), |given|)
    {
      panicked, given := Restore(store, resources, remote);
    }

    method IncrementallyReconcile(store: Store, resources: seq<Unstructured>, remote: Remote)
      returns (panicked: bool, ghost reading: Reading, ghost given: seq<Answer>)
      requires store.kind.Hazelcast?
      modifies store, resources
      ensures ReadFrom(old(store.db), GroupVersionName(resource), reading)
      ensures ReadAsLet(Incremental, |resources|, remote, reading) && AnsweredAsLet(remote, given)
      ensures store.answers == old(store.answers) + given
      ensures var items := Selected(Incremental, old(Contents(resources)), reading);
              && RanThrough(items, given) && panicked == PanickedAtLast(given)
              && store.db == Upserted(old(store.db), items, given)
    {
      hide AnswersTo, EditedContents, EditedBy, Missing, GroupVersionName, IdsOf;
      ghost var all := Contents(resources);
      panicked, given := false, [];
      var count := store.Count(GroupVersionName(resource), remote.count);
      reading := Reading(count, None);
      if count.None? || count.value >= |resources| {
        assert Selected(Incremental, all, reading) == [];
        return;
      }
      var keys := store.Keys(GroupVersionName(resource), remote.keys);
      reading := Reading(count, keys);
      var missing := GenerateDiff(resources, if keys.Some? then keys.value else []);
      panicked, given := Restore(store, missing, remote);
    }

    /** The pass over a listing, by mode; an unknown mode does nothing. */
    method Pass(mode: Mode, store: Store, resources: seq<Unstructured>, remote: Remote)
      returns (panicked: bool, ghost reading: Reading, ghost given: seq<Answer>)
      requires store.kind.Hazelcast?
      modifies store, resources
      ensures ReadFrom(old(store.db), GroupVersionName(resource), reading)
      ensures ReadAsLet(mode, |resources|, remote, reading) && AnsweredAsLet(remote, given)
      ensures mode.Unknown? ==> store.db == old(store.db)
      ensures store.answers == old(store.answers) + given
      ensures var items := Selected(mode, old(Contents(resources)), reading);
              && RanThrough(items, given) && panicked == PanickedAtLast(given)
              && store.db == Upserted(old(store.db), items, given)
    {
      reading, given := Reading(None, None), [];
      match mode {
        case Full =>
          panicked, given := FullyReconcile(store, resources, remote);
        case Incremental =>
          panicked, reading, given := IncrementallyReconcile(store, resources, remote);
        case Unknown =>
          panicked := false;
      }
    }

    /** Runs with the lock. `listed` is what the data source answered. */
    method Reconcile(mode: Mode, store: Store, remote: Remote)
      returns (panicked: bool, ghost listed: Option<seq<Fields>>, ghost reading: Reading, ghost given: seq<Answer>)
      requires store.kind.Hazelcast? && locked
      modifies store
      ensures ObeysRemote(mode, remote, listed, reading, given)
      ensures listed.Some? ==> old(ListedBy(source, resource, remote.unreadable, listed.value))
      ensures ReadFrom(old(store.db), GroupVersionName(resource), reading)
      ensures store.answers == old(store.answers) + given
      ensures var items := if listed.Some? then Selected(mode, listed.value, reading) else [];
              && RanThrough(items, given) && panicked == PanickedAtLast(given)
              && store.db == Upserted(old(store.db), items, given)
    {
      var resources := ListResources(source, resource, remote.listing, remote.unreadable);
      if resources.None? {
        return false, None, Reading(None, None), [];
      }
      listed := Some(Contents(resources.value));
      panicked, reading, given := Pass(mode, store, resources.value, remote);
    }

    /** Skips when the lock is taken; otherwise the lock is free again afterwards, panic or not. */
    method SafeReconcile(mode: Mode, store: Store, remote: Remote)
      returns (ran: bool, ghost listed: Option<seq<Fields>>, ghost reading: Reading, ghost given: seq<Answer>)
      requires store.kind.Hazelcast?
      modifies this, store
      ensures ran == !old(locked) && locked == old(locked)
      ensures !ran ==> store.db == old(store.db) && store.answers == old(store.answers)
      ensures ran ==>
                && ObeysRemote(mode, remote, listed, reading, given)
                && (listed.Some? ==> old(ListedBy(source, resource, remote.unreadable, listed.value)))
                && ReadFrom(old(store.db), GroupVersionName(resource), reading)
                && store.answers == old(store.answers) + given
                && var items := if listed.Some? then Selected(mode, listed.value, reading) else [];
                   RanThrough(items, given) && store.db == Upserted(old(store.db), items, given)
    {
      listed, reading, given := None, Reading(None, None), [];
      if locked {
        return false, listed, reading, given;
      }
      locked := true;
      var panicked;
      panicked, listed, reading, given := Reconcile(mode, store, remote);
      // a panic is recovered here and goes no further
      locked := false;
      ran := true;
    }
  }
}
