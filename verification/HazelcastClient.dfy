/**
 The reconciliation triggers of the Hazelcast store, one call at a time: internal/store/hazelcast.go.
 Module Protocol treats the same handlers step by step and interleaved.
 */
module HazelcastClient {
  import opened Wrappers
  import opened Json
  import opened Config
  import opened Replication
  import opened Stores
  import opened Reconciliation

  /** What one pass listed, read and was answered. */
  datatype PassRecord = PassRecord(cache: string, listed: Option<seq<Fields>>, reading: Reading, answers: seq<Answer>)

  function ItemsOf(mode: Mode, pass: PassRecord): seq<Fields> {
    if pass.listed.Some? then Selected(mode, pass.listed.value, pass.reading) else []
  }

  ghost predicate WellRun(mode: Mode, passes: seq<PassRecord>) {
    forall i :: 0 <= i < |passes| ==> RanThrough(ItemsOf(mode, passes[i]), passes[i].answers)
  }

  /** The store after a sequence of passes. */
  ghost function Replayed(mode: Mode, db: Database, passes: seq<PassRecord>): Database
    requires WellRun(mode, passes)
  {
    if passes == [] then db
    else
      var n := |passes| - 1;
      Upserted(Replayed(mode, db, passes[..n]), ItemsOf(mode, passes[n]), passes[n].answers)
  }

  lemma ReplayedOneMore(mode: Mode, db: Database, passes: seq<PassRecord>, pass: PassRecord)
    requires WellRun(mode, passes) && RanThrough(ItemsOf(mode, pass), pass.answers)
    ensures WellRun(mode, passes + [pass])
    ensures Replayed(mode, db, passes + [pass]) ==
            Upserted(Replayed(mode, db, passes), ItemsOf(mode, pass), pass.answers)
  {
  }

  // ----- Where a pass lists from ---------------------------------------------------------

  /** What a data source is to the Hazelcast store: that store itself, another store, or the cluster. */
  datatype SourceView = OwnStore | OtherStore(kind: StoreKind, db: Database) | Cluster(objects: seq<Fields>)

  ghost function Footprint(source: DataSource, store: Store): set<object> {
    match source
    case FromStore(manager) => {manager.primary} - {store}
    case FromKubernetes(cluster) => {cluster}
  }

  ghost function ViewOf(source: DataSource, store: Store): SourceView
    reads Footprint(source, store)
  {
    match source
    case FromStore(manager) =>
      if manager.primary == store then OwnStore else OtherStore(manager.primary.kind, manager.primary.db)
    case FromKubernetes(cluster) => Cluster(cluster.objects)
  }

  /** `docs` is a listing of the dataset at a source, with `own` in the Hazelcast store at that moment. */
  ghost predicate ListedIn(view: SourceView, own: Database, dataset: string, docs: seq<Fields>) {
    match view
    case OwnStore => exists ids :: Lists(Hazelcast, own, dataset, ids, docs)
    case OtherStore(kind, db) => exists ids :: Lists(kind, db, dataset, ids, docs)
    case Cluster(objects) => docs == objects
  }

  /** A pass listed its registered source and read the store as it then was. */
  ghost predicate Genuine(view: SourceView, before: Database, pass: PassRecord) {
    && (pass.listed.Some? ==> ListedIn(view, before, pass.cache, pass.listed.value))
    && ReadFrom(before, pass.cache, pass.reading)
  }

  /** One pass: what it listed and read, and what it made of the store. */
  ghost predicate Passed(mode: Mode, view: SourceView, before: Database, after: Database, pass: PassRecord) {
    && Genuine(view, before, pass)
    && RanThrough(ItemsOf(mode, pass), pass.answers)
    && after == Upserted(before, ItemsOf(mode, pass), pass.answers)
  }

  function CachesOf(passes: seq<PassRecord>): set<string> {
    set pass | pass in passes :: pass.cache
  }

  ghost predicate DistinctCaches(passes: seq<PassRecord>) {
    forall i, j :: 0 <= i < j < |passes| ==> passes[i].cache != passes[j].cache
  }

  /** Each pass listed its source and read the store as the passes before it had left it. */
  ghost predicate AllGenuine(mode: Mode, views: map<string, SourceView>, before: Database, passes: seq<PassRecord>)
    requires WellRun(mode, passes)
  {
    passes != [] ==>
      var front, last := passes[..|passes| - 1], passes[|passes| - 1];
      && AllGenuine(mode, views, before, front)
      && last.cache in views && Genuine(views[last.cache], Replayed(mode, before, front), last)
  }

  /** The passes of a sweep: one for each of `caches`, and together they lead from `before` to `after`. */
  ghost predicate Swept(mode: Mode, views: map<string, SourceView>, before: Database, after: Database,
                        caches: set<string>, passes: seq<PassRecord>)
  {
    && CachesOf(passes) == caches && DistinctCaches(passes)
    && WellRun(mode, passes) && after == Replayed(mode, before, passes)
    && AllGenuine(mode, views, before, passes)
  }

  /** The pass went as the remote sides let it. */
  ghost predicate Obeyed(mode: Mode, remote: Remote, pass: PassRecord) {
    ObeysRemote(mode, remote, pass.listed, pass.reading, pass.answers)
  }

  /** The remote sides for the pass of each cache. */
  type Remotes = string -> Remote

  ghost predicate AllObeyed(mode: Mode, remotes: Remotes, passes: seq<PassRecord>) {
    forall pass :: pass in passes ==> Obeyed(mode, remotes(pass.cache), pass)
  }

  lemma SetsAfterVisit(free: set<string>, left: set<string>, cache: string)
    requires cache in left
    ensures cache !in free - left
    ensures free - (left - {cache}) == if cache in free then (free - left) + {cache} else free - left
  {
  }

  lemma SweptOneMore(mode: Mode, views: map<string, SourceView>, before: Database, now: Database, after: Database,
                     caches: set<string>, passes: seq<PassRecord>, pass: PassRecord)
    requires Swept(mode, views, before, now, caches, passes) && pass.cache !in caches
    requires pass.cache in views && Passed(mode, views[pass.cache], now, after, pass)
    ensures Swept(mode, views, before, after, caches + {pass.cache}, passes + [pass])
  {
    ReplayedOneMore(mode, before, passes, pass);
    GenuineOneMore(mode, views, before, passes, pass);
    CachesOneMore(passes, pass);
  }

  lemma GenuineOneMore(mode: Mode, views: map<string, SourceView>, before: Database, passes: seq<PassRecord>,
                       pass: PassRecord)
    requires WellRun(mode, passes) && AllGenuine(mode, views, before, passes)
    requires RanThrough(ItemsOf(mode, pass), pass.answers)
    requires pass.cache in views && Genuine(views[pass.cache], Replayed(mode, before, passes), pass)
    ensures WellRun(mode, passes + [pass]) && AllGenuine(mode, views, before, passes + [pass])
  {
    assert (passes + [pass])[..|passes|] == passes;
  }

  lemma CachesOneMore(passes: seq<PassRecord>, pass: PassRecord)
    ensures CachesOf(passes + [pass]) == CachesOf(passes) + {pass.cache}
    ensures DistinctCaches(passes) && pass.cache !in CachesOf(passes) ==> DistinctCaches(passes + [pass])
  {
    assert forall i :: 0 <= i < |passes| ==> passes[i].cache in CachesOf(passes);
  }

  class HazelcastStore {
    const store: Store
    const mode: Mode
    const provisioning: bool
    var connected: bool
    var reconciliations: map<string, Reconciliation>

    /** Reconciliations are registered under the dataset of their resource. */
    ghost predicate Valid()
      reads this`reconciliations
    {
      && store.kind.Hazelcast?
      && forall cache :: cache in reconciliations ==> GroupVersionName(reconciliations[cache].resource) == cache
    }

    /** The sources of the registered reconciliations. */
    ghost function Views(): map<string, SourceView>
      reads this`reconciliations
      reads set cache, o | cache in reconciliations && o in Footprint(reconciliations[cache].source, store) :: o
    {
      map cache | cache in reconciliations :: ViewOf(reconciliations[cache].source, store)
    }

    /** Initialize: the flag is set before the listener is registered. */
    constructor (store: Store, mode: Mode, provisioning: bool)
      requires store.kind.Hazelcast?
      ensures this.store == store && this.mode == mode && this.provisioning == provisioning
      ensures Valid() && connected && reconciliations == map[]
    {
      this.store, this.mode, this.provisioning := store, mode, provisioning;
      this.connected, this.reconciliations := true, map[];
    }

    /**
     Registers a reconciliation; in provisioning mode it runs at once. A map that cannot be had, or an
     index that cannot be made, panics before anything is registered.
     */
    method InitializeResource(source: DataSource, resource: Resource, prepared: bool, remote: Remote)
      returns (recon: Reconciliation?, ran: bool, ghost pass: PassRecord)
      requires Valid()
      modifies this`reconciliations, store
      ensures Valid() && ran == (recon != null && provisioning && connected)
      ensures recon != null <==> prepared
      ensures ran ==> Obeyed(mode, remote, pass)
      ensures recon == null ==> reconciliations == old(reconciliations)
      ensures recon != null ==>
                && fresh(recon) && recon.source == source && recon.resource == resource && !recon.locked
                && reconciliations == old(reconciliations)[GroupVersionName(resource) := recon]
      ensures pass.cache == GroupVersionName(resource)
      ensures if ran then Passed(mode, old(ViewOf(source, store)), old(store.db), store.db, pass)
              else store.db == old(store.db)
    {
      recon, ran, pass := null, false, PassRecord(GroupVersionName(resource), None, Reading(None, None), []);
      if !prepared {
        return;
      }
      recon := new Reconciliation(source, resource);
      reconciliations := reconciliations[GroupVersionName(resource) := recon];
      if provisioning && connected {
        ghost var listed, reading, given;
        ran, listed, reading, given := recon.SafeReconcile(mode, store, remote);
        pass := PassRecord(GroupVersionName(resource), listed, reading, given);
      }
    }

    /** One pass of a registered reconciliation, as a ticker, a lost member or a sweep asks for it. */
    method Visit(cache: string, remote: Remote) returns (ran: bool, ghost pass: PassRecord)
      requires Valid() && cache in reconciliations
      modifies store, reconciliations[cache]
      ensures pass.cache == cache && ran == !old(reconciliations[cache].locked)
      ensures ran ==> Obeyed(mode, remote, pass)
      ensures reconciliations[cache].locked == old(reconciliations[cache].locked)
      ensures if ran then Passed(mode, old(ViewOf(reconciliations[cache].source, store)), old(store.db), store.db, pass)
              else store.db == old(store.db)
    {
      ghost var listed, reading, given;
      ran, listed, reading, given := reconciliations[cache].SafeReconcile(mode, store, remote);
      pass := PassRecord(cache, listed, reading, given);
    }

    /** A tick of the periodic reconciliation: skipped while disconnected. */
    method Tick(cache: string, remote: Remote) returns (ran: bool, ghost pass: PassRecord)
      requires Valid() && cache in reconciliations
      modifies store, reconciliations[cache]
      ensures pass.cache == cache && ran == (connected && !old(reconciliations[cache].locked))
      ensures ran ==> Obeyed(mode, remote, pass)
      ensures reconciliations[cache].locked == old(reconciliations[cache].locked)
      ensures if ran then Passed(mode, old(ViewOf(reconciliations[cache].source, store)), old(store.db), store.db, pass)
              else store.db == old(store.db)
    {
      pass := PassRecord(cache, None, Reading(None, None), []);
      ran := false;
      if connected {
        ran, pass := Visit(cache, remote);
      }
    }

    /** The flag goes down; nothing else happens. */
    method OnDisconnected()
      modifies this`connected
      ensures !connected
    {
      if connected {
        connected := false;
      }
    }

    /** The reconciliations whose lock is free. */
    ghost function FreeCaches(): set<string>
      reads this`reconciliations, reconciliations.Values
    {
      set cache | cache in reconciliations && !reconciliations[cache].locked
    }

    /** A visit leaves every lock and every source as it was. */
    method VisitInSweep(cache: string, remote: Remote) returns (ran: bool, ghost pass: PassRecord)
      requires Valid() && cache in reconciliations
      modifies store, reconciliations.Values
      ensures FreeCaches() == old(FreeCaches()) && Views() == old(Views())
      ensures pass.cache == cache && ran == (cache in FreeCaches())
      ensures ran ==> Obeyed(mode, remote, pass)
      ensures if ran then Passed(mode, old(Views())[cache], old(store.db), store.db, pass)
              else store.db == old(store.db)
    {
      hide Passed, Obeyed;
      ran, pass := Visit(cache, remote);
      assert forall other :: other in reconciliations ==>
        reconciliations[other].locked == old(reconciliations[other].locked);
    }

    /** Ranges over the registered reconciliations. */
    method Sweep(remotes: Remotes) returns (ghost passes: seq<PassRecord>)
      requires Valid()
      modifies store, reconciliations.Values
      ensures FreeCaches() == old(FreeCaches()) && Views() == old(Views())
      ensures Swept(mode, old(Views()), old(store.db), store.db, old(FreeCaches()), passes)
      ensures AllObeyed(mode, remotes, passes)
    {
      passes := [];
      ghost var free, views, db := FreeCaches(), Views(), store.db;
      var left := reconciliations.Keys;
      assert free - left == {};
      while left != {}
        invariant left <= reconciliations.Keys
        invariant FreeCaches() == free && Views() == views
        invariant Swept(mode, views, db, store.db, free - left, passes) && AllObeyed(mode, remotes, passes)
        decreases left
      {
        var cache :| cache in left;
        SetsAfterVisit(free, left, cache);
        ghost var now := store.db;
        var ran;
        ghost var pass;
        ran, pass := VisitInSweep(cache, remotes(cache));
        if ran {
          SweptOneMore(mode, views, db, now, store.db, free - left, passes, pass);
          passes := passes + [pass];
        }
        left := left - {cache};
      }
      assert free - left == free;
    }

    /**
     The first connect after a disconnect sweeps all registered reconciliations: each whose lock is
     free runs one pass over its source, and no pass, panicking or not, keeps a later one from running.
     */
    method OnConnected(remotes: Remotes) returns (ghost passes: seq<PassRecord>)
      requires Valid()
      modifies this`connected, store, reconciliations.Values
      ensures connected && FreeCaches() == old(FreeCaches()) && Views() == old(Views())
      ensures Swept(mode, old(Views()), old(store.db), store.db,
                    if old(connected) then {} else old(FreeCaches()), passes)
      ensures AllObeyed(mode, remotes, passes)
    {
      hide Passed, Obeyed;
      passes := [];
      if connected {
        return;
      }
      connected := true;
      passes := Sweep(remotes);
    }
  }
}
