/**
 Triggers and data together: the threads of module Protocol take the locks, and between taking and
 releasing one a thread lists its source, reads the store and upserts item by item, every call a step of
 its own. Whatever the interleaving, the store is what whole passes in lock order would have made of it.
 */
module Interleaving {
  import opened Wrappers
  import opened Json
  import opened Config
  import opened Replication
  import opened Stores
  import opened Reconciliation
  import opened PassTheorems
  import opened HazelcastClient
  import opened SweepTheorems
  import Protocol

  /** The reconciliation mode, and for each dataset the one cache whose objects are written to it. */
  datatype Rules = Rules(mode: Mode, owner: map<string, string>) {
    /** Objects of the cache are written to no dataset that another cache writes to or counts. */
    predicate Owns(cache: string, docs: seq<Fields>) {
      && cache in owner && owner[cache] == cache
      && forall doc :: doc in docs ==> GroupVersionId(doc) in owner && owner[GroupVersionId(doc)] == cache
    }
  }

  datatype World = World(
    control: Protocol.State,     // threads, locks and the connection flag
    store: Database,             // Hazelcast
    log: seq<PassRecord>,        // the passes in the order in which they took their locks
    at: map<nat, nat>)           // per thread, the position of its latest pass in the log

  datatype Happening =
    | Control(e: Protocol.Event)
    | ListSource(t: nat, docs: seq<Fields>)
    | ReadCount(t: nat, count: nat)
    | ReadKeys(t: nat, keys: seq<string>)
    | Upsert(t: nat, answer: Answer)

  /** The thread is inside `reconcile`. */
  ghost predicate Inside(w: World, t: nat) {
    t in w.control.threads && w.control.threads[t].pc.Inside?
  }

  ghost predicate Working(w: World, t: nat) {
    Inside(w, t) && t in w.at && w.at[t] < |w.log|
  }

  ghost function PassOf(w: World, t: nat): PassRecord
    requires Working(w, t)
  {
    w.log[w.at[t]]
  }

  /**
   Calls that fail simply do not happen: a pass without a listing or count has no items, one without
   keys takes every listed object. A pass returns when it has tried all its items; only the last answer
   can be a panic. Different caches own different datasets, whatever their plurals are.
   */
  ghost predicate Permitted(rules: Rules, w: World, h: Happening) {
    match h
    case Control(e) =>
      && Protocol.Enabled(w.control, e)
      && (e.TryLock? ==> rules.Owns(w.control.threads[e.t].pc.cache, []))
      && (e.Return? ==>
            Working(w, e.t) && |PassOf(w, e.t).answers| == |ItemsOf(rules.mode, PassOf(w, e.t))|
            && !PanickedAtLast(PassOf(w, e.t).answers))
      && (e.Panic? ==> Working(w, e.t) && PanickedAtLast(PassOf(w, e.t).answers))
    case ListSource(t, docs) =>
      Working(w, t) && PassOf(w, t).listed.None? && PassOf(w, t).answers == [] && rules.Owns(PassOf(w, t).cache, docs)
    case ReadCount(t, count) =>
      && rules.mode.Incremental? && Working(w, t) && PassOf(w, t).listed.Some? && PassOf(w, t).reading.count.None?
      && PassOf(w, t).answers == [] && count == |IdsOf(w.store, PassOf(w, t).cache)|
    case ReadKeys(t, keys) =>
      && Working(w, t) && PassOf(w, t).listed.Some? && PassOf(w, t).reading.count.Some?
      && PassOf(w, t).reading.count.value < |PassOf(w, t).listed.value| && PassOf(w, t).reading.keys.None?
      && PassOf(w, t).answers == [] && Enumerates(w.store, PassOf(w, t).cache, keys)
    case Upsert(t, _) =>
      && Working(w, t) && |PassOf(w, t).answers| < |ItemsOf(rules.mode, PassOf(w, t))|
      && !PanickedAtLast(PassOf(w, t).answers)
  }

  /** The pass is now known to be `pass`. */
  ghost function With(w: World, t: nat, pass: PassRecord): World
    requires Working(w, t)
  {
    w.(log := w.log[w.at[t] := pass])
  }

  /** Taking a lock opens a pass at the end of the log. */
  ghost function Locked(w: World, e: Protocol.Event): World
    requires Protocol.Enabled(w.control, e)
  {
    var w' := w.(control := Protocol.Step(w.control, e));
    if e.TryLock? && w.control.threads[e.t].pc.cache !in w.control.held then
      w'.(log := w.log + [PassRecord(w.control.threads[e.t].pc.cache, None, Reading(None, None), [])],
          at := w.at[e.t := |w.log|])
    else w'
  }

  ghost function Next(rules: Rules, w: World, h: Happening): World
    requires Permitted(rules, w, h)
  {
    match h
    case Control(e) => Locked(w, e)
    case ListSource(t, docs) => With(w, t, PassOf(w, t).(listed := Some(docs)))
    case ReadCount(t, count) => With(w, t, PassOf(w, t).(reading := PassOf(w, t).reading.(count := Some(count))))
    case ReadKeys(t, keys) => With(w, t, PassOf(w, t).(reading := PassOf(w, t).reading.(keys := Some(keys))))
    case Upsert(t, answer) =>
      var pass := PassOf(w, t);
      With(w, t, pass.(answers := pass.answers + [answer]))
      .(store := After(w.store, RestoreOp(ItemsOf(rules.mode, pass)[|pass.answers|]), answer))
  }

  ghost predicate Possible(rules: Rules, w: World, hs: seq<Happening>)
    decreases |hs|, 0
  {
    hs != [] ==>
      var n := |hs| - 1;
      Possible(rules, w, hs[..n]) && Permitted(rules, Outcome(rules, w, hs[..n]), hs[n])
  }

  ghost function Outcome(rules: Rules, w: World, hs: seq<Happening>): World
    requires Possible(rules, w, hs)
    decreases |hs|, 1
  {
    if hs == [] then w else Next(rules, Outcome(rules, w, hs[..|hs| - 1]), hs[|hs| - 1])
  }

  predicate Initial(w: World) {
    Protocol.Initial(w.control) && w.log == [] && w.at == map[]
  }

  // ----- Whole passes, one after the other ----------------------------------------------------

  /** The pass has not gone beyond its items, and writes only to datasets that its cache owns. */
  ghost predicate WellFormed(rules: Rules, pass: PassRecord) {
    && |pass.answers| <= |ItemsOf(rules.mode, pass)| && NoPanicBeforeLast(pass.answers)
    && rules.Owns(pass.cache, if pass.listed.Some? then pass.listed.value else [])
  }

  ghost predicate AllWellFormed(rules: Rules, log: seq<PassRecord>) {
    forall i :: 0 <= i < |log| ==> WellFormed(rules, log[i])
  }

  /** The store after the passes of the log, each as far as it has got, one after the other. */
  ghost function Serial(rules: Rules, db: Database, log: seq<PassRecord>): Database
    requires AllWellFormed(rules, log)
  {
    if log == [] then db
    else
      var n := |log| - 1;
      Upserted(Serial(rules, db, log[..n]), ItemsOf(rules.mode, log[n]), log[n].answers)
  }

  lemma HomeItems(rules: Rules, pass: PassRecord, dataset: string)
    requires WellFormed(rules, pass) && dataset in rules.owner && rules.owner[dataset] != pass.cache
    ensures Elsewhere(dataset, ItemsOf(rules.mode, pass))
  {
    if pass.listed.Some? {
      SelectedIsListed(rules.mode, pass.listed.value, pass.reading);
    }
  }

  lemma HomeItem(rules: Rules, pass: PassRecord, i: nat)
    requires WellFormed(rules, pass) && i < |ItemsOf(rules.mode, pass)|
    ensures var dataset := GroupVersionId(ItemsOf(rules.mode, pass)[i]);
            dataset in rules.owner && rules.owner[dataset] == pass.cache
  {
    SelectedIsListed(rules.mode, pass.listed.value, pass.reading);
    assert ItemsOf(rules.mode, pass)[i] in ItemsOf(rules.mode, pass);
  }

  /** An upsert into one dataset and a pass over others may change places. */
  lemma UpsertCommutes(db: Database, item: Fields, answer: Answer, items: seq<Fields>, answers: seq<Answer>)
    requires |answers| <= |items| && Elsewhere(GroupVersionId(item), items)
    ensures Upserted(After(db, RestoreOp(item), answer), items, answers) ==
            After(Upserted(db, items, answers), RestoreOp(item), answer)
  {
    var first, second := After(db, RestoreOp(item), answer), Upserted(db, items, answers);
    RestoreKey(item);
    forall key
      ensures At(Upserted(first, items, answers), key) == At(After(second, RestoreOp(item), answer), key)
    {
      PassIsExact(first, items, answers, key);
      PassIsExact(db, items, answers, key);
      var i := LastEffective(items, answers, key);
      if i >= 0 {
        assert items[i] in items;
      }
    }
    SameEntriesSameStore(Upserted(first, items, answers), After(second, RestoreOp(item), answer));
  }

  lemma SerialLast(rules: Rules, db: Database, front: seq<PassRecord>, last: PassRecord)
    requires AllWellFormed(rules, front) && WellFormed(rules, last)
    ensures AllWellFormed(rules, front + [last])
    ensures Serial(rules, db, front + [last]) ==
            Upserted(Serial(rules, db, front), ItemsOf(rules.mode, last), last.answers)
  {
    assert (front + [last])[..|front|] == front;
  }

  lemma OneMoreAnswer(rules: Rules, pass: PassRecord, answer: Answer)
    requires WellFormed(rules, pass) && |pass.answers| < |ItemsOf(rules.mode, pass)| && !PanickedAtLast(pass.answers)
    ensures WellFormed(rules, pass.(answers := pass.answers + [answer]))
    ensures ItemsOf(rules.mode, pass.(answers := pass.answers + [answer])) == ItemsOf(rules.mode, pass)
  {
  }

  /** One more upsert of a pass, when no later pass of the log is of its dataset, comes last in the store. */
  lemma {:induction false} SerialUpsert(rules: Rules, db: Database, log: seq<PassRecord>, i: nat, answer: Answer)
    requires AllWellFormed(rules, log) && i < |log|
    requires |log[i].answers| < |ItemsOf(rules.mode, log[i])| && !PanickedAtLast(log[i].answers)
    requires forall j :: i < j < |log| ==> log[j].cache != log[i].cache
    ensures var pass := log[i];
            var log' := log[i := pass.(answers := pass.answers + [answer])];
            && AllWellFormed(rules, log')
            && Serial(rules, db, log') ==
               After(Serial(rules, db, log), RestoreOp(ItemsOf(rules.mode, pass)[|pass.answers|]), answer)
  {
    var front, last, pass := log[..|log| - 1], log[|log| - 1], log[i];
    var pass' := pass.(answers := pass.answers + [answer]);
    assert log == front + [last];
    OneMoreAnswer(rules, pass, answer);
    SerialLast(rules, db, front, last);
    if i == |front| {
      assert log[i := pass'] == front + [pass'];
      SerialLast(rules, db, front, pass');
      UpsertedOneMore(Serial(rules, db, front), ItemsOf(rules.mode, pass), pass.answers, answer);
    } else {
      assert log[i := pass'] == front[i := pass'] + [last] && front[i] == pass;
      SerialUpsert(rules, db, front, i, answer);
      SerialLast(rules, db, front[i := pass'], last);
      HomeItem(rules, pass, |pass.answers|);
      HomeItems(rules, last, GroupVersionId(ItemsOf(rules.mode, pass)[|pass.answers|]));
      UpsertCommutes(Serial(rules, db, front), ItemsOf(rules.mode, pass)[|pass.answers|], answer,
                     ItemsOf(rules.mode, last), last.answers);
    }
  }

  /** What a pass that has upserted nothing yet has listed and read does not matter to the store. */
  lemma {:induction false} SerialIgnores(rules: Rules, db: Database, log: seq<PassRecord>, i: nat, pass: PassRecord)
    requires AllWellFormed(rules, log) && i < |log| && WellFormed(rules, pass)
    requires log[i].answers == [] && pass.answers == []
    ensures AllWellFormed(rules, log[i := pass]) && Serial(rules, db, log[i := pass]) == Serial(rules, db, log)
  {
    var front, last := log[..|log| - 1], log[|log| - 1];
    assert log == front + [last];
    SerialLast(rules, db, front, last);
    if i == |front| {
      assert log[i := pass] == front + [pass];
      SerialLast(rules, db, front, pass);
    } else {
      assert log[i := pass] == front[i := pass] + [last];
      SerialIgnores(rules, db, front, i, pass);
      SerialLast(rules, db, front[i := pass], last);
    }
  }

  /** A dataset looks as it did before the i-th pass when that pass and the later ones have not written to it. */
  lemma {:induction false} SerialTail(rules: Rules, db: Database, log: seq<PassRecord>, i: nat, dataset: string)
    requires AllWellFormed(rules, log) && i <= |log|
    requires dataset in rules.owner
    requires forall j :: i <= j < |log| ==> log[j].answers == [] || log[j].cache != rules.owner[dataset]
    ensures SameIn(Serial(rules, db, log), Serial(rules, db, log[..i]), dataset)
  {
    var n := |log| - 1;
    if i == |log| {
      assert log[..i] == log;
    } else {
      assert log[..n][..i] == log[..i];
      SerialTail(rules, db, log[..n], i, dataset);
      if log[n].cache != rules.owner[dataset] {
        HomeItems(rules, log[n], dataset);
        PassStaysOut(Serial(rules, db, log[..n]), ItemsOf(rules.mode, log[n]), log[n].answers, dataset);
      }
    }
  }

  // ----- What every reachable world keeps -------------------------------------------------------

  /** A thread inside works on a pass of its own cache, and no later pass of the log is of that cache. */
  ghost predicate OpenPasses(w: World) {
    forall t :: Inside(w, t) ==>
      && Working(w, t) && PassOf(w, t).cache == w.control.threads[t].pc.cache
      && forall j :: w.at[t] < j < |w.log| ==> w.log[j].cache != PassOf(w, t).cache
  }

  /** A pass on which no thread works any more has run through. */
  ghost predicate ClosedPasses(rules: Rules, w: World) {
    forall i :: 0 <= i < |w.log| && !RanThrough(ItemsOf(rules.mode, w.log[i]), w.log[i].answers) ==>
      exists t :: Inside(w, t) && t in w.at && w.at[t] == i
  }

  ghost predicate ReadingAt(rules: Rules, db: Database, log: seq<PassRecord>, j: nat)
    requires AllWellFormed(rules, log) && j < |log|
  {
    ReadFrom(Serial(rules, db, log[..j]), log[j].cache, log[j].reading)
  }

  /** Each pass has read the store as the passes before it in lock order leave it. */
  ghost predicate SerialReadings(rules: Rules, db: Database, log: seq<PassRecord>)
    requires AllWellFormed(rules, log)
  {
    forall i :: 0 <= i < |log| ==> ReadingAt(rules, db, log, i)
  }

  ghost predicate Serialised(rules: Rules, db: Database, w: World) {
    && AllWellFormed(rules, w.log)
    && w.store == Serial(rules, db, w.log)
    && SerialReadings(rules, db, w.log)
  }

  ghost predicate Invariant(rules: Rules, db: Database, w: World) {
    Protocol.Invariant(w.control) && OpenPasses(w) && ClosedPasses(rules, w) && Serialised(rules, db, w)
  }

  lemma OtherThreads(w: World, e: Protocol.Event)
    requires Protocol.Enabled(w.control, e)
    ensures forall t :: !Protocol.Of(e, t) ==> (Inside(Locked(w, e), t) <==> Inside(w, t))
    ensures forall t :: !Protocol.Of(e, t) && Inside(w, t) ==> Locked(w, e).control.threads[t] == w.control.threads[t]
  {
    forall t | !Protocol.Of(e, t)
      ensures Inside(Locked(w, e), t) <==> Inside(w, t)
      ensures Inside(w, t) ==> Locked(w, e).control.threads[t] == w.control.threads[t]
    {
      Protocol.OthersWait(w.control, e, t);
    }
  }

  /** Only taking a lock brings a thread inside, and only returning or panicking takes it out. */
  lemma OwnThread(w: World, e: Protocol.Event)
    requires Protocol.Enabled(w.control, e) && !e.Register?
    ensures Inside(Locked(w, e), e.t) <==> e.TryLock? && w.control.threads[e.t].pc.cache !in w.control.held
    ensures Inside(Locked(w, e), e.t) ==>
              Locked(w, e).control.threads[e.t].pc.cache == w.control.threads[e.t].pc.cache
    ensures Inside(w, e.t) ==> e.Return? || e.Panic?
  {
  }

  lemma HolderIsLocked(w: World, t: nat)
    requires Protocol.Invariant(w.control) && Inside(w, t)
    ensures w.control.threads[t].pc.cache in w.control.held
  {
    assert Protocol.Holds(w.control, t, w.control.threads[t].pc.cache);
  }

  lemma ControlKeepsOpen(rules: Rules, w: World, e: Protocol.Event)
    requires Protocol.Invariant(w.control) && OpenPasses(w) && Permitted(rules, w, Control(e))
    ensures OpenPasses(Locked(w, e))
  {
    var w' := Locked(w, e);
    OtherThreads(w, e);
    forall t | Inside(w', t)
      ensures Working(w', t) && PassOf(w', t).cache == w'.control.threads[t].pc.cache
      ensures forall j :: w'.at[t] < j < |w'.log| ==> w'.log[j].cache != PassOf(w', t).cache
    {
      if Protocol.Of(e, t) {
        OwnThread(w, e);
      } else {
        HolderIsLocked(w, t);
      }
    }
  }

  /** The only steps that a thread takes out of a pass come after the last upsert. */
  lemma EndedHasRunThrough(rules: Rules, w: World, e: Protocol.Event)
    requires Permitted(rules, w, Control(e)) && !e.Register? && Working(w, e.t)
    requires AllWellFormed(rules, w.log)
    ensures RanThrough(ItemsOf(rules.mode, PassOf(w, e.t)), PassOf(w, e.t).answers)
  {
    OwnThread(w, e);
    assert WellFormed(rules, PassOf(w, e.t));
  }

  lemma ControlKeepsClosed(rules: Rules, w: World, e: Protocol.Event)
    requires OpenPasses(w) && ClosedPasses(rules, w) && AllWellFormed(rules, w.log) && Permitted(rules, w, Control(e))
    ensures ClosedPasses(rules, Locked(w, e))
  {
    var w' := Locked(w, e);
    OtherThreads(w, e);
    forall i | 0 <= i < |w'.log| && !RanThrough(ItemsOf(rules.mode, w'.log[i]), w'.log[i].answers)
      ensures exists t :: Inside(w', t) && t in w'.at && w'.at[t] == i
    {
      assert i < |w.log| && w'.log[i] == w.log[i];
      var t :| Inside(w, t) && t in w.at && w.at[t] == i;
      if Protocol.Of(e, t) {
        EndedHasRunThrough(rules, w, e);
      } else {
        assert Inside(w', t) && t in w'.at && w'.at[t] == i;
      }
    }
  }

  lemma ControlKeepsSerial(rules: Rules, db: Database, w: World, e: Protocol.Event)
    requires Serialised(rules, db, w) && Permitted(rules, w, Control(e))
    ensures Serialised(rules, db, Locked(w, e))
  {
    if Locked(w, e).log != w.log {
      OpenOneMore(rules, db, w.log, w.control.threads[e.t].pc.cache);
    }
  }

  lemma OpenOneMore(rules: Rules, db: Database, log: seq<PassRecord>, cache: string)
    requires rules.Owns(cache, []) && AllWellFormed(rules, log) && SerialReadings(rules, db, log)
    ensures var log' := log + [PassRecord(cache, None, Reading(None, None), [])];
            && AllWellFormed(rules, log') && Serial(rules, db, log') == Serial(rules, db, log)
            && SerialReadings(rules, db, log')
  {
    var pass := PassRecord(cache, None, Reading(None, None), []);
    var log' := log + [pass];
    SerialLast(rules, db, log, pass);
    forall i | 0 <= i < |log'|
      ensures ReadingAt(rules, db, log', i)
    {
      if i < |log| {
        assert log'[..i] == log[..i] && ReadingAt(rules, db, log, i);
      } else {
        assert log'[..i] == log;
      }
    }
  }

  lemma ControlKeeps(rules: Rules, db: Database, w: World, e: Protocol.Event)
    requires Invariant(rules, db, w) && Permitted(rules, w, Control(e))
    ensures Invariant(rules, db, Locked(w, e))
  {
    Protocol.StepKeepsInvariant(w.control, e);
    ControlKeepsOpen(rules, w, e);
    ControlKeepsClosed(rules, w, e);
    ControlKeepsSerial(rules, db, w, e);
  }

  /** A step of a pass under way leaves the passes of all threads where they are. */
  lemma WorkKeepsOpen(rules: Rules, w: World, w': World, t: nat, pass: PassRecord)
    requires OpenPasses(w) && ClosedPasses(rules, w) && Working(w, t)
    requires w' == With(w, t, pass).(store := w'.store) && pass.cache == PassOf(w, t).cache
    ensures OpenPasses(w') && ClosedPasses(rules, w')
  {
    assert forall u :: Inside(w', u) <==> Inside(w, u);
    assert forall j :: 0 <= j < |w.log| ==> w'.log[j].cache == w.log[j].cache;
    forall i | 0 <= i < |w'.log| && !RanThrough(ItemsOf(rules.mode, w'.log[i]), w'.log[i].answers)
      ensures exists u :: Inside(w', u) && u in w'.at && w'.at[u] == i
    {
      if i == w.at[t] {
        assert Inside(w', t) && w'.at[t] == i;
      } else {
        var u :| Inside(w, u) && u in w.at && w.at[u] == i;
        assert Inside(w', u) && w'.at[u] == i;
      }
    }
  }

  /** No later pass of the log is of the dataset of the i-th. */
  ghost predicate LastOfItsCache(log: seq<PassRecord>, i: nat) {
    i < |log| && forall j :: i < j < |log| ==> log[j].cache != log[i].cache
  }

  /** While a pass has upserted nothing, its dataset is as the passes before it left it: nobody else writes to it. */
  lemma ReadsWhatItFound(rules: Rules, db: Database, log: seq<PassRecord>, i: nat, reading: Reading)
    requires AllWellFormed(rules, log) && LastOfItsCache(log, i) && log[i].answers == []
    ensures ReadFrom(Serial(rules, db, log), log[i].cache, reading) <==>
            ReadFrom(Serial(rules, db, log[..i]), log[i].cache, reading)
  {
    var now, before := Serial(rules, db, log), Serial(rules, db, log[..i]);
    SerialTail(rules, db, log, i, log[i].cache);
    if ReadFrom(now, log[i].cache, reading) {
      SameReading(now, before, log[i].cache, reading);
    }
    if ReadFrom(before, log[i].cache, reading) {
      SameReading(before, now, log[i].cache, reading);
    }
  }

  lemma ReadingAfterReading(rules: Rules, db: Database, log: seq<PassRecord>, i: nat, pass: PassRecord, j: nat)
    requires AllWellFormed(rules, log) && i < |log| && WellFormed(rules, pass) && j < |log| && i != j
    requires log[i].answers == [] && pass.answers == [] && ReadingAt(rules, db, log, j)
    ensures AllWellFormed(rules, log[i := pass]) && ReadingAt(rules, db, log[i := pass], j)
  {
    if j < i {
      assert log[i := pass][..j] == log[..j];
    } else {
      assert log[i := pass][..j] == log[..j][i := pass];
      SerialIgnores(rules, db, log[..j], i, pass);
    }
  }

  /** Listing and reading: the pass has upserted nothing yet. */
  lemma ReadingKeepsSerial(rules: Rules, db: Database, w: World, t: nat, pass: PassRecord)
    requires Serialised(rules, db, w) && OpenPasses(w) && Working(w, t) && WellFormed(rules, pass)
    requires PassOf(w, t).answers == [] && pass.answers == [] && pass.cache == PassOf(w, t).cache
    requires ReadFrom(w.store, pass.cache, pass.reading)
    ensures Serialised(rules, db, With(w, t, pass))
  {
    var i, log := w.at[t], w.log;
    var log' := log[i := pass];
    SerialIgnores(rules, db, log, i, pass);
    forall j | 0 <= j < |log'|
      ensures ReadingAt(rules, db, log', j)
    {
      if j == i {
        assert log'[..j] == log[..j];
        ReadsWhatItFound(rules, db, log, i, pass.reading);
      } else {
        assert ReadingAt(rules, db, log, j);
        ReadingAfterReading(rules, db, log, i, pass, j);
      }
    }
  }

  /** The readings a pass has made still hold for the store. */
  lemma ReadingHolds(rules: Rules, db: Database, w: World, t: nat)
    requires Serialised(rules, db, w) && OpenPasses(w) && Working(w, t) && PassOf(w, t).answers == []
    ensures ReadFrom(w.store, PassOf(w, t).cache, PassOf(w, t).reading)
  {
    assert ReadingAt(rules, db, w.log, w.at[t]);
    ReadsWhatItFound(rules, db, w.log, w.at[t], PassOf(w, t).reading);
  }

  lemma ReadingAfterUpsert(rules: Rules, db: Database, log: seq<PassRecord>, i: nat, answer: Answer, j: nat)
    requires AllWellFormed(rules, log) && LastOfItsCache(log, i) && j < |log| && ReadingAt(rules, db, log, j)
    requires |log[i].answers| < |ItemsOf(rules.mode, log[i])| && !PanickedAtLast(log[i].answers)
    ensures var log' := log[i := log[i].(answers := log[i].answers + [answer])];
            AllWellFormed(rules, log') && ReadingAt(rules, db, log', j)
  {
    var pass := log[i];
    var pass' := pass.(answers := pass.answers + [answer]);
    OneMoreAnswer(rules, pass, answer);
    if j <= i {
      assert log[i := pass'][..j] == log[..j];
    } else {
      assert log[i := pass'][..j] == log[..j][i := pass'];
      SerialUpsert(rules, db, log[..j], i, answer);
      HomeItem(rules, pass, |pass.answers|);
      UpsertElsewhere(Serial(rules, db, log[..j]), ItemsOf(rules.mode, pass)[|pass.answers|], answer, log[j].cache);
      SameReading(Serial(rules, db, log[..j]), Serial(rules, db, log[..j][i := pass']), log[j].cache, log[j].reading);
    }
  }

  lemma UpsertKeepsSerial(rules: Rules, db: Database, w: World, t: nat, answer: Answer)
    requires Serialised(rules, db, w) && OpenPasses(w) && Permitted(rules, w, Upsert(t, answer))
    ensures Serialised(rules, db, Next(rules, w, Upsert(t, answer)))
  {
    var i, pass := w.at[t], PassOf(w, t);
    var pass' := pass.(answers := pass.answers + [answer]);
    var log' := w.log[i := pass'];
    assert LastOfItsCache(w.log, i);
    SerialUpsert(rules, db, w.log, i, answer);
    forall j | 0 <= j < |log'|
      ensures ReadingAt(rules, db, log', j)
    {
      assert ReadingAt(rules, db, w.log, j);
      ReadingAfterUpsert(rules, db, w.log, i, answer, j);
    }
  }

  lemma UpsertElsewhere(db: Database, item: Fields, answer: Answer, dataset: string)
    requires GroupVersionId(item) != dataset
    ensures SameIn(db, After(db, RestoreOp(item), answer), dataset)
  {
    RestoreKey(item);
  }

  lemma NextKeeps(rules: Rules, db: Database, w: World, h: Happening)
    requires Invariant(rules, db, w) && Permitted(rules, w, h)
    ensures Invariant(rules, db, Next(rules, w, h))
  {
    var w' := Next(rules, w, h);
    match h
    case Control(e) => ControlKeeps(rules, db, w, e);
    case ListSource(t, docs) =>
      ReadingHolds(rules, db, w, t);
      ReadingKeepsSerial(rules, db, w, t, w'.log[w.at[t]]);
      WorkKeepsOpen(rules, w, w', t, w'.log[w.at[t]]);
    case ReadCount(t, _) =>
      ReadingHolds(rules, db, w, t);
      ReadingKeepsSerial(rules, db, w, t, w'.log[w.at[t]]);
      WorkKeepsOpen(rules, w, w', t, w'.log[w.at[t]]);
    case ReadKeys(t, _) =>
      ReadingHolds(rules, db, w, t);
      ReadingKeepsSerial(rules, db, w, t, w'.log[w.at[t]]);
      WorkKeepsOpen(rules, w, w', t, w'.log[w.at[t]]);
    case Upsert(t, answer) =>
      UpsertKeepsSerial(rules, db, w, t, answer);
      WorkKeepsOpen(rules, w, w', t, w'.log[w.at[t]]);
  }

  lemma {:induction false} RunKeeps(rules: Rules, w: World, hs: seq<Happening>)
    requires Initial(w) && Possible(rules, w, hs)
    ensures Invariant(rules, w.store, Outcome(rules, w, hs))
  {
    if hs == [] {
      Protocol.Reachable(w.control, []);
    } else {
      RunKeeps(rules, w, hs[..|hs| - 1]);
      NextKeeps(rules, w.store, Outcome(rules, w, hs[..|hs| - 1]), hs[|hs| - 1]);
    }
  }

  // ----- The theorem -----------------------------------------------------------------------------

  lemma {:induction false} SerialIsReplayed(rules: Rules, db: Database, log: seq<PassRecord>)
    requires AllWellFormed(rules, log) && WellRun(rules.mode, log)
    ensures Serial(rules, db, log) == Replayed(rules.mode, db, log)
  {
    if log != [] {
      SerialIsReplayed(rules, db, log[..|log| - 1]);
    }
  }

  /**
   Any number of threads from all triggers, every remote call a step of its own: in every reachable state
   the store is what the passes, one after the other in the order of their locks and each as far as it has
   got, make of the initial store, and each has counted and read the keys of exactly the store that the
   passes before it leave.
   */
  lemma PassesSerialise(rules: Rules, w: World, hs: seq<Happening>)
    requires Initial(w) && Possible(rules, w, hs)
    ensures var now := Outcome(rules, w, hs);
            && AllWellFormed(rules, now.log)
            && now.store == Serial(rules, w.store, now.log)
            && SerialReadings(rules, w.store, now.log)
  {
    RunKeeps(rules, w, hs);
  }

  /** At rest, with no thread inside a pass, the store is that of whole passes in lock order. */
  lemma AtRestWholePasses(rules: Rules, w: World, hs: seq<Happening>)
    requires Initial(w) && Possible(rules, w, hs)
    requires forall t :: !Inside(Outcome(rules, w, hs), t)
    ensures var now := Outcome(rules, w, hs);
            && WellRun(rules.mode, now.log)
            && now.store == Replayed(rules.mode, w.store, now.log)
            && forall i :: 0 <= i < |now.log| ==>
                 ReadFrom(Replayed(rules.mode, w.store, now.log[..i]), now.log[i].cache, now.log[i].reading)
  {
    RunKeeps(rules, w, hs);
    var now := Outcome(rules, w, hs);
    SerialIsReplayed(rules, w.store, now.log);
    forall i | 0 <= i < |now.log|
      ensures ReadFrom(Replayed(rules.mode, w.store, now.log[..i]), now.log[i].cache, now.log[i].reading)
    {
      assert ReadingAt(rules, w.store, now.log, i);
      SerialIsReplayed(rules, w.store, now.log[..i]);
    }
  }

  // ----- A thread left to itself ------------------------------------------------------------------

  lemma OneMoreHappening(rules: Rules, w: World, hs: seq<Happening>, h: Happening)
    requires Possible(rules, w, hs) && Permitted(rules, Outcome(rules, w, hs), h)
    ensures Possible(rules, w, hs + [h])
    ensures Outcome(rules, w, hs + [h]) == Next(rules, Outcome(rules, w, hs), h)
  {
    assert (hs + [h])[..|hs|] == hs;
  }

  /** One upsert for each answer. */
  function Upserts(t: nat, answers: seq<Answer>): seq<Happening> {
    seq(|answers|, i requires 0 <= i < |answers| => Upsert(t, answers[i]))
  }

  /** The world after the thread's pass got these answers, and nobody else did anything. */
  ghost function AfterUpserts(rules: Rules, w: World, t: nat, answers: seq<Answer>): World
    requires Working(w, t) && |answers| <= |ItemsOf(rules.mode, PassOf(w, t))|
  {
    With(w, t, PassOf(w, t).(answers := answers))
    .(store := Upserted(w.store, ItemsOf(rules.mode, PassOf(w, t)), answers))
  }

  lemma NoUpserts(rules: Rules, w: World, t: nat)
    requires Working(w, t) && PassOf(w, t).answers == []
    ensures AfterUpserts(rules, w, t, []) == w
  {
    assert w.log[w.at[t] := PassOf(w, t).(answers := [])] == w.log;
  }

  lemma UpsertStep(rules: Rules, w: World, t: nat, answers: seq<Answer>, answer: Answer)
    requires Working(w, t) && |answers| < |ItemsOf(rules.mode, PassOf(w, t))| && !PanickedAtLast(answers)
    ensures Permitted(rules, AfterUpserts(rules, w, t, answers), Upsert(t, answer))
    ensures Next(rules, AfterUpserts(rules, w, t, answers), Upsert(t, answer)) ==
            AfterUpserts(rules, w, t, answers + [answer])
  {
    hide ItemsOf, Upserted, RestoreOp, After;
    var pass := PassOf(w, t);
    UpsertedOneMore(w.store, ItemsOf(rules.mode, pass), answers, answer);
    LastUpdateStays(w.log, w.at[t], pass.(answers := answers), pass.(answers := answers + [answer]));
    SameItems(rules.mode, pass, answers);
  }

  lemma SameItems(mode: Mode, pass: PassRecord, answers: seq<Answer>)
    ensures ItemsOf(mode, pass.(answers := answers)) == ItemsOf(mode, pass)
  {
  }

  lemma LastUpdateStays<T>(xs: seq<T>, i: nat, x: T, y: T)
    requires i < |xs|
    ensures xs[i := x][i := y] == xs[i := y]
  {
  }

  /** The upserts of a pass, without interruption, are the pass of the sequential model. */
  lemma {:induction false} UpsertsRun(rules: Rules, w: World, t: nat, answers: seq<Answer>)
    requires Working(w, t) && PassOf(w, t).answers == []
    requires |answers| <= |ItemsOf(rules.mode, PassOf(w, t))| && NoPanicBeforeLast(answers)
    ensures Possible(rules, w, Upserts(t, answers))
    ensures Outcome(rules, w, Upserts(t, answers)) == AfterUpserts(rules, w, t, answers)
  {
    hide Permitted, Next, AfterUpserts;
    if answers == [] {
      NoUpserts(rules, w, t);
    } else {
      var front, last := answers[..|answers| - 1], answers[|answers| - 1];
      UpsertsRun(rules, w, t, front);
      UpsertStep(rules, w, t, front, last);
      OneMoreHappening(rules, w, Upserts(t, front), Upsert(t, last));
      assert Upserts(t, answers) == Upserts(t, front) + [Upsert(t, last)];
      assert answers == front + [last];
    }
  }

  /** The pass of a thread that has just taken its lock. */
  ghost predicate Fresh(w: World, t: nat) {
    Working(w, t) && PassOf(w, t) == PassRecord(PassOf(w, t).cache, None, Reading(None, None), [])
  }

  /** What a thread lists and reads first, in order, when its calls get through; only a shortage asks for the keys. */
  function Reads(rules: Rules, t: nat, docs: seq<Fields>, count: nat, keys: seq<string>): seq<Happening> {
    match rules.mode
    case Incremental =>
      if count < |docs| then [ListSource(t, docs), ReadCount(t, count), ReadKeys(t, keys)]
      else [ListSource(t, docs), ReadCount(t, count)]
    case _ => [ListSource(t, docs)]
  }

  function ReadingOf(rules: Rules, docs: seq<Fields>, count: nat, keys: seq<string>): Reading {
    if !rules.mode.Incremental? then Reading(None, None)
    else Reading(Some(count), if count < |docs| then Some(keys) else None)
  }

  lemma ReadsRun(rules: Rules, w: World, t: nat, docs: seq<Fields>, count: nat, keys: seq<string>)
    requires Fresh(w, t) && rules.Owns(PassOf(w, t).cache, docs)
    requires count == |IdsOf(w.store, PassOf(w, t).cache)| && Enumerates(w.store, PassOf(w, t).cache, keys)
    ensures Possible(rules, w, Reads(rules, t, docs, count, keys))
    ensures Outcome(rules, w, Reads(rules, t, docs, count, keys)) ==
            With(w, t, PassRecord(PassOf(w, t).cache, Some(docs), ReadingOf(rules, docs, count, keys), []))
  {
    var cache := PassOf(w, t).cache;
    OneMoreHappening(rules, w, [], ListSource(t, docs));
    assert [] + [ListSource(t, docs)] == [ListSource(t, docs)];
    if rules.mode.Incremental? {
      CountRun(rules, w, t, docs, count);
      if count < |docs| {
        KeysStep(rules, w, t, docs, count, keys);
        OneMoreHappening(rules, w, [ListSource(t, docs), ReadCount(t, count)], ReadKeys(t, keys));
        assert [ListSource(t, docs), ReadCount(t, count)] + [ReadKeys(t, keys)] ==
               [ListSource(t, docs), ReadCount(t, count), ReadKeys(t, keys)];
      }
    }
  }

  /** A pass that has counted asks for the keys exactly when the store holds fewer than it listed. */
  lemma KeysAskedIff(rules: Rules, w: World, t: nat, docs: seq<Fields>, count: nat, keys: seq<string>)
    requires Working(w, t) && PassOf(w, t) == PassRecord(PassOf(w, t).cache, Some(docs), Reading(Some(count), None), [])
    requires Enumerates(w.store, PassOf(w, t).cache, keys)
    ensures Permitted(rules, w, ReadKeys(t, keys)) <==> count < |docs|
  {
  }

  lemma CountRun(rules: Rules, w: World, t: nat, docs: seq<Fields>, count: nat)
    requires Fresh(w, t) && rules.Owns(PassOf(w, t).cache, docs) && rules.mode.Incremental?
    requires count == |IdsOf(w.store, PassOf(w, t).cache)|
    ensures Possible(rules, w, [ListSource(t, docs), ReadCount(t, count)])
    ensures Outcome(rules, w, [ListSource(t, docs), ReadCount(t, count)]) ==
            With(w, t, PassRecord(PassOf(w, t).cache, Some(docs), Reading(Some(count), None), []))
  {
    OneMoreHappening(rules, w, [], ListSource(t, docs));
    assert [] + [ListSource(t, docs)] == [ListSource(t, docs)];
    OneMoreHappening(rules, w, [ListSource(t, docs)], ReadCount(t, count));
    assert [ListSource(t, docs)] + [ReadCount(t, count)] == [ListSource(t, docs), ReadCount(t, count)];
  }

  lemma KeysStep(rules: Rules, w: World, t: nat, docs: seq<Fields>, count: nat, keys: seq<string>)
    requires Fresh(w, t) && count < |docs| && Enumerates(w.store, PassOf(w, t).cache, keys)
    ensures var counted := With(w, t, PassRecord(PassOf(w, t).cache, Some(docs), Reading(Some(count), None), []));
            && Permitted(rules, counted, ReadKeys(t, keys))
            && Next(rules, counted, ReadKeys(t, keys)) ==
               With(w, t, PassRecord(PassOf(w, t).cache, Some(docs), Reading(Some(count), Some(keys)), []))
  {
  }

  /**
   A thread left to itself can run a whole pass, in every mode and with every sequence of answers, and
   makes of the store what the sequential pass makes of it; then it can return, or panic if it must.
   */
  lemma SoloPass(rules: Rules, w: World, t: nat, docs: seq<Fields>, count: nat, keys: seq<string>, answers: seq<Answer>)
    requires Fresh(w, t) && rules.Owns(PassOf(w, t).cache, docs) && !w.control.crashed
    requires count == |IdsOf(w.store, PassOf(w, t).cache)| && Enumerates(w.store, PassOf(w, t).cache, keys)
    requires RanThrough(Selected(rules.mode, docs, ReadingOf(rules, docs, count, keys)), answers)
    ensures var items := Selected(rules.mode, docs, ReadingOf(rules, docs, count, keys));
            var hs := Reads(rules, t, docs, count, keys) + Upserts(t, answers);
            && Possible(rules, w, hs)
            && Outcome(rules, w, hs).store == Upserted(w.store, items, answers)
            && Outcome(rules, w, hs).control == w.control
            && Permitted(rules, Outcome(rules, w, hs),
                         Control(if PanickedAtLast(answers) then Protocol.Panic(t) else Protocol.Return(t)))
  {
    hide Permitted, Next;
    var start := Reads(rules, t, docs, count, keys);
    ReadsRun(rules, w, t, docs, count, keys);
    var w' := Outcome(rules, w, start);
    UpsertsRun(rules, w', t, answers);
    RunAfterRun(rules, w, start, Upserts(t, answers));
    PassEnds(rules, Outcome(rules, w', Upserts(t, answers)), t);
  }

  lemma PassEnds(rules: Rules, w: World, t: nat)
    requires Working(w, t) && !w.control.crashed && RanThrough(ItemsOf(rules.mode, PassOf(w, t)), PassOf(w, t).answers)
    ensures var last := if PanickedAtLast(PassOf(w, t).answers) then Protocol.Panic(t) else Protocol.Return(t);
            Permitted(rules, w, Control(last))
  {
  }

  lemma {:induction false} RunAfterRun(rules: Rules, w: World, first: seq<Happening>, second: seq<Happening>)
    requires Possible(rules, w, first) && Possible(rules, Outcome(rules, w, first), second)
    ensures Possible(rules, w, first + second)
    ensures Outcome(rules, w, first + second) == Outcome(rules, Outcome(rules, w, first), second)
  {
    hide Permitted, Next;
    if second == [] {
      assert first + second == first;
    } else {
      var front, last := second[..|second| - 1], second[|second| - 1];
      RunAfterRun(rules, w, first, front);
      OneMoreHappening(rules, w, first + front, last);
      assert first + second == first + front + [last];
    }
  }

  /** Taking a free lock opens a fresh pass at the end of the log. */
  lemma LockOpensPass(rules: Rules, w: World, t: nat)
    requires Permitted(rules, w, Control(Protocol.TryLock(t)))
    ensures var cache, after := w.control.threads[t].pc.cache, Next(rules, w, Control(Protocol.TryLock(t)));
            if cache in w.control.held then after.log == w.log && after.at == w.at
            else Fresh(after, t) && after.at[t] == |w.log| && PassOf(after, t).cache == cache
  {
  }
}
