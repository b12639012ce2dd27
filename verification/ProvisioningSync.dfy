/**
 Provisioning mode as one machine: PUT and DELETE write the MongoDB primary at once and Hazelcast by
 goroutines (internal/store/storemanager.go:98-156), while passes over earlier listings of the primary
 upsert into Hazelcast too (internal/reconciliation/reconciliation.go:102-116).
 */
module ProvisioningSync {
  import opened Wrappers
  import opened Json
  import opened Config
  import opened Replication
  import opened Stores
  import opened StoreManager
  import opened Reconciliation
  import opened PassTheorems

  datatype Sync = Sync(
    stores: ManagerState,            // MongoDB, Hazelcast and the goroutines between them
    passes: map<nat, seq<Fields>>,   // per pass, the listed items still to upsert
    written: set<Fields>)            // every object a request ever wrote, without `_id`

  datatype SyncEvent =
    | Request(call: Call, answer: Answer)                                       // PUT or DELETE, as MongoDB answered it
    | Finish(op: StoreOp, answer: Answer)                                       // a goroutine ends
    | Begin(pass: nat, dataset: string, ids: seq<string>, docs: seq<Fields>, items: seq<Fields>)
    | RestoreNext(pass: nat, answer: Answer)                                    // a pass upserts its next item

  /** The step of the stores that a request or a goroutine is. */
  ghost function StoreEvent(resources: seq<Resource>, e: SyncEvent): ManagerEvent
    requires e.Request? || e.Finish?
  {
    EventOf(Mongo(resources), Hazelcast, if e.Request? then Called(e.call, e.answer) else Ended(e.op, e.answer))
  }

  /** The API updates nothing but by PUT; a pass chooses its items from a listing of the primary. */
  ghost predicate Permitted(resources: seq<Resource>, s: Sync, e: SyncEvent) {
    s.stores.alive &&
    match e
    case Request(call, _) => !call.Update? && Enabled(s.stores, StoreEvent(resources, e))
    case Finish(_, _) => Enabled(s.stores, StoreEvent(resources, e))
    case Begin(pass, dataset, ids, docs, items) =>
      && (pass in s.passes ==> s.passes[pass] == [])
      && Lists(Mongo(resources), s.stores.primary, dataset, ids, docs)
      && (forall item :: item in items ==> item in docs)
    case RestoreNext(pass, _) => pass in s.passes && s.passes[pass] != []
  }

  ghost function Next(resources: seq<Resource>, s: Sync, e: SyncEvent): Sync
    requires Permitted(resources, s, e)
  {
    match e
    case Request(call, _) =>
      s.(stores := Step(s.stores, StoreEvent(resources, e)),
         written := if call.Create? then s.written + {WithoutId(call.obj)} else s.written)
    case Finish(_, _) => s.(stores := Step(s.stores, StoreEvent(resources, e)))
    case Begin(pass, _, _, _, items) => s.(passes := s.passes[pass := items])
    case RestoreNext(pass, answer) =>
      s.(stores := s.stores.(secondary := After(s.stores.secondary, RestoreOp(s.passes[pass][0]), answer)),
         passes := s.passes[pass := if answer.Panicked? then [] else s.passes[pass][1..]])
  }

  ghost predicate Possible(resources: seq<Resource>, s: Sync, es: seq<SyncEvent>)
    decreases |es|, 0
  {
    es != [] ==>
      var n := |es| - 1;
      Possible(resources, s, es[..n]) && Permitted(resources, Outcome(resources, s, es[..n]), es[n])
  }

  ghost function Outcome(resources: seq<Resource>, s: Sync, es: seq<SyncEvent>): Sync
    requires Possible(resources, s, es)
    decreases |es|, 1
  {
    if es == [] then s else Next(resources, Outcome(resources, s, es[..|es| - 1]), es[|es| - 1])
  }

  // ----- Where the entries of Hazelcast come from ------------------------------------------

  /** An operation on its way to Hazelcast puts a written object under its own key, or removes. */
  ghost predicate KnownOp(written: set<Fields>, op: StoreOp) {
    op.Put? ==> WithoutId(op.value) in written && KeyOf(op.value) == op.key
  }

  /** Everything in the primary, in the goroutines and in the passes was written by a request. */
  ghost predicate Grounded(s: Sync) {
    && (forall key :: key in s.stores.primary ==> WithoutId(s.stores.primary[key]) in s.written)
    && (forall op :: op in s.stores.pending ==> KnownOp(s.written, op))
    && (forall pass, item :: pass in s.passes && item in s.passes[pass] ==> WithoutId(item) in s.written)
  }

  /**
   An entry of Hazelcast is the initial one, gone, or, up to `_id`, an object that a request wrote under
   that key, as it was written or in normalised form.
   */
  ghost predicate Explained(initial: Database, s: Sync, key: Key) {
    || At(s.stores.secondary, key) == At(initial, key)
    || At(s.stores.secondary, key) == None
    || (key in s.stores.secondary && WrittenAs(s.written, key, s.stores.secondary[key]))
  }

  ghost predicate WrittenAs(written: set<Fields>, key: Key, entry: Fields) {
    exists obj :: obj in written && KeyOf(obj) == key &&
      (WithoutId(entry) == obj || WithoutId(entry) == WithEnvironment(obj))
  }

  lemma KeyWithoutId(doc: Fields)
    ensures KeyOf(WithoutId(doc)) == KeyOf(doc)
  {
    if "_id" in doc {
      IdentityIgnoresId(WithoutId(doc), doc["_id"]);
      assert WithoutId(doc)["_id" := doc["_id"]] == doc;
    } else {
      assert WithoutId(doc) == doc;
    }
  }

  lemma RequestOps(resources: seq<Resource>, call: Call)
    requires !call.Update?
    ensures var p, q, obj := MongoOp(resources, call), HazelcastOp(call), WithoutId(call.obj);
            && (call.Create? ==> KnownOp({obj}, q) && (p.Put? ==> p.value == obj && WithoutId(obj) == obj))
            && (call.Delete? ==> !p.Put? && !q.Put?)
  {
    if call.Create? {
      var obj := WithoutId(call.obj);
      assert WithoutId(obj) == obj;
    }
  }

  lemma ListedIsWritten(resources: seq<Resource>, s: Sync, dataset: string, ids: seq<string>, docs: seq<Fields>)
    requires Grounded(s) && Lists(Mongo(resources), s.stores.primary, dataset, ids, docs)
    ensures forall doc :: doc in docs ==> WithoutId(doc) in s.written
  {
    ListingKeys(resources, s.stores.primary, dataset, ids, docs);
  }

  lemma NextStaysGrounded(resources: seq<Resource>, s: Sync, e: SyncEvent)
    requires Grounded(s) && Permitted(resources, s, e)
    ensures Grounded(Next(resources, s, e)) && s.written <= Next(resources, s, e).written
  {
    var s' := Next(resources, s, e);
    match e
    case Request(call, _) =>
      RequestOps(resources, call);
      forall op | op in s'.stores.pending
        ensures KnownOp(s'.written, op)
      {
        assert op in s.stores.pending || op == HazelcastOp(call);
      }
    case Finish(op, _) =>
      assert forall o :: o in s'.stores.pending ==> o in s.stores.pending;
    case Begin(_, dataset, ids, docs, _) =>
      ListedIsWritten(resources, s, dataset, ids, docs);
    case RestoreNext(pass, _) =>
      assert forall item :: item in s.passes[pass][1..] ==> item in s.passes[pass];
  }

  lemma NextStaysExplained(resources: seq<Resource>, initial: Database, s: Sync, e: SyncEvent, key: Key)
    requires Grounded(s) && Permitted(resources, s, e) && Explained(initial, s, key)
    ensures Explained(initial, Next(resources, s, e), key)
  {
    match e
    case Finish(op, _) =>
      if op.Put? && op.key == key {
        KeyWithoutId(op.value);
        assert WrittenAs(s.written, key, op.value);
      }
    case RestoreNext(pass, _) =>
      var item := s.passes[pass][0];
      assert item in s.passes[pass];
      RestoreKey(item);
      if KeyOf(item) == key {
        KeyWithoutId(item);
        EnvironmentIgnoresId(item);
        assert WrittenAs(s.written, key, WithEnvironment(item));
      }
    case Request(_, _) =>
      if key in s.stores.secondary && WrittenAs(s.written, key, s.stores.secondary[key]) {
        assert WrittenAs(Next(resources, s, e).written, key, s.stores.secondary[key]);
      }
    case Begin(_, _, _, _, _) =>
  }

  /**
   No value from thin air in provisioning mode: with requests, goroutines in any order, failures, panics
   and passes over stale listings of the primary interleaved in any way, every entry of Hazelcast is
   initial, gone, or an object that some request wrote under its key.
   */
  lemma {:induction false} ProvisionedProvenance(resources: seq<Resource>, s: Sync, es: seq<SyncEvent>)
    requires Grounded(s) && Possible(resources, s, es)
    ensures Grounded(Outcome(resources, s, es))
    ensures forall key :: Explained(s.stores.secondary, Outcome(resources, s, es), key)
  {
    if es != [] {
      var front, e := es[..|es| - 1], es[|es| - 1];
      ProvisionedProvenance(resources, s, front);
      NextStaysGrounded(resources, Outcome(resources, s, front), e);
      forall key
        ensures Explained(s.stores.secondary, Outcome(resources, s, es), key)
      {
        NextStaysExplained(resources, s.stores.secondary, Outcome(resources, s, front), e, key);
      }
    }
  }

  // ----- When an entry of Hazelcast is final -------------------------------------------------

  /** An entry compared without its `_id`. */
  function UpToId(entry: Option<Fields>): Option<Fields> {
    if entry.Some? then Some(WithoutId(entry.value)) else None
  }

  ghost function EntryAt(s: Sync, key: Key): Option<Fields> {
    UpToId(At(s.stores.secondary, key))
  }

  /** No request of the run writes or deletes the entry. */
  ghost predicate Untouched(es: seq<SyncEvent>, key: Key) {
    forall e :: e in es && e.Request? ==> !HazelcastOp(e.call).On(key)
  }

  /** What restoring the document leaves in Hazelcast. */
  function RestoredForm(doc: Fields): Option<Fields> {
    Some(WithEnvironment(WithoutId(doc)))
  }

  /** Every goroutine, every listed item and every document of the primary for the entry would leave it as it is. */
  ghost predicate NothingStale(s: Sync, key: Key) {
    && (forall op :: op in s.stores.pending && op.On(key) ==> UpToId(op.Effect()) == EntryAt(s, key))
    && (forall pass, item :: pass in s.passes && item in s.passes[pass] && KeyOf(item) == key ==>
          RestoredForm(item) == EntryAt(s, key))
    && (forall k :: k in s.stores.primary && KeyOf(s.stores.primary[k]) == key ==>
          RestoredForm(s.stores.primary[k]) == EntryAt(s, key))
  }

  /** Under every continuation without a request for it, the entry stays as it is, up to `_id`. */
  ghost predicate StaysAsItIs(resources: seq<Resource>, s: Sync, key: Key) {
    forall es :: Possible(resources, s, es) && Untouched(es, key) ==>
      EntryAt(Outcome(resources, s, es), key) == EntryAt(s, key)
  }

  lemma RestoreLeaves(store: Database, item: Fields, answer: Answer, key: Key)
    ensures UpToId(At(After(store, RestoreOp(item), answer), key)) ==
            if KeyOf(item) == key && answer.Applied() then RestoredForm(item) else UpToId(At(store, key))
  {
    RestoreKey(item);
    EnvironmentIgnoresId(item);
  }

  lemma FinishLeaves(store: Database, op: StoreOp, answer: Answer, key: Key)
    ensures UpToId(At(After(store, op, answer), key)) ==
            if op.On(key) && answer.Applied() then UpToId(op.Effect()) else UpToId(At(store, key))
  {
  }

  lemma NextStaysAsItIs(resources: seq<Resource>, s: Sync, e: SyncEvent, key: Key)
    requires Permitted(resources, s, e) && NothingStale(s, key) && Untouched([e], key)
    ensures EntryAt(Next(resources, s, e), key) == EntryAt(s, key)
  {
    match e
    case Finish(op, answer) => FinishLeaves(s.stores.secondary, op, answer, key);
    case RestoreNext(pass, answer) =>
      assert s.passes[pass][0] in s.passes[pass];
      RestoreLeaves(s.stores.secondary, s.passes[pass][0], answer, key);
    case _ =>
  }

  /** A request for another entry leaves no document of this one in the primary that was not there. */
  lemma RequestStaysAway(resources: seq<Resource>, db: Database, call: Call, answer: Answer, key: Key, k: Key)
    requires !call.Update? && !HazelcastOp(call).On(key)
    requires k in After(db, MongoOp(resources, call), answer)
    requires KeyOf(After(db, MongoOp(resources, call), answer)[k]) == key
    ensures k in db && db[k] == After(db, MongoOp(resources, call), answer)[k]
  {
    KeyWithoutId(call.obj);
  }

  lemma RequestBringsNothingStale(resources: seq<Resource>, s: Sync, e: SyncEvent, key: Key)
    requires Permitted(resources, s, e) && NothingStale(s, key) && e.Request? && !HazelcastOp(e.call).On(key)
    ensures NothingStale(Next(resources, s, e), key)
  {
    var s' := Next(resources, s, e);
    forall k | k in s'.stores.primary && KeyOf(s'.stores.primary[k]) == key
      ensures RestoredForm(s'.stores.primary[k]) == EntryAt(s, key)
    {
      RequestStaysAway(resources, s.stores.primary, e.call, e.answer, key, k);
    }
    assert forall op :: op in s'.stores.pending ==> op in s.stores.pending || op == HazelcastOp(e.call);
  }

  lemma NextBringsNothingStale(resources: seq<Resource>, s: Sync, e: SyncEvent, key: Key)
    requires Permitted(resources, s, e) && NothingStale(s, key) && Untouched([e], key)
    ensures NothingStale(Next(resources, s, e), key)
  {
    assert e in [e];
    if e.Request? {
      RequestBringsNothingStale(resources, s, e, key);
    } else {
      NextStaysAsItIs(resources, s, e, key);
      if e.Begin? {
        ListingKeys(resources, s.stores.primary, e.dataset, e.ids, e.docs);
      } else if e.RestoreNext? {
        assert forall item :: item in s.passes[e.pass][1..] ==> item in s.passes[e.pass];
      } else {
        assert forall o :: o in Next(resources, s, e).stores.pending ==> o in s.stores.pending;
      }
    }
  }

  lemma {:induction false} StaysFinal(resources: seq<Resource>, s: Sync, es: seq<SyncEvent>, key: Key)
    requires Possible(resources, s, es) && NothingStale(s, key) && Untouched(es, key)
    ensures NothingStale(Outcome(resources, s, es), key) && EntryAt(Outcome(resources, s, es), key) == EntryAt(s, key)
  {
    if es != [] {
      var front, e := es[..|es| - 1], es[|es| - 1];
      assert es == front + [e];
      StaysFinal(resources, s, front, key);
      NextStaysAsItIs(resources, Outcome(resources, s, front), e, key);
      NextBringsNothingStale(resources, Outcome(resources, s, front), e, key);
    }
  }

  lemma OneMoreEvent(resources: seq<Resource>, s: Sync, es: seq<SyncEvent>, e: SyncEvent)
    requires Possible(resources, s, es) && Permitted(resources, Outcome(resources, s, es), e)
    ensures Possible(resources, s, es + [e])
    ensures Outcome(resources, s, es + [e]) == Next(resources, Outcome(resources, s, es), e)
  {
    assert (es + [e])[..|es|] == es;
  }

  /** A goroutine that would leave the entry otherwise may be the next to run. */
  lemma PendingUpsets(resources: seq<Resource>, s: Sync, key: Key, op: StoreOp)
    requires s.stores.alive && op in s.stores.pending && op.On(key) && UpToId(op.Effect()) != EntryAt(s, key)
    ensures !StaysAsItIs(resources, s, key)
  {
    var e := Finish(op, Done);
    OneMoreEvent(resources, s, [], e);
    assert [] + [e] == [e];
    FinishLeaves(s.stores.secondary, op, Done, key);
    assert Possible(resources, s, [e]) && Untouched([e], key);
  }

  /** After `es` the pass is about to upsert a stale item. */
  ghost predicate StaleAhead(resources: seq<Resource>, s: Sync, es: seq<SyncEvent>, key: Key, pass: nat)
    requires Possible(resources, s, es)
  {
    var now := Outcome(resources, s, es);
    && now.stores.alive && pass in now.passes && now.passes[pass] != []
    && KeyOf(now.passes[pass][0]) == key && RestoredForm(now.passes[pass][0]) != EntryAt(s, key)
  }

  lemma StaleItemUpsets(resources: seq<Resource>, s: Sync, es: seq<SyncEvent>, key: Key, pass: nat)
    requires Possible(resources, s, es) && Untouched(es, key) && StaleAhead(resources, s, es, key, pass)
    ensures !StaysAsItIs(resources, s, key)
  {
    var e, now := RestoreNext(pass, Done), Outcome(resources, s, es);
    OneMoreEvent(resources, s, es, e);
    RestoreLeaves(now.stores.secondary, now.passes[pass][0], Done, key);
    assert Possible(resources, s, es + [e]) && Untouched(es + [e], key);
  }

  /** The upserts of a pass, one for each answer. */
  function Restores(pass: nat, answers: seq<Answer>): seq<SyncEvent> {
    seq(|answers|, i requires 0 <= i < |answers| => RestoreNext(pass, answers[i]))
  }

  /** The pass after these answers: only a panic ends it before its last item. */
  ghost function PassAfter(s: Sync, pass: nat, answers: seq<Answer>): Sync
    requires pass in s.passes && |answers| <= |s.passes[pass]|
  {
    s.(stores := s.stores.(secondary := Upserted(s.stores.secondary, s.passes[pass], answers)),
       passes := s.passes[pass := if PanickedAtLast(answers) then [] else s.passes[pass][|answers|..]])
  }

  lemma PassStep(resources: seq<Resource>, s: Sync, pass: nat, answers: seq<Answer>, answer: Answer)
    requires s.stores.alive && pass in s.passes && |answers| < |s.passes[pass]| && !PanickedAtLast(answers)
    ensures Permitted(resources, PassAfter(s, pass, answers), RestoreNext(pass, answer))
    ensures Next(resources, PassAfter(s, pass, answers), RestoreNext(pass, answer)) ==
            PassAfter(s, pass, answers + [answer])
  {
    hide RestoreOp, After;
    var items, n := s.passes[pass], |answers|;
    UpsertedOneMore(s.stores.secondary, items, answers, answer);
    assert items[n..][0] == items[n] && items[n..][1..] == items[n + 1..];
    assert s.passes[pass := items[n..]][pass := items[n + 1..]] == s.passes[pass := items[n + 1..]];
    assert s.passes[pass := items[n..]][pass := []] == s.passes[pass := []];
  }

  /** A pass left to itself is the pass of the sequential model, whatever its calls are answered. */
  lemma {:induction false} PassAlone(resources: seq<Resource>, s: Sync, pass: nat, answers: seq<Answer>)
    requires s.stores.alive && pass in s.passes && |answers| <= |s.passes[pass]| && NoPanicBeforeLast(answers)
    ensures Possible(resources, s, Restores(pass, answers))
    ensures Outcome(resources, s, Restores(pass, answers)) == PassAfter(s, pass, answers)
  {
    if answers == [] {
      assert s.passes[pass][0..] == s.passes[pass] && s.passes[pass := s.passes[pass]] == s.passes;
    } else {
      hide PassAfter, Next, Permitted;
      var front, last := answers[..|answers| - 1], answers[|answers| - 1];
      assert answers == front + [last] && Restores(pass, answers) == Restores(pass, front) + [RestoreNext(pass, last)];
      PassAlone(resources, s, pass, front);
      PassStep(resources, s, pass, front, last);
      OneMoreEvent(resources, s, Restores(pass, front), RestoreNext(pass, last));
    }
  }

  /** A pass begins when it is not under way, over documents of a listing of the primary. */
  lemma PassBegins(resources: seq<Resource>, s: Sync, pass: nat, dataset: string, ids: seq<string>,
                   docs: seq<Fields>, items: seq<Fields>)
    requires s.stores.alive && Lists(Mongo(resources), s.stores.primary, dataset, ids, docs)
    ensures Permitted(resources, s, Begin(pass, dataset, ids, docs, items)) <==>
            && (pass !in s.passes || |s.passes[pass]| == 0)
            && (forall i :: 0 <= i < |items| ==> items[i] in docs)
    ensures Permitted(resources, s, Begin(pass, dataset, ids, docs, items)) ==>
              Next(resources, s, Begin(pass, dataset, ids, docs, items)) == s.(passes := s.passes[pass := items])
  {
    assert (forall item :: item in items ==> item in docs) <==> forall i :: 0 <= i < |items| ==> items[i] in docs;
  }

  function Repeat(e: SyncEvent, n: nat): seq<SyncEvent> {
    seq(n, _ => e)
  }

  /** A pass left to itself works off its items in order. */
  lemma {:induction false} WorkOff(resources: seq<Resource>, s: Sync, pass: nat, n: nat)
    requires s.stores.alive && pass in s.passes && n <= |s.passes[pass]|
    ensures var es := Repeat(RestoreNext(pass, Done), n);
            && Possible(resources, s, es)
            && var now := Outcome(resources, s, es);
               now.stores.alive && pass in now.passes && now.passes[pass] == s.passes[pass][n..]
  {
    if n > 0 {
      WorkOff(resources, s, pass, n - 1);
      OneMoreEvent(resources, s, Repeat(RestoreNext(pass, Done), n - 1), RestoreNext(pass, Done));
      assert Repeat(RestoreNext(pass, Done), n) == Repeat(RestoreNext(pass, Done), n - 1) + [RestoreNext(pass, Done)];
    }
  }

  lemma ListedUpsets(resources: seq<Resource>, s: Sync, key: Key, pass: nat, i: nat)
    requires s.stores.alive && pass in s.passes && i < |s.passes[pass]|
    requires KeyOf(s.passes[pass][i]) == key && RestoredForm(s.passes[pass][i]) != EntryAt(s, key)
    ensures !StaysAsItIs(resources, s, key)
  {
    WorkOff(resources, s, pass, i);
    StaleItemUpsets(resources, s, Repeat(RestoreNext(pass, Done), i), key, pass);
  }

  lemma {:induction false} InSomeOrder(ids: set<string>) returns (order: seq<string>)
    ensures Stores.Distinct(order) && forall id :: id in order <==> id in ids
    decreases ids
  {
    if ids == {} {
      order := [];
    } else {
      var id :| id in ids;
      var rest := InSomeOrder(ids - {id});
      order := rest + [id];
    }
  }

  /** The primary can always be listed. */
  lemma SomeListing(resources: seq<Resource>, db: Database, key: Key)
    returns (ids: seq<string>, docs: seq<Fields>, doc: Fields)
    requires key in db
    ensures Lists(Mongo(resources), db, key.dataset, ids, docs)
    ensures doc in docs && KeyOf(doc) == KeyOf(db[key]) && WithoutId(doc) == WithoutId(db[key])
  {
    ids := InSomeOrder(IdsOf(db, key.dataset));
    forall id
      ensures id in ids <==> Key(key.dataset, id) in db
    {
      assert id in IdsOf(db, key.dataset) <==> Key(key.dataset, id) in db;
    }
    docs := seq(|ids|, i requires 0 <= i < |ids| =>
      assert ids[i] in ids; Shown(Mongo(resources), Key(key.dataset, ids[i]), db[Key(key.dataset, ids[i])]));
    ListingKeys(resources, db, key.dataset, ids, docs);
    assert key.id in ids && key == Key(key.dataset, key.id);
    var i :| 0 <= i < |ids| && ids[i] == key.id;
    doc := docs[i];
  }

  lemma {:induction false} AboveAll(used: set<nat>) returns (n: nat)
    ensures forall m :: m in used ==> m < n
    decreases used
  {
    if used == {} {
      n := 0;
    } else {
      var m :| m in used;
      n := AboveAll(used - {m});
      n := if n <= m then m + 1 else n;
      assert forall k :: k in used ==> k == m || k in used - {m};
    }
  }

  /** A document of the primary may be listed by a pass at any time. */
  lemma PrimaryUpsets(resources: seq<Resource>, s: Sync, key: Key, k: Key)
    requires s.stores.alive && k in s.stores.primary
    requires KeyOf(s.stores.primary[k]) == key && RestoredForm(s.stores.primary[k]) != EntryAt(s, key)
    ensures !StaysAsItIs(resources, s, key)
  {
    var pass := AboveAll(s.passes.Keys);
    assert pass !in s.passes;
    var ids, docs, doc := SomeListing(resources, s.stores.primary, k);
    var e := Begin(pass, k.dataset, ids, docs, [doc]);
    OneMoreEvent(resources, s, [], e);
    assert [] + [e] == [e];
    StaleItemUpsets(resources, s, [e], key, pass);
  }

  /**
   Final entries, exactly: while the process lives, an entry of Hazelcast, or its absence, stays as it is up
   to `_id` under every continuation without a request for it, exactly when every goroutine under way, every
   item that a pass has listed and every document of the primary for that entry would leave it so.
   */
  lemma EntryIsFinalIff(resources: seq<Resource>, s: Sync, key: Key)
    requires s.stores.alive
    ensures StaysAsItIs(resources, s, key) <==> NothingStale(s, key)
  {
    if NothingStale(s, key) {
      forall es | Possible(resources, s, es) && Untouched(es, key)
        ensures EntryAt(Outcome(resources, s, es), key) == EntryAt(s, key)
      {
        StaysFinal(resources, s, es, key);
      }
    } else if op :| op in s.stores.pending && op.On(key) && UpToId(op.Effect()) != EntryAt(s, key) {
      PendingUpsets(resources, s, key, op);
    } else if pass, item :| pass in s.passes && item in s.passes[pass] && KeyOf(item) == key
                            && RestoredForm(item) != EntryAt(s, key) {
      var i :| 0 <= i < |s.passes[pass]| && s.passes[pass][i] == item;
      ListedUpsets(resources, s, key, pass, i);
    } else {
      var k :| k in s.stores.primary && KeyOf(s.stores.primary[k]) == key
               && RestoredForm(s.stores.primary[k]) != EntryAt(s, key);
      PrimaryUpsets(resources, s, key, k);
    }
  }

  // ----- A DELETE that is undone --------------------------------------------------------------

  /** The object is in both stores and nothing is under way. */
  function Provisioned(obj: Fields, id: string): Sync {
    Sync(Replication.State(map[Key(GroupVersionId(obj), id) := obj], map[KeyOf(obj) := WithEnvironment(obj)],
                           multiset{}, true),
         map[], {obj})
  }

  function Listing(obj: Fields, id: string): Fields {
    obj["_id" := Str(id)]
  }

  /** The events of DeleteUndone: a pass lists, the request deletes, its goroutine deletes, the pass upserts. */
  function UndoneEvents(obj: Fields, id: string): seq<SyncEvent> {
    var doc := Listing(obj, id);
    [Begin(0, GroupVersionId(obj), [id], [doc], [doc]), Request(Delete(obj), Done),
     Finish(Remove(KeyOf(obj)), Done), RestoreNext(0, Done)]
  }

  lemma ListedState(resources: seq<Resource>, obj: Fields, id: string)
    requires "_id" !in obj
    ensures var s, e := Provisioned(obj, id), UndoneEvents(obj, id)[0];
            && Permitted(resources, s, e)
            && Next(resources, s, e) == s.(passes := map[0 := [Listing(obj, id)]])
  {
    var db := Provisioned(obj, id).stores.primary;
    assert forall i :: i in [id] <==> Key(GroupVersionId(obj), i) in db;
  }

  lemma DeletedState(resources: seq<Resource>, obj: Fields, id: string)
    requires "_id" !in obj && MongoId(resources, obj) == Some(id)
    ensures var s := Provisioned(obj, id).(passes := map[0 := [Listing(obj, id)]]);
            var e := UndoneEvents(obj, id)[1];
            && Permitted(resources, s, e)
            && Next(resources, s, e) ==
              s.(stores := s.stores.(primary := map[], pending := multiset{Remove(KeyOf(obj))}))
  {
    hide GroupVersionId, Name, MongoId, WithEnvironment;
    assert MongoOp(resources, Delete(obj)) == Remove(Key(GroupVersionId(obj), id));
    assert HazelcastOp(Delete(obj)) == Remove(KeyOf(obj));
    OneEntryRemoved(Key(GroupVersionId(obj), id), obj);
  }

  lemma OneEntryRemoved<K, V>(k: K, v: V)
    ensures map[k := v] - {k} == map[]
  {
  }

  lemma RemovedState(resources: seq<Resource>, obj: Fields, id: string)
    ensures var before := Provisioned(obj, id).(passes := map[0 := [Listing(obj, id)]]);
            var s := before.(stores := before.stores.(primary := map[], pending := multiset{Remove(KeyOf(obj))}));
            var e := UndoneEvents(obj, id)[2];
            && Permitted(resources, s, e)
            && Next(resources, s, e) ==
               s.(stores := s.stores.(secondary := map[], pending := multiset{}))
  {
    OneEntryRemoved(KeyOf(obj), WithEnvironment(obj));
  }

  lemma ListedDeletedRemoved(resources: seq<Resource>, obj: Fields, id: string)
    requires "_id" !in obj && MongoId(resources, obj) == Some(id)
    ensures var s, es := Provisioned(obj, id), UndoneEvents(obj, id)[..3];
            && Possible(resources, s, es)
            && Outcome(resources, s, es) ==
               Sync(Replication.State(map[], map[], multiset{}, true), map[0 := [Listing(obj, id)]], {obj})
  {
    hide Next, Permitted;
    var s, es := Provisioned(obj, id), UndoneEvents(obj, id);
    ListedState(resources, obj, id);
    OneMoreEvent(resources, s, [], es[0]);
    assert [] + [es[0]] == es[..1];
    DeletedState(resources, obj, id);
    OneMoreEvent(resources, s, es[..1], es[1]);
    assert es[..1] + [es[1]] == es[..2];
    RemovedState(resources, obj, id);
    OneMoreEvent(resources, s, es[..2], es[2]);
    assert es[..2] + [es[2]] == es[..3];
  }

  /** The state after DeleteUndone. */
  function UndoneEnd(obj: Fields, id: string): Sync {
    Sync(Replication.State(map[], map[KeyOf(obj) := WithEnvironment(Listing(obj, id))], multiset{}, true),
         map[0 := []], {obj})
  }

  lemma RestoredState(resources: seq<Resource>, obj: Fields, id: string)
    ensures var s := Sync(Replication.State(map[], map[], multiset{}, true), map[0 := [Listing(obj, id)]], {obj});
            var e := UndoneEvents(obj, id)[3];
            Permitted(resources, s, e) && Next(resources, s, e) == UndoneEnd(obj, id)
  {
    RestoreKey(Listing(obj, id));
    IdentityIgnoresId(obj, Str(id));
    var store: Database := map[];
    assert After(store, RestoreOp(Listing(obj, id)), Done) == map[KeyOf(obj) := WithEnvironment(Listing(obj, id))];
  }

  lemma UndoneIsFinal(resources: seq<Resource>, obj: Fields, id: string)
    requires "_id" !in obj
    ensures EntryAt(UndoneEnd(obj, id), KeyOf(obj)) == RestoredForm(obj)
    ensures StaysAsItIs(resources, UndoneEnd(obj, id), KeyOf(obj))
  {
    assert WithoutId(obj) == obj && WithoutId(Listing(obj, id)) == obj;
    EnvironmentIgnoresId(Listing(obj, id));
    EntryIsFinalIff(resources, UndoneEnd(obj, id), KeyOf(obj));
  }

  /**
   With every call successful, an accepted DELETE is undone in Hazelcast by a pass that had listed the
   object before, and for good: the primary has nothing, Hazelcast keeps the entry.
   */
  lemma DeleteUndone(resources: seq<Resource>, obj: Fields, id: string)
    requires "_id" !in obj && MongoId(resources, obj) == Some(id)
    ensures Grounded(Provisioned(obj, id))
    ensures var s, es := Provisioned(obj, id), UndoneEvents(obj, id);
            && Possible(resources, s, es[..3]) && KeyOf(obj) !in Outcome(resources, s, es[..3]).stores.secondary
            && Possible(resources, s, es) && Outcome(resources, s, es) == UndoneEnd(obj, id)
    ensures UndoneEnd(obj, id).stores.primary == map[] && UndoneEnd(obj, id).stores.pending == multiset{}
    ensures EntryAt(UndoneEnd(obj, id), KeyOf(obj)) == RestoredForm(obj)
    ensures StaysAsItIs(resources, UndoneEnd(obj, id), KeyOf(obj))
  {
    var s, es := Provisioned(obj, id), UndoneEvents(obj, id);
    assert WithoutId(obj) == obj;
    ListedDeletedRemoved(resources, obj, id);
    RestoredState(resources, obj, id);
    OneMoreEvent(resources, s, es[..3], es[3]);
    assert es[..3] + [es[3]] == es;
    UndoneIsFinal(resources, obj, id);
  }
}
