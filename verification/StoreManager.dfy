/**
 The dual store manager of internal/store/storemanager.go: synchronous writes to the primary,
 one goroutine per write for the secondary, reads from the primary only.

 Its read-write lock is only ever taken for reading, so it orders nothing and is not modelled.
 */
module StoreManager {
  import opened Wrappers
  import opened Json
  import opened Config
  import opened Replication
  import opened RenamedReplication
  import opened Stores

  type ManagerState = Replication.State<Key, Fields>
  type ManagerEvent = Replication.Event<Key, Fields>

  class DualStoreManager {
    const primary: Store
    const secondary: Store?
    var pending: multiset<StoreOp>  // spawned goroutines that have not finished
    var alive: bool                 // the process has not been ended by a panicking goroutine

    ghost predicate Valid()
      reads this
    {
      secondary != primary && (secondary == null ==> pending == multiset{})
    }

    /** The replication state; without a secondary nothing is ever spawned for the empty one. */
    ghost function Abstract(): ManagerState
      reads this, primary, secondary
    {
      Replication.State(primary.db, if secondary == null then map[] else secondary.db, pending, alive)
    }

    /** The event that a write call is, once the primary has answered. */
    ghost function WriteEvent(call: Call, answer: Answer): ManagerEvent
      requires secondary != null
    {
      Replication.Write(OpFor(primary.kind, call), OpFor(secondary.kind, call), answer)
    }

    constructor (primary: Store, secondary: Store?)
      requires secondary != primary
      ensures Valid() && this.primary == primary && this.secondary == secondary
      ensures pending == multiset{} && alive
    {
      this.primary, this.secondary := primary, secondary;
      pending, alive := multiset{}, true;
    }

    /** What follows the primary's answer in every write: spawn the copy, unless the call panicked. */
    method Spawn(call: Call, answer: Answer)
      requires Valid()
      modifies this
      ensures Valid() && alive == old(alive)
      ensures pending == if secondary == null || answer.Panicked? then old(pending)
                         else old(pending) + multiset{OpFor(secondary.kind, call)}
    {
      if secondary != null && !answer.Panicked? {
        pending := pending + multiset{OpFor(secondary.kind, call)};
      }
    }

    method Create(obj: Fields, remote: Answer) returns (answer: Answer)
      requires Valid() && alive
      modifies this, primary
      ensures answer == Heard(primary.kind, OpFor(primary.kind, Call.Create(obj)), remote)
      ensures Valid() && primary.answers == old(primary.answers) + [answer]
      ensures secondary != null ==> Abstract() == Step(old(Abstract()), WriteEvent(Call.Create(obj), answer))
      ensures primary.db == After(old(primary.db), OpFor(primary.kind, Call.Create(obj)), answer)
      ensures OpFor(primary.kind, Call.Create(obj)).Reject? ==> answer == Refused
      ensures secondary == null ==> pending == multiset{} && alive
    {
      answer := primary.Create(obj, remote);
      Spawn(Call.Create(obj), answer);
    }

    method Update(oldObj: Fields, newObj: Fields, remote: Answer) returns (answer: Answer)
      requires Valid() && alive
      modifies this, primary
      ensures answer == Heard(primary.kind, OpFor(primary.kind, Call.Update(oldObj, newObj)), remote)
      ensures Valid() && primary.answers == old(primary.answers) + [answer]
      ensures secondary != null ==> Abstract() == Step(old(Abstract()), WriteEvent(Call.Update(oldObj, newObj), answer))
      ensures primary.db == After(old(primary.db), OpFor(primary.kind, Call.Update(oldObj, newObj)), answer)
      ensures OpFor(primary.kind, Call.Update(oldObj, newObj)).Reject? ==> answer == Refused
      ensures secondary == null ==> pending == multiset{} && alive
    {
      answer := primary.Update(oldObj, newObj, remote);
      Spawn(Call.Update(oldObj, newObj), answer);
    }

    method Delete(obj: Fields, remote: Answer) returns (answer: Answer)
      requires Valid() && alive
      modifies this, primary
      ensures answer == Heard(primary.kind, OpFor(primary.kind, Call.Delete(obj)), remote)
      ensures Valid() && primary.answers == old(primary.answers) + [answer]
      ensures secondary != null ==> Abstract() == Step(old(Abstract()), WriteEvent(Call.Delete(obj), answer))
      ensures primary.db == After(old(primary.db), OpFor(primary.kind, Call.Delete(obj)), answer)
      ensures OpFor(primary.kind, Call.Delete(obj)).Reject? ==> answer == Refused
      ensures secondary == null ==> pending == multiset{} && alive
    {
      answer := primary.Delete(obj, remote);
      Spawn(Call.Delete(obj), answer);
    }

    /** One goroutine runs to its end. */
    method FinishOne(op: StoreOp, remote: Answer) returns (answer: Answer)
      requires Valid() && alive && op in pending
      modifies this, secondary
      ensures answer == Heard(secondary.kind, op, remote)
      ensures Valid() && primary.db == old(primary.db)
      ensures Enabled(old(Abstract()), Replication.Drain(op, answer))
      ensures Abstract() == Step(old(Abstract()), Replication.Drain(op, answer))
    {
      answer := secondary.Perform(op, remote);
      pending := pending - multiset{op};
      alive := !answer.Panicked?;
    }

    method Read(dataset: string, id: string, reachable: bool) returns (result: ReadResult)
      ensures result.ReadError? <==> !reachable
      ensures !result.ReadError? ==>
                result == if Key(dataset, id) in primary.db
                          then Hit(Shown(primary.kind, Key(dataset, id), primary.db[Key(dataset, id)])) else NotFound
    {
      result := primary.Read(dataset, id, reachable);
    }

    method List(dataset: string, reachable: bool, unreadable: set<string>)
      returns (docs: Option<seq<Fields>>, ghost ids: seq<string>)
      ensures docs.Some? <==> reachable
      ensures docs.Some? ==>
                && Lists(primary.kind, primary.db, dataset, ids, docs.value)
                && ListsAllBut(unreadable, primary.kind, primary.db, dataset, ids)
    {
      docs, ids := primary.List(dataset, reachable, unreadable);
    }
  }

  /** The run that a history of calls and goroutine endings is, for a primary and secondary of given kinds. */
  datatype Happening = Called(call: Call, answer: Answer) | Ended(op: StoreOp, answer: Answer)

  ghost function EventOf(primary: StoreKind, secondary: StoreKind, h: Happening): ManagerEvent {
    match h
    case Called(call, answer) => Replication.Write(OpFor(primary, call), OpFor(secondary, call), answer)
    case Ended(op, answer) => Replication.Drain(op, answer)
  }

  ghost function EventsOf(primary: StoreKind, secondary: StoreKind, hs: seq<Happening>): seq<ManagerEvent> {
    seq(|hs|, i requires 0 <= i < |hs| => EventOf(primary, secondary, hs[i]))
  }

  /** The object decides the same key in MongoDB and Hazelcast, and brings no `_id` along. */
  predicate NamedById(resources: seq<Resource>, obj: Fields) {
    MongoId(resources, obj) == Some(Name(obj)) && "_id" !in obj
  }

  ghost predicate CallNamedById(resources: seq<Resource>, call: Call) {
    match call
    case Create(obj) => NamedById(resources, obj)
    case Update(oldObj, newObj) => NamedById(resources, oldObj) && Name(oldObj) == Name(newObj) && "_id" !in newObj
    case Delete(obj) => NamedById(resources, obj)
  }

  function PrimaryKind(resources: seq<Resource>, mongoFirst: bool): StoreKind {
    if mongoFirst then Mongo(resources) else Hazelcast
  }

  /**
   Convergence of a MongoDB and a Hazelcast store, either of them primary: objects named by their
   document id, no failing call, and no two writes to one key under way together.
   */
  lemma MongoAndHazelcastConverge(resources: seq<Resource>, mongoFirst: bool, start: Database, hs: seq<Happening>)
    requires var s := Replication.State(start, start, multiset{}, true);
             var q := PrimaryKind(resources, !mongoFirst);
             var es := EventsOf(PrimaryKind(resources, mongoFirst), q, hs);
             && Legal(s, es)
             && (forall h :: h in hs ==> h.answer.Applied() && (h.Called? ==> CallNamedById(resources, h.call)))
             && (forall n :: 0 <= n < |hs| && hs[n].Called? ==>
                   forall o :: o in Exec(s, es[..n]).pending ==> !o.On(HazelcastOp(hs[n].call).key))
    ensures var s := Replication.State(start, start, multiset{}, true);
            var es := EventsOf(PrimaryKind(resources, mongoFirst), PrimaryKind(resources, !mongoFirst), hs);
            && EveryScheduleConverges(Exec(s, es))
            && (Exec(s, es).pending == multiset{} ==> Exec(s, es).secondary == Exec(s, es).primary)
  {
    var s := Replication.State(start, start, multiset{}, true);
    var es := EventsOf(PrimaryKind(resources, mongoFirst), PrimaryKind(resources, !mongoFirst), hs);
    forall n | 0 <= n < |es|
      ensures SameMeaning(es[n]) && es[n].answer.Applied()
      ensures es[n].Write? ==> es[n].onSecondary == HazelcastOp(hs[n].call)
    {
      assert hs[n] in hs;
      if hs[n].Called? {
        SameOperationIff(resources, hs[n].call);
      }
    }
    SecondaryConverges(s, es);
  }

  // ----- Stores that key by different ids, as under the default document id ----------------------

  /**
   The object has a document id, `f` takes its MongoDB key to the key under which Hazelcast holds
   `written`, and `written` brings no `_id` along.
   */
  ghost predicate FiledBy(f: map<Key, Key>, resources: seq<Resource>, obj: Fields, written: Fields) {
    && MongoId(resources, obj).Some? && "_id" !in written
    && var key := Key(GroupVersionId(obj), MongoId(resources, obj).value);
       key in f && f[key] == Key(GroupVersionId(obj), Name(written))
  }

  ghost predicate CallFiledBy(f: map<Key, Key>, resources: seq<Resource>, call: Call) {
    match call
    case Create(obj) => FiledBy(f, resources, obj, obj)
    case Update(oldObj, newObj) => FiledBy(f, resources, oldObj, newObj)
    case Delete(obj) => FiledBy(f, resources, obj, obj - {"_id"})
  }

  /** Such a call is one operation on both stores, up to the renaming of its key. */
  lemma FiledCallIsRenamed(f: map<Key, Key>, resources: seq<Resource>, call: Call)
    requires CallFiledBy(f, resources, call)
    ensures Covered(f, MongoOp(resources, call)) && HazelcastOp(call) == RenameOp(f, MongoOp(resources, call))
  {
    match call
    case Create(obj) => assert WithoutId(obj) == obj;
    case Update(_, newObj) => assert WithoutId(newObj) == newObj;
    case Delete(obj) => NameWithoutId(obj);
  }

  lemma NameWithoutId(obj: Fields)
    ensures Name(obj - {"_id"}) == Name(obj)
  {
    assert ["metadata", "name"][1..] == ["name"];
  }

  ghost function Inverse(f: map<Key, Key>): (inverse: map<Key, Key>)
    requires Injective(f)
    ensures Injective(inverse)
  {
    map key | key in f :: f[key] := key
  }

  lemma InverseRenames(f: map<Key, Key>, op: StoreOp)
    requires Injective(f) && Covered(f, op)
    ensures Covered(Inverse(f), RenameOp(f, op))
    ensures RenameOp(Inverse(f), RenameOp(f, op)) == op
  {
  }

  /** From the keys of the primary to those of the secondary, when `f` goes from MongoDB's to Hazelcast's. */
  ghost function PrimaryToSecondary(f: map<Key, Key>, mongoFirst: bool): (g: map<Key, Key>)
    requires Injective(f)
    ensures Injective(g)
  {
    if mongoFirst then f else Inverse(f)
  }

  /**
   Convergence of a MongoDB and a Hazelcast store, either of them primary, whatever the document id is:
   when objects have one name per document id and the other way round, no call fails and no two writes
   to one key are under way together, the secondary ends as the primary under the other store's keys.
   */
  lemma FiledStoresConverge(f: map<Key, Key>, resources: seq<Resource>, mongoFirst: bool, start: Database,
                            hs: seq<Happening>)
    requires Injective(f) && start.Keys <= PrimaryToSecondary(f, mongoFirst).Keys
    requires var s := Replication.State(start, Renamed(PrimaryToSecondary(f, mongoFirst), start), multiset{}, true);
             var q := PrimaryKind(resources, !mongoFirst);
             var es := EventsOf(PrimaryKind(resources, mongoFirst), q, hs);
             && Legal(s, es)
             && (forall h :: h in hs ==> h.answer.Applied() && (h.Called? ==> CallFiledBy(f, resources, h.call)))
             && (forall n :: 0 <= n < |hs| && hs[n].Called? && !OpFor(q, hs[n].call).Reject? ==>
                   forall o :: o in Exec(s, es[..n]).pending ==> !o.On(OpFor(q, hs[n].call).key))
    ensures var g := PrimaryToSecondary(f, mongoFirst);
            var s := Replication.State(start, Renamed(g, start), multiset{}, true);
            var end := Exec(s, EventsOf(PrimaryKind(resources, mongoFirst), PrimaryKind(resources, !mongoFirst), hs));
            && ConvergesRenamed(g, end)
            && (end.pending == multiset{} ==> end.secondary == Renamed(g, end.primary))
  {
    var g := PrimaryToSecondary(f, mongoFirst);
    var s := Replication.State(start, Renamed(g, start), multiset{}, true);
    var es := EventsOf(PrimaryKind(resources, mongoFirst), PrimaryKind(resources, !mongoFirst), hs);
    forall n | 0 <= n < |es|
      ensures RenamedMeaning(g, es[n]) && es[n].answer.Applied()
    {
      assert hs[n] in hs;
      if hs[n].Called? {
        FiledCallIsRenamed(f, resources, hs[n].call);
        InverseRenames(f, MongoOp(resources, hs[n].call));
      }
    }
    RenamedConverges(g, s, es);
  }
}
