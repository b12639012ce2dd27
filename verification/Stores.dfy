/**
 The Hazelcast and MongoDB stores: which remote operation each call becomes
 (internal/store/hazelcast.go, internal/store/mongo.go), and the state it acts on.

 A MongoDB document always carries its collection key as `_id`. The database below keeps the
 rest of the document under that key, and reads and listings show the `_id` again.
 */
module Stores {
  import opened Wrappers
  import opened Json
  import opened Config
  import opened Replication

  datatype Key = Key(dataset: string, id: string)

  type Database = map<Key, Fields>

  type StoreOp = Op<Key, Fields>

  datatype StoreKind = Hazelcast | Mongo(resources: seq<Resource>)

  datatype Call =
    | Create(obj: Fields)
    | Update(oldObj: Fields, newObj: Fields)
    | Delete(obj: Fields)

  // ----- Calls as remote operations ------------------------------------------

  /** Hazelcast keys by name; an update writes the new object into the map of the old one. */
  function HazelcastOp(call: Call): StoreOp {
    match call
    case Create(obj) => Put(Key(GroupVersionId(obj), Name(obj)), obj)
    case Update(oldObj, newObj) => Put(Key(GroupVersionId(oldObj), Name(newObj)), newObj)
    case Delete(obj) => Remove(Key(GroupVersionId(obj), Name(obj)))
  }

  function WithoutId(doc: Fields): Fields {
    doc - {"_id"}
  }

  /** A replacement may not change the `_id` of the document it replaces. */
  function Replace(key: Key, doc: Fields): StoreOp {
    if "_id" in doc && doc["_id"] != Str(key.id) then Reject else Put(key, WithoutId(doc))
  }

  /** MongoDB keys by the document id of the object (of the old one in an update). */
  function MongoOp(resources: seq<Resource>, call: Call): StoreOp {
    var obj := if call.Update? then call.oldObj else call.obj;
    match MongoId(resources, obj)
    case None => Reject
    case Some(id) =>
      var key := Key(GroupVersionId(obj), id);
      match call
      case Create(_) => Replace(key, obj)
      case Update(_, newObj) => Replace(key, newObj)
      case Delete(_) => Remove(key)
  }

  function OpFor(kind: StoreKind, call: Call): StoreOp {
    match kind
    case Hazelcast => HazelcastOp(call)
    case Mongo(resources) => MongoOp(resources, call)
  }

  // ----- Datasets --------------------------------------------------------------

  function IdsOf(db: Database, dataset: string): set<string> {
    set key | key in db && key.dataset == dataset :: key.id
  }

  /** A stored document as the store hands it out. */
  function Shown(kind: StoreKind, key: Key, doc: Fields): Fields {
    if kind.Mongo? then doc["_id" := Str(key.id)] else doc
  }

  ghost predicate Distinct<T>(xs: seq<T>) {
    forall i, j :: 0 <= i < j < |xs| ==> xs[i] != xs[j]
  }

  /** `ids` names the entries of a dataset, each once. */
  ghost predicate Enumerates(db: Database, dataset: string, ids: seq<string>) {
    Distinct(ids) && (forall id :: id in ids <==> Key(dataset, id) in db)
  }

  /** A listing of a dataset. MongoDB's is complete; Hazelcast's leaves out entries it could not read. */
  ghost predicate Lists(kind: StoreKind, db: Database, dataset: string, ids: seq<string>, docs: seq<Fields>) {
    && Distinct(ids) && |docs| == |ids|
    && (forall id :: id in ids ==> Key(dataset, id) in db)
    && (kind.Mongo? ==> Enumerates(db, dataset, ids))
    && forall i :: 0 <= i < |ids| ==> docs[i] == Shown(kind, Key(dataset, ids[i]), db[Key(dataset, ids[i])])
  }

  /** A listing has all entries but those that could not be read; MongoDB reads a listing as a whole. */
  ghost predicate ListsAllBut(unreadable: set<string>, kind: StoreKind, db: Database, dataset: string,
                              ids: seq<string>)
  {
    forall id :: id in ids <==> Key(dataset, id) in db && (kind.Mongo? || id !in unreadable)
  }

  /** What a caller hears of a write, given what the remote side does to it. Only Hazelcast maps can panic. */
  function Heard(kind: StoreKind, op: StoreOp, remote: Answer): Answer {
    match remote
    case Panicked => if op.Reject? || kind.Mongo? then Refused else Panicked
    case other => if op.Reject? then Refused else other
  }

  datatype ReadResult = Hit(doc: Fields) | NotFound | ReadError

  /** A store client together with the remote data it works on. */
  class Store {
    const kind: StoreKind
    var db: Database
    ghost var answers: seq<Answer>  // what the remote side answered to the writes so far

    constructor (kind: StoreKind, db: Database)
      ensures this.kind == kind && this.db == db && answers == []
    {
      this.kind, this.db, this.answers := kind, db, [];
    }

    /** One remote call. What the remote side does to it is an input; only Hazelcast maps can panic. */
    method Perform(op: StoreOp, remote: Answer) returns (answer: Answer)
      modifies this
      ensures answer == Heard(kind, op, remote) && answers == old(answers) + [answer]
      ensures db == After(old(db), op, answer)
      ensures answer == Done || answer == Uncertain ==> db == Apply(old(db), op)
      ensures answer == Refused || answer == Panicked ==> db == old(db)
      ensures op.Reject? ==> answer == Refused
      ensures kind.Mongo? ==> !answer.Panicked?
    {
      answer := remote;
      if op.Reject? || (kind.Mongo? && answer.Panicked?) {
        answer := Refused;
      }
      db := After(db, op, answer);
      answers := answers + [answer];
    }

    method Create(obj: Fields, remote: Answer) returns (answer: Answer)
      modifies this
      ensures answer == Heard(kind, OpFor(kind, Call.Create(obj)), remote)
      ensures answers == old(answers) + [answer]
      ensures db == After(old(db), OpFor(kind, Call.Create(obj)), answer)
      ensures OpFor(kind, Call.Create(obj)).Reject? ==> answer == Refused
      ensures kind.Mongo? ==> !answer.Panicked?
    {
      answer := Perform(OpFor(kind, Call.Create(obj)), remote);
    }

    method Update(oldObj: Fields, newObj: Fields, remote: Answer) returns (answer: Answer)
      modifies this
      ensures answer == Heard(kind, OpFor(kind, Call.Update(oldObj, newObj)), remote)
      ensures answers == old(answers) + [answer]
      ensures db == After(old(db), OpFor(kind, Call.Update(oldObj, newObj)), answer)
      ensures OpFor(kind, Call.Update(oldObj, newObj)).Reject? ==> answer == Refused
      ensures kind.Mongo? ==> !answer.Panicked?
    {
      answer := Perform(OpFor(kind, Call.Update(oldObj, newObj)), remote);
    }

    method Delete(obj: Fields, remote: Answer) returns (answer: Answer)
      modifies this
      ensures answer == Heard(kind, OpFor(kind, Call.Delete(obj)), remote)
      ensures answers == old(answers) + [answer]
      ensures db == After(old(db), OpFor(kind, Call.Delete(obj)), answer)
      ensures OpFor(kind, Call.Delete(obj)).Reject? ==> answer == Refused
      ensures kind.Mongo? ==> !answer.Panicked?
    {
      answer := Perform(OpFor(kind, Call.Delete(obj)), remote);
    }

    method Count(dataset: string, reachable: bool) returns (count: Option<nat>)
      ensures count.Some? <==> reachable
      ensures count.Some? ==> count.value == |IdsOf(db, dataset)|
    {
      count := if reachable then Some(|IdsOf(db, dataset)|) else None;
    }

    /** The keys of a dataset in the order the remote side chooses. */
    method Keys(dataset: string, reachable: bool) returns (keys: Option<seq<string>>)
      ensures keys.Some? <==> reachable
      ensures keys.Some? ==> Enumerates(db, dataset, keys.value)
    {
      if !reachable {
        return None;
      }
      var left := IdsOf(db, dataset);
      var found: seq<string> := [];
      while left != {}
        invariant Distinct(found)
        invariant left <= IdsOf(db, dataset)
        invariant forall id :: id in found <==> id in IdsOf(db, dataset) - left
        decreases left
      {
        var id :| id in left;
        assert id !in found;
        found, left := found + [id], left - {id};
      }
      return Some(found);
    }

    method Read(dataset: string, id: string, reachable: bool) returns (result: ReadResult)
      ensures result.ReadError? <==> !reachable
      ensures !result.ReadError? ==>
                var key := Key(dataset, id);
                result == if key in db then Hit(Shown(kind, key, db[key])) else NotFound
    {
      if !reachable {
        return ReadError;
      }
      var key := Key(dataset, id);
      return if key in db then Hit(Shown(kind, key, db[key])) else NotFound;
    }

    /**
     An unfiltered, unlimited listing, as the reconciliation asks for. Hazelcast reads its keys one by
     one and leaves out those that it cannot read.
     */
    method List(dataset: string, reachable: bool, unreadable: set<string>)
      returns (docs: Option<seq<Fields>>, ghost ids: seq<string>)
      ensures docs.Some? <==> reachable
      ensures docs.Some? ==> Lists(kind, db, dataset, ids, docs.value)
      ensures docs.Some? ==> ListsAllBut(unreadable, kind, db, dataset, ids)
    {
      ids := [];
      var keys := Keys(dataset, reachable);
      if keys.None? {
        return None, [];
      }
      var found: seq<Fields> := [];
      for i := 0 to |keys.value|
        invariant |found| == |ids| && Distinct(ids)
        invariant forall id :: id in ids <==> id in keys.value[..i] && (kind.Mongo? || id !in unreadable)
        invariant forall j :: 0 <= j < |ids| ==> ids[j] in ids
        invariant kind.Mongo? ==> ids == keys.value[..i]
        invariant forall j :: 0 <= j < |ids| ==>
                    Key(dataset, ids[j]) in db
                    && found[j] == Shown(kind, Key(dataset, ids[j]), db[Key(dataset, ids[j])])
      {
        var id := keys.value[i];
        assert id in keys.value && id !in keys.value[..i];
        assert keys.value[..i + 1] == keys.value[..i] + [id];
        if kind.Mongo? || id !in unreadable {
          found := found + [Shown(kind, Key(dataset, id), db[Key(dataset, id)])];
          ids := ids + [id];
        }
      }
      assert keys.value[..|keys.value|] == keys.value;
      docs := Some(found);
    }
  }

  // ----- What the calls are, for all objects ------------------------------------------

  /** Hazelcast files by dataset and name; an update stays in the dataset of the old object. */
  lemma HazelcastOpIs(obj: Fields, newObj: Fields)
    ensures var name := StringAt(Metadata(obj), "name");
            && HazelcastOp(Create(obj)) == Put(Key(GroupVersionId(obj), name), obj)
            && HazelcastOp(Delete(obj)) == Remove(Key(GroupVersionId(obj), name))
    ensures HazelcastOp(Update(obj, newObj)) ==
            Put(Key(GroupVersionId(obj), StringAt(Metadata(newObj), "name")), newObj)
  {
    AccessorsRead(obj);
    AccessorsRead(newObj);
  }

  /**
   MongoDB files by dataset and document id, without `_id`; it refuses an object without document id,
   and one that brings another `_id` than that of the document it replaces.
   */
  lemma MongoOpIs(resources: seq<Resource>, obj: Fields, newObj: Fields)
    ensures MongoId(resources, obj) == None ==>
              && MongoOp(resources, Create(obj)) == Reject
              && MongoOp(resources, Update(obj, newObj)) == Reject
              && MongoOp(resources, Delete(obj)) == Reject
    ensures MongoId(resources, obj).Some? ==>
              var id := MongoId(resources, obj).value;
              && MongoOp(resources, Create(obj)) == ReplacedBy(Key(GroupVersionId(obj), id), obj)
              && MongoOp(resources, Update(obj, newObj)) == ReplacedBy(Key(GroupVersionId(obj), id), newObj)
              && MongoOp(resources, Delete(obj)) == Remove(Key(GroupVersionId(obj), id))
  {
    assert "_id" !in obj ==> WithoutId(obj) == obj;
    assert "_id" !in newObj ==> WithoutId(newObj) == newObj;
  }

  function ReplacedBy(key: Key, doc: Fields): StoreOp {
    if "_id" !in doc then Put(key, doc) else if doc["_id"] == Str(key.id) then Put(key, doc - {"_id"}) else Reject
  }

  // ----- When both stores mean the same ----------------------------------------

  /**
   A call is the same operation on either store exactly when the document id is the name
   under which Hazelcast keys it, and the written object carries no `_id` of its own.
   */
  lemma SameOperationIff(resources: seq<Resource>, call: Call)
    ensures MongoOp(resources, call) == HazelcastOp(call) <==>
            match call
            case Create(obj) => MongoId(resources, obj) == Some(Name(obj)) && "_id" !in obj
            case Update(oldObj, newObj) => MongoId(resources, oldObj) == Some(Name(newObj)) && "_id" !in newObj
            case Delete(obj) => MongoId(resources, obj) == Some(Name(obj))
  {
    if call.Create? && "_id" !in call.obj {
      assert WithoutId(call.obj) == call.obj;
    }
    if call.Update? && "_id" !in call.newObj {
      assert WithoutId(call.newObj) == call.newObj;
    }
  }
}
