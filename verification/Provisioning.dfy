/**
 The provisioning API of internal/provisioning: what PUT, GET and DELETE accept, and what a client
 reads back. Writes choose dataset and document from the body, reads from the URL.
 */
module Provisioning {
  import opened Wrappers
  import opened Strings
  import opened Json
  import opened Config
  import opened Replication
  import opened Stores
  import opened StoreManager

  /** The URL parameters and the body; `None` is a body that is no Kubernetes object. */
  datatype Request = Request(gvr: GroupVersionResource, id: string, body: Option<Fields>)

  datatype Check<T> = Accepted(value: T) | Rejected(status: nat)

  const OK := 200
  const NO_CONTENT := 204
  const BAD_REQUEST := 400
  const NOT_FOUND := 404
  const SERVER_ERROR := 500

  // ----- Validation -----------------------------------------------------------------

  predicate Complete(gvr: GroupVersionResource) {
    gvr.version != "" && gvr.resource != "" && gvr.group != ""
  }

  function ValidateResourceId(id: string, obj: Fields): Check<()> {
    if id != Name(obj) then Rejected(BAD_REQUEST) else Accepted(())
  }

  function ValidateApiVersion(gvr: GroupVersionResource, obj: Fields): Check<()> {
    if ApiVersion(obj) != GroupVersionString(gvr.group, gvr.version) then Rejected(BAD_REQUEST) else Accepted(())
  }

  function ValidateKind(resources: seq<Resource>, gvr: GroupVersionResource, obj: Fields): Check<()> {
    match ResourceForGvr(resources, gvr)
    case Some(r) => if Kind(obj) == r.kind then Accepted(()) else Rejected(BAD_REQUEST)
    case None => Rejected(BAD_REQUEST)
  }

  /** The middleware of a read, then the handler's own checks. */
  function AcceptRead(resources: seq<Resource>, request: Request): Check<()> {
    if ResourceForGvr(resources, request.gvr).None? || request.id == "" then Rejected(BAD_REQUEST)
    else if !Complete(request.gvr) then Rejected(SERVER_ERROR)
    else Accepted(())
  }

  /** The middleware of a write (which defaults the environment), then the handler's own checks. */
  function AcceptWrite(resources: seq<Resource>, request: Request): Check<Fields> {
    if ResourceForGvr(resources, request.gvr).None? || request.id == "" || request.body.None? then Rejected(BAD_REQUEST)
    else if !Complete(request.gvr) then Rejected(SERVER_ERROR)
    else
      var obj := WithEnvironment(request.body.value);
      if ValidateResourceId(request.id, obj).Rejected? then Rejected(ValidateResourceId(request.id, obj).status)
      else if ValidateApiVersion(request.gvr, obj).Rejected? then Rejected(ValidateApiVersion(request.gvr, obj).status)
      else if ValidateKind(resources, request.gvr, obj).Rejected?
      then Rejected(ValidateKind(resources, request.gvr, obj).status)
      else Accepted(obj)
  }

  // ----- What the service accepts, and with which status it refuses ---------------------

  ghost predicate Configured(resources: seq<Resource>, gvr: GroupVersionResource) {
    exists r :: r in resources && r.group == gvr.group && r.version == gvr.version && r.resource == gvr.resource
  }

  lemma FoundIffConfigured(resources: seq<Resource>, gvr: GroupVersionResource)
    ensures ResourceForGvr(resources, gvr).Some? <==> Configured(resources, gvr)
  {
    FirstIsFirst(resources, (r: Resource) => GroupVersionResource(r.group, r.version, r.resource) == gvr);
    if Configured(resources, gvr) {
      var r :| r in resources && r.group == gvr.group && r.version == gvr.version && r.resource == gvr.resource;
      var i :| 0 <= i < |resources| && resources[i] == r;
      FirstAtMost(resources, (r: Resource) => GroupVersionResource(r.group, r.version, r.resource) == gvr, i);
    }
  }

  /** The three comparisons of body and URL, each refusing with 400; nothing is stored for an unknown URL. */
  lemma ValidationsAre(resources: seq<Resource>, gvr: GroupVersionResource, id: string, obj: Fields)
    ensures ValidateResourceId(id, obj) == if StringAt(Metadata(obj), "name") == id then Accepted(()) else Rejected(400)
    ensures gvr.group != "" ==>
              ValidateApiVersion(gvr, obj) ==
              if StringAt(obj, "apiVersion") == gvr.group + "/" + gvr.version then Accepted(()) else Rejected(400)
    ensures gvr.group == "" ==>
              ValidateApiVersion(gvr, obj) ==
              if StringAt(obj, "apiVersion") == gvr.version then Accepted(()) else Rejected(400)
    ensures !Configured(resources, gvr) ==>
              ValidateKind(resources, gvr, obj) == Rejected(400) && DataSetForGvr(resources, gvr) == ""
  {
    AccessorsRead(obj);
    FoundIffConfigured(resources, gvr);
  }

  /** Which reads are accepted, and the statuses of the others. */
  lemma AcceptReadIff(resources: seq<Resource>, request: Request)
    ensures AcceptRead(resources, request).Accepted? <==>
            && request.id != "" && Configured(resources, request.gvr)
            && request.gvr.group != "" && request.gvr.version != "" && request.gvr.resource != ""
    ensures AcceptRead(resources, request) == Rejected(400) <==>
            request.id == "" || !Configured(resources, request.gvr)
    ensures AcceptRead(resources, request) == Rejected(500) <==>
            && request.id != "" && Configured(resources, request.gvr)
            && (request.gvr.group == "" || request.gvr.version == "" || request.gvr.resource == "")
  {
    FoundIffConfigured(resources, request.gvr);
  }

  /** The object carries the name of the URL, its group and version, and the kind configured for it first. */
  ghost predicate FitsUrl(resources: seq<Resource>, request: Request, obj: Fields) {
    && StringAt(Metadata(obj), "name") == request.id
    && StringAt(obj, "apiVersion") == request.gvr.group + "/" + request.gvr.version
    && exists i :: 0 <= i < |resources| && FirstFor(resources, request.gvr, i)
                   && resources[i].kind == StringAt(obj, "kind")
  }

  ghost predicate FirstFor(resources: seq<Resource>, gvr: GroupVersionResource, i: nat)
    requires i < |resources|
  {
    && GroupVersionResource(resources[i].group, resources[i].version, resources[i].resource) == gvr
    && forall j :: 0 <= j < i ==>
         GroupVersionResource(resources[j].group, resources[j].version, resources[j].resource) != gvr
  }

  lemma FirstForIsFound(resources: seq<Resource>, gvr: GroupVersionResource, i: nat)
    requires i < |resources| && FirstFor(resources, gvr, i)
    ensures ResourceForGvr(resources, gvr) == Some(resources[i])
  {
    FirstAt(resources, (r: Resource) => GroupVersionResource(r.group, r.version, r.resource) == gvr, i);
  }

  lemma FoundIsFirstFor(resources: seq<Resource>, gvr: GroupVersionResource) returns (i: nat)
    requires ResourceForGvr(resources, gvr).Some?
    ensures i < |resources| && FirstFor(resources, gvr, i) && ResourceForGvr(resources, gvr) == Some(resources[i])
  {
    FirstIsFirst(resources, (r: Resource) => GroupVersionResource(r.group, r.version, r.resource) == gvr);
    var r := ResourceForGvr(resources, gvr).value;
    i :| 0 <= i < |resources| && resources[i] == r && FirstFor(resources, gvr, i);
  }

  lemma KindFits(resources: seq<Resource>, gvr: GroupVersionResource, kind: string)
    requires ResourceForGvr(resources, gvr).Some?
    ensures ResourceForGvr(resources, gvr).value.kind == kind <==>
            exists i :: 0 <= i < |resources| && FirstFor(resources, gvr, i) && resources[i].kind == kind
  {
    var k := FoundIsFirstFor(resources, gvr);
    forall i | 0 <= i < |resources| && FirstFor(resources, gvr, i)
      ensures ResourceForGvr(resources, gvr) == Some(resources[i])
    {
      FirstForIsFound(resources, gvr, i);
    }
  }

  /** Which writes are accepted, with which object, and the statuses of the others. */
  lemma AcceptWriteIff(resources: seq<Resource>, request: Request)
    ensures AcceptWrite(resources, request).Accepted? <==>
            && request.id != "" && request.body.Some? && Configured(resources, request.gvr)
            && request.gvr.group != "" && request.gvr.version != "" && request.gvr.resource != ""
            && FitsUrl(resources, request, WithEnvironment(request.body.value))
    ensures AcceptWrite(resources, request).Accepted? ==>
              AcceptWrite(resources, request).value == WithEnvironment(request.body.value)
    ensures AcceptWrite(resources, request) == Rejected(500) <==>
            && request.id != "" && request.body.Some? && Configured(resources, request.gvr)
            && (request.gvr.group == "" || request.gvr.version == "" || request.gvr.resource == "")
    ensures AcceptWrite(resources, request).Rejected? ==> AcceptWrite(resources, request).status in {400, 500}
  {
    FoundIffConfigured(resources, request.gvr);
    if request.body.Some? && Configured(resources, request.gvr) {
      var obj := WithEnvironment(request.body.value);
      AccessorsRead(obj);
      KindFits(resources, request.gvr, Kind(obj));
    }
  }

  function DataSetForGvr(resources: seq<Resource>, gvr: GroupVersionResource): string {
    match ResourceForGvr(resources, gvr)
    case Some(r) => GroupVersionName(r)
    case None => ""
  }

  /** The entry that a read of this URL asks for. */
  function AddressOf(resources: seq<Resource>, request: Request): Key {
    Key(DataSetForGvr(resources, request.gvr), request.id)
  }

  /** The store's configuration is the service's own; only MongoDB consults it. */
  predicate ConfiguredBy(kind: StoreKind, resources: seq<Resource>) {
    kind.Mongo? ==> kind.resources == resources
  }

  /** The status of a write; a panic of the store leaves the request without one. */
  function Response(answer: Answer, success: nat): Option<nat> {
    if answer.Panicked? then None else Some(if answer.Done? then success else SERVER_ERROR)
  }

  // ----- Handlers ---------------------------------------------------------------------

  class ProvisioningService {
    const resources: seq<Resource>
    const store: DualStoreManager

    constructor (resources: seq<Resource>, store: DualStoreManager)
      ensures this.resources == resources && this.store == store
    {
      this.resources, this.store := resources, store;
    }

    ghost predicate Ready()
      reads store
    {
      store.Valid() && store.alive && ConfiguredBy(store.primary.kind, resources)
    }

    method PutResource(request: Request, remote: Answer) returns (status: Option<nat>, ghost answer: Answer)
      requires Ready()
      modifies store, store.primary
      ensures store.Valid()
      ensures match AcceptWrite(resources, request)
              case Rejected(code) => status == Some(code) && store.Abstract() == old(store.Abstract())
              case Accepted(obj) =>
                && status == Response(answer, OK)
                && answer == Heard(store.primary.kind, OpFor(store.primary.kind, Create(obj)), remote)
                && store.primary.db == After(old(store.primary.db), OpFor(store.primary.kind, Create(obj)), answer)
                && (OpFor(store.primary.kind, Create(obj)).Reject? ==> status == Some(SERVER_ERROR))
                && (store.secondary != null ==>
                      store.Abstract() == Step(old(store.Abstract()), store.WriteEvent(Create(obj), answer)))
      ensures AcceptWrite(resources, request).Accepted? ==>
                && (status == Some(200) <==> answer == Done)
                && (status == Some(500) <==> answer == Refused || answer == Uncertain)
                && (status == None <==> answer == Panicked)
      ensures answer == Done && AcceptWrite(resources, request).Accepted? ==>
                store.primary.db ==
                Apply(old(store.primary.db), OpFor(store.primary.kind, Create(AcceptWrite(resources, request).value)))
    {
      answer := Refused;
      match AcceptWrite(resources, request) {
        case Rejected(code) => status := Some(code);
        case Accepted(obj) =>
          var outcome := store.Create(obj, remote);
          answer := outcome;
          status := Response(outcome, OK);
      }
    }

    method DeleteResource(request: Request, remote: Answer) returns (status: Option<nat>, ghost answer: Answer)
      requires Ready()
      modifies store, store.primary
      ensures store.Valid()
      ensures match AcceptWrite(resources, request)
              case Rejected(code) => status == Some(code) && store.Abstract() == old(store.Abstract())
              case Accepted(obj) =>
                && status == Response(answer, NO_CONTENT)
                && answer == Heard(store.primary.kind, OpFor(store.primary.kind, Delete(obj)), remote)
                && store.primary.db == After(old(store.primary.db), OpFor(store.primary.kind, Delete(obj)), answer)
                && (OpFor(store.primary.kind, Delete(obj)).Reject? ==> status == Some(SERVER_ERROR))
                && (store.secondary != null ==>
                      store.Abstract() == Step(old(store.Abstract()), store.WriteEvent(Delete(obj), answer)))
      ensures AcceptWrite(resources, request).Accepted? ==>
                && (status == Some(204) <==> answer == Done)
                && (status == Some(500) <==> answer == Refused || answer == Uncertain)
                && (status == None <==> answer == Panicked)
      ensures answer == Done && AcceptWrite(resources, request).Accepted? ==>
                store.primary.db ==
                Apply(old(store.primary.db), OpFor(store.primary.kind, Delete(AcceptWrite(resources, request).value)))
    {
      answer := Refused;
      match AcceptWrite(resources, request) {
        case Rejected(code) => status := Some(code);
        case Accepted(obj) =>
          var outcome := store.Delete(obj, remote);
          answer := outcome;
          status := Response(outcome, NO_CONTENT);
      }
    }

    method GetResource(request: Request, reachable: bool) returns (status: nat, body: Option<Fields>)
      requires Ready()
      ensures status == 200 <==> body.Some?
      ensures request.id == "" || !Configured(resources, request.gvr) ==> status == 400
      ensures AcceptRead(resources, request).Accepted? ==>
                && (status == 500 <==> !reachable)
                && (status == 200 <==> reachable && AddressOf(resources, request) in store.primary.db)
                && (status == 404 <==> reachable && AddressOf(resources, request) !in store.primary.db)
      ensures match AcceptRead(resources, request)
              case Rejected(code) => status == code
              case Accepted(_) =>
                status != 500 ==>
                  (status, body) == Answered(store.primary.kind, resources, store.primary.db, request)
    {
      AcceptReadIff(resources, request);
      body := None;
      match AcceptRead(resources, request) {
        case Rejected(code) => status := code;
        case Accepted(_) =>
          var result := store.Read(DataSetForGvr(resources, request.gvr), request.id, reachable);
          match result {
            case Hit(doc) => status, body := OK, Some(doc);
            case NotFound => status := NOT_FOUND;
            case ReadError => status := SERVER_ERROR;
          }
      }
    }
  }

  /** The response to an accepted GET when the primary can be read. */
  function Answered(kind: StoreKind, resources: seq<Resource>, db: Database, request: Request): (nat, Option<Fields>) {
    var key := AddressOf(resources, request);
    if key in db then (OK, Some(Shown(kind, key, db[key]))) else (NOT_FOUND, None)
  }

  // ----- Round trips --------------------------------------------------------------------

  /** The configured group and version can stand in an apiVersion. */
  predicate SlashFree(gvr: GroupVersionResource) {
    '/' !in gvr.group && '/' !in gvr.version
  }

  /** An accepted body is the object that the URL names. */
  lemma AcceptedIdentity(resources: seq<Resource>, request: Request)
    requires AcceptWrite(resources, request).Accepted? && SlashFree(request.gvr)
    ensures var obj := AcceptWrite(resources, request).value;
            && ResourceForGvr(resources, request.gvr).Some?
            && var r := ResourceForGvr(resources, request.gvr).value;
               && r.group == request.gvr.group && r.version == request.gvr.version && r.resource == request.gvr.resource
               && GvkOf(obj) == GroupVersionKind(r.group, r.version, r.kind)
               && Name(obj) == request.id
  {
    FirstIsFirst(resources, (r: Resource) => GroupVersionResource(r.group, r.version, r.resource) == request.gvr);
    ParseOfString(request.gvr.group, request.gvr.version);
  }

  /** Under which id a store files an object. */
  function DocumentId(kind: StoreKind, obj: Fields): Option<string> {
    match kind
    case Hazelcast => Some(Name(obj))
    case Mongo(resources) => MongoId(resources, obj)
  }

  /** The write and the read of this request address the same entry. */
  predicate SameEntry(kind: StoreKind, resources: seq<Resource>, request: Request, obj: Fields) {
    && ResourceForGvr(resources, request.gvr).Some?
    && var r := ResourceForGvr(resources, request.gvr).value;
       Lower(r.resource) == Lower(r.kind) + "s" && DocumentId(kind, obj) == Some(request.id)
  }

  lemma AddressIff(kind: StoreKind, resources: seq<Resource>, request: Request)
    requires AcceptWrite(resources, request).Accepted? && SlashFree(request.gvr)
    ensures var obj := AcceptWrite(resources, request).value;
            DocumentId(kind, obj).Some? ==>
              (Key(GroupVersionId(obj), DocumentId(kind, obj).value) == AddressOf(resources, request) <==>
                 SameEntry(kind, resources, request, obj))
  {
    AcceptedIdentity(resources, request);
    WrittenDatasetIsReadDataset(ResourceForGvr(resources, request.gvr).value, AcceptWrite(resources, request).value);
  }

  lemma CreatedAt(kind: StoreKind, obj: Fields)
    requires !OpFor(kind, Create(obj)).Reject?
    ensures DocumentId(kind, obj).Some?
    ensures OpFor(kind, Create(obj)) ==
            Put(Key(GroupVersionId(obj), DocumentId(kind, obj).value), if kind.Mongo? then WithoutId(obj) else obj)
  {
  }

  lemma AnsweredAfterPut(kind: StoreKind, resources: seq<Resource>, request: Request, db: Database, key: Key,
                         obj: Fields)
    ensures Answered(kind, resources, db[key := if kind.Mongo? then WithoutId(obj) else obj], request) ==
            if key == AddressOf(resources, request)
            then (200, Some(if kind.Mongo? then obj["_id" := Str(key.id)] else obj))
            else Answered(kind, resources, db, request)
  {
    hide DataSetForGvr;
    assert WithoutId(obj)["_id" := Str(key.id)] == obj["_id" := Str(key.id)];
  }

  /**
   PUT then GET: after an accepted PUT that succeeded, an immediate GET returns the normalised body
   (from MongoDB with its `_id`) exactly when the configured plural is the kind with an "s" and the
   document id is the name; otherwise it returns what it returned before.
   */
  lemma PutThenGet(kind: StoreKind, resources: seq<Resource>, request: Request, db: Database)
    requires AcceptWrite(resources, request).Accepted? && SlashFree(request.gvr)
    requires !OpFor(kind, Create(AcceptWrite(resources, request).value)).Reject?
    ensures var obj := AcceptWrite(resources, request).value;
            var after := Apply(db, OpFor(kind, Create(obj)));
            Answered(kind, resources, after, request) ==
            if SameEntry(kind, resources, request, obj)
            then (200, Some(if kind.Mongo? then obj["_id" := Str(request.id)] else obj))
            else Answered(kind, resources, db, request)
  {
    hide AcceptWrite, GroupVersionId, DataSetForGvr, SameEntry, DocumentId, OpFor, Answered;
    var obj := AcceptWrite(resources, request).value;
    AddressIff(kind, resources, request);
    CreatedAt(kind, obj);
    AnsweredAfterPut(kind, resources, request, db, Key(GroupVersionId(obj), DocumentId(kind, obj).value), obj);
  }

  /** DELETE then GET: gone exactly when the delete addressed the entry that the GET reads, or there was none. */
  lemma DeleteThenGet(kind: StoreKind, resources: seq<Resource>, request: Request, db: Database)
    requires AcceptWrite(resources, request).Accepted? && SlashFree(request.gvr)
    requires !OpFor(kind, Delete(AcceptWrite(resources, request).value)).Reject?
    ensures var obj := AcceptWrite(resources, request).value;
            var after := Apply(db, OpFor(kind, Delete(obj)));
            Answered(kind, resources, after, request) ==
            if SameEntry(kind, resources, request, obj) then (404, None)
            else Answered(kind, resources, db, request)
  {
    AddressIff(kind, resources, request);
  }

  predicate DistinctKinds(resources: seq<Resource>) {
    forall i, j :: 0 <= i < j < |resources| ==>
      GroupVersionKind(resources[i].group, resources[i].version, resources[i].kind) !=
      GroupVersionKind(resources[j].group, resources[j].version, resources[j].kind)
  }

  lemma SameConfiguration(resources: seq<Resource>, request: Request)
    requires AcceptWrite(resources, request).Accepted? && SlashFree(request.gvr) && DistinctKinds(resources)
    ensures var obj := AcceptWrite(resources, request).value;
            ResourceConfiguration(resources, obj) == ResourceForGvr(resources, request.gvr)
  {
    AcceptedIdentity(resources, request);
    var obj := AcceptWrite(resources, request).value;
    var gvk := GvkOf(obj);
    FirstIsFirst(resources, (r: Resource) => GroupVersionResource(r.group, r.version, r.resource) == request.gvr);
    FirstIsFirst(resources, (r: Resource) => GroupVersionKind(r.group, r.version, r.kind) == gvk);
    var r := ResourceForGvr(resources, request.gvr).value;
    assert r in resources;
    var q := ResourceConfiguration(resources, obj).value;
    var i :| 0 <= i < |resources| && resources[i] == r;
    var j :| 0 <= j < |resources| && resources[j] == q;
  }

  lemma TwoPartPath(a: string, b: string)
    requires '.' !in a && '.' !in b
    ensures FieldPath("." + a + "." + b) == [a, b]
  {
    var field := "." + a + "." + b;
    assert field[1..] == a + "." + b;
    SplitFirst(a, '.', b);
    SplitNone(b, '.');
  }

  lemma NamePath()
    ensures FieldPath(".metadata.name") == ["metadata", "name"]
  {
    TwoPartPath("metadata", "name");
    assert ".metadata.name" == "." + "metadata" + "." + "name";
  }

  /** With `mongoId` `.metadata.name` every accepted body is keyed by the id of its URL. */
  lemma NameKeyIsRequestId(resources: seq<Resource>, request: Request)
    requires AcceptWrite(resources, request).Accepted? && SlashFree(request.gvr) && DistinctKinds(resources)
    requires ResourceForGvr(resources, request.gvr).value.mongoId == ".metadata.name"
    ensures MongoId(resources, AcceptWrite(resources, request).value) == Some(request.id)
  {
    AcceptedIdentity(resources, request);
    SameConfiguration(resources, request);
    NamePath();
  }

  /**
   Under the default uid key of MongoDB a GET after a successful PUT to an empty address misses
   exactly when the uid is not the name.
   */
  lemma DefaultKeyMisses(resources: seq<Resource>, request: Request, db: Database)
    requires AcceptWrite(resources, request).Accepted? && SlashFree(request.gvr) && DistinctKinds(resources)
    requires ResourceForGvr(resources, request.gvr).value.mongoId == ""
    requires var obj := AcceptWrite(resources, request).value;
             !MongoOp(resources, Create(obj)).Reject? && AddressOf(resources, request) !in db
    requires var r := ResourceForGvr(resources, request.gvr).value; Lower(r.resource) == Lower(r.kind) + "s"
    ensures var obj := AcceptWrite(resources, request).value;
            var after := Apply(db, MongoOp(resources, Create(obj)));
            Answered(Mongo(resources), resources, after, request).0 == 404 <==> Uid(obj) != request.id
  {
    AcceptedIdentity(resources, request);
    SameConfiguration(resources, request);
    PutThenGet(Mongo(resources), resources, request, db);
  }

  // ----- Requests whose GET misses ------------------------------------------------------

  const THING := GroupVersionResource("quasar.io", "v1", "things")
  const POLICY := GroupVersionResource("quasar.io", "v1", "policies")

  /** A body with nothing but what the service asks for. */
  function MinimalBody(kind: string, name: string): Fields {
    map["apiVersion" := Str("quasar.io/v1"), "kind" := Str(kind), "metadata" := Map(map["name" := Str(name)])]
  }

  lemma MinimalIdentity(kind: string, name: string)
    ensures var body := MinimalBody(kind, name);
            Name(body) == name && Kind(body) == kind && ApiVersion(body) == "quasar.io/v1" && Uid(body) == ""
  {
    var body := MinimalBody(kind, name);
    TwoSteps(Map(body), "metadata", "name");
    TwoSteps(Map(body), "metadata", "uid");
    assert ["name"][1..] == [] && ["uid"][1..] == [] && ["metadata"][1..] == [];
    assert ["kind"][1..] == [] && ["apiVersion"][1..] == [];
    assert NestedField(Map(body), ["kind"]) == Found(Str(kind));
    assert NestedField(Map(body), ["apiVersion"]) == Found(Str("quasar.io/v1"));
  }

  lemma MinimalAccepted(r: Resource, name: string)
    requires r.group == "quasar.io" && r.version == "v1" && r.resource != "" && name != ""
    ensures var gvr := GroupVersionResource(r.group, r.version, r.resource);
            var request := Request(gvr, name, Some(MinimalBody(r.kind, name)));
            && ResourceForGvr([r], request.gvr) == Some(r) && SlashFree(request.gvr)
            && AcceptWrite([r], request) == Accepted(WithEnvironment(MinimalBody(r.kind, name)))
            && Uid(WithEnvironment(MinimalBody(r.kind, name))) == ""
            && "_id" !in WithEnvironment(MinimalBody(r.kind, name))
  {
    MinimalIdentity(r.kind, name);
    EnvironmentKeepsIdentity(MinimalBody(r.kind, name));
    EnvironmentIsExact(MinimalBody(r.kind, name));
    assert "quasar.io" + "/" + "v1" == "quasar.io/v1";
  }

  /** An accepted PUT of a body without uid, under the default document id: the GET is 404. */
  lemma PutWithoutUidIsLost(name: string)
    requires name != ""
    ensures var resources := [Resource("quasar.io", "v1", "things", "Thing", "", map[])];
            var request := Request(THING, name, Some(MinimalBody("Thing", name)));
            var obj := WithEnvironment(MinimalBody("Thing", name));
            && AcceptWrite(resources, request) == Accepted(obj)
            && !MongoOp(resources, Create(obj)).Reject?
            && Answered(Mongo(resources), resources, Apply(map[], MongoOp(resources, Create(obj))), request) ==
              (404, None)
  {
    var r := Resource("quasar.io", "v1", "things", "Thing", "", map[]);
    var request := Request(THING, name, Some(MinimalBody("Thing", name)));
    MinimalAccepted(r, name);
    SameConfiguration([r], request);
    PutThenGet(Mongo([r]), [r], request, map[]);
  }

  /** An accepted PUT for a kind whose plural is not the kind with an "s": on either store the GET is 404. */
  lemma IrregularPluralIsLost(kind: StoreKind, name: string)
    requires var resources := [Resource("quasar.io", "v1", "policies", "Policy", ".metadata.name", map[])];
             name != "" && ConfiguredBy(kind, resources)
    ensures var resources := [Resource("quasar.io", "v1", "policies", "Policy", ".metadata.name", map[])];
            var request := Request(POLICY, name, Some(MinimalBody("Policy", name)));
            var obj := WithEnvironment(MinimalBody("Policy", name));
            && AcceptWrite(resources, request) == Accepted(obj)
            && !OpFor(kind, Create(obj)).Reject?
            && Answered(kind, resources, Apply(map[], OpFor(kind, Create(obj))), request) == (404, None)
  {
    var r := Resource("quasar.io", "v1", "policies", "Policy", ".metadata.name", map[]);
    var request := Request(POLICY, name, Some(MinimalBody("Policy", name)));
    MinimalAccepted(r, name);
    if kind.Mongo? {
      NameKeyIsRequestId([r], request);
    }
    PutThenGet(kind, [r], request, map[]);
    assert |Lower("policies")| != |Lower("Policy") + "s"|;
  }

  /** The store files every accepted body of this URL by its name. */
  predicate FiledByName(kind: StoreKind, resources: seq<Resource>, gvr: GroupVersionResource) {
    kind.Mongo? ==>
      && kind.resources == resources && DistinctKinds(resources)
      && ResourceForGvr(resources, gvr).Some? && ResourceForGvr(resources, gvr).value.mongoId == ".metadata.name"
  }

  lemma FiledUnderRequestId(kind: StoreKind, resources: seq<Resource>, request: Request)
    requires AcceptWrite(resources, request).Accepted? && SlashFree(request.gvr)
    requires FiledByName(kind, resources, request.gvr)
    ensures DocumentId(kind, AcceptWrite(resources, request).value) == Some(request.id)
  {
    if kind.Mongo? {
      NameKeyIsRequestId(resources, request);
    }
  }

  /**
   The whole round trip for a resource keyed by name, on either store: PUT, GET the normalised body,
   DELETE, GET nothing. A body for MongoDB may bring only the right `_id`.
   */
  lemma RoundTrip(kind: StoreKind, resources: seq<Resource>, request: Request, db: Database)
    requires AcceptWrite(resources, request).Accepted? && SlashFree(request.gvr)
    requires FiledByName(kind, resources, request.gvr)
    requires var r := ResourceForGvr(resources, request.gvr).value; Lower(r.resource) == Lower(r.kind) + "s"
    requires var body := request.body.value; kind.Mongo? && "_id" in body ==> body["_id"] == Str(request.id)
    ensures var obj := WithEnvironment(request.body.value);
            var stored := Apply(db, OpFor(kind, Create(obj)));
            var removed := Apply(stored, OpFor(kind, Delete(obj)));
            && AcceptRead(resources, request).Accepted?
            && Answered(kind, resources, stored, request) ==
               (200, Some(if kind.Mongo? then obj["_id" := Str(request.id)] else obj))
            && Answered(kind, resources, removed, request) == (404, None)
            && (forall key :: key != AddressOf(resources, request) ==> At(removed, key) == At(db, key))
  {
    var obj := AcceptWrite(resources, request).value;
    EnvironmentIsExact(request.body.value);
    AcceptWriteIff(resources, request);
    AcceptReadIff(resources, request);
    FiledUnderRequestId(kind, resources, request);
    AddressIff(kind, resources, request);
    PutThenGet(kind, resources, request, db);
    DeleteThenGet(kind, resources, request, Apply(db, OpFor(kind, Create(obj))));
  }
}
