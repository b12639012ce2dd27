/**
 Watcher and reconciliation together: notifications are delivered while passes upsert from
 listings taken earlier (internal/k8s/watcher.go:115-180 beside
 internal/reconciliation/reconciliation.go:38-116). Listing, upserting one item and delivering one
 notification are separate steps of any number of passes, and every store call may fail or panic.
 */
module StaleSnapshots {
  import opened Wrappers
  import opened Json
  import opened Config
  import opened Replication
  import opened Stores
  import opened Reconciliation
  import opened PassTheorems
  import opened Watcher

  datatype Sync = Sync(
    source: map<string, Fields>,       // the objects that exist, by name
    exposed: set<Fields>,              // every version that ever existed
    queue: seq<Notification>,          // notifications on their way to the watcher
    store: Database,                   // Hazelcast
    passes: map<nat, seq<Fields>>)     // per pass, the listed items still to upsert

  datatype SyncEvent =
    | Expose(obj: Fields)                     // an object is created or changed at the source
    | Withdraw(name: string)                  // an object is deleted at the source
    | Notify(answer: Answer)                  // the watcher handles the oldest notification
    | Begin(pass: nat, items: seq<Fields>)    // a pass has listed the source and chosen its items
    | RestoreNext(pass: nat, answer: Answer)  // a pass upserts its next item

  /** The watched resource keeps all its objects in one dataset. */
  ghost predicate Permitted(dataset: string, s: Sync, e: SyncEvent) {
    match e
    case Expose(obj) => GroupVersionId(obj) == dataset
    case Withdraw(name) => name in s.source
    case Notify(_) => s.queue != []
    case Begin(pass, items) =>
      && (pass in s.passes ==> s.passes[pass] == [])
      && (forall item :: item in items ==> item in s.source.Values)
    case RestoreNext(pass, _) => pass in s.passes && s.passes[pass] != []
  }

  function Next(s: Sync, e: SyncEvent): Sync {
    match e
    case Expose(obj) =>
      var n := if Name(obj) in s.source then Updated(s.source[Name(obj)], obj) else Added(obj);
      s.(source := s.source[Name(obj) := obj], exposed := s.exposed + {obj}, queue := s.queue + [n])
    case Withdraw(name) =>
      if name in s.source then s.(source := s.source - {name}, queue := s.queue + [Deleted(s.source[name])]) else s
    case Notify(answer) =>
      if s.queue == [] then s
      else
        var call := CallFor(s.queue[0]);
        s.(queue := s.queue[1..],
           store := if call.None? then s.store else After(s.store, HazelcastOp(call.value), answer))
    case Begin(pass, items) => s.(passes := s.passes[pass := items])
    case RestoreNext(pass, answer) =>
      if pass !in s.passes || s.passes[pass] == [] then s
      else s.(store := After(s.store, RestoreOp(s.passes[pass][0]), answer),
              passes := s.passes[pass := if answer.Panicked? then [] else s.passes[pass][1..]])
  }

  function Outcome(s: Sync, es: seq<SyncEvent>): Sync {
    if es == [] then s else Next(Outcome(s, es[..|es| - 1]), es[|es| - 1])
  }

  ghost predicate Possible(dataset: string, s: Sync, es: seq<SyncEvent>) {
    es != [] ==>
      var n := |es| - 1;
      Possible(dataset, s, es[..n]) && Permitted(dataset, Outcome(s, es[..n]), es[n])
  }

  // ----- No value from thin air -----------------------------------------------------------

  ghost predicate KnownVersion(dataset: string, s: Sync, obj: Fields) {
    obj in s.exposed && GroupVersionId(obj) == dataset
  }

  ghost predicate KnownNotification(dataset: string, s: Sync, n: Notification) {
    match n
    case Added(obj) => KnownVersion(dataset, s, obj)
    case Updated(oldObj, newObj) => KnownVersion(dataset, s, oldObj) && KnownVersion(dataset, s, newObj)
    case Deleted(obj) => KnownVersion(dataset, s, obj)
    case Foreign => true
  }

  /** Everything on its way to the store was exposed by the source. */
  ghost predicate Grounded(dataset: string, s: Sync) {
    && (forall name :: name in s.source ==> Name(s.source[name]) == name && KnownVersion(dataset, s, s.source[name]))
    && (forall n :: n in s.queue ==> KnownNotification(dataset, s, n))
    && (forall pass, item :: pass in s.passes && item in s.passes[pass] ==> KnownVersion(dataset, s, item))
  }

  /** An entry of the store is the initial one, or the normalised form of an exposed version of that name. */
  ghost predicate Explained(dataset: string, initial: Database, s: Sync, key: Key) {
    || At(s.store, key) == At(initial, key)
    || At(s.store, key) == None
    || (exists obj :: obj in s.exposed && KeyOf(obj) == key && At(s.store, key) == Some(WithEnvironment(obj)))
  }

  lemma NextStaysGrounded(dataset: string, s: Sync, e: SyncEvent)
    requires Grounded(dataset, s) && Permitted(dataset, s, e)
    ensures Grounded(dataset, Next(s, e)) && s.exposed <= Next(s, e).exposed
  {
    var s' := Next(s, e);
    forall n | n in s'.queue
      ensures KnownNotification(dataset, s', n)
    {
      if n in s.queue {
        assert KnownNotification(dataset, s, n);
      }
    }
    forall pass, item | pass in s'.passes && item in s'.passes[pass]
      ensures KnownVersion(dataset, s', item)
    {
      if pass in s.passes && item in s.passes[pass] {
        assert KnownVersion(dataset, s, item);
      }
    }
  }

  /** What a notification writes, if it writes anything. */
  lemma NotificationOp(dataset: string, s: Sync, n: Notification)
    requires KnownNotification(dataset, s, n) && CallFor(n).Some?
    ensures var op := HazelcastOp(CallFor(n).value);
            && !op.Reject? && op.key == Key(dataset, NameOf(n))
            && (op.Put? ==> exists obj :: obj in s.exposed && KeyOf(obj) == op.key && op.value == WithEnvironment(obj))
  {
    match n
    case Added(obj) =>
      EnvironmentKeepsIdentity(obj);
      EnvironmentKeepsDataset(obj);
      assert obj in s.exposed && KeyOf(obj) == HazelcastOp(CallFor(n).value).key;
    case Updated(oldObj, newObj) =>
      EnvironmentKeepsIdentity(newObj);
      assert newObj in s.exposed && KeyOf(newObj) == HazelcastOp(CallFor(n).value).key;
    case Deleted(obj) =>
  }

  lemma NextStaysExplained(dataset: string, initial: Database, s: Sync, e: SyncEvent, key: Key)
    requires Grounded(dataset, s) && Permitted(dataset, s, e) && Explained(dataset, initial, s, key)
    ensures Explained(dataset, initial, Next(s, e), key)
  {
    var s' := Next(s, e);
    match e
    case Notify(answer) =>
      assert s.queue[0] in s.queue;
      if CallFor(s.queue[0]).Some? {
        NotificationOp(dataset, s, s.queue[0]);
      }
    case RestoreNext(pass, answer) =>
      var item := s.passes[pass][0];
      assert item in s.passes[pass];
      assert KnownVersion(dataset, s, item);
      RestoreKey(item);
    case _ =>
      assert s'.store == s.store;
  }

  /**
   No value from thin air: with notifications, failures, panics and passes over stale listings
   interleaved in any way, every entry is initial, gone, or a version the source once had.
   */
  lemma {:induction false} NothingFromThinAir(dataset: string, s: Sync, es: seq<SyncEvent>)
    requires Grounded(dataset, s) && Possible(dataset, s, es)
    ensures Grounded(dataset, Outcome(s, es))
    ensures forall key :: Explained(dataset, s.store, Outcome(s, es), key)
  {
    if es != [] {
      var front, e := es[..|es| - 1], es[|es| - 1];
      NothingFromThinAir(dataset, s, front);
      NextStaysGrounded(dataset, Outcome(s, front), e);
      forall key
        ensures Explained(dataset, s.store, Outcome(s, es), key)
      {
        NextStaysExplained(dataset, s.store, Outcome(s, front), e, key);
      }
    }
  }

  // ----- Versions that are final, and those that are not ----------------------------------------

  predicate ExposesName(e: SyncEvent, name: string) {
    e.Expose? && Name(e.obj) == name
  }

  /** No event of the run gives the name another version; one that does not exist cannot be withdrawn anyway. */
  ghost predicate Untouched(s: Sync, es: seq<SyncEvent>, name: string) {
    forall e :: e in es ==> !ExposesName(e, name) && !(name in s.source && e == Withdraw(name))
  }

  /** The watcher has been told everything about the name. */
  ghost predicate Told(s: Sync, name: string) {
    forall n :: n in s.queue ==> NameOf(n) != name
  }

  /** The store holds the latest version of the name, normalised, or nothing when it was deleted. */
  ghost predicate Current(dataset: string, s: Sync, name: string) {
    At(s.store, Key(dataset, name)) == Wanted(s.source, name)
  }

  /** Every item of the name that a pass under way has listed normalises to the latest version. */
  ghost predicate NoStaleItem(s: Sync, name: string) {
    forall pass, i :: pass in s.passes && 0 <= i < |s.passes[pass]| && Name(s.passes[pass][i]) == name ==>
      Some(WithEnvironment(s.passes[pass][i])) == Wanted(s.source, name)
  }

  lemma NextStaysTold(dataset: string, s: Sync, e: SyncEvent, name: string)
    requires Grounded(dataset, s) && Permitted(dataset, s, e) && Told(s, name) && Untouched(s, [e], name)
    ensures Told(Next(s, e), name) && At(Next(s, e).source, name) == At(s.source, name)
    ensures NoStaleItem(s, name) ==> NoStaleItem(Next(s, e), name)
  {
    var s' := Next(s, e);
    assert e in [e];
    match e
    case RestoreNext(pass, answer) =>
      forall p, i | NoStaleItem(s, name) && p in s'.passes && 0 <= i < |s'.passes[p]| && Name(s'.passes[p][i]) == name
        ensures Some(WithEnvironment(s'.passes[p][i])) == Wanted(s'.source, name)
      {
        if p == pass {
          assert s'.passes[p][i] == s.passes[p][i + 1];
        }
      }
    case Begin(pass, items) =>
      forall i | 0 <= i < |items| && Name(items[i]) == name
        ensures Some(WithEnvironment(items[i])) == Wanted(s.source, name)
      {
        assert items[i] in items;
      }
    case _ =>
  }

  lemma NextStaysCurrent(dataset: string, s: Sync, e: SyncEvent, name: string)
    requires Grounded(dataset, s) && Permitted(dataset, s, e) && Told(s, name) && Untouched(s, [e], name)
    ensures NoStaleItem(s, name) && Current(dataset, s, name) ==> Current(dataset, Next(s, e), name)
    ensures Key(dataset, name) in s.store ==> Key(dataset, name) in Next(s, e).store
  {
    NextStaysTold(dataset, s, e, name);
    match e
    case Notify(answer) =>
      assert s.queue[0] in s.queue;
      if CallFor(s.queue[0]).Some? {
        NotificationOp(dataset, s, s.queue[0]);
      }
    case RestoreNext(pass, answer) =>
      var item := s.passes[pass][0];
      assert item in s.passes[pass] && KnownVersion(dataset, s, item);
      RestoreKey(item);
    case _ =>
  }

  lemma {:induction false} StaysTold(dataset: string, s: Sync, es: seq<SyncEvent>, name: string)
    requires Grounded(dataset, s) && Possible(dataset, s, es) && Told(s, name) && Untouched(s, es, name)
    ensures var after := Outcome(s, es);
            && Grounded(dataset, after) && Told(after, name) && At(after.source, name) == At(s.source, name)
            && (NoStaleItem(s, name) ==> NoStaleItem(after, name))
            && (NoStaleItem(s, name) && Current(dataset, s, name) ==> Current(dataset, after, name))
            && (Key(dataset, name) in s.store ==> Key(dataset, name) in after.store)
  {
    if es != [] {
      var front, e := es[..|es| - 1], es[|es| - 1];
      assert e in es && forall x :: x in front ==> x in es;
      StaysTold(dataset, s, front, name);
      var before := Outcome(s, front);
      assert name in before.source <==> name in s.source;
      assert Untouched(before, [e], name);
      NextStaysGrounded(dataset, before, e);
      NextStaysTold(dataset, before, e, name);
      NextStaysCurrent(dataset, before, e, name);
    }
  }

  lemma OneMoreEvent(dataset: string, s: Sync, es: seq<SyncEvent>, e: SyncEvent)
    requires Possible(dataset, s, es) && Permitted(dataset, Outcome(s, es), e)
    ensures Possible(dataset, s, es + [e]) && Outcome(s, es + [e]) == Next(Outcome(s, es), e)
  {
  }

  function Repeat(e: SyncEvent, n: nat): seq<SyncEvent> {
    seq(n, _ => e)
  }

  /** A pass left to itself works off its items in order. */
  lemma {:induction false} WorkOff(dataset: string, s: Sync, pass: nat, n: nat)
    requires pass in s.passes && n <= |s.passes[pass]|
    ensures var es := Repeat(RestoreNext(pass, Done), n);
            && Possible(dataset, s, es) && pass in Outcome(s, es).passes
            && Outcome(s, es).passes[pass] == s.passes[pass][n..]
  {
    var es := Repeat(RestoreNext(pass, Done), n);
    if n > 0 {
      assert es[..n - 1] == Repeat(RestoreNext(pass, Done), n - 1);
      WorkOff(dataset, s, pass, n - 1);
    }
  }

  /** The upserts of a pass, one for each answer. */
  function Restores(pass: nat, answers: seq<Answer>): seq<SyncEvent> {
    seq(|answers|, i requires 0 <= i < |answers| => RestoreNext(pass, answers[i]))
  }

  /** The pass after these answers: only a panic ends it before its last item. */
  function PassAfter(s: Sync, pass: nat, answers: seq<Answer>): Sync
    requires pass in s.passes && |answers| <= |s.passes[pass]|
  {
    s.(store := Upserted(s.store, s.passes[pass], answers),
       passes := s.passes[pass := if PanickedAtLast(answers) then [] else s.passes[pass][|answers|..]])
  }

  lemma PassStep(dataset: string, s: Sync, pass: nat, answers: seq<Answer>, answer: Answer)
    requires pass in s.passes && |answers| < |s.passes[pass]| && !PanickedAtLast(answers)
    ensures Permitted(dataset, PassAfter(s, pass, answers), RestoreNext(pass, answer))
    ensures Next(PassAfter(s, pass, answers), RestoreNext(pass, answer)) == PassAfter(s, pass, answers + [answer])
  {
    hide RestoreOp, After;
    var items, n := s.passes[pass], |answers|;
    UpsertedOneMore(s.store, items, answers, answer);
    assert items[n..][0] == items[n] && items[n..][1..] == items[n + 1..];
    assert s.passes[pass := items[n..]][pass := items[n + 1..]] == s.passes[pass := items[n + 1..]];
    assert s.passes[pass := items[n..]][pass := []] == s.passes[pass := []];
  }

  /** A pass left to itself is the pass of the sequential model, whatever its calls are answered. */
  lemma {:induction false} PassAlone(dataset: string, s: Sync, pass: nat, answers: seq<Answer>)
    requires pass in s.passes && |answers| <= |s.passes[pass]| && NoPanicBeforeLast(answers)
    ensures Possible(dataset, s, Restores(pass, answers))
    ensures Outcome(s, Restores(pass, answers)) == PassAfter(s, pass, answers)
  {
    if answers == [] {
      assert s.passes[pass][0..] == s.passes[pass] && s.passes[pass := s.passes[pass]] == s.passes;
    } else {
      hide PassAfter, Next, Permitted;
      var front, last := answers[..|answers| - 1], answers[|answers| - 1];
      assert answers == front + [last] && Restores(pass, answers) == Restores(pass, front) + [RestoreNext(pass, last)];
      PassAlone(dataset, s, pass, front);
      PassStep(dataset, s, pass, front, last);
      OneMoreEvent(dataset, s, Restores(pass, front), RestoreNext(pass, last));
    }
  }

  /** A pass begins when it is not under way, over objects of the source. */
  lemma PassBegins(dataset: string, s: Sync, pass: nat, items: seq<Fields>)
    ensures Permitted(dataset, s, Begin(pass, items)) <==>
            && (pass !in s.passes || |s.passes[pass]| == 0)
            && (forall item :: item in items ==> exists name :: name in s.source && s.source[name] == item)
    ensures Next(s, Begin(pass, items)) == s.(passes := s.passes[pass := items])
  {
  }

  /** Upserting a listed item stores it, whatever the source has become. */
  lemma ItemReturns(dataset: string, s: Sync, pass: nat, item: Fields)
    requires pass in s.passes && s.passes[pass] != [] && s.passes[pass][0] == item && GroupVersionId(item) == dataset
    ensures At(Next(s, RestoreNext(pass, Done)).store, Key(dataset, Name(item))) == Some(WithEnvironment(item))
  {
    RestoreKey(item);
    hide WithEnvironment, Name, GroupVersionId;
    assert Next(s, RestoreNext(pass, Done)).store == s.store[KeyOf(item) := WithEnvironment(item)];
  }

  /** Under every continuation that gives the name no other version, the store holds the latest one. */
  ghost predicate StaysCurrent(dataset: string, s: Sync, name: string) {
    forall es :: Possible(dataset, s, es) && Untouched(s, es, name) ==>
      At(Outcome(s, es).store, Key(dataset, name)) == Wanted(s.source, name)
  }

  /** A pass left to itself gets to its i-th item and stores it. */
  lemma WorkOffOneMore(dataset: string, s: Sync, pass: nat, i: nat)
    requires Grounded(dataset, s) && pass in s.passes && i < |s.passes[pass]|
    ensures var e, item := RestoreNext(pass, Done), s.passes[pass][i];
            var es := Repeat(e, i) + [e];
            && Possible(dataset, s, es)
            && At(Outcome(s, es).store, Key(dataset, Name(item))) == Some(WithEnvironment(item))
  {
    var item, e := s.passes[pass][i], RestoreNext(pass, Done);
    assert item in s.passes[pass] && KnownVersion(dataset, s, item);
    WorkOff(dataset, s, pass, i);
    OneMoreEvent(dataset, s, Repeat(e, i), e);
    ItemReturns(dataset, Outcome(s, Repeat(e, i)), pass, item);
  }

  lemma OnlyRestores(s: Sync, es: seq<SyncEvent>, pass: nat, name: string)
    requires forall e :: e in es ==> e == RestoreNext(pass, Done)
    ensures Untouched(s, es, name)
  {
  }

  lemma ListedCanReturn(dataset: string, s: Sync, name: string, pass: nat, i: nat)
    requires Grounded(dataset, s) && pass in s.passes && i < |s.passes[pass]| && Name(s.passes[pass][i]) == name
    requires Some(WithEnvironment(s.passes[pass][i])) != Wanted(s.source, name)
    ensures !StaysCurrent(dataset, s, name)
  {
    var e := RestoreNext(pass, Done);
    var es := Repeat(e, i) + [e];
    WorkOffOneMore(dataset, s, pass, i);
    OnlyRestores(s, es, pass, name);
  }

  /**
   Once the store holds the latest version of a name and the watcher has been told everything about it,
   it stays so under every continuation exactly when no pass under way has listed another version.
   */
  lemma VersionIsFinalIff(dataset: string, s: Sync, name: string)
    requires Grounded(dataset, s) && Told(s, name) && Current(dataset, s, name)
    ensures StaysCurrent(dataset, s, name) <==> NoStaleItem(s, name)
  {
    if NoStaleItem(s, name) {
      forall es | Possible(dataset, s, es) && Untouched(s, es, name)
        ensures At(Outcome(s, es).store, Key(dataset, name)) == Wanted(s.source, name)
      {
        StaysTold(dataset, s, es, name);
        SameWanted(Outcome(s, es).source, s.source, name);
      }
    } else {
      var pass, i :| pass in s.passes && 0 <= i < |s.passes[pass]| && Name(s.passes[pass][i]) == name
                     && Some(WithEnvironment(s.passes[pass][i])) != Wanted(s.source, name);
      ListedCanReturn(dataset, s, name, pass, i);
    }
  }

  lemma SameWanted(a: map<string, Fields>, b: map<string, Fields>, name: string)
    requires At(a, name) == At(b, name)
    ensures Wanted(a, name) == Wanted(b, name)
  {
  }

  /** Deleted at the source, and the watcher has been told everything about the name. */
  ghost predicate Gone(s: Sync, name: string) {
    name !in s.source && Told(s, name)
  }

  /** No pass under way has listed the name before it was deleted. */
  ghost predicate NotListed(s: Sync, name: string) {
    forall pass, i :: pass in s.passes && 0 <= i < |s.passes[pass]| ==> Name(s.passes[pass][i]) != name
  }

  /** Unless the source exposes the name again, the store never holds it again. */
  ghost predicate StaysDeleted(dataset: string, s: Sync, name: string) {
    forall es :: Possible(dataset, s, es) && (forall e :: e in es ==> !ExposesName(e, name)) ==>
      Key(dataset, name) !in Outcome(s, es).store
  }

  /**
   Once the watcher has removed a deleted object, it stays removed under every continuation exactly
   when no pass under way had listed it before the delete.
   */
  lemma DeleteIsFinalIff(dataset: string, s: Sync, name: string)
    requires Grounded(dataset, s) && Gone(s, name) && Key(dataset, name) !in s.store
    ensures StaysDeleted(dataset, s, name) <==> NotListed(s, name)
  {
    VersionIsFinalIff(dataset, s, name);
    assert NoStaleItem(s, name) <==> NotListed(s, name);
    if StaysDeleted(dataset, s, name) {
      forall es | Possible(dataset, s, es) && Untouched(s, es, name)
        ensures At(Outcome(s, es).store, Key(dataset, name)) == Wanted(s.source, name)
      {
        assert forall e :: e in es ==> !ExposesName(e, name);
      }
    }
    if StaysCurrent(dataset, s, name) {
      forall es | Possible(dataset, s, es) && forall e :: e in es ==> !ExposesName(e, name)
        ensures Key(dataset, name) !in Outcome(s, es).store
      {
        assert Untouched(s, es, name);
        assert At(Outcome(s, es).store, Key(dataset, name)) == None;
      }
    }
  }

  /** An undone delete is for good: no later pass and no later notification removes the key. */
  lemma StaleKeyIsForever(dataset: string, s: Sync, es: seq<SyncEvent>, name: string)
    requires Grounded(dataset, s) && Gone(s, name) && Key(dataset, name) in s.store
    requires Possible(dataset, s, es) && forall e :: e in es ==> !ExposesName(e, name)
    ensures Key(dataset, name) in Outcome(s, es).store && name !in Outcome(s, es).source
  {
    StaysTold(dataset, s, es, name);
    assert At(Outcome(s, es).source, name) == None;
  }

  // ----- The watcher catches up ------------------------------------------------------------------

  /** The latest content on its way to the store for a name, or what the store holds when nothing is. */
  function Expected(dataset: string, store: Database, queue: seq<Notification>, name: string): Option<Fields> {
    if queue == [] then At(store, Key(dataset, name))
    else
      var n := queue[|queue| - 1];
      if NameOf(n) == name && CallFor(n).Some? then Brought(n) else Expected(dataset, store, queue[..|queue| - 1], name)
  }

  /** Once all notifications under way are delivered, the name is as at the source. */
  ghost predicate CatchingUp(dataset: string, s: Sync, name: string) {
    Expected(dataset, s.store, s.queue, name) == Wanted(s.source, name)
  }

  /** Calls take effect; a change of an object brings another resource version, or leaves its content as it is. */
  ghost predicate Faithful(s: Sync, e: SyncEvent) {
    match e
    case Notify(answer) => answer.Applied()
    case Expose(obj) =>
      Name(obj) in s.source && ResourceVersion(obj) == ResourceVersion(s.source[Name(obj)]) ==>
        WithEnvironment(obj) == WithEnvironment(s.source[Name(obj)])
    case _ => true
  }

  lemma ExpectedOneMore(dataset: string, store: Database, queue: seq<Notification>, n: Notification, name: string)
    ensures Expected(dataset, store, queue + [n], name) ==
            if NameOf(n) == name && CallFor(n).Some? then Brought(n) else Expected(dataset, store, queue, name)
  {
    assert (queue + [n])[..|queue|] == queue;
  }

  /** Delivering the oldest notification leaves what is expected as it is. */
  lemma {:induction false} ExpectedAfterNotify(dataset: string, store: Database, queue: seq<Notification>, name: string,
                                               after: Database)
    requires queue != []
    requires At(after, Key(dataset, name)) ==
             if NameOf(queue[0]) == name && CallFor(queue[0]).Some? then Brought(queue[0])
             else At(store, Key(dataset, name))
    ensures Expected(dataset, after, queue[1..], name) == Expected(dataset, store, queue, name)
  {
    var front, last := queue[..|queue| - 1], queue[|queue| - 1];
    if |queue| > 1 {
      assert queue[1..] == front[1..] + [last] && queue == front + [last];
      ExpectedAfterNotify(dataset, store, front, name, after);
      ExpectedOneMore(dataset, after, front[1..], last, name);
    }
  }

  /** What a notification is to the store: its content under its name. */
  lemma NotificationIs(dataset: string, s: Sync, n: Notification)
    requires KnownNotification(dataset, s, n) && CallFor(n).Some?
    ensures HazelcastOp(CallFor(n).value) ==
            if Brought(n).Some? then Put(Key(dataset, NameOf(n)), Brought(n).value) else Remove(Key(dataset, NameOf(n)))
  {
    match n
    case Added(obj) =>
      EnvironmentKeepsIdentity(obj);
      EnvironmentKeepsDataset(obj);
    case Updated(oldObj, newObj) => EnvironmentKeepsIdentity(newObj);
    case Deleted(obj) =>
  }

  lemma NotifyStores(dataset: string, s: Sync, answer: Answer, name: string)
    requires Grounded(dataset, s) && s.queue != [] && answer.Applied()
    ensures At(Next(s, Notify(answer)).store, Key(dataset, name)) ==
            if NameOf(s.queue[0]) == name && CallFor(s.queue[0]).Some? then Brought(s.queue[0])
            else At(s.store, Key(dataset, name))
  {
    assert s.queue[0] in s.queue;
    if CallFor(s.queue[0]).Some? {
      NotificationIs(dataset, s, s.queue[0]);
    }
  }

  lemma NextCatchesUp(dataset: string, s: Sync, e: SyncEvent, name: string)
    requires Grounded(dataset, s) && Permitted(dataset, s, e) && Faithful(s, e)
    requires CatchingUp(dataset, s, name) && !e.Begin? && !e.RestoreNext?
    ensures CatchingUp(dataset, Next(s, e), name)
  {
    if e.Notify? {
      NotifyStores(dataset, s, e.answer, name);
      ExpectedAfterNotify(dataset, s.store, s.queue, name, Next(s, e).store);
    } else if e.Expose? {
      ExposeExpects(dataset, s.store, s.queue, s.source, e.obj, name);
    } else {
      WithdrawExpects(dataset, s.store, s.queue, s.source, e.name, name);
    }
  }

  lemma ExposeExpects(dataset: string, store: Database, queue: seq<Notification>, source: map<string, Fields>,
                      obj: Fields, name: string)
    requires Expected(dataset, store, queue, name) == Wanted(source, name)
    requires Name(obj) in source && ResourceVersion(obj) == ResourceVersion(source[Name(obj)]) ==>
               WithEnvironment(obj) == WithEnvironment(source[Name(obj)])
    ensures var n := if Name(obj) in source then Updated(source[Name(obj)], obj) else Added(obj);
            Expected(dataset, store, queue + [n], name) == Wanted(source[Name(obj) := obj], name)
  {
    hide Name, ResourceVersion, WithEnvironment, Expected;
    var n := if Name(obj) in source then Updated(source[Name(obj)], obj) else Added(obj);
    ExpectedOneMore(dataset, store, queue, n, name);
  }

  lemma WithdrawExpects(dataset: string, store: Database, queue: seq<Notification>, source: map<string, Fields>,
                        gone: string, name: string)
    requires Expected(dataset, store, queue, name) == Wanted(source, name)
    requires gone in source && Name(source[gone]) == gone
    ensures Expected(dataset, store, queue + [Deleted(source[gone])], name) == Wanted(source - {gone}, name)
  {
    hide Name, WithEnvironment, Expected;
    ExpectedOneMore(dataset, store, queue, Deleted(source[gone]), name);
  }

  /**
   The watcher alone, with every call taking effect: whatever is exposed, changed and deleted, once all
   notifications are delivered the store holds exactly the objects of the source, normalised.
   */
  lemma {:induction false} WatcherCatchesUp(dataset: string, s: Sync, es: seq<SyncEvent>)
    requires Grounded(dataset, s) && Possible(dataset, s, es) && forall name :: CatchingUp(dataset, s, name)
    requires forall n :: 0 <= n < |es| ==> Faithful(Outcome(s, es[..n]), es[n]) && !es[n].Begin? && !es[n].RestoreNext?
    ensures Grounded(dataset, Outcome(s, es)) && forall name :: CatchingUp(dataset, Outcome(s, es), name)
    ensures Outcome(s, es).queue == [] ==> forall name :: Current(dataset, Outcome(s, es), name)
  {
    if es != [] {
      var m := |es| - 1;
      var front, e := es[..m], es[m];
      assert forall n :: 0 <= n < m ==> front[..n] == es[..n] && front[n] == es[n];
      WatcherCatchesUp(dataset, s, front);
      NextStaysGrounded(dataset, Outcome(s, front), e);
      forall name
        ensures CatchingUp(dataset, Outcome(s, es), name)
      {
        NextCatchesUp(dataset, Outcome(s, front), e, name);
      }
    }
    forall name | Outcome(s, es).queue == []
      ensures Current(dataset, Outcome(s, es), name)
    {
      assert CatchingUp(dataset, Outcome(s, es), name);
    }
  }

  // ----- A full pass over a quiet source ---------------------------------------------------------

  /** The source is quiet and all passes under way have listed its present objects. */
  ghost predicate Quiet(s: Sync) {
    s.queue == [] && forall name :: NoStaleItem(s, name)
  }

  /** The source stays quiet, and `pass` goes on, with its calls taking effect; other passes may fail or begin. */
  ghost predicate WorksOff(pass: nat, e: SyncEvent) {
    && !e.Expose? && !e.Withdraw?
    && (e.Begin? ==> e.pass != pass) && (e.RestoreNext? && e.pass == pass ==> e.answer.Applied())
  }

  /** Each object of the source is current or still ahead in the pass. */
  ghost predicate CurrentOrAhead(dataset: string, s: Sync, pass: nat) {
    pass in s.passes && forall name :: name in s.source ==>
      Current(dataset, s, name) || s.source[name] in s.passes[pass]
  }

  lemma NextWorksOff(dataset: string, s: Sync, e: SyncEvent, pass: nat)
    requires Grounded(dataset, s) && Quiet(s) && CurrentOrAhead(dataset, s, pass)
    requires Permitted(dataset, s, e) && WorksOff(pass, e)
    ensures Quiet(Next(s, e)) && Next(s, e).source == s.source && CurrentOrAhead(dataset, Next(s, e), pass)
  {
    var s' := Next(s, e);
    forall name
      ensures NoStaleItem(s', name)
    {
      NextStaysTold(dataset, s, e, name);
    }
    forall name | name in s.source
      ensures Current(dataset, s', name) || s.source[name] in s'.passes[pass]
    {
      NextStaysCurrent(dataset, s, e, name);
      if !Current(dataset, s, name) && e.RestoreNext? && e.pass == pass && s.source[name] == s.passes[pass][0] {
        RestoreKey(s.source[name]);
      }
    }
  }

  lemma {:induction false} StaysWorkingOff(dataset: string, s: Sync, es: seq<SyncEvent>, pass: nat)
    requires Grounded(dataset, s) && Quiet(s) && CurrentOrAhead(dataset, s, pass)
    requires Possible(dataset, s, es) && forall e :: e in es ==> WorksOff(pass, e)
    ensures var after := Outcome(s, es);
            Grounded(dataset, after) && Quiet(after) && after.source == s.source && CurrentOrAhead(dataset, after, pass)
  {
    if es != [] {
      var front, e := es[..|es| - 1], es[|es| - 1];
      assert e in es && forall x :: x in front ==> x in es;
      StaysWorkingOff(dataset, s, front, pass);
      NextStaysGrounded(dataset, Outcome(s, front), e);
      NextWorksOff(dataset, Outcome(s, front), e, pass);
    }
  }

  /**
   Once the source is quiet and old passes are done with their old versions, one full pass whose calls
   take effect makes every object of the source current, whatever other passes do or fail to do
   beside it; and from then on every one of these versions is final.
   */
  lemma FullPassMakesCurrent(dataset: string, s: Sync, es: seq<SyncEvent>, pass: nat)
    requires Grounded(dataset, s) && Quiet(s)
    requires pass in s.passes && forall name :: name in s.source ==> s.source[name] in s.passes[pass]
    requires Possible(dataset, s, es) && (forall e :: e in es ==> WorksOff(pass, e))
    requires pass in Outcome(s, es).passes && Outcome(s, es).passes[pass] == []
    ensures Outcome(s, es).source == s.source
    ensures forall name :: name in s.source ==>
              Current(dataset, Outcome(s, es), name) && StaysCurrent(dataset, Outcome(s, es), name)
  {
    StaysWorkingOff(dataset, s, es, pass);
    forall name | name in s.source
      ensures Current(dataset, Outcome(s, es), name) && StaysCurrent(dataset, Outcome(s, es), name)
    {
      VersionIsFinalIff(dataset, Outcome(s, es), name);
    }
  }

  // ----- A delete that is undone -----------------------------------------------------------------

  /** The states of DeleteUndone: the object exists and is stored; listed; deleted; removed. */
  function Present(obj: Fields): Sync {
    Sync(map[Name(obj) := obj], {obj}, [], map[KeyOf(obj) := WithEnvironment(obj)], map[])
  }

  function ListedThenDeleted(obj: Fields): Sync {
    Sync(map[], {obj}, [Deleted(obj)], map[KeyOf(obj) := WithEnvironment(obj)], map[0 := [obj]])
  }

  function Removed(obj: Fields): Sync {
    Sync(map[], {obj}, [], map[], map[0 := [obj]])
  }

  lemma UndoneStates(obj: Fields)
    ensures Next(Next(Present(obj), Begin(0, [obj])), Withdraw(Name(obj))) == ListedThenDeleted(obj)
    ensures Next(ListedThenDeleted(obj), Notify(Done)) == Removed(obj)
  {
  }

  lemma UndoneRun(dataset: string, obj: Fields)
    requires GroupVersionId(obj) == dataset
    ensures var es := [Begin(0, [obj]), Withdraw(Name(obj)), Notify(Done)];
            Possible(dataset, Present(obj), es) && Outcome(Present(obj), es) == Removed(obj)
  {
    var s := Present(obj);
    var e0, e1, e2 := Begin(0, [obj]), Withdraw(Name(obj)), Notify(Done);
    UndoneStates(obj);
    assert Name(obj) in s.source && s.source[Name(obj)] == obj;
    OneMoreEvent(dataset, s, [], e0);
    assert [] + [e0] == [e0];
    OneMoreEvent(dataset, s, [e0], e1);
    assert [e0] + [e1] == [e0, e1];
    OneMoreEvent(dataset, s, [e0, e1], e2);
    assert [e0, e1] + [e2] == [e0, e1, e2];
  }

  /** A delete between listing and upsert is undone, with every call successful. */
  lemma DeleteUndone(dataset: string, obj: Fields)
    requires GroupVersionId(obj) == dataset
    ensures var es := [Begin(0, [obj]), Withdraw(Name(obj)), Notify(Done)];
            var s, last := Present(obj), RestoreNext(0, Done);
            && Grounded(dataset, s)
            && Possible(dataset, s, es + [last])
            && Gone(Outcome(s, es), Name(obj)) && KeyOf(obj) !in Outcome(s, es).store
            && KeyOf(obj) in Outcome(s, es + [last]).store
  {
    var es := [Begin(0, [obj]), Withdraw(Name(obj)), Notify(Done)];
    UndoneRun(dataset, obj);
    OneMoreEvent(dataset, Present(obj), es, RestoreNext(0, Done));
    ItemReturns(dataset, Removed(obj), 0, obj);
  }

  // ----- An update that is undone ----------------------------------------------------------------

  ghost predicate Successor(dataset: string, older: Fields, newer: Fields) {
    && GroupVersionId(older) == dataset && GroupVersionId(newer) == dataset && Name(older) == Name(newer)
    && ResourceVersion(older) != ResourceVersion(newer) && WithEnvironment(older) != WithEnvironment(newer)
  }

  function JustListed(obj: Fields): Sync {
    Present(obj).(passes := map[0 := [obj]])
  }

  /** The states of UpdateUndone: listed, changed at the source, and the change stored. */
  function ListedThenChanged(older: Fields, newer: Fields): Sync {
    Sync(map[Name(older) := newer], {older, newer}, [Updated(older, newer)],
         map[KeyOf(older) := WithEnvironment(older)], map[0 := [older]])
  }

  function ChangeStored(older: Fields, newer: Fields): Sync {
    Sync(map[Name(older) := newer], {older, newer}, [], map[KeyOf(older) := WithEnvironment(newer)], map[0 := [older]])
  }

  lemma ChangeIsPut(dataset: string, older: Fields, newer: Fields)
    requires Successor(dataset, older, newer)
    ensures CallFor(Updated(older, newer)).Some?
    ensures HazelcastOp(CallFor(Updated(older, newer)).value) == Put(KeyOf(older), WithEnvironment(newer))
  {
    EnvironmentKeepsIdentity(newer);
  }

  lemma ChangeDelivered(dataset: string, older: Fields, newer: Fields)
    requires Successor(dataset, older, newer)
    ensures Next(ListedThenChanged(older, newer), Notify(Done)) == ChangeStored(older, newer)
  {
    ChangeIsPut(dataset, older, newer);
    OneEntryReplaced(KeyOf(older), WithEnvironment(older), WithEnvironment(newer));
  }

  lemma OneEntryReplaced<K, V>(k: K, v: V, w: V)
    ensures map[k := v][k := w] == map[k := w]
  {
  }

  lemma ChangeExposed(dataset: string, older: Fields, newer: Fields)
    requires Successor(dataset, older, newer)
    ensures Next(JustListed(older), Expose(newer)) == ListedThenChanged(older, newer)
  {
    OneEntryReplaced(Name(older), older, newer);
    assert {older} + {newer} == {older, newer};
  }

  lemma ListedAndChanged(dataset: string, older: Fields, newer: Fields)
    requires Successor(dataset, older, newer)
    ensures var es := [Begin(0, [older]), Expose(newer)];
            && Possible(dataset, Present(older), es)
            && Outcome(Present(older), es) == ListedThenChanged(older, newer)
  {
    var s, e0, e1 := Present(older), Begin(0, [older]), Expose(newer);
    assert Name(older) in s.source && s.source[Name(older)] == older;
    OneMoreEvent(dataset, s, [], e0);
    assert [] + [e0] == [e0];
    assert Next(s, e0) == JustListed(older);
    ChangeExposed(dataset, older, newer);
    OneMoreEvent(dataset, s, [e0], e1);
    assert [e0] + [e1] == [e0, e1];
  }

  lemma ChangedRun(dataset: string, older: Fields, newer: Fields)
    requires Successor(dataset, older, newer)
    ensures var es := [Begin(0, [older]), Expose(newer), Notify(Done)];
            && Possible(dataset, Present(older), es)
            && Outcome(Present(older), es) == ChangeStored(older, newer)
  {
    var es := [Begin(0, [older]), Expose(newer)];
    ListedAndChanged(dataset, older, newer);
    ChangeDelivered(dataset, older, newer);
    OneMoreEvent(dataset, Present(older), es, Notify(Done));
    assert es + [Notify(Done)] == [Begin(0, [older]), Expose(newer), Notify(Done)];
  }

  /** A change between listing and upsert is stored and then undone, with every call successful. */
  lemma UpdateUndone(dataset: string, older: Fields, newer: Fields)
    requires Successor(dataset, older, newer)
    ensures var es := [Begin(0, [older]), Expose(newer), Notify(Done)];
            var s, last := Present(older), RestoreNext(0, Done);
            && Grounded(dataset, s)
            && Possible(dataset, s, es + [last])
            && Told(Outcome(s, es), Name(newer)) && Current(dataset, Outcome(s, es), Name(newer))
            && At(Outcome(s, es + [last]).store, KeyOf(newer)) == Some(WithEnvironment(older))
            && !Current(dataset, Outcome(s, es + [last]), Name(newer))
  {
    var es := [Begin(0, [older]), Expose(newer), Notify(Done)];
    ChangedRun(dataset, older, newer);
    OneMoreEvent(dataset, Present(older), es, RestoreNext(0, Done));
    ItemReturns(dataset, ChangeStored(older, newer), 0, older);
  }
}
