/**
 Two key-value stores kept in step by asynchronous copies: the protocol of
 internal/store/storemanager.go, for any keys and values.

 A write changes the primary at once and leaves one operation for the secondary pending.
 Pending operations are goroutines: any of them may run next, and each may fail.
 */
module Replication {
  import opened Wrappers

  /** One remote operation; `Reject` is a call that its store refuses without touching a key. */
  datatype Op<K, V> = Put(key: K, value: V) | Remove(key: K) | Reject {
    ghost predicate On(k: K) {
      !Reject? && key == k
    }

    /** What the key holds once the operation has taken effect. */
    function Effect(): Option<V>
      requires !Reject?
    {
      if Put? then Some(value) else None
    }
  }

  function At<K, V>(store: map<K, V>, k: K): Option<V> {
    if k in store then Some(store[k]) else None
  }

  function Apply<K, V>(store: map<K, V>, op: Op<K, V>): map<K, V> {
    match op
    case Put(k, v) => store[k := v]
    case Remove(k) => store - {k}
    case Reject => store
  }

  function ApplyAll<K, V>(store: map<K, V>, ops: seq<Op<K, V>>): map<K, V> {
    if ops == [] then store
    else Apply(ApplyAll(store, ops[..|ops| - 1]), ops[|ops| - 1])
  }

  /** What a remote side answers: success, refusal, an error after the effect, or a panic. */
  datatype Answer = Done | Refused | Uncertain | Panicked {
    predicate Applied() {
      Done? || Uncertain?
    }
  }

  function After<K, V>(store: map<K, V>, op: Op<K, V>, answer: Answer): map<K, V> {
    if answer.Applied() then Apply(store, op) else store
  }

  // ----- Folding operations into a store -------------------------------------

  ghost function LastOn<K, V>(ops: seq<Op<K, V>>, k: K): Option<Op<K, V>>
    ensures match LastOn(ops, k)
            case Some(o) => o in ops && o.On(k)
            case None => forall o :: o in ops ==> !o.On(k)
  {
    if ops == [] then None
    else
      var n := |ops| - 1;
      assert ops == ops[..n] + [ops[n]];
      if ops[n].On(k) then Some(ops[n]) else LastOn(ops[..n], k)
  }

  /** A key holds what the last operation on it left; an untouched key holds what it held. */
  lemma {:induction false} LastWriterWins<K, V>(store: map<K, V>, ops: seq<Op<K, V>>, k: K)
    ensures At(ApplyAll(store, ops), k) ==
            match LastOn(ops, k)
            case Some(o) => o.Effect()
            case None => At(store, k)
  {
    if ops != [] {
      LastWriterWins(store, ops[..|ops| - 1], k);
    }
  }

  lemma SameEntriesSameStore<K, V>(a: map<K, V>, b: map<K, V>)
    requires forall k :: At(a, k) == At(b, k)
    ensures a == b
  {
    forall k
      ensures (k in a <==> k in b) && (k in a ==> a[k] == b[k])
    {
      assert At(a, k) == At(b, k);
    }
  }

  /** Replaying a history on top of its own result changes nothing. */
  lemma ReplayChangesNothing<K(!new), V(!new)>(store: map<K, V>, ops: seq<Op<K, V>>)
    ensures ApplyAll(ApplyAll(store, ops), ops) == ApplyAll(store, ops)
  {
    var once := ApplyAll(store, ops);
    forall k
      ensures At(ApplyAll(once, ops), k) == At(once, k)
    {
      LastWriterWins(once, ops, k);
      LastWriterWins(store, ops, k);
    }
    SameEntriesSameStore(ApplyAll(once, ops), once);
  }

  // ----- The protocol --------------------------------------------------------

  datatype State<K(==), V(==)> = State(
    primary: map<K, V>,
    secondary: map<K, V>,
    pending: multiset<Op<K, V>>,
    alive: bool)

  /**
   A manager call (with what it means to either store and what the primary answered),
   or one goroutine finishing.
   */
  datatype Event<K, V> =
    | Write(onPrimary: Op<K, V>, onSecondary: Op<K, V>, answer: Answer)
    | Drain(op: Op<K, V>, answer: Answer)

  ghost predicate Enabled<K, V>(s: State<K, V>, e: Event<K, V>) {
    s.alive && (e.Drain? ==> e.op in s.pending)
  }

  /** A panic of the primary skips the spawn; a panic in a goroutine ends the process. */
  ghost function Step<K, V>(s: State<K, V>, e: Event<K, V>): State<K, V> {
    match e
    case Write(p, q, answer) =>
      s.(primary := After(s.primary, p, answer),
         pending := if answer.Panicked? then s.pending else s.pending + multiset{q})
    case Drain(o, answer) =>
      s.(secondary := After(s.secondary, o, answer),
         pending := s.pending - multiset{o},
         alive := !answer.Panicked?)
  }

  ghost predicate Legal<K, V>(s: State<K, V>, es: seq<Event<K, V>>) {
    es != [] ==>
      var n := |es| - 1;
      Legal(s, es[..n]) && Enabled(Exec(s, es[..n]), es[n])
  }

  ghost function Exec<K, V>(s: State<K, V>, es: seq<Event<K, V>>): State<K, V> {
    if es == [] then s else Step(Exec(s, es[..|es| - 1]), es[|es| - 1])
  }

  // ----- Safety without assumptions ------------------------------------------

  /** The secondary operations spawned by a history of events. */
  ghost function Issued<K, V>(es: seq<Event<K, V>>): multiset<Op<K, V>> {
    if es == [] then multiset{}
    else
      var e := es[|es| - 1];
      var before := Issued(es[..|es| - 1]);
      if e.Write? && !e.answer.Panicked? then before + multiset{e.onSecondary} else before
  }

  /** The goroutines that finished, with effect (`applied`) or without. */
  ghost function Finished<K, V>(es: seq<Event<K, V>>, applied: bool): multiset<Op<K, V>> {
    if es == [] then multiset{}
    else
      var e := es[|es| - 1];
      var before := Finished(es[..|es| - 1], applied);
      if e.Drain? && e.answer.Applied() == applied then before + multiset{e.op} else before
  }

  /** Calls of the manager that returned to their caller. */
  ghost function Returned<K, V>(es: seq<Event<K, V>>): nat {
    if es == [] then 0
    else
      var e := es[|es| - 1];
      var before := Returned(es[..|es| - 1]);
      if e.Write? && !e.answer.Panicked? then before + 1 else before
  }

  lemma AddOne<T>(before: multiset<T>, issued: multiset<T>, applied: multiset<T>, failed: multiset<T>,
                  pending: multiset<T>, x: T)
    requires before + issued == applied + failed + pending
    ensures before + (issued + multiset{x}) == applied + failed + (pending + multiset{x})
  {
    assert before + (issued + multiset{x}) == before + issued + multiset{x};
  }

  lemma MoveOne<T>(total: multiset<T>, applied: multiset<T>, failed: multiset<T>, pending: multiset<T>, x: T)
    requires total == applied + failed + pending && x in pending
    ensures total == (applied + multiset{x}) + failed + (pending - multiset{x})
    ensures total == applied + (failed + multiset{x}) + (pending - multiset{x})
  {
  }

  /**
   Conservation: in every reachable state the operations issued are those applied, those that
   failed and those still pending.
   */
  lemma {:induction false} NothingLostNothingInvented<K, V>(s: State<K, V>, es: seq<Event<K, V>>)
    requires Legal(s, es)
    ensures s.pending + Issued(es) == Finished(es, true) + Finished(es, false) + Exec(s, es).pending
  {
    if es != [] {
      var front, e := es[..|es| - 1], es[|es| - 1];
      NothingLostNothingInvented(s, front);
      var issued, applied, failed := Issued(front), Finished(front, true), Finished(front, false);
      var pending := Exec(s, front).pending;
      if e.Drain? {
        MoveOne(s.pending + issued, applied, failed, pending, e.op);
      } else if !e.answer.Panicked? {
        AddOne(s.pending, issued, applied, failed, pending, e.onSecondary);
      }
    }
  }

  /** The n-th event of a legal run, as a step between two states of the run. */
  lemma {:induction false} RunStep<K, V>(s: State<K, V>, es: seq<Event<K, V>>, n: nat)
    requires Legal(s, es) && n < |es|
    ensures Enabled(Exec(s, es[..n]), es[n])
    ensures Exec(s, es[..n + 1]) == Step(Exec(s, es[..n]), es[n])
  {
    var m := |es| - 1;
    assert es[..n + 1][..n] == es[..n];
    if n < m {
      assert es[..m][..n] == es[..n] && es[..m][..n + 1] == es[..n + 1];
      RunStep(s, es[..m], n);
    }
  }

  /** Goroutines that ended. */
  ghost function Endings<K, V>(es: seq<Event<K, V>>): nat {
    if es == [] then 0
    else
      var before := Endings(es[..|es| - 1]);
      if es[|es| - 1].Drain? then before + 1 else before
  }

  /**
   One copy per call, in the state: a call that returns adds its one secondary operation to the pending
   ones and changes the secondary in nothing, whatever the primary answered; a panicking call adds none.
   */
  lemma OneCopyPerCall<K, V>(s: State<K, V>, es: seq<Event<K, V>>, n: nat)
    requires Legal(s, es) && n < |es| && es[n].Write?
    ensures var before, after := Exec(s, es[..n]), Exec(s, es[..n + 1]);
            && after.pending ==
              before.pending + (if es[n].answer.Panicked? then multiset{} else multiset{es[n].onSecondary})
            && after.secondary == before.secondary
  {
    RunStep(s, es, n);
  }

  /**
   After any run the pending goroutines are the returned calls and the initially pending ones, less those
   that ended.
   */
  lemma {:induction false} PendingIsCallsLessEndings<K, V>(s: State<K, V>, es: seq<Event<K, V>>)
    requires Legal(s, es)
    ensures |Exec(s, es).pending| + Endings(es) == |s.pending| + Returned(es)
    ensures |Issued(es)| == Returned(es)
  {
    if es != [] {
      PendingIsCallsLessEndings(s, es[..|es| - 1]);
    }
  }

  /** The primary's operations of a history that took effect, in order. */
  ghost function PrimaryOps<K, V>(es: seq<Event<K, V>>): seq<Op<K, V>> {
    if es == [] then []
    else
      var e := es[|es| - 1];
      var before := PrimaryOps(es[..|es| - 1]);
      if e.Write? && e.answer.Applied() then before + [e.onPrimary] else before
  }

  /** The secondary's operations of a history that took effect, in order. */
  ghost function SecondaryOps<K, V>(es: seq<Event<K, V>>): seq<Op<K, V>> {
    if es == [] then []
    else
      var e := es[|es| - 1];
      var before := SecondaryOps(es[..|es| - 1]);
      if e.Drain? && e.answer.Applied() then before + [e.op] else before
  }

  lemma ApplyOneMore<K, V>(store: map<K, V>, ops: seq<Op<K, V>>, op: Op<K, V>)
    ensures ApplyAll(store, ops + [op]) == Apply(ApplyAll(store, ops), op)
  {
  }

  lemma {:induction false} PrimaryIsFold<K, V>(s: State<K, V>, es: seq<Event<K, V>>)
    ensures Exec(s, es).primary == ApplyAll(s.primary, PrimaryOps(es))
  {
    if es != [] {
      var front, e := es[..|es| - 1], es[|es| - 1];
      PrimaryIsFold(s, front);
      if e.Write? {
        ApplyOneMore(s.primary, PrimaryOps(front), e.onPrimary);
      }
    }
  }

  lemma {:induction false} SecondaryIsFold<K, V>(s: State<K, V>, es: seq<Event<K, V>>)
    ensures Exec(s, es).secondary == ApplyAll(s.secondary, SecondaryOps(es))
    ensures multiset(SecondaryOps(es)) == Finished(es, true)
  {
    if es != [] {
      var front, e := es[..|es| - 1], es[|es| - 1];
      SecondaryIsFold(s, front);
      if e.Drain? {
        ApplyOneMore(s.secondary, SecondaryOps(front), e.op);
      }
    }
  }

  /**
   No value from nowhere: an entry of the secondary is the initial one or the effect of an
   operation on that key that some call issued (or that was pending from the start).
   */
  lemma SecondaryProvenance<K, V>(s: State<K, V>, es: seq<Event<K, V>>, k: K)
    requires Legal(s, es)
    ensures At(Exec(s, es).secondary, k) == At(s.secondary, k) ||
            exists o :: o in s.pending + Issued(es) && o.On(k) && At(Exec(s, es).secondary, k) == o.Effect()
  {
    NothingLostNothingInvented(s, es);
    SecondaryIsFold(s, es);
    LastWriterWins(s.secondary, SecondaryOps(es), k);
    match LastOn(SecondaryOps(es), k)
    case None =>
    case Some(o) =>
      assert o in multiset(SecondaryOps(es));
      assert o in s.pending + Issued(es);
  }

  /**
   After any history from equal stores, and with failures of every kind, the stores agree on a
   key exactly when the last write that reached the primary and the last copy that reached the
   secondary leave it alike.
   */
  lemma AgreementIsLastEffects<K, V>(s: State<K, V>, es: seq<Event<K, V>>, k: K)
    requires s.primary == s.secondary
    ensures At(Exec(s, es).primary, k) == At(Exec(s, es).secondary, k) <==>
            (match LastOn(PrimaryOps(es), k) case Some(o) => o.Effect() case None => At(s.primary, k)) ==
            (match LastOn(SecondaryOps(es), k) case Some(o) => o.Effect() case None => At(s.primary, k))
  {
    PrimaryIsFold(s, es);
    SecondaryIsFold(s, es);
    LastWriterWins(s.primary, PrimaryOps(es), k);
    LastWriterWins(s.secondary, SecondaryOps(es), k);
  }

  // ----- Convergence ---------------------------------------------------------

  /** Whatever order the pending goroutines run in, without failure the secondary ends equal to the primary. */
  ghost predicate EveryScheduleConverges<K(!new), V(!new)>(s: State<K, V>) {
    forall order: seq<Op<K, V>> :: multiset(order) == s.pending ==> ApplyAll(s.secondary, order) == s.primary
  }

  /** Each pending operation leaves its key as the primary has it, and the other keys agree already. */
  ghost predicate Settled<K(!new), V(!new)>(s: State<K, V>) {
    && (forall o :: o in s.pending && !o.Reject? ==> At(s.primary, o.key) == o.Effect())
    && (forall k :: (forall o :: o in s.pending ==> !o.On(k)) ==> At(s.primary, k) == At(s.secondary, k))
  }

  lemma {:induction false} SomeOrder<T>(m: multiset<T>) returns (order: seq<T>)
    ensures multiset(order) == m
    decreases |m|
  {
    if m == multiset{} {
      order := [];
    } else {
      var x :| x in m;
      var rest := SomeOrder(m - multiset{x});
      order := rest + [x];
    }
  }

  lemma SettledConverges<K(!new), V(!new)>(s: State<K, V>, order: seq<Op<K, V>>)
    requires Settled(s) && multiset(order) == s.pending
    ensures ApplyAll(s.secondary, order) == s.primary
  {
    forall k
      ensures At(ApplyAll(s.secondary, order), k) == At(s.primary, k)
    {
      LastWriterWins(s.secondary, order, k);
      assert forall o :: o in order <==> o in multiset(order);
    }
    SameEntriesSameStore(ApplyAll(s.secondary, order), s.primary);
  }

  /** The goroutine of `o` may be the last to run. */
  lemma PendingAgrees<K(!new), V(!new)>(s: State<K, V>, o: Op<K, V>)
    requires EveryScheduleConverges(s) && o in s.pending && !o.Reject?
    ensures At(s.primary, o.key) == o.Effect()
  {
    var others := SomeOrder(s.pending - multiset{o});
    assert multiset(others + [o]) == s.pending;
    ApplyOneMore(s.secondary, others, o);
  }

  lemma UntouchedAgrees<K(!new), V(!new)>(s: State<K, V>, k: K)
    requires EveryScheduleConverges(s) && forall o :: o in s.pending ==> !o.On(k)
    ensures At(s.primary, k) == At(s.secondary, k)
  {
    var order := SomeOrder(s.pending);
    assert forall o :: o in order ==> o in multiset(order);
    LastWriterWins(s.secondary, order, k);
  }

  /** The exact condition under which no schedule can make the stores differ. */
  lemma ConvergesIffSettled<K(!new), V(!new)>(s: State<K, V>)
    ensures EveryScheduleConverges(s) <==> Settled(s)
  {
    if Settled(s) {
      forall order: seq<Op<K, V>> | multiset(order) == s.pending
        ensures ApplyAll(s.secondary, order) == s.primary
      {
        SettledConverges(s, order);
      }
    }
    if EveryScheduleConverges(s) {
      forall o | o in s.pending && !o.Reject?
        ensures At(s.primary, o.key) == o.Effect()
      {
        PendingAgrees(s, o);
      }
      forall k | forall o :: o in s.pending ==> !o.On(k)
        ensures At(s.primary, k) == At(s.secondary, k)
      {
        UntouchedAgrees(s, k);
      }
    }
  }

  /** An event that cannot upset a settled state; everything in it is known before the event. */
  ghost predicate Harmless<K(!new), V(!new)>(s: State<K, V>, e: Event<K, V>) {
    match e
    case Write(p, q, answer) =>
      if answer.Panicked? || q.Reject? then true
      else if answer.Applied() then forall o :: o in s.pending && o.On(q.key) ==> o.Effect() == q.Effect()
      else At(s.primary, q.key) == q.Effect()
    case Drain(o, answer) =>
      || answer.Applied() || o.Reject?
      || (exists p :: p in s.pending - multiset{o} && p.On(o.key))
      || At(s.secondary, o.key) == o.Effect()
  }

  /** Both stores understand every call alike. */
  ghost predicate SameMeaning<K, V>(e: Event<K, V>) {
    e.Write? ==> e.onPrimary == e.onSecondary
  }

  lemma WriteStaysSettled<K(!new), V(!new)>(s: State<K, V>, e: Event<K, V>)
    requires Settled(s) && Enabled(s, e) && e.Write? && SameMeaning(e)
    ensures Settled(Step(s, e)) <==> Harmless(s, e)
  {
  }

  lemma DrainStaysSettled<K(!new), V(!new)>(s: State<K, V>, e: Event<K, V>)
    requires Settled(s) && Enabled(s, e) && e.Drain?
    ensures Settled(Step(s, e)) <==> Harmless(s, e)
  {
  }

  ghost predicate AllHarmless<K(!new), V(!new)>(s: State<K, V>, es: seq<Event<K, V>>) {
    forall n :: 0 <= n < |es| ==> Harmless(Exec(s, es[..n]), es[n])
  }

  lemma EventKeepsSettled<K(!new), V(!new)>(s: State<K, V>, es: seq<Event<K, V>>, n: nat)
    requires Legal(s, es) && n < |es| && SameMeaning(es[n])
    requires Settled(Exec(s, es[..n]))
    ensures Settled(Exec(s, es[..n + 1])) <==> Harmless(Exec(s, es[..n]), es[n])
  {
    RunStep(s, es, n);
    if es[n].Write? {
      WriteStaysSettled(Exec(s, es[..n]), es[n]);
    } else {
      DrainStaysSettled(Exec(s, es[..n]), es[n]);
    }
  }

  lemma {:induction false} HarmlessStaysSettled<K(!new), V(!new)>(s: State<K, V>, es: seq<Event<K, V>>, n: nat)
    requires Settled(s) && Legal(s, es) && AllHarmless(s, es) && n <= |es|
    requires forall e :: e in es ==> SameMeaning(e)
    ensures Settled(Exec(s, es[..n]))
  {
    if n > 0 {
      HarmlessStaysSettled(s, es, n - 1);
      assert es[n - 1] in es && Harmless(Exec(s, es[..n - 1]), es[n - 1]);
      EventKeepsSettled(s, es, n - 1);
    }
  }

  /**
   Convergence over whole runs: a run whose calls mean the same to both stores keeps every state
   settled exactly when each of its events is harmless at its moment.
   */
  lemma SettledRuns<K(!new), V(!new)>(s: State<K, V>, es: seq<Event<K, V>>)
    requires Settled(s) && Legal(s, es)
    requires forall e :: e in es ==> SameMeaning(e)
    ensures (forall n :: 0 <= n <= |es| ==> Settled(Exec(s, es[..n]))) <==> AllHarmless(s, es)
  {
    if AllHarmless(s, es) {
      forall n | 0 <= n <= |es|
        ensures Settled(Exec(s, es[..n]))
      {
        HarmlessStaysSettled(s, es, n);
      }
    }
    if forall n :: 0 <= n <= |es| ==> Settled(Exec(s, es[..n])) {
      forall n | 0 <= n < |es|
        ensures Harmless(Exec(s, es[..n]), es[n])
      {
        EventKeepsSettled(s, es, n);
      }
    }
  }

  /** No store call fails and no two writes to one key are under way together. */
  ghost predicate Disciplined<K(!new), V(!new)>(s: State<K, V>, es: seq<Event<K, V>>) {
    forall n :: 0 <= n < |es| ==>
      && SameMeaning(es[n])
      && es[n].answer.Applied()
      && (es[n].Write? && !es[n].onSecondary.Reject? ==>
            forall o :: o in Exec(s, es[..n]).pending ==> !o.On(es[n].onSecondary.key))
  }

  /** Secondary convergence: from equal stores, a disciplined run ends equal once nothing is pending. */
  lemma SecondaryConverges<K(!new), V(!new)>(s: State<K, V>, es: seq<Event<K, V>>)
    requires s.primary == s.secondary && s.pending == multiset{}
    requires Legal(s, es) && Disciplined(s, es)
    ensures EveryScheduleConverges(Exec(s, es))
    ensures Exec(s, es).pending == multiset{} ==> Exec(s, es).secondary == Exec(s, es).primary
  {
    assert Settled(s);
    assert AllHarmless(s, es);
    SettledRuns(s, es);
    assert es[..|es|] == es;
    assert Settled(Exec(s, es[..|es|]));
    ConvergesIffSettled(Exec(s, es));
    if Exec(s, es).pending == multiset{} {
      SettledConverges(Exec(s, es), []);
    }
  }

  /** A panicking goroutine ends the process; nothing else does, a panicking call included. */
  lemma PanicEndsProcess<K, V>(s: State<K, V>, e: Event<K, V>, next: Event<K, V>)
    requires Enabled(s, e)
    ensures Step(s, e).alive <==> !(e.Drain? && e.answer == Panicked)
    ensures !Step(s, e).alive ==> !Enabled(Step(s, e), next)
  {
  }

  lemma OneMoreEvent<K, V>(s: State<K, V>, es: seq<Event<K, V>>, e: Event<K, V>)
    requires Legal(s, es) && Enabled(Exec(s, es), e)
    ensures Legal(s, es + [e]) && Exec(s, es + [e]) == Step(Exec(s, es), e)
  {
  }

  /** The states of ReorderedCopiesDiverge. */
  lemma ReorderedStates<K, V>(k: K, v: V)
    ensures var s := State(map[], map[], multiset{}, true);
            var c, d := Put(k, v), Remove(k);
            && Step(Step(s, Write(c, c, Done)), Write(d, d, Done)) == State(map[], map[], multiset{c, d}, true)
            && Step(State(map[], map[], multiset{c, d}, true), Drain(d, Done)) == State(map[], map[], multiset{c}, true)
            && Step(State(map[], map[], multiset{c}, true), Drain(c, Done)) ==
              State(map[], map[k := v], multiset{}, true)
  {
  }

  lemma BothWritten<K, V>(k: K, v: V)
    ensures var s := State(map[], map[], multiset{}, true);
            var c, d := Put(k, v), Remove(k);
            var es := [Write(c, c, Done), Write(d, d, Done)];
            Legal(s, es) && Exec(s, es) == State(map[], map[], multiset{c, d}, true)
  {
    var s: State<K, V> := State(map[], map[], multiset{}, true);
    var c, d := Put(k, v), Remove(k);
    var e0, e1 := Write(c, c, Done), Write(d, d, Done);
    ReorderedStates(k, v);
    OneMoreEvent(s, [], e0);
    assert [] + [e0] == [e0];
    OneMoreEvent(s, [e0], e1);
    assert [e0] + [e1] == [e0, e1];
  }

  /**
   Without the discipline the stores can part for good: a create and a delete of one key, both
   successful everywhere, copied in the opposite order.
   */
  lemma ReorderedCopiesDiverge<K, V>(k: K, v: V)
    ensures var s := State(map[], map[], multiset{}, true);
            var c, d := Put(k, v), Remove(k);
            var es := [Write(c, c, Done), Write(d, d, Done), Drain(d, Done), Drain(c, Done)];
            && Legal(s, es)
            && Exec(s, es).pending == multiset{}
            && Exec(s, es).primary == map[] && Exec(s, es).secondary == map[k := v]
  {
    var s: State<K, V> := State(map[], map[], multiset{}, true);
    var c, d := Put(k, v), Remove(k);
    var written := [Write(c, c, Done), Write(d, d, Done)];
    BothWritten(k, v);
    ReorderedStates(k, v);
    OneMoreEvent(s, written, Drain(d, Done));
    OneMoreEvent(s, written + [Drain(d, Done)], Drain(c, Done));
    assert written + [Drain(d, Done)] + [Drain(c, Done)] ==
           [Write(c, c, Done), Write(d, d, Done), Drain(d, Done), Drain(c, Done)];
  }
}
