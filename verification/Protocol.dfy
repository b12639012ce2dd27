/**
 The four triggers of a reconciliation and the connection flag, as small steps over any number
 of threads: `SafeReconcile` and its callers in internal/reconciliation/reconciliation.go and
 internal/store/hazelcast.go.

 Reading the flag, swapping it, trying the lock and releasing it are separate atomic steps, so
 every interleaving of overlapping handlers is a run of this machine.
 */
module Protocol {

  type Cache = string  // a registered reconciliation

  datatype Pc =
    | Idle
    | BeforeGate(cache: Cache)    // ticker or initial fill, before reading the flag
    | BeforeLock(cache: Cache)    // in SafeReconcile, before TryLock
    | Inside(cache: Cache)        // in reconcile, with the lock
    | Panicking(cache: Cache)     // reconcile panicked, before the deferred functions of SafeReconcile
    | BeforeUnlock(cache: Cache)  // before the deferred Unlock
    | Escaped                     // a panic has left SafeReconcile, before the recover of the Range callback
    | BeforeLoad                  // onConnected, before Load
    | BeforeSwap                  // onConnected, Load saw false
    | BetweenVisits               // onConnected, between two callbacks of Range
    | BeforeDrop                  // onDisconnected, before CompareAndSwap

  /**
   A reconnect sweep: registered at its start, still to visit, tried so far in order, and those whose pass
   panicked.
   */
  datatype Sweep = NoSweep | Sweep(goal: set<Cache>, todo: set<Cache>, tried: seq<Cache>, panicked: set<Cache>)

  /** How a sweep ended: with every callback returning true, or by a callback whose panic escaped. */
  datatype Ended = Ended(goal: set<Cache>, todo: set<Cache>, tried: seq<Cache>, panicked: set<Cache>, escaped: bool)

  datatype Thread = Thread(pc: Pc, sweep: Sweep)

  datatype State = State(
    recovers: bool,            // SafeReconcile has its recover; the source's does
    crashed: bool,             // a panic left a goroutine that has no recover of its own
    connected: bool,
    registered: set<Cache>,
    held: set<Cache>,          // the locks that are taken
    threads: map<nat, Thread>,
    drops: nat,                // disconnects that reset the flag
    sweeps: nat,               // sweeps started
    ended: seq<Ended>)         // sweeps ended

  datatype Event =
    | Register(cache: Cache)
    | Tick(t: nat, cache: Cache)            // periodic or initial trigger
    | MembershipLoss(t: nat, cache: Cache)
    | ConnectedEvent(t: nat)
    | DisconnectedEvent(t: nat)
    | ReadFlag(t: nat)
    | TryLock(t: nat)
    | Return(t: nat)
    | Panic(t: nat)
    | Recover(t: nat)
    | Unlock(t: nat)
    | Unwind(t: nat)                        // without the recover: Unlock, and the panic goes on
    | CutShort(t: nat)                      // the callback recovers, returns false and ends Range
    | Load(t: nat)
    | Swap(t: nat)
    | Visit(t: nat, cache: Cache)
    | EndRange(t: nat)
    | Drop(t: nat)

  // ----- Steps -------------------------------------------------------------------

  predicate Free(s: State, t: nat) {
    t in s.threads ==> s.threads[t].pc.Idle?
  }

  predicate Enabled(s: State, e: Event) {
    !s.crashed &&
    match e
    case Register(_) => true
    case Tick(t, cache) => Free(s, t) && cache in s.registered
    case MembershipLoss(t, cache) => Free(s, t) && cache in s.registered
    case ConnectedEvent(t) => Free(s, t)
    case DisconnectedEvent(t) => Free(s, t)
    case Visit(t, cache) =>
      // Range visits each entry at most once; entries stored meanwhile may be visited too.
      && t in s.threads && s.threads[t].pc.BetweenVisits? && s.threads[t].sweep.Sweep?
      && var sweep := s.threads[t].sweep;
         (cache in sweep.todo || (cache in s.registered && cache !in sweep.goal && cache !in sweep.tried))
    case EndRange(t) =>
      t in s.threads && s.threads[t].pc.BetweenVisits? && s.threads[t].sweep.Sweep? && s.threads[t].sweep.todo == {}
    case _ =>
      && e.t in s.threads
      && var pc := s.threads[e.t].pc;
         match e
         case ReadFlag(_) => pc.BeforeGate?
         case TryLock(_) => pc.BeforeLock?
         case Return(_) => pc.Inside?
         case Panic(_) => pc.Inside?
         case Recover(_) => pc.Panicking? && s.recovers
         case Unlock(_) => pc.BeforeUnlock?
         case Unwind(_) => pc.Panicking? && !s.recovers
         case CutShort(_) => pc.Escaped? && s.threads[e.t].sweep.Sweep?
         case Load(_) => pc.BeforeLoad?
         case Swap(_) => pc.BeforeSwap?
         case Drop(_) => pc.BeforeDrop?
  }

  function At(s: State, t: nat, thread: Thread): State {
    s.(threads := s.threads[t := thread])
  }

  /** Where a thread goes on after SafeReconcile: the next callback of its sweep, or nowhere. */
  function Resume(thread: Thread): Thread {
    thread.(pc := if thread.sweep.Sweep? then BetweenVisits else Idle)
  }

  function EndOf(sweep: Sweep, escaped: bool): Ended
    requires sweep.Sweep?
  {
    Ended(sweep.goal, sweep.todo, sweep.tried, sweep.panicked, escaped)
  }

  function Tried(thread: Thread, cache: Cache): Thread {
    if thread.sweep.Sweep? then thread.(sweep := thread.sweep.(tried := thread.sweep.tried + [cache])) else thread
  }

  function Marked(thread: Thread, cache: Cache): Thread {
    if thread.sweep.Sweep? then thread.(sweep := thread.sweep.(panicked := thread.sweep.panicked + {cache})) else thread
  }

  function Step(s: State, e: Event): State
    requires Enabled(s, e)
  {
    match e
    case Register(cache) => s.(registered := s.registered + {cache})
    case Tick(t, cache) => At(s, t, Thread(BeforeGate(cache), NoSweep))
    case MembershipLoss(t, cache) => At(s, t, Thread(BeforeLock(cache), NoSweep))
    case ConnectedEvent(t) => At(s, t, Thread(BeforeLoad, NoSweep))
    case DisconnectedEvent(t) => At(s, t, Thread(BeforeDrop, NoSweep))
    case ReadFlag(t) =>
      var thread := s.threads[t];
      At(s, t, thread.(pc := if s.connected then BeforeLock(thread.pc.cache) else Idle))
    case TryLock(t) =>
      var cache := s.threads[t].pc.cache;
      var thread := Tried(s.threads[t], cache);
      if cache in s.held then At(s, t, Resume(thread))
      else At(s, t, thread.(pc := Inside(cache))).(held := s.held + {cache})
    case Return(t) => At(s, t, s.threads[t].(pc := BeforeUnlock(s.threads[t].pc.cache)))
    case Panic(t) =>
      var cache := s.threads[t].pc.cache;
      At(s, t, Marked(s.threads[t], cache).(pc := Panicking(cache)))
    case Recover(t) => At(s, t, s.threads[t].(pc := BeforeUnlock(s.threads[t].pc.cache)))
    case Unlock(t) => At(s, t, Resume(s.threads[t])).(held := s.held - {s.threads[t].pc.cache})
    case Unwind(t) =>
      var after := At(s, t, s.threads[t].(pc := Escaped)).(held := s.held - {s.threads[t].pc.cache});
      if s.threads[t].sweep.Sweep? then after else after.(crashed := true)
    case CutShort(t) => At(s, t, Thread(Idle, NoSweep)).(ended := s.ended + [EndOf(s.threads[t].sweep, true)])
    case Load(t) => At(s, t, s.threads[t].(pc := if s.connected then Idle else BeforeSwap))
    case Swap(t) =>
      if s.connected then At(s, t, s.threads[t].(pc := Idle))
      else
        At(s, t, Thread(BetweenVisits, Sweep(s.registered, s.registered, [], {})))
        .(connected := true, sweeps := s.sweeps + 1)
    case Visit(t, cache) =>
      var thread := s.threads[t];
      At(s, t, Thread(BeforeLock(cache), thread.sweep.(todo := thread.sweep.todo - {cache})))
    case EndRange(t) => At(s, t, Thread(Idle, NoSweep)).(ended := s.ended + [EndOf(s.threads[t].sweep, false)])
    case Drop(t) =>
      var after := At(s, t, s.threads[t].(pc := Idle));
      if s.connected then after.(connected := false, drops := s.drops + 1) else after
  }

  /** Right after the client has connected for the first time. */
  predicate Initial(s: State) {
    && s.connected && !s.crashed && s.held == {} && s.threads == map[]
    && s.drops == 0 && s.sweeps == 0 && s.ended == []
  }

  ghost predicate Legal(s: State, es: seq<Event>) {
    es != [] ==>
      var n := |es| - 1;
      Legal(s, es[..n]) && Enabled(Exec(s, es[..n]), es[n])
  }

  ghost function Exec(s: State, es: seq<Event>): State {
    if es == [] then s
    else
      var before := Exec(s, es[..|es| - 1]);
      if Enabled(before, es[|es| - 1]) then Step(before, es[|es| - 1]) else before
  }

  // ----- Invariants -----------------------------------------------------------------

  predicate HasLock(pc: Pc, cache: Cache) {
    (pc.Inside? || pc.Panicking? || pc.BeforeUnlock?) && pc.cache == cache
  }

  ghost predicate Holds(s: State, t: nat, cache: Cache) {
    t in s.threads && HasLock(s.threads[t].pc, cache)
  }

  /** A lock is taken exactly while some thread is between acquire and release, and by one only. */
  ghost predicate MutualExclusion(s: State) {
    && (forall cache :: cache in s.held <==> exists t :: Holds(s, t, cache))
    && (forall cache, t, u :: Holds(s, t, cache) && Holds(s, u, cache) ==> t == u)
  }

  predicate FlagCounts(s: State) {
    s.drops == s.sweeps + if s.connected then 0 else 1
  }

  function Visiting(pc: Pc): set<Cache> {
    if pc.BeforeLock? then {pc.cache} else {}
  }

  function Elements<T>(xs: seq<T>): set<T> {
    set x | x in xs
  }

  ghost predicate Distinct<T>(xs: seq<T>) {
    forall i, j :: 0 <= i < j < |xs| ==> xs[i] != xs[j]
  }

  /** Every entry a sweep must reach has been tried, is being visited, or is still to visit, and only one of these. */
  ghost predicate OnTrack(goal: set<Cache>, todo: set<Cache>, tried: seq<Cache>, visiting: set<Cache>) {
    && goal <= Elements(tried) + visiting + todo && todo <= goal
    && Elements(tried) !! visiting && Elements(tried) !! todo && visiting !! todo
    && Distinct(tried)
  }

  function Last(tried: seq<Cache>): set<Cache> {
    if tried == [] then {} else {tried[|tried| - 1]}
  }

  /** The pass under way is that of the last entry tried. Without the recover only it can have panicked. */
  ghost predicate ThreadOnTrack(recovers: bool, thread: Thread) {
    thread.sweep.Sweep? ==>
      && !thread.pc.BeforeGate?
      && OnTrack(thread.sweep.goal, thread.sweep.todo, thread.sweep.tried, Visiting(thread.pc))
      && (thread.pc.Inside? || thread.pc.Panicking? ==> Last(thread.sweep.tried) == {thread.pc.cache})
      && (thread.pc.Escaped? ==> thread.sweep.tried != [])
      && (!recovers ==>
            thread.sweep.panicked ==
            if thread.pc.Panicking? || thread.pc.Escaped? then Last(thread.sweep.tried) else {})
  }

  ghost predicate SweepsOnTrack(s: State) {
    forall t :: t in s.threads ==> ThreadOnTrack(s.recovers, s.threads[t])
  }

  /** Only a panic that no one recovered inside SafeReconcile ends a sweep early. */
  ghost predicate EndedOnTrack(recovers: bool, r: Ended) {
    && OnTrack(r.goal, r.todo, r.tried, {})
    && (if r.escaped then !recovers && r.tried != [] else r.todo == {})
    && (!recovers ==> r.panicked == if r.escaped then Last(r.tried) else {})
  }

  ghost predicate PanicsContained(s: State) {
    && (forall r :: r in s.ended ==> EndedOnTrack(s.recovers, r))
    && (s.recovers ==> !s.crashed && forall t :: t in s.threads ==> !s.threads[t].pc.Escaped?)
  }

  predicate Of(e: Event, t: nat) {
    !e.Register? && e.t == t
  }

  /** A step moves no other thread. */
  lemma OthersWait(s: State, e: Event, t: nat)
    requires Enabled(s, e) && !Of(e, t)
    ensures t in Step(s, e).threads <==> t in s.threads
    ensures t in s.threads ==> Step(s, e).threads[t] == s.threads[t]
  {
  }

  lemma StepKeepsMutualExclusion(s: State, e: Event)
    requires MutualExclusion(s) && Enabled(s, e)
    ensures MutualExclusion(Step(s, e))
  {
    var s' := Step(s, e);
    if e.Register? {
      assert forall t, cache :: Holds(s', t, cache) == Holds(s, t, cache);
    } else {
      var t := e.t;
      forall u, cache | u != t
        ensures Holds(s', u, cache) == Holds(s, u, cache)
      {
        OthersWait(s, e, u);
      }
      match e
      case TryLock(_) =>
        var cache := s.threads[t].pc.cache;
        assert forall other :: !Holds(s, t, other);
        if cache !in s.held {
          assert Holds(s', t, cache);
          assert forall other :: Holds(s', t, other) ==> other == cache;
          OneMoreHolder(s, s', t, cache);
        } else {
          SameHolders(s, s', t);
        }
      case Unlock(_) =>
        OneHolderLess(s, s', t, s.threads[t].pc.cache);
      case Unwind(_) =>
        OneHolderLess(s, s', t, s.threads[t].pc.cache);
      case _ =>
        SameHolders(s, s', t);
    }
  }

  lemma SameHolders(s: State, s': State, t: nat)
    requires MutualExclusion(s) && s'.held == s.held
    requires forall u, cache :: u != t ==> Holds(s', u, cache) == Holds(s, u, cache)
    requires forall cache :: Holds(s', t, cache) == Holds(s, t, cache)
    ensures MutualExclusion(s')
  {
  }

  lemma OneMoreHolder(s: State, s': State, t: nat, cache: Cache)
    requires MutualExclusion(s) && cache !in s.held && s'.held == s.held + {cache}
    requires forall u, other :: u != t ==> Holds(s', u, other) == Holds(s, u, other)
    requires forall other :: !Holds(s, t, other)
    requires forall other :: Holds(s', t, other) <==> other == cache
    ensures MutualExclusion(s')
  {
    forall other
      ensures other in s'.held <==> exists u :: Holds(s', u, other)
    {
      if other in s.held {
        var u :| Holds(s, u, other);
        assert Holds(s', u, other);
      }
      if other == cache {
        assert Holds(s', t, other);
      }
      if u :| Holds(s', u, other) {
        assert u == t || Holds(s, u, other);
      }
    }
  }

  lemma OneHolderLess(s: State, s': State, t: nat, cache: Cache)
    requires MutualExclusion(s) && Holds(s, t, cache) && s'.held == s.held - {cache}
    requires forall u, other :: u != t ==> Holds(s', u, other) == Holds(s, u, other)
    requires forall other :: Holds(s, t, other) ==> other == cache
    requires forall other :: !Holds(s', t, other)
    ensures MutualExclusion(s')
  {
  }

  lemma TriedOneMore(thread: Thread, cache: Cache)
    requires thread.pc == BeforeLock(cache) && thread.sweep.Sweep?
    requires OnTrack(thread.sweep.goal, thread.sweep.todo, thread.sweep.tried, Visiting(thread.pc))
    ensures var sweep := Tried(thread, cache).sweep;
            OnTrack(sweep.goal, sweep.todo, sweep.tried, {}) && Last(sweep.tried) == {cache}
  {
    var tried := thread.sweep.tried;
    assert Elements(tried + [cache]) == Elements(tried) + {cache};
    assert forall i :: 0 <= i < |tried| ==> tried[i] in Elements(tried);
  }

  lemma OwnStepOnTrack(s: State, e: Event)
    requires Enabled(s, e) && !e.Register? && (e.t in s.threads ==> ThreadOnTrack(s.recovers, s.threads[e.t]))
    ensures e.t in Step(s, e).threads && ThreadOnTrack(s.recovers, Step(s, e).threads[e.t])
  {
    if e.TryLock? && s.threads[e.t].sweep.Sweep? {
      TriedOneMore(s.threads[e.t], s.threads[e.t].pc.cache);
    }
  }

  lemma StepKeepsSweepsOnTrack(s: State, e: Event)
    requires SweepsOnTrack(s) && Enabled(s, e)
    ensures SweepsOnTrack(Step(s, e))
  {
    forall t | t in Step(s, e).threads
      ensures ThreadOnTrack(s.recovers, Step(s, e).threads[t])
    {
      if Of(e, t) {
        OwnStepOnTrack(s, e);
      } else {
        OthersWait(s, e, t);
      }
    }
  }

  lemma StepContainsPanics(s: State, e: Event)
    requires SweepsOnTrack(s) && PanicsContained(s) && Enabled(s, e)
    ensures PanicsContained(Step(s, e))
  {
  }

  ghost predicate Invariant(s: State) {
    MutualExclusion(s) && FlagCounts(s) && SweepsOnTrack(s) && PanicsContained(s)
  }

  lemma StepKeepsInvariant(s: State, e: Event)
    requires Invariant(s) && Enabled(s, e)
    ensures Invariant(Step(s, e))
  {
    StepKeepsMutualExclusion(s, e);
    StepKeepsSweepsOnTrack(s, e);
    StepContainsPanics(s, e);
  }

  lemma {:induction false} RunKeepsInvariant(s: State, es: seq<Event>)
    requires Invariant(s) && Legal(s, es)
    ensures Invariant(Exec(s, es))
  {
    if es != [] {
      RunKeepsInvariant(s, es[..|es| - 1]);
      StepKeepsInvariant(Exec(s, es[..|es| - 1]), es[|es| - 1]);
    }
  }

  /** What every reachable state satisfies. */
  lemma Reachable(s: State, es: seq<Event>)
    requires Initial(s) && Legal(s, es)
    ensures Invariant(Exec(s, es))
  {
    assert forall t, cache :: !Holds(s, t, cache);
    RunKeepsInvariant(s, es);
  }

  lemma OneMoreStep(s: State, es: seq<Event>, e: Event)
    requires Legal(s, es) && Enabled(Exec(s, es), e)
    ensures Legal(s, es + [e]) && Exec(s, es + [e]) == Step(Exec(s, es), e)
  {
  }

  // ----- Mutual exclusion of passes ----------------------------------------------------

  /** In every reachable state at most one thread is inside `reconcile` of a reconciliation. */
  lemma AtMostOneInside(s: State, es: seq<Event>, t: nat, u: nat, cache: Cache)
    requires Initial(s) && Legal(s, es)
    requires var now := Exec(s, es);
             && t in now.threads && now.threads[t].pc == Inside(cache)
             && u in now.threads && now.threads[u].pc == Inside(cache)
    ensures t == u
  {
    Reachable(s, es);
    assert Holds(Exec(s, es), t, cache) && Holds(Exec(s, es), u, cache);
  }

  /** A trigger is skipped exactly when another thread is between acquire and release at that step. */
  lemma SkippedIffAnotherHolds(s: State, es: seq<Event>, t: nat)
    requires Initial(s) && Legal(s, es) && Enabled(Exec(s, es), TryLock(t))
    ensures var now := Exec(s, es);
            var cache := now.threads[t].pc.cache;
            !Step(now, TryLock(t)).threads[t].pc.Inside? <==> exists u :: u != t && Holds(now, u, cache)
  {
    Reachable(s, es);
    var now := Exec(s, es);
    var cache := now.threads[t].pc.cache;
    assert cache in now.held <==> exists u :: Holds(now, u, cache);
    assert !Holds(now, t, cache);
  }

  lemma UnlockFrees(s: State, t: nat, cache: Cache)
    requires Invariant(s) && !s.crashed && t in s.threads && s.threads[t].pc == BeforeUnlock(cache)
    ensures Released(s, Step(s, Unlock(t)), t, cache)
  {
    StepKeepsMutualExclusion(s, Unlock(t));
    var after := Step(s, Unlock(t));
    assert cache !in after.held;
    forall u
      ensures !Holds(after, u, cache)
    {
      assert cache in after.held <==> exists v :: Holds(after, v, cache);
    }
  }

  /** `cache` has been released by `t`, and nothing else has changed for other threads. */
  ghost predicate Released(before: State, after: State, t: nat, cache: Cache) {
    && after.held == before.held - {cache}
    && (forall u :: !Holds(after, u, cache))
    && (forall u :: u != t && u in before.threads ==> u in after.threads && after.threads[u] == before.threads[u])
  }

  /** `t` goes on with the rest of its sweep, or is done. */
  predicate Resumed(before: State, after: State, t: nat) {
    && t in before.threads && t in after.threads
    && after.threads[t].pc == (if before.threads[t].sweep.Sweep? then BetweenVisits else Idle)
    && (before.threads[t].sweep.Sweep? ==>
          after.threads[t].sweep.Sweep? && after.threads[t].sweep.todo == before.threads[t].sweep.todo)
  }

  /**
   No lock leaks when a pass returns: whatever state a run has reached, the holder's own next steps
   release the lock and disturb no other thread.
   */
  lemma ReturnReleases(s: State, es: seq<Event>, t: nat, cache: Cache)
    requires Initial(s) && Legal(s, es) && !Exec(s, es).crashed
    requires t in Exec(s, es).threads && Exec(s, es).threads[t].pc == Inside(cache)
    ensures var now, rest := Exec(s, es), [Return(t), Unlock(t)];
            Legal(now, rest) && Released(now, Exec(now, rest), t, cache) && Resumed(now, Exec(now, rest), t)
  {
    Reachable(s, es);
    FromReturn(Exec(s, es), t, cache);
  }

  lemma FromReturn(now: State, t: nat, cache: Cache)
    requires Invariant(now) && !now.crashed && t in now.threads && now.threads[t].pc == Inside(cache)
    ensures var rest := [Return(t), Unlock(t)];
            Legal(now, rest) && Released(now, Exec(now, rest), t, cache) && Resumed(now, Exec(now, rest), t)
  {
    var first := [] + [Return(t)];
    OneMoreStep(now, [], Return(t));
    RunKeepsInvariant(now, first);
    UnlockFrees(Exec(now, first), t, cache);
    OneMoreStep(now, first, Unlock(t));
    assert first + [Unlock(t)] == [Return(t), Unlock(t)];
  }

  lemma {:induction false} SameRecover(s: State, es: seq<Event>)
    ensures Exec(s, es).recovers == s.recovers
  {
    if es != [] {
      SameRecover(s, es[..|es| - 1]);
    }
  }

  /** Nor when it panics: the panic is recovered and the lock released before anything else of the thread. */
  lemma PanicReleases(s: State, es: seq<Event>, t: nat, cache: Cache)
    requires Initial(s) && Legal(s, es) && s.recovers
    requires t in Exec(s, es).threads && Exec(s, es).threads[t].pc == Inside(cache)
    ensures var now, rest := Exec(s, es), [Panic(t), Recover(t), Unlock(t)];
            Legal(now, rest) && Released(now, Exec(now, rest), t, cache) && Resumed(now, Exec(now, rest), t)
  {
    Reachable(s, es);
    SameRecover(s, es);
    FromPanic(Exec(s, es), t, cache);
  }

  lemma FromPanic(now: State, t: nat, cache: Cache)
    requires Invariant(now) && now.recovers && t in now.threads && now.threads[t].pc == Inside(cache)
    ensures var rest := [Panic(t), Recover(t), Unlock(t)];
            Legal(now, rest) && Released(now, Exec(now, rest), t, cache) && Resumed(now, Exec(now, rest), t)
  {
    var first := [] + [Panic(t)];
    OneMoreStep(now, [], Panic(t));
    OneMoreStep(now, first, Recover(t));
    var second := first + [Recover(t)];
    RunKeepsInvariant(now, second);
    UnlockFrees(Exec(now, second), t, cache);
    OneMoreStep(now, second, Unlock(t));
    assert second + [Unlock(t)] == [Panic(t), Recover(t), Unlock(t)];
  }

  // ----- The reconnect protocol -----------------------------------------------------------

  /**
   Each drop gives at most one sweep: in every reachable state, effective disconnects minus started
   sweeps is 0 when connected and 1 when not.
   */
  lemma DropsMinusSweeps(s: State, es: seq<Event>)
    requires Initial(s) && Legal(s, es)
    ensures var now := Exec(s, es); now.drops - now.sweeps == if now.connected then 0 else 1
  {
    Reachable(s, es);
  }

  /**
   No panic of a pass ends the process or a sweep early, and every ended sweep has tried what was
   registered at its start.
   */
  lemma SweepTriesAll(s: State, es: seq<Event>)
    requires Initial(s) && Legal(s, es) && s.recovers
    ensures !Exec(s, es).crashed
    ensures forall r :: r in Exec(s, es).ended ==> !r.escaped && r.goal <= Elements(r.tried)
  {
    Reachable(s, es);
    SameRecover(s, es);
    forall r | r in Exec(s, es).ended
      ensures !r.escaped && r.goal <= Elements(r.tried)
    {
      assert EndedOnTrack(true, r);
    }
  }

  /** The entries that Range visits, in order, when the callbacks for `escaping` end in a recovered panic. */
  function RangeVisits(order: seq<Cache>, escaping: set<Cache>): seq<Cache> {
    if order == [] then []
    else if order[0] in escaping then [order[0]]  // the recovered callback returns false
    else [order[0]] + RangeVisits(order[1..], escaping)
  }

  /** Range reaches every entry exactly when no callback before the last one lets a panic escape. */
  lemma {:induction false} RangeReachesAllIff(order: seq<Cache>, escaping: set<Cache>)
    ensures RangeVisits(order, escaping) <= order
    ensures RangeVisits(order, escaping) == order <==> forall i :: 0 <= i < |order| - 1 ==> order[i] !in escaping
  {
    if order != [] {
      var rest := order[1..];
      RangeReachesAllIff(rest, escaping);
      assert order == [order[0]] + rest;
      assert forall i :: 0 < i < |order| ==> order[i] == rest[i - 1];
      if RangeVisits(order, escaping) == order && order[0] !in escaping {
        assert RangeVisits(order, escaping)[1..] == rest;
      }
      if order[0] !in escaping && forall i :: 0 <= i < |order| - 1 ==> order[i] !in escaping {
        assert forall i :: 0 <= i < |rest| - 1 ==> rest[i] == order[i + 1];
      }
    }
  }

  lemma FirstElement<T>(xs: seq<T>)
    requires xs != []
    ensures xs[0] in Elements(xs)
  {
  }

  lemma {:induction false} RangeStopsAt(front: seq<Cache>, last: Cache, rest: seq<Cache>)
    requires last !in front
    ensures RangeVisits(front + [last] + rest, {last}) == front + [last]
  {
    var order := front + [last] + rest;
    if front != [] {
      assert order[1..] == front[1..] + [last] + rest;
      RangeStopsAt(front[1..], last, rest);
      assert [front[0]] + (front[1..] + [last]) == front + [last];
    }
  }

  /**
   With or without the recover in SafeReconcile, what a sweep tried is what Range visits of the entries in
   its order, when the callbacks of those whose passes panicked, and only without the recover, let the
   panic escape. Of the reconciliations it had to reach, it tried exactly those it did not leave.
   */
  lemma SweepIsRange(s: State, es: seq<Event>, r: Ended, left: seq<Cache>)
    requires Initial(s) && Legal(s, es) && r in Exec(s, es).ended
    requires Elements(left) == r.todo
    ensures r.tried == RangeVisits(r.tried + left, if s.recovers then {} else r.panicked)
    ensures r.goal * Elements(r.tried) == r.goal - r.todo
    ensures r.goal <= Elements(r.tried) <==> r.todo == {}
    ensures r.escaped ==> !s.recovers
  {
    Reachable(s, es);
    SameRecover(s, es);
    assert EndedOnTrack(s.recovers, r);
    var tried := r.tried;
    if r.escaped {
      var front, last := tried[..|tried| - 1], tried[|tried| - 1];
      assert tried == front + [last];
      RangeStopsAt(front, last, left);
    } else {
      if left != [] {
        FirstElement(left);
      }
      RangeReachesAllIff(tried, {});
      assert tried + left == tried;
    }
  }

  lemma UnwindFrees(s: State, t: nat, cache: Cache)
    requires Invariant(s) && !s.recovers && !s.crashed && t in s.threads && s.threads[t].pc == Panicking(cache)
    ensures Released(s, Step(s, Unwind(t)), t, cache)
  {
    StepKeepsMutualExclusion(s, Unwind(t));
    var after := Step(s, Unwind(t));
    assert cache !in after.held;
    forall u
      ensures !Holds(after, u, cache)
    {
      assert cache in after.held <==> exists v :: Holds(after, v, cache);
    }
  }

  lemma FromUnrecoveredPanic(now: State, t: nat, cache: Cache)
    requires Invariant(now) && !now.recovers && !now.crashed
    requires t in now.threads && now.threads[t].pc == Inside(cache)
    ensures var rest := [Panic(t), Unwind(t)];
            && Legal(now, rest) && Released(now, Exec(now, rest), t, cache)
            && Exec(now, rest).threads[t] == Marked(now.threads[t], cache).(pc := Escaped)
            && Exec(now, rest).ended == now.ended
            && (Exec(now, rest).crashed <==> now.threads[t].sweep.NoSweep?)
  {
    var first := [] + [Panic(t)];
    OneMoreStep(now, [], Panic(t));
    RunKeepsInvariant(now, first);
    UnwindFrees(Exec(now, first), t, cache);
    OneMoreStep(now, first, Unwind(t));
    assert first + [Unwind(t)] == [Panic(t), Unwind(t)];
  }

  /**
   What the recover is for. Without it, a panicking pass of any reachable state still releases its lock;
   but outside a sweep it stops everything for good, and in a sweep the thread's next step ends the sweep
   with exactly the entries untried that were still to visit.
   */
  lemma PanicWithoutRecover(s: State, es: seq<Event>, t: nat, cache: Cache)
    requires Initial(s) && Legal(s, es) && !s.recovers && !Exec(s, es).crashed
    requires t in Exec(s, es).threads && Exec(s, es).threads[t].pc == Inside(cache)
    ensures var now, rest := Exec(s, es), [Panic(t), Unwind(t)];
            var after := Exec(now, rest);
            && Legal(now, rest) && Released(now, after, t, cache)
            && (now.threads[t].sweep.NoSweep? ==> forall e :: !Enabled(after, e))
            && (now.threads[t].sweep.Sweep? ==>
                  && Enabled(after, CutShort(t)) && |Step(after, CutShort(t)).ended| == |now.ended| + 1
                  && var r := Step(after, CutShort(t)).ended[|now.ended|];
                     r.goal - Elements(r.tried) == now.threads[t].sweep.todo)
  {
    Reachable(s, es);
    SameRecover(s, es);
    var now := Exec(s, es);
    FromUnrecoveredPanic(now, t, cache);
    assert ThreadOnTrack(now.recovers, now.threads[t]);
  }

  // ----- When the flag and the sweeps come out right ---------------------------------------

  /** After the i-th event some handler swapped the flag up. */
  ghost predicate SwappedAfter(es: seq<Event>, i: nat) {
    exists j :: i < j < |es| && es[j].Swap?
  }

  /** After the i-th event some connect handler looked at the flag or swapped it. */
  ghost predicate LookedAfter(es: seq<Event>, i: nat) {
    exists j :: i < j < |es| && (es[j].Swap? || es[j].Load?)
  }

  lemma LaterEvent(es: seq<Event>, i: nat)
    requires i < |es| - 1
    ensures var front, last := es[..|es| - 1], es[|es| - 1];
            && (SwappedAfter(es, i) <==> SwappedAfter(front, i) || last.Swap?)
            && (LookedAfter(es, i) <==> LookedAfter(front, i) || last.Swap? || last.Load?)
  {
    var front, last := es[..|es| - 1], es[|es| - 1];
    assert forall j :: i < j < |front| ==> front[j] == es[j];
    if SwappedAfter(front, i) {
      var j :| i < j < |front| && front[j].Swap?;
      assert es[j].Swap?;
    }
    if LookedAfter(front, i) {
      var j :| i < j < |front| && (front[j].Swap? || front[j].Load?);
      assert es[j].Swap? || es[j].Load?;
    }
  }

  /** The only steps that move the flag. */
  lemma FlagStep(s: State, e: Event)
    requires Enabled(s, e)
    ensures Step(s, e).connected == if e.Drop? then false else if e.Swap? then true else s.connected
  {
  }

  lemma SwapsOneMore(es: seq<Event>, up: bool)
    requires es != []
    requires up <==> forall i :: 0 <= i < |es| - 1 && es[i].Drop? ==> SwappedAfter(es[..|es| - 1], i)
    ensures (if es[|es| - 1].Drop? then false else if es[|es| - 1].Swap? then true else up) <==>
            forall i :: 0 <= i < |es| && es[i].Drop? ==> SwappedAfter(es, i)
  {
    forall i | 0 <= i < |es| - 1
      ensures SwappedAfter(es, i) <==> SwappedAfter(es[..|es| - 1], i) || es[|es| - 1].Swap?
    {
      LaterEvent(es, i);
    }
    assert !SwappedAfter(es, |es| - 1);
  }

  /** In every run the flag is up exactly when each disconnect handler's step was followed by a swap. */
  lemma {:induction false} FlagUpIffSwappedAfterDrops(s: State, es: seq<Event>)
    requires Initial(s) && Legal(s, es)
    ensures Exec(s, es).connected <==> forall i :: 0 <= i < |es| && es[i].Drop? ==> SwappedAfter(es, i)
  {
    if es != [] {
      var front, last := es[..|es| - 1], es[|es| - 1];
      FlagUpIffSwappedAfterDrops(s, front);
      assert forall i :: 0 <= i < |front| ==> front[i] == es[i];
      SwapsOneMore(es, Exec(s, front).connected);
      FlagStep(Exec(s, front), last);
    }
  }

  /** Some connect handler has seen the flag down and has not swapped it yet. */
  ghost predicate SwapAhead(s: State) {
    exists t :: t in s.threads && s.threads[t].pc.BeforeSwap?
  }

  /** A look is followed up: by a raised flag or by the handler's swap. */
  lemma LookFollowedUp(s: State, e: Event)
    requires Enabled(s, e) && !e.Drop?
    requires e.Load? || e.Swap? || s.connected || SwapAhead(s)
    ensures Step(s, e).connected || SwapAhead(Step(s, e))
  {
    var after := Step(s, e);
    if e.Load? && !s.connected {
      assert after.threads[e.t].pc.BeforeSwap?;
    } else if !e.Load? && !e.Swap? && !s.connected {
      var t :| t in s.threads && s.threads[t].pc.BeforeSwap?;
      assert t in after.threads && after.threads[t].pc.BeforeSwap?;
    }
  }

  lemma LooksOneLess(es: seq<Event>)
    requires es != [] && forall i :: 0 <= i < |es| && es[i].Drop? ==> LookedAfter(es, i)
    ensures var front, last := es[..|es| - 1], es[|es| - 1];
            && !last.Drop?
            && (last.Load? || last.Swap? || forall i :: 0 <= i < |front| && front[i].Drop? ==> LookedAfter(front, i))
  {
    var front, last := es[..|es| - 1], es[|es| - 1];
    assert !LookedAfter(es, |es| - 1);
    forall i | 0 <= i < |front| && front[i].Drop? && !last.Load? && !last.Swap?
      ensures LookedAfter(front, i)
    {
      LaterEvent(es, i);
    }
  }

  lemma {:induction false} LookedAfterDrops(s: State, es: seq<Event>)
    requires Initial(s) && Legal(s, es)
    requires forall i :: 0 <= i < |es| && es[i].Drop? ==> LookedAfter(es, i)
    ensures Exec(s, es).connected || SwapAhead(Exec(s, es))
  {
    if es != [] {
      var front, last := es[..|es| - 1], es[|es| - 1];
      LooksOneLess(es);
      if !last.Load? && !last.Swap? {
        LookedAfterDrops(s, front);
      }
      LookFollowedUp(Exec(s, front), last);
    }
  }

  /**
   At rest, with no connect handler between its look and its swap, the flag is up exactly when some
   connect handler took a look or a swap after the last disconnect handler's step. A connect handler
   that looked before it is lost.
   */
  lemma FlagUpIffLookedAfterDrops(s: State, es: seq<Event>)
    requires Initial(s) && Legal(s, es) && !SwapAhead(Exec(s, es))
    ensures Exec(s, es).connected <==> forall i :: 0 <= i < |es| && es[i].Drop? ==> LookedAfter(es, i)
  {
    FlagUpIffSwappedAfterDrops(s, es);
    if forall i :: 0 <= i < |es| && es[i].Drop? ==> LookedAfter(es, i) {
      LookedAfterDrops(s, es);
    }
  }

  /** The n-th event of a legal run, as a step between two states of the run. */
  lemma {:induction false} RunStep(s: State, es: seq<Event>, n: nat)
    requires Legal(s, es) && n < |es|
    ensures Enabled(Exec(s, es[..n]), es[n])
    ensures Exec(s, es[..n + 1]) == Step(Exec(s, es[..n]), es[n])
  {
    var m := |es| - 1;
    assert es[..n + 1][..n] == es[..n];
    if n < m {
      assert es[..m][..n] == es[..n] && es[..m][..n + 1] == es[..n + 1];
      RunStep(s, es[..m], n);
    } else {
      assert es[..n + 1] == es;
    }
  }

  /** Only a thread's own events move it. */
  lemma {:induction false} ThreadWaits(s: State, es: seq<Event>, t: nat, first: nat, last: nat)
    requires Legal(s, es) && first <= last <= |es| && t in Exec(s, es[..first]).threads
    requires forall k :: first <= k < last ==> !Of(es[k], t)
    ensures t in Exec(s, es[..last]).threads && Exec(s, es[..last]).threads[t] == Exec(s, es[..first]).threads[t]
    decreases last
  {
    if first < last {
      ThreadWaits(s, es, t, first, last - 1);
      RunStep(s, es, last - 1);
      OthersWait(Exec(s, es[..last - 1]), es[last - 1], t);
    }
  }

  /**
   One connect handler, in any interleaving: its next own step after the look starts a sweep exactly
   when the flag was down at the look and is still down at that step.
   */
  lemma HandlerSweepsIff(s: State, es: seq<Event>, t: nat, look: nat, next: nat)
    requires Legal(s, es) && look < next < |es|
    requires es[look] == Load(t) && Of(es[next], t) && forall k :: look < k < next ==> !Of(es[k], t)
    ensures Exec(s, es[..next + 1]).sweeps == Exec(s, es[..next]).sweeps + 1 <==>
            !Exec(s, es[..look]).connected && !Exec(s, es[..next]).connected
    ensures Exec(s, es[..next + 1]).sweeps == Exec(s, es[..next]).sweeps + 1 ==>
            var after := Exec(s, es[..next + 1]);
            after.connected && t in after.threads && after.threads[t].pc.BetweenVisits?
  {
    RunStep(s, es, look);
    ThreadWaits(s, es, t, look + 1, next);
    RunStep(s, es, next);
  }

  // ----- Where the triggers lead -----------------------------------------------------------

  /** A tick goes on to the lock exactly when the flag is up at its look. */
  lemma TickGoesOnIff(s: State, t: nat, cache: Cache)
    requires !s.crashed && (t in s.threads ==> s.threads[t].pc == Idle) && cache in s.registered
    ensures Enabled(s, Tick(t, cache)) && Enabled(Step(s, Tick(t, cache)), ReadFlag(t))
    ensures Step(Step(s, Tick(t, cache)), ReadFlag(t)) ==
            s.(threads := s.threads[t := Thread(if s.connected then BeforeLock(cache) else Idle, NoSweep)])
  {
  }

  /** A lost member goes to the lock whatever the flag is; a registered cache can be visited, ticked and swept. */
  lemma LostMemberGoesOn(s: State, t: nat, cache: Cache)
    requires !s.crashed && (t in s.threads ==> s.threads[t].pc == Idle)
    ensures Enabled(s, MembershipLoss(t, cache)) <==> cache in s.registered
    ensures Enabled(s, Tick(t, cache)) <==> cache in s.registered
    ensures cache in s.registered ==>
              Step(s, MembershipLoss(t, cache)) == s.(threads := s.threads[t := Thread(BeforeLock(cache), NoSweep)])
    ensures Enabled(s, Register(cache)) && Step(s, Register(cache)) == s.(registered := s.registered + {cache})
  {
  }

  /** A connect handler goes on to its swap exactly when the flag is down at its look. */
  lemma ConnectedLooks(s: State, t: nat)
    requires !s.crashed && (t in s.threads ==> s.threads[t].pc == Idle)
    ensures Enabled(s, ConnectedEvent(t)) && Enabled(Step(s, ConnectedEvent(t)), Load(t))
    ensures Step(Step(s, ConnectedEvent(t)), Load(t)) ==
            s.(threads := s.threads[t := Thread(if s.connected then Idle else BeforeSwap, NoSweep)])
  {
  }

  /** A disconnect handler leaves the flag down, and counts as a drop exactly when it was up. */
  lemma DisconnectedDrops(s: State, t: nat)
    requires !s.crashed && (t in s.threads ==> s.threads[t].pc == Idle)
    ensures Enabled(s, DisconnectedEvent(t)) && Enabled(Step(s, DisconnectedEvent(t)), Drop(t))
    ensures Step(Step(s, DisconnectedEvent(t)), Drop(t)) ==
            s.(threads := s.threads[t := Thread(Idle, NoSweep)], connected := false,
               drops := if s.connected then s.drops + 1 else s.drops)
  {
  }

  /** A swap that finds the flag down starts a sweep over everything registered; each visit goes to a lock. */
  lemma SweepVisits(s: State, t: nat, cache: Cache)
    requires !s.crashed && t in s.threads
    ensures s.threads[t].pc.BeforeSwap? && !s.connected ==>
              Step(s, Swap(t)).threads[t] == Thread(BetweenVisits, Sweep(s.registered, s.registered, [], {}))
    ensures s.threads[t].pc.BetweenVisits? && s.threads[t].sweep.Sweep? && cache in s.threads[t].sweep.todo ==>
              && Enabled(s, Visit(t, cache))
              && var sweep := s.threads[t].sweep;
                 Step(s, Visit(t, cache)).threads[t] ==
                 Thread(BeforeLock(cache), sweep.(todo := sweep.todo - {cache}))
  {
  }

  /** Besides what was registered at its start, a sweep may visit what was registered since, nothing twice. */
  lemma VisitableIff(s: State, t: nat, cache: Cache)
    requires !s.crashed && t in s.threads && s.threads[t].pc == BetweenVisits && s.threads[t].sweep.Sweep?
    requires ThreadOnTrack(s.recovers, s.threads[t])
    ensures var sweep := s.threads[t].sweep;
            Enabled(s, Visit(t, cache)) <==>
            cache in sweep.todo || (cache in s.registered - sweep.goal && cache !in Elements(sweep.tried))
    ensures Enabled(s, EndRange(t)) <==> s.threads[t].sweep.todo == {}
  {
  }

  /** A handler whose work is done leaves its thread free. */
  lemma HandlerEnds(s: State, t: nat)
    requires !s.crashed && t in s.threads
    ensures Enabled(s, EndRange(t)) ==>
              Step(s, EndRange(t)) == s.(threads := s.threads[t := Thread(Idle, NoSweep)],
                                         ended := s.ended + [EndOf(s.threads[t].sweep, false)])
    ensures Enabled(s, CutShort(t)) ==>
              Step(s, CutShort(t)) == s.(threads := s.threads[t := Thread(Idle, NoSweep)],
                                         ended := s.ended + [EndOf(s.threads[t].sweep, true)])
    ensures Enabled(s, Swap(t)) && s.connected ==>
              Step(s, Swap(t)) == s.(threads := s.threads[t := s.threads[t].(pc := Idle)])
  {
  }

  /**
   So the flag follows the order of the handlers' steps, not of the events: a connect handler that
   loads the flag before the disconnect handler resets it is spent, and the flag stays down.
   */
  lemma OvertakingConnectIsLost(s: State)
    requires Initial(s)
    ensures var es := [DisconnectedEvent(0), ConnectedEvent(1), Load(1), Drop(0)];
            && Legal(s, es)
            && !Exec(s, es).connected && Exec(s, es).sweeps == 0
            && (forall t :: t in Exec(s, es).threads ==> Exec(s, es).threads[t].pc.Idle?)
  {
    var es := [DisconnectedEvent(0), ConnectedEvent(1), Load(1), Drop(0)];
    assert [] + [es[0]] == es[..1] && es[..1] + [es[1]] == es[..2];
    assert es[..2] + [es[2]] == es[..3] && es[..3] + [es[3]] == es;
    OneMoreStep(s, [], es[0]);
    OneMoreStep(s, es[..1], es[1]);
    OneMoreStep(s, es[..2], es[2]);
    assert Exec(s, es[..3]).threads == map[0 := Thread(BeforeDrop, NoSweep), 1 := Thread(Idle, NoSweep)];
    OneMoreStep(s, es[..3], es[3]);
  }
}
