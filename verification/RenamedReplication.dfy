/**
 Replication between stores that key the same objects differently: the operations of the secondary are
 those of the primary with their keys renamed, one to one. Everything proved in Replication for stores
 that agree on keys carries over, up to the renaming.
 */
module RenamedReplication {
  import opened Replication

  /** Different keys of the primary become different keys of the secondary. */
  ghost predicate Injective<K>(f: map<K, K>) {
    forall a, b :: a in f && b in f && f[a] == f[b] ==> a == b
  }

  ghost predicate Covered<K, V>(f: map<K, K>, op: Op<K, V>) {
    !op.Reject? ==> op.key in f
  }

  function RenameOp<K, V>(f: map<K, K>, op: Op<K, V>): Op<K, V>
    requires !op.Reject? ==> op.key in f
  {
    match op
    case Put(k, v) => Put(f[k], v)
    case Remove(k) => Remove(f[k])
    case Reject => Reject
  }

  /** The store under the secondary's keys. */
  ghost function Renamed<K, V>(f: map<K, K>, store: map<K, V>): (renamed: map<K, V>)
    requires Injective(f) && store.Keys <= f.Keys
    ensures forall k :: k in f ==> At(renamed, f[k]) == At(store, k)
    ensures forall j :: j in renamed ==> exists k :: k in f && f[k] == j
  {
    map k | k in store :: f[k] := store[k]
  }

  lemma SameRenamed<K, V>(f: map<K, K>, store: map<K, V>, other: map<K, V>)
    requires Injective(f) && store.Keys <= f.Keys
    requires forall k :: k in f ==> At(other, f[k]) == At(store, k)
    requires forall j :: j in other ==> exists k :: k in f && f[k] == j
    ensures Renamed(f, store) == other
  {
    forall j
      ensures At(Renamed(f, store), j) == At(other, j)
    {
      if k :| k in f && f[k] == j {
        assert At(Renamed(f, store), f[k]) == At(store, k);
      }
    }
    SameEntriesSameStore(Renamed(f, store), other);
  }

  /** Renaming commutes with every operation. */
  lemma RenamedApply<K, V>(f: map<K, K>, store: map<K, V>, op: Op<K, V>)
    requires Injective(f) && store.Keys <= f.Keys && Covered(f, op)
    ensures Apply(store, op).Keys <= f.Keys
    ensures Renamed(f, Apply(store, op)) == Apply(Renamed(f, store), RenameOp(f, op))
  {
    var after, other := Apply(store, op), Apply(Renamed(f, store), RenameOp(f, op));
    forall k | k in f
      ensures At(other, f[k]) == At(after, k)
    {
      assert At(Renamed(f, store), f[k]) == At(store, k);
    }
    SameRenamed(f, after, other);
  }

  // ----- Runs ---------------------------------------------------------------------------------

  /** Every call means to the secondary what it means to the primary, under the secondary's key. */
  ghost predicate RenamedMeaning<K, V>(f: map<K, K>, e: Event<K, V>) {
    e.Write? ==> Covered(f, e.onPrimary) && e.onSecondary == RenameOp(f, e.onPrimary)
  }

  ghost function UnderSecondaryKeys<K, V>(f: map<K, K>, s: State<K, V>): State<K, V>
    requires Injective(f) && s.primary.Keys <= f.Keys
  {
    s.(primary := Renamed(f, s.primary))
  }

  function AlignedEvent<K, V>(e: Event<K, V>): Event<K, V> {
    if e.Write? then Write(e.onSecondary, e.onSecondary, e.answer) else e
  }

  /** The run with both stores under the secondary's keys. */
  function Aligned<K, V>(es: seq<Event<K, V>>): (aligned: seq<Event<K, V>>)
    ensures |aligned| == |es|
    ensures forall n :: 0 <= n < |es| ==> aligned[n] == AlignedEvent(es[n])
  {
    seq(|es|, n requires 0 <= n < |es| => AlignedEvent(es[n]))
  }

  lemma AlignedStep<K, V>(f: map<K, K>, s: State<K, V>, e: Event<K, V>)
    requires Injective(f) && s.primary.Keys <= f.Keys && RenamedMeaning(f, e) && Enabled(s, e)
    ensures Step(s, e).primary.Keys <= f.Keys
    ensures Enabled(UnderSecondaryKeys(f, s), AlignedEvent(e))
    ensures Step(UnderSecondaryKeys(f, s), AlignedEvent(e)) == UnderSecondaryKeys(f, Step(s, e))
  {
    if e.Write? {
      RenamedApply(f, s.primary, e.onPrimary);
    }
  }

  /** A run with different keys is, step by step, a run with the secondary's keys on both sides. */
  lemma {:induction false} AlignedRun<K, V>(f: map<K, K>, s: State<K, V>, es: seq<Event<K, V>>)
    requires Injective(f) && s.primary.Keys <= f.Keys && Legal(s, es)
    requires forall n :: 0 <= n < |es| ==> RenamedMeaning(f, es[n])
    ensures Exec(s, es).primary.Keys <= f.Keys
    ensures Legal(UnderSecondaryKeys(f, s), Aligned(es))
    ensures Exec(UnderSecondaryKeys(f, s), Aligned(es)) == UnderSecondaryKeys(f, Exec(s, es))
  {
    if es != [] {
      var front, e := es[..|es| - 1], es[|es| - 1];
      AlignedRun(f, s, front);
      AlignedStep(f, Exec(s, front), e);
      assert Aligned(es)[..|es| - 1] == Aligned(front);
    }
  }

  // ----- Convergence up to the renaming ----------------------------------------------------------

  /** Whatever order the pending goroutines run in, the secondary ends as the renamed primary. */
  ghost predicate ConvergesRenamed<K(!new), V(!new)>(f: map<K, K>, s: State<K, V>) {
    Injective(f) && s.primary.Keys <= f.Keys && EveryScheduleConverges(UnderSecondaryKeys(f, s))
  }

  /** All states of a run converge, up to the renaming, exactly when all events of the aligned run are harmless. */
  lemma RenamedSettledRuns<K(!new), V(!new)>(f: map<K, K>, s: State<K, V>, es: seq<Event<K, V>>)
    requires Legal(s, es) && ConvergesRenamed(f, s)
    requires forall n :: 0 <= n < |es| ==> RenamedMeaning(f, es[n])
    ensures (forall n :: 0 <= n <= |es| ==> ConvergesRenamed(f, Exec(s, es[..n]))) <==>
            AllHarmless(UnderSecondaryKeys(f, s), Aligned(es))
  {
    var t, aligned := UnderSecondaryKeys(f, s), Aligned(es);
    AlignedRun(f, s, es);
    ConvergesIffSettled(t);
    SettledRuns(t, aligned);
    forall n | 0 <= n <= |es|
      ensures ConvergesRenamed(f, Exec(s, es[..n])) <==> Settled(Exec(t, aligned[..n]))
    {
      ConvergesAfter(f, s, es, n);
    }
  }

  lemma ConvergesAfter<K(!new), V(!new)>(f: map<K, K>, s: State<K, V>, es: seq<Event<K, V>>, n: nat)
    requires Injective(f) && s.primary.Keys <= f.Keys && Legal(s, es) && n <= |es|
    requires forall m :: 0 <= m < |es| ==> RenamedMeaning(f, es[m])
    ensures ConvergesRenamed(f, Exec(s, es[..n])) <==> Settled(Exec(UnderSecondaryKeys(f, s), Aligned(es)[..n]))
  {
    AlignedPrefix(f, s, es, n);
    ConvergesIffSettled(UnderSecondaryKeys(f, Exec(s, es[..n])));
  }

  lemma AlignedPrefix<K, V>(f: map<K, K>, s: State<K, V>, es: seq<Event<K, V>>, n: nat)
    requires Injective(f) && s.primary.Keys <= f.Keys && Legal(s, es) && n <= |es|
    requires forall m :: 0 <= m < |es| ==> RenamedMeaning(f, es[m])
    ensures Exec(s, es[..n]).primary.Keys <= f.Keys
    ensures Exec(UnderSecondaryKeys(f, s), Aligned(es)[..n]) == UnderSecondaryKeys(f, Exec(s, es[..n]))
  {
    LegalPrefix(s, es, n);
    AlignedRun(f, s, es[..n]);
    assert Aligned(es[..n]) == Aligned(es)[..n];
  }

  lemma {:induction false} LegalPrefix<K, V>(s: State<K, V>, es: seq<Event<K, V>>, n: nat)
    requires Legal(s, es) && n <= |es|
    ensures Legal(s, es[..n])
  {
    var m := |es| - 1;
    if n == |es| {
      assert es[..n] == es;
    } else {
      assert es[..m][..n] == es[..n];
      LegalPrefix(s, es[..m], n);
    }
  }

  /** No store call fails and no two writes to one key are under way together. */
  ghost predicate RenamedDisciplined<K(!new), V(!new)>(f: map<K, K>, s: State<K, V>, es: seq<Event<K, V>>) {
    forall n :: 0 <= n < |es| ==>
      && RenamedMeaning(f, es[n])
      && es[n].answer.Applied()
      && (es[n].Write? && !es[n].onSecondary.Reject? ==>
            forall o :: o in Exec(s, es[..n]).pending ==> !o.On(es[n].onSecondary.key))
  }

  lemma AlignedDisciplined<K(!new), V(!new)>(f: map<K, K>, s: State<K, V>, es: seq<Event<K, V>>)
    requires Injective(f) && s.primary.Keys <= f.Keys && Legal(s, es) && RenamedDisciplined(f, s, es)
    ensures Disciplined(UnderSecondaryKeys(f, s), Aligned(es))
  {
    forall n | 0 <= n < |es|
      ensures Exec(UnderSecondaryKeys(f, s), Aligned(es)[..n]).pending == Exec(s, es[..n]).pending
    {
      AlignedPrefix(f, s, es, n);
    }
  }

  /** Secondary convergence when the stores key differently: the secondary ends as the renamed primary. */
  lemma RenamedConverges<K(!new), V(!new)>(f: map<K, K>, s: State<K, V>, es: seq<Event<K, V>>)
    requires Injective(f) && s.primary.Keys <= f.Keys
    requires s.secondary == Renamed(f, s.primary) && s.pending == multiset{}
    requires Legal(s, es) && RenamedDisciplined(f, s, es)
    ensures ConvergesRenamed(f, Exec(s, es))
    ensures Exec(s, es).pending == multiset{} ==> Exec(s, es).secondary == Renamed(f, Exec(s, es).primary)
  {
    AlignedRun(f, s, es);
    AlignedDisciplined(f, s, es);
    SecondaryConverges(UnderSecondaryKeys(f, s), Aligned(es));
  }
}
