/** The reporting consumer: it takes waiting messages one at a time and refreshes the aggregate each one names. */
module Consumer {
  import opened Tables
  import opened Worlds
  import opened Stores
  import opened ReportingService
  import opened Runs
  import opened Changes
  import opened AggregateCache
  import opened AggregateRuns
  import opened CacheTheorems

  ghost predicate OnlyConsumes(acts: seq<Action>) {
    forall a :: a in acts ==> a.Consume?
  }

  /** Every stored presence that can be reported is the recount. */
  ghost predicate CacheExact(db: Db) {
    forall p: Pair :: Reportable(db, p.section) ==> StoredPresent(db, p) == Recount(db, p)
  }

  lemma DrainedExact(w: World)
    requires CacheInv(w) && Drained(w)
    ensures CacheExact(w.db)
  {
    forall p: Pair | Reportable(w.db, p.section)
      ensures StoredPresent(w.db, p) == Recount(w.db, p)
    {
      DrainedPair(w, p);
    }
  }

  /** The loop of the consumer until no message is waiting; a failed refresh does not stop it. */
  method ConsumeBacklog(store: Store) returns (ghost acts: seq<Action>)
    requires forall e :: e in store.unread ==> e in store.log
    modifies store
    ensures store.unread == multiset{} && store.pending == old(store.pending)
    ensures OnlyConsumes(acts) && store.State() == Run(old(store.State()), acts)
    ensures CacheInv(old(store.State())) && old(store.pending) == multiset{} ==> CacheExact(store.db)
  {
    acts := [];
    while store.unread != multiset{}
      invariant OnlyConsumes(acts) && store.State() == Run(old(store.State()), acts)
      invariant store.pending == old(store.pending)
      invariant forall e :: e in store.unread ==> e in store.log
      decreases |store.unread|
    {
      var e :| e in store.unread;
      RunMore(old(store.State()), acts, Consume(e));
      ConsumeOne(store, e);
      acts := acts + [Consume(e)];
    }
    if CacheInv(old(store.State())) && store.pending == multiset{} {
      RunCacheInv(old(store.State()), acts);
      DrainedExact(store.State());
    }
  }

  lemma RefreshClosesNothing(w: World, e: Event)
    ensures ConsumeEffect(w, e).db.sessions == w.db.sessions && ConsumeEffect(w, e).db.sections == w.db.sections
  {
  }

  lemma ConsumingClosesNothing(w: World, a: Action)
    requires a.Consume?
    ensures Step(w, a).db.sessions == w.db.sessions && Step(w, a).db.sections == w.db.sections
  {
    RefreshClosesNothing(w, a.e);
    assert Step(w, a) == w || Step(w, a) == ConsumeEffect(w, a.e);
  }

  lemma {:induction false} BacklogClosesNothing(w: World, acts: seq<Action>)
    requires OnlyConsumes(acts)
    ensures Run(w, acts).db.sessions == w.db.sessions && Run(w, acts).db.sections == w.db.sections
    decreases |acts|
  {
    if acts != [] {
      BacklogClosesNothing(w, acts[..|acts| - 1]);
      ConsumingClosesNothing(Run(w, acts[..|acts| - 1]), acts[|acts| - 1]);
    }
  }

  /** Working off the backlog makes the total of every pair with a waiting message exact. */
  lemma BacklogTotalsExact(w: World, acts: seq<Action>, e: Event)
    requires CacheInv(w) && OnlyConsumes(acts) && Drained(Run(w, acts))
    requires e in w.unread && Reportable(w.db, e.section)
    ensures e.section in Run(w, acts).db.sections && TotalExact(Run(w, acts).db, e.Target())
  {
    assert Owed(w, e.Target());
    BacklogClosesNothing(w, acts);
    assert Run(w, acts).db.EndedSessions(CollegeOf(w.db, e.section), e.section)
        == w.db.EndedSessions(CollegeOf(w.db, e.section), e.section);
    TotalExactOnceConsumed(w, acts, e.Target());
  }

  ghost predicate AllPublished(w: World) {
    forall e :: e in w.unread ==> e in w.log
  }

  lemma StepPublished(w: World, a: Action)
    requires AllPublished(w)
    ensures AllPublished(Step(w, a))
  {
    if !a.Publish? && !a.Consume? {
      StepChanges(w, a);
      StepBus(w, a);
    }
  }

  /** What ConsumeBacklog asks of the store holds in every run. */
  lemma {:induction false} WaitingWasPublished(metric: Metric, acts: seq<Action>)
    ensures AllPublished(Run(Genesis(metric), acts))
    decreases |acts|
  {
    if acts != [] {
      WaitingWasPublished(metric, acts[..|acts| - 1]);
      StepPublished(Run(Genesis(metric), acts[..|acts| - 1]), acts[|acts| - 1]);
    }
  }
}
