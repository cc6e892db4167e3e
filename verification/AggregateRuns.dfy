/** What runs keep about the aggregate cache, and what it shows once the events are consumed. */
module AggregateRuns {
  import opened Prelude
  import opened Tables
  import opened Worlds
  import opened SessionService
  import opened ReportingService
  import opened Runs
  import opened Changes
  import opened Consistency
  import opened Lifecycle
  import opened AggregateCache

  // ----- the event bus -----

  /** The events a change owes. */
  ghost function Emits(db: Db, c: Change): multiset<Event>
    requires Legal(db, c)
  {
    match c
    case Close(sid, at) =>
      var t, sec := db.sessions[sid].college, db.sessions[sid].section;
      multiset(AbsentEvents(t, sec, sid, at, Absentees(db, t, sid, db.Enrolled(t, sec))))
    case Log(a) =>
      if a.Accepted() then
        multiset{RecordedEvent(a.college, db.sessions[a.session].section, RecordKey(a.session, a.student), Present, a.at)}
      else multiset{}
    case Amend(key, status, o) => multiset{RecordedEvent(o.college, db.sessions[key.session].section, key, status, o.at)}
    case _ => multiset{}
  }

  lemma EndBus(w: World, a: Action)
    requires Possible(w, a) && a.End? && Legal(w.db, ChangeOf(w, a))
    ensures Step(w, a).pending == w.pending + Emits(w.db, ChangeOf(w, a))
    ensures Step(w, a).unread == w.unread && Step(w, a).log == w.log
  {
  }

  lemma WriteBus(w: World, a: Action)
    requires Possible(w, a) && (a.Checkin? || a.Correct?) && Legal(w.db, ChangeOf(w, a))
    ensures Step(w, a).pending == w.pending + Emits(w.db, ChangeOf(w, a))
    ensures Step(w, a).unread == w.unread && Step(w, a).log == w.log
  {
    if a.Checkin? {
      CheckinLogs(w, a.t, a.student, a.sub, a.pick, a.aid);
    }
  }

  lemma OtherBus(w: World, a: Action)
    requires !a.Publish? && !a.Consume? && !a.End? && !a.Checkin? && !a.Correct? && Legal(w.db, ChangeOf(w, a))
    ensures Step(w, a).pending == w.pending + Emits(w.db, ChangeOf(w, a))
    ensures Step(w, a).unread == w.unread && Step(w, a).log == w.log
  {
  }

  lemma StepBus(w: World, a: Action)
    requires !a.Publish? && !a.Consume? && Legal(w.db, ChangeOf(w, a))
    ensures Step(w, a).pending == w.pending + Emits(w.db, ChangeOf(w, a))
    ensures Step(w, a).unread == w.unread && Step(w, a).log == w.log
  {
    if Possible(w, a) && a.End? { EndBus(w, a); }
    else if Possible(w, a) && (a.Checkin? || a.Correct?) { WriteBus(w, a); }
    else if Possible(w, a) { OtherBus(w, a); }
  }

  lemma StepAlerts(w: World, a: Action)
    requires !a.Consume?
    ensures Step(w, a).alerts == w.alerts
  {
    if a.Checkin? && Possible(w, a) {
      CheckinLogs(w, a.t, a.student, a.sub, a.pick, a.aid);
    }
  }

  predicate EventSound(db: Db, e: Event) {
    e.section in db.sections && e.college == db.sections[e.section].college && e.student in db.users
  }

  ghost predicate OnBus(w: World, e: Event) {
    e in w.pending || e in w.unread || e in w.log
  }

  /** Every event ever committed names an existing section of its college and an existing student. */
  ghost predicate BusSound(w: World) {
    forall e :: OnBus(w, e) ==> EventSound(w.db, e)
  }

  lemma EmitsSound(db: Db, c: Change, e: Event)
    requires Linked(db) && Legal(db, c) && e in Emits(db, c)
    ensures EventSound(Apply(db, c), e)
  {
  }

  lemma EventStaysSound(db: Db, c: Change, e: Event)
    requires Linked(db) && Legal(db, c) && EventSound(db, e)
    ensures EventSound(Apply(db, c), e)
  {
  }

  /** An event on the bus was there before or is owed by the step. */
  lemma BusSource(w: World, a: Action, e: Event)
    requires Legal(w.db, ChangeOf(w, a)) && OnBus(Step(w, a), e)
    ensures OnBus(w, e) || e in Emits(w.db, ChangeOf(w, a))
  {
    if !a.Publish? && !a.Consume? {
      StepBus(w, a);
    }
  }

  lemma StepBusSound(w: World, a: Action)
    requires Consistent(w.db) && BusSound(w)
    ensures BusSound(Step(w, a))
  {
    StepChanges(w, a);
    forall e | OnBus(Step(w, a), e)
      ensures EventSound(Step(w, a).db, e)
    {
      BusSource(w, a, e);
      if OnBus(w, e) {
        EventStaysSound(w.db, ChangeOf(w, a), e);
      } else {
        EmitsSound(w.db, ChangeOf(w, a), e);
      }
    }
  }

  /** What a change touches, it owes an event for. */
  lemma TouchedIsEmitted(db: Db, c: Change, p: Pair)
    requires Legal(db, c) && Touched(db, c) == Some(p)
    ensures exists e :: e in Emits(db, c) && e.Target() == p
  {
    var key := if c.Log? then RecordKey(c.attempt.session, c.attempt.student) else c.key;
    var e := if c.Log? then RecordedEvent(c.attempt.college, p.section, key, Present, c.attempt.at)
             else RecordedEvent(c.entry.college, p.section, key, c.status, c.entry.at);
    assert e in Emits(db, c) && e.Target() == p;
  }

  lemma WaitingStays(w: World, a: Action, e: Event)
    requires (e in w.pending || e in w.unread) && !(a.Consume? && a.e == e)
    ensures e in Step(w, a).pending || e in Step(w, a).unread
  {
    if !a.Publish? && !a.Consume? {
      StepChanges(w, a);
      StepBus(w, a);
    }
  }

  /** Only consuming an event for the pair can settle it. */
  lemma OwedStays(w: World, a: Action, p: Pair)
    requires Owed(w, p) && !(a.Consume? && a.e.Target() == p)
    ensures Owed(Step(w, a), p)
  {
    var e :| (e in w.pending || e in w.unread) && e.Target() == p;
    WaitingStays(w, a, e);
  }

  // ----- the invariant of every run -----

  ghost predicate Settled(w: World, p: Pair)
    requires p.section in w.db.sections
  {
    StoredPresent(w.db, p) == Recount(w.db, p) || Owed(w, p)
  }

  ghost predicate CacheInv(w: World) {
    && Consistent(w.db) && RowsSound(w.db) && BusSound(w)
    && forall p: Pair :: Reportable(w.db, p.section) ==> Settled(w, p)
  }

  /** Reporting becomes possible when the section is created or not at all. */
  lemma ReportableBefore(db: Db, c: Change, sec: SectionId)
    requires Linked(db) && Legal(db, c) && sec in db.sections
    ensures Reportable(Apply(db, c), sec) <==> Reportable(db, sec)
  {
    ApplyEvolves(db, c);
  }

  lemma NewSectionCounts(db: Db, c: Change, p: Pair)
    requires Linked(db) && Legal(db, c) && p.section !in db.sections && p.section in Apply(db, c).sections
    ensures StoredPresent(Apply(db, c), p) == 0 && Recount(Apply(db, c), p) == 0
  {
    assert c.NewSection?;
    assert Apply(db, c).PresentRecords(CollegeOf(Apply(db, c), p.section), p) == {};
  }

  lemma StoredKept(db: Db, c: Change, p: Pair)
    requires Legal(db, c) && !(c.Refresh? && c.p == p)
    ensures p in Apply(db, c).aggregates <==> p in db.aggregates
    ensures p in db.aggregates ==> Apply(db, c).aggregates[p] == db.aggregates[p]
  {
  }

  /** Consuming an event stores the counts its pair has at that moment, and their percentage. */
  lemma ConsumeStores(w: World, e: Event)
    requires Consistent(w.db) && BusSound(w) && Possible(w, Consume(e)) && Reportable(w.db, e.section)
    ensures var p, db' := e.Target(), Step(w, Consume(e)).db;
      && p in db'.aggregates && Step(w, Consume(e)) == ConsumeEffect(w, e)
      && db'.aggregates[p] == RecountOf(w.db, CollegeOf(w.db, e.section), p, w.now)
      && db'.aggregates[p].present == Recount(w.db, p) && db'.aggregates[p].total == EndedCount(w.db, e.section)
      && db'.aggregates[p].hundredths == Hundredths(Recount(w.db, p), EndedCount(w.db, e.section))
  {
    assert OnBus(w, e);
    RefreshSucceeds(w.db, e.Target());
  }

  /** Consuming an event writes the exact counts of its pair. */
  lemma ConsumeRefreshes(w: World, a: Action)
    requires Consistent(w.db) && BusSound(w) && Possible(w, a) && a.Consume? && Reportable(w.db, a.e.section)
    ensures var p, db' := a.e.Target(), Step(w, a).db;
      && p in db'.aggregates && p.section in db'.sections
      && db'.aggregates[p].present == Recount(db', p) && db'.aggregates[p].total == EndedCount(db', p.section)
  {
    var p := a.e.Target();
    var t := CollegeOf(w.db, p.section);
    ConsumeStores(w, a.e);
    assert Step(w, a).db == w.db.(aggregates := Step(w, a).db.aggregates);
    assert Step(w, a).db.PresentRecords(t, p) == w.db.PresentRecords(t, p);
    assert Step(w, a).db.EndedSessions(t, p.section) == w.db.EndedSessions(t, p.section);
  }

  /** A change that touches the pair leaves an event owed for it. */
  lemma TouchedIsOwed(w: World, a: Action, p: Pair)
    requires Touched(w.db, ChangeOf(w, a)) == Some(p)
    ensures Owed(Step(w, a), p)
  {
    StepChanges(w, a);
    TouchedIsEmitted(w.db, ChangeOf(w, a), p);
    StepBus(w, a);
    var e :| e in Emits(w.db, ChangeOf(w, a)) && e.Target() == p;
    assert e in Step(w, a).pending;
  }

  lemma UntouchedCounts(db: Db, c: Change, p: Pair)
    requires Linked(db) && Legal(db, c) && p.section in db.sections && StoredPresent(db, p) == Recount(db, p)
    requires Touched(db, c) != Some(p) && !(c.Refresh? && c.p == p)
    ensures p.section in Apply(db, c).sections && StoredPresent(Apply(db, c), p) == Recount(Apply(db, c), p)
  {
    RecountKept(db, c, p);
    StoredKept(db, c, p);
  }

  lemma UntouchedStays(w: World, w': World, c: Change, p: Pair)
    requires Linked(w.db) && Legal(w.db, c) && w'.db == Apply(w.db, c) && p.section in w.db.sections
    requires Settled(w, p) && (Owed(w, p) ==> Owed(w', p)) && Touched(w.db, c) != Some(p)
    requires !Owed(w, p) ==> !(c.Refresh? && c.p == p)
    ensures p.section in w'.db.sections && Settled(w', p)
  {
    if !Owed(w, p) {
      UntouchedCounts(w.db, c, p);
    }
  }

  lemma OnlyConsumingRefreshes(w: World, a: Action)
    requires ChangeOf(w, a).Refresh?
    ensures Possible(w, a) && a.Consume? && ChangeOf(w, a).p == a.e.Target()
  {
  }

  lemma UntouchedSettled(w: World, a: Action, p: Pair)
    requires Linked(w.db) && p.section in w.db.sections && Settled(w, p)
    requires Touched(w.db, ChangeOf(w, a)) != Some(p) && !(Possible(w, a) && a.Consume? && a.e.Target() == p)
    ensures p.section in Step(w, a).db.sections && Settled(Step(w, a), p)
  {
    StepChanges(w, a);
    if Owed(w, p) && Possible(w, a) {
      OwedStays(w, a, p);
    }
    if ChangeOf(w, a).Refresh? {
      OnlyConsumingRefreshes(w, a);
    }
    UntouchedStays(w, Step(w, a), ChangeOf(w, a), p);
  }

  lemma StepSettled(w: World, a: Action, p: Pair)
    requires CacheInv(w) && Reportable(Step(w, a).db, p.section)
    ensures Settled(Step(w, a), p)
  {
    StepChanges(w, a);
    if p.section !in w.db.sections {
      NewSectionCounts(w.db, ChangeOf(w, a), p);
    } else {
      ReportableBefore(w.db, ChangeOf(w, a), p.section);
      if Possible(w, a) && a.Consume? && a.e.Target() == p {
        ConsumeRefreshes(w, a);
      } else if Touched(w.db, ChangeOf(w, a)) == Some(p) {
        TouchedIsOwed(w, a, p);
      } else {
        UntouchedSettled(w, a, p);
      }
    }
  }

  lemma StepCacheInv(w: World, a: Action)
    requires CacheInv(w)
    ensures CacheInv(Step(w, a))
  {
    StepConsistent(w, a);
    StepBusSound(w, a);
    StepChanges(w, a);
    ApplyRowsSound(w.db, ChangeOf(w, a));
    forall p: Pair | Reportable(Step(w, a).db, p.section)
      ensures Settled(Step(w, a), p)
    {
      StepSettled(w, a, p);
    }
  }

  lemma {:induction false} RunCacheInv(w: World, acts: seq<Action>)
    requires CacheInv(w)
    ensures CacheInv(Run(w, acts))
    decreases |acts|
  {
    if acts != [] {
      RunCacheInv(w, acts[..|acts| - 1]);
      StepCacheInv(Run(w, acts[..|acts| - 1]), acts[|acts| - 1]);
    }
  }

  lemma GenesisCacheInv(metric: Metric)
    ensures CacheInv(Genesis(metric))
  {
  }
}
