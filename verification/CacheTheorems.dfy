/** What students and teachers can rely on about the aggregate cache. */
module CacheTheorems {
  import opened Prelude
  import opened Tables
  import opened Worlds
  import opened SessionService
  import opened AttendanceService
  import opened ReportingService
  import opened Runs
  import opened Changes
  import opened Consistency
  import opened Lifecycle
  import opened AggregateCache
  import opened AggregateRuns

  ghost predicate Drained(w: World) {
    w.pending == multiset{} && w.unread == multiset{}
  }

  // ----- presences -----

  /**
   Once no event of the pair is left, the stored presences are exact just when the section's course belongs
   to the section's college, or there is nothing to count: with a foreign course every refresh fails.
   */
  lemma PresentExactIff(metric: Metric, acts: seq<Action>, p: Pair)
    requires var w := Run(Genesis(metric), acts); p.section in w.db.sections && !Owed(w, p)
    ensures var w := Run(Genesis(metric), acts);
      StoredPresent(w.db, p) == Recount(w.db, p) <==> Reportable(w.db, p.section) || Recount(w.db, p) == 0
  {
    GenesisCacheInv(metric);
    RunCacheInv(Genesis(metric), acts);
  }

  /** A drained system shows every student the exact presences of every course it lists. */
  lemma ListedCoursesExact(metric: Metric, acts: seq<Action>, t: CollegeId, student: UserId, sec: SectionId)
    requires Drained(Run(Genesis(metric), acts))
    requires sec in StudentCourses(Run(Genesis(metric), acts).db, t, student)
    ensures var db := Run(Genesis(metric), acts).db;
      StudentCourses(db, t, student)[sec].present == |db.PresentRecords(t, Pair(student, sec))|
  {
    var w := Run(Genesis(metric), acts);
    GenesisCacheInv(metric);
    RunCacheInv(Genesis(metric), acts);
    assert Reportable(w.db, Pair(student, sec).section);
    assert Settled(w, Pair(student, sec));
  }

  /** Every stored percentage fits its column and stays between 0 and 200. */
  lemma StoredRowsBounded(metric: Metric, acts: seq<Action>, p: Pair)
    ensures var db := Run(Genesis(metric), acts).db;
      p in db.aggregates ==>
        RowBounded(db.aggregates[p]) && FitsNumeric52(db.aggregates[p].hundredths)
        && p.section in db.sections && db.aggregates[p].total <= EndedCount(db, p.section)
  {
    GenesisCacheInv(metric);
    RunCacheInv(Genesis(metric), acts);
  }

  /** A consumed event stores more than 100.00 exactly when the student is ahead of the total, up to 20,000 sessions. */
  lemma StoresAboveHundredIff(metric: Metric, acts: seq<Action>, e: Event)
    requires var w := Run(Genesis(metric), acts); Possible(w, Consume(e)) && Reportable(w.db, e.section)
    ensures var w, p := Run(Genesis(metric), acts), e.Target();
      var db := Step(w, Consume(e)).db;
      && p in db.aggregates
      && (db.aggregates[p].hundredths > 10_000
          <==> AheadOfTotal(w.db, CollegeOf(w.db, e.section), p) && 0 < EndedCount(w.db, e.section) <= 20_000)
  {
    var w := Run(Genesis(metric), acts);
    GenesisCacheInv(metric);
    RunCacheInv(Genesis(metric), acts);
    ConsumeStores(w, e);
    AboveHundredIff(w.db, CollegeOf(w.db, e.section), e.Target(), w.now);
  }

  // ----- totals -----

  lemma StepTotal(w: World, a: Action, p: Pair)
    requires CacheInv(w)
    ensures StoredTotal(w.db, p) <= StoredTotal(Step(w, a).db, p)
  {
    var c := ChangeOf(w, a);
    StepChanges(w, a);
    if c.Refresh? && c.p == p {
      RefreshWritesRecount(w.db, p, c.aggregate);
    } else {
      StoredKept(w.db, c, p);
    }
  }

  /** A stored total never goes down. */
  lemma {:induction false} TotalNeverDecreases(w: World, acts: seq<Action>, p: Pair)
    requires CacheInv(w)
    ensures StoredTotal(w.db, p) <= StoredTotal(Run(w, acts).db, p)
    decreases |acts|
  {
    if acts != [] {
      RunCacheInv(w, acts[..|acts| - 1]);
      TotalNeverDecreases(w, acts[..|acts| - 1], p);
      StepTotal(Run(w, acts[..|acts| - 1]), acts[|acts| - 1], p);
    }
  }

  ghost predicate TotalExact(db: Db, p: Pair)
    requires p.section in db.sections
  {
    StoredTotal(db, p) == EndedCount(db, p.section)
  }

  /** The sections and ended counts a run starts with are still there after each of its prefixes. */
  lemma PrefixCounts(w: World, acts: seq<Action>, sec: SectionId)
    requires CacheInv(w) && acts != [] && sec in w.db.sections
    requires sec in Run(w, acts).db.sections && EndedCount(Run(w, acts).db, sec) == EndedCount(w.db, sec)
    ensures var w0 := Run(w, acts[..|acts| - 1]);
      CacheInv(w0) && sec in w0.db.sections && EndedCount(w0.db, sec) == EndedCount(w.db, sec)
  {
    var init := acts[..|acts| - 1];
    RunCacheInv(w, init);
    RunEvolves(w, init);
    EndedGrows(w.db, Run(w, init).db, sec);
    StepChanges(Run(w, init), acts[|acts| - 1]);
    ApplyEvolves(Run(w, init).db, ChangeOf(Run(w, init), acts[|acts| - 1]));
    EndedGrows(Run(w, init).db, Run(w, acts).db, sec);
  }

  lemma ReportableKept(w: World, acts: seq<Action>, sec: SectionId)
    requires Consistent(w.db) && Reportable(w.db, sec)
    ensures Reportable(Run(w, acts).db, sec)
  {
    RunEvolves(w, acts);
  }

  /** A step that is not a refresh of the pair leaves its stored total, and no closing leaves the count. */
  lemma StepKeepsTotal(w: World, a: Action, p: Pair)
    requires CacheInv(w) && p.section in w.db.sections && !(Possible(w, a) && a.Consume? && a.e.Target() == p)
    ensures StoredTotal(Step(w, a).db, p) == StoredTotal(w.db, p)
  {
    StepChanges(w, a);
    if ChangeOf(w, a).Refresh? {
      OnlyConsumingRefreshes(w, a);
    }
    StoredKept(w.db, ChangeOf(w, a), p);
  }

  /**
   A pair with an event owed (just marked absent, overridden or checked in) has the exact total as soon as its
   events are consumed, as long as the section closes no further session.
   */
  lemma {:induction false} TotalExactOnceConsumed(w: World, acts: seq<Action>, p: Pair)
    requires CacheInv(w) && Reportable(w.db, p.section) && Owed(w, p)
    requires p.section in Run(w, acts).db.sections && EndedCount(Run(w, acts).db, p.section) == EndedCount(w.db, p.section)
    ensures Owed(Run(w, acts), p) || TotalExact(Run(w, acts).db, p)
    decreases |acts|
  {
    if acts != [] {
      var w0, a := Run(w, acts[..|acts| - 1]), acts[|acts| - 1];
      PrefixCounts(w, acts, p.section);
      TotalExactOnceConsumed(w, acts[..|acts| - 1], p);
      ReportableKept(w, acts[..|acts| - 1], p.section);
      if Possible(w0, a) && a.Consume? && a.e.Target() == p {
        ConsumeRefreshes(w0, a);
      } else if !Possible(w0, a) {
      } else if Owed(w0, p) {
        OwedStays(w0, a, p);
      } else {
        StepKeepsTotal(w0, a, p);
      }
    }
  }

  ghost predicate RefreshedAt(w: World, acts: seq<Action>, i: nat, p: Pair)
    requires i < |acts|
  {
    acts[i].Consume? && Possible(Run(w, acts[..i]), acts[i]) && acts[i].e.Target() == p
  }

  ghost predicate EverRefreshed(w: World, acts: seq<Action>, p: Pair) {
    exists i: nat :: i < |acts| && RefreshedAt(w, acts, i, p)
  }

  lemma EverRefreshedStep(w: World, acts: seq<Action>, p: Pair)
    requires acts != []
    ensures EverRefreshed(w, acts, p) <==> EverRefreshed(w, acts[..|acts| - 1], p) || RefreshedAt(w, acts, |acts| - 1, p)
  {
    var init := acts[..|acts| - 1];
    forall i: nat | i < |init|
      ensures RefreshedAt(w, init, i, p) <==> RefreshedAt(w, acts, i, p)
    {
      assert init[..i] == acts[..i];
    }
  }

  /**
   A total left behind by a closing becomes exact if and only if some event of the pair is consumed afterwards
   (again as long as the section closes no further session).
   */
  lemma {:induction false} TotalExactIffRefreshed(w: World, acts: seq<Action>, p: Pair)
    requires CacheInv(w) && Reportable(w.db, p.section) && !TotalExact(w.db, p)
    requires p.section in Run(w, acts).db.sections && EndedCount(Run(w, acts).db, p.section) == EndedCount(w.db, p.section)
    ensures TotalExact(Run(w, acts).db, p) <==> EverRefreshed(w, acts, p)
    decreases |acts|
  {
    if acts != [] {
      var init, a := acts[..|acts| - 1], acts[|acts| - 1];
      PrefixCounts(w, acts, p.section);
      TotalExactIffRefreshed(w, init, p);
      EverRefreshedStep(w, acts, p);
      ReportableKept(w, init, p.section);
      if RefreshedAt(w, acts, |acts| - 1, p) {
        ConsumeRefreshes(Run(w, init), a);
      } else {
        StepKeepsTotal(Run(w, init), a, p);
      }
    }
  }

  lemma OwedMore(w: World, later: World, added: set<Event>, p: Pair)
    requires later.pending == w.pending + multiset(added) && later.unread == w.unread
    ensures Owed(later, p) <==> Owed(w, p) || exists e :: e in added && e.Target() == p
  {
    if Owed(w, p) {
      var e :| (e in w.pending || e in w.unread) && e.Target() == p;
      assert e in later.pending || e in later.unread;
    }
    if e :| e in added && e.Target() == p {
      assert e in later.pending;
    }
  }

  lemma AbsentTargets(t: CollegeId, sec: SectionId, sid: SessionId, at: nat, students: set<UserId>, student: UserId)
    ensures (exists e :: e in AbsentEvents(t, sec, sid, at, students) && e.Target() == Pair(student, sec)) <==> student in students
  {
    if student in students {
      var mine := RecordedEvent(t, sec, RecordKey(sid, student), Absent, at);
      assert mine in AbsentEvents(t, sec, sid, at, students) && mine.Target() == Pair(student, sec);
    }
  }

  /** Exactly the students a closing marks absent, and those with an event still owed, are owed a refresh afterwards. */
  lemma OwedAfterClosing(w: World, t: CollegeId, teacher: UserId, sid: SessionId, student: UserId)
    requires EndEffect(w, t, teacher, sid).outcome.Ok?
    ensures var sec := w.db.sessions[sid].section;
      Owed(EndEffect(w, t, teacher, sid).world, Pair(student, sec))
      <==> Owed(w, Pair(student, sec)) || student in Absentees(w.db, t, sid, w.db.Enrolled(t, sec))
  {
    var sec := w.db.sessions[sid].section;
    var absent := Absentees(w.db, t, sid, w.db.Enrolled(t, sec));
    EndPending(w, t, teacher, sid);
    OwedMore(w, EndEffect(w, t, teacher, sid).world, AbsentEvents(t, sec, sid, w.now, absent), Pair(student, sec));
    AbsentTargets(t, sec, sid, w.now, absent, student);
  }

  lemma ClosingCounts(db: Db, sid: SessionId, at: nat, sec: SectionId)
    requires Linked(db) && Legal(db, Close(sid, at)) && sec == db.sessions[sid].section
    ensures EndedCount(Apply(db, Close(sid, at)), sec) == EndedCount(db, sec) + 1
  {
    var t := db.sessions[sid].college;
    assert Apply(db, Close(sid, at)).EndedSessions(t, sec) == db.EndedSessions(t, sec) + {sid};
  }

  lemma StoredBehind(w: World, p: Pair)
    requires CacheInv(w) && p.section in w.db.sections
    ensures StoredTotal(w.db, p) <= EndedCount(w.db, p.section)
  {
    if p in w.db.aggregates {
      assert RowSound(w.db, p);
    }
  }

  lemma EndKeepsInv(w: World, t: CollegeId, teacher: UserId, sid: SessionId)
    requires CacheInv(w) && EndEffect(w, t, teacher, sid).outcome.Ok?
    ensures CacheInv(EndEffect(w, t, teacher, sid).world)
  {
    StepCacheInv(w, End(t, teacher, sid));
    assert Step(w, End(t, teacher, sid)) == EndEffect(w, t, teacher, sid).world;
  }

  lemma EndKeepsReportable(w: World, t: CollegeId, teacher: UserId, sid: SessionId)
    requires CacheInv(w) && EndEffect(w, t, teacher, sid).outcome.Ok?
    ensures Reportable(w.db, w.db.sessions[sid].section)
       <==> Reportable(EndEffect(w, t, teacher, sid).world.db, w.db.sessions[sid].section)
  {
    EndIsClose(w, t, teacher, sid);
    ReportableBefore(w.db, Close(sid, w.now), w.db.sessions[sid].section);
  }

  /** Right after a closing the stored total of every pair of the section is behind. */
  lemma ClosingLeavesBehind(w: World, t: CollegeId, teacher: UserId, sid: SessionId, student: UserId)
    requires CacheInv(w) && EndEffect(w, t, teacher, sid).outcome.Ok?
    ensures var after, p := EndEffect(w, t, teacher, sid).world, Pair(student, w.db.sessions[sid].section);
      p.section in w.db.sections && p.section in after.db.sections
      && StoredTotal(after.db, p) < EndedCount(after.db, p.section)
  {
    var p := Pair(student, w.db.sessions[sid].section);
    EndIsClose(w, t, teacher, sid);
    ClosingCounts(w.db, sid, w.now, p.section);
    StoredBehind(w, p);
    StoredKept(w.db, Close(sid, w.now), p);
  }

  /** A student already recorded, with nothing owed, is left behind with no event that would repair it. */
  lemma RecordedStudentLeftBehind(w: World, t: CollegeId, teacher: UserId, sid: SessionId, student: UserId)
    requires CacheInv(w) && EndEffect(w, t, teacher, sid).outcome.Ok?
    requires w.db.SeesRecord(t, RecordKey(sid, student)) && !Owed(w, Pair(student, w.db.sessions[sid].section))
    ensures var after, p := EndEffect(w, t, teacher, sid).world, Pair(student, w.db.sessions[sid].section);
      !Owed(after, p) && p.section in after.db.sections && !TotalExact(after.db, p)
  {
    OwedAfterClosing(w, t, teacher, sid, student);
    ClosingLeavesBehind(w, t, teacher, sid, student);
  }

  /** A section whose course is another college's never gets a stored row. */
  lemma NeverReported(w: World, acts: seq<Action>, p: Pair)
    requires CacheInv(w) && p.section in w.db.sections && !Reportable(w.db, p.section)
    ensures !Reportable(Run(w, acts).db, p.section) && StoredTotal(Run(w, acts).db, p) == 0
  {
    RunEvolves(w, acts);
    RunCacheInv(w, acts);
    var later := Run(w, acts).db;
    assert w.db.sections[p.section].course in w.db.courses;
    assert p in later.aggregates ==> RowSound(later, p);
  }

  /** The section has closed no session between the two states. */
  ghost predicate SameClosings(db: Db, later: Db, sec: SectionId) {
    sec in db.sections && sec in later.sections && EndedCount(later, sec) == EndedCount(db, sec)
  }

  /**
   After a closing, and until the section closes another session, the stored total of any student is exact if and
   only if the section's course is its own college's and some event of the student has been consumed since.
   */
  lemma TotalAfterClosing(w: World, t: CollegeId, teacher: UserId, sid: SessionId, student: UserId, acts: seq<Action>)
    requires CacheInv(w) && EndEffect(w, t, teacher, sid).outcome.Ok?
    requires var after := EndEffect(w, t, teacher, sid).world;
      SameClosings(after.db, Run(after, acts).db, w.db.sessions[sid].section)
    ensures var after, p := EndEffect(w, t, teacher, sid).world, Pair(student, w.db.sessions[sid].section);
      TotalExact(Run(after, acts).db, p) <==> Reportable(w.db, p.section) && EverRefreshed(after, acts, p)
  {
    var after, p := EndEffect(w, t, teacher, sid).world, Pair(student, w.db.sessions[sid].section);
    EndKeepsInv(w, t, teacher, sid);
    EndKeepsReportable(w, t, teacher, sid);
    ClosingLeavesBehind(w, t, teacher, sid, student);
    if Reportable(w.db, p.section) {
      TotalExactIffRefreshed(after, acts, p);
    } else {
      NeverReported(after, acts, p);
    }
  }

  /** What was owed and is owed no longer has been consumed. */
  lemma {:induction false} OwedThenRefreshed(w: World, acts: seq<Action>, p: Pair)
    requires Owed(w, p) && !Owed(Run(w, acts), p)
    ensures EverRefreshed(w, acts, p)
    decreases |acts|
  {
    if acts != [] {
      var init, a := acts[..|acts| - 1], acts[|acts| - 1];
      EverRefreshedStep(w, acts, p);
      if !Owed(Run(w, init), p) {
        OwedThenRefreshed(w, init, p);
      } else if !RefreshedAt(w, acts, |acts| - 1, p) && Possible(Run(w, init), a) {
        OwedStays(Run(w, init), a, p);
      }
    }
  }

  /**
   The same in terms of the state at the closing: once no event of the student is left, the total is exact if and
   only if the course is the college's own and the closing marked the student absent, or an event of the student
   was still on its way, or a later one has been consumed.
   */
  lemma TotalOnceSettled(w: World, t: CollegeId, teacher: UserId, sid: SessionId, student: UserId, acts: seq<Action>)
    requires CacheInv(w) && EndEffect(w, t, teacher, sid).outcome.Ok?
    requires var after := EndEffect(w, t, teacher, sid).world;
      && SameClosings(after.db, Run(after, acts).db, w.db.sessions[sid].section)
      && !Owed(Run(after, acts), Pair(student, w.db.sessions[sid].section))
    ensures var after, p := EndEffect(w, t, teacher, sid).world, Pair(student, w.db.sessions[sid].section);
      TotalExact(Run(after, acts).db, p)
      <==> Reportable(w.db, p.section)
           && (student in Absentees(w.db, t, sid, w.db.Enrolled(t, p.section)) || Owed(w, p) || EverRefreshed(after, acts, p))
  {
    var after, p := EndEffect(w, t, teacher, sid).world, Pair(student, w.db.sessions[sid].section);
    OwedAfterClosing(w, t, teacher, sid, student);
    TotalAfterClosing(w, t, teacher, sid, student, acts);
    if Owed(after, p) {
      OwedThenRefreshed(after, acts, p);
    }
  }

  // ----- double counting -----

  ghost function SectionPresences(db: Db, t: CollegeId, sec: SectionId): set<RecordKey> {
    set k | k in db.records && db.InSection(t, k, sec) && db.records[k].status.CountsPresent()
  }

  /** The presences a section's history shows, added over its sessions. */
  ghost function HistoryTotal(history: map<SessionId, HistoryRow>): nat {
    Sum(history.Keys, s => if s in history then history[s].present else 0)
  }

  ghost function RecountTotal(db: Db, t: CollegeId, sec: SectionId): nat {
    Sum(db.users.Keys, st => |db.PresentRecords(t, Pair(st, sec))|)
  }

  ghost function StoredPresentTotal(db: Db, sec: SectionId): nat {
    Sum(db.users.Keys, st => StoredPresent(db, Pair(st, sec)))
  }

  lemma HistoryCounts(db: Db, t: CollegeId, sec: SectionId, teacher: UserId)
    requires SectionHistory(db, t, sec, teacher).Ok?
    ensures HistoryTotal(SectionHistory(db, t, sec, teacher).value) == |SectionPresences(db, t, sec)|
  {
    var history, all := SectionHistory(db, t, sec, teacher).value, SectionPresences(db, t, sec);
    var sessionOf := (k: RecordKey) => k.session;
    forall s | s in history.Keys
      ensures history[s].present == |Fiber(all, sessionOf, s)|
    {
      assert Fiber(all, sessionOf, s) == db.WithStatus(t, s, {Present, OverriddenPresent});
    }
    PartitionCount(all, history.Keys, sessionOf, s => if s in history then history[s].present else 0);
  }

  lemma StudentCounts(db: Db, t: CollegeId, sec: SectionId)
    requires Linked(db)
    ensures RecountTotal(db, t, sec) == |SectionPresences(db, t, sec)|
  {
    var all := SectionPresences(db, t, sec);
    var studentOf := (k: RecordKey) => k.student;
    var count := st => |db.PresentRecords(t, Pair(st, sec))|;
    forall st | st in db.users.Keys
      ensures count(st) == |Fiber(all, studentOf, st)|
    {
      assert Fiber(all, studentOf, st) == db.PresentRecords(t, Pair(st, sec));
    }
    PartitionCount(all, db.users.Keys, studentOf, count);
  }

  lemma DrainedPair(w: World, p: Pair)
    requires CacheInv(w) && Drained(w) && Reportable(w.db, p.section)
    ensures StoredPresent(w.db, p) == Recount(w.db, p)
  {
    assert Settled(w, p);
  }

  lemma DrainedTotals(w: World, sec: SectionId)
    requires CacheInv(w) && Drained(w) && Reportable(w.db, sec)
    ensures StoredPresentTotal(w.db, sec) == RecountTotal(w.db, CollegeOf(w.db, sec), sec)
  {
    var recount := st => |w.db.PresentRecords(CollegeOf(w.db, sec), Pair(st, sec))|;
    var stored := st => StoredPresent(w.db, Pair(st, sec));
    forall st | st in w.db.users.Keys
      ensures stored(st) == recount(st)
    {
      DrainedPair(w, Pair(st, sec));
    }
    SumAgree(w.db.users.Keys, recount, stored);
  }

  /**
   Adding a section's history over its sessions gives the same total as adding the recounts over the students,
   and once drained the same as adding the stored presences.
   */
  lemma HistoryMatchesAggregates(metric: Metric, acts: seq<Action>, t: CollegeId, sec: SectionId, teacher: UserId)
    requires SectionHistory(Run(Genesis(metric), acts).db, t, sec, teacher).Ok?
    ensures var w := Run(Genesis(metric), acts);
      var shown := HistoryTotal(SectionHistory(w.db, t, sec, teacher).value);
      && shown == RecountTotal(w.db, t, sec)
      && (Drained(w) && w.db.CourseVisible(t, sec) ==> shown == StoredPresentTotal(w.db, sec))
  {
    var w := Run(Genesis(metric), acts);
    GenesisCacheInv(metric);
    RunCacheInv(Genesis(metric), acts);
    HistoryCounts(w.db, t, sec, teacher);
    StudentCounts(w.db, t, sec);
    if Drained(w) && w.db.CourseVisible(t, sec) {
      DrainedTotals(w, sec);
    }
  }

  // ----- alerts -----

  /**
   Consuming e must raise this alert: it names e's student and section, the section's own threshold, and the
   student's own percentage of a positive number of ended sessions, which lies below that threshold.
   */
  ghost predicate Breaches(db: Db, e: Event, al: Alert) {
    && al.student == e.student && al.section == e.section && al.college == e.college && Reportable(db, al.section)
    && 0 < EndedCount(db, al.section) && al.pct == Pct(Recount(db, e.Target()), EndedCount(db, al.section))
    && db.courses[db.sections[al.section].course].threshold == Some(al.threshold) && al.pct < al.threshold
  }

  lemma AlertsOfEvent(db: Db, e: Event, al: Alert)
    requires Consistent(db) && EventSound(db, e)
    ensures AlertsOf(db, e.college, e.Target())[al] == if Breaches(db, e, al) then 1 else 0
  {
    if Reportable(db, e.section) {
      RefreshSucceeds(db, e.Target());
    }
  }

  lemma StepRaises(w: World, a: Action, al: Alert)
    requires Consistent(w.db) && BusSound(w)
    ensures Step(w, a).alerts[al]
         == w.alerts[al] + (if Possible(w, a) && a.Consume? && Breaches(w.db, a.e, al) then 1 else 0)
  {
    if !a.Consume? {
      StepAlerts(w, a);
    } else if Possible(w, a) {
      assert OnBus(w, a.e);
      AlertsOfEvent(w.db, a.e, al);
      assert Step(w, a).alerts == w.alerts + AlertsOf(w.db, a.e.college, a.e.Target());
    }
  }

  ghost predicate RaisedAt(metric: Metric, acts: seq<Action>, i: nat, al: Alert)
    requires i < |acts|
  {
    var w := Run(Genesis(metric), acts[..i]);
    acts[i].Consume? && Possible(w, acts[i]) && Breaches(w.db, acts[i].e, al)
  }

  /** How often the run has consumed an event of the student while below the threshold with just that percentage. */
  ghost function Breachings(metric: Metric, acts: seq<Action>, al: Alert): nat {
    if acts == [] then 0
    else Breachings(metric, acts[..|acts| - 1], al) + (if RaisedAt(metric, acts, |acts| - 1, al) then 1 else 0)
  }

  /** Every run has raised each alert exactly as often as it has consumed an event in breach of the threshold. */
  lemma {:induction false} AlertsAreBreachings(metric: Metric, acts: seq<Action>, al: Alert)
    ensures Run(Genesis(metric), acts).alerts[al] == Breachings(metric, acts, al)
    decreases |acts|
  {
    if acts != [] {
      var init := acts[..|acts| - 1];
      AlertsAreBreachings(metric, init, al);
      GenesisCacheInv(metric);
      RunCacheInv(Genesis(metric), init);
      StepRaises(Run(Genesis(metric), init), acts[|acts| - 1], al);
    }
  }

  ghost predicate EverRaised(metric: Metric, acts: seq<Action>, al: Alert) {
    exists i: nat :: i < |acts| && RaisedAt(metric, acts, i, al)
  }

  lemma EverRaisedStep(metric: Metric, acts: seq<Action>, al: Alert)
    requires acts != [] && EverRaised(metric, acts[..|acts| - 1], al)
    ensures EverRaised(metric, acts, al)
  {
    var init := acts[..|acts| - 1];
    var i: nat :| i < |init| && RaisedAt(metric, init, i, al);
    assert init[..i] == acts[..i];
    assert RaisedAt(metric, acts, i, al);
  }

  lemma {:induction false} SomeBreaching(metric: Metric, acts: seq<Action>, al: Alert)
    requires Breachings(metric, acts, al) > 0
    ensures EverRaised(metric, acts, al)
    decreases |acts|
  {
    if !RaisedAt(metric, acts, |acts| - 1, al) {
      SomeBreaching(metric, acts[..|acts| - 1], al);
      EverRaisedStep(metric, acts, al);
    }
  }

  lemma BreachBounded(db: Db, e: Event, al: Alert)
    requires Consistent(db) && Breaches(db, e, al)
    ensures 0.0 <= al.pct <= 200.0
  {
    PresentBound(db, CollegeOf(db, e.section), e.Target());
    PctBound(Recount(db, e.Target()), EndedCount(db, e.section));
  }

  /**
   Every alert goes back to a moment at which an event of the student it names was consumed and the student's own
   percentage was the one it states, below the threshold of the section's course and between 0 and 200.
   */
  lemma EveryAlertIsABreach(metric: Metric, acts: seq<Action>, al: Alert)
    requires al in Run(Genesis(metric), acts).alerts
    ensures EverRaised(metric, acts, al) && 0.0 <= al.pct <= 200.0
  {
    AlertsAreBreachings(metric, acts, al);
    SomeBreaching(metric, acts, al);
    var i: nat :| i < |acts| && RaisedAt(metric, acts, i, al);
    RunConsistent(metric, acts[..i]);
    BreachBounded(Run(Genesis(metric), acts[..i]).db, acts[i].e, al);
  }
}
