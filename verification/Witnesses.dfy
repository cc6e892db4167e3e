/** Small runs that show where a condition in the theorems is needed. */
module Witnesses {
  import opened Prelude
  import opened Decimals
  import opened Tables
  import opened Worlds
  import opened SessionService
  import opened AttendanceService
  import opened ReportingService
  import opened Runs
  import opened Consistency
  import opened AggregateCache
  import opened AggregateRuns
  import opened CacheTheorems
  import opened NonInterference

  const US: CollegeId := 0
  const THEM: CollegeId := 9
  const TEACHER: UserId := 1
  const STUDENT: UserId := 2
  const STRANGER: UserId := 6
  const COURSE: CourseId := 3
  const SECTION: SectionId := 4
  const FIRST: SessionId := 5
  const SECOND: SessionId := 7
  const NO_FENCE := Geo(None, None, None)
  const DEFAULTS := Policy(None, None)
  const LECTURE := Section(US, COURSE, TEACHER, None, NO_FENCE)
  const SEAT := Pair(STUDENT, SECTION)
  const CODE: string := Padded(0, 6)
  const OPEN := Session(US, SECTION, TEACHER, 0, None, CODE, 0, NO_FENCE)
  const OVER := OPEN.(endedAt := Some(0))
  const PRESENT := Record(US, OverriddenPresent, 0, None)

  function Key(sid: SessionId): RecordKey {
    RecordKey(sid, STUDENT)
  }

  function Recorded(sid: SessionId): Event {
    Event(Key(sid), sid, STUDENT, US, SECTION, OverriddenPresent, 0)
  }

  // ----- two colleges, one section, whose course belongs to `owner` -----

  function Colleges(): seq<Action> {
    [AddCollege(US, DEFAULTS)] + [AddCollege(THEM, DEFAULTS)]
  }

  function Staff(): seq<Action> {
    Colleges() + [AddUser(US, TEACHER, Teacher)]
  }

  function People(): seq<Action> {
    Staff() + [AddUser(US, STUDENT, Student)]
  }

  function Courses(owner: CollegeId): seq<Action> {
    People() + [AddCourse(owner, COURSE, None)]
  }

  function Lectures(owner: CollegeId): seq<Action> {
    Courses(owner) + [AddSection(US, SECTION, LECTURE)]
  }

  function Classroom(owner: CollegeId): seq<Action> {
    Lectures(owner) + [Enroll(US, STUDENT, SECTION)]
  }

  ghost function CollegesDb(): Db {
    EMPTY_DB.(colleges := map[US := DEFAULTS, THEM := DEFAULTS])
  }

  ghost function StaffDb(): Db {
    CollegesDb().(users := map[TEACHER := User(US, Teacher)])
  }

  ghost function PeopleDb(): Db {
    StaffDb().(users := map[TEACHER := User(US, Teacher), STUDENT := User(US, Student)])
  }

  ghost function CoursesDb(owner: CollegeId): Db {
    PeopleDb().(courses := map[COURSE := Course(owner, None)])
  }

  ghost function LecturesDb(owner: CollegeId): Db {
    CoursesDb(owner).(sections := map[SECTION := LECTURE])
  }

  ghost function ClassroomDb(owner: CollegeId): Db {
    LecturesDb(owner).(enrollments := map[SEAT := US])
  }

  lemma ReachColleges(metric: Metric)
    ensures Run(Genesis(metric), Colleges()) == Genesis(metric).(db := CollegesDb())
  {
    RunOne(Genesis(metric), AddCollege(US, DEFAULTS));
    RunMore(Genesis(metric), [AddCollege(US, DEFAULTS)], AddCollege(THEM, DEFAULTS));
  }

  lemma ReachStaff(metric: Metric)
    ensures Run(Genesis(metric), Staff()) == Genesis(metric).(db := StaffDb())
  {
    ReachColleges(metric);
    RunMore(Genesis(metric), Colleges(), AddUser(US, TEACHER, Teacher));
  }

  lemma ReachPeople(metric: Metric)
    ensures Run(Genesis(metric), People()) == Genesis(metric).(db := PeopleDb())
  {
    ReachStaff(metric);
    RunMore(Genesis(metric), Staff(), AddUser(US, STUDENT, Student));
  }

  lemma ReachCourses(metric: Metric, owner: CollegeId)
    requires owner == US || owner == THEM
    ensures Run(Genesis(metric), Courses(owner)) == Genesis(metric).(db := CoursesDb(owner))
  {
    ReachPeople(metric);
    RunMore(Genesis(metric), People(), AddCourse(owner, COURSE, None));
  }

  lemma ReachLectures(metric: Metric, owner: CollegeId)
    requires owner == US || owner == THEM
    ensures Run(Genesis(metric), Lectures(owner)) == Genesis(metric).(db := LecturesDb(owner))
  {
    ReachCourses(metric, owner);
    RunMore(Genesis(metric), Courses(owner), AddSection(US, SECTION, LECTURE));
  }

  lemma Enrolls(w: World, owner: CollegeId)
    requires w.db == LecturesDb(owner)
    ensures Step(w, Enroll(US, STUDENT, SECTION)) == w.(db := ClassroomDb(owner))
  {
  }

  lemma ReachClassroom(metric: Metric, owner: CollegeId)
    requires owner == US || owner == THEM
    ensures Run(Genesis(metric), Classroom(owner)) == Genesis(metric).(db := ClassroomDb(owner))
  {
    ReachLectures(metric, owner);
    RunMore(Genesis(metric), Lectures(owner), Enroll(US, STUDENT, SECTION));
    Enrolls(Run(Genesis(metric), Lectures(owner)), owner);
  }

  // ----- what the steps of a lecture do there -----

  /** The classroom with these sessions and records, and these events still to publish. */
  ghost predicate Shows(w: World, owner: CollegeId, sessions: map<SessionId, Session>, records: map<RecordKey, Record>,
                        owed: multiset<Event>)
  {
    && w.db.(sessions := map[], records := map[], overrides := [], aggregates := map[]) == ClassroomDb(owner)
    && w.db.sessions == sessions && w.db.records == records
    && w.now == 0 && w.pending == owed && w.unread == multiset{}
  }

  lemma MayStart(w: World, owner: CollegeId, sessions: map<SessionId, Session>, records: map<RecordKey, Record>, sid: SessionId)
    requires Shows(w, owner, sessions, records, multiset{})
    requires sid !in sessions && forall s :: s in sessions ==> sessions[s] == OVER
    ensures Possible(w, Start(US, TEACHER, SECTION, NO_FENCE, sid, CODE))
    ensures StartEffect(w, US, TEACHER, SECTION, NO_FENCE, sid, CODE).outcome.Ok?
  {
    assert w.db.OpenSessions(US, SECTION) == {};
    CodeIff(CODE);
  }

  lemma Starts(w: World, owner: CollegeId, sessions: map<SessionId, Session>, records: map<RecordKey, Record>, sid: SessionId)
    requires Shows(w, owner, sessions, records, multiset{})
    requires sid !in sessions && forall s :: s in sessions ==> sessions[s] == OVER
    ensures Shows(Step(w, Start(US, TEACHER, SECTION, NO_FENCE, sid, CODE)), owner, sessions[sid := OPEN], records, multiset{})
  {
    MayStart(w, owner, sessions, records, sid);
    assert Step(w, Start(US, TEACHER, SECTION, NO_FENCE, sid, CODE)) == Opened(w, sid, OPEN);
  }

  lemma Records(w: World, owner: CollegeId, sessions: map<SessionId, Session>, records: map<RecordKey, Record>, sid: SessionId)
    requires Shows(w, owner, sessions, records, multiset{})
    requires sid in sessions && sessions[sid] == OPEN && Key(sid) !in records
    ensures Shows(Step(w, Correct(US, TEACHER, sid, STUDENT, "overridden_present", "")), owner, sessions,
                  records[Key(sid) := PRESENT], multiset{Recorded(sid)})
  {
    assert w.db.Teaches(US, TEACHER, sid);
    assert multiset{} + multiset{Recorded(sid)} == multiset{Recorded(sid)};
  }

  lemma Publishes(w: World, sid: SessionId)
    requires w.pending == multiset{Recorded(sid)} && w.unread == multiset{}
    ensures var after := Step(w, Publish(Recorded(sid)));
      && after.db == w.db && after.now == w.now && after.pending == multiset{} && after.unread == multiset{Recorded(sid)}
      && Possible(after, Consume(Recorded(sid)))
  {
  }

  lemma Delivers(w: World, owner: CollegeId, sessions: map<SessionId, Session>, records: map<RecordKey, Record>, sid: SessionId)
    requires Shows(w, owner, sessions, records, multiset{Recorded(sid)})
    ensures Shows(Step(Step(w, Publish(Recorded(sid))), Consume(Recorded(sid))), owner, sessions, records, multiset{})
  {
    Publishes(w, sid);
    var published := Step(w, Publish(Recorded(sid)));
    assert Step(published, Consume(Recorded(sid))) == ConsumeEffect(published, Recorded(sid));
  }

  lemma NobodyAbsent(w: World, sessions: map<SessionId, Session>, records: map<RecordKey, Record>, sid: SessionId)
    requires Shows(w, US, sessions, records, multiset{}) && sid in sessions && sessions[sid] == OPEN
    requires Key(sid) in records && records[Key(sid)] == PRESENT
    ensures w.db.Teaches(US, TEACHER, sid) && Absentees(w.db, US, sid, w.db.Enrolled(US, w.db.sessions[sid].section)) == {}
  {
    assert w.db.SeesRecord(US, Key(sid));
    assert w.db.Enrolled(US, SECTION) == {STUDENT};
  }

  /** A closing that marks nobody absent only ends the row and drops the keys. */
  lemma ClosesQuietly(w: World, t: CollegeId, teacher: UserId, sid: SessionId)
    requires w.db.Teaches(t, teacher, sid) && w.db.sessions[sid].endedAt.None?
    requires Absentees(w.db, t, sid, w.db.Enrolled(t, w.db.sessions[sid].section)) == {}
    ensures EndEffect(w, t, teacher, sid).outcome.Ok?
    ensures var after := EndEffect(w, t, teacher, sid).world;
      && after.db == w.db.(sessions := w.db.sessions[sid := w.db.sessions[sid].(endedAt := Some(w.now))])
      && after.now == w.now && after.pending == w.pending && after.unread == w.unread
  {
    assert w.db.records + AbsentRecords(t, sid, w.now, {}) == w.db.records;
    assert w.pending + multiset(AbsentEvents(t, w.db.sessions[sid].section, sid, w.now, {})) == w.pending;
  }

  lemma Ends(w: World, sessions: map<SessionId, Session>, records: map<RecordKey, Record>, sid: SessionId)
    requires Shows(w, US, sessions, records, multiset{}) && sid in sessions && sessions[sid] == OPEN
    requires Key(sid) in records && records[Key(sid)] == PRESENT
    ensures EndEffect(w, US, TEACHER, sid).outcome.Ok?
    ensures Shows(EndEffect(w, US, TEACHER, sid).world, US, sessions[sid := OVER], records, multiset{})
  {
    NobodyAbsent(w, sessions, records, sid);
    ClosesQuietly(w, US, TEACHER, sid);
  }

  // ----- the first lecture -----

  function Opening(owner: CollegeId): seq<Action> {
    Classroom(owner) + [Start(US, TEACHER, SECTION, NO_FENCE, FIRST, CODE)]
  }

  lemma ReachOpened(metric: Metric, owner: CollegeId)
    requires owner == US || owner == THEM
    ensures Shows(Run(Genesis(metric), Opening(owner)), owner, map[FIRST := OPEN], map[], multiset{})
  {
    ReachClassroom(metric, owner);
    RunMore(Genesis(metric), Classroom(owner), Start(US, TEACHER, SECTION, NO_FENCE, FIRST, CODE));
    Starts(Run(Genesis(metric), Classroom(owner)), owner, map[], map[], FIRST);
  }

  function Recording(owner: CollegeId): seq<Action> {
    Opening(owner) + [Correct(US, TEACHER, FIRST, STUDENT, "overridden_present", "")]
  }

  lemma ReachRecorded(metric: Metric, owner: CollegeId)
    requires owner == US || owner == THEM
    ensures Shows(Run(Genesis(metric), Recording(owner)), owner, map[FIRST := OPEN], map[Key(FIRST) := PRESENT],
                  multiset{Recorded(FIRST)})
  {
    ReachOpened(metric, owner);
    RunMore(Genesis(metric), Opening(owner), Correct(US, TEACHER, FIRST, STUDENT, "overridden_present", ""));
    Records(Run(Genesis(metric), Opening(owner)), owner, map[FIRST := OPEN], map[], FIRST);
  }

  function Delivering(owner: CollegeId): seq<Action> {
    Recording(owner) + [Publish(Recorded(FIRST))] + [Consume(Recorded(FIRST))]
  }

  lemma ReachDelivered(metric: Metric, owner: CollegeId)
    requires owner == US || owner == THEM
    ensures Shows(Run(Genesis(metric), Delivering(owner)), owner, map[FIRST := OPEN], map[Key(FIRST) := PRESENT], multiset{})
  {
    ReachRecorded(metric, owner);
    RunMore(Genesis(metric), Recording(owner), Publish(Recorded(FIRST)));
    RunMore(Genesis(metric), Recording(owner) + [Publish(Recorded(FIRST))], Consume(Recorded(FIRST)));
    Delivers(Run(Genesis(metric), Recording(owner)), owner, map[FIRST := OPEN], map[Key(FIRST) := PRESENT], FIRST);
  }

  function Ending(): seq<Action> {
    Delivering(US) + [End(US, TEACHER, FIRST)]
  }

  lemma DeliveredInv(metric: Metric)
    ensures var w := Run(Genesis(metric), Delivering(US));
      CacheInv(w) && Shows(w, US, map[FIRST := OPEN], map[Key(FIRST) := PRESENT], multiset{})
  {
    ReachDelivered(metric, US);
    GenesisCacheInv(metric);
    RunCacheInv(Genesis(metric), Delivering(US));
  }

  lemma EndingStep(metric: Metric)
    ensures Run(Genesis(metric), Ending()) == EndEffect(Run(Genesis(metric), Delivering(US)), US, TEACHER, FIRST).world
  {
    RunMore(Genesis(metric), Delivering(US), End(US, TEACHER, FIRST));
  }

  lemma ReachEnded(metric: Metric)
    ensures EndEffect(Run(Genesis(metric), Delivering(US)), US, TEACHER, FIRST).outcome.Ok?
    ensures Shows(Run(Genesis(metric), Ending()), US, map[FIRST := OVER], map[Key(FIRST) := PRESENT], multiset{})
  {
    ReachDelivered(metric, US);
    EndingStep(metric);
    Ends(Run(Genesis(metric), Delivering(US)), map[FIRST := OPEN], map[Key(FIRST) := PRESENT], FIRST);
    assert map[FIRST := OPEN][FIRST := OVER] == map[FIRST := OVER];
  }

  // ----- a foreign user -----

  lemma OverrideNeedsTheUser(w: World, users: map<UserId, User>)
    requires TEACHER in users && w.db.users == users && w.db.sections == map[SECTION := LECTURE]
    requires w.db.sessions == map[FIRST := OPEN] && w.db.records == map[]
    ensures OverrideEffect(w, US, TEACHER, FIRST, STRANGER, "overridden_present", "").outcome
         == if STRANGER in users then Ok(OverriddenPresent) else Err(StoreError)
  {
  }

  lemma OverrideBeforeAndAfter(v: World)
    requires Shows(v, US, map[FIRST := OPEN], map[], multiset{})
    ensures var w := Step(v, AddUser(THEM, STRANGER, Student));
      && OverrideEffect(v, US, TEACHER, FIRST, STRANGER, "overridden_present", "").outcome == Err(StoreError)
      && OverrideEffect(w, US, TEACHER, FIRST, STRANGER, "overridden_present", "").outcome == Ok(OverriddenPresent)
  {
    var w := Step(v, AddUser(THEM, STRANGER, Student));
    OverrideNeedsTheUser(v, v.db.users);
    OverrideNeedsTheUser(w, w.db.users);
  }

  /**
   Another college's rows can show in one place: an override of an unknown student fails, and once another college
   has created a user with that id it succeeds, although no row of the teacher's own college has changed.
   */
  lemma ForeignUserShowsInOverride(metric: Metric)
    ensures var v := Run(Genesis(metric), Opening(US));
      var w := Step(v, AddUser(THEM, STRANGER, Student));
      && Agree(v, w, US)
      && OverrideEffect(v, US, TEACHER, FIRST, STRANGER, "overridden_present", "").outcome == Err(StoreError)
      && OverrideEffect(w, US, TEACHER, FIRST, STRANGER, "overridden_present", "").outcome == Ok(OverriddenPresent)
  {
    RunSound(metric, Opening(US));
    OthersInvisible(Run(Genesis(metric), Opening(US)), AddUser(THEM, STRANGER, Student), US);
    ReachOpened(metric, US);
    OverrideBeforeAndAfter(Run(Genesis(metric), Opening(US)));
  }

  // ----- a foreign course -----

  lemma OnePresence(w: World, owner: CollegeId)
    requires Shows(w, owner, map[FIRST := OPEN], map[Key(FIRST) := PRESENT], multiset{})
    ensures SECTION in w.db.sections && Recount(w.db, SEAT) == 1
  {
    assert w.db.PresentRecords(US, SEAT) == {Key(FIRST)};
  }

  /**
   A section whose course belongs to another college: every event is published and consumed, the student is
   recorded present, and the stored count is still wrong.
   */
  lemma ForeignCourseLosesPresence(metric: Metric)
    ensures var w := Run(Genesis(metric), Delivering(THEM));
      && Drained(w) && SECTION in w.db.sections && !Reportable(w.db, SECTION)
      && Recount(w.db, SEAT) == 1 && StoredPresent(w.db, SEAT) != Recount(w.db, SEAT)
  {
    var w := Run(Genesis(metric), Delivering(THEM));
    ReachDelivered(metric, THEM);
    OnePresence(w, THEM);
    PresentExactIff(metric, Delivering(THEM), SEAT);
  }

  // ----- a total left behind -----

  lemma SeatBehind(w: World)
    requires CacheInv(w) && Shows(w, US, map[FIRST := OPEN], map[Key(FIRST) := PRESENT], multiset{})
    requires EndEffect(w, US, TEACHER, FIRST).outcome.Ok?
    ensures var after := EndEffect(w, US, TEACHER, FIRST).world;
      SECTION in after.db.sections && Reportable(after.db, SECTION) && !TotalExact(after.db, SEAT)
  {
    assert w.db.SeesRecord(US, Key(FIRST)) && Reportable(w.db, SECTION);
    assert !Owed(w, SEAT);
    RecordedStudentLeftBehind(w, US, TEACHER, FIRST, STUDENT);
    EndKeepsReportable(w, US, TEACHER, FIRST);
  }

  /**
   A student recorded before the session closes: once everything is consumed the stored total is still one
   session behind, because the closing owes that student no event.
   */
  lemma TotalStaysBehind(metric: Metric)
    ensures var w := Run(Genesis(metric), Ending());
      && Drained(w) && SECTION in w.db.sections && Reportable(w.db, SECTION)
      && !TotalExact(w.db, SEAT)
  {
    DeliveredInv(metric);
    ReachEnded(metric);
    EndingStep(metric);
    SeatBehind(Run(Genesis(metric), Delivering(US)));
  }

  // ----- two hundred per cent -----

  function Reopening(): seq<Action> {
    Ending() + [Start(US, TEACHER, SECTION, NO_FENCE, SECOND, CODE)]
  }

  lemma ReachReopened(metric: Metric)
    ensures Shows(Run(Genesis(metric), Reopening()), US, map[FIRST := OVER, SECOND := OPEN], map[Key(FIRST) := PRESENT], multiset{})
  {
    ReachEnded(metric);
    RunMore(Genesis(metric), Ending(), Start(US, TEACHER, SECTION, NO_FENCE, SECOND, CODE));
    Starts(Run(Genesis(metric), Ending()), US, map[FIRST := OVER], map[Key(FIRST) := PRESENT], SECOND);
  }

  const BOTH_PRESENT := map[Key(FIRST) := PRESENT, Key(SECOND) := PRESENT]

  function Announcing(): seq<Action> {
    Reopening() + [Correct(US, TEACHER, SECOND, STUDENT, "overridden_present", "")] + [Publish(Recorded(SECOND))]
  }

  lemma ReachAnnounced(metric: Metric)
    ensures var w := Run(Genesis(metric), Announcing());
      && w.db.(sessions := map[], records := map[], overrides := [], aggregates := map[]) == ClassroomDb(US)
      && w.db.sessions == map[FIRST := OVER, SECOND := OPEN] && w.db.records == BOTH_PRESENT
      && w.pending == multiset{} && w.unread == multiset{Recorded(SECOND)} && Possible(w, Consume(Recorded(SECOND)))
  {
    var sessions := map[FIRST := OVER, SECOND := OPEN];
    ReachReopened(metric);
    RunMore(Genesis(metric), Reopening(), Correct(US, TEACHER, SECOND, STUDENT, "overridden_present", ""));
    RunMore(Genesis(metric), Reopening() + [Correct(US, TEACHER, SECOND, STUDENT, "overridden_present", "")],
            Publish(Recorded(SECOND)));
    var w := Run(Genesis(metric), Reopening());
    Records(w, US, sessions, map[Key(FIRST) := PRESENT], SECOND);
    Publishes(Step(w, Correct(US, TEACHER, SECOND, STUDENT, "overridden_present", "")), SECOND);
  }

  lemma TwoOfOne(db: Db)
    requires db.(sessions := map[], records := map[], overrides := [], aggregates := map[]) == ClassroomDb(US)
    requires db.sessions == map[FIRST := OVER, SECOND := OPEN] && db.records == BOTH_PRESENT
    ensures Reportable(db, SECTION) && Recount(db, SEAT) == 2 && EndedCount(db, SECTION) == 1
  {
    assert db.PresentRecords(US, SEAT) == {Key(FIRST), Key(SECOND)};
    assert db.EndedSessions(US, SECTION) == {FIRST};
  }

  lemma AnnouncedInv(metric: Metric)
    ensures CacheInv(Run(Genesis(metric), Announcing()))
  {
    GenesisCacheInv(metric);
    RunCacheInv(Genesis(metric), Announcing());
  }

  lemma SecondIsCounted(w: World)
    requires Consistent(w.db) && BusSound(w) && Possible(w, Consume(Recorded(SECOND)))
    requires Reportable(w.db, SECTION) && Recount(w.db, SEAT) == 2 && EndedCount(w.db, SECTION) == 1
    ensures var db := Step(w, Consume(Recorded(SECOND))).db;
      && SEAT in db.aggregates && db.aggregates[SEAT].present == 2 && db.aggregates[SEAT].total == 1
      && db.aggregates[SEAT].hundredths == 20_000
  {
    ConsumeStores(w, Recorded(SECOND));
    assert Recorded(SECOND).Target() == SEAT;
    assert Hundredths(2, 1) == 20_000;
  }

  lemma SecondIsTheLast(w: World)
    requires w.pending == multiset{} && w.unread == multiset{Recorded(SECOND)} && Possible(w, Consume(Recorded(SECOND)))
    ensures Drained(Step(w, Consume(Recorded(SECOND))))
  {
  }

  /** One ended session attended, a second still open and attended too, and the event consumed: 200.00 is stored. */
  lemma StoredPercentageReachesTwoHundred(metric: Metric)
    ensures var w := Run(Genesis(metric), Announcing() + [Consume(Recorded(SECOND))]);
      && Drained(w) && SEAT in w.db.aggregates
      && w.db.aggregates[SEAT].present == 2 && w.db.aggregates[SEAT].total == 1 && w.db.aggregates[SEAT].hundredths == 20_000
  {
    var w := Run(Genesis(metric), Announcing());
    RunMore(Genesis(metric), Announcing(), Consume(Recorded(SECOND)));
    ReachAnnounced(metric);
    TwoOfOne(w.db);
    AnnouncedInv(metric);
    SecondIsCounted(w);
    SecondIsTheLast(w);
  }
}
